/** The session list: keyset pages in (started_at, id) order, newest first, chained by opaque cursors. */
module Paging {
  import opened Stamps
  import opened Events
  import opened Tables
  import opened Store

  // Where a session stands in the list; the cursor of a page is the position of its last row.
  datatype Pos = Pos(started: Time, id: string)

  datatype Filter = Filter(from: Option<Time>, to: Option<Time>, source: string, kind: string, mediaId: string,
                           limit: int, cursor: string)

  datatype Listed = Listed(id: string, row: SessionRow)

  datatype Answer = Answer(rows: seq<Listed>, next: string)

  const DEFAULT_LIMIT := 50
  const MAX_LIMIT := 200

  function PageSize(limit: int): (n: nat)
    ensures 0 < n <= MAX_LIMIT
  {
    if limit <= 0 then DEFAULT_LIMIT else if limit > MAX_LIMIT then MAX_LIMIT else limit
  }

  // ----- the order of the list -----

  // p is listed before q: later start first, larger id first among equal starts, both compared as text.
  predicate Ahead(p: Pos, q: Pos) {
    StampLess(q.started, p.started) || (SameStamp(q.started, p.started) && StrLess(q.id, p.id))
  }

  lemma AheadAsymmetric(p: Pos, q: Pos)
    ensures !(Ahead(p, q) && Ahead(q, p))
  {
    StampLessAsymmetric(p.started, q.started);
    StampLessTotal(p.started, q.started);
    StampLessTotal(q.started, p.started);
    StrLessAsymmetric(p.id, q.id);
  }

  lemma AheadTransitive(p: Pos, q: Pos, r: Pos)
    requires Ahead(p, q) && Ahead(q, r)
    ensures Ahead(p, r)
  {
    if StampLess(r.started, q.started) && StampLess(q.started, p.started) {
      StampLessTransitive(r.started, q.started, p.started);
    }
    if StrLess(r.id, q.id) && StrLess(q.id, p.id) {
      StrLessTransitive(r.id, q.id, p.id);
    }
  }

  lemma AheadTotal(p: Pos, q: Pos)
    ensures p.id == q.id || Ahead(p, q) || Ahead(q, p)
  {
    StampLessTotal(p.started, q.started);
    StrLessTotal(p.id, q.id);
  }

  function At(db: Db, s: string): Pos
    requires s in db.sessions
  {
    Pos(db.sessions[s].agg.started, s)
  }

  predicate Comes(db: Db, s: string, t: string)
    requires s in db.sessions && t in db.sessions
  {
    Ahead(At(db, s), At(db, t))
  }

  predicate IsFirst(db: Db, ids: set<string>, s: string)
    requires ids <= db.sessions.Keys && s in db.sessions
  {
    s in ids && forall t | t in ids && t != s :: Comes(db, s, t)
  }

  lemma {:induction false} HasFirst(db: Db, ids: set<string>)
    requires ids != {} && ids <= db.sessions.Keys
    ensures exists s | s in ids :: IsFirst(db, ids, s)
  {
    var x :| x in ids;
    var rest := ids - {x};
    if rest == {} {
      assert forall t | t in ids && t != x :: t in rest;
      assert IsFirst(db, ids, x);
    } else {
      HasFirst(db, rest);
      var s :| s in rest && IsFirst(db, rest, s);
      var first := if Comes(db, x, s) then x else s;
      AheadTotal(At(db, x), At(db, s));
      hide Ahead;
      forall t | t in ids && t != first ensures Comes(db, first, t) {
        assert t != x ==> t in rest;
        if first == x && t != s {
          assert Comes(db, s, t);
          AheadTransitive(At(db, x), At(db, s), At(db, t));
        }
      }
      assert IsFirst(db, ids, first);
    }
  }

  ghost function First(db: Db, ids: set<string>): (s: string)
    requires ids != {} && ids <= db.sessions.Keys
    ensures s in ids && IsFirst(db, ids, s)
  {
    HasFirst(db, ids);
    var s :| s in ids && IsFirst(db, ids, s);
    s
  }

  // ORDER BY started_at DESC, id DESC.
  ghost function Listing(db: Db, ids: set<string>): seq<string>
    requires ids <= db.sessions.Keys
  {
    if ids == {} then [] else [First(db, ids)] + Listing(db, ids - {First(db, ids)})
  }

  lemma ListingStep(db: Db, ids: set<string>)
    requires ids <= db.sessions.Keys
    ensures ids == {} <==> Listing(db, ids) == []
    ensures ids != {} ==>
      Listing(db, ids)[0] == First(db, ids) && Listing(db, ids)[1..] == Listing(db, ids - {First(db, ids)})
  {
  }

  lemma {:induction false} ListingElems(db: Db, ids: set<string>)
    requires ids <= db.sessions.Keys
    ensures |Listing(db, ids)| == |ids| && forall s :: s in Listing(db, ids) <==> s in ids
  {
    if ids != {} {
      ListingElems(db, ids - {First(db, ids)});
      hide IsFirst;
    }
  }

  /** The list is in order, so no session is listed twice. */
  lemma {:induction false} ListingOrdered(db: Db, ids: set<string>, i: nat, j: nat)
    requires ids <= db.sessions.Keys && i < j < |Listing(db, ids)|
    ensures Listing(db, ids)[i] in ids && Listing(db, ids)[j] in ids
    ensures Comes(db, Listing(db, ids)[i], Listing(db, ids)[j]) && Listing(db, ids)[i] != Listing(db, ids)[j]
  {
    var first := First(db, ids);
    var rest := ids - {first};
    ListingStep(db, ids);
    ListingElems(db, rest);
    hide Ahead, Listing;
    var all, tail := Listing(db, ids), Listing(db, rest);
    assert all[j] == tail[j - 1] && (i > 0 ==> all[i] == tail[i - 1]);
    if i > 0 {
      ListingOrdered(db, rest, i - 1, j - 1);
    } else {
      assert tail[j - 1] in tail;
    }
  }

  lemma FirstUnique(db: Db, ids: set<string>, s: string)
    requires ids <= db.sessions.Keys && s in ids && IsFirst(db, ids, s)
    ensures First(db, ids) == s
  {
    var t := First(db, ids);
    AheadAsymmetric(At(db, s), At(db, t));
    hide Ahead;
  }

  // The sessions listed after a given position.
  ghost function Behind(db: Db, ids: set<string>, p: Pos): set<string>
    requires ids <= db.sessions.Keys
  {
    set s | s in ids && Ahead(p, At(db, s))
  }

  /** A keyset cursor cuts the list exactly: what is behind the n-th row is the list without its first n. */
  lemma {:induction false} CursorCuts(db: Db, ids: set<string>, n: nat)
    requires ids <= db.sessions.Keys && 0 < n <= |Listing(db, ids)|
    ensures Listing(db, ids)[n - 1] in ids
    ensures Listing(db, Behind(db, ids, At(db, Listing(db, ids)[n - 1]))) == Listing(db, ids)[n..]
  {
    ListingStep(db, ids);
    hide Ahead, Listing;
    var first := First(db, ids);
    var rest := ids - {first};
    assert n > 1 ==> Listing(db, ids)[n - 1] == Listing(db, rest)[n - 2];
    if n == 1 {
      AheadAsymmetric(At(db, first), At(db, first));
      assert Behind(db, ids, At(db, first)) == rest;
    } else {
      CursorCuts(db, rest, n - 1);
      var cut := At(db, Listing(db, rest)[n - 2]);
      AheadAsymmetric(At(db, first), cut);
      assert Behind(db, ids, cut) == Behind(db, rest, cut);
    }
  }

  // ----- pages -----

  predicate Matches(db: Db, f: Filter, s: string) {
    && s in db.sessions
    && var row := db.sessions[s];
    && row.deleted.None? && row.media in db.media
    && (f.from.Some? ==> !StampLess(row.agg.started, f.from.value))
    && (f.to.Some? ==> StampLess(row.agg.started, f.to.value))
    && (f.source != "" ==> row.kind == f.source)
    && (f.kind != "" ==> db.media[row.media].kind == f.kind)
    && (f.mediaId != "" ==> row.media == f.mediaId)
  }

  ghost function Matching(db: Db, f: Filter): set<string> {
    set s | s in db.sessions && Matches(db, f, s)
  }

  ghost function Remaining(db: Db, f: Filter, cur: Option<Pos>): set<string> {
    if cur.None? then Matching(db, f) else Behind(db, Matching(db, f), cur.value)
  }

  ghost function Page(db: Db, f: Filter, cur: Option<Pos>): (seq<string>, Option<Pos>) {
    var all, n := Listing(db, Remaining(db, f, cur)), PageSize(f.limit);
    ListingElems(db, Remaining(db, f, cur));
    if |all| > n then (all[..n], Some(At(db, all[n - 1]))) else (all, None)
  }

  lemma NextRemaining(db: Db, f: Filter, cur: Option<Pos>)
    requires Page(db, f, cur).1.Some?
    ensures Listing(db, Remaining(db, f, Page(db, f, cur).1)) == Listing(db, Remaining(db, f, cur))[PageSize(f.limit)..]
    ensures |Remaining(db, f, Page(db, f, cur).1)| < |Remaining(db, f, cur)|
  {
    var ids, n, next := Remaining(db, f, cur), PageSize(f.limit), Page(db, f, cur).1.value;
    ListingElems(db, ids);
    CursorCuts(db, ids, n);
    hide Matches, Ahead, Listing, PageSize;
    assert Remaining(db, f, Some(next)) == Behind(db, ids, next) by {
      BehindBehind(db, f, cur, Listing(db, ids)[n - 1]);
    }
    ListingElems(db, Behind(db, ids, next));
  }

  lemma BehindBehind(db: Db, f: Filter, cur: Option<Pos>, s: string)
    requires s in Remaining(db, f, cur)
    ensures Remaining(db, f, Some(At(db, s))) == Behind(db, Remaining(db, f, cur), At(db, s))
  {
    hide Matches, Ahead;
    forall t | t in Matching(db, f) && cur.Some? && Ahead(At(db, s), At(db, t)) ensures Ahead(cur.value, At(db, t)) {
      AheadTransitive(cur.value, At(db, s), At(db, t));
    }
  }

  // Following next cursors until there is none.
  ghost function Follow(db: Db, f: Filter, cur: Option<Pos>): seq<string>
    decreases |Remaining(db, f, cur)|
  {
    var page := Page(db, f, cur);
    if page.1.None? then page.0
    else
      NextRemaining(db, f, cur);
      page.0 + Follow(db, f, page.1)
  }

  /** For every filter and limit, following the cursors from the start ends and yields exactly the matching
      sessions, in list order, each once. */
  lemma {:induction false} PagesAreTheList(db: Db, f: Filter, cur: Option<Pos>)
    ensures Follow(db, f, cur) == Listing(db, Remaining(db, f, cur))
    decreases |Remaining(db, f, cur)|
  {
    var page := Page(db, f, cur);
    if page.1.Some? {
      NextRemaining(db, f, cur);
      PagesAreTheList(db, f, page.1);
    }
  }

  // ----- pages read while the tables change -----

  /** A page holds exactly the matching sessions between its cursor and the next one. */
  lemma PageMembers(db: Db, f: Filter, cur: Option<Pos>, s: string)
    requires Matches(db, f, s)
    ensures var (rows, next) := Page(db, f, cur);
      s in rows <==> (cur.Some? ==> Ahead(cur.value, At(db, s))) && (next.Some? ==> !Ahead(next.value, At(db, s)))
  {
    var ids, n := Remaining(db, f, cur), PageSize(f.limit);
    var all, next := Listing(db, ids), Page(db, f, cur).1;
    ListingElems(db, ids);
    hide Matches, Ahead, Listing, PageSize;
    if next.Some? && s in ids {
      CursorCuts(db, ids, n);
      ListingElems(db, Behind(db, ids, next.value));
      assert s in all[n..] <==> Ahead(next.value, At(db, s));
      OneSide(db, ids, n, s);
    }
  }

  lemma OneSide(db: Db, ids: set<string>, n: nat, s: string)
    requires ids <= db.sessions.Keys && n <= |Listing(db, ids)| && s in ids
    ensures s in Listing(db, ids)[..n] <==> s !in Listing(db, ids)[n..]
  {
    hide Listing, Ahead;
    var all := Listing(db, ids);
    ListingElems(db, ids);
    assert all == all[..n] + all[n..];
    if s in all[..n] && s in all[n..] {
      var i :| 0 <= i < n && all[i] == s;
      var j :| n <= j < |all| && all[j] == s;
      ListingOrdered(db, ids, i, j);
    }
  }

  // The next cursor is further down than the cursor.
  lemma CursorsDescend(db: Db, f: Filter, cur: Option<Pos>)
    requires cur.Some? && Page(db, f, cur).1.Some?
    ensures Ahead(cur.value, Page(db, f, cur).1.value)
  {
    var ids := Remaining(db, f, cur);
    hide Matches, Ahead, Listing, PageSize;
    CursorCuts(db, ids, PageSize(f.limit));
  }

  // Pages fetched one after the other, each from the tables as they were at that moment.
  ghost predicate Chain(dbs: seq<Db>, f: Filter, curs: seq<Option<Pos>>, pages: seq<seq<string>>) {
    && |dbs| == |pages| && |curs| == |pages| + 1 && curs[0] == None
    && (forall i | 0 <= i < |pages| :: Fetched(dbs[i], f, curs[i], pages[i], curs[i + 1]))
    && (forall i | 0 < i < |pages| :: curs[i].Some?)
  }

  ghost predicate Fetched(db: Db, f: Filter, cur: Option<Pos>, page: seq<string>, next: Option<Pos>) {
    Page(db, f, cur) == (page, next)
  }

  // A session that is listed throughout and keeps its place.
  ghost predicate StaysPut(dbs: seq<Db>, f: Filter, s: string, at: Pos) {
    forall db | db in dbs :: Matches(db, f, s) && At(db, s) == at
  }

  lemma {:induction false} OnceShownIsPassed(dbs: seq<Db>, f: Filter, curs: seq<Option<Pos>>, pages: seq<seq<string>>,
                                             s: string, at: Pos, i: nat, j: nat)
    requires Chain(dbs, f, curs, pages) && StaysPut(dbs, f, s, at) && i < j < |pages| && s in pages[i]
    ensures !Ahead(curs[j].value, at)
  {
    hide Page, Matches, Ahead;
    if i + 1 == j {
      assert Fetched(dbs[i], f, curs[i], pages[i], curs[j]);
      PageMembers(dbs[i], f, curs[i], s);
    } else {
      OnceShownIsPassed(dbs, f, curs, pages, s, at, i, j - 1);
      assert Fetched(dbs[j - 1], f, curs[j - 1], pages[j - 1], curs[j]);
      CursorsDescend(dbs[j - 1], f, curs[j - 1]);
      if Ahead(curs[j].value, at) {
        AheadTransitive(curs[j - 1].value, curs[j].value, at);
      }
    }
  }

  /** Whatever is inserted, changed or deleted between the pages, an untouched session never comes twice. */
  lemma NeverRepeats(dbs: seq<Db>, f: Filter, curs: seq<Option<Pos>>, pages: seq<seq<string>>, s: string, at: Pos,
                     i: nat, j: nat)
    requires Chain(dbs, f, curs, pages) && StaysPut(dbs, f, s, at) && i < j < |pages| && s in pages[i]
    ensures s !in pages[j]
  {
    hide Page, Matches, Ahead;
    OnceShownIsPassed(dbs, f, curs, pages, s, at, i, j);
    assert Fetched(dbs[j], f, curs[j], pages[j], curs[j + 1]);
    PageMembers(dbs[j], f, curs[j], s);
  }

  lemma {:induction false} UnseenIsAhead(dbs: seq<Db>, f: Filter, curs: seq<Option<Pos>>, pages: seq<seq<string>>,
                                         s: string, at: Pos, k: nat)
    requires Chain(dbs, f, curs, pages) && StaysPut(dbs, f, s, at) && k <= |pages|
    requires forall i | 0 <= i < k :: s !in pages[i]
    ensures curs[k].Some? ==> Ahead(curs[k].value, at)
    ensures k > 0 ==> curs[k].Some?
  {
    hide Page, Matches, Ahead;
    if k > 0 {
      UnseenIsAhead(dbs, f, curs, pages, s, at, k - 1);
      assert Fetched(dbs[k - 1], f, curs[k - 1], pages[k - 1], curs[k]);
      PageMembers(dbs[k - 1], f, curs[k - 1], s);
    }
  }

  /** Nor does it vanish: by the time there is no next cursor, it has come. */
  lemma NeverVanishes(dbs: seq<Db>, f: Filter, curs: seq<Option<Pos>>, pages: seq<seq<string>>, s: string, at: Pos)
    requires Chain(dbs, f, curs, pages) && StaysPut(dbs, f, s, at) && pages != [] && curs[|pages|] == None
    ensures exists i :: 0 <= i < |pages| && s in pages[i]
  {
    hide Page, Matches, Ahead, Chain, StaysPut;
    if forall i | 0 <= i < |pages| :: s !in pages[i] {
      UnseenIsAhead(dbs, f, curs, pages, s, at, |pages|);
    }
  }

  // ----- cursors as text -----

  // The text forms of times and bytes; all that matters is that they can be read back.
  datatype Codec = Codec(format: Time -> string, parse: string -> Option<Time>,
                         encode: string -> string, decode: string -> Option<string>)

  ghost predicate Faithful(c: Codec) {
    && (forall t :: c.parse(c.format(t)) == Some(t) && '|' !in c.format(t))
    && (forall b :: c.decode(c.encode(b)) == Some(b) && (b != "" ==> c.encode(b) != ""))
  }

  function EncodeCursor(c: Codec, p: Pos): string {
    c.encode(c.format(p.started) + "|" + p.id)
  }

  // The bytes before and after the first separator.
  function Cut(b: string): Option<(string, string)> {
    if b == "" then None
    else if b[0] == '|' then Some(("", b[1..]))
    else
      var rest := Cut(b[1..]);
      if rest.None? then None else Some(([b[0]] + rest.value.0, rest.value.1))
  }

  function DecodeCursor(c: Codec, cur: string): Result<Pos> {
    if cur == "" then Failed
    else
      var b := c.decode(cur);
      if b.None? then Failed
      else
        var parts := Cut(b.value);
        if parts.None? then Failed
        else
          var at := c.parse(parts.value.0);
          if at.None? then Failed else Ok(Pos(at.value, parts.value.1))
  }

  lemma {:induction false} CutAtFirst(a: string, b: string)
    requires '|' !in a
    ensures Cut(a + "|" + b) == Some((a, b))
  {
    if a == "" {
      assert a + "|" + b == "|" + b;
    } else {
      assert a[0] in a && forall x | x in a[1..] :: x in a;
      CutAtFirst(a[1..], b);
      assert (a + "|" + b)[1..] == a[1..] + "|" + b;
      assert [a[0]] + a[1..] == a;
    }
  }

  /** A cursor reads back as the position it was made from, also when the id contains the separator, and is
      never mistaken for the end of the list. */
  lemma CursorRoundTrip(c: Codec, p: Pos)
    requires Faithful(c)
    ensures DecodeCursor(c, EncodeCursor(c, p)) == Ok(p) && EncodeCursor(c, p) != ""
  {
    CutAtFirst(c.format(p.started), p.id);
    assert (c.format(p.started) + "|" + p.id)[|c.format(p.started)|] == '|';
  }

  // ----- the read method -----

  function Ids(rows: seq<Listed>): seq<string> {
    seq(|rows|, i requires 0 <= i < |rows| => rows[i].id)
  }

  class Reader {
    const repo: Repo

    constructor (repo: Repo)
      ensures this.repo == repo
    {
      this.repo := repo;
    }

    // The rows a page query returns: ordered, at most n.
    method Query(ids: set<string>, n: nat) returns (rows: seq<string>)
      requires ids <= repo.sessions.Keys
      ensures rows == (var all := Listing(repo.View(), ids); if |all| <= n then all else all[..n])
    {
      rows := [];
      var rest := ids;
      ghost var all := Listing(repo.View(), ids);
      ListingStep(repo.View(), rest);
      hide Listing, Ahead, IsFirst;
      while rest != {} && |rows| < n
        invariant rest <= ids && |rows| <= n && |rows| <= |all| && rows == all[..|rows|]
        invariant Listing(repo.View(), rest) == all[|rows|..] && (rest == {} <==> |rows| == |all|)
        decreases |rest|
      {
        var s := FirstOf(rest);
        FirstUnique(repo.View(), rest, s);
        ListingStep(repo.View(), rest);
        ListingStep(repo.View(), rest - {s});
        rows, rest := rows + [s], rest - {s};
      }
    }

    method FirstOf(ids: set<string>) returns (s: string)
      requires ids != {} && ids <= repo.sessions.Keys
      ensures s in ids && IsFirst(repo.View(), ids, s)
    {
      hide Ahead;
      s :| s in ids;
      var rest := ids - {s};
      while rest != {}
        invariant rest <= ids && s in ids && s !in rest
        invariant forall t | t in ids && t !in rest && t != s :: Comes(repo.View(), s, t)
        decreases |rest|
      {
        var t :| t in rest;
        rest := rest - {t};
        AheadTotal(At(repo.View(), s), At(repo.View(), t));
        if Ahead(Pos(repo.sessions[t].agg.started, t), Pos(repo.sessions[s].agg.started, s)) {
          forall x | x in ids && x !in rest && x != t && x != s ensures Comes(repo.View(), t, x) {
            AheadTransitive(At(repo.View(), t), At(repo.View(), s), At(repo.View(), x));
          }
          s := t;
        }
      }
    }

    ghost predicate Rows(out: seq<Listed>)
      reads repo
    {
      forall x | x in out :: x.id in repo.sessions && x.row == repo.sessions[x.id]
    }

    // The rows of a query, copied out one by one.
    method Scan(rows: seq<string>) returns (out: seq<Listed>)
      requires forall s | s in rows :: s in repo.sessions
      ensures Ids(out) == rows && Rows(out)
    {
      out := [];
      while |out| < |rows|
        invariant |out| <= |rows| && Ids(out) == rows[..|out|] && Rows(out)
      {
        var id := rows[|out|];
        out := out + [Listed(id, repo.sessions[id])];
      }
    }

    // One extra row is fetched to detect a further page.
    method ReadPage(f: Filter, cur: Option<Pos>) returns (out: seq<Listed>, last: Option<Listed>)
      ensures Ids(out) == Page(repo.View(), f, cur).0 && Rows(out)
      ensures last.Some? ==> last.value.id in repo.sessions && last.value.row == repo.sessions[last.value.id]
      ensures Page(repo.View(), f, cur).1 == if last.None? then None else Some(At(repo.View(), last.value.id))
    {
      var limit := if f.limit <= 0 then 50 else f.limit;
      if limit > 200 {
        limit := 200;
      }
      hide Ahead, Matches, Listing;
      ListingElems(repo.View(), Remaining(repo.View(), f, cur));
      var db := Db(repo.media, repo.events, repo.sessions);
      var ids := set s | s in repo.sessions && Matches(db, f, s) && (cur.Some? ==> Ahead(cur.value, At(db, s)));
      assert ids == Remaining(repo.View(), f, cur);
      var rows := Query(ids, limit + 1);
      out := Scan(rows);
      last := None;
      if |out| > limit {
        last := Some(out[limit - 1]);
        assert last.value.id == Ids(out)[limit - 1];
        out := out[..limit];
      }
    }

    /** One page: the rows the filter and the cursor ask for, and a next cursor exactly when there are more. */
    method Sessions(f: Filter, c: Codec) returns (r: Result<Answer>)
      requires Faithful(c)
      ensures r.Failed? <==> f.cursor != "" && DecodeCursor(c, f.cursor).Failed?
      ensures r.Ok? ==> IsAnswer(f, c, r.value)
    {
      var cur: Option<Pos> := None;
      if f.cursor != "" {
        var pos := DecodeCursor(c, f.cursor);
        if pos.Failed? {
          return Failed;
        }
        cur := Some(pos.value);
      }
      hide DecodeCursor, EncodeCursor, Faithful, Page;
      var out, last := ReadPage(f, cur);
      var next := "";
      if last.Some? {
        var p := Pos(last.value.row.agg.started, last.value.id);
        CursorRoundTrip(c, p);
        next := EncodeCursor(c, p);
      }
      return Ok(Answer(out, next));
    }

    ghost predicate IsAnswer(f: Filter, c: Codec, a: Answer)
      requires f.cursor != "" ==> DecodeCursor(c, f.cursor).Ok?
      reads repo
    {
      var cur := if f.cursor == "" then None else Some(DecodeCursor(c, f.cursor).value);
      var (rows, next) := Page(repo.View(), f, cur);
      && Ids(a.rows) == rows && Rows(a.rows)
      && (if next.None? then a.next == "" else a.next != "" && DecodeCursor(c, a.next) == Ok(next.value))
    }
  }
}
