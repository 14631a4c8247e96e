/** What the session list shows: which rows, in which order, and how a filter narrows it. */
module Listings {
  import opened Stamps
  import opened Events
  import opened Folding
  import opened Tables
  import opened Paging
  import opened Guarantees
  import opened Runs

  // No filter at all; the limit only cuts the list into pages.
  function Everything(limit: int): Filter {
    Filter(None, None, "", "", "", limit, "")
  }

  // The session's item is there and not deleted.
  predicate ItemVisible(db: Db, s: string) {
    s in db.sessions && db.sessions[s].media in db.media && db.media[db.sessions[s].media].deleted.None?
  }

  lemma FollowLists(db: Db, f: Filter, s: string)
    ensures s in Follow(db, f, None) <==> s in Matching(db, f)
  {
    PagesAreTheList(db, f, None);
    ListingElems(db, Matching(db, f));
    hide Listing, Follow, Matches;
  }

  lemma PageLists(db: Db, f: Filter, cur: Option<Pos>, s: string)
    ensures s in Page(db, f, cur).0 ==> s in Matching(db, f)
  {
    ListingElems(db, Remaining(db, f, cur));
    hide Listing, Matches, Ahead, PageSize;
  }

  // ----- deletion -----

  lemma MatchIsVisible(db: Db, f: Filter, s: string)
    requires Basic(db)
    ensures s in Matching(db, f) ==> ItemVisible(db, s)
    ensures s in Matching(db, Everything(f.limit)) <==> ItemVisible(db, s)
  {
    hide StampLess;
  }

  /** In every state of every run: no page of any filter, from any cursor on, shows a session of a deleted item; and
      without a filter the pages together show every session of every item that is not deleted. */
  lemma ListsWhatIsVisible(states: seq<Db>, steps: seq<Step>, cfg: Config, n: nat, f: Filter, s: string)
    requires Run(states, steps, cfg) && cfg.gap >= 0 && n < |states|
    ensures forall cur: Option<Pos> | s in Page(states[n], f, cur).0 :: ItemVisible(states[n], s)
    ensures s in Follow(states[n], Everything(f.limit), None) <==> ItemVisible(states[n], s)
  {
    var db := states[n];
    hide Run, Page, Follow, Matches, Matching, ItemVisible, Basic;
    LogIsWhatWasDelivered(states, steps, cfg, n);
    MatchIsVisible(db, f, s);
    FollowLists(db, Everything(f.limit), s);
    forall cur: Option<Pos> | s in Page(db, f, cur).0 ensures ItemVisible(db, s) {
      PageLists(db, f, cur, s);
    }
  }

  /** Deleting an item takes its sessions off the list, and bringing it back puts them on it again. */
  lemma DeletionIsListed(states: seq<Db>, steps: seq<Step>, cfg: Config, n: nat, limit: int, s: string)
    requires Run(states, steps, cfg) && cfg.gap >= 0 && n < |steps| && s in states[n].sessions
    ensures var m, listed := states[n].sessions[s].media, s in Follow(states[n + 1], Everything(limit), None);
      && (steps[n] == Restore(m) ==> listed)
      && (steps[n].Delete? && steps[n].id == m ==> !listed)
  {
    ListsWhatIsVisible(states, steps, cfg, n + 1, Everything(limit), s);
    LogIsWhatWasDelivered(states, steps, cfg, n);
    assert Next(states[n], steps[n], cfg, states[n + 1]);
    hide Run, Follow, WireLog;
    var m := states[n].sessions[s].media;
    if steps[n].Delete? {
      StampedItem(states[n], m, s, Some(steps[n].now));
    }
    StampedItem(states[n], m, s, None);
  }

  lemma StampedItem(db: Db, m: string, s: string, at: Option<Time>)
    requires Basic(db) && s in db.sessions && db.sessions[s].media == m
    ensures ItemVisible(db.SetDeleted(m, at), s) <==> at.None?
  {
    assert m in db.media;
  }

  // ----- filters -----

  /** A filter lists exactly those rows of the unfiltered list that have the item, the source and the kind it names
      and lie, in printed order, from its start on and before its end. */
  lemma FilterSelects(db: Db, f: Filter, s: string)
    ensures s in Follow(db, f, None) <==>
      && s in Follow(db, Everything(f.limit), None) && s in db.sessions && db.sessions[s].media in db.media
      && var row := db.sessions[s];
         && (f.mediaId != "" ==> row.media == f.mediaId)
         && (f.source != "" ==> row.kind == f.source)
         && (f.kind != "" ==> db.media[row.media].kind == f.kind)
         && (f.from.Some? ==> !StampLess(row.agg.started, f.from.value))
         && (f.to.Some? ==> StampLess(row.agg.started, f.to.value))
  {
    FollowLists(db, f, s);
    FollowLists(db, Everything(f.limit), s);
    hide Follow;
  }

  function Window(limit: int, from: Time, to: Time): Filter {
    Everything(limit).(from := Some(from), to := Some(to))
  }

  /** Two adjoining windows together list what the window over both lists, and no row is in both. */
  lemma WindowsAdjoin(db: Db, limit: int, a: Time, b: Time, c: Time, s: string)
    requires !StampLess(b, a) && !StampLess(c, b)
    ensures s in Follow(db, Window(limit, a, c), None) <==>
      s in Follow(db, Window(limit, a, b), None) || s in Follow(db, Window(limit, b, c), None)
    ensures !(s in Follow(db, Window(limit, a, b), None) && s in Follow(db, Window(limit, b, c), None))
  {
    FilterSelects(db, Window(limit, a, c), s);
    FilterSelects(db, Window(limit, a, b), s);
    FilterSelects(db, Window(limit, b, c), s);
    FollowLists(db, Everything(limit), s);
    hide Follow, StampLess, SameStamp;
    if s in Matching(db, Everything(limit)) {
      var t := db.sessions[s].agg.started;
      NotLessTransitive(t, b, a);
      LessThenNotLess(t, b, c);
    }
  }

  lemma NotLessTransitive(t: Time, b: Time, a: Time)
    ensures !StampLess(t, b) && !StampLess(b, a) ==> !StampLess(t, a)
  {
    StampLessTotal(t, b);
    StampLessTotal(b, a);
    if StampLess(b, t) && StampLess(a, b) {
      StampLessTransitive(a, b, t);
      StampLessAsymmetric(a, t);
    } else if StampLess(b, t) && SameStamp(b, a) {
      StampLessAsymmetric(b, t);
    } else if StampLess(a, b) && SameStamp(t, b) {
      StampLessAsymmetric(a, b);
    }
  }

  lemma LessThenNotLess(t: Time, b: Time, c: Time)
    ensures StampLess(t, b) && !StampLess(c, b) ==> StampLess(t, c)
  {
    NotLessTransitive(t, c, b);
  }

  /** A bound tells earlier from later starts but for those in the second it lies in, of which it always misjudges
      one: within a second the printed order is not the order of times. */
  lemma BoundsBySecond(at: Time)
    ensures forall t: Time :: t / SECOND < at / SECOND ==> StampLess(t, at)
    ensures forall t: Time :: t / SECOND > at / SECOND ==> !StampLess(t, at)
    ensures exists t: Time :: t / SECOND == at / SECOND && StampLess(t, at) != (t < at)
  {
    var whole := SECOND * (at / SECOND);
    hide FractionText;
    if at == whole {
      Halfway(at);
    } else {
      WholeAfterPart(at);
    }
  }

  lemma Halfway(at: Time)
    requires at % SECOND == 0
    ensures var t := at + SECOND / 2; t / SECOND == at / SECOND && StampLess(t, at) && t > at
  {
    var half := FractionText(SECOND / 2);
    assert half[0] == '.' && FractionText(0) == "Z";
    assert StrLess(half, "Z");
    assert (at + SECOND / 2) % SECOND == SECOND / 2;
  }

  lemma WholeAfterPart(at: Time)
    requires at % SECOND != 0
    ensures var t := at - at % SECOND; t / SECOND == at / SECOND && !StampLess(t, at) && t < at
  {
    var part := FractionText(at % SECOND);
    assert part[0] == '.' && FractionText(0) == "Z";
    assert !StrLess("Z", part);
    assert (at - at % SECOND) % SECOND == 0;
  }

  // ----- order and pages -----

  /** Newest first: no row starts a second or more after one listed before it, and rows that start together come in
      descending order of their ids. */
  lemma NewestFirst(db: Db, f: Filter, i: nat, j: nat)
    requires i < j < |Follow(db, f, None)|
    ensures var s, t := Follow(db, f, None)[i], Follow(db, f, None)[j];
      && s in db.sessions && t in db.sessions && s != t
      && db.sessions[t].agg.started < db.sessions[s].agg.started + SECOND
      && (db.sessions[t].agg.started == db.sessions[s].agg.started ==> StrLess(t, s))
  {
    PagesAreTheList(db, f, None);
    hide Follow, Matches;
    ListingOrdered(db, Matching(db, f), i, j);
    var s, t := Listing(db, Matching(db, f))[i], Listing(db, Matching(db, f))[j];
    hide Listing;
    AheadIsNewer(At(db, s), At(db, t));
  }

  lemma AheadIsNewer(p: Pos, q: Pos)
    requires Ahead(p, q)
    ensures q.started < p.started + SECOND && (q.started == p.started ==> StrLess(q.id, p.id))
  {
    StampOrderAcross(p.started, q.started);
    StampLessAsymmetric(p.started, p.started);
    StampLessTotal(p.started, q.started);
    StampLessTotal(q.started, p.started);
    hide StampLess, SameStamp;
  }

  /** A page has fifty rows unless the filter asks for another number, and never more than two hundred; only the
      last one has fewer, and only it has no next cursor. */
  lemma PageLength(db: Db, f: Filter, cur: Option<Pos>)
    ensures var n, page := if f.limit <= 0 then 50 else if f.limit > 200 then 200 else f.limit, Page(db, f, cur);
      if page.1.Some? then |page.0| == n && Follow(db, f, cur) == page.0 + Follow(db, f, page.1)
        && Follow(db, f, page.1) != []
      else |page.0| <= n && Follow(db, f, cur) == page.0
  {
    var page := Page(db, f, cur);
    if page.1.Some? {
      NextRemaining(db, f, cur);
      PagesAreTheList(db, f, page.1);
      hide Follow, Matches, Ahead;
    }
  }
}
