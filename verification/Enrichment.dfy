/** What a media item looks like after any number of events: which value of each column wins. */
module Enrichment {
  import opened Events
  import opened Tables

  // The row after the first event creates it and the others enrich it.
  function Enriched(ms: seq<MediaItem>): MediaRow
    requires ms != []
  {
    if |ms| == 1 then NewMedia(ms[0]) else Enrich(Enriched(ms[..|ms| - 1]), ms[|ms| - 1])
  }

  ghost predicate FirstAt<T>(vs: seq<T>, none: T, i: nat)
    requires i < |vs|
  {
    vs[i] != none && forall j | 0 <= j < i :: vs[j] == none
  }

  ghost predicate LastAt<T>(vs: seq<T>, none: T, i: nat)
    requires i < |vs|
  {
    vs[i] != none && forall j | i < j < |vs| :: vs[j] == none
  }

  function Titles(ms: seq<MediaItem>): seq<string> {
    seq(|ms|, i requires 0 <= i < |ms| => ms[i].title)
  }

  function Urls(ms: seq<MediaItem>): seq<string> {
    seq(|ms|, i requires 0 <= i < |ms| => ms[i].url)
  }

  function Languages(ms: seq<MediaItem>): seq<string> {
    seq(|ms|, i requires 0 <= i < |ms| => ms[i].language)
  }

  function Lengths(ms: seq<MediaItem>): seq<Option<int>> {
    seq(|ms|, i requires 0 <= i < |ms| => ms[i].duration)
  }

  // The column holds the last non-empty value ever sent, and nothing if there was none.
  ghost predicate HoldsLast(column: Option<string>, vs: seq<string>) {
    if column.None? then forall v | v in vs :: v == ""
    else exists i :: 0 <= i < |vs| && vs[i] == column.value && LastAt(vs, "", i)
  }

  ghost predicate HoldsFirst(column: Option<string>, vs: seq<string>) {
    if column.None? then forall v | v in vs :: v == ""
    else exists i :: 0 <= i < |vs| && vs[i] == column.value && FirstAt(vs, "", i)
  }

  ghost predicate HoldsFirstKnown(column: Option<int>, vs: seq<Option<int>>) {
    if column.None? then forall v | v in vs :: v == None
    else exists i :: 0 <= i < |vs| && vs[i] == column && FirstAt(vs, None, i)
  }

  lemma LastMore(column: Option<string>, vs: seq<string>, v: string)
    requires HoldsLast(column, vs)
    ensures HoldsLast(LastSeen(v, column), vs + [v])
  {
    if v != "" {
      assert LastAt(vs + [v], "", |vs|);
    } else if column.Some? {
      var i :| 0 <= i < |vs| && vs[i] == column.value && LastAt(vs, "", i);
      assert LastAt(vs + [v], "", i);
    }
  }

  lemma FirstMore(column: Option<string>, vs: seq<string>, v: string)
    requires HoldsFirst(column, vs)
    ensures HoldsFirst(FirstSeen(column, v), vs + [v])
  {
    if column.Some? {
      var i :| 0 <= i < |vs| && vs[i] == column.value && FirstAt(vs, "", i);
      assert FirstAt(vs + [v], "", i);
    } else if v != "" {
      assert forall j | 0 <= j < |vs| :: vs[j] in vs;
      assert FirstAt(vs + [v], "", |vs|);
    }
  }

  lemma FirstKnownMore(column: Option<int>, vs: seq<Option<int>>, v: Option<int>)
    requires HoldsFirstKnown(column, vs)
    ensures HoldsFirstKnown(if column.Some? then column else v, vs + [v])
  {
    if column.Some? {
      var i :| 0 <= i < |vs| && vs[i] == column && FirstAt(vs, None, i);
      assert FirstAt(vs + [v], None, i);
    } else if v.Some? {
      assert forall j | 0 <= j < |vs| :: vs[j] in vs;
      assert FirstAt(vs + [v], None, |vs|);
    }
  }

  lemma One(m: MediaItem)
    ensures var row := NewMedia(m);
      && HoldsLast(row.title, [m.title]) && HoldsLast(row.language, [m.language])
      && HoldsFirst(row.url, [m.url]) && HoldsFirstKnown(row.duration, [m.duration])
  {
    assert m.title != "" ==> LastAt([m.title], "", 0);
    assert m.language != "" ==> LastAt([m.language], "", 0);
    assert m.url != "" ==> FirstAt([m.url], "", 0);
    assert m.duration != None ==> FirstAt([m.duration], None, 0);
  }

  /** After any events in any order: title and language are the last non-empty ones sent, the URL is the
      first non-empty one, the duration the first known one, and identity and kind are those of the first
      event. A known duration is therefore never overwritten. */
  lemma {:induction false} ColumnsAfter(ms: seq<MediaItem>)
    requires ms != []
    ensures var row := Enriched(ms);
      && HoldsLast(row.title, Titles(ms)) && HoldsLast(row.language, Languages(ms))
      && HoldsFirst(row.url, Urls(ms)) && HoldsFirstKnown(row.duration, Lengths(ms))
      && row.identity == ms[0].identity && row.kind == (if ms[0].kind == "" then "unknown"
        else ms[0].kind) && row.deleted == None
  {
    var n := |ms| - 1;
    hide HoldsLast, HoldsFirst, HoldsFirstKnown, LastSeen, FirstSeen, NullStr;
    if n == 0 {
      One(ms[0]);
      assert Titles(ms) == [ms[0].title] && Languages(ms) == [ms[0].language];
      assert Urls(ms) == [ms[0].url] && Lengths(ms) == [ms[0].duration];
    } else {
      var before, m := ms[..n], ms[n];
      ColumnsAfter(before);
      var row := Enriched(before);
      LastMore(row.title, Titles(before), m.title);
      LastMore(row.language, Languages(before), m.language);
      FirstMore(row.url, Urls(before), m.url);
      FirstKnownMore(row.duration, Lengths(before), m.duration);
      assert Titles(ms) == Titles(before) + [m.title] && Languages(ms) == Languages(before) + [m.language];
      assert Urls(ms) == Urls(before) + [m.url] && Lengths(ms) == Lengths(before) + [m.duration];
    }
  }
}
