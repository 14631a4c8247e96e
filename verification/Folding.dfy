/** Aggregates: from a list or a set of events to the numbers a session row shows. */
module Folding {
  import opened Sorting
  import opened Stamps
  import opened Events

  datatype Config = Config(gap: int, threshold: real, cadence: int)

  const EMPTY_AGG := Agg(ZERO_TIME, ZERO_TIME, 0, 0.0, false, 0)

  // The wall-clock time an interval contributes: none after a pause or stop, none when idle too long.
  function Interval(prev: Event, e: Event, maxGap: int): (d: int)
    ensures 0 <= d
  {
    var d := e.at - prev.at;
    if prev.typ.Pause? || prev.typ.Stop? then 0
    else if 0 < d <= maxGap then d else 0
  }

  function Watched(s: seq<Event>, maxGap: int): (w: int)
    ensures 0 <= w
  {
    if |s| < 2 then 0 else Watched(s[..|s| - 1], maxGap) + Interval(s[|s| - 2], s[|s| - 1], maxGap)
  }

  function Position(e: Event): real {
    if e.pos.Some? && e.pos.value > 0.0 then e.pos.value else 0.0
  }

  function MaxPosition(s: seq<Event>): (p: real)
    ensures p >= 0.0
  {
    if s == [] then 0.0 else
      var p := MaxPosition(s[..|s| - 1]);
      if Position(s[|s| - 1]) > p then Position(s[|s| - 1]) else p
  }

  // Nearest whole second, halves up, of a non-negative span of nanoseconds.
  function RoundSeconds(nanos: int): int {
    (2 * nanos + SECOND) / (2 * SECOND)
  }

  predicate Completes(maxPos: real, duration: Option<int>, cfg: Config) {
    duration.Some? && duration.value > 0 && maxPos >= cfg.threshold * (duration.value as real)
  }

  // The aggregate of a non-empty list already in time order.
  function FoldSorted(s: seq<Event>, duration: Option<int>, cfg: Config): Agg
    requires s != []
  {
    var p := MaxPosition(s);
    Agg(s[0].at, s[|s| - 1].at, RoundSeconds(Watched(s, 2 * cfg.cadence)), p, Completes(p, duration, cfg), |s|)
  }

  function FoldOf(events: seq<Event>, duration: Option<int>, cfg: Config): Agg {
    if events == [] then EMPTY_AGG else FoldSorted(StableSort(events, Earlier), duration, cfg)
  }

  /** The aggregate of a set of events, taken in replay order. */
  ghost function FoldSet(S: set<Event>, duration: Option<int>, cfg: Config): Agg
    requires DistinctIds(S)
  {
    if S == {} then EMPTY_AGG else FoldSorted(Arrange(S), duration, cfg)
  }

  lemma PrefixStep(s: seq<Event>, i: nat, maxGap: int)
    requires i < |s|
    ensures Watched(s[..i + 1], maxGap) == if i == 0 then 0
      else Watched(s[..i], maxGap) + Interval(s[i - 1], s[i], maxGap)
    ensures MaxPosition(s[..i + 1]) == if Position(s[i]) > MaxPosition(s[..i]) then Position(s[i])
      else MaxPosition(s[..i])
  {
    assert s[..i + 1][..i] == s[..i];
  }

  method Fold(events: seq<Event>, duration: Option<int>, cfg: Config) returns (agg: Agg)
    ensures agg == FoldOf(events, duration, cfg)
    ensures events == [] ==> agg == Agg(0, 0, 0, 0.0, false, 0)
  {
    if |events| == 0 {
      return EMPTY_AGG;
    }
    var evs := StableSort(events, Earlier);
    agg := EMPTY_AGG.(started := evs[0].at, ended := evs[|evs| - 1].at, count := |evs|);
    var watched := 0;
    var maxGap := 2 * cfg.cadence;
    var i := 0;
    while i < |evs|
      invariant 0 <= i <= |evs|
      invariant watched == Watched(evs[..i], maxGap)
      invariant agg == Agg(evs[0].at, evs[|evs| - 1].at, 0, MaxPosition(evs[..i]), false, |evs|)
    {
      var e := evs[i];
      PrefixStep(evs, i, maxGap);
      if e.pos.Some? {
        var p := if e.pos.value > 0.0 then e.pos.value else 0.0;
        if p > agg.maxPos {
          agg := agg.(maxPos := p);
        }
      }
      if i > 0 {
        var prev := evs[i - 1];
        if !(prev.typ.Pause? || prev.typ.Stop?) {
          var d := e.at - prev.at;
          if d > 0 && d <= maxGap {
            watched := watched + d;
          }
        }
      }
      i := i + 1;
    }
    assert evs[..i] == evs;
    agg := agg.(watched := RoundSeconds(watched));
    if Completes(agg.maxPos, duration, cfg) {
      agg := agg.(completed := true);
    }
  }

  // ----- what the aggregate means, independently of the loop -----

  lemma {:induction false} MaxPositionMeaning(s: seq<Event>)
    ensures forall e | e in s :: Position(e) <= MaxPosition(s)
    ensures MaxPosition(s) == 0.0 || exists e :: e in s && Position(e) == MaxPosition(s)
  {
    if s != [] {
      var t := s[..|s| - 1];
      MaxPositionMeaning(t);
      assert s == t + [s[|s| - 1]];
      if MaxPosition(s) != 0.0 && MaxPosition(s) == MaxPosition(t) {
        var e :| e in t && Position(e) == MaxPosition(t);
        assert e in s;
      }
    }
  }

  lemma SpanMeaning(S: set<Event>, e: Event)
    requires DistinctIds(S) && e in S
    ensures var s := Arrange(S);
      s != [] && s[0].at <= e.at <= s[|s| - 1].at && e in s && s[0] in S && s[|s| - 1] in S
  {
    hide StrLess;
    var s := Arrange(S);
    assert e in Elems(s);
    var i :| 0 <= i < |s| && s[i] == e;
    assert i > 0 ==> Before(s[0], s[i]);
    assert i < |s| - 1 ==> Before(s[i], s[|s| - 1]);
    assert s[0] in Elems(s) && s[|s| - 1] in Elems(s);
  }

  lemma FurthestMeaning(S: set<Event>)
    requires DistinctIds(S)
    ensures forall e | e in S :: Position(e) <= MaxPosition(Arrange(S))
    ensures MaxPosition(Arrange(S)) == 0.0 || exists e :: e in S && Position(e) == MaxPosition(Arrange(S))
  {
    hide MaxPosition, StrLess;
    var s := Arrange(S);
    MaxPositionMeaning(s);
    assert forall e :: e in s <==> e in Elems(s);
  }

  // The same in the terms of the fold: only the watched time depends on the order of the events.
  lemma FoldShape(S: set<Event>, duration: Option<int>, cfg: Config)
    requires DistinctIds(S) && S != {}
    ensures var a := FoldSet(S, duration, cfg);
      && (forall e | e in S :: a.started <= e.at <= a.ended && Position(e) <= a.maxPos)
      && (exists e :: e in S && e.at == a.started)
      && (exists e :: e in S && e.at == a.ended)
      && (a.maxPos == 0.0 || exists e :: e in S && Position(e) == a.maxPos)
      && a.count == |S|
      && a.completed == Completes(a.maxPos, duration, cfg)
  {
    hide MaxPosition, Watched, RoundSeconds, Completes, StrLess, Before;
    FurthestMeaning(S);
    forall e | e in S ensures Arrange(S)[0].at <= e.at <= Arrange(S)[|S| - 1].at {
      SpanMeaning(S, e);
    }
    var e :| e in S;
    SpanMeaning(S, e);
  }

  /** Read off a set of events, an aggregate spans exactly their times and counts them; its position is the
      greatest one reported, or zero; and it is completed exactly when the duration is known and positive and
      some event got as far as the threshold's part of it. */
  lemma FoldMeaning(S: set<Event>, duration: Option<int>, cfg: Config)
    requires DistinctIds(S) && S != {}
    ensures var a := FoldSet(S, duration, cfg);
      && (forall e | e in S :: a.started <= e.at <= a.ended)
      && (exists e :: e in S && e.at == a.started)
      && (exists e :: e in S && e.at == a.ended)
      && a.count == |S|
    ensures var p := FoldSet(S, duration, cfg).maxPos;
      && p >= 0.0 && (forall e | e in S && e.pos.Some? :: e.pos.value <= p)
      && (p == 0.0 || exists e :: e in S && e.pos == Some(p))
    ensures FoldSet(S, duration, cfg).completed <==>
      && duration.Some? && duration.value > 0
      && (cfg.threshold * (duration.value as real) <= 0.0 ||
          exists e :: e in S && e.pos.Some? && e.pos.value >= cfg.threshold * (duration.value as real))
  {
    hide FoldSet, StrLess, Position, Completes, Before;
    FoldShape(S, duration, cfg);
    var a := FoldSet(S, duration, cfg);
    Furthest(S, a.maxPos);
    CompletedIff(S, a.maxPos, duration, cfg);
  }

  lemma Furthest(S: set<Event>, p: real)
    requires S != {} && (forall e | e in S :: Position(e) <= p)
    requires p == 0.0 || exists e :: e in S && Position(e) == p
    ensures p >= 0.0 && (forall e | e in S && e.pos.Some? :: e.pos.value <= p)
    ensures p == 0.0 || exists e :: e in S && e.pos == Some(p)
  {
    var e :| e in S;
    assert Position(e) <= p;
  }

  // The furthest position gets as far as a mark exactly when some event does.
  lemma CompletedIff(S: set<Event>, p: real, duration: Option<int>, cfg: Config)
    requires p >= 0.0 && (forall e | e in S && e.pos.Some? :: e.pos.value <= p)
    requires p == 0.0 || exists e :: e in S && e.pos == Some(p)
    ensures Completes(p, duration, cfg) <==>
      && duration.Some? && duration.value > 0
      && (cfg.threshold * (duration.value as real) <= 0.0 ||
          exists e :: e in S && e.pos.Some? && e.pos.value >= cfg.threshold * (duration.value as real))
  {
    if duration.Some? {
      var mark := cfg.threshold * (duration.value as real);
      assert Completes(p, duration, cfg) <==> duration.value > 0 && p >= mark;
      if e :| e in S && e.pos == Some(p) {
        assert p >= mark ==> e.pos.Some? && e.pos.value >= mark;
      }
    }
  }

  // The aggregate apart from completion, which also depends on when the duration was known.
  ghost function Core(S: set<Event>, cfg: Config): Agg
    requires DistinctIds(S)
  {
    FoldSet(S, None, cfg)
  }

  lemma FoldIsCore(S: set<Event>, duration: Option<int>, cfg: Config)
    requires DistinctIds(S) && S != {}
    ensures var c := Core(S, cfg); FoldSet(S, duration, cfg) == c.(completed := Completes(c.maxPos, duration, cfg))
  {
  }

  lemma {:induction false} WatchedWithinSpan(s: seq<Event>, maxGap: int)
    requires s != [] && forall i, j | 0 <= i < j < |s| :: s[i].at <= s[j].at
    ensures Watched(s, maxGap) <= s[|s| - 1].at - s[0].at
  {
    if |s| > 1 {
      WatchedWithinSpan(s[..|s| - 1], maxGap);
    }
  }

  lemma RoundSecondsClose(nanos: int)
    ensures -SECOND <= 2 * nanos - 2 * SECOND * RoundSeconds(nanos) < SECOND
    ensures 0 <= nanos ==> 0 <= RoundSeconds(nanos)
  {
  }

  /** Adding an event to a session never shrinks it, whatever the event's time, and a completed session
      stays completed when its known duration is kept. */
  lemma FoldGrows(S: set<Event>, e: Event, before: Option<int>, after: Option<int>, cfg: Config)
    requires DistinctIds(S + {e}) && S != {} && (before.Some? ==> after == before)
    ensures var a, b := FoldSet(S, before, cfg), FoldSet(S + {e}, after, cfg);
      && b.started <= a.started && a.ended <= b.ended && a.maxPos <= b.maxPos
      && (a.completed ==> b.completed)
      && b.count == a.count + (if e in S then 0 else 1)
  {
    SpanGrows(S, e, before, after, cfg);
    CountGrows(S, e, before, after, cfg);
    FurthestGrows(S, e, before, after, cfg);
    if FoldSet(S, before, cfg).completed {
      CompletionGrows(S, e, before, after, cfg);
    }
  }

  lemma SpanGrows(S: set<Event>, e: Event, before: Option<int>, after: Option<int>, cfg: Config)
    requires DistinctIds(S + {e}) && S != {}
    ensures var a, b := FoldSet(S, before, cfg), FoldSet(S + {e}, after, cfg);
      b.started <= a.started && a.ended <= b.ended
  {
    var first, last := Ends(S, before, cfg);
    InSpan(S + {e}, first, after, cfg);
    InSpan(S + {e}, last, after, cfg);
  }

  lemma CountGrows(S: set<Event>, e: Event, before: Option<int>, after: Option<int>, cfg: Config)
    requires DistinctIds(S + {e}) && S != {}
    ensures FoldSet(S + {e}, after, cfg).count == FoldSet(S, before, cfg).count + (if e in S then 0 else 1)
  {
    hide MaxPosition, Watched, RoundSeconds, Completes, StrLess, Before;
    if e in S {
      assert S + {e} == S;
    }
  }

  lemma InSpan(S: set<Event>, e: Event, duration: Option<int>, cfg: Config)
    requires DistinctIds(S) && e in S
    ensures var a := FoldSet(S, duration, cfg); a.started <= e.at <= a.ended && a.count == |S|
  {
    FoldShape(S, duration, cfg);
  }

  lemma Ends(S: set<Event>, duration: Option<int>, cfg: Config) returns (first: Event, last: Event)
    requires DistinctIds(S) && S != {}
    ensures first in S && last in S
    ensures var a := FoldSet(S, duration, cfg); first.at == a.started && last.at == a.ended && a.count == |S|
  {
    FoldShape(S, duration, cfg);
    first :| first in S && first.at == FoldSet(S, duration, cfg).started;
    last :| last in S && last.at == FoldSet(S, duration, cfg).ended;
  }

  lemma CompletionGrows(S: set<Event>, e: Event, before: Option<int>, after: Option<int>, cfg: Config)
    requires DistinctIds(S + {e}) && S != {} && (before.Some? ==> after == before)
    requires FoldSet(S, before, cfg).completed
    ensures FoldSet(S + {e}, after, cfg).completed
  {
    FurthestGrows(S, e, before, after, cfg);
    CompletesMonotone(FoldSet(S, before, cfg).maxPos, FoldSet(S + {e}, after, cfg).maxPos, before, cfg);
  }

  lemma CompletesMonotone(p: real, q: real, duration: Option<int>, cfg: Config)
    requires p <= q && Completes(p, duration, cfg)
    ensures Completes(q, duration, cfg)
  {
  }

  lemma FurthestGrows(S: set<Event>, e: Event, before: Option<int>, after: Option<int>, cfg: Config)
    requires DistinctIds(S + {e}) && S != {}
    ensures FoldSet(S, before, cfg).maxPos <= FoldSet(S + {e}, after, cfg).maxPos
  {
    FoldShape(S, before, cfg);
    FoldShape(S + {e}, after, cfg);
    var p := FoldSet(S, before, cfg).maxPos;
    if p != 0.0 {
      var x :| x in S && Position(x) == p;
      assert x in S + {e};
    }
  }

  /** Folding the rows that EventsForSession returns is folding the set of linked events. */
  lemma FoldOfRows(rows: seq<Event>, S: set<Event>, duration: Option<int>, cfg: Config)
    requires DistinctIds(S) && TextOrdered(rows) && Elems(rows) == S
    ensures FoldOf(rows, duration, cfg) == FoldSet(S, duration, cfg)
  {
    TextOrderHealed(rows, S);
    NoElems(rows);
  }
}
