/** What the service makes of the play time reported to it: its rows come back ordered by time and id, and the ids
    of events are drawn at random. */
module StoredPlay {
  import opened Sorting
  import opened Stamps
  import opened Events
  import opened Folding
  import opened Partition
  import opened Conservation
  import opened Collector
  import opened PlayTime

  const MILLISECOND := 1_000_000
  const CADENCE := 30 * SECOND

  // The stored events carry the types and times that were sent; the rest of them does not matter.
  ghost predicate Carries(events: seq<Event>, sent: seq<Emission>) {
    |events| == |sent| && forall i | 0 <= i < |sent| ::
      events[i].typ == sent[i].typ && events[i].at == MILLISECOND * sent[i].at
  }

  // What the fold counts of the events once they are in the order of their times and ids.
  function StoredWatched(events: seq<Event>): int {
    Watched(StableSort(events, Before), 2 * CADENCE)
  }

  lemma {:induction false} WatchedIsReported(events: seq<Event>, sent: seq<Emission>)
    requires Carries(events, sent)
    ensures Watched(events, 2 * CADENCE) == MILLISECOND * Reported(sent)
  {
    if |sent| >= 2 {
      WatchedIsReported(events[..|events| - 1], sent[..|sent| - 1]);
    }
  }

  // Whatever the ids make of the order within one millisecond, what was sent last of it either always counts the
  // time until the next emission or never does.
  ghost predicate Steady(sent: seq<Emission>) {
    forall i, j, k | 0 <= i < |sent| && 0 <= j < |sent| && 0 <= k < |sent| && SoonAfter(sent[i], sent[j], sent[k]) ::
      Counts(sent[i].typ) == Counts(sent[j].typ)
  }

  predicate SoonAfter(a: Emission, b: Emission, c: Emission) {
    a.at == b.at < c.at <= b.at + 2 * PROGRESS_INTERVAL
  }

  ghost predicate InTime(sent: seq<Emission>) {
    forall i, j | 0 <= i < j < |sent| :: sent[i].at <= sent[j].at
  }

  // ----- the sum depends only on what comes last of each instant -----

  ghost predicate TimeSorted(p: seq<Event>) {
    forall i, j | 0 <= i < j < |p| :: p[i].at <= p[j].at
  }

  ghost predicate SteadySet(S: set<Event>, maxGap: int) {
    forall a, b, c | a in S && b in S && c in S && a.at == b.at < c.at <= b.at + maxGap ::
      Counts(a.typ) == Counts(b.typ)
  }

  // Takes off the events of the last instant.
  lemma {:induction false} LastInstant(p: seq<Event>, maxGap: int) returns (n: nat)
    requires TimeSorted(p) && p != []
    ensures n < |p| && p[n].at == p[|p| - 1].at && (forall i | 0 <= i < n :: p[i].at < p[n].at)
    ensures forall i | n <= i < |p| :: p[i].at == p[n].at
    ensures Watched(p, maxGap) == Watched(p[..n], maxGap) + (if n > 0 then Interval(p[n - 1], p[n], maxGap) else 0)
  {
    var m := |p| - 1;
    if m == 0 {
      n := 0;
    } else if p[m - 1].at < p[m].at {
      n := m;
    } else {
      n := LastInstant(p[..m], maxGap);
      assert p[..m][..n] == p[..n];
    }
  }

  lemma BeforeLast(p: seq<Event>, n: nat, T: Time)
    requires n < |p| && (forall i | 0 <= i < n :: p[i].at < T) && forall i | n <= i < |p| :: p[i].at == T
    ensures Elems(p[..n]) == set x | x in p && x.at < T
  {
    forall x | x in p && x.at < T ensures x in p[..n] {
      var i :| 0 <= i < |p| && p[i] == x;
      assert p[..n][i] == x;
    }
  }

  lemma SameEnd(p: seq<Event>, q: seq<Event>)
    requires TimeSorted(p) && TimeSorted(q) && Elems(p) == Elems(q) && p != [] && q != []
    ensures p[|p| - 1].at == q[|q| - 1].at
  {
    assert p[|p| - 1] in Elems(q) && q[|q| - 1] in Elems(p);
  }

  lemma SameEarlier(p: seq<Event>, q: seq<Event>, n: nat, m: nat)
    requires TimeSorted(p) && TimeSorted(q) && Elems(p) == Elems(q) && n < |p| && m < |q|
    requires p[n].at == p[|p| - 1].at && (forall i | 0 <= i < n :: p[i].at < p[n].at)
    requires q[m].at == q[|q| - 1].at && (forall i | 0 <= i < m :: q[i].at < q[m].at)
    requires (forall i | n <= i < |p| :: p[i].at == p[n].at) && forall i | m <= i < |q| :: q[i].at == q[m].at
    ensures p[n].at == q[m].at && Elems(p[..n]) == Elems(q[..m]) && (n > 0 <==> m > 0)
  {
    SameEnd(p, q);
    BeforeLast(p, n, p[n].at);
    BeforeLast(q, m, q[m].at);
    assert forall x :: x in p <==> x in Elems(p);
    assert forall x :: x in q <==> x in Elems(q);
    NoElems(p[..n]);
    NoElems(q[..m]);
  }

  lemma SameLastInterval(p: seq<Event>, q: seq<Event>, n: nat, m: nat, maxGap: int)
    requires TimeSorted(p) && TimeSorted(q) && Elems(p) == Elems(q) && SteadySet(Elems(p), maxGap)
    requires 0 < n < |p| && 0 < m < |q| && p[n].at == q[m].at && Elems(p[..n]) == Elems(q[..m])
    ensures Interval(p[n - 1], p[n], maxGap) == Interval(q[m - 1], q[m], maxGap)
  {
    SameEnd(p[..n], q[..m]);
    assert p[n - 1] in Elems(p) && q[m - 1] in Elems(q) && p[n] in Elems(p);
    SameInterval(p[n - 1], q[m - 1], p[n], q[m], maxGap);
  }

  lemma {:induction false} SameWatched(p: seq<Event>, q: seq<Event>, maxGap: int)
    requires TimeSorted(p) && TimeSorted(q) && Elems(p) == Elems(q) && SteadySet(Elems(p), maxGap)
    ensures Watched(p, maxGap) == Watched(q, maxGap)
    decreases |p|
  {
    hide SteadySet, Interval, Watched;
    NoElems(p);
    NoElems(q);
    if p == [] {
      assert p == q;
    } else {
      var n := LastInstant(p, maxGap);
      var m := LastInstant(q, maxGap);
      SameEarlier(p, q, n, m);
      SteadyPart(Elems(p), Elems(p[..n]), maxGap);
      if n > 0 {
        SameLastInterval(p, q, n, m, maxGap);
      }
      SameWatched(p[..n], q[..m], maxGap);
    }
  }

  lemma SteadyPart(S: set<Event>, T: set<Event>, maxGap: int)
    requires SteadySet(S, maxGap) && T <= S
    ensures SteadySet(T, maxGap)
  {
  }

  lemma SameInterval(a: Event, b: Event, c: Event, d: Event, maxGap: int)
    requires a.at == b.at && c.at == d.at && (a.at < c.at <= a.at + maxGap ==> Counts(a.typ) == Counts(b.typ))
    ensures Interval(a, c, maxGap) == Interval(b, d, maxGap)
  {
  }

  lemma CarriedSteady(events: seq<Event>, sent: seq<Emission>)
    requires Carries(events, sent) && Steady(sent)
    ensures SteadySet(Elems(events), 2 * CADENCE)
  {
    forall a, b, c | a in Elems(events) && b in Elems(events) && c in Elems(events) &&
      a.at == b.at < c.at <= b.at + 2 * CADENCE
      ensures Counts(a.typ) == Counts(b.typ)
    {
      var i :| 0 <= i < |events| && events[i] == a;
      var j :| 0 <= j < |events| && events[j] == b;
      var k :| 0 <= k < |events| && events[k] == c;
      assert SoonAfter(sent[i], sent[j], sent[k]);
    }
  }

  lemma SortedInTime(events: seq<Event>)
    requires DistinctSeqIds(events)
    ensures TimeSorted(StableSort(events, Before)) && Elems(StableSort(events, Before)) == Elems(events)
  {
    SortIsArrange(events);
    assert Ordered(StableSort(events, Before));
  }

  lemma SteadySuffices(events: seq<Event>, sent: seq<Emission>)
    requires Carries(events, sent) && DistinctSeqIds(events) && InTime(sent) && Steady(sent)
    ensures StoredWatched(events) == MILLISECOND * Reported(sent)
  {
    SortedInTime(events);
    CarriedSteady(events, sent);
    WatchedIsReported(events, sent);
    assert TimeSorted(events);
    hide TimeSorted, SteadySet, Steady, InTime, Carries, Watched, Reported, StableSort, DistinctSeqIds, Before;
    SameWatched(StableSort(events, Before), events, 2 * CADENCE);
  }

  // ----- and some ids get an unsteady trace wrong -----

  lemma WatchedSnoc(s: seq<Event>, e: Event, maxGap: int)
    requires s != []
    ensures Watched(s + [e], maxGap) == Watched(s, maxGap) + Interval(s[|s| - 1], e, maxGap)
  {
    assert (s + [e])[..|s|] == s;
    hide Interval;
  }

  lemma {:induction false} WatchedJoin(x: seq<Event>, y: seq<Event>, maxGap: int)
    requires x != [] && y != []
    ensures Watched(x + y, maxGap) == Watched(x, maxGap) + Interval(x[|x| - 1], y[0], maxGap) + Watched(y, maxGap)
  {
    var n := |y| - 1;
    assert y == y[..n] + [y[n]];
    assert n == 0 ==> Watched(y, maxGap) == 0;
    hide Watched, Interval;
    if n == 0 {
      assert x + y == x + [y[0]];
      WatchedSnoc(x, y[0], maxGap);
    } else {
      WatchedJoin(x, y[..n], maxGap);
      WatchedSnoc(x + y[..n], y[n], maxGap);
      WatchedSnoc(y[..n], y[n], maxGap);
      assert x + y == (x + y[..n]) + [y[n]];
      assert (x + y[..n])[|x| + n - 1] == y[..n][n - 1];
    }
  }

  lemma {:induction false} NothingWithin(b: seq<Event>, maxGap: int)
    requires forall i, j | 0 <= i < j < |b| :: b[i].at == b[j].at
    ensures Watched(b, maxGap) == 0
  {
    if |b| >= 2 {
      NothingWithin(b[..|b| - 1], maxGap);
    }
  }

  // Of one instant between what came before and what comes after, only the time and the last event matter.
  lemma AroundInstant(a: seq<Event>, b: seq<Event>, c: seq<Event>, maxGap: int)
    requires b != [] && c != [] && forall i, j | 0 <= i < j < |b| :: b[i].at == b[j].at
    ensures Watched(a + b + c, maxGap) ==
      (if a == [] then 0 else Watched(a, maxGap) + Interval(a[|a| - 1], b[0], maxGap))
      + Interval(b[|b| - 1], c[0], maxGap) + Watched(c, maxGap)
  {
    NothingWithin(b, maxGap);
    WatchedJoin(a + b, c, maxGap);
    if a == [] {
      assert a + b == b;
    } else {
      WatchedJoin(a, b, maxGap);
    }
  }

  // Ids that grow with their number.
  function Name(n: nat): string {
    if n == 0 then "" else "a" + Name(n - 1)
  }

  lemma {:induction false} NamesGrow(m: nat, n: nat)
    requires m < n
    ensures StrLess(Name(m), Name(n))
  {
    if m > 0 {
      NamesGrow(m - 1, n - 1);
    }
  }

  // Names in the order of emission, except that p is named last of all.
  function Rank(p: nat, n: nat, x: nat): nat {
    if x == p then n else x
  }

  function Labelled(sent: seq<Emission>, p: nat): seq<Event> {
    seq(|sent|, x requires 0 <= x < |sent| =>
      Event(Name(Rank(p, |sent|, x)), "m", "k", "i", sent[x].typ, None, MILLISECOND * sent[x].at))
  }

  lemma NamesDistinct(sent: seq<Emission>, p: nat)
    ensures DistinctSeqIds(Labelled(sent, p)) && Carries(Labelled(sent, p), sent)
  {
    var q := Labelled(sent, p);
    forall i, j | 0 <= i < j < |q| ensures q[i].id != q[j].id {
      var a, b := Rank(p, |sent|, i), Rank(p, |sent|, j);
      if a < b {
        NamesGrow(a, b);
        StrLessAsymmetric(Name(a), Name(b));
      } else {
        NamesGrow(b, a);
        StrLessAsymmetric(Name(b), Name(a));
      }
    }
  }

  // With those names p is moved behind the last event l of its instant.
  function MovedBack(q: seq<Event>, p: nat, l: nat): seq<Event>
    requires p < l < |q|
  {
    q[..p] + (q[p + 1..l + 1] + [q[p]]) + q[l + 1..]
  }

  // Where a moved event came from.
  function Source(p: nat, l: nat, x: nat): nat {
    if x < p || x > l then x else if x == l then p else x + 1
  }

  lemma MovedAt(q: seq<Event>, p: nat, l: nat, x: nat)
    requires p < l < |q| && x < |q|
    ensures |MovedBack(q, p, l)| == |q| && MovedBack(q, p, l)[x] == q[Source(p, l, x)]
  {
  }

  lemma MovedOrdered(sent: seq<Emission>, p: nat, l: nat)
    requires InTime(sent) && p < l < |sent| && sent[p].at == sent[l].at &&
      (l + 1 < |sent| ==> sent[l].at < sent[l + 1].at)
    ensures Ordered(MovedBack(Labelled(sent, p), p, l))
  {
    var q := Labelled(sent, p);
    var r := MovedBack(q, p, l);
    forall x, y | 0 <= x < y < |r| ensures Before(r[x], r[y]) {
      MovedAt(q, p, l, x);
      MovedAt(q, p, l, y);
      var a, b := Source(p, l, x), Source(p, l, y);
      if Rank(p, |sent|, a) < Rank(p, |sent|, b) {
        NamesGrow(Rank(p, |sent|, a), Rank(p, |sent|, b));
      }
      InTimeAt(sent, p, l, a, b);
    }
  }

  lemma InTimeAt(sent: seq<Emission>, p: nat, l: nat, a: nat, b: nat)
    requires InTime(sent) && p < l < |sent| && sent[p].at == sent[l].at &&
      (l + 1 < |sent| ==> sent[l].at < sent[l + 1].at)
    requires a < |sent| && b < |sent| && a != b && (if a == p then b > l else if b == p then a <= l else a < b)
    ensures sent[a].at <= sent[b].at && (a == p ==> sent[a].at < sent[b].at)
  {
    if a == p {
      assert sent[l + 1].at <= sent[b].at;
    } else if b == p {
      assert a == l || sent[a].at <= sent[l].at;
    }
  }

  lemma MovedElems(q: seq<Event>, p: nat, l: nat)
    requires p < l < |q|
    ensures Elems(MovedBack(q, p, l)) == Elems(q)
  {
    var r := MovedBack(q, p, l);
    assert q == q[..p] + ([q[p]] + q[p + 1..l + 1]) + q[l + 1..];
    forall x ensures x in r <==> x in q {
    }
  }

  // The last emission of an instant that is not the last.
  lemma EndOfInstant(sent: seq<Emission>, j: nat, k: nat) returns (l: nat)
    requires InTime(sent) && j < |sent| && k < |sent| && sent[j].at < sent[k].at
    ensures j <= l && l + 1 < |sent| && sent[l].at == sent[j].at < sent[l + 1].at <= sent[k].at
    ensures forall x | 0 <= x < |sent| && sent[x].at == sent[j].at :: x <= l
  {
    l := j;
    while sent[l + 1].at == sent[j].at
      invariant j <= l < k && sent[l].at == sent[j].at
      decreases k - l
    {
      l := l + 1;
    }
    forall x | l < x < |sent| ensures sent[x].at > sent[j].at {
      assert x == l + 1 || sent[l + 1].at <= sent[x].at;
    }
  }

  // Moving x to the end of its instant replaces what the instant's last event counted by what x counts.
  lemma MovingChanges(a: seq<Event>, x: Event, b: seq<Event>, c: seq<Event>, maxGap: int)
    requires b != [] && c != [] && forall y | y in b :: y.at == x.at
    ensures Watched(a + ([x] + b) + c, maxGap) - Interval(b[|b| - 1], c[0], maxGap) ==
      Watched(a + (b + [x]) + c, maxGap) - Interval(x, c[0], maxGap)
  {
    assert ([x] + b)[0].at == (b + [x])[0].at;
    assert a != [] ==> Interval(a[|a| - 1], ([x] + b)[0], maxGap) == Interval(a[|a| - 1], (b + [x])[0], maxGap);
    hide Watched, Interval;
    AroundInstant(a, [x] + b, c, maxGap);
    AroundInstant(a, b + [x], c, maxGap);
  }

  lemma InstantAround(sent: seq<Emission>, p: nat, l: nat)
    requires p < l < |sent| && sent[p].at == sent[l].at && InTime(sent)
    ensures forall y | y in Labelled(sent, p)[p + 1..l + 1] :: y.at == Labelled(sent, p)[p].at
  {
    var q := Labelled(sent, p);
    forall y | y in q[p + 1..l + 1] ensures y.at == q[p].at {
      var x :| p < x <= l && q[x] == y;
      assert sent[p].at <= sent[x].at <= sent[l].at;
    }
  }

  lemma MovedParts(q: seq<Event>, p: nat, l: nat)
    requires p < l < |q|
    ensures MovedBack(q, p, l) == q[..p] + (q[p + 1..l + 1] + [q[p]]) + q[l + 1..]
  {
  }

  lemma IntervalsDiffer(sent: seq<Emission>, p: nat, l: nat)
    requires p < l && l + 1 < |sent| && sent[p].at == sent[l].at < sent[l + 1].at <= sent[l].at + 2 * PROGRESS_INTERVAL
    requires Counts(sent[p].typ) != Counts(sent[l].typ)
    ensures var q := Labelled(sent, p); Interval(q[l], q[l + 1], 2 * CADENCE) != Interval(q[p], q[l + 1], 2 * CADENCE)
  {
  }

  lemma MovedWatched(sent: seq<Emission>, p: nat, l: nat)
    requires p < l && l + 1 < |sent| && sent[p].at == sent[l].at < sent[l + 1].at <= sent[l].at + 2 * PROGRESS_INTERVAL
    requires InTime(sent) && Counts(sent[p].typ) != Counts(sent[l].typ)
    ensures Watched(MovedBack(Labelled(sent, p), p, l), 2 * CADENCE) != Watched(Labelled(sent, p), 2 * CADENCE)
  {
    var q := Labelled(sent, p);
    var a, b, c := q[..p], q[p + 1..l + 1], q[l + 1..];
    hide Watched, InTime, Interval, MovedBack;
    InstantAround(sent, p, l);
    IntervalsDiffer(sent, p, l);
    hide Labelled;
    assert MovedBack(q, p, l) == a + (b + [q[p]]) + c by { MovedParts(q, p, l); }
    assert q == a + ([q[p]] + b) + c;
    MovingChanges(a, q[p], b, c, 2 * CADENCE);
  }

  lemma UnsteadyMisleads(sent: seq<Emission>, i: nat, j: nat, k: nat) returns (events: seq<Event>)
    requires InTime(sent) && i < |sent| && j < |sent| && k < |sent| && SoonAfter(sent[i], sent[j], sent[k])
    requires Counts(sent[i].typ) != Counts(sent[j].typ)
    ensures Carries(events, sent) && DistinctSeqIds(events) && StoredWatched(events) != MILLISECOND * Reported(sent)
  {
    var l := EndOfInstant(sent, j, k);
    var p := if Counts(sent[i].typ) != Counts(sent[l].typ) then i else j;
    events := Labelled(sent, p);
    NamesDistinct(sent, p);
    MovedOrdered(sent, p, l);
    MovedElems(events, p, l);
    MovedWatched(sent, p, l);
    WatchedIsReported(events, sent);
    SortIsArrange(events);
    hide Watched, Ordered, InTime, Labelled, MovedBack, Reported, Carries;
    ArrangeUnique(MovedBack(events, p, l), Elems(events));
  }

  /** Ids are drawn at random. The stored events of a trace give what was reported, whatever ids they draw, if and
      only if no instant that is soon followed by another holds both an event that counts and one that does not. */
  lemma StoredIsReportedIff(sent: seq<Emission>)
    requires InTime(sent)
    ensures Steady(sent) <==>
      forall events | Carries(events, sent) && DistinctSeqIds(events) ::
        StoredWatched(events) == MILLISECOND * Reported(sent)
  {
    hide Carries, DistinctSeqIds, StoredWatched, InTime;
    if Steady(sent) {
      forall events | Carries(events, sent) && DistinctSeqIds(events)
        ensures StoredWatched(events) == MILLISECOND * Reported(sent)
      {
        SteadySuffices(events, sent);
      }
    } else {
      var i: nat, j: nat, k: nat :| i < |sent| && j < |sent| && k < |sent| && SoonAfter(sent[i], sent[j], sent[k])
        && Counts(sent[i].typ) != Counts(sent[j].typ);
      var events := UnsteadyMisleads(sent, i, j, k);
    }
  }

  // ----- the whole way from the player to the fold -----

  ghost predicate Monotone(beats: seq<Beat>) {
    forall i, j | 0 <= i < j < |beats| :: beats[i].at <= beats[j].at
  }

  lemma {:induction false} EmittedInTime(beats: seq<Beat>)
    requires Monotone(beats)
    ensures InTime(Emitted(beats).sent)
    ensures forall e | e in Emitted(beats).sent :: beats != [] && e.at <= beats[|beats| - 1].at
  {
    if beats != [] {
      EmittedInTime(beats[..|beats| - 1]);
      hide StepOf;
    }
  }

  lemma FoldIsStored(events: seq<Event>, duration: Option<int>, cfg: Config)
    requires DistinctSeqIds(events) && events != [] && cfg.cadence == CADENCE
    ensures DistinctIds(Elems(events)) && FoldSet(Elems(events), duration, cfg).watched ==
      RoundSeconds(StoredWatched(events))
  {
    SortIsArrange(events);
    NoElems(events);
    hide Watched, MaxPosition, Completes, DistinctSeqIds, DistinctIds, StableSort;
  }

  /** With a cadence of thirty seconds and a clock that does not run back: folding the stored events of a steady
      trace, whatever their ids and order of delivery, gives the time really played up to the last of them and the
      excess of the trace, which a true trace has none of, rounded to the second. */
  lemma FoldRecoversPlayTime(beats: seq<Beat>, events: seq<Event>, duration: Option<int>, cfg: Config)
    requires Monotone(beats) && Carries(events, Emitted(beats).sent) && DistinctSeqIds(events) &&
      Steady(Emitted(beats).sent)
    requires events != [] && cfg.cadence == CADENCE
    ensures DistinctIds(Elems(events))
    ensures var sent := Emitted(beats).sent;
      && FoldSet(Elems(events), duration, cfg).watched ==
           RoundSeconds(MILLISECOND * (TimePlayed(beats) - Unreported(beats) + Excess(sent)))
      && (TrueTrace(sent) ==> Excess(sent) == 0)
  {
    hide Playing, Counts, Watched, TimePlayed, Unreported, Excess, Reported, TrueTrace, Emitted, Carries, DistinctIds,
      DistinctSeqIds, Steady, Monotone, StoredWatched, FoldSet, RoundSeconds, InTime;
    EmittedInTime(beats);
    SteadySuffices(events, Emitted(beats).sent);
    FoldIsStored(events, duration, cfg);
    Accounted(beats);
    if TrueTrace(Emitted(beats).sent) {
      TrueHasNoExcess(Emitted(beats).sent);
    }
  }

  lemma {:induction false} TrueHasNoExcess(sent: seq<Emission>)
    requires TrueTrace(sent)
    ensures Excess(sent) == 0
  {
    if |sent| >= 2 {
      var n := |sent| - 1;
      assert sent == sent[..n] + [sent[n]];
      TrueTraceSnoc(sent[..n], sent[n]);
      TrueHasNoExcess(sent[..n]);
      TruePairIff(sent[..n], sent[n]);
      hide TruePair, PlaysAfter, TrueTrace;
    }
  }

  /** And with a session gap of at least two cadences: however a log cuts the events of a key into sessions, what
      its sessions are watched for adds up, before rounding, to the time really played. */
  lemma SessionsGivePlayTime(P: set<seq<Event>>, S: set<Event>, k: Key, cfg: Config, beats: seq<Beat>,
                             events: seq<Event>)
    requires IsGapPartition(P, S, cfg.gap) && DistinctIds(S) && cfg.cadence == CADENCE && 2 * CADENCE <= cfg.gap
    requires KeyEvents(S, k) == Elems(events) && DistinctSeqIds(events)
    requires Monotone(beats) && Carries(events, Emitted(beats).sent) && Steady(Emitted(beats).sent)
    ensures DistinctIds(KeyEvents(S, k))
    ensures var p := Split(Arrange(KeyEvents(S, k)), cfg.gap);
      && Elems(p) == KeySessions(P, k)
      && TotalWatched(p, 2 * CADENCE) ==
           MILLISECOND * (TimePlayed(beats) - Unreported(beats) + Excess(Emitted(beats).sent))
  {
    SortIsArrange(events);
    hide Playing, Counts, Watched, TimePlayed, Unreported, Excess, Reported, Emitted, Carries, DistinctIds,
      DistinctSeqIds, Steady, Monotone, InTime, IsGapPartition, Split, TotalWatched, StableSort, KeyEvents, KeySessions;
    SplittingLosesNoWatchedTime(P, S, k, cfg);
    EmittedInTime(beats);
    SteadySuffices(events, Emitted(beats).sent);
    Accounted(beats);
  }

  // A second of play, a pause and play again in the same millisecond, and half a minute of play.
  function Hiccup(pauseId: string, resumeId: string): seq<Event> {
    [Event("s", "m", "k", "i", Start, None, 0), Event(pauseId, "m", "k", "i", Pause, None, MILLISECOND * 1000),
     Event(resumeId, "m", "k", "i", Resume, None, MILLISECOND * 1000),
     Event("t", "m", "k", "i", Progress, None, MILLISECOND * 31000)]
  }

  /** The order of ids within one millisecond is not a technicality: stored with the resume's id before the
      pause's, half a minute of play is not counted. */
  lemma TiedIdsMislead(a: seq<Beat>, b: seq<Beat>, c: seq<Beat>, d: seq<Beat>)
    requires a == [] + [Beat(Play, 0)] && b == a + [Beat(Paused, 1000)]
    requires c == b + [Beat(Play, 1000)] && d == c + [Beat(TimeUpdate, 31000)]
    ensures Carries(Hiccup("b", "a"), Emitted(d).sent) && DistinctSeqIds(Hiccup("b", "a"))
    ensures TimePlayed(d) == 31000 && Unreported(d) == 0 && TrueTrace(Emitted(d).sent)
    ensures StoredWatched(Hiccup("b", "a")) == MILLISECOND * 1000 &&
      StoredWatched(Hiccup("a", "b")) == MILLISECOND * 31000
  {
    hide Emitted, TimePlayed, Unreported, TrueTrace, StoredWatched, Playing;
    HiccupPlayed(a, b, c, d);
    hide Hiccup;
    HiccupSwapped();
    HiccupInOrder();
    HiccupCarries();
  }

  lemma HiccupCarries()
    ensures Carries(Hiccup("b", "a"),
      [Emission(Start, 0), Emission(Pause, 1000), Emission(Resume, 1000), Emission(Progress, 31000)])
  {
  }

  lemma HiccupPlayed(a: seq<Beat>, b: seq<Beat>, c: seq<Beat>, d: seq<Beat>)
    requires a == [] + [Beat(Play, 0)] && b == a + [Beat(Paused, 1000)]
    requires c == b + [Beat(Play, 1000)] && d == c + [Beat(TimeUpdate, 31000)]
    ensures Emitted(d).sent ==
      [Emission(Start, 0), Emission(Pause, 1000), Emission(Resume, 1000), Emission(Progress, 31000)]
    ensures TimePlayed(d) == 31000 && Unreported(d) == 0 && TrueTrace(Emitted(d).sent)
  {
    var w, x, y, z := Emission(Start, 0), Emission(Pause, 1000), Emission(Resume, 1000), Emission(Progress, 31000);
    hide Emitted, Playing, TimePlayed, TrueTrace;
    Nothing();
    Snoc([], Beat(Play, 0));
    Snoc(a, Beat(Paused, 1000));
    Snoc(b, Beat(Play, 1000));
    Snoc(c, Beat(TimeUpdate, 31000));
    assert Emitted(d).sent == [w, x, y, z];
    HiccupTrue(w, x, y, z);
  }

  lemma HiccupTrue(w: Emission, x: Emission, y: Emission, z: Emission)
    requires w == Emission(Start, 0) && x == Emission(Pause, 1000) && y == Emission(Resume, 1000) &&
      z == Emission(Progress, 31000)
    ensures TrueTrace([w, x, y, z])
  {
    hide PlaysAfter, TrueTrace;
    TrueTraceSnoc([], w);
    TrueTraceSnoc([] + [w], x);
    TrueTraceSnoc([] + [w] + [x], y);
    TrueTraceSnoc([] + [w] + [x] + [y], z);
    PlaysSnoc([], w);
    PlaysSnoc([] + [w], x);
    PlaysSnoc([] + [w] + [x], y);
    NoTrace();
    assert [w, x, y, z] == [] + [w] + [x] + [y] + [z];
  }

  lemma NoTrace()
    ensures TrueTrace([])
  {
  }

  lemma SortedIs(q: seq<Event>, r: seq<Event>)
    requires DistinctSeqIds(q) && Ordered(r) && Elems(r) == Elems(q)
    ensures StableSort(q, Before) == r
  {
    SortIsArrange(q);
    ArrangeUnique(r, Elems(q));
  }

  lemma FourWatched(a: Event, b: Event, c: Event, d: Event)
    ensures Watched([a] + [b] + [c] + [d], 2 * CADENCE) ==
      Interval(a, b, 2 * CADENCE) + Interval(b, c, 2 * CADENCE) + Interval(c, d, 2 * CADENCE)
  {
    WatchedOne(a);
    hide Watched, Interval;
    WatchedSnoc([a], b, 2 * CADENCE);
    WatchedSnoc([a] + [b], c, 2 * CADENCE);
    WatchedSnoc([a] + [b] + [c], d, 2 * CADENCE);
  }

  lemma HiccupSwapped()
    ensures DistinctSeqIds(Hiccup("b", "a")) && StoredWatched(Hiccup("b", "a")) == MILLISECOND * 1000
  {
    var q := Hiccup("b", "a");
    var r := [q[0]] + [q[2]] + [q[1]] + [q[3]];
    assert StrLess("a", "b");
    hide StrLess;
    assert Ordered(r);
    assert Elems(r) == Elems(q);
    hide Watched, StableSort, Ordered;
    SortedIs(q, r);
    FourWatched(q[0], q[2], q[1], q[3]);
  }

  lemma HiccupInOrder()
    ensures DistinctSeqIds(Hiccup("a", "b")) && StoredWatched(Hiccup("a", "b")) == MILLISECOND * 31000
  {
    var q := Hiccup("a", "b");
    var r := [q[0]] + [q[1]] + [q[2]] + [q[3]];
    assert StrLess("a", "b");
    hide StrLess;
    assert Ordered(r);
    assert r == q;
    hide Watched, StableSort, Ordered;
    SortedIs(q, r);
    FourWatched(q[0], q[1], q[2], q[3]);
  }

  lemma WatchedOne(e: Event)
    ensures Watched([e], 2 * CADENCE) == 0
  {
  }
}
