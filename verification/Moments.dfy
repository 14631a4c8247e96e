/** Watched time without the loop: which moments of a session count, and how many of them there are. */
module Moments {
  import opened Sorting
  import opened Stamps
  import opened Events
  import opened Folding

  // n is the next event of S after e, in the order of time and, within one time, of ids.
  ghost predicate NextOf(S: set<Event>, e: Event, n: Event) {
    && e in S && n in S && Comes(e, n)
    && forall x | x in S :: x == e || x == n || Comes(x, e) || Comes(n, x)
  }

  predicate Comes(a: Event, b: Event) {
    a.at < b.at || (a.at == b.at && StrLess(a.id, b.id))
  }

  // A moment counts when the event before it neither paused nor stopped and the one after it came soon enough.
  ghost predicate Counted(S: set<Event>, t: Time, cadence: int) {
    exists e, n :: NextOf(S, e, n) && Between(e, t, n, cadence)
  }

  predicate Between(e: Event, t: Time, n: Event, cadence: int) {
    e.at <= t < n.at && n.at - e.at <= 2 * cadence && e.typ != Pause && e.typ != Stop
  }

  ghost function Moments(S: set<Event>, from: Time, to: Time, cadence: int): set<Time> {
    set t: Time | from <= t < to && Counted(S, t, cadence)
  }

  // ----- the moments of a list -----

  ghost predicate CountedIn(s: seq<Event>, t: Time, cadence: int) {
    exists i :: 0 < i < |s| && Between(s[i - 1], t, s[i], cadence)
  }

  ghost function MomentsIn(s: seq<Event>, cadence: int): set<Time>
    requires s != []
  {
    set t: Time | s[0].at <= t < s[|s| - 1].at && CountedIn(s, t, cadence)
  }

  // The moments of one interval.
  function Stretch(from: Time, to: Time): set<Time> {
    set t: Time | from <= t < to && Within(from, t, to)
  }

  predicate Within(from: Time, t: Time, to: Time) {
    from <= t < to
  }

  lemma {:induction false} StretchSize(from: Time, to: Time)
    requires from <= to
    ensures |Stretch(from, to)| == to - from
    decreases if from < to then to - from else 0
  {
    if from < to {
      StretchSize(from, to - 1);
      assert Stretch(from, to) == Stretch(from, to - 1) + {to - 1};
    } else {
      assert Stretch(from, to) == {};
    }
  }

  ghost function LastStretch(e: Event, n: Event, cadence: int): set<Time> {
    if Between(e, e.at, n, cadence) then Stretch(e.at, n.at) else {}
  }

  lemma InLastStretch(e: Event, n: Event, cadence: int, t: Time)
    ensures t in LastStretch(e, n, cadence) <==> Between(e, t, n, cadence)
  {
  }

  lemma LastStretchSize(e: Event, n: Event, cadence: int)
    ensures |LastStretch(e, n, cadence)| == Interval(e, n, 2 * cadence)
  {
    if Between(e, e.at, n, cadence) {
      StretchSize(e.at, n.at);
    }
  }

  ghost predicate InTime(s: seq<Event>) {
    forall i, j | 0 <= i < j < |s| :: s[i].at <= s[j].at
  }

  lemma OneMore(s: seq<Event>, cadence: int)
    requires |s| > 1 && InTime(s)
    ensures var n := |s| - 1;
      && MomentsIn(s, cadence) == MomentsIn(s[..n], cadence) + LastStretch(s[n - 1], s[n], cadence)
      && MomentsIn(s[..n], cadence) !! LastStretch(s[n - 1], s[n], cadence)
  {
    var n := |s| - 1;
    var before := s[..n];
    hide Between;
    forall t ensures CountedIn(s, t, cadence) <==> CountedIn(before, t, cadence) || Between(s[n - 1], t, s[n], cadence)
    {
      if i :| 0 < i < |s| && Between(s[i - 1], t, s[i], cadence) {
        assert i < n ==> before[i] == s[i] && before[i - 1] == s[i - 1];
      }
      if i :| 0 < i < n && Between(before[i - 1], t, before[i], cadence) {
        assert Between(s[i - 1], t, s[i], cadence);
      }
    }
    var last := LastStretch(s[n - 1], s[n], cadence);
    forall t ensures t in MomentsIn(s, cadence) <==> t in MomentsIn(before, cadence) || t in last {
      InLastStretch(s[n - 1], s[n], cadence, t);
      Inside(before, t, cadence);
      InSpan(s[n - 1], t, s[n], cadence);
    }
    forall t | t in last ensures t >= s[n - 1].at {
      InLastStretch(s[n - 1], s[n], cadence, t);
      InSpan(s[n - 1], t, s[n], cadence);
    }
  }

  lemma InSpan(e: Event, t: Time, n: Event, cadence: int)
    ensures Between(e, t, n, cadence) ==> e.at <= t < n.at
  {
  }

  lemma Inside(s: seq<Event>, t: Time, cadence: int)
    requires s != [] && InTime(s)
    ensures CountedIn(s, t, cadence) ==> s[0].at <= t < s[|s| - 1].at
  {
    if i :| 0 < i < |s| && Between(s[i - 1], t, s[i], cadence) {
      assert s[0].at <= s[i - 1].at && s[i].at <= s[|s| - 1].at;
    }
  }

  lemma {:induction false} WatchedIsMoments(s: seq<Event>, cadence: int)
    requires s != [] && InTime(s)
    ensures |MomentsIn(s, cadence)| == Watched(s, 2 * cadence)
  {
    hide Interval, LastStretch;
    if |s| == 1 {
      assert MomentsIn(s, cadence) == {};
    } else {
      var n := |s| - 1;
      WatchedIsMoments(s[..n], cadence);
      OneMore(s, cadence);
      LastStretchSize(s[n - 1], s[n], cadence);
      hide MomentsIn;
    }
  }

  // ----- the moments of a set are those of its replay order -----

  lemma NextInOrder(s: seq<Event>, S: set<Event>, i: nat)
    requires Ordered(s) && Elems(s) == S && 0 < i < |s|
    ensures NextOf(S, s[i - 1], s[i])
  {
    hide StrLess;
    assert s[i - 1] in Elems(s) && s[i] in Elems(s);
    assert Before(s[i - 1], s[i]);
    forall x | x in S ensures x == s[i - 1] || x == s[i] || Comes(x, s[i - 1]) || Comes(s[i], x) {
      var j :| 0 <= j < |s| && s[j] == x;
      assert j < i - 1 ==> Before(s[j], s[i - 1]);
      assert i < j ==> Before(s[i], s[j]);
    }
  }

  lemma Place(s: seq<Event>, j: nat, k: nat)
    requires Ordered(s) && j < |s| && k < |s|
    ensures Before(s[j], s[k]) <==> j < k
  {
    BeforeAsymmetric(s[j], s[k]);
    hide Before;
  }

  lemma OrderedNext(s: seq<Event>, S: set<Event>, e: Event, n: Event) returns (i: nat)
    requires Ordered(s) && Elems(s) == S && NextOf(S, e, n)
    ensures 0 < i < |s| && s[i - 1] == e && s[i] == n
  {
    hide StrLess;
    assert e in Elems(s) && n in Elems(s);
    var j :| 0 <= j < |s| && s[j] == e;
    var k :| 0 <= k < |s| && s[k] == n;
    Place(s, j, k);
    assert s[j + 1] in Elems(s);
    Place(s, j + 1, j);
    Place(s, k, j + 1);
    i := k;
  }

  lemma SameCounted(s: seq<Event>, S: set<Event>, t: Time, cadence: int)
    requires Ordered(s) && Elems(s) == S
    ensures CountedIn(s, t, cadence) <==> Counted(S, t, cadence)
  {
    hide Between, NextOf, Ordered;
    if i :| 0 < i < |s| && Between(s[i - 1], t, s[i], cadence) {
      NextInOrder(s, S, i);
    }
    if e, n :| NextOf(S, e, n) && Between(e, t, n, cadence) {
      var i := OrderedNext(s, S, e, n);
    }
  }

  lemma SameMoments(s: seq<Event>, S: set<Event>, cadence: int)
    requires Ordered(s) && Elems(s) == S && s != []
    ensures MomentsIn(s, cadence) == Moments(S, s[0].at, s[|s| - 1].at, cadence)
  {
    hide Ordered, Counted, CountedIn;
    forall t ensures CountedIn(s, t, cadence) <==> Counted(S, t, cadence) {
      SameCounted(s, S, t, cadence);
    }
  }

  lemma ArrangedInTime(S: set<Event>)
    requires DistinctIds(S)
    ensures InTime(Arrange(S))
  {
    hide StrLess;
    var s := Arrange(S);
    forall i, j | 0 <= i < j < |s| ensures s[i].at <= s[j].at {
      assert Before(s[i], s[j]);
    }
  }

  /** The watched seconds of a session are the number of nanoseconds in it at which it was being watched, to the
      nearest second and halves up: those whose last event neither paused nor stopped, and whose next event came
      within two cadences of it. */
  lemma FoldCountsMoments(S: set<Event>, duration: Option<int>, cfg: Config)
    requires DistinctIds(S) && S != {}
    ensures var a := FoldSet(S, duration, cfg);
      var n := |Moments(S, a.started, a.ended, cfg.cadence)|;
      -SECOND < 2 * SECOND * a.watched - 2 * n <= SECOND
  {
    ArrangedInTime(S);
    NoElems(Arrange(S));
    SameMoments(Arrange(S), S, cfg.cadence);
    WatchedIsMoments(Arrange(S), cfg.cadence);
    hide Ordered, StrLess, Watched, MaxPosition, Completes, Moments, MomentsIn, Position;
    RoundSecondsClose(Watched(Arrange(S), 2 * cfg.cadence));
  }
}
