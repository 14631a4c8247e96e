/** The gap rule and the one way it cuts a log into sessions. */
module Partition {
  import opened Sorting
  import opened Stamps
  import opened Events

  // The boundary itself still belongs to the earlier session.
  predicate OpensNewSession(prevEnd: Time, at: Time, gap: int) {
    at - prevEnd > gap
  }

  predicate Apart(a: Event, b: Event, gap: int) {
    OpensNewSession(a.at, b.at, gap) || OpensNewSession(b.at, a.at, gap)
  }

  // One session's events: of one key, in replay order, with no gap between neighbours.
  ghost predicate IsSession(g: seq<Event>, gap: int) {
    && g != []
    && Ordered(g)
    && (forall e | e in g :: e.KeyOf() == g[0].KeyOf())
    && (forall i | 0 < i < |g| :: !OpensNewSession(g[i - 1].at, g[i].at, gap))
  }

  ghost predicate ApartSessions(g: seq<Event>, h: seq<Event>, gap: int) {
    forall a, b | a in g && b in h && a.KeyOf() == b.KeyOf() :: Apart(a, b, gap)
  }

  ghost predicate Separated(P: set<seq<Event>>, gap: int) {
    forall g, h | g in P && h in P && g != h :: ApartSessions(g, h, gap)
  }

  /** A cut of the events S into sessions that are tight inside and, on the same key, a gap apart. */
  ghost predicate IsGapPartition(P: set<seq<Event>>, S: set<Event>, gap: int) {
    && (forall g | g in P :: IsSession(g, gap) && Elems(g) <= S)
    && (forall e | e in S :: exists g :: g in P && e in g)
    && Separated(P, gap)
  }

  // With a non-negative gap an event is in at most one session.
  lemma OneSessionPerEvent(P: set<seq<Event>>, S: set<Event>, gap: int, g: seq<Event>, h: seq<Event>, e: Event)
    requires IsGapPartition(P, S, gap) && gap >= 0
    requires g in P && h in P && e in g && e in h
    ensures g == h
  {
    assert g != h ==> ApartSessions(g, h, gap);
  }

  // A session of one partition stays together in any other.
  lemma {:induction false} SessionStaysTogether(Q: set<seq<Event>>, S: set<Event>, gap: int,
                                                g: seq<Event>, h: seq<Event>, n: nat)
    requires IsGapPartition(Q, S, gap) && gap >= 0
    requires IsSession(g, gap) && Elems(g) <= S && h in Q && g[0] in h
    requires n < |g|
    ensures g[n] in h
  {
    if n > 0 {
      SessionStaysTogether(Q, S, gap, g, h, n - 1);
      assert g[n] in Elems(g);
      var h' :| h' in Q && g[n] in h';
      assert g[n].KeyOf() == g[n - 1].KeyOf();
      assert Before(g[n - 1], g[n]);
      assert !Apart(g[n - 1], g[n], gap);
      assert h != h' ==> ApartSessions(h, h', gap);
    }
  }

  lemma SessionShared(P: set<seq<Event>>, Q: set<seq<Event>>, S: set<Event>, gap: int, g: seq<Event>)
    requires IsGapPartition(P, S, gap) && IsGapPartition(Q, S, gap) && gap >= 0
    requires g in P
    ensures g in Q
  {
    assert g[0] in Elems(g);
    var h :| h in Q && g[0] in h;
    assert h[0] in Elems(h);
    var g' :| g' in P && h[0] in g';
    forall e ensures e in Elems(g) <==> e in Elems(h) {
      if e in Elems(g) {
        var n :| 0 <= n < |g| && g[n] == e;
        SessionStaysTogether(Q, S, gap, g, h, n);
      }
      if e in Elems(h) {
        var m :| 0 <= m < |h| && h[m] == e;
        SessionStaysTogether(P, S, gap, h, g', m);
        var k :| 0 <= k < |h| && h[k] == g[0];
        SessionStaysTogether(P, S, gap, h, g', k);
        OneSessionPerEvent(P, S, gap, g, g', g[0]);
      }
    }
    OrderedUnique(g, h);
  }

  /** The gap rule leaves no freedom: a log has exactly one gap partition. */
  lemma PartitionUnique(P: set<seq<Event>>, Q: set<seq<Event>>, S: set<Event>, gap: int)
    requires IsGapPartition(P, S, gap) && IsGapPartition(Q, S, gap) && gap >= 0
    ensures P == Q
  {
    forall g ensures g in P <==> g in Q {
      if g in P {
        SessionShared(P, Q, S, gap, g);
      }
      if g in Q {
        SessionShared(Q, P, S, gap, g);
      }
    }
  }

  lemma LastNotAfter(g: seq<Event>, at: Time) returns (i: nat)
    requires g != [] && g[0].at <= at
    ensures i < |g| && g[i].at <= at && (i + 1 < |g| ==> at < g[i + 1].at)
  {
    i := 0;
    while i + 1 < |g| && g[i + 1].at <= at
      invariant i < |g| && g[i].at <= at
    {
      i := i + 1;
    }
  }

  // What happens on a session's key within its span is part of it.
  lemma WithinSpan(P: set<seq<Event>>, S: set<Event>, gap: int, g: seq<Event>, e: Event)
    requires IsGapPartition(P, S, gap) && gap >= 0 && g in P && e in S
    requires e.KeyOf() == g[0].KeyOf() && g[0].at <= e.at <= g[|g| - 1].at
    ensures e in g
  {
    var h :| h in P && e in h;
    var i := LastNotAfter(g, e.at);
    assert i + 1 < |g| ==> !OpensNewSession(g[i].at, g[i + 1].at, gap);
    assert g[i] in g && !Apart(g[i], e, gap);
    assert g != h ==> ApartSessions(g, h, gap);
  }

  // ----- growing a partition by the next event -----

  ghost predicate After(e: Event, S: set<Event>) {
    forall x | x in S :: x.at <= e.at && x != e
  }

  lemma OpenSession(P: set<seq<Event>>, S: set<Event>, gap: int, e: Event)
    requires IsGapPartition(P, S, gap)
    requires forall x | x in S && x.KeyOf() == e.KeyOf() :: OpensNewSession(x.at, e.at, gap)
    ensures IsGapPartition(P + {[e]}, S + {e}, gap)
  {
    var P' := P + {[e]};
    forall x | x in S + {e} ensures exists g :: g in P' && x in g {
      if x in S {
        var g :| g in P && x in g;
        assert g in P';
      } else {
        assert [e] in P' && x in [e];
      }
    }
    forall g, h | g in P' && h in P' && g != h ensures ApartSessions(g, h, gap) {
      if g in P && h in P {
      } else {
        forall a, b | a in g && b in h && a.KeyOf() == b.KeyOf() ensures Apart(a, b, gap) {
          if g in P {
            assert a in Elems(g);
          } else {
            assert b in Elems(h);
          }
        }
      }
    }
  }

  lemma ExtendSession(P: set<seq<Event>>, S: set<Event>, gap: int, g: seq<Event>, e: Event)
    requires IsGapPartition(P, S, gap) && gap >= 0 && After(e, S)
    requires g in P && g[0].KeyOf() == e.KeyOf()
    requires Before(g[|g| - 1], e) && !OpensNewSession(g[|g| - 1].at, e.at, gap)
    ensures IsGapPartition(P - {g} + {g + [e]}, S + {e}, gap)
  {
    var g' := g + [e];
    SessionGrowsAtEnd(g, e, gap);
    assert Elems(g') == Elems(g) + {e};
    ReplacedCovers(P, S, g, g', e);
    forall h | h in P && h != g ensures ApartSessions(g', h, gap) && ApartSessions(h, g', gap) {
      assert Elems(h) <= S;
      ExtendedApart(g, e, h, S, gap);
    }
  }

  lemma ReplacedCovers(P: set<seq<Event>>, S: set<Event>, g: seq<Event>, g': seq<Event>, e: Event)
    requires g in P && Elems(g') == Elems(g) + {e}
    requires forall x | x in S :: exists h :: h in P && x in h
    ensures forall x | x in S + {e} :: exists h :: h in P - {g} + {g'} && x in h
  {
    forall x | x in S + {e} ensures exists h :: h in P - {g} + {g'} && x in h {
      assert e in Elems(g') && e in g';
      if x != e {
        var h :| h in P && x in h;
        if h == g {
          assert x in Elems(g) && x in Elems(g') && x in g';
        } else {
          assert h in P - {g} + {g'};
        }
      }
    }
  }

  // An event that joins a session at its end stays a gap away from every other session.
  lemma ExtendedApart(g: seq<Event>, e: Event, h: seq<Event>, S: set<Event>, gap: int)
    requires IsSession(g, gap) && g[0].KeyOf() == e.KeyOf()
    requires g[|g| - 1].at <= e.at && !OpensNewSession(g[|g| - 1].at, e.at, gap)
    requires After(e, S) && Elems(h) <= S
    requires ApartSessions(g, h, gap) && ApartSessions(h, g, gap)
    ensures ApartSessions(g + [e], h, gap) && ApartSessions(h, g + [e], gap)
  {
    var last := g[|g| - 1];
    forall b | b in h && b.KeyOf() == e.KeyOf() ensures Apart(e, b, gap) && Apart(b, e, gap) {
      assert b in Elems(h);
      assert last in g && last.KeyOf() == e.KeyOf();
      assert Apart(last, b, gap);
    }
    forall a | a in g + [e] ensures a == e || a in g {
    }
  }

  lemma SessionGrowsAtEnd(g: seq<Event>, e: Event, gap: int)
    requires IsSession(g, gap) && g[0].KeyOf() == e.KeyOf()
    requires Before(g[|g| - 1], e) && !OpensNewSession(g[|g| - 1].at, e.at, gap)
    ensures IsSession(g + [e], gap)
  {
    BeforeTransitive();
    forall x | x in g ensures Before(x, e) {
      var i :| 0 <= i < |g| && g[i] == x;
      assert i < |g| - 1 ==> Before(g[i], g[|g| - 1]);
    }
  }

  // ----- one key's stream, cut from left to right -----

  function Flatten(p: seq<seq<Event>>): seq<Event> {
    if p == [] then [] else Flatten(p[..|p| - 1]) + p[|p| - 1]
  }

  function Split(s: seq<Event>, gap: int): (p: seq<seq<Event>>)
    ensures p == [] <==> s == []
  {
    if s == [] then []
    else
      var n := |s| - 1;
      var p := Split(s[..n], gap);
      if n > 0 && !OpensNewSession(s[n - 1].at, s[n].at, gap) then
        p[..|p| - 1] + [p[|p| - 1] + [s[n]]]
      else
        p + [[s[n]]]
  }

  lemma FlattenSnoc(p: seq<seq<Event>>, g: seq<Event>)
    ensures Flatten(p + [g]) == Flatten(p) + g
  {
    assert (p + [g])[..|p|] == p;
  }

  lemma {:induction false} SplitFlattens(s: seq<Event>, gap: int)
    ensures Flatten(Split(s, gap)) == s
    ensures s != [] ==> var g := Split(s, gap)[|Split(s, gap)| - 1]; g != [] && g[|g| - 1] == s[|s| - 1]
  {
    if s != [] {
      var n := |s| - 1;
      SplitFlattens(s[..n], gap);
      var p := Split(s[..n], gap);
      assert s == s[..n] + [s[n]];
      if n > 0 && !OpensNewSession(s[n - 1].at, s[n].at, gap) {
        var front, g := p[..|p| - 1], p[|p| - 1];
        assert p == front + [g];
        FlattenSnoc(front, g);
        FlattenSnoc(front, g + [s[n]]);
        assert Flatten(front) + (g + [s[n]]) == Flatten(front) + g + [s[n]];
      } else {
        FlattenSnoc(p, [s[n]]);
      }
    }
  }

  lemma {:induction false} SplitIsPartition(s: seq<Event>, gap: int)
    requires Ordered(s) && gap >= 0 && forall e | e in s :: e.KeyOf() == s[0].KeyOf()
    ensures IsGapPartition(Elems(Split(s, gap)), Elems(s), gap)
  {
    if s == [] {
      assert Elems(Split(s, gap)) == {};
    } else {
      var n := |s| - 1;
      assert forall e | e in s[..n] :: e in s;
      SplitIsPartition(s[..n], gap);
      assert Elems(s) == Elems(s[..n]) + {s[n]};
      if n > 0 && !OpensNewSession(s[n - 1].at, s[n].at, gap) {
        SplitExtends(s, gap);
      } else {
        SplitOpens(s, gap);
      }
    }
  }

  // After a gap the last event is a gap after all before it.
  lemma OpensAfterAll(s: seq<Event>, gap: int)
    requires Ordered(s) && s != [] && (|s| > 1 ==> OpensNewSession(s[|s| - 2].at, s[|s| - 1].at, gap))
    ensures forall x | x in s[..|s| - 1] :: OpensNewSession(x.at, s[|s| - 1].at, gap)
  {
    hide StrLess;
    var n := |s| - 1;
    forall x | x in s[..n] ensures OpensNewSession(x.at, s[n].at, gap) {
      var i :| 0 <= i < n && s[i] == x;
      assert i < n - 1 ==> Before(s[i], s[n - 1]);
    }
  }

  lemma SplitOpens(s: seq<Event>, gap: int)
    requires Ordered(s) && s != [] && (|s| > 1 ==> OpensNewSession(s[|s| - 2].at, s[|s| - 1].at, gap))
    requires IsGapPartition(Elems(Split(s[..|s| - 1], gap)), Elems(s[..|s| - 1]), gap)
    ensures IsGapPartition(Elems(Split(s, gap)), Elems(s[..|s| - 1]) + {s[|s| - 1]}, gap)
  {
    var n := |s| - 1;
    var t, e := s[..n], s[n];
    assert Elems(Split(s, gap)) == Elems(Split(t, gap)) + {[e]};
    hide IsGapPartition, Split, Ordered, OpensNewSession;
    OpensAfterAll(s, gap);
    OpenSession(Elems(Split(t, gap)), Elems(t), gap, e);
  }

  lemma LastIsAfter(s: seq<Event>)
    requires Ordered(s) && s != []
    ensures After(s[|s| - 1], Elems(s[..|s| - 1])) && s[|s| - 1] !in s[..|s| - 1]
  {
    var t, e := s[..|s| - 1], s[|s| - 1];
    BeforeAsymmetric(e, e);
    forall x | x in t ensures Before(x, e) {
      var i :| 0 <= i < |t| && t[i] == x;
      assert Before(s[i], s[|s| - 1]);
    }
  }

  lemma FirstOfSession(P: set<seq<Event>>, S: set<Event>, gap: int, g: seq<Event>)
    requires IsGapPartition(P, S, gap) && g in P
    ensures g != [] && g[0] in S
  {
    assert g[0] in Elems(g);
  }

  lemma SplitExtends(s: seq<Event>, gap: int)
    requires Ordered(s) && gap >= 0 && |s| > 1 && forall e | e in s :: e.KeyOf() == s[0].KeyOf()
    requires !OpensNewSession(s[|s| - 2].at, s[|s| - 1].at, gap)
    requires IsGapPartition(Elems(Split(s[..|s| - 1], gap)), Elems(s[..|s| - 1]), gap)
    ensures IsGapPartition(Elems(Split(s, gap)), Elems(s[..|s| - 1]) + {s[|s| - 1]}, gap)
  {
    var t, e := s[..|s| - 1], s[|s| - 1];
    SplitFlattens(t, gap);
    SplitDistinct(t, gap);
    LastIsAfter(s);
    assert Before(s[|s| - 2], s[|s| - 1]);
    forall x | x in Elems(t) ensures x.KeyOf() == e.KeyOf() {
      assert x in s && e in s;
    }
    hide StrLess, IsGapPartition;
    LastPieceExtends(Split(t, gap), Elems(t), gap, e);
  }

  lemma LastPieceExtends(p: seq<seq<Event>>, S: set<Event>, gap: int, e: Event)
    requires p != [] && IsGapPartition(Elems(p), S, gap) && gap >= 0
    requires forall i, j | 0 <= i < j < |p| :: p[i] != p[j]
    requires After(e, S) && forall x | x in S :: x.KeyOf() == e.KeyOf()
    requires var g := p[|p| - 1]; g != [] && Before(g[|g| - 1], e) && !OpensNewSession(g[|g| - 1].at, e.at, gap)
    ensures IsGapPartition(Elems(p[..|p| - 1] + [p[|p| - 1] + [e]]), S + {e}, gap)
  {
    hide StrLess, IsGapPartition;
    var g := p[|p| - 1];
    assert g in Elems(p);
    FirstOfSession(Elems(p), S, gap, g);
    ExtendSession(Elems(p), S, gap, g, e);
    ReplaceLast(p, g + [e]);
  }

  lemma ReplaceLast<T>(p: seq<T>, x: T)
    requires p != [] && forall i, j | 0 <= i < j < |p| :: p[i] != p[j]
    ensures Elems(p[..|p| - 1] + [x]) == Elems(p) - {p[|p| - 1]} + {x}
  {
    var q := p[..|p| - 1] + [x];
    forall y ensures y in q <==> y in Elems(p) - {p[|p| - 1]} + {x} {
      if y in Elems(p) - {p[|p| - 1]} {
        var i :| 0 <= i < |p| && p[i] == y;
        assert y == q[i];
      }
      if y in q && y != x {
        var i :| 0 <= i < |p| - 1 && p[i] == y;
      }
    }
  }

  // The pieces of a stream come in order, so no piece occurs twice.
  lemma {:induction false} SplitDistinct(s: seq<Event>, gap: int)
    requires Ordered(s)
    ensures forall i, j | 0 <= i < j < |Split(s, gap)| :: Split(s, gap)[i] != Split(s, gap)[j]
  {
    if s != [] {
      var t, e := s[..|s| - 1], s[|s| - 1];
      SplitDistinct(t, gap);
      SplitFlattens(t, gap);
      LastIsAfter(s);
      var p, q := Split(t, gap), Split(s, gap);
      assert e in q[|q| - 1];
      forall i | 0 <= i < |q| - 1 ensures e !in q[i] && i < |p| && q[i] == p[i] {
        if e in p[i] {
          FlattenHas(p, p[i], e);
        }
      }
    }
  }

  lemma {:induction false} FlattenHas(p: seq<seq<Event>>, g: seq<Event>, e: Event)
    requires g in p && e in g
    ensures e in Flatten(p)
  {
    if g != p[|p| - 1] {
      FlattenHas(p[..|p| - 1], g, e);
    }
  }
}
