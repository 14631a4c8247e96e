/** What a reconstruction says, in terms of the events, the gap and the order of times and names alone. */
module Outputs {
  import opened Sorting
  import opened Stamps
  import opened Events
  import opened Folding
  import opened Partition
  import opened Rebuild

  lemma GroupFirst(groups: seq<seq<Event>>, S: set<Event>, gap: int, i: nat)
    requires IsGapPartition(Elems(groups), S, gap) && i < |groups|
    ensures IsSession(groups[i], gap) && IsStream(groups[i]) && Elems(groups[i]) <= S
  {
    assert groups[i] in Elems(groups);
  }

  // What a group comes out as.
  lemma GroupOut(g: seq<Event>, durations: Durations, cfg: Config)
    requires IsStream(g)
    ensures var rb := FoldGroup(g, durations, cfg);
      && rb.session.media == g[0].media && rb.session.instance == g[0].instance && rb.session.kind == g[0].kind
      && rb.session.agg.started == g[0].at && rb.session.agg == FoldSorted(g, DurationOf(durations, g[0].media), cfg)
      && |rb.eventIds| == |g| && forall k | 0 <= k < |g| :: rb.eventIds[k] == g[k].id
  {
    GroupStart(g, durations, cfg);
    hide FoldOf, FoldSorted;
  }

  /** The sessions come in the order of their starts, those that start together in the order of their media
      items, and those of one item in the order of their instances, which differ. */
  lemma OutputOrder(out: seq<Rebuilt>, S: set<Event>, durations: Durations, cfg: Config, i: nat, j: nat)
    requires IsReconstruction(out, S, durations, cfg) && i < j < |out|
    ensures var a, b := out[i].session, out[j].session;
      && a.agg.started <= b.agg.started
      && (a.agg.started == b.agg.started ==> a.media == b.media || StrLess(a.media, b.media))
      && (a.agg.started == b.agg.started && a.media == b.media ==> StrLess(a.instance, b.instance))
  {
    hide IsGapPartition, FoldGroup, StrLess, IsSession, IsStream, GroupLess;
    var groups :| Reconstructs(out, groups, S, durations, cfg);
    GroupFirst(groups, S, cfg.gap, i);
    GroupFirst(groups, S, cfg.gap, j);
    var g, h := groups[i], groups[j];
    assert GroupLess(g, h);
    InOrder(g, h);
    assert out[i] == FoldGroup(g, durations, cfg) && out[j] == FoldGroup(h, durations, cfg);
    GroupOut(g, durations, cfg);
    GroupOut(h, durations, cfg);
  }

  lemma InOrder(g: seq<Event>, h: seq<Event>)
    requires GroupLess(g, h)
    ensures g != [] && h != [] && g[0].at <= h[0].at
    ensures g[0].at == h[0].at ==> g[0].media == h[0].media || StrLess(g[0].media, h[0].media)
    ensures g[0].at == h[0].at && g[0].media == h[0].media ==> StrLess(g[0].instance, h[0].instance)
  {
    StrLessAsymmetric(g[0].media, g[0].media);
    hide StrLess;
  }

  // An event's session is the one that lists its id.
  predicate Holds(rb: Rebuilt, e: Event) {
    e.id in rb.eventIds
  }

  ghost function Members(rb: Rebuilt, S: set<Event>): set<Event> {
    set e | e in S && Holds(rb, e)
  }

  lemma MembersAreGroup(g: seq<Event>, S: set<Event>, durations: Durations, cfg: Config)
    requires IsStream(g) && Elems(g) <= S && DistinctIds(S)
    ensures Members(FoldGroup(g, durations, cfg), S) == Elems(g)
  {
    var rb := FoldGroup(g, durations, cfg);
    GroupOut(g, durations, cfg);
    hide FoldGroup, Ordered;
    forall e | e in S ensures Holds(rb, e) <==> e in g {
      if Holds(rb, e) {
        var k :| 0 <= k < |g| && rb.eventIds[k] == e.id;
        assert g[k] in Elems(g);
      }
      if k :| 0 <= k < |g| && g[k] == e {
        assert rb.eventIds[k] == e.id;
      }
    }
  }

  lemma OutIsGroup(out: seq<Rebuilt>, groups: seq<seq<Event>>, S: set<Event>, durations: Durations, cfg: Config, i: nat)
    requires Reconstructs(out, groups, S, durations, cfg) && DistinctIds(S) && i < |out|
    ensures |groups| == |out| && IsSession(groups[i], cfg.gap) && IsStream(groups[i]) && groups[i] in Elems(groups)
    ensures out[i] == FoldGroup(groups[i], durations, cfg) && Members(out[i], S) == Elems(groups[i])
  {
    GroupFirst(groups, S, cfg.gap, i);
    hide IsGapPartition, FoldGroup, IsStream, IsSession, DistinctIds;
    assert out[i] == FoldGroup(groups[i], durations, cfg);
    MembersAreGroup(groups[i], S, durations, cfg);
  }

  /** Every event is in exactly one session. */
  lemma EachInOne(out: seq<Rebuilt>, S: set<Event>, durations: Durations, cfg: Config, e: Event)
    requires IsReconstruction(out, S, durations, cfg) && DistinctIds(S) && cfg.gap >= 0 && e in S
    ensures exists i :: 0 <= i < |out| && Holds(out[i], e)
    ensures forall i, j | 0 <= i < |out| && 0 <= j < |out| && Holds(out[i], e) && Holds(out[j], e) :: i == j
  {
    hide Reconstructs, IsGapPartition, FoldGroup, IsStream, IsSession, DistinctIds, Holds;
    var groups :| Reconstructs(out, groups, S, durations, cfg);
    Distinct(out, groups, S, durations, cfg);
    forall i: nat | i < |out| ensures Holds(out[i], e) <==> e in groups[i] {
      OutIsGroup(out, groups, S, durations, cfg, i);
      assert e in Members(out[i], S) <==> e in Elems(groups[i]);
    }
    var i := Covered(out, groups, S, durations, cfg, e);
    forall i: nat, j: nat | i < |out| && j < |out| && e in groups[i] && e in groups[j] ensures i == j {
      OneGroup(out, groups, S, durations, cfg, e, i, j);
    }
  }

  lemma Covered(out: seq<Rebuilt>, groups: seq<seq<Event>>, S: set<Event>, durations: Durations, cfg: Config, e: Event)
    returns (i: nat)
    requires Reconstructs(out, groups, S, durations, cfg) && e in S
    ensures i < |out| == |groups| && e in groups[i]
  {
    hide FoldGroup, IsSession, Separated;
    var g :| g in Elems(groups) && e in g;
    i :| i < |groups| && groups[i] == g;
  }

  lemma Distinct(out: seq<Rebuilt>, groups: seq<seq<Event>>, S: set<Event>, durations: Durations, cfg: Config)
    requires Reconstructs(out, groups, S, durations, cfg)
    ensures NoRepeats(groups) && |groups| == |out|
  {
    hide IsGapPartition, FoldGroup, StrLess;
    forall i, j | 0 <= i < j < |groups| ensures groups[i] != groups[j] {
      assert GroupLess(groups[i], groups[j]);
      var g, h := groups[i], groups[j];
      StartLessTotal(g[0].at, g[0].KeyOf(), h[0].at, h[0].KeyOf());
    }
  }

  lemma OneGroup(out: seq<Rebuilt>, groups: seq<seq<Event>>, S: set<Event>, durations: Durations, cfg: Config,
                 e: Event, i: nat, j: nat)
    requires Reconstructs(out, groups, S, durations, cfg) && NoRepeats(groups) && cfg.gap >= 0
    requires i < |groups| && j < |groups| && e in groups[i] && e in groups[j]
    ensures i == j
  {
    assert groups[i] in Elems(groups) && groups[j] in Elems(groups);
    OneSessionPerEvent(Elems(groups), S, cfg.gap, groups[i], groups[j], e);
  }

  // The k-th event listed is the later of it and the one before, in time or, at one time, by its id, and comes
  // within the gap of it.
  ghost predicate Consecutive(rb: Rebuilt, L: set<Event>, gap: int, k: nat)
    requires 0 < k < |rb.eventIds|
  {
    exists a, b :: a in L && b in L && a.id == rb.eventIds[k - 1] && b.id == rb.eventIds[k] && Precedes(a, b, gap)
  }

  predicate Precedes(a: Event, b: Event, gap: int) {
    (a.at < b.at || (a.at == b.at && StrLess(a.id, b.id))) && b.at - a.at <= gap
  }

  /** A session lists its events in the order of time and id, each within the gap of the one before; its item and
      instance are those of all of them, its source kind is the first one's, and its aggregate is their fold. */
  lemma SessionSays(out: seq<Rebuilt>, S: set<Event>, durations: Durations, cfg: Config, i: nat)
    requires IsReconstruction(out, S, durations, cfg) && DistinctIds(S) && i < |out|
    ensures var s, L := out[i].session, Members(out[i], S);
      && L != {} && |out[i].eventIds| == |L|
      && (forall e | e in L :: e.media == s.media && e.instance == s.instance)
      && (forall k | 0 < k < |out[i].eventIds| :: Consecutive(out[i], L, cfg.gap, k))
      && (exists e :: e in L && e.id == out[i].eventIds[0] && e.kind == s.kind)
      && s.agg == FoldSet(L, if s.media in durations then durations[s.media] else None, cfg)
  {
    hide Reconstructs, FoldGroup, FoldSorted, StrLess, IsSession, IsStream, Members, Holds, DistinctIds;
    var groups :| Reconstructs(out, groups, S, durations, cfg);
    OutIsGroup(out, groups, S, durations, cfg, i);
    var g := groups[i];
    GroupOut(g, durations, cfg);
    SessionKey(g, cfg.gap);
    SessionSize(g);
    forall k | 0 < k < |out[i].eventIds| ensures Consecutive(out[i], Elems(g), cfg.gap, k) {
      SessionStep(g, cfg.gap, k);
    }
    MembersIds(out[i], S);
    SessionFold(g, if out[i].session.media in durations then durations[out[i].session.media] else None, cfg);
  }

  lemma MembersIds(rb: Rebuilt, S: set<Event>)
    requires DistinctIds(S)
    ensures DistinctIds(Members(rb, S))
  {
  }

  lemma SessionKey(g: seq<Event>, gap: int)
    requires IsSession(g, gap)
    ensures g[0] in Elems(g) && forall e | e in Elems(g) :: e.media == g[0].media && e.instance == g[0].instance
  {
    assert forall e | e in g :: e.KeyOf() == g[0].KeyOf();
  }

  lemma SessionSize(g: seq<Event>)
    requires IsStream(g)
    ensures |Elems(g)| == |g|
  {
    OrderedSize(g);
  }

  lemma SessionStep(g: seq<Event>, gap: int, k: nat)
    requires IsSession(g, gap) && 0 < k < |g|
    ensures g[k - 1] in Elems(g) && g[k] in Elems(g) && Precedes(g[k - 1], g[k], gap)
  {
    assert Before(g[k - 1], g[k]) && !OpensNewSession(g[k - 1].at, g[k].at, gap);
    hide StrLess;
  }

  lemma SessionFold(g: seq<Event>, duration: Option<int>, cfg: Config)
    requires IsStream(g) && DistinctIds(Elems(g))
    ensures FoldSet(Elems(g), duration, cfg) == FoldSorted(g, duration, cfg)
  {
    ArrangeUnique(g, Elems(g));
    NoElems(g);
    hide FoldSorted, Ordered;
  }

  /** Two events of one item and instance that are in different sessions are more than the gap apart. */
  lemma SessionsLieApart(out: seq<Rebuilt>, S: set<Event>, durations: Durations, cfg: Config, i: nat, j: nat, a: Event,
                         b: Event)
    requires IsReconstruction(out, S, durations, cfg) && DistinctIds(S) && i < |out| && j < |out| && i != j
    requires a in Members(out[i], S) && b in Members(out[j], S) && a.media == b.media && a.instance == b.instance
    ensures a.at - b.at > cfg.gap || b.at - a.at > cfg.gap
  {
    hide Reconstructs, FoldGroup, StrLess, IsSession, IsStream, Members, Holds, DistinctIds;
    var groups :| Reconstructs(out, groups, S, durations, cfg);
    Distinct(out, groups, S, durations, cfg);
    OutIsGroup(out, groups, S, durations, cfg, i);
    OutIsGroup(out, groups, S, durations, cfg, j);
    GroupsApart(out, groups, S, durations, cfg, i, j, a, b);
  }

  lemma GroupsApart(out: seq<Rebuilt>, groups: seq<seq<Event>>, S: set<Event>, durations: Durations, cfg: Config,
                    i: nat, j: nat, a: Event, b: Event)
    requires Reconstructs(out, groups, S, durations, cfg) && NoRepeats(groups) && i < |groups| && j < |groups| && i != j
    requires a in groups[i] && b in groups[j] && a.media == b.media && a.instance == b.instance
    ensures a.at - b.at > cfg.gap || b.at - a.at > cfg.gap
  {
    assert groups[i] in Elems(groups) && groups[j] in Elems(groups) && groups[i] != groups[j];
    hide IsSession, FoldAll;
    assert ApartSessions(groups[i], groups[j], cfg.gap);
    assert Apart(a, b, cfg.gap);
  }
}
