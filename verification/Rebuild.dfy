/** Batch reconstruction of sessions from the event log. */
module Rebuild {
  import opened Sorting
  import opened Stamps
  import opened Events
  import opened Folding
  import opened Partition

  type Durations = map<string, Option<int>>

  function DurationOf(durations: Durations, media: string): Option<int> {
    if media in durations then durations[media] else None
  }

  function Ids(g: seq<Event>): seq<string> {
    seq(|g|, i requires 0 <= i < |g| => g[i].id)
  }

  // The loop below never makes an empty group; folding one would give a row with no session in it.
  function FoldGroup(g: seq<Event>, durations: Durations, cfg: Config): Rebuilt {
    var first := if g == [] then NO_EVENT else g[0];
    var agg := FoldOf(g, DurationOf(durations, first.media), cfg);
    Rebuilt(Session("", first.media, first.kind, first.instance, agg, ZERO_TIME, ZERO_TIME), Ids(g))
  }

  function FoldAll(groups: seq<seq<Event>>, durations: Durations, cfg: Config): seq<Rebuilt> {
    seq(|groups|, i requires 0 <= i < |groups| => FoldGroup(groups[i], durations, cfg))
  }

  // Output order: started_at, media item, source instance.
  predicate StartLess(startA: Time, a: Key, startB: Time, b: Key) {
    startA < startB || (startA == startB && (StrLess(a.media, b.media) ||
                                             (a.media == b.media && StrLess(a.instance, b.instance))))
  }

  predicate OutLess(a: Rebuilt, b: Rebuilt) {
    StartLess(a.session.agg.started, a.session.KeyOf(), b.session.agg.started, b.session.KeyOf())
  }

  predicate GroupLess(g: seq<Event>, h: seq<Event>) {
    g != [] && h != [] && StartLess(g[0].at, g[0].KeyOf(), h[0].at, h[0].KeyOf())
  }

  /** What a reconstruction of the events S is: the folds of the one gap partition of S, in output order. */
  ghost predicate Reconstructs(out: seq<Rebuilt>, groups: seq<seq<Event>>, S: set<Event>,
                               durations: Durations, cfg: Config) {
    && IsGapPartition(Elems(groups), S, cfg.gap)
    && Sorted(groups, GroupLess)
    && out == FoldAll(groups, durations, cfg)
  }

  // The output alone; it is unique.
  ghost predicate IsReconstruction(out: seq<Rebuilt>, S: set<Event>, durations: Durations, cfg: Config) {
    exists groups :: Reconstructs(out, groups, S, durations, cfg)
  }

  lemma StartLessTotal(s: Time, a: Key, t: Time, b: Key)
    ensures (s == t && a == b) || StartLess(s, a, t, b) || StartLess(t, b, s, a)
    ensures !(StartLess(s, a, t, b) && StartLess(t, b, s, a))
  {
    StrLessTotal(a.media, b.media);
    StrLessTotal(a.instance, b.instance);
    StrLessAsymmetric(a.media, b.media);
    StrLessAsymmetric(a.instance, b.instance);
    StrLessAsymmetric(a.media, a.media);
  }

  lemma StartLessTransitive(s: Time, a: Key, t: Time, b: Key, u: Time, c: Key)
    requires StartLess(s, a, t, b) && StartLess(t, b, u, c)
    ensures StartLess(s, a, u, c)
  {
    if StrLess(a.media, b.media) && StrLess(b.media, c.media) {
      StrLessTransitive(a.media, b.media, c.media);
    }
    if StrLess(a.instance, b.instance) && StrLess(b.instance, c.instance) {
      StrLessTransitive(a.instance, b.instance, c.instance);
    }
  }

  lemma GroupLessTransitive()
    ensures Transitive(GroupLess)
  {
    forall f: seq<Event>, g: seq<Event>, h: seq<Event> | GroupLess(f, g) && GroupLess(g, h) ensures GroupLess(f, h) {
      StartLessTransitive(f[0].at, f[0].KeyOf(), g[0].at, g[0].KeyOf(), h[0].at, h[0].KeyOf());
    }
  }

  /** Reconstruction is a function of the set of events: neither the order they are given in nor the
      order in which open groups are flushed can change its output. */
  lemma ReconstructionUnique(out: seq<Rebuilt>, groups: seq<seq<Event>>, out': seq<Rebuilt>,
                             groups': seq<seq<Event>>, S: set<Event>, durations: Durations, cfg: Config)
    requires Reconstructs(out, groups, S, durations, cfg) && Reconstructs(out', groups', S, durations, cfg)
    requires cfg.gap >= 0
    ensures out == out' && groups == groups'
  {
    PartitionUnique(Elems(groups), Elems(groups'), S, cfg.gap);
    forall g: seq<Event>, h: seq<Event> | g in groups && h in groups ensures !(GroupLess(g, h) && GroupLess(h, g)) {
      if GroupLess(g, h) {
        StartLessTotal(g[0].at, g[0].KeyOf(), h[0].at, h[0].KeyOf());
      }
    }
    SortedUnique(groups, groups', GroupLess);
  }

  lemma OneReconstruction(out: seq<Rebuilt>, out': seq<Rebuilt>, S: set<Event>, durations: Durations, cfg: Config)
    requires IsReconstruction(out, S, durations, cfg) && IsReconstruction(out', S, durations, cfg) && cfg.gap >= 0
    ensures out == out'
  {
    hide Reconstructs;
    var groups :| Reconstructs(out, groups, S, durations, cfg);
    var groups' :| Reconstructs(out', groups', S, durations, cfg);
    ReconstructionUnique(out, groups, out', groups', S, durations, cfg);
  }

  // ----- the state of the grouping loop: closed groups, and per key the group still open -----

  ghost predicate NoRepeats<T>(s: seq<T>) {
    forall i, j | 0 <= i < j < |s| :: s[i] != s[j]
  }

  function Pieces(closed: seq<seq<Event>>, open: map<Key, seq<Event>>): set<seq<Event>> {
    Elems(closed) + open.Values
  }

  ghost predicate Unmixed(closed: seq<seq<Event>>, open: map<Key, seq<Event>>) {
    && NoRepeats(closed)
    && (forall k | k in open :: open[k] != [] && open[k][0].KeyOf() == k && open[k] !in closed)
  }

  ghost predicate Cut(closed: seq<seq<Event>>, open: map<Key, seq<Event>>, S: set<Event>, gap: int) {
    Unmixed(closed, open) && IsGapPartition(Pieces(closed, open), S, gap)
  }

  predicate EndsBy(open: map<Key, seq<Event>>, k: Key, at: Time) {
    k in open && open[k] != [] && at <= open[k][|open[k]| - 1].at
  }

  ghost predicate OpenIsLatest(open: map<Key, seq<Event>>, S: set<Event>) {
    forall x | x in S :: EndsBy(open, x.KeyOf(), x.at)
  }

  ghost predicate Follows(e: Event, S: set<Event>) {
    forall x | x in S :: Before(x, e) && x != e
  }

  lemma PiecesReplaced(closed: seq<seq<Event>>, open: map<Key, seq<Event>>, k: Key, h: seq<Event>)
    requires Unmixed(closed, open)
    ensures k in open ==> Pieces(closed, open[k := h]) == Pieces(closed, open) - {open[k]} + {h}
    ensures k in open ==> Pieces(closed + [open[k]], open[k := h]) == Pieces(closed, open) + {h}
    ensures k !in open ==> Pieces(closed, open[k := h]) == Pieces(closed, open) + {h}
  {
    var open' := open[k := h];
    forall g ensures g in open'.Values <==> g == h || (exists j :: j in open && j != k && open[j] == g) {
      if j :| j in open && j != k && open[j] == g {
        assert open'[j] == g;
      }
      assert open'[k] == h;
    }
    forall j | j in open && j != k ensures k in open ==> open[j] != open[k] {
    }
  }

  // A group that holds the event being placed is new.
  lemma NotYetPlaced(closed: seq<seq<Event>>, open: map<Key, seq<Event>>, S: set<Event>, gap: int, e: Event,
                     h: seq<Event>)
    requires Cut(closed, open, S, gap) && e !in S && e in h
    ensures h !in closed && h !in open.Values
  {
    assert e in Elems(h);
    assert h in Pieces(closed, open) ==> Elems(h) <= S;
  }

  lemma LatestAdvances(open: map<Key, seq<Event>>, S: set<Event>, e: Event, h: seq<Event>)
    requires OpenIsLatest(open, S) && Follows(e, S) && h != [] && h[|h| - 1] == e
    ensures OpenIsLatest(open[e.KeyOf() := h], S + {e})
  {
  }

  lemma StepExtend(closed: seq<seq<Event>>, open: map<Key, seq<Event>>, S: set<Event>, gap: int, e: Event)
    requires Cut(closed, open, S, gap) && Follows(e, S) && gap >= 0
    requires e.KeyOf() in open && !OpensNewSession(open[e.KeyOf()][|open[e.KeyOf()]| - 1].at, e.at, gap)
    ensures Cut(closed, open[e.KeyOf() := open[e.KeyOf()] + [e]], S + {e}, gap)
  {
    var g := open[e.KeyOf()];
    assert g in Pieces(closed, open);
    assert g[|g| - 1] in Elems(g);
    ExtendSession(Pieces(closed, open), S, gap, g, e);
    PiecesReplaced(closed, open, e.KeyOf(), g + [e]);
    assert e in g + [e];
    NotYetPlaced(closed, open, S, gap, e, g + [e]);
  }

  lemma StepOpen(closed: seq<seq<Event>>, open: map<Key, seq<Event>>, S: set<Event>, gap: int, e: Event)
    requires Cut(closed, open, S, gap) && OpenIsLatest(open, S) && Follows(e, S) && gap >= 0
    requires e.KeyOf() in open ==> OpensNewSession(open[e.KeyOf()][|open[e.KeyOf()]| - 1].at, e.at, gap)
    ensures Cut(if e.KeyOf() in open then closed + [open[e.KeyOf()]] else closed, open[e.KeyOf() := [e]], S + {e}, gap)
  {
    var k := e.KeyOf();
    forall x | x in S && x.KeyOf() == k ensures OpensNewSession(x.at, e.at, gap) {
      assert EndsBy(open, k, x.at);
    }
    OpenSession(Pieces(closed, open), S, gap, e);
    PiecesReplaced(closed, open, k, [e]);
    assert e in [e];
    NotYetPlaced(closed, open, S, gap, e, [e]);
    OpenTidy(closed, open, e);
  }

  lemma OpenTidy(closed: seq<seq<Event>>, open: map<Key, seq<Event>>, e: Event)
    requires Unmixed(closed, open) && [e] !in closed && [e] !in open.Values
    ensures Unmixed(if e.KeyOf() in open then closed + [open[e.KeyOf()]] else closed, open[e.KeyOf() := [e]])
  {
  }

  lemma StepFlush(closed: seq<seq<Event>>, open: map<Key, seq<Event>>, S: set<Event>, gap: int, k: Key)
    requires Cut(closed, open, S, gap) && k in open
    ensures Cut(closed + [open[k]], open - {k}, S, gap)
  {
    var open' := open - {k};
    forall g ensures g in Pieces(closed + [open[k]], open') <==> g in Pieces(closed, open) {
      if g in open.Values && g != open[k] {
        var j :| j in open && open[j] == g;
        assert j in open' && open'[j] == g;
      }
      assert g in closed + [open[k]] <==> g in closed || g == open[k];
    }
    assert Pieces(closed + [open[k]], open') == Pieces(closed, open);
  }

  ghost predicate LoopState(closed: seq<seq<Event>>, open: map<Key, seq<Event>>, S: set<Event>, gap: int) {
    Cut(closed, open, S, gap) && OpenIsLatest(open, S)
  }

  lemma LoopStart()
    ensures forall s: seq<Event>, gap: int :: LoopState([], map[], Elems(s[..0]), gap)
  {
    forall s: seq<Event>, gap: int ensures LoopState([], map[], Elems(s[..0]), gap) {
      assert Pieces([], map[]) == {} && Elems(s[..0]) == {};
    }
  }

  lemma NextEvent(closed: seq<seq<Event>>, open: map<Key, seq<Event>>, sorted: seq<Event>, i: nat, gap: int)
    requires Ordered(sorted) && i < |sorted| && gap >= 0
    requires LoopState(closed, open, Elems(sorted[..i]), gap)
    ensures var e, key := sorted[i], sorted[i].KeyOf();
      if key in open && !OpensNewSession(open[key][|open[key]| - 1].at, e.at, gap) then
        LoopState(closed, open[key := open[key] + [e]], Elems(sorted[..i + 1]), gap)
      else
        LoopState(if key in open then closed + [open[key]] else closed, open[key := [e]], Elems(sorted[..i + 1]), gap)
  {
    var e, S := sorted[i], Elems(sorted[..i]);
    assert Elems(sorted[..i + 1]) == S + {e};
    NextFollows(sorted, i);
    if e.KeyOf() in open && !OpensNewSession(open[e.KeyOf()][|open[e.KeyOf()]| - 1].at, e.at, gap) {
      StepExtend(closed, open, S, gap, e);
      LatestAdvances(open, S, e, open[e.KeyOf()] + [e]);
    } else {
      StepOpen(closed, open, S, gap, e);
      LatestAdvances(open, S, e, [e]);
    }
  }

  lemma FoldAllSnoc(groups: seq<seq<Event>>, g: seq<Event>, durations: Durations, cfg: Config)
    ensures FoldAll(groups + [g], durations, cfg) == FoldAll(groups, durations, cfg) + [FoldGroup(g, durations, cfg)]
  {
  }

  method Reconstruct(events: seq<Event>, durations: Durations, cfg: Config) returns (out: seq<Rebuilt>)
    requires DistinctSeqIds(events) && cfg.gap >= 0
    ensures IsReconstruction(out, Elems(events), durations, cfg)
  {
    var sorted := StableSort(events, Before);
    SortIsArrange(events);
    var open;
    out, open := GroupByGap(sorted, durations, cfg);
    out := FlushOpen(out, open, Elems(events), durations, cfg);
    ghost var groups :| Closed(groups, out, Elems(events), durations, cfg);
    SortGroups(groups, Elems(events), durations, cfg);
    out := StableSort(out, OutLess);
  }

  // The output so far is the folds of some groups that, with the open ones, partition the events seen.
  ghost predicate Grouped(groups: seq<seq<Event>>, out: seq<Rebuilt>, open: map<Key, seq<Event>>, S: set<Event>,
                          durations: Durations, cfg: Config) {
    Cut(groups, open, S, cfg.gap) && out == FoldAll(groups, durations, cfg)
  }

  ghost predicate Closed(groups: seq<seq<Event>>, out: seq<Rebuilt>, S: set<Event>, durations: Durations, cfg: Config) {
    IsGapPartition(Elems(groups), S, cfg.gap) && NoRepeats(groups) && out == FoldAll(groups, durations, cfg)
  }

  // The grouping loop: extends the open group of an event's key, or closes it and opens the next.
  method GroupByGap(sorted: seq<Event>, durations: Durations, cfg: Config)
    returns (out: seq<Rebuilt>, open: map<Key, seq<Event>>)
    requires Ordered(sorted) && cfg.gap >= 0
    ensures exists groups :: Grouped(groups, out, open, Elems(sorted), durations, cfg)
  {
    hide IsGapPartition, OpenIsLatest, FoldGroup;
    out, open := [], map[];
    ghost var groups: seq<seq<Event>> := [];
    LoopStart();
    for i := 0 to |sorted|
      invariant LoopState(groups, open, Elems(sorted[..i]), cfg.gap)
      invariant out == FoldAll(groups, durations, cfg)
    {
      NextEvent(groups, open, sorted, i, cfg.gap);
      var e := sorted[i];
      var key := e.KeyOf();
      if key in open && !OpensNewSession(open[key][|open[key]| - 1].at, e.at, cfg.gap) {
        open := open[key := open[key] + [e]];
      } else {
        if key in open {
          FoldAllSnoc(groups, open[key], durations, cfg);
          out, groups := out + [FoldGroup(open[key], durations, cfg)], groups + [open[key]];
        }
        open := open[key := [e]];
      }
    }
    assert sorted[..|sorted|] == sorted;
    assert Grouped(groups, out, open, Elems(sorted), durations, cfg);
  }

  // Closes the groups still open, in any order.
  method FlushOpen(out: seq<Rebuilt>, open: map<Key, seq<Event>>, ghost S: set<Event>, durations: Durations,
                   cfg: Config)
    returns (all: seq<Rebuilt>)
    requires exists groups :: Grouped(groups, out, open, S, durations, cfg)
    ensures exists groups :: Closed(groups, all, S, durations, cfg)
  {
    ghost var closed :| Grouped(closed, out, open, S, durations, cfg);
    all := out;
    var keys := open.Keys;
    assert open - (open.Keys - keys) == open;
    while keys != {}
      invariant keys <= open.Keys && Cut(closed, open - (open.Keys - keys), S, cfg.gap)
      invariant all == FoldAll(closed, durations, cfg)
    {
      var key :| key in keys;
      StepFlush(closed, open - (open.Keys - keys), S, cfg.gap, key);
      FoldAllSnoc(closed, open[key], durations, cfg);
      DropOne(open, keys, key);
      all, closed := all + [FoldGroup(open[key], durations, cfg)], closed + [open[key]];
      keys := keys - {key};
    }
    assert Pieces(closed, open - open.Keys) == Elems(closed);
    assert Closed(closed, all, S, durations, cfg);
  }

  lemma DropOne<K, V>(m: map<K, V>, keys: set<K>, k: K)
    requires k in keys && keys <= m.Keys
    ensures m - (m.Keys - keys) - {k} == m - (m.Keys - (keys - {k}))
  {
  }

  lemma NextFollows(sorted: seq<Event>, i: nat)
    requires Ordered(sorted) && i < |sorted|
    ensures Follows(sorted[i], Elems(sorted[..i]))
  {
    forall x | x in Elems(sorted[..i]) ensures Before(x, sorted[i]) && x != sorted[i] {
      var j :| 0 <= j < i && sorted[j] == x;
      BeforeAsymmetric(sorted[j], sorted[i]);
    }
  }

  // The final sort: its key tells the sessions of a gap partition apart, and it carries over to groups.
  lemma SortGroups(groups: seq<seq<Event>>, S: set<Event>, durations: Durations, cfg: Config)
    requires IsGapPartition(Elems(groups), S, cfg.gap) && NoRepeats(groups) && cfg.gap >= 0
    ensures Reconstructs(StableSort(FoldAll(groups, durations, cfg), OutLess), StableSort(groups, GroupLess), S,
      durations, cfg)
  {
    GroupLessTransitive();
    forall i, j | 0 <= i < j < |groups|
      ensures if GroupLess(groups[j], groups[i]) then GroupLess(groups[j], groups[i])
        else GroupLess(groups[i], groups[j])
    {
      var g, h := groups[i], groups[j];
      assert g in Elems(groups) && h in Elems(groups) && g != h;
      assert ApartSessions(g, h, cfg.gap);
      assert g[0] in g && h[0] in h;
      StartLessTotal(g[0].at, g[0].KeyOf(), h[0].at, h[0].KeyOf());
    }
    StableSortRefines(groups, GroupLess, GroupLess);
    SameElems(StableSort(groups, GroupLess), groups);
    forall i | 0 <= i < |groups| ensures IsStream(groups[i]) {
      assert groups[i] in Elems(groups);
    }
    SortCommutesWithFold(groups, durations, cfg);
  }

  ghost predicate IsStream(g: seq<Event>) {
    g != [] && Ordered(g)
  }

  lemma GroupStart(g: seq<Event>, durations: Durations, cfg: Config)
    requires IsStream(g)
    ensures FoldGroup(g, durations, cfg).session.agg == FoldSorted(g, DurationOf(durations, g[0].media), cfg)
    ensures FoldGroup(g, durations, cfg).session.agg.started == g[0].at
  {
    StableSortIdentity(g, Earlier);
  }

  lemma {:induction false} InsertCommutesWithFold(g: seq<Event>, t: seq<seq<Event>>, durations: Durations, cfg: Config)
    requires IsStream(g) && forall i | 0 <= i < |t| :: IsStream(t[i])
    ensures FoldAll(InsertStable(g, t, GroupLess), durations, cfg)
         == InsertStable(FoldGroup(g, durations, cfg), FoldAll(t, durations, cfg), OutLess)
  {
    hide FoldOf, StrLess;
    FoldAllCons(g, t, durations, cfg);
    if t != [] {
      GroupStart(g, durations, cfg);
      GroupStart(t[0], durations, cfg);
      FoldAllCons(t[0], t[1..], durations, cfg);
      assert t == [t[0]] + t[1..];
      if GroupLess(t[0], g) {
        var r := InsertStable(g, t[1..], GroupLess);
        InsertCommutesWithFold(g, t[1..], durations, cfg);
        FoldAllCons(t[0], r, durations, cfg);
      }
    }
  }

  lemma FoldAllCons(g: seq<Event>, t: seq<seq<Event>>, durations: Durations, cfg: Config)
    ensures FoldAll([g] + t, durations, cfg) == [FoldGroup(g, durations, cfg)] + FoldAll(t, durations, cfg)
  {
  }

  lemma SortedStreams(s: seq<seq<Event>>)
    requires forall i | 0 <= i < |s| :: IsStream(s[i])
    ensures forall i | 0 <= i < |s| :: IsStream(StableSort(s, GroupLess)[i])
  {
    var t := StableSort(s, GroupLess);
    SameElems(t, s);
    forall i | 0 <= i < |t| ensures IsStream(t[i]) {
      assert t[i] in s;
    }
  }

  lemma {:induction false} SortCommutesWithFold(s: seq<seq<Event>>, durations: Durations, cfg: Config)
    requires forall i | 0 <= i < |s| :: IsStream(s[i])
    ensures FoldAll(StableSort(s, GroupLess), durations, cfg) == StableSort(FoldAll(s, durations, cfg), OutLess)
  {
    hide FoldGroup, GroupLess, OutLess;
    if s != [] {
      SortCommutesWithFold(s[1..], durations, cfg);
      var t := StableSort(s[1..], GroupLess);
      SortedStreams(s[1..]);
      InsertCommutesWithFold(s[0], t, durations, cfg);
      FoldAllCons(s[0], s[1..], durations, cfg);
      assert s == [s[0]] + s[1..];
    }
  }
}
