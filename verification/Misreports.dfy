/** A run after which the drift check is silent although the stored sessions are wrong. */
module Misreports {
  import opened Sorting
  import opened Stamps
  import opened Events
  import opened Folding
  import opened Partition
  import opened Rebuild
  import opened Drift
  import opened Tables
  import opened Sessionize
  import opened Ingest
  import opened Invariants
  import opened Steps
  import opened Refinement
  import opened Runs
  import opened Counterexamples
  import opened Histories

  // Falls between the other two events, within the gap of both.
  const MIDDLE := Event("c", "m", "k", "i", Start, None, 2 * SECOND)

  function SecondRow(agg: Agg): SessionRow {
    SessionRow("m", "k", Some("i"), agg, 0, 0, None)
  }

  // The second session has taken over the first event, and the first session still counts it.
  function Stolen(gap: int, agg: Agg): Db {
    Db(map["m" := Item(None)],
       map["a" := EventRow(FIRST, Some("t")), "b" := EventRow(Second(gap), Some("t"))],
       map["s" := RowFor(FIRST), "t" := SecondRow(agg)])
  }

  // The event in between has been logged, and then joined the second session too.
  function Middled(gap: int, link: Option<string>, agg: Agg): Db {
    Db(map["m" := Item(None)],
       map["a" := EventRow(FIRST, Some("t")), "b" := EventRow(Second(gap), Some("t")), "c" := EventRow(MIDDLE, link)],
       map["s" := RowFor(FIRST), "t" := SecondRow(agg)])
  }

  function FirstAndSecond(gap: int): set<Event> {
    {FIRST, Second(gap)}
  }

  function AllThree(gap: int): set<Event> {
    {FIRST, MIDDLE, Second(gap)}
  }

  // An event of the example's key that is not after the second session's end joins it.
  lemma JoinsSecond(l: Db, e: Event, L: set<Event>, cfg: Config)
    requires l.Schema() && SecondLast(l, cfg.gap) && cfg.gap >= SECOND && Arrived(l, e) && l.Duration("m") == None
    requires e.media == "m" && e.kind == "k" && e.instance == "i" && e.at <= 2 * SECOND + cfg.gap
    requires l.sessions["t"].created == 0 && l.Linked("t") + {e} == L
    ensures l.IsLatest(Some("t"), e.KeyOf()) && DistinctIds(L)
    ensures AssignWith(l, e, Some("t"), cfg, MINT.sessionId, MINT.now) ==
      l.(events := l.events[e.id := EventRow(e, Some("t"))],
         sessions := l.sessions["t" := SecondRow(FoldSet(L, None, cfg))])
  {
    LatestIsSecond(l, cfg.gap);
    LinkedAfterLink(l, e, "t", "t");
    LinkedIds(l.Link(e.id, "t"), "t");
    hide FoldSet, Db.IsLatest, Db.Linked;
  }

  lemma SecondTables(gap: int)
    ensures var db := TwoSessions(gap);
      && db.Schema() && SecondLast(db, gap) && Arrived(db, FIRST) && db.Duration("m") == None
      && db.sessions["t"].created == 0 && db.Linked("t") + {FIRST} == FirstAndSecond(gap)
    ensures forall agg :: TwoSessions(gap).(events := TwoSessions(gap).events["a" := EventRow(FIRST, Some("t"))],
      sessions := TwoSessions(gap).sessions["t" := SecondRow(agg)]) == Stolen(gap, agg)
  {
    TwoSessionsLinks(gap);
  }

  lemma StolenDelivered(cfg: Config) returns (agg: Agg)
    requires cfg.gap >= SECOND
    ensures Delivers(TwoSessions(cfg.gap), Again("a", SECOND, None, Some(100.0)), cfg, MINT, Stolen(cfg.gap, agg))
    ensures agg.ended == 2 * SECOND + cfg.gap
  {
    var db, raw := TwoSessions(cfg.gap), Again("a", SECOND, None, Some(100.0));
    SecondTables(cfg.gap);
    RetryFinds(cfg);
    hide FoldSet, Parse, Logged, EventFor, AssignWith, Db.IsLatest, Delivers, Unused, TwoSessions, Stolen, SecondRow,
      Db.Schema, SecondLast, Db.Linked, Arrived, FirstAndSecond, Again, Repeats, Db.Duration;
    JoinsSecond(db, FIRST, FirstAndSecond(cfg.gap), cfg);
    agg := FoldSet(FirstAndSecond(cfg.gap), None, cfg);
    assert Repeats(db, FIRST) by { FirstRepeats(cfg.gap); }
    DeliversTo(db, raw, cfg, MINT, Some("t"));
    SecondEnds(cfg.gap, cfg);
  }

  lemma FirstRepeats(gap: int)
    ensures Repeats(TwoSessions(gap), FIRST)
  {
  }

  lemma SetSpan(L: set<Event>, first: Event, last: Event, cfg: Config)
    requires DistinctIds(L) && first in L && last in L && forall x | x in L :: first.at <= x.at <= last.at
    ensures FoldSet(L, None, cfg).started == first.at && FoldSet(L, None, cfg).ended == last.at
  {
    FoldShape(L, None, cfg);
    hide FoldSet, DistinctIds;
  }

  lemma SecondEnds(gap: int, cfg: Config)
    requires gap >= SECOND && DistinctIds(FirstAndSecond(gap))
    ensures FoldSet(FirstAndSecond(gap), None, cfg).ended == 2 * SECOND + gap
  {
    hide FoldSet, DistinctIds;
    SetSpan(FirstAndSecond(gap), FIRST, Second(gap), cfg);
  }

  function MiddleRaw(): Incoming {
    Again("c", 2 * SECOND, None, None)
  }

  lemma MiddleFinds(gap: int, agg: Agg)
    ensures var db, raw := Stolen(gap, agg), MiddleRaw();
      && Parse(raw) == Accepted && db.Schema() && Unused(db, MINT) && EventFor(db, raw, MINT) == MIDDLE
      && Repeats(db, MIDDLE) && Logged(db, raw, MINT) == Middled(gap, None, agg)
  {
    var db, raw := Stolen(gap, agg), MiddleRaw();
    assert db.media.Keys == {"m"} && "m" in db.media && db.media["m"].identity == "k:x";
    assert ToMediaItem(raw).identity == "k:x";
    assert db.MediaFor("k:x") == Some("m");
    assert db.events.Keys == {"a", "b"} && db.sessions.Keys == {"s", "t"};
    assert Enrich(db.media["m"], ToMediaItem(raw)) == db.media["m"];
    assert db.FindOrCreate(ToMediaItem(raw), "m2") == db;
  }

  lemma MiddleArriving(gap: int, agg: Agg)
    requires gap >= SECOND && agg.ended == 2 * SECOND + gap
    ensures var l := Middled(gap, None, agg);
      && l.Schema() && SecondLast(l, gap) && Arrived(l, MIDDLE) && l.Duration("m") == None
      && l.sessions["t"].created == 0 && l.Linked("t") + {MIDDLE} == AllThree(gap)
    ensures forall to :: var l := Middled(gap, None, agg);
      l.(events := l.events["c" := EventRow(MIDDLE, Some("t"))], sessions := l.sessions["t" := SecondRow(to)])
        == Middled(gap, Some("t"), to)
  {
    var l := Middled(gap, None, agg);
    assert l.events.Keys == {"a", "b", "c"} && l.sessions.Keys == {"s", "t"};
    assert l.events["a"] == EventRow(FIRST, Some("t")) && l.events["b"] == EventRow(Second(gap), Some("t"));
    assert "a" in l.events && "b" in l.events;
  }

  lemma MiddleDelivered(cfg: Config, before: Agg)
    requires cfg.gap >= SECOND && before.ended == 2 * SECOND + cfg.gap
    ensures DistinctIds(AllThree(cfg.gap))
    ensures Delivers(Stolen(cfg.gap, before), MiddleRaw(), cfg, MINT,
      Middled(cfg.gap, Some("t"), FoldSet(AllThree(cfg.gap), None, cfg)))
  {
    var db, l := Stolen(cfg.gap, before), Middled(cfg.gap, None, before);
    MiddleArriving(cfg.gap, before);
    MiddleFinds(cfg.gap, before);
    hide FoldSet, Parse, Logged, EventFor, AssignWith, Db.IsLatest, Delivers, Unused, Stolen, Middled, SecondRow,
      Db.Schema, SecondLast, Db.Linked, Arrived, AllThree, MiddleRaw, Repeats, Db.Duration;
    JoinsSecond(l, MIDDLE, AllThree(cfg.gap), cfg);
    DeliversTo(db, MiddleRaw(), cfg, MINT, Some("t"));
  }

  // ----- what a rebuild makes of the three events -----

  function Group(gap: int): seq<Event> {
    [FIRST, MIDDLE, Second(gap)]
  }

  lemma GroupIsPartition(gap: int)
    requires gap >= SECOND
    ensures IsGapPartition({Group(gap)}, AllThree(gap), gap)
  {
    var g := Group(gap);
    assert Elems(g) == AllThree(gap);
    assert !OpensNewSession(g[0].at, g[1].at, gap) && !OpensNewSession(g[1].at, g[2].at, gap);
    assert Ordered(g);
  }

  lemma MiddledVisible(gap: int, agg: Agg)
    ensures Middled(gap, Some("t"), agg).LiveLog() == AllThree(gap)
    ensures Middled(gap, Some("t"), agg).Durations() == map["m" := None]
  {
    var db := Middled(gap, Some("t"), agg);
    assert db.media.Keys == {"m"} && "m" in db.media && db.Live("m");
    assert db.events.Keys == {"a", "b", "c"};
    assert db.events["a"].event == FIRST && db.events["b"].event == Second(gap) && db.events["c"].event == MIDDLE;
  }

  // The group folds to what the second row holds.
  lemma GroupFold(gap: int, cfg: Config)
    requires gap >= SECOND
    ensures DistinctIds(AllThree(gap))
    ensures GroupProfile(Group(gap), map["m" := None], cfg) == Profile(Key("m", "i"), FoldSet(AllThree(gap), None, cfg))
  {
    var g := Group(gap);
    assert Ordered(g) && Elems(g) == AllThree(gap);
    ArrangeUnique(g, AllThree(gap));
    GroupStart(g, map["m" := None], cfg);
    hide FoldSorted, FoldOf;
  }

  lemma OnlyGroup(groups: seq<seq<Event>>, out: seq<Rebuilt>, g: seq<Event>, durations: Durations, cfg: Config)
    requires Elems(groups) == {g} && out == FoldAll(groups, durations, cfg)
    ensures RebuiltProfiles(out) == {GroupProfile(g, durations, cfg)}
  {
    hide FoldGroup;
    assert g in Elems(groups);
    var i :| 0 <= i < |groups| && groups[i] == g;
    assert out[i] == FoldGroup(g, durations, cfg);
    forall rb | rb in out ensures ProfileOf(rb.session) == GroupProfile(g, durations, cfg) {
      var j :| 0 <= j < |out| && out[j] == rb;
      assert groups[j] in Elems(groups);
    }
  }

  lemma GroupRebuilt(gap: int, cfg: Config, out: seq<Rebuilt>)
    requires gap >= SECOND && cfg.gap == gap && IsReconstruction(out, AllThree(gap), map["m" := None], cfg)
    ensures RebuiltProfiles(out) == {GroupProfile(Group(gap), map["m" := None], cfg)}
  {
    hide IsGapPartition, Group, GroupProfile, FoldAll, AllThree;
    var groups :| Reconstructs(out, groups, AllThree(gap), map["m" := None], cfg);
    GroupIsPartition(gap);
    PartitionUnique({Group(gap)}, Elems(groups), AllThree(gap), gap);
    OnlyGroup(groups, out, Group(gap), map["m" := None], cfg);
  }

  // ----- what is read and reported -----

  function Row(id: string, agg: Agg): Session {
    Session(id, "m", "k", "i", agg, 0, 0)
  }

  lemma PairRead(gap: int, agg: Agg)
    requires agg.started == SECOND
    ensures Reads(Middled(gap, Some("t"), agg), [Row("s", RowFor(FIRST).agg), Row("t", agg)])
  {
    var db, S, T := Middled(gap, Some("t"), agg), Row("s", RowFor(FIRST).agg), Row("t", agg);
    assert db.sessions.Keys == {"s", "t"};
    assert db.SessionAt("s") == S && db.SessionAt("t") == T;
    assert RowLess(S, T);
    hide RowLess;
  }

  lemma PairKept(a: Session, b: Session)
    requires NaturalKeyOf(a) == NaturalKeyOf(b)
    ensures KeptProfiles([a, b]) == {ProfileOf(b)}
  {
    ByKeyIsKept([a, b]);
    hide ByKey, Kept;
    assert b in [a, b] && a in [a, b];
    LastKept(a, b);
  }

  lemma LastKept(a: Session, b: Session)
    ensures Kept([a, b], b)
  {
    assert LastOfKey([a, b], 1);
  }

  // The stored rows are wrong, and whether the diff says so depends on which of them comes last.
  ghost predicate Misreported(stored: seq<Session>, out: seq<Rebuilt>) {
    && |stored| == 2 && StoredProfiles(stored) != RebuiltProfiles(out)
    && !DiffOf(stored, out).HasDrift() && DiffOf([stored[1], stored[0]], out).HasDrift()
  }

  lemma PairMisreported(first: Agg, second: Agg, out: seq<Rebuilt>)
    requires RebuiltProfiles(out) == {Profile(Key("m", "i"), second)} && first.started == second.started &&
      first != second
    ensures Misreported([Row("s", first), Row("t", second)], out)
  {
    var S, T := Row("s", first), Row("t", second);
    hide DiffOf, KeptProfiles;
    PairKept(S, T);
    PairKept(T, S);
    NoDriftIff([S, T], out);
    NoDriftIff([T, S], out);
    assert S in [S, T] && ProfileOf(S) in StoredProfiles([S, T]);
    assert ProfileOf(S) != ProfileOf(T);
  }

  lemma AllThreeFold(gap: int, cfg: Config)
    requires gap >= SECOND && DistinctIds(AllThree(gap))
    ensures FoldSet(AllThree(gap), None, cfg).started == SECOND
    ensures FoldSet(AllThree(gap), None, cfg).ended == 2 * SECOND + gap
  {
    hide FoldSet, DistinctIds;
    SetSpan(AllThree(gap), FIRST, Second(gap), cfg);
  }

  lemma MisreportSilent(stored: seq<Session>, out: seq<Rebuilt>)
    requires Misreported(stored, out)
    ensures !DiffOf(stored, out).HasDrift()
  {
  }

  lemma MiddledMisreports(cfg: Config, stored: seq<Session>, out: seq<Rebuilt>, drift: bool, db: Db)
    requires cfg.gap >= SECOND && DistinctIds(AllThree(cfg.gap))
    requires db == Middled(cfg.gap, Some("t"), FoldSet(AllThree(cfg.gap), None, cfg))
    requires Apply.DriftIs(db, stored, out, cfg, drift)
    ensures !drift && Misreported(stored, out)
  {
    var agg := FoldSet(AllThree(cfg.gap), None, cfg);
    AllThreeFold(cfg.gap, cfg);
    hide FoldSet, Middled, AllThree, Reads, IsReconstruction, DiffOf, Misreported, DistinctIds, Group, GroupProfile;
    PairRead(cfg.gap, agg);
    OneReading(db, stored, [Row("s", RowFor(FIRST).agg), Row("t", agg)]);
    MiddledVisible(cfg.gap, agg);
    GroupRebuilt(cfg.gap, cfg, out);
    GroupFold(cfg.gap, cfg);
    PairMisreported(RowFor(FIRST).agg, agg, out);
    MisreportSilent(stored, out);
  }

  /** Four deliveries, after which one session counts an event that has moved away and the other holds all three.
      Both start alike, so the row read last hides the other: the diff is silent, for no better reason than the
      ids the two happened to get; had they come the other way round, it would have drift. */
  lemma SilentDiffOverWrongTables(cfg: Config) returns (states: seq<Db>, steps: seq<Step>)
    requires cfg.gap >= SECOND
    ensures Run(states, steps, cfg) && |steps| == 4 && forall step | step in steps :: step.Deliver?
    ensures forall stored, out, drift | Apply.DriftIs(states[4], stored, out, cfg, drift) ::
      !drift && Misreported(stored, out)
  {
    hide FoldSet, Middled, Stolen, AllThree, TwoSessions, Delivers, Again, MiddleRaw, DistinctIds, Misreported,
      Apply.DriftIs, Run;
    states, steps := TwoSessionsReached(cfg);
    var before := StolenDelivered(cfg);
    MiddleDelivered(cfg, before);
    var after := FoldSet(AllThree(cfg.gap), None, cfg);
    var repeat, late := Deliver(Again("a", SECOND, None, Some(100.0)), MINT), Deliver(MiddleRaw(), MINT);
    states, steps := Extended(states, steps, repeat, cfg, Stolen(cfg.gap, before));
    states, steps := Extended(states, steps, late, cfg, Middled(cfg.gap, Some("t"), after));
    forall stored, out, drift | Apply.DriftIs(states[4], stored, out, cfg, drift)
      ensures !drift && Misreported(stored, out)
    {
      MiddledMisreports(cfg, stored, out, drift, states[4]);
    }
  }
}
