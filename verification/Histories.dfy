/** Concrete runs of the service from its empty tables, up to states that surprise. */
module Histories {
  import opened Sorting
  import opened Stamps
  import opened Events
  import opened Folding
  import opened Partition
  import opened Rebuild
  import opened Drift
  import opened Tables
  import opened Sessionize
  import opened Ingest
  import opened Invariants
  import opened Steps
  import opened Live
  import opened Refinement
  import opened Inert
  import opened Retries
  import opened Guarantees
  import opened Runs
  import opened Counterexamples

  function OneSession(): Db {
    Db(map["m" := Item(None)], map["a" := EventRow(FIRST, Some("s"))], map["s" := RowFor(FIRST)])
  }

  const FIRST_MINT := Ingest.Mint("m", "s", 0)
  const SECOND_MINT := Ingest.Mint("m2", "t", 0)

  // A new event on the example's key that opens a session.
  lemma OpensSession(l: Db, e: Event, latest: Option<string>, cfg: Config, newId: string)
    requires l.Schema() && l.IsLatest(latest, e.KeyOf()) && Target(l, e, latest, cfg.gap, newId) == newId
    requires l.Linked(newId) == {} && newId !in l.sessions && Arrived(l, e)
    requires e.media == "m" && e.kind == "k" && l.Duration("m") == None
    ensures AssignWith(l, e, latest, cfg, newId, 0) ==
      l.(events := l.events[e.id := EventRow(e, Some(newId))], sessions := l.sessions[newId := RowFor(e)])
  {
    var linked := l.Link(e.id, newId);
    LinkedAfterLink(l, e, newId, newId);
    assert linked.Linked(newId) == {e};
    LinkedIds(linked, newId);
    FoldOfOne(e, cfg);
    hide FoldSet, Db.IsLatest;
  }

  lemma FirstDelivered(cfg: Config)
    requires cfg.gap >= 0
    ensures Delivers(EMPTY_DB, Again("a", SECOND, None, Some(100.0)), cfg, FIRST_MINT, OneSession())
  {
    var raw := Again("a", SECOND, None, Some(100.0));
    var l := Db(map["m" := Item(None)], map["a" := EventRow(FIRST, None)], map[]);
    assert ToMediaItem(raw).identity == "k:x";
    assert EMPTY_DB.FindOrCreate(ToMediaItem(raw), "m") == Db(map["m" := Item(None)], map[], map[]);
    assert Logged(EMPTY_DB, raw, FIRST_MINT) == l && EventFor(EMPTY_DB, raw, FIRST_MINT) == FIRST;
    assert Unused(EMPTY_DB, FIRST_MINT) && l.Linked("s") == {};
    OpensSession(l, FIRST, None, cfg, "s");
    hide AssignWith, Parse, Logged, EventFor, FoldSet;
    DeliversTo(EMPTY_DB, raw, cfg, FIRST_MINT, None);
  }

  // The tables when the second event has been logged and is about to be assigned.
  function Arriving(gap: int): Db {
    OneSession().(events := OneSession().events["b" := EventRow(Second(gap), None)])
  }

  function SecondRaw(gap: int): Incoming {
    Again("b", 2 * SECOND + gap, None, None)
  }

  lemma OneSessionFinds(gap: int)
    requires gap >= 0
    ensures var db, raw := OneSession(), SecondRaw(gap);
      && Parse(raw) == Accepted && db.Schema() && Unused(db, SECOND_MINT) &&
        EventFor(db, raw, SECOND_MINT) == Second(gap)
      && Repeats(db, Second(gap)) && Logged(db, raw, SECOND_MINT) == Arriving(gap)
  {
    var db, raw := OneSession(), SecondRaw(gap);
    assert db.media.Keys == {"m"} && "m" in db.media && db.media["m"].identity == "k:x";
    assert ToMediaItem(raw).identity == "k:x";
    assert db.MediaFor("k:x") == Some("m");
    assert Enrich(db.media["m"], ToMediaItem(raw)) == db.media["m"];
    assert db.FindOrCreate(ToMediaItem(raw), "m2") == db;
    assert db.events.Keys == {"a"} && db.sessions.Keys == {"s"};
  }

  lemma ArrivingFacts(gap: int)
    requires gap >= 0
    ensures var l, e := Arriving(gap), Second(gap);
      && l.Schema() && Arrived(l, e) && l.Linked("t") == {} && l.Duration("m") == None &&
        l.IsLatest(Some("s"), e.KeyOf())
      && Target(l, e, Some("s"), gap, "t") == "t" && "t" !in l.sessions
      && l.(events := l.events["b" := EventRow(e, Some("t"))], sessions := l.sessions["t" := RowFor(e)]) ==
        TwoSessions(gap)
  {
    var l := Arriving(gap);
    assert l.events.Keys == {"a", "b"} && l.sessions.Keys == {"s"};
    StampLessAsymmetric(SECOND, SECOND);
    hide StampLess;
  }

  lemma SecondDelivered(cfg: Config)
    requires cfg.gap >= 0
    ensures Delivers(OneSession(), SecondRaw(cfg.gap), cfg, SECOND_MINT, TwoSessions(cfg.gap))
  {
    hide Parse, Logged, EventFor, Unused, FoldSet, Db.IsLatest, AssignWith, Db.Schema, Delivers, Db.Linked, Arrived,
      Repeats, OneSession, Arriving, SecondRaw, TwoSessions, RowFor, Db.Duration, Target;
    OneSessionFinds(cfg.gap);
    ArrivingFacts(cfg.gap);
    OpensSession(Arriving(cfg.gap), Second(cfg.gap), Some("s"), cfg, "t");
    DeliversTo(OneSession(), SecondRaw(cfg.gap), cfg, SECOND_MINT, Some("s"));
  }

  // The run of two deliveries that leads to the example state.
  lemma TwoSessionsReached(cfg: Config) returns (states: seq<Db>, steps: seq<Step>)
    requires cfg.gap >= 0
    ensures Run(states, steps, cfg) && |steps| == 2 && |states| == 3 && states[2] == TwoSessions(cfg.gap)
    ensures steps[0].Deliver? && steps[1] == Deliver(SecondRaw(cfg.gap), SECOND_MINT)
  {
    hide Delivers, OneSession, TwoSessions, SecondRaw, Again;
    FirstDelivered(cfg);
    SecondDelivered(cfg);
    var first := Deliver(Again("a", SECOND, None, Some(100.0)), FIRST_MINT);
    var second := Deliver(SecondRaw(cfg.gap), SECOND_MINT);
    assert Next(EMPTY_DB, first, cfg, OneSession()) && Next(OneSession(), second, cfg, TwoSessions(cfg.gap));
    hide Next;
    states := [EMPTY_DB, OneSession(), TwoSessions(cfg.gap)];
    steps := [first, second];
  }

  // ----- a late event -----

  const LATE := Event("c", "m", "k", "i", Start, None, SECOND)

  function LateRaw(): Incoming {
    Again("c", SECOND, None, None)
  }

  function LateArriving(gap: int): Db {
    TwoSessions(gap).(events := TwoSessions(gap).events["c" := EventRow(LATE, None)])
  }

  lemma LateFinds(cfg: Config)
    requires cfg.gap >= SECOND
    ensures var db, raw := TwoSessions(cfg.gap), LateRaw();
      && Parse(raw) == Accepted && db.Schema() && Unused(db, MINT) && EventFor(db, raw, MINT) == LATE
      && Repeats(db, LATE) && Logged(db, raw, MINT) == LateArriving(cfg.gap)
  {
    var db, raw := TwoSessions(cfg.gap), LateRaw();
    Resolves(cfg.gap);
    assert ToMediaItem(raw).identity == "k:x";
    assert db.events.Keys == {"a", "b"} && db.sessions.Keys == {"s", "t"};
    assert Enrich(db.media["m"], ToMediaItem(raw)) == db.media["m"];
    assert db.FindOrCreate(ToMediaItem(raw), "m2") == db;
  }

  lemma LateArrivingFacts(cfg: Config)
    requires cfg.gap >= SECOND
    ensures LateArriving(cfg.gap).Schema() && LateArriving(cfg.gap).sessions == TwoSessions(cfg.gap).sessions
    ensures LateArriving(cfg.gap).Link("c", "t").events == TwoSessions(cfg.gap).events["c" := EventRow(LATE, Some("t"))]
  {
    assert LateArriving(cfg.gap).events.Keys == {"a", "b", "c"};
  }

  // The late event joins the second session.
  lemma LateDelivered(cfg: Config) returns (db': Db)
    requires cfg.gap >= SECOND
    ensures Delivers(TwoSessions(cfg.gap), LateRaw(), cfg, MINT, db')
    ensures db'.events == TwoSessions(cfg.gap).events["c" := EventRow(LATE, Some("t"))] &&
      db'.media == TwoSessions(cfg.gap).media
    ensures db'.sessions.Keys == {"s", "t"} && db'.sessions["s"] == RowFor(FIRST)
  {
    LateArrivingFacts(cfg);
    assert LateArriving(cfg.gap).media == TwoSessions(cfg.gap).media &&
      TwoSessions(cfg.gap).sessions["s"] == RowFor(FIRST);
    hide Parse, Logged, EventFor, Unused, FoldSet, Db.IsLatest, AssignWith, Db.Schema, Delivers, Repeats, LateArriving,
      LateRaw, RowFor, Db.Link;
    LateFinds(cfg);
    JoiningSecond(LateArriving(cfg.gap), LATE, cfg);
    DeliversTo(TwoSessions(cfg.gap), LateRaw(), cfg, MINT, Some("t"));
    db' := AssignWith(LateArriving(cfg.gap), LATE, Some("t"), cfg, MINT.sessionId, MINT.now);
  }

  lemma TwoSessionsTight(gap: int)
    requires gap >= SECOND
    ensures TightRows(TwoSessions(gap), gap) && LinksApart(TwoSessions(gap), gap)
  {
    TwoSessionsLinks(gap);
    var db := TwoSessions(gap);
    assert db.sessions.Keys == {"s", "t"};
    assert LastOf({FIRST}, FIRST) && LastOf({Second(gap)}, Second(gap));
    assert TightSet({FIRST}, gap) && TightSet({Second(gap)}, gap);
    assert SetsApart({FIRST}, {Second(gap)}, gap) && SetsApart({Second(gap)}, {FIRST}, gap);
    hide TightSet, SetsApart, Db.Linked, TwoSessions;
  }

  lemma TwoSessionsAllFold(cfg: Config)
    ensures TwoSessions(cfg.gap).Schema() && AllFold(TwoSessions(cfg.gap), cfg)
  {
    assert TwoSessions(cfg.gap).sessions.Keys == {"s", "t"};
    hide Folds, TwoSessions, Db.Schema;
    TwoSessionsFold(cfg, "s");
    TwoSessionsFold(cfg, "t");
  }

  lemma TwoSessionsLinked(gap: int)
    ensures LiveLinked(TwoSessions(gap))
  {
    assert TwoSessions(gap).events.Keys == {"a", "b"};
  }

  lemma TwoSessionsSynced(cfg: Config)
    requires cfg.gap >= SECOND
    ensures Synced(TwoSessions(cfg.gap), cfg)
  {
    hide Sound, TwoSessions, TightRows, LinksApart, LiveLinked, AllFold;
    TwoSessionsSound(cfg);
    TwoSessionsAllFold(cfg);
    TwoSessionsLinked(cfg.gap);
    TwoSessionsTight(cfg.gap);
  }

  lemma LateDoesNotFit(cfg: Config)
    requires cfg.gap >= SECOND
    ensures var db := TwoSessions(cfg.gap); CleanDelivery(db, LATE) && !FittingDelivery(db, LATE, cfg.gap)
  {
    var db := TwoSessions(cfg.gap);
    assert db.sessions.Keys == {"s", "t"} && db.events.Keys == {"a", "b"};
    assert SameKeyRows(db, "t", "s");
    assert !Newest(db, "s");
    assert !FitsBeside(db, "s", SECOND, cfg.gap);
    assert db.OnKey("s", LATE.KeyOf());
  }

  lemma LinkedToSecond(cfg: Config, db': Db)
    requires db'.events == TwoSessions(cfg.gap).events["c" := EventRow(LATE, Some("t"))] && cfg.gap >= SECOND
    ensures LATE in db'.Linked("t") && forall x | x in db'.Linked("t") :: x.at >= SECOND
  {
    assert "c" in db'.events && db'.events["c"] == EventRow(LATE, Some("t"));
    assert db'.events.Keys == {"a", "b", "c"};
  }

  lemma SpanStart(L: set<Event>, e: Event, started: Time, ended: Time)
    requires Spans(L, started, ended) && e in L && forall x | x in L :: e.at <= x.at
    ensures started == e.at
  {
  }

  lemma ExactFolds(db: Db, s: string, cfg: Config)
    requires Exact(db, cfg) && s in db.sessions
    ensures db.Schema() && Folds(db, s, cfg)
  {
    hide Sound, Folds;
    assert db.Schema() by { SoundSchema(db, cfg); }
  }

  // Both stored sessions now start with the first event.
  lemma BothStartAlike(cfg: Config, db': Db)
    requires cfg.gap >= SECOND && Exact(db', cfg) && db'.sessions.Keys == {"s", "t"} &&
      db'.sessions["s"] == RowFor(FIRST)
    requires db'.events == TwoSessions(cfg.gap).events["c" := EventRow(LATE, Some("t"))]
    ensures forall s | s in db'.sessions :: db'.sessions[s].agg.started == SECOND
  {
    hide Exact, Folds, Db.Linked, Db.Schema, TwoSessions, Spans;
    LinkedToSecond(cfg, db');
    ExactFolds(db', "t", cfg);
    RowSpans(db', "t", cfg);
    SpanStart(db'.Linked("t"), LATE, db'.sessions["t"].agg.started, db'.sessions["t"].agg.ended);
  }

  lemma Neighbours(g: seq<Event>, gap: int, k: nat)
    requires IsSession(g, gap) && 0 < k < |g|
    ensures g[k - 1] in g && g[k - 1] != g[k] && !OpensNewSession(g[k - 1].at, g[k].at, gap)
  {
    assert Before(g[k - 1], g[k]);
    BeforeAsymmetric(g[k], g[k]);
  }

  // A session that holds b and otherwise only much earlier events starts with b.
  lemma StartsWith(g: seq<Event>, gap: int, b: Event, k: nat)
    requires IsSession(g, gap) && k < |g| && g[k] == b && b.at == 2 * SECOND + gap
    requires forall x | x in g && x != b :: x.at == SECOND
    ensures k == 0
  {
    if k > 0 {
      Neighbours(g, gap, k);
    }
  }

  lemma VisibleAfterLate(cfg: Config, db': Db)
    requires db'.events == TwoSessions(cfg.gap).events["c" := EventRow(LATE, Some("t"))] &&
      db'.media == TwoSessions(cfg.gap).media
    ensures Second(cfg.gap) in db'.LiveLog() && forall x | x in db'.LiveLog() && x != Second(cfg.gap) :: x.at == SECOND
  {
    assert db'.events.Keys == {"a", "b", "c"};
    assert db'.events["b"].event == Second(cfg.gap) && db'.Live("m");
  }

  // ... while a rebuild gives the second event a session of its own.
  lemma SecondStartsAlone(cfg: Config, db': Db, out: seq<Rebuilt>, groups: seq<seq<Event>>) returns (i: nat)
    requires cfg.gap >= SECOND && Reconstructs(out, groups, db'.LiveLog(), db'.Durations(), cfg)
    requires db'.events == TwoSessions(cfg.gap).events["c" := EventRow(LATE, Some("t"))] &&
      db'.media == TwoSessions(cfg.gap).media
    ensures i < |out| && out[i].session.agg.started == 2 * SECOND + cfg.gap
  {
    var b := Second(cfg.gap);
    VisibleAfterLate(cfg, db');
    hide Db.LiveLog, FoldGroup, TwoSessions, StrLess, Separated, Sorted;
    var g: seq<Event> :| g in Elems(groups) && b in g;
    i :| 0 <= i < |groups| && groups[i] == g;
    assert IsSession(g, cfg.gap) && Elems(g) <= db'.LiveLog();
    hide IsGapPartition;
    var k :| 0 <= k < |g| && g[k] == b;
    assert forall x | x in g :: x in Elems(g);
    StartsWith(g, cfg.gap, b, k);
    GroupStart(g, db'.Durations(), cfg);
  }

  /** Live and batch do part when an event arrives late: delivered after a newer session has opened, it joins that
      session, although a rebuild puts it with the earlier events. Whatever is read and reconstructed afterwards,
      the diff has drift. */
  lemma LateEventDiverges(cfg: Config) returns (db': Db)
    requires cfg.gap >= SECOND
    ensures Synced(TwoSessions(cfg.gap), cfg) && Delivers(TwoSessions(cfg.gap), LateRaw(), cfg, MINT, db')
    ensures Exact(db', cfg) && !Synced(db', cfg)
    ensures forall stored, out, groups | Reads(db', stored) &&
      Reconstructs(out, groups, db'.LiveLog(), db'.Durations(), cfg) ::
      DiffOf(stored, out).HasDrift()
  {
    TwoSessionsSynced(cfg);
    LateFinds(cfg);
    LateDoesNotFit(cfg);
    db' := LateDelivered(cfg);
    hide TwoSessions, Parse, Logged, EventFor, Delivers, CleanDelivery, FittingDelivery, Exact, LateRaw, TightRows,
      LinksApart;
    DeliveryKeepsExactIff(TwoSessions(cfg.gap), LateRaw(), cfg, MINT, db');
    DeliveryKeepsSyncedIff(TwoSessions(cfg.gap), LateRaw(), cfg, MINT, db');
    BothStartAlike(cfg, db');
    hide Reconstructs, DiffOf, RowFor;
    forall stored, out, groups | Reads(db', stored) && Reconstructs(out, groups, db'.LiveLog(), db'.Durations(), cfg)
      ensures DiffOf(stored, out).HasDrift()
    {
      var i := SecondStartsAlone(cfg, db', out, groups);
      UnmatchedDrifts(stored, out, i);
    }
  }

  // ----- a history that does not come back -----

  function Deleted(gap: int): Db {
    TwoSessions(gap).SetDeleted("m", Some(0))
  }

  // What a rebuild leaves while the item is deleted: its events, in no session.
  function Emptied(gap: int): Db {
    Db(Deleted(gap).media, map["a" := EventRow(FIRST, None), "b" := EventRow(Second(gap), None)], map[])
  }

  lemma DeletedInvisible(gap: int)
    ensures Deleted(gap).LiveLog() == {} && Deleted(gap).events == TwoSessions(gap).events
  {
    var d := Deleted(gap);
    assert "m" in TwoSessions(gap).media && d.media.Keys == {"m"} && !d.Live("m");
    assert d.events.Keys == {"a", "b"};
  }

  lemma EmptyReconstruction(durations: Durations, cfg: Config)
    ensures Reconstructs([], [], {}, durations, cfg)
  {
    var none: seq<seq<Event>> := [];
    assert Elems(none) == {};
    assert FoldAll(none, durations, cfg) == [];
  }

  lemma DeletedRebuilt(cfg: Config, ids: Apply.IdSource)
    ensures Apply.RebuildsTo(Deleted(cfg.gap), [], [], cfg, ids, 0, Emptied(cfg.gap))
  {
    var d := Deleted(cfg.gap);
    DeletedInvisible(cfg.gap);
    EmptyReconstruction(d.Durations(), cfg);
    assert Apply.WritesOf([], ids, 0) == [];
    assert d.events.Keys == {"a", "b"};
    assert d.ReplaceAll([]).events == Emptied(cfg.gap).events;
    hide Reconstructs;
  }

  /** A run in which an item is watched twice, deleted, the sessions rebuilt, and the item restored: it is visible
      again with both its events, and none of its sessions have come back. */
  lemma HistoryIsLost(cfg: Config, ids: Apply.IdSource) returns (states: seq<Db>, steps: seq<Step>)
    requires cfg.gap >= 0 && Apply.Unrepeated(ids)
    ensures Run(states, steps, cfg) && |steps| == 5 && states[2] == TwoSessions(cfg.gap)
    ensures steps[2..] == [Delete("m", 0), Replay(ids, 0), Restore("m")]
    ensures states[5].Live("m") && states[5].LiveLog() == {FIRST, Second(cfg.gap)} && states[5].sessions == map[]
  {
    hide Deleted, Emptied, TwoSessions, Db.LiveLog, Run, Next, Db.SetDeleted, Apply.Unrepeated;
    states, steps := TwoSessionsReached(cfg);
    var gone, back := Deleted(cfg.gap), Emptied(cfg.gap);
    var restored := back.SetDeleted("m", None);
    RestoredVisible(cfg.gap);
    DeletionNext(cfg, ids, restored);
    ghost var first := steps;
    states, steps := Extended(states, steps, Delete("m", 0), cfg, gone);
    states, steps := Extended(states, steps, Replay(ids, 0), cfg, back);
    states, steps := Extended(states, steps, Restore("m"), cfg, restored);
    assert steps == first + [Delete("m", 0), Replay(ids, 0), Restore("m")];
  }

  lemma Extended(states: seq<Db>, steps: seq<Step>, step: Step, cfg: Config, db': Db)
    returns (more: seq<Db>, further: seq<Step>)
    requires Run(states, steps, cfg) && Next(states[|steps|], step, cfg, db')
    ensures Run(more, further, cfg) && more == states + [db'] && further == steps + [step]
    ensures |states| == |steps| + 1 && more[|further|] == db'
  {
    hide Next;
    more, further := states + [db'], steps + [step];
  }

  lemma DeletedReadable(gap: int)
    ensures Deleted(gap).SessionsReadable()
  {
    assert TwoSessions(gap).sessions.Keys == {"s", "t"};
  }

  lemma DeletionNext(cfg: Config, ids: Apply.IdSource, restored: Db)
    requires Apply.Unrepeated(ids) && restored == Emptied(cfg.gap).SetDeleted("m", None)
    ensures Next(TwoSessions(cfg.gap), Delete("m", 0), cfg, Deleted(cfg.gap))
    ensures Next(Deleted(cfg.gap), Replay(ids, 0), cfg, Emptied(cfg.gap)) &&
      Next(Emptied(cfg.gap), Restore("m"), cfg, restored)
  {
    DeletedRebuilt(cfg, ids);
    assert Deleted(cfg.gap).SessionsReadable() by { DeletedReadable(cfg.gap); }
    hide Emptied, TwoSessions, Db.SetDeleted, Apply.RebuildsTo, Db.SessionsReadable;
  }

  lemma RestoredVisible(gap: int)
    ensures var d := Emptied(gap).SetDeleted("m", None);
      d.Live("m") && d.LiveLog() == {FIRST, Second(gap)} && d.sessions == map[]
  {
    var e, d := Emptied(gap), Emptied(gap).SetDeleted("m", None);
    assert "m" in TwoSessions(gap).media && "m" in e.media && !e.Live("m");
    assert d.events.Keys == {"a", "b"} && d.Live("m");
    assert d.events["a"].event == FIRST && d.events["b"].event == Second(gap);
  }

  // ----- a repeat that brings a deleted item back -----

  lemma DeletedTables(gap: int)
    ensures var db := Deleted(gap);
      && db.media == map["m" := Item(None).(deleted := Some(0))] && db.events == TwoSessions(gap).events
      && db.sessions.Keys == {"s", "t"} && db.SetDeleted("m", None) == TwoSessions(gap)
  {
    var db := Deleted(gap);
    assert "m" in TwoSessions(gap).media && TwoSessions(gap).sessions.Keys == {"s", "t"};
    assert db.SetDeleted("m", None).media == TwoSessions(gap).media;
    assert db.SetDeleted("m", None).sessions == TwoSessions(gap).sessions;
  }

  lemma DeletedItem(db: Db, gap: int)
    requires db.media == map["m" := Item(None).(deleted := Some(0))]
    ensures db.ResolvedId(ToMediaItem(SecondRaw(gap)), "m2") == "m" &&
      db.FindOrCreate(ToMediaItem(SecondRaw(gap)), "m2") == db
  {
    var m := ToMediaItem(SecondRaw(gap));
    assert "m" in db.media && db.media["m"].identity == "k:x" == m.identity;
    assert db.MediaFor("k:x") == Some("m");
    assert Enrich(db.media["m"], m) == db.media["m"];
  }

  lemma SecondRawParses(gap: int)
    requires gap >= 0
    ensures Parse(SecondRaw(gap)) == Accepted && ToEvent(SecondRaw(gap), "m") == Second(gap)
  {
  }

  lemma DeletedFinds(gap: int)
    requires gap >= 0
    ensures var db, raw := Deleted(gap), SecondRaw(gap);
      && Parse(raw) == Accepted && db.Schema() && Unused(db, MINT) && EventFor(db, raw, MINT) == Second(gap)
      && Repeats(db, Second(gap)) && Logged(db, raw, MINT) == TwoSessions(gap)
  {
    var db, raw := Deleted(gap), SecondRaw(gap);
    DeletedTables(gap);
    SecondRawParses(gap);
    assert "b" in TwoSessions(gap).events && db.events.Keys == {"a", "b"};
    assert db.Schema() by { SetDeletedSchema(TwoSessions(gap), "m", Some(0)); }
    hide Deleted, Parse, ToMediaItem, ToEvent, SecondRaw, Db.SetDeleted, Db.Schema;
    DeletedItem(db, gap);
    hide Db.FindOrCreate, Db.ResolvedId;
  }

  lemma DeletedSound(cfg: Config)
    requires cfg.gap >= SECOND
    ensures Sound(Deleted(cfg.gap), cfg) && !Deleted(cfg.gap).Live("m")
    ensures Newest(Deleted(cfg.gap), "t") && Deleted(cfg.gap).events == TwoSessions(cfg.gap).events
  {
    TwoSessionsSound(cfg);
    DeletedInvisible(cfg.gap);
    var db := Deleted(cfg.gap);
    assert db.sessions.Keys == {"s", "t"};
    assert "m" in TwoSessions(cfg.gap).media && db.media.Keys == {"m"};
    hide Sound;
    SetDeletedKeepsSound(TwoSessions(cfg.gap), "m", Some(0), cfg);
  }

  lemma SecondAgain(cfg: Config) returns (db': Db)
    requires cfg.gap >= SECOND
    ensures Delivers(Deleted(cfg.gap), SecondRaw(cfg.gap), cfg, MINT, db')
  {
    hide Parse, Logged, EventFor, Unused, FoldSet, Db.IsLatest, AssignWith, Db.Schema, Delivers, Repeats, TwoSessions,
      SecondRaw, Deleted;
    DeletedFinds(cfg.gap);
    assert SecondLast(TwoSessions(cfg.gap), cfg.gap) && TwoSessions(cfg.gap).Schema() by { SecondIsLast(cfg.gap); }
    LatestIsSecond(TwoSessions(cfg.gap), cfg.gap);
    DeliversTo(Deleted(cfg.gap), SecondRaw(cfg.gap), cfg, MINT, Some("t"));
    db' := AssignWith(TwoSessions(cfg.gap), Second(cfg.gap), Some("t"), cfg, MINT.sessionId, MINT.now);
  }

  lemma SecondIsLast(gap: int)
    ensures SecondLast(TwoSessions(gap), gap) && TwoSessions(gap).Schema()
  {
    assert TwoSessions(gap).events.Keys == {"a", "b"};
  }

  lemma SecondRevives(cfg: Config, again: Db)
    requires cfg.gap >= SECOND && Delivers(Deleted(cfg.gap), SecondRaw(cfg.gap), cfg, MINT, again)
    ensures NothingMoved(Deleted(cfg.gap), again) && !Deleted(cfg.gap).Live("m") && again.Live("m")
  {
    var gone := Deleted(cfg.gap);
    hide Deleted, TwoSessions, Sound, SecondRaw, Delivers, Parse, EventFor, NothingMoved, Newest;
    DeletedSound(cfg);
    DeletedFinds(cfg.gap);
    assert Findable(gone, "b") && gone.events["b"].session == Some("t") by { SecondLinked(cfg.gap); }
    SoundIsKeyed(gone, cfg);
    RetryStaysIff(gone, SecondRaw(cfg.gap), cfg, MINT, again);
    DeliveryRevives(gone, SecondRaw(cfg.gap), cfg, MINT, again);
  }

  /** An answer is lost, the item is deleted, and the collector sends the same event again: no link moves and no row
      changes but in its deletion, and the item the user has deleted is back. */
  lemma RetryRevives(cfg: Config) returns (states: seq<Db>, steps: seq<Step>)
    requires cfg.gap >= SECOND
    ensures Run(states, steps, cfg) && |steps| == 4 && steps[2] == Delete("m", 0)
    ensures steps[1].Deliver? && steps[3].Deliver? && steps[1].raw == steps[3].raw
    ensures NothingMoved(states[3], states[4]) && !states[3].Live("m") && states[4].Live("m")
  {
    hide Deleted, TwoSessions, Db.LiveLog, Run, Next, Db.SetDeleted, Sound, SecondRaw, Delivers, Parse, EventFor,
      NothingMoved, Newest;
    states, steps := TwoSessionsReached(cfg);
    var gone := Deleted(cfg.gap);
    var again := SecondAgain(cfg);
    SecondRevives(cfg, again);
    assert Next(TwoSessions(cfg.gap), Delete("m", 0), cfg, gone) by { DeletedNext(cfg); }
    assert Next(gone, Deliver(SecondRaw(cfg.gap), MINT), cfg, again) by {
      DeliveredNext(gone, SecondRaw(cfg.gap), MINT, cfg, again);
    }
    states, steps := Extended(states, steps, Delete("m", 0), cfg, gone);
    states, steps := Extended(states, steps, Deliver(SecondRaw(cfg.gap), MINT), cfg, again);
  }

  lemma SecondLinked(gap: int)
    ensures Findable(Deleted(gap), "b") && Deleted(gap).events["b"].session == Some("t")
  {
    assert "t" in TwoSessions(gap).sessions;
  }

  lemma DeletedNext(cfg: Config)
    ensures Next(TwoSessions(cfg.gap), Delete("m", 0), cfg, Deleted(cfg.gap))
  {
  }

  lemma DeliveredNext(db: Db, raw: Incoming, mint: Ingest.Mint, cfg: Config, db': Db)
    requires Delivers(db, raw, cfg, mint, db')
    ensures Next(db, Deliver(raw, mint), cfg, db')
  {
  }
}
