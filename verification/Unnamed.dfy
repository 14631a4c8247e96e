/** A browser event, a rebuild, and a retry: the repeat no longer finds the session its event is in. */
module Unnamed {
  import opened Sorting
  import opened Stamps
  import opened Events
  import opened Folding
  import opened Partition
  import opened Rebuild
  import opened Tables
  import opened Ingest
  import opened Invariants
  import opened Steps
  import opened Inert
  import opened Retries
  import opened Healing
  import opened Runs
  import opened Counterexamples
  import opened Histories

  // What the browser collector sends names no instance.
  const BARE := Event("a", "m", "k", "", Start, Some(100.0), SECOND)

  function BareRaw(): Incoming {
    Incoming(1, "a", "start", SECOND, "k", "", "x", "", "", "", None, "", Some(100.0))
  }

  function BareSession(): Db {
    Db(map["m" := Item(None)], map["a" := EventRow(BARE, Some("s"))], map["s" := RowFor(BARE)])
  }

  function BareArriving(): Db {
    Db(map["m" := Item(None)], map["a" := EventRow(BARE, None)], map[])
  }

  lemma BareFinds()
    ensures Parse(BareRaw()) == Accepted && Unused(EMPTY_DB, FIRST_MINT) &&
      EventFor(EMPTY_DB, BareRaw(), FIRST_MINT) == BARE
    ensures Logged(EMPTY_DB, BareRaw(), FIRST_MINT) == BareArriving() && Repeats(EMPTY_DB, BARE)
  {
    assert ToMediaItem(BareRaw()).identity == "k:x";
    assert EMPTY_DB.FindOrCreate(ToMediaItem(BareRaw()), "m") == Db(map["m" := Item(None)], map[], map[]);
  }

  lemma BareArrives(cfg: Config)
    requires cfg.gap >= 0
    ensures BareArriving().Schema() && BareArriving().IsLatest(None, BARE.KeyOf())
    ensures Sessionize.AssignWith(BareArriving(), BARE, None, cfg, "s", 0) == BareSession()
  {
    assert BareArriving().Linked("s") == {} && BareArriving().Duration("m") == None && Arrived(BareArriving(), BARE);
    OpensSession(BareArriving(), BARE, None, cfg, "s");
    hide Sessionize.AssignWith;
  }

  lemma BareDelivered(cfg: Config)
    requires cfg.gap >= 0
    ensures Next(EMPTY_DB, Deliver(BareRaw(), FIRST_MINT), cfg, BareSession())
  {
    hide Sessionize.AssignWith, Parse, Logged, EventFor, BareArriving, BareSession, BareRaw, Delivers, Unused, Repeats;
    BareFinds();
    BareArrives(cfg);
    DeliversTo(EMPTY_DB, BareRaw(), cfg, FIRST_MINT, None);
  }

  // ----- the rebuild -----

  function Alone(): seq<seq<Event>> {
    [[BARE]]
  }

  lemma AloneIsPartition(gap: int)
    ensures IsGapPartition(Elems(Alone()), {BARE}, gap) && Sorted(Alone(), GroupLess)
  {
    var g := [BARE];
    assert Elems(Alone()) == {g} && Elems(g) == {BARE};
    assert Ordered(g) && g[0] == BARE;
  }

  lemma BareVisible()
    ensures BareSession().Schema() && BareSession().SessionsReadable() && BareSession().LiveLog() == {BARE}
  {
    var db := BareSession();
    assert db.events.Keys == {"a"} && db.sessions.Keys == {"s"} && db.Live("m");
    assert db.events["a"].event == BARE;
  }

  lemma BareRebuilds(cfg: Config, ids: Apply.IdSource) returns (out: seq<Rebuilt>, db': Db)
    requires Apply.Unrepeated(ids)
    ensures Apply.RebuildsTo(BareSession(), out, Alone(), cfg, ids, 0, db')
    ensures Next(BareSession(), Replay(ids, 0), cfg, db')
  {
    BareVisible();
    AloneIsPartition(cfg.gap);
    hide IsGapPartition, FoldAll, Apply.WritesOf, Alone, Apply.Unrepeated, BareSession;
    out := FoldAll(Alone(), BareSession().Durations(), cfg);
    db' := BareSession().ReplaceAll(Apply.WritesOf(out, ids, 0));
    assert Apply.RebuildsTo(BareSession(), out, Alone(), cfg, ids, 0, db');
  }

  lemma FoldOfBare(durations: Durations, cfg: Config)
    requires DurationOf(durations, "m") == None
    ensures FoldGroup([BARE], durations, cfg).session.agg == Agg(SECOND, SECOND, 0, 100.0, false, 1)
  {
    GroupStart([BARE], durations, cfg);
    FoldOfOne(BARE, cfg);
    assert Ordered([BARE]) && Elems([BARE]) == {BARE};
    ArrangeUnique([BARE], {BARE});
    hide FoldOf;
  }

  // One row without an instance, holding the event.
  ghost predicate BareRow(db: Db, s: string) {
    && db.media == map["m" := Item(None)]
    && db.events.Keys == {"a"} && db.events["a"] == EventRow(BARE, Some(s))
    && db.sessions.Keys == {s} && RowIsBare(db.sessions[s])
  }

  predicate RowIsBare(row: SessionRow) {
    row.media == "m" && row.kind == "k" && row.instance == None && row.agg == Agg(SECOND, SECOND, 0, 100.0, false, 1)
  }

  lemma BareRows(cfg: Config, ids: Apply.IdSource, out: seq<Rebuilt>, db': Db)
    requires cfg.gap >= 0 && Apply.Unrepeated(ids) && Apply.RebuildsTo(BareSession(), out, Alone(), cfg, ids, 0, db')
    ensures db'.sessions.Keys == {ids(0)} && RowIsBare(db'.sessions[ids(0)])
  {
    BareVisible();
    FoldOfBare(BareSession().Durations(), cfg);
    hide Apply.RebuildsTo, Apply.Unrepeated, FoldOf, IsSession, BareSession, Db.Schema, Db.LiveLog, Db.SessionsReadable;
    ReplacedRows(BareSession(), out, Alone(), cfg, ids, 0, db');
    assert Apply.RowHolds(db'.sessions[ids(0)], Alone()[0], 0, BareSession().Durations(), cfg);
  }

  lemma BareLinks(cfg: Config, ids: Apply.IdSource, out: seq<Rebuilt>, db': Db)
    requires cfg.gap >= 0 && Apply.Unrepeated(ids) && Apply.RebuildsTo(BareSession(), out, Alone(), cfg, ids, 0, db')
    ensures db'.media == BareSession().media && db'.events.Keys == {"a"}
    ensures db'.events["a"] == EventRow(BARE, Some(ids(0)))
  {
    BareVisible();
    hide Apply.RebuildsTo, Apply.Unrepeated;
    ReplacedLinks(BareSession(), out, Alone(), cfg, ids, 0, db');
    assert "a" in BareSession().events && Apply.LinkHolds(db'.events["a"], Alone(), ids);
    assert BARE in Alone()[0];
  }

  lemma BareRebuilt(cfg: Config, ids: Apply.IdSource, out: seq<Rebuilt>, db': Db)
    requires cfg.gap >= 0 && Apply.Unrepeated(ids) && Apply.RebuildsTo(BareSession(), out, Alone(), cfg, ids, 0, db')
    ensures BareRow(db', ids(0)) && db'.Schema() && Sound(Keyed(db'), cfg)
  {
    BareVisible();
    hide Apply.RebuildsTo, Apply.Unrepeated, Alone, RowIsBare, Replayed, Sound, Keyed;
    BareRows(cfg, ids, out, db');
    BareLinks(cfg, ids, out, db');
    RebuildIsRebuilt(BareSession(), out, Alone(), cfg, ids, 0, db');
    RebuiltHasSchema(db', Alone(), ids, cfg);
    ReplayKeyedSound(db', Alone(), ids, cfg);
  }

  lemma BareHeld(db: Db, s: string, cfg: Config)
    requires BareRow(db, s)
    ensures KnowsItem(db, "m", ToMediaItem(BareRaw())) && HoldsEvent(db, BARE, cfg) && !Findable(db, "a")
  {
    assert "m" in db.media;
  }

  // ----- the retry -----

  lemma BareEvent(db: Db, s: string, mint: Ingest.Mint)
    requires BareRow(db, s)
    ensures Parse(BareRaw()) == Accepted && EventFor(db, BareRaw(), mint) == BARE && Repeats(db, BARE)
  {
    assert ToMediaItem(BareRaw()).identity == "k:x";
    assert "m" in db.media && db.MediaFor("k:x") == Some("m");
  }

  lemma BareUnseen(db: Db, s: string)
    requires BareRow(db, s)
    ensures db.IsLatest(None, BARE.KeyOf())
  {
  }

  // The message can be delivered again, and finds no session.
  lemma BareAgain(db: Db, s: string, cfg: Config, mint: Ingest.Mint) returns (db': Db)
    requires BareRow(db, s) && db.Schema() && mint.mediaId == "m2" && mint.sessionId != s
    ensures Delivers(db, BareRaw(), cfg, mint, db')
  {
    assert Unused(db, mint);
    BareEvent(db, s, mint);
    BareHeld(db, s, cfg);
    BareUnseen(db, s);
    hide Parse, Logged, EventFor, BareRow, BareRaw, Db.Schema, Db.IsLatest, KnowsItem, HoldsEvent, ToMediaItem, Repeats,
      Unused, Sessionize.AssignWith;
    RepeatPrepares(db, BareRaw(), mint);
    DeliversTo(db, BareRaw(), cfg, mint, None);
    db' := Sessionize.AssignWith(db, BARE, None, cfg, mint.sessionId, mint.now);
  }

  lemma BareMoves(db: Db, s: string, cfg: Config, mint: Ingest.Mint, db': Db)
    requires BareRow(db, s) && Sound(Keyed(db), cfg) && cfg.gap >= SECOND && Delivers(db, BareRaw(), cfg, mint, db')
    ensures !NothingMoved(db, db') && !SameTables(db, db') && Findable(db', "a")
    ensures s in db'.sessions && db'.sessions[s].agg.count == 1 && db'.events["a"].session != Some(s)
  {
    BareEvent(db, s, mint);
    BareHeld(db, s, cfg);
    hide Sound, Keyed, Parse, EventFor, Delivers, NothingMoved, SameTables, BareRaw, KnowsItem, HoldsEvent, ToMediaItem;
    RetryStaysIff(db, BareRaw(), cfg, mint, db');
    RetryIsNoOpIff(db, BareRaw(), cfg, mint, db');
    NullRowsStay(db, BareRaw(), cfg, mint, db', s);
  }

  lemma BareRetried(cfg: Config, ids: Apply.IdSource, rebuilt: Db) returns (again: Ingest.Mint, db': Db)
    requires Apply.Unrepeated(ids) && BareRow(rebuilt, ids(0)) && rebuilt.Schema()
    ensures Next(rebuilt, Deliver(BareRaw(), again), cfg, db')
  {
    assert ids(1) != ids(0);
    hide BareRow, Db.Schema, BareRaw, Apply.Unrepeated, Delivers;
    again := Ingest.Mint("m2", ids(1), 0);
    db' := BareAgain(rebuilt, ids(0), cfg, again);
  }

  lemma BareRun(cfg: Config, ids: Apply.IdSource, rebuilt: Db) returns (states: seq<Db>, steps: seq<Step>)
    requires cfg.gap >= 0 && Apply.Unrepeated(ids) && Next(BareSession(), Replay(ids, 0), cfg, rebuilt)
    requires BareRow(rebuilt, ids(0)) && rebuilt.Schema()
    ensures Run(states, steps, cfg) && |states| == 4 && states[2] == rebuilt && |steps| == 3 &&
      steps[1] == Replay(ids, 0)
    ensures steps[0].Deliver? && steps[2].Deliver? && steps[0].raw == steps[2].raw == BareRaw()
  {
    hide BareRow, Db.Schema, BareSession, Next, BareRaw, Apply.Unrepeated, Delivers, Run;
    BareDelivered(cfg);
    var again, db' := BareRetried(cfg, ids, rebuilt);
    states, steps := [EMPTY_DB, BareSession(), rebuilt, db'],
      [Deliver(BareRaw(), FIRST_MINT), Replay(ids, 0), Deliver(BareRaw(), again)];
    ThreeSteps(states, steps, cfg);
  }

  lemma ThreeSteps(states: seq<Db>, steps: seq<Step>, cfg: Config)
    requires |states| == 4 && |steps| == 3 && states[0] == EMPTY_DB && Next(states[0], steps[0], cfg, states[1])
    requires Next(states[1], steps[1], cfg, states[2]) && Next(states[2], steps[2], cfg, states[3])
    ensures Run(states, steps, cfg)
  {
    hide Next;
  }

  /** The collector sends an event without an instance, the sessions are rebuilt, and the event is sent again. Its item
      is visible and learns nothing, and it is in the only session on its key, with its kind and completion; and
      every outcome of the retry takes it to another session and leaves the rebuilt one counting it. */
  lemma RetryAfterRebuildMoves(cfg: Config, ids: Apply.IdSource) returns (states: seq<Db>, steps: seq<Step>)
    requires cfg.gap >= SECOND && Apply.Unrepeated(ids)
    ensures Run(states, steps, cfg) && |steps| == 3 && steps[1] == Replay(ids, 0)
    ensures steps[0].Deliver? && steps[2].Deliver? && steps[0].raw == steps[2].raw == BareRaw()
    ensures KnowsItem(states[2], BARE.media, ToMediaItem(BareRaw())) && HoldsEvent(states[2], BARE, cfg)
    ensures forall mint, db' | Delivers(states[2], BareRaw(), cfg, mint, db') ::
      && EventFor(states[2], BareRaw(), mint) == BARE && !NothingMoved(states[2], db') && !SameTables(states[2], db')
      && ids(0) in db'.sessions && db'.sessions[ids(0)].agg.count == 1
      && "a" in db'.events && db'.events["a"].session != Some(ids(0))
  {
    hide Run, Next, Sound, Keyed, Parse, EventFor, Delivers, NothingMoved, SameTables, BareRaw, KnowsItem, HoldsEvent,
      ToMediaItem, BareRow, Apply.RebuildsTo, Apply.Unrepeated, BareSession;
    var out, rebuilt := BareRebuilds(cfg, ids);
    BareRebuilt(cfg, ids, out, rebuilt);
    BareHeld(rebuilt, ids(0), cfg);
    BareEvent(rebuilt, ids(0), FIRST_MINT);
    states, steps := BareRun(cfg, ids, rebuilt);
    forall mint, db' | Delivers(rebuilt, BareRaw(), cfg, mint, db')
      ensures EventFor(rebuilt, BareRaw(), mint) == BARE && !NothingMoved(rebuilt, db') && !SameTables(rebuilt, db')
      ensures ids(0) in db'.sessions && db'.sessions[ids(0)].agg.count == 1
      ensures "a" in db'.events && db'.events["a"].session != Some(ids(0))
    {
      BareEvent(rebuilt, ids(0), mint);
      BareMoves(rebuilt, ids(0), cfg, mint, db');
    }
  }
}
