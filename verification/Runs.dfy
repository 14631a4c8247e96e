/** Whole runs of the service: deliveries, deletions, restorations and rebuilds in any order. */
module Runs {
  import opened Sorting
  import opened Stamps
  import opened Events
  import opened Folding
  import opened Partition
  import opened Rebuild
  import opened Drift
  import opened Tables
  import opened Sessionize
  import opened Ingest
  import opened Invariants
  import opened Steps
  import opened Live
  import opened Retries
  import opened Refinement
  import Apply
  import opened Healing
  import opened Inert

  datatype Step =
    | Deliver(raw: Incoming, mint: Mint)
    | Delete(id: string, now: Time)
    | Restore(id: string)
    | Replay(ids: Apply.IdSource, now: Time)

  ghost predicate Next(db: Db, step: Step, cfg: Config, db': Db) {
    match step
    case Deliver(raw, mint) => Delivers(db, raw, cfg, mint, db')
    case Delete(id, now) => db' == db.SetDeleted(id, Some(now))
    case Restore(id) => db' == db.SetDeleted(id, None)
    case Replay(ids, now) =>
      db.SessionsReadable() && Apply.Unrepeated(ids) && exists out, groups ::
        Apply.RebuildsTo(db, out, groups, cfg, ids, now, db')
  }

  ghost predicate Run(states: seq<Db>, steps: seq<Step>, cfg: Config) {
    && |states| == |steps| + 1 && states[0] == EMPTY_DB
    && (forall i | 0 <= i < |steps| :: Next(states[i], steps[i], cfg, states[i + 1]))
  }

  lemma EmptyIsSynced(cfg: Config)
    ensures Synced(EMPTY_DB, cfg) && AllCurrent(EMPTY_DB, cfg)
  {
  }

  lemma ReplaySyncs(db: Db, step: Step, cfg: Config, db': Db)
    requires db.Schema() && cfg.gap >= 0 && step.Replay? && Next(db, step, cfg, db') && Named(db)
    ensures Synced(db', cfg) && AllCurrent(db', cfg)
  {
    var out, groups :| Apply.RebuildsTo(db, out, groups, cfg, step.ids, step.now, db');
    RebuildIsRebuilt(db, out, groups, cfg, step.ids, step.now, db');
    assert Named(db');
    hide Replayed, Apply.RebuildsTo, Named, Synced, Db.Schema, Db.LiveLog, Db.Log;
    RebuildSyncs(db', groups, step.ids, cfg);
    RebuildCurrent(db', groups, step.ids, cfg);
  }

  // Completion judged by the duration known now, for every row, visible or not.
  ghost predicate AllCurrent(db: Db, cfg: Config) {
    forall s | s in db.sessions :: CurrentAt(db, s, cfg)
  }

  lemma RebuildCurrent(db': Db, groups: seq<seq<Event>>, ids: Apply.IdSource, cfg: Config)
    requires Replayed(db', groups, ids, cfg)
    ensures AllCurrent(db', cfg)
  {
    RebuiltRows(db', groups, ids, cfg);
    hide Replayed, Folds, TightSet, RowFits, CurrentAt, Db.Linked;
  }

  // ----- every state keeps the schema -----

  lemma StepKeepsSchema(db: Db, step: Step, cfg: Config, db': Db)
    requires db.Schema() && cfg.gap >= 0 && Next(db, step, cfg, db')
    ensures db'.Schema()
  {
    match step
    case Deliver(raw, mint) =>
      if Parse(raw) == Accepted {
        DeliveryKeepsSchema(db, raw, cfg, mint, db');
      }
    case Delete(id, now) => SetDeletedSchema(db, id, Some(now));
    case Restore(id) => SetDeletedSchema(db, id, None);
    case Replay(ids, now) =>
      hide Db.Schema, Db.LiveLog, Db.Log, Db.ReplaceAll;
      var out, groups :| Apply.RebuildsTo(db, out, groups, cfg, ids, now, db');
      RebuildIsRebuilt(db, out, groups, cfg, ids, now, db');
  }

  lemma DeliveryKeepsSchema(db: Db, raw: Incoming, cfg: Config, mint: Mint, db': Db)
    requires Delivers(db, raw, cfg, mint, db') && Parse(raw) == Accepted
    ensures db'.Schema()
  {
    hide Db.Schema, Logged, EventFor, Parse, AssignWith, Arrived, Repeats, Db.Log, Db.Linked, FoldSet, RowPlaced,
      Db.IsLatest;
    var l, e := Logged(db, raw, mint), EventFor(db, raw, mint);
    LoggedArrives(db, raw, mint);
    var latest: Option<string> :| l.IsLatest(latest, e.KeyOf()) &&
      db' == AssignWith(l, e, latest, cfg, mint.sessionId, mint.now);
    AssignPlaces(l, e, latest, cfg, mint.sessionId, mint.now);
  }

  lemma {:induction false} EveryStateSchema(states: seq<Db>, steps: seq<Step>, cfg: Config, n: nat)
    requires Run(states, steps, cfg) && cfg.gap >= 0 && n < |states|
    ensures states[n].Schema()
  {
    hide Next;
    if n > 0 {
      hide Db.Schema;
      EveryStateSchema(states, steps, cfg, n - 1);
      StepKeepsSchema(states[n - 1], steps[n - 1], cfg, states[n]);
    }
  }

  // ----- every state is sound -----

  lemma ReplayKeepsSound(db: Db, step: Step, cfg: Config, db': Db)
    requires db.Schema() && cfg.gap >= 0 && step.Replay? && Next(db, step, cfg, db')
    ensures Sound(Keyed(db'), cfg)
  {
    var out, groups :| Apply.RebuildsTo(db, out, groups, cfg, step.ids, step.now, db');
    hide Replayed, Apply.RebuildsTo, Db.Schema, Db.LiveLog, Db.Log, Sound;
    RebuildIsRebuilt(db, out, groups, cfg, step.ids, step.now, db');
    ReplayKeyedSound(db', groups, step.ids, cfg);
  }

  lemma StepKeepsSound(db: Db, step: Step, cfg: Config, db': Db)
    requires db.Schema() && Sound(Keyed(db), cfg) && cfg.gap >= SECOND && Next(db, step, cfg, db')
    ensures Sound(Keyed(db'), cfg)
  {
    hide Sound, Delivers, Db.SetDeleted, Keyed, Db.Schema, Apply.RebuildsTo;
    match step
    case Deliver(raw, mint) =>
      DeliveryIgnoresNull(db, raw, cfg, mint, db');
      DeliveryKeepsSound(Keyed(db), raw, cfg, mint, Keyed(db'));
    case Delete(id, now) =>
      KeyedSetDeleted(db, id, Some(now));
      SetDeletedKeepsSound(Keyed(db), id, Some(now), cfg);
    case Restore(id) =>
      KeyedSetDeleted(db, id, None);
      SetDeletedKeepsSound(Keyed(db), id, None, cfg);
    case Replay(ids, now) => ReplayKeepsSound(db, step, cfg, db');
  }

  lemma EmptyIsSound(cfg: Config)
    ensures Keyed(EMPTY_DB) == EMPTY_DB && Sound(EMPTY_DB, cfg)
  {
    EmptyIsSynced(cfg);
    KeyedIsAll(EMPTY_DB);
  }

  /** In every state any run reaches, in whatever order events arrive and however often, and setting aside the rows
      that a rebuild has written without an instance: on each key the ends of sessions are more than the gap apart,
      the newest row is the fold of its links, completion is backed by a known duration, and a session is deleted
      exactly when its item is. */
  lemma {:induction false} EveryStateSound(states: seq<Db>, steps: seq<Step>, cfg: Config, n: nat)
    requires Run(states, steps, cfg) && cfg.gap >= SECOND && n < |states|
    ensures Sound(Keyed(states[n]), cfg)
    ensures RowsKeyed(states[n]) ==> Sound(states[n], cfg)
  {
    hide Next, Sound, Keyed;
    if n == 0 {
      EmptyIsSound(cfg);
    } else {
      EveryStateSound(states, steps, cfg, n - 1);
      EveryStateSchema(states, steps, cfg, n - 1);
      StepKeepsSound(states[n - 1], steps[n - 1], cfg, states[n]);
    }
    if RowsKeyed(states[n]) {
      KeyedIsAll(states[n]);
    }
  }

  // ----- sessions only grow between rebuilds -----

  lemma GrewTransitive(a: Db, b: Db, c: Db)
    requires AllGrew(a, b) && AllGrew(b, c)
    ensures AllGrew(a, c)
  {
  }

  lemma SetDeletedGrows(db: Db, id: string, at: Option<Time>)
    ensures AllGrew(db, db.SetDeleted(id, at))
  {
  }

  /** Between rebuilds no run loses or shrinks a session, moves its creation time, or takes back its
      completion. */
  lemma {:induction false} SessionsOnlyGrow(states: seq<Db>, steps: seq<Step>, cfg: Config, m: nat, n: nat)
    requires Run(states, steps, cfg) && cfg.gap >= SECOND
    requires m <= n < |states| && forall i | m <= i < n :: !steps[i].Replay?
    ensures AllGrew(states[m], states[n])
    decreases n
  {
    hide Sound, AllGrew, Next, Keyed;
    if m < n {
      SessionsOnlyGrow(states, steps, cfg, m, n - 1);
      EveryStateSound(states, steps, cfg, n - 1);
      StepGrows(states[n - 1], steps[n - 1], cfg, states[n]);
      GrewTransitive(states[m], states[n - 1], states[n]);
    } else {
      GrewReflexive(states[m]);
    }
  }

  lemma DeliveredGrows(db: Db, raw: Incoming, cfg: Config, mint: Mint, db': Db)
    requires Sound(Keyed(db), cfg) && cfg.gap >= SECOND && Delivers(db, raw, cfg, mint, db')
    ensures AllGrew(db, db')
  {
    hide Sound, Delivers;
    DeliveryIgnoresNull(db, raw, cfg, mint, db');
    DeliveryGrows(Keyed(db), raw, cfg, mint, Keyed(db'));
    forall s | s in db.sessions ensures s in db'.sessions && Grew(db.sessions[s], db'.sessions[s]) {
      if db.sessions[s].instance.None? {
        NullRowsStay(db, raw, cfg, mint, db', s);
      } else {
        assert s in Keyed(db).sessions;
      }
    }
  }

  lemma StepGrows(db: Db, step: Step, cfg: Config, db': Db)
    requires Sound(Keyed(db), cfg) && cfg.gap >= SECOND && Next(db, step, cfg, db') && !step.Replay?
    ensures AllGrew(db, db')
  {
    hide Sound, AllGrew, Delivers, Db.SetDeleted, Keyed;
    match step
    case Deliver(raw, mint) => DeliveredGrows(db, raw, cfg, mint, db');
    case Delete(id, now) => SetDeletedGrows(db, id, Some(now));
    case Restore(id) => SetDeletedGrows(db, id, None);
  }

  lemma GrewReflexive(db: Db)
    ensures AllGrew(db, db)
  {
  }

  // ----- sessions of a key end in the order in which they were opened -----

  // A session opened for an event ends a gap after every other one on its key.
  lemma StartedEndsLater(l: Db, e: Event, sid: string, cfg: Config, db': Db, s: string)
    requires Sound(l, cfg) && Placed(l, e, sid, cfg, db') && (Joins(l, e, sid, cfg.gap) || Starts(l, e, sid, cfg.gap))
    requires sid !in l.sessions && s in l.sessions && SameKeyRows(db', s, sid)
    ensures OpensNewSession(db'.sessions[s].agg.ended, db'.sessions[sid].agg.ended, cfg.gap)
  {
    assert l.OnKey(s, e.KeyOf());
    assert Starts(l, e, sid, cfg.gap);
    hide Sound, FoldSet, Db.Linked, Db.Log, Completes, Folds, LinksMoved, Fresh, Db.Schema, DistinctIds;
    TargetRow(l, e, sid, cfg, db');
  }

  lemma OpenedEndsLater(db: Db, raw: Incoming, cfg: Config, mint: Mint, db': Db, s: string, t: string)
    requires Sound(db, cfg) && cfg.gap >= SECOND && Delivers(db, raw, cfg, mint, db')
    requires s in db.sessions && t !in db.sessions && t in db'.sessions && s in db'.sessions && SameKeyRows(db', s, t)
    ensures OpensNewSession(db'.sessions[s].agg.ended, db'.sessions[t].agg.ended, cfg.gap)
  {
    assert Parse(raw) == Accepted;
    var latest, sid := DeliveryPlaces(db, raw, cfg, mint, db');
    var l, e := Logged(db, raw, mint), EventFor(db, raw, mint);
    assert l.Schema() by { SoundSchema(l, cfg); }
    hide Sound, Parse, Logged, EventFor, Processed, FoldSet, Db.Linked, Db.Log, SameLinks, DurationsKept, LinksMoved,
      Db.Schema, DistinctIds, SameKeyRows, Joins, Starts;
    LoggedAggs(db, raw, mint);
    StartedEndsLater(l, e, sid, cfg, db', s);
  }

  // One that does not end last on its key stays as long as it is.
  lemma OlderStays(db: Db, raw: Incoming, cfg: Config, mint: Mint, db': Db, s: string, t: string)
    requires Sound(Keyed(db), cfg) && cfg.gap >= SECOND && Delivers(db, raw, cfg, mint, db')
    requires s in db.sessions && t in db.sessions && SameKeyRows(db, s, t) &&
      db.sessions[s].agg.ended < db.sessions[t].agg.ended
    ensures s in db'.sessions && db'.sessions[s].agg.ended == db.sessions[s].agg.ended
  {
    assert SameKeyRows(db, t, s) && !Newest(db, s);
    hide Sound, Delivers;
    OnlyTheNewestChanges(db, raw, cfg, mint, db', s);
  }

  lemma StepKeepsOrder(db: Db, step: Step, cfg: Config, db': Db, s: string, t: string)
    requires db.Schema() && Sound(Keyed(db), cfg) && cfg.gap >= SECOND && Next(db, step, cfg, db') && !step.Replay?
    requires s in db.sessions && s in db'.sessions && t in db'.sessions && db'.sessions[t].instance.Some?
    requires s in db'.sessions && SameKeyRows(db', s, t) && AllGrew(db, db')
    requires t in db.sessions ==> OpensNewSession(db.sessions[s].agg.ended, db.sessions[t].agg.ended, cfg.gap)
    ensures OpensNewSession(db'.sessions[s].agg.ended, db'.sessions[t].agg.ended, cfg.gap)
  {
    hide Sound, Delivers, Db.SetDeleted, Db.Schema;
    match step
    case Deliver(raw, mint) =>
      DeliveryIgnoresNull(db, raw, cfg, mint, db');
      assert s in Keyed(db).sessions && t in Keyed(db').sessions && s in Keyed(db').sessions;
      if t in db.sessions {
        OlderStays(db, raw, cfg, mint, db', s, t);
      } else {
        OpenedEndsLater(Keyed(db), raw, cfg, mint, Keyed(db'), s, t);
      }
    case Delete(id, now) => SetDeletedRows(db, id, Some(now));
    case Restore(id) => SetDeletedRows(db, id, None);
  }

  /** Between rebuilds the sessions of a key end in the order in which they were opened, more than a gap apart:
      nothing that arrives later, however late it is, makes an older session overtake a newer one. */
  lemma {:induction false} NewerEndsLater(states: seq<Db>, steps: seq<Step>, cfg: Config, m: nat, n: nat, s: string,
                                          t: string)
    requires Run(states, steps, cfg) && cfg.gap >= SECOND
    requires m <= n < |states| && forall i | m <= i < n :: !steps[i].Replay?
    requires s in states[m].sessions && s in states[n].sessions && t in states[n].sessions && t !in states[m].sessions
    requires states[n].sessions[t].instance.Some? && SameKeyRows(states[n], s, t)
    ensures OpensNewSession(states[n].sessions[s].agg.ended, states[n].sessions[t].agg.ended, cfg.gap)
    decreases n
  {
    hide Sound, Next, Keyed;
    var db, db' := states[n - 1], states[n];
    SessionsOnlyGrow(states, steps, cfg, m, n - 1);
    EveryStateSound(states, steps, cfg, n - 1);
    EveryStateSchema(states, steps, cfg, n - 1);
    StepGrows(db, steps[n - 1], cfg, db');
    if t in db.sessions {
      NewerEndsLater(states, steps, cfg, m, n - 1, s, t);
    }
    StepKeepsOrder(db, steps[n - 1], cfg, db', s, t);
  }

  // ----- staying in step with the batch -----

  // The steps that keep the tables in step: deliveries that are clean and fit, items brought back with all
  // their events in sessions, rebuilds of named events, and any deletion.
  ghost predicate InStep(db: Db, step: Step, cfg: Config) {
    match step
    case Deliver(raw, mint) => Parse(raw) == Accepted ==>
      CleanDelivery(db, EventFor(db, raw, mint)) && FittingDelivery(db, EventFor(db, raw, mint), cfg.gap)
    case Delete(id, now) => true
    case Restore(id) => Whole(db, id)
    case Replay(ids, now) => Named(db)
  }

  lemma SetDeletedKeepsSteps(db: Db, id: string, at: Option<Time>, cfg: Config)
    requires db.Schema() && AllFold(db, cfg) && TightRows(db, cfg.gap) && LinksApart(db, cfg.gap)
    requires LinksFit(db) && DeletionAgrees(db)
    ensures var db' := db.SetDeleted(id, at);
      db'.Schema() && AllFold(db', cfg) && TightRows(db', cfg.gap) && LinksApart(db', cfg.gap)
  {
    var db' := db.SetDeleted(id, at);
    SetDeletedEffect(db, id, at);
    forall s | s in db.sessions ensures Folds(db', s, cfg) {
      SameFold(db, db', s, cfg);
    }
    hide Db.SetDeleted, Folds, TightSet, SetsApart, Db.Linked, Db.Schema, DeletionAgrees, LinksFit;
  }

  lemma SetDeletedKeepsLinked(db: Db, id: string, at: Option<Time>)
    requires LiveLinked(db) && (at.None? ==> Whole(db, id))
    ensures LiveLinked(db.SetDeleted(id, at))
  {
    SetDeletedRows(db, id, at);
  }

  lemma SetDeletedKeepsSynced(db: Db, id: string, at: Option<Time>, cfg: Config)
    requires Synced(db, cfg) && (at.None? ==> Whole(db, id))
    ensures Synced(db.SetDeleted(id, at), cfg)
  {
    hide Db.SetDeleted, AllFold, TightRows, LinksApart, LiveLinked, Whole, RowsKeyed, LinksFit, RowsApart, LinksBounded,
      NewestFold, CompletionBacked, DeletionAgrees, Db.Schema;
    SetDeletedKeepsSound(db, id, at, cfg);
    SetDeletedKeepsSteps(db, id, at, cfg);
    SetDeletedKeepsLinked(db, id, at);
  }

  /** Bringing an item back keeps the tables in step if and only if all its events are in sessions. */
  lemma RestoreKeepsSyncedIff(db: Db, id: string, cfg: Config)
    requires Synced(db, cfg)
    ensures Synced(db.SetDeleted(id, None), cfg) <==> Whole(db, id)
  {
    if Whole(db, id) {
      SetDeletedKeepsSynced(db, id, None, cfg);
    } else {
      RestoredUnlinked(db, id);
    }
  }

  lemma RestoredUnlinked(db: Db, id: string)
    requires db.Schema() && !Whole(db, id)
    ensures !LiveLinked(db.SetDeleted(id, None))
  {
    var x :| x in db.events && db.events[x].event.media == id && db.events[x].session.None?;
    var db' := db.SetDeleted(id, None);
    assert db'.events == db.events && db'.Live(id);
  }

  lemma ReplaySyncsIff(db: Db, step: Step, cfg: Config, db': Db)
    requires db.Schema() && cfg.gap >= 0 && step.Replay? && Next(db, step, cfg, db')
    ensures Synced(db', cfg) <==> Named(db)
  {
    if Named(db) {
      ReplaySyncs(db, step, cfg, db');
    } else {
      var out, groups :| Apply.RebuildsTo(db, out, groups, cfg, step.ids, step.now, db');
      RebuildIsRebuilt(db, out, groups, cfg, step.ids, step.now, db');
      ReadableIffNamed(db', groups, step.ids, cfg);
      hide Replayed, Apply.RebuildsTo, Db.Schema, Db.LiveLog, Db.Log, AllFold, LinksFit, NewestFold;
      assert !Named(db') && !db'.SessionsReadable();
    }
  }

  /** Exactly the steps in step keep the tables in step. */
  lemma StepKeepsSyncedIff(db: Db, step: Step, cfg: Config, db': Db)
    requires Synced(db, cfg) && cfg.gap >= SECOND && Next(db, step, cfg, db')
    ensures Synced(db', cfg) <==> InStep(db, step, cfg)
  {
    SyncedSchema(db, cfg);
    hide Synced, Db.SetDeleted, Named, Db.Schema, Apply.RebuildsTo, CleanDelivery, FittingDelivery, Whole, Parse,
      EventFor;
    match step
    case Deliver(raw, mint) =>
      if Parse(raw) == Accepted {
        hide Delivers;
        DeliveryKeepsSyncedIff(db, raw, cfg, mint, db');
      }
    case Delete(id, now) => SetDeletedKeepsSynced(db, id, Some(now), cfg);
    case Restore(id) => RestoreKeepsSyncedIff(db, id, cfg);
    case Replay(ids, now) => ReplaySyncsIff(db, step, cfg, db');
  }

  // ----- batches -----

  // A session id that no row has is in no link either.
  lemma UnusedIsFresh(db: Db, id: string, cfg: Config)
    requires Sound(Keyed(db), cfg) && id !in db.sessions
    ensures Fresh(db, id)
  {
    hide Sound, Keyed;
    forall e | e in db.events ensures db.events[e].session != Some(id) {
      if db.events[e].session.Some? {
        LinkedRowThere(db, e, cfg);
      }
    }
  }

  lemma BatchStepDelivers(db: Db, raw: Incoming, cfg: Config, mint: Mint, db': Db)
    requires Sound(Keyed(db), cfg) && BatchStep(db, raw, cfg, mint, db') && Parse(raw) == Accepted
    requires Repeats(db, EventFor(db, raw, mint))
    ensures Next(db, Deliver(raw, mint), cfg, db')
  {
    UnusedIsFresh(db, mint.sessionId, cfg);
    hide Processed, Parse, EventFor, Repeats, Db.Schema, Sound;
  }

  /** The states a batch goes through are a stretch of a run: each of its events is one delivery. */
  lemma {:induction false} BatchIsStretch(states: seq<Db>, items: seq<Incoming>, mints: seq<Mint>, cfg: Config, n: nat)
    requires |items| == |mints| && n < |states| && n <= |items| && Sound(Keyed(states[0]), cfg) && cfg.gap >= SECOND
    requires forall i | 0 <= i < n ::
      Parse(items[i]) == Accepted && BatchStep(states[i], items[i], cfg, mints[i], states[i + 1])
    requires forall i | 0 <= i < n :: Repeats(states[i], EventFor(states[i], items[i], mints[i]))
    ensures Sound(Keyed(states[n]), cfg)
    ensures forall i | 0 <= i < n :: Next(states[i], Deliver(items[i], mints[i]), cfg, states[i + 1])
  {
    hide Sound, BatchStep, Parse, EventFor, Repeats, Next, Keyed;
    if n > 0 {
      BatchIsStretch(states, items, mints, cfg, n - 1);
      BatchStepDelivers(states[n - 1], items[n - 1], cfg, mints[n - 1], states[n]);
      BatchStepSchema(states[n - 1], items[n - 1], cfg, mints[n - 1], states[n]);
      StepKeepsSound(states[n - 1], Deliver(items[n - 1], mints[n - 1]), cfg, states[n]);
    }
  }

  lemma BatchStepSchema(db: Db, raw: Incoming, cfg: Config, mint: Mint, db': Db)
    requires BatchStep(db, raw, cfg, mint, db')
    ensures db.Schema()
  {
  }

  // ----- runs in step -----

  ghost predicate RunInStep(states: seq<Db>, steps: seq<Step>, cfg: Config) {
    Run(states, steps, cfg) && forall i | 0 <= i < |steps| && i < |states| :: InStep(states[i], steps[i], cfg)
  }

  // From the start, or from a rebuild of named events, every step up to n is in step; what happened before
  // the rebuild does not matter.
  ghost predicate InStepSince(states: seq<Db>, steps: seq<Step>, cfg: Config, m: nat, n: nat) {
    && Run(states, steps, cfg) && m <= n < |states|
    && (m == 0 || (steps[m - 1].Replay? && Named(states[m - 1])))
    && forall i | m <= i < n :: InStep(states[i], steps[i], cfg)
  }

  lemma SyncedAt(states: seq<Db>, steps: seq<Step>, cfg: Config, m: nat)
    requires Run(states, steps, cfg) && cfg.gap >= 0 && m < |states|
    requires m == 0 || (steps[m - 1].Replay? && Named(states[m - 1]))
    ensures Synced(states[m], cfg) && AllCurrent(states[m], cfg)
  {
    hide Synced, AllCurrent, Named, Next, Db.Schema;
    if m == 0 {
      EmptyIsSynced(cfg);
    } else {
      EveryStateSchema(states, steps, cfg, m - 1);
      ReplaySyncs(states[m - 1], steps[m - 1], cfg, states[m]);
    }
  }

  lemma {:induction false} SyncedSince(states: seq<Db>, steps: seq<Step>, cfg: Config, m: nat, n: nat)
    requires InStepSince(states, steps, cfg, m, n) && cfg.gap >= SECOND
    ensures Synced(states[n], cfg)
    decreases n
  {
    hide Next, InStep, Synced, Named;
    if n == m {
      SyncedAt(states, steps, cfg, m);
    } else {
      SyncedSince(states, steps, cfg, m, n - 1);
      StepKeepsSyncedIff(states[n - 1], steps[n - 1], cfg, states[n]);
    }
  }

  /** The tables are in step in every state of a run if and only if every step of it is in step. */
  lemma EveryStateSyncedIff(states: seq<Db>, steps: seq<Step>, cfg: Config)
    requires Run(states, steps, cfg) && cfg.gap >= SECOND
    ensures (forall n | 0 <= n < |states| :: Synced(states[n], cfg)) <==> RunInStep(states, steps, cfg)
  {
    hide Next, InStep, Synced, Named;
    if RunInStep(states, steps, cfg) {
      forall n | 0 <= n < |states| ensures Synced(states[n], cfg) {
        SyncedSince(states, steps, cfg, 0, n);
      }
    }
    if forall n | 0 <= n < |states| :: Synced(states[n], cfg) {
      forall i | 0 <= i < |steps| ensures InStep(states[i], steps[i], cfg) {
        assert Synced(states[i], cfg) && Synced(states[i + 1], cfg);
        StepKeepsSyncedIff(states[i], steps[i], cfg, states[i + 1]);
      }
    }
  }

  /** Live and batch agree: at any point of any run that is in step since its start or since its last rebuild,
      the stored sessions are exactly the gap partition a rebuild would make, and a diff is silent if and only
      if no completion is out of date. */
  lemma RunRefinesBatch(states: seq<Db>, steps: seq<Step>, cfg: Config, m: nat, n: nat, stored: seq<Session>,
                        out: seq<Rebuilt>, groups: seq<seq<Event>>)
    requires InStepSince(states, steps, cfg, m, n) && cfg.gap >= SECOND && Reads(states[n], stored)
    requires Reconstructs(out, groups, states[n].LiveLog(), states[n].Durations(), cfg)
    ensures states[n].Schema() && Elems(groups) == LiveGroups(states[n])
    ensures !DiffOf(stored, out).HasDrift() <==> CompletionCurrent(states[n], cfg)
  {
    SyncedSince(states, steps, cfg, m, n);
    SyncedSchema(states[n], cfg);
    hide Synced, InStepSince, Reconstructs, CompletionCurrent, DiffOf, LiveGroups, Db.Schema;
    LiveRefinesBatch(states[n], cfg, stored, out, groups);
  }
}
