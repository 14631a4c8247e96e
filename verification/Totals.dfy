/** Two more invariants of whole runs: event counts add up, and completion stays current. */
module Totals {
  import opened Stamps
  import opened Events
  import opened Folding
  import opened Rebuild
  import opened Drift
  import opened Tables
  import opened Ingest
  import opened Invariants
  import opened Steps
  import opened Live
  import opened Refinement
  import opened Healing
  import opened Runs

  // ----- every row exact, whatever the order of arrival -----

  // Like a schedule in step, but new events may arrive in any order.
  ghost predicate CleanStep(db: Db, step: Step) {
    match step
    case Deliver(raw, mint) => Parse(raw) == Accepted ==> CleanDelivery(db, EventFor(db, raw, mint))
    case Delete(id, now) => true
    case Restore(id) => Whole(db, id)
    case Replay(ids, now) => Named(db)
  }

  lemma SetDeletedKeepsExact(db: Db, id: string, at: Option<Time>, cfg: Config)
    requires Exact(db, cfg) && (at.None? ==> Whole(db, id))
    ensures Exact(db.SetDeleted(id, at), cfg)
  {
    SetDeletedKeepsSound(db, id, at, cfg);
    SetDeletedKeepsLinked(db, id, at);
    SetDeletedEffect(db, id, at);
    var db' := db.SetDeleted(id, at);
    hide Db.SetDeleted, Folds, Db.Linked, Db.Schema, DeletionAgrees, LinksFit, RowsKeyed, RowsApart, LinksBounded,
      NewestFold, CompletionBacked, LiveLinked;
    forall s | s in db.sessions ensures Folds(db', s, cfg) {
      SameFold(db, db', s, cfg);
    }
  }

  lemma StepKeepsExact(db: Db, step: Step, cfg: Config, db': Db)
    requires Exact(db, cfg) && cfg.gap >= SECOND && Next(db, step, cfg, db') && CleanStep(db, step)
    ensures Exact(db', cfg)
  {
    assert db.Schema() by { SoundSchema(db, cfg); }
    hide Exact, Db.SetDeleted, Named, Db.Schema, Apply.RebuildsTo, CleanDelivery, Whole, Parse, EventFor;
    match step
    case Deliver(raw, mint) =>
      if Parse(raw) == Accepted {
        hide Delivers;
        DeliveryKeepsExactIff(db, raw, cfg, mint, db');
      }
    case Delete(id, now) => SetDeletedKeepsExact(db, id, Some(now), cfg);
    case Restore(id) => SetDeletedKeepsExact(db, id, None, cfg);
    case Replay(ids, now) => ReplaySyncs(db, step, cfg, db'); SyncedIsExact(db', cfg);
  }

  lemma SyncedIsExact(db: Db, cfg: Config)
    requires Synced(db, cfg)
    ensures Exact(db, cfg)
  {
  }

  // ----- event counts -----

  ghost function Pick(S: set<string>): string
    requires S != {}
  {
    var s :| s in S; s
  }

  ghost function TotalCount(db: Db, S: set<string>): nat
    requires S <= db.sessions.Keys
  {
    if S == {} then 0 else db.sessions[Pick(S)].agg.count + TotalCount(db, S - {Pick(S)})
  }

  ghost function LinkedTo(db: Db, S: set<string>): set<Event> {
    set id | id in db.events && db.events[id].session.Some? && db.events[id].session.value in S :: db.events[id].event
  }

  lemma LinkedSplit(db: Db, S: set<string>, s: string)
    requires db.Schema() && s in S
    ensures LinkedTo(db, S) == db.Linked(s) + LinkedTo(db, S - {s})
    ensures |LinkedTo(db, S)| == |db.Linked(s)| + |LinkedTo(db, S - {s})|
  {
    assert db.Linked(s) !! LinkedTo(db, S - {s});
    forall x ensures x in LinkedTo(db, S) <==> x in db.Linked(s) + LinkedTo(db, S - {s}) {
    }
  }

  lemma NoneLinked(db: Db)
    requires db.Schema()
    ensures LinkedTo(db, {}) == {}
  {
  }

  lemma {:induction false} CountsAddUp(db: Db, S: set<string>, cfg: Config)
    requires db.Schema() && AllFold(db, cfg) && S <= db.sessions.Keys
    ensures TotalCount(db, S) == |LinkedTo(db, S)|
  {
    hide Folds, Db.Schema, Db.Linked, LinkedTo;
    if S == {} {
      NoneLinked(db);
    } else {
      var s := Pick(S);
      CountsAddUp(db, S - {s}, cfg);
      FoldCounts(db, s, cfg);
      LinkedSplit(db, S, s);
    }
  }

  lemma VisibleLinks(db: Db)
    requires db.Schema() && LinksFit(db) && DeletionAgrees(db) && LiveLinked(db)
    ensures LinkedTo(db, db.LiveSessions()) == db.LiveLog()
  {
    forall e ensures e in LinkedTo(db, db.LiveSessions()) <==> e in db.LiveLog() {
      if e in LinkedTo(db, db.LiveSessions()) {
        var id :| id in db.events && db.events[id].session.Some? && db.events[id].event == e
          && db.events[id].session.value in db.LiveSessions();
        assert db.Live(db.events[id].event.media);
      }
      if e in db.LiveLog() {
        var id :| id in db.events && db.Live(db.events[id].event.media) && db.events[id].event == e;
        assert db.events[id].session.value in db.LiveSessions();
      }
    }
  }

  ghost predicate CleanRun(states: seq<Db>, steps: seq<Step>, cfg: Config) {
    Run(states, steps, cfg) && forall i | 0 <= i < |steps| && i < |states| :: CleanStep(states[i], steps[i])
  }

  lemma {:induction false} EveryStateExact(states: seq<Db>, steps: seq<Step>, cfg: Config, n: nat)
    requires CleanRun(states, steps, cfg) && cfg.gap >= SECOND && n < |states|
    ensures Exact(states[n], cfg)
  {
    hide Next, CleanStep;
    if n == 0 {
      EmptyIsSynced(cfg);
      SyncedIsExact(EMPTY_DB, cfg);
    } else {
      hide Exact;
      EveryStateExact(states, steps, cfg, n - 1);
      StepKeepsExact(states[n - 1], steps[n - 1], cfg, states[n]);
    }
  }

  /** No event is counted twice or lost: in a run without repeats of events from older sessions, in
      whatever order events arrive, every row is the fold of its events and the event counts of the visible
      sessions add up to the size of the visible log. */
  lemma VisibleCountsAddUp(states: seq<Db>, steps: seq<Step>, cfg: Config, n: nat)
    requires CleanRun(states, steps, cfg) && cfg.gap >= SECOND && n < |states|
    ensures states[n].Schema() && AllFold(states[n], cfg)
    ensures TotalCount(states[n], states[n].LiveSessions()) == |states[n].LiveLog()|
  {
    EveryStateExact(states, steps, cfg, n);
    hide CleanRun, AllFold, LiveLinked, LinksFit, DeletionAgrees, RowsKeyed, RowsApart, LinksBounded, NewestFold,
      CompletionBacked, Db.Schema, Db.LiveLog;
    CountsAddUp(states[n], states[n].LiveSessions(), cfg);
    VisibleLinks(states[n]);
  }

  // ----- completion -----

  // The duration an item has once the delivered event has been resolved: a known one is kept.
  function DurationAfter(db: Db, raw: Incoming, m: string): Option<int>
    requires raw.Incoming?
  {
    if m in db.media && db.media[m].identity == ToMediaItem(raw).identity &&
      db.media[m].duration.None? then raw.duration
    else db.Duration(m)
  }

  lemma ResolvedDuration(db: Db, item: MediaItem, newId: string, m: string)
    requires db.Schema() && newId !in db.media && m in db.media
    ensures db.FindOrCreate(item, newId).Duration(m) ==
      if db.media[m].identity == item.identity && db.media[m].duration.None? then item.duration else db.Duration(m)
  {
  }

  lemma LoggedDuration(db: Db, raw: Incoming, mint: Mint, m: string)
    requires db.Schema() && Unused(db, mint) && Parse(raw) == Accepted && m in db.media
    ensures Logged(db, raw, mint).Duration(m) == DurationAfter(db, raw, m)
  {
    var item := ToMediaItem(raw);
    hide Parse, Db.FindOrCreate, Db.SetDeleted, Db.ResolvedId, Db.Schema;
    var a := db.FindOrCreate(item, mint.mediaId);
    ResolvedDuration(db, item, mint.mediaId, m);
    SetDeletedDurations(a, db.ResolvedId(item, mint.mediaId), None);
  }

  lemma SetDeletedDurations(db: Db, id: string, at: Option<Time>)
    ensures forall m :: db.SetDeleted(id, at).Duration(m) == db.Duration(m)
  {
  }

  // Every session but the one the event joins, and which is folded again, has the completion that the duration
  // then known gives it.
  ghost predicate NoneLeftBehind(db: Db, raw: Incoming, mint: Mint, cfg: Config)
    requires Parse(raw) == Accepted
  {
    forall s | s in db.sessions && !Joins(db, EventFor(db, raw, mint), s, cfg.gap) :: JudgedBy(db, s, raw, cfg)
  }

  ghost predicate JudgedBy(db: Db, s: string, raw: Incoming, cfg: Config)
    requires s in db.sessions && raw.Incoming?
  {
    var row := db.sessions[s];
    row.agg.completed == Completes(row.agg.maxPos, DurationAfter(db, raw, row.media), cfg)
  }

  // Exactly one session on a key is joined, if any.
  lemma JoinedAlone(db: Db, l: Db, e: Event, sid: string, s: string, gap: int)
    requires SameAggs(db, l) && RowsApart(l, gap) && gap >= 0 && s in db.sessions
    requires Joins(l, e, sid, gap) || Starts(l, e, sid, gap)
    ensures Joins(db, e, s, gap) <==> s == sid
  {
    SameRowsNewest(db, l, s);
    if Joins(l, e, sid, gap) && Newest(l, s) && l.OnKey(s, e.KeyOf()) {
      NewestAlone(l, s, sid, gap);
    }
  }

  lemma RowStaysJudged(db: Db, l: Db, raw: Incoming, mint: Mint, s: string, sid: string, cfg: Config, db': Db)
    requires db.Schema() && Unused(db, mint) && Parse(raw) == Accepted && l == Logged(db, raw, mint) && SameAggs(db, l)
    requires s in db.sessions && s != sid && s in db'.sessions && db'.sessions[s] == l.sessions[s] &&
      db'.media == l.media
    ensures CurrentAt(db', s, cfg) <==> JudgedBy(db, s, raw, cfg)
  {
    assert db.sessions[s].media in db.media;
    LoggedDuration(db, raw, mint, db.sessions[s].media);
    hide Parse, Logged, Completes, Db.Schema;
  }

  /** A delivery leaves every completion as a rebuild would judge it if and only if it leaves none behind:
      learning a duration late is harmless unless it completes a session that is not folded again. */
  lemma DeliveryKeepsCurrentIff(db: Db, raw: Incoming, cfg: Config, mint: Mint, db': Db)
    requires Sound(db, cfg) && cfg.gap >= SECOND && Delivers(db, raw, cfg, mint, db') && Parse(raw) == Accepted
    ensures AllCurrent(db', cfg) <==> NoneLeftBehind(db, raw, mint, cfg)
  {
    var latest, sid := DeliveryPlaces(db, raw, cfg, mint, db');
    var l, e := Logged(db, raw, mint), EventFor(db, raw, mint);
    hide Parse, Logged, EventFor, Processed, FoldSet, DistinctIds, Folds, Completes, Joins, Starts, Db.Linked,
      SameLinks, Db.Log, DurationsKept, JudgedBy, CurrentAt, Newest, LinksFit, LinksBounded, NewestFold,
      CompletionBacked, DeletionAgrees, RowsKeyed, Db.Schema, RowsApart, LinksMoved, RowPlaced, AllCurrent,
      NoneLeftBehind;
    LoggedAggs(db, raw, mint);
    TargetRow(l, e, sid, cfg, db');
    TargetCurrent(l, e, sid, cfg, db');
    PlacedRows(l, e, sid, cfg, db');
    RowsJudged(db, l, raw, mint, sid, cfg, db');
  }

  lemma OnlyTargetJoined(db: Db, l: Db, e: Event, sid: string, gap: int)
    requires SameAggs(db, l) && RowsApart(l, gap) && gap >= 0 && (Joins(l, e, sid, gap) || Starts(l, e, sid, gap))
    ensures forall s | s in db.sessions :: Joins(db, e, s, gap) <==> s == sid
  {
    hide Joins, Starts, SameAggs, RowsApart;
    forall s | s in db.sessions ensures Joins(db, e, s, gap) <==> s == sid {
      JoinedAlone(db, l, e, sid, s, gap);
    }
  }

  lemma OthersJudged(db: Db, l: Db, raw: Incoming, mint: Mint, sid: string, cfg: Config, db': Db)
    requires db.Schema() && Unused(db, mint) && Parse(raw) == Accepted && l == Logged(db, raw, mint) && SameAggs(db, l)
    requires db'.media == l.media && db'.sessions.Keys == l.sessions.Keys + {sid}
    requires forall t | t in l.sessions && t != sid :: db'.sessions[t] == l.sessions[t]
    ensures raw.Incoming? && forall s | s in db.sessions && s != sid ::
      s in db'.sessions && (CurrentAt(db', s, cfg) <==> JudgedBy(db, s, raw, cfg))
  {
    assert raw.Incoming? && l.sessions.Keys == db.sessions.Keys;
    hide Parse, Logged, JudgedBy, CurrentAt, Db.Schema, SameAggs, Unused;
    forall s | s in db.sessions && s != sid ensures CurrentAt(db', s, cfg) <==> JudgedBy(db, s, raw, cfg) {
      RowStaysJudged(db, l, raw, mint, s, sid, cfg, db');
    }
  }

  lemma RowsJudged(db: Db, l: Db, raw: Incoming, mint: Mint, sid: string, cfg: Config, db': Db)
    requires db.Schema() && Unused(db, mint) && Parse(raw) == Accepted && l == Logged(db, raw, mint) && SameAggs(db, l)
    requires RowsApart(l, cfg.gap) && cfg.gap >= 0
    requires Joins(l, EventFor(db, raw, mint), sid, cfg.gap) || Starts(l, EventFor(db, raw, mint), sid, cfg.gap)
    requires db'.media == l.media && db'.sessions.Keys == l.sessions.Keys + {sid} && CurrentAt(db', sid, cfg)
    requires forall t | t in l.sessions && t != sid :: db'.sessions[t] == l.sessions[t]
    ensures AllCurrent(db', cfg) <==> NoneLeftBehind(db, raw, mint, cfg)
  {
    assert l.sessions.Keys == db.sessions.Keys;
    hide Parse, Logged, EventFor, Joins, Starts, JudgedBy, CurrentAt, Db.Schema, RowsApart, SameAggs, Unused;
    OnlyTargetJoined(db, l, EventFor(db, raw, mint), sid, cfg.gap);
    OthersJudged(db, l, raw, mint, sid, cfg, db');
  }

  lemma PlacedRows(l: Db, e: Event, sid: string, cfg: Config, db': Db)
    requires l.Schema() && Placed(l, e, sid, cfg, db')
    ensures db'.media == l.media && db'.sessions.Keys == l.sessions.Keys + {sid}
    ensures forall t | t in l.sessions && t != sid :: db'.sessions[t] == l.sessions[t]
  {
    hide Db.Schema, FoldSet, DistinctIds, Completes, Db.Linked, Db.Log;
  }

  lemma TargetCurrent(l: Db, e: Event, sid: string, cfg: Config, db': Db)
    requires l.Schema() && Placed(l, e, sid, cfg, db')
    requires db'.sessions[sid].agg.completed == Completes(db'.sessions[sid].agg.maxPos, db'.Duration(e.media), cfg)
    ensures sid in db'.sessions && CurrentAt(db', sid, cfg)
  {
    hide Db.Schema, FoldSet, DistinctIds, Completes, Db.Linked, Db.Log, Db.Duration;
  }

  lemma DeletionKeepsCurrent(db: Db, id: string, at: Option<Time>, cfg: Config)
    requires AllCurrent(db, cfg)
    ensures AllCurrent(db.SetDeleted(id, at), cfg)
  {
    SetDeletedDurations(db, id, at);
    SetDeletedRows(db, id, at);
    hide Db.SetDeleted, Completes, Db.Duration;
    forall s | s in db.SetDeleted(id, at).sessions ensures CurrentAt(db.SetDeleted(id, at), s, cfg) {
      assert CurrentAt(db, s, cfg);
    }
  }

  ghost predicate KeepsCurrent(db: Db, step: Step, cfg: Config) {
    step.Deliver? && Parse(step.raw) == Accepted ==> NoneLeftBehind(db, step.raw, step.mint, cfg)
  }

  lemma StepKeepsCurrentIff(db: Db, step: Step, cfg: Config, db': Db)
    requires Synced(db, cfg) && AllCurrent(db, cfg) && cfg.gap >= SECOND && Next(db, step, cfg, db') &&
      InStep(db, step, cfg)
    ensures AllCurrent(db', cfg) <==> KeepsCurrent(db, step, cfg)
  {
    assert Sound(db, cfg) && db.Schema();
    hide Synced, Sound, Db.SetDeleted, Named, Db.Schema, Apply.RebuildsTo, CleanDelivery, FittingDelivery, Whole, Parse,
      EventFor, AllCurrent, NoneLeftBehind;
    match step
    case Deliver(raw, mint) =>
      if Parse(raw) == Accepted {
        hide Delivers;
        DeliveryKeepsCurrentIff(db, raw, cfg, mint, db');
      }
    case Delete(id, now) => DeletionKeepsCurrent(db, id, Some(now), cfg);
    case Restore(id) => DeletionKeepsCurrent(db, id, None, cfg);
    case Replay(ids, now) => ReplaySyncs(db, step, cfg, db');
  }

  lemma {:induction false} CurrentSince(states: seq<Db>, steps: seq<Step>, cfg: Config, m: nat, n: nat)
    requires InStepSince(states, steps, cfg, m, n) && cfg.gap >= SECOND
    requires forall i | m <= i < n :: KeepsCurrent(states[i], steps[i], cfg)
    ensures AllCurrent(states[n], cfg)
    decreases n
  {
    hide Next, InStep, KeepsCurrent, Synced, Named, AllCurrent;
    if n == m {
      SyncedAt(states, steps, cfg, m);
    } else {
      CurrentSince(states, steps, cfg, m, n - 1);
      SyncedSince(states, steps, cfg, m, n - 1);
      StepKeepsCurrentIff(states[n - 1], steps[n - 1], cfg, states[n]);
    }
  }

  /** The anti-divergence guarantee over whole runs: when, since the start or since the last rebuild, every step
      is in step and none leaves a completion behind, a diff against a full reconstruction finds nothing. */
  lemma RunNeverDrifts(states: seq<Db>, steps: seq<Step>, cfg: Config, m: nat, n: nat, stored: seq<Session>,
                       out: seq<Events.Rebuilt>, groups: seq<seq<Event>>)
    requires InStepSince(states, steps, cfg, m, n) && cfg.gap >= SECOND && Reads(states[n], stored)
    requires forall i | m <= i < n :: KeepsCurrent(states[i], steps[i], cfg)
    requires Reconstructs(out, groups, states[n].LiveLog(), states[n].Durations(), cfg)
    ensures !DiffOf(stored, out).HasDrift()
  {
    hide InStepSince, KeepsCurrent, DiffOf, Reconstructs, CurrentAt, Reads;
    CurrentSince(states, steps, cfg, m, n);
    RunRefinesBatch(states, steps, cfg, m, n, stored, out, groups);
  }
}
