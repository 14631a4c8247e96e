/** The steps of the service and what every run of them keeps. */
module Steps {
  import opened Stamps
  import opened Events
  import opened Folding
  import opened Tables
  import opened Sessionize
  import opened Ingest
  import opened Invariants

  // ----- statements that leave session aggregates and links alone -----

  ghost predicate SameLinks(db: Db, db': Db) {
    forall t :: db'.Linked(t) == db.Linked(t)
  }

  ghost predicate SameAggs(db: Db, db': Db) {
    && db'.sessions.Keys == db.sessions.Keys
    && (forall s | s in db.sessions :: db'.sessions[s] == db.sessions[s].(deleted := db'.sessions[s].deleted))
  }

  // Known durations are never overwritten.
  ghost predicate DurationsKept(db: Db, db': Db) {
    forall m | m in db.media ::
      m in db'.media && (db.media[m].duration.Some? ==> db'.media[m].duration == db.media[m].duration)
  }

  // The part of soundness that is about rows and their links.
  ghost predicate RowsSound(db: Db, cfg: Config)
    requires db.Schema()
  {
    RowsKeyed(db) && LinksFit(db) && RowsApart(db, cfg.gap) && LinksBounded(db) && NewestFold(db, cfg)
  }

  lemma CarryRows(db: Db, db': Db, cfg: Config)
    requires db.Schema() && db'.Schema() && RowsSound(db, cfg) && SameLinks(db, db') && SameAggs(db, db') &&
      LinksFit(db')
    ensures RowsSound(db', cfg)
  {
    forall s, t | s in db.sessions && t in db.sessions ensures SameKeyRows(db, s, t) == SameKeyRows(db', s, t) {
    }
    CarryFolds(db, db', cfg);
    hide NewestFold, Db.Schema, Db.Linked;
  }

  lemma CarryFolds(db: Db, db': Db, cfg: Config)
    requires db.Schema() && db'.Schema() && NewestFold(db, cfg) && SameLinks(db, db') && SameAggs(db, db')
    ensures NewestFold(db', cfg)
  {
    hide Db.Schema, Db.Linked, Folds;
    forall s | Newest(db', s) ensures Folds(db', s, cfg) {
      forall t | t in db.sessions && SameKeyRows(db, t, s)
        ensures db.sessions[t].agg.ended <= db.sessions[s].agg.ended
      {
        assert SameKeyRows(db', t, s);
      }
      assert Newest(db, s);
      SameFold(db, db', s, cfg);
    }
  }

  lemma CarryCompletion(db: Db, db': Db, cfg: Config)
    requires CompletionBacked(db, cfg) && SameAggs(db, db') && DurationsKept(db, db')
    ensures CompletionBacked(db', cfg)
  {
    forall s | s in db'.sessions && db'.sessions[s].agg.completed
      ensures Completes(db'.sessions[s].agg.maxPos, db'.Duration(db'.sessions[s].media), cfg)
    {
      assert Completes(db.sessions[s].agg.maxPos, db.Duration(db.sessions[s].media), cfg);
    }
  }

  lemma CarrySound(db: Db, db': Db, cfg: Config)
    requires Sound(db, cfg) && db'.Schema() && SameLinks(db, db') && SameAggs(db, db') && DurationsKept(db, db')
    requires LinksFit(db') && DeletionAgrees(db')
    ensures Sound(db', cfg)
  {
    CarryRows(db, db', cfg);
    CarryCompletion(db, db', cfg);
    hide RowsKeyed, LinksFit, RowsApart, LinksBounded, NewestFold, CompletionBacked, Db.Schema;
  }

  lemma SameEventsSameLinks(db: Db, db': Db)
    requires db'.events == db.events
    ensures SameLinks(db, db') && db'.Log() == db.Log()
  {
  }

  lemma SameRowsLinksFit(db: Db, db': Db)
    requires LinksFit(db) && db'.events == db.events && SameAggs(db, db')
    ensures LinksFit(db')
  {
  }

  lemma FindOrCreateMedia(db: Db, m: MediaItem, newId: string)
    requires newId !in db.media
    ensures var db' := db.FindOrCreate(m, newId);
      && DurationsKept(db, db') && db'.events == db.events && db'.sessions == db.sessions
      && db'.media.Keys == db.media.Keys + {db.ResolvedId(m, newId)}
      && (forall id | id in db.media :: db'.media[id].deleted == db.media[id].deleted)
  {
  }

  lemma FindOrCreateEffect(db: Db, m: MediaItem, newId: string)
    requires db.Schema() && newId !in db.media
    ensures var db' := db.FindOrCreate(m, newId);
      && db'.Schema() && SameLinks(db, db') && SameAggs(db, db') && DurationsKept(db, db')
      && db'.events == db.events && db'.sessions == db.sessions
      && (forall id | id in db.media :: db'.media[id].deleted == db.media[id].deleted)
  {
    FindOrCreateSchema(db, m, newId);
    FindOrCreateMedia(db, m, newId);
    hide Db.Schema, Db.FindOrCreate;
    SameEventsSameLinks(db, db.FindOrCreate(m, newId));
  }

  lemma FindOrCreateKeepsSound(db: Db, m: MediaItem, newId: string, cfg: Config)
    requires Sound(db, cfg) && newId !in db.media
    ensures Sound(db.FindOrCreate(m, newId), cfg)
  {
    FindOrCreateEffect(db, m, newId);
    hide Db.FindOrCreate, RowsApart, LinksBounded, NewestFold, CompletionBacked, SameAggs, SameLinks;
    CarrySound(db, db.FindOrCreate(m, newId), cfg);
  }

  lemma SetDeletedRows(db: Db, id: string, at: Option<Time>)
    ensures var db' := db.SetDeleted(id, at);
      && SameAggs(db, db') && DurationsKept(db, db') && db'.events == db.events && db'.media.Keys == db.media.Keys
      && (id in db.media ==> (db'.media[id].deleted.Some? <==> at.Some?))
      && (forall m | m in db.media && m != id :: db'.media[m] == db.media[m])
  {
  }

  lemma SetDeletedAgrees(db: Db, id: string, at: Option<Time>)
    requires DeletionAgrees(db)
    ensures DeletionAgrees(db.SetDeleted(id, at))
  {
  }

  lemma SetDeletedEffect(db: Db, id: string, at: Option<Time>)
    requires db.Schema() && LinksFit(db) && DeletionAgrees(db)
    ensures var db' := db.SetDeleted(id, at);
      && db'.Schema() && SameLinks(db, db') && SameAggs(db, db') && DurationsKept(db, db')
      && DeletionAgrees(db') && LinksFit(db')
  {
    SetDeletedSchema(db, id, at);
    SetDeletedAgrees(db, id, at);
    SetDeletedRows(db, id, at);
    hide Db.SetDeleted, Db.Schema, DeletionAgrees, LinksFit, SameAggs, DurationsKept;
    SameEventsSameLinks(db, db.SetDeleted(id, at));
    SameRowsLinksFit(db, db.SetDeleted(id, at));
  }

  lemma SetDeletedKeepsSound(db: Db, id: string, at: Option<Time>, cfg: Config)
    requires Sound(db, cfg)
    ensures Sound(db.SetDeleted(id, at), cfg)
  {
    SetDeletedEffect(db, id, at);
    hide Db.SetDeleted, RowsApart, LinksBounded, NewestFold, CompletionBacked, SameAggs, SameLinks, LinksFit;
    CarrySound(db, db.SetDeleted(id, at), cfg);
  }

  lemma InsertKeepsLinks(db: Db, e: Event)
    requires db.Schema()
    ensures SameLinks(db, db.Insert(e))
    ensures db.Insert(e).Log() == if e.id in db.events then db.Log() else db.Log() + {e}
  {
    hide Db.Schema;
    var db' := db.Insert(e);
    forall t, x ensures x in db'.Linked(t) <==> x in db.Linked(t) {
      if x in db.Linked(t) {
        var id :| id in db.events && db.events[id] == EventRow(x, Some(t));
        assert id in db'.events && db'.events[id] == db.events[id];
      }
    }
    forall x ensures x in db'.Log() <==> x in (if e.id in db.events then db.Log() else db.Log() + {e}) {
      if x in db.Log() {
        var id :| id in db.events && db.events[id].event == x;
        assert id in db'.events && db'.events[id] == db.events[id];
      }
      assert db'.events[e.id].event in db'.Log();
    }
  }

  lemma InsertEffect(db: Db, e: Event)
    requires db.Schema() && e.media in db.media && LinksFit(db)
    ensures var db' := db.Insert(e);
      db'.Schema() && SameLinks(db, db') && SameAggs(db, db') && DurationsKept(db, db') && LinksFit(db')
  {
    InsertSchema(db, e);
    InsertKeepsLinks(db, e);
    hide Db.Schema, SameLinks, Db.Linked;
  }

  lemma InsertKeepsSound(db: Db, e: Event, cfg: Config)
    requires Sound(db, cfg) && e.media in db.media
    ensures Sound(db.Insert(e), cfg)
  {
    InsertEffect(db, e);
    hide Db.Insert, RowsApart, LinksBounded, NewestFold, CompletionBacked, SameAggs, SameLinks, LinksFit;
    CarrySound(db, db.Insert(e), cfg);
  }

  // ----- one delivery -----

  // Redelivery repeats the same event: an id stands for one media item, instance, time, type and position.
  ghost predicate Repeats(db: Db, e: Event) {
    e.id in db.events ==> db.events[e.id].event == e
  }

  ghost predicate Unused(db: Db, mint: Mint) {
    mint.mediaId !in db.media && Fresh(db, mint.sessionId)
  }

  // The step: a raw event that parses is processed with unused ids.
  ghost predicate Delivers(db: Db, raw: Incoming, cfg: Config, mint: Mint, db': Db) {
    && db.Schema() && Unused(db, mint) && Processed(db, raw, cfg, mint, db')
    && (Parse(raw) == Accepted ==> Repeats(db, EventFor(db, raw, mint)))
  }

  lemma LoggedArrives(db: Db, raw: Incoming, mint: Mint)
    requires db.Schema() && Unused(db, mint) && Parse(raw) == Accepted && Repeats(db, EventFor(db, raw, mint))
    ensures var l := Logged(db, raw, mint);
      && l.Schema() && Arrived(l, EventFor(db, raw, mint)) && Fresh(l, mint.sessionId)
  {
    var m := ToMediaItem(raw);
    var id := db.ResolvedId(m, mint.mediaId);
    var a := db.FindOrCreate(m, mint.mediaId);
    FindOrCreateSchema(db, m, mint.mediaId);
    FindOrCreateMedia(db, m, mint.mediaId);
    SetDeletedSchema(a, id, None);
    SetDeletedRows(a, id, None);
    InsertSchema(a.SetDeleted(id, None), ToEvent(raw, id));
    hide Db.Schema, Db.FindOrCreate, Db.SetDeleted, Db.ResolvedId, Parse, DurationsKept, ToMediaItem;
    InsertArrives(db, a.SetDeleted(id, None), ToEvent(raw, id), mint.sessionId);
  }

  lemma InsertArrives(db: Db, b: Db, e: Event, newId: string)
    requires b.events == db.events && b.sessions.Keys == db.sessions.Keys && b.Live(e.media)
    requires Repeats(db, e) && Fresh(db, newId)
    ensures Arrived(b.Insert(e), e) && Fresh(b.Insert(e), newId)
  {
  }

  lemma LoggedSound(db: Db, raw: Incoming, cfg: Config, mint: Mint)
    requires Sound(db, cfg) && Unused(db, mint) && Parse(raw) == Accepted
    ensures Sound(Logged(db, raw, mint), cfg)
  {
    var m := ToMediaItem(raw);
    var id := db.ResolvedId(m, mint.mediaId);
    var a := db.FindOrCreate(m, mint.mediaId);
    FindOrCreateSchema(db, m, mint.mediaId);
    FindOrCreateKeepsSound(db, m, mint.mediaId, cfg);
    hide Db.Schema, Db.FindOrCreate, Db.SetDeleted, Sound, Db.ResolvedId, Parse;
    SetDeletedKeepsSound(a, id, None, cfg);
    assert a.SetDeleted(id, None).media.Keys == a.media.Keys by { SetDeletedRows(a, id, None); }
    InsertKeepsSound(a.SetDeleted(id, None), ToEvent(raw, id), cfg);
  }

  lemma SoundSchema(db: Db, cfg: Config)
    requires Sound(db, cfg)
    ensures db.Schema()
  {
  }

  lemma LatestStored(db: Db, latest: Option<string>, k: Key)
    requires db.IsLatest(latest, k)
    ensures latest.Some? ==> latest.value in db.sessions
  {
  }

  /** Where a delivered event ends up: in the session that really ends last on its key, or in a new one. */
  lemma DeliveryPlaces(db: Db, raw: Incoming, cfg: Config, mint: Mint, db': Db)
    returns (latest: Option<string>, sid: string)
    requires Sound(db, cfg) && cfg.gap >= SECOND && Parse(raw) == Accepted && Delivers(db, raw, cfg, mint, db')
    ensures var l, e := Logged(db, raw, mint), EventFor(db, raw, mint);
      && Sound(l, cfg) && Arrived(l, e) && l.IsLatest(latest, e.KeyOf()) && Placed(l, e, sid, cfg, db')
      && (if sid in l.sessions then latest == Some(sid) && Joins(l, e, sid, cfg.gap) else Starts(l, e, sid, cfg.gap))
  {
    hide Db.Schema, Logged, EventFor, Parse, AssignWith, Joins, Starts, Placed, Arrived, Repeats, Sound, Target,
      Db.IsLatest, Db.Log, Db.Linked, FoldSet, DistinctIds, StrLess;
    assert db.Schema() by { SoundSchema(db, cfg); }
    var l, e := Logged(db, raw, mint), EventFor(db, raw, mint);
    LoggedArrives(db, raw, mint);
    LoggedSound(db, raw, cfg, mint);
    assert l.Schema() by { SoundSchema(l, cfg); }
    latest :| l.IsLatest(latest, e.KeyOf()) && db' == AssignWith(l, e, latest, cfg, mint.sessionId, mint.now);
    LatestStored(l, latest, e.KeyOf());
    sid := Target(l, e, latest, cfg.gap, mint.sessionId);
    AssignPlaces(l, e, latest, cfg, mint.sessionId, mint.now);
    TargetJoinsOrStarts(l, e, latest, cfg, mint.sessionId);
  }

  // Where a delivered event ends up, whatever the tables hold: in a session with an instance.
  lemma DeliveryShape(db: Db, raw: Incoming, cfg: Config, mint: Mint, db': Db) returns (sid: string)
    requires Delivers(db, raw, cfg, mint, db') && Parse(raw) == Accepted
    ensures var l, e := Logged(db, raw, mint), EventFor(db, raw, mint);
      l.Schema() && Arrived(l, e) && Placed(l, e, sid, cfg, db') && (sid in l.sessions ==> l.OnKey(sid, e.KeyOf()))
  {
    hide Db.Schema, Logged, EventFor, Parse, AssignWith, Placed, Arrived, Repeats, Db.Log, Db.Linked, FoldSet;
    var l, e := Logged(db, raw, mint), EventFor(db, raw, mint);
    LoggedArrives(db, raw, mint);
    var latest: Option<string> :| l.IsLatest(latest, e.KeyOf()) &&
      db' == AssignWith(l, e, latest, cfg, mint.sessionId, mint.now);
    sid := Target(l, e, latest, cfg.gap, mint.sessionId);
    AssignPlaces(l, e, latest, cfg, mint.sessionId, mint.now);
  }

  lemma DeliveryKeepsSound(db: Db, raw: Incoming, cfg: Config, mint: Mint, db': Db)
    requires Sound(db, cfg) && cfg.gap >= SECOND && Delivers(db, raw, cfg, mint, db')
    ensures Sound(db', cfg)
  {
    if Parse(raw) == Accepted {
      var latest, sid := DeliveryPlaces(db, raw, cfg, mint, db');
      hide Db.Schema, Logged, EventFor, Parse, Joins, Starts, Placed, Arrived, Sound, Processed;
      AssignKeepsSound(Logged(db, raw, mint), EventFor(db, raw, mint), sid, cfg, db');
    }
  }

  // ----- sessions only grow -----

  predicate AggGrew(a: Agg, b: Agg) {
    && b.started <= a.started && a.ended <= b.ended && a.maxPos <= b.maxPos && a.count <= b.count
    && (a.completed ==> b.completed)
  }

  predicate Grew(r: SessionRow, r': SessionRow) {
    r'.media == r.media && r'.instance == r.instance && r'.created == r.created && AggGrew(r.agg, r'.agg)
  }

  ghost predicate AllGrew(db: Db, db': Db) {
    forall s | s in db.sessions :: s in db'.sessions && Grew(db.sessions[s], db'.sessions[s])
  }

  lemma AggGrows(L: set<Event>, e: Event, done: bool, duration: Option<int>, cfg: Config)
    requires DistinctIds(L + {e}) && L != {}
    requires done ==> Completes(Core(L, cfg).maxPos, duration, cfg)
    ensures AggGrew(Core(L, cfg).(completed := done), FoldSet(L + {e}, duration, cfg))
  {
    FoldGrows(L, e, None, duration, cfg);
    FoldIsCore(L + {e}, duration, cfg);
    hide FoldSet, DistinctIds;
    if done {
      CompletesMonotone(Core(L, cfg).maxPos, FoldSet(L + {e}, duration, cfg).maxPos, duration, cfg);
    }
  }

  lemma JoinedGrows(l: Db, e: Event, sid: string, cfg: Config, db': Db)
    requires l.Schema() && sid in l.sessions && Folds(l, sid, cfg) && CompletionBacked(l, cfg)
    requires RowPlaced(l, e, sid, cfg, db') && l.OnKey(sid, e.KeyOf())
    ensures Grew(l.sessions[sid], db'.sessions[sid])
  {
    LinkedIds(l, sid);
    hide FoldSet, Db.Schema, Completes, DistinctIds, Db.Linked;
    AggGrows(l.Linked(sid), e, l.sessions[sid].agg.completed, l.Duration(e.media), cfg);
  }

  lemma PlacedGrows(db: Db, l: Db, e: Event, sid: string, cfg: Config, db': Db)
    requires SameAggs(db, l) && l.Schema() && RowPlaced(l, e, sid, cfg, db')
    requires sid in l.sessions ==> Grew(l.sessions[sid], db'.sessions[sid])
    ensures AllGrew(db, db')
  {
    hide FoldSet, Db.Schema, DistinctIds, Db.Linked;
  }

  /** Every delivery: no session is lost, none shrinks, its creation time stays, and completion is final. */
  lemma DeliveryGrows(db: Db, raw: Incoming, cfg: Config, mint: Mint, db': Db)
    requires Sound(db, cfg) && cfg.gap >= SECOND && Delivers(db, raw, cfg, mint, db')
    ensures AllGrew(db, db')
  {
    if Parse(raw) == Accepted {
      var latest, sid := DeliveryPlaces(db, raw, cfg, mint, db');
      LoggedAggs(db, raw, mint);
      hide Db.Schema, Parse, Logged, EventFor, Processed, RowPlaced, LinksMoved, Folds, CompletionBacked,
        LinksFit, RowsApart, LinksBounded, DeletionAgrees, Db.OnKey;
      var l, e := Logged(db, raw, mint), EventFor(db, raw, mint);
      if sid in l.sessions {
        JoinedGrows(l, e, sid, cfg, db');
      }
      PlacedGrows(db, l, e, sid, cfg, db');
    }
  }

  lemma LoggedAggs(db: Db, raw: Incoming, mint: Mint)
    requires db.Schema() && Unused(db, mint) && Parse(raw) == Accepted
    ensures var l := Logged(db, raw, mint); SameAggs(db, l) && SameLinks(db, l) && DurationsKept(db, l)
    ensures var l, e := Logged(db, raw, mint), EventFor(db, raw, mint);
      l.Log() == if e.id in db.events then db.Log() else db.Log() + {e}
  {
    var m := ToMediaItem(raw);
    var id := db.ResolvedId(m, mint.mediaId);
    var a := db.FindOrCreate(m, mint.mediaId);
    var b := a.SetDeleted(id, None);
    FindOrCreateEffect(db, m, mint.mediaId);
    FindOrCreateSchema(db, m, mint.mediaId);
    SetDeletedSchema(a, id, None);
    SetDeletedRows(a, id, None);
    InsertKeepsLinks(b, ToEvent(raw, id));
    hide Db.Schema, Db.FindOrCreate, Db.SetDeleted, Db.ResolvedId, Parse, Db.Linked, Db.Log;
    SameEventsSameLinks(db, a);
    SameEventsSameLinks(a, b);
  }
}
