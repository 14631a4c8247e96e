/** Redelivery: when it changes nothing, what it can change, and why the log holds each event once. */
module Retries {
  import opened Stamps
  import opened Events
  import opened Folding
  import opened Tables
  import opened Sessionize
  import opened Ingest
  import opened Invariants
  import opened Steps
  import opened Live
  import opened Inert

  // The row says the same, up to bookkeeping and a completion judged again.
  predicate Untouched(r: SessionRow, r': SessionRow) {
    && r'.media == r.media && r'.instance == r.instance && r'.created == r.created
    && r'.agg == r.agg.(completed := r'.agg.completed)
  }

  ghost predicate NothingMoved(db: Db, db': Db) {
    && db'.events == db.events && db'.sessions.Keys == db.sessions.Keys
    && (forall s | s in db.sessions :: Untouched(db.sessions[s], db'.sessions[s]))
  }

  lemma RefoldSame(L: set<Event>, e: Event, duration: Option<int>, cfg: Config)
    requires DistinctIds(L) && e in L
    ensures var a := FoldSet(L + {e}, duration, cfg); a == Core(L, cfg).(completed := a.completed)
  {
    assert L + {e} == L;
    FoldIsCore(L, duration, cfg);
  }

  lemma RejoinUntouched(l: Db, e: Event, sid: string, cfg: Config, db': Db)
    requires l.Schema() && sid in l.sessions && Folds(l, sid, cfg) && l.OnKey(sid, e.KeyOf())
    requires RowPlaced(l, e, sid, cfg, db') && e in l.Linked(sid)
    ensures Untouched(l.sessions[sid], db'.sessions[sid])
  {
    LinkedIds(l, sid);
    RefoldSame(l.Linked(sid), e, l.Duration(e.media), cfg);
    hide FoldSet, Completes, Db.Linked, Db.Schema, DistinctIds, Core;
  }

  lemma JoinedFolds(l: Db, e: Event, sid: string, cfg: Config)
    requires Sound(l, cfg) && Joins(l, e, sid, cfg.gap)
    ensures l.Schema() && sid in l.sessions && Folds(l, sid, cfg) && l.OnKey(sid, e.KeyOf())
  {
  }

  lemma RelinkSame(l: Db, e: Event, sid: string)
    requires e.id in l.events && l.events[e.id] == EventRow(e, Some(sid))
    ensures l.Link(e.id, sid).events == l.events && e in l.Linked(sid)
  {
  }

  lemma RejoinMovesNothing(db: Db, l: Db, e: Event, sid: string, cfg: Config, db': Db)
    requires Sound(l, cfg) && Placed(l, e, sid, cfg, db') && Joins(l, e, sid, cfg.gap)
    requires SameAggs(db, l) && l.events == db.events
    requires e.id in l.events && l.events[e.id] == EventRow(e, Some(sid))
    ensures NothingMoved(db, db')
  {
    hide FoldSet, Db.Linked, Db.Schema, Sound, Joins, RowPlaced, Folds, Untouched, Db.Link, SameAggs, Db.OnKey, Db.Log;
    JoinedFolds(l, e, sid, cfg);
    RelinkSame(l, e, sid);
    RejoinUntouched(l, e, sid, cfg, db');
    RowsUntouched(db, l, e, sid, cfg, db');
  }

  lemma RowsUntouched(db: Db, l: Db, e: Event, sid: string, cfg: Config, db': Db)
    requires SameAggs(db, l) && sid in l.sessions && l.Schema() && RowPlaced(l, e, sid, cfg, db')
    requires Untouched(l.sessions[sid], db'.sessions[sid])
    ensures db'.sessions.Keys == db.sessions.Keys
    ensures forall s | s in db.sessions :: Untouched(db.sessions[s], db'.sessions[s])
  {
    hide FoldSet, Db.Linked, Db.Schema, DistinctIds, Db.OnKey;
  }

  lemma NewestBack(db: Db, l: Db, s: string)
    requires SameAggs(db, l) && Newest(l, s)
    ensures Newest(db, s)
  {
    forall t | t in db.sessions && SameKeyRows(db, t, s) ensures db.sessions[t].agg.ended <= db.sessions[s].agg.ended {
      assert SameKeyRows(l, t, s);
    }
  }

  // Without rows that lack an instance: a repeat stays where it is if and only if its session is the newest.
  lemma KeyedRetryStaysIff(db: Db, raw: Incoming, cfg: Config, mint: Mint, db': Db)
    requires Sound(db, cfg) && cfg.gap >= SECOND && Parse(raw) == Accepted && Delivers(db, raw, cfg, mint, db')
    requires EventFor(db, raw, mint).id in db.events && db.events[EventFor(db, raw, mint).id].session.Some?
    ensures NothingMoved(db, db') <==> Newest(db, db.events[EventFor(db, raw, mint).id].session.value)
    ensures var id := EventFor(db, raw, mint).id;
      id in db'.events && db'.events[id].session.Some? && Newest(db, db'.events[id].session.value)
  {
    var latest, sid := DeliveryPlaces(db, raw, cfg, mint, db');
    var l, e := Logged(db, raw, mint), EventFor(db, raw, mint);
    LoggedPrepared(db, raw, mint);
    var s := db.events[e.id].session.value;
    hide Sound, Parse, Logged, EventFor, Processed, RowPlaced, Db.Schema, Joins, Starts, NothingMoved, Newest, SameAggs,
      SameLinks, Db.Log, Db.Linked, Untouched;
    RetryJoins(l, e, s, sid, cfg);
    assert Newest(db, sid) by { JoinsNewest(l, e, sid, cfg.gap); NewestBack(db, l, sid); }
    if Newest(db, s) {
      SameRowsNewest(db, l, s);
      RetryTarget(l, e, s, sid, cfg);
      RejoinMovesNothing(db, l, e, sid, cfg, db');
    }
    if NothingMoved(db, db') {
      MovedNothing(db, db');
    }
  }

  lemma MovedNothing(db: Db, db': Db)
    ensures NothingMoved(db, db') ==> db'.events == db.events
  {
  }

  lemma JoinsNewest(l: Db, e: Event, sid: string, gap: int)
    requires Joins(l, e, sid, gap)
    ensures Newest(l, sid)
  {
  }

  // A linked event never starts a session: its own session ended no earlier.
  lemma RetryJoins(l: Db, e: Event, s: string, sid: string, cfg: Config)
    requires Sound(l, cfg) && cfg.gap >= 0 && Arrived(l, e) && l.events[e.id].session == Some(s)
    requires Joins(l, e, sid, cfg.gap) || Starts(l, e, sid, cfg.gap)
    ensures Joins(l, e, sid, cfg.gap)
  {
    hide NewestFold, CompletionBacked, RowsApart, DeletionAgrees, RowsKeyed, Db.Schema;
    assert e in l.Linked(s) && l.OnKey(s, e.KeyOf());
  }

  lemma RetryTarget(l: Db, e: Event, s: string, sid: string, cfg: Config)
    requires Sound(l, cfg) && cfg.gap >= 0 && Arrived(l, e) && l.events[e.id].session == Some(s) && Newest(l, s)
    requires Joins(l, e, sid, cfg.gap)
    ensures sid == s
  {
    NewestIsTarget(l, e, s, sid, cfg.gap);
  }

  // ----- when all tables stay as they are -----

  predicate SameRow(r: SessionRow, r': SessionRow) {
    r' == r.(updated := r'.updated)
  }

  // Nothing differs but the times at which rows were last written.
  ghost predicate SameTables(db: Db, db': Db) {
    && db'.media == db.media && db'.events == db.events && db'.sessions.Keys == db.sessions.Keys
    && (forall s | s in db.sessions :: SameRow(db.sessions[s], db'.sessions[s]))
  }

  // The item is visible, and the message brings no title, language, URL or duration it does not have already.
  ghost predicate KnowsItem(db: Db, m: string, item: MediaItem) {
    db.Live(m) && Enrich(db.media[m], item) == db.media[m]
  }

  // The event is in the newest session on its key, which has its kind and the completion its duration gives.
  ghost predicate HoldsEvent(db: Db, e: Event, cfg: Config) {
    && e.id in db.events && db.events[e.id].session.Some? && Newest(db, db.events[e.id].session.value)
    && var row := db.sessions[db.events[e.id].session.value];
      row.kind == e.kind && row.agg.completed == Completes(row.agg.maxPos, db.Duration(e.media), cfg)
  }

  lemma RestoredMedia(a: Db, m: string)
    requires m in a.media
    ensures a.SetDeleted(m, None).media == a.media[m := a.media[m].(deleted := None)]
    ensures a.SetDeleted(m, None).events == a.events
    ensures a.Live(m) ==> a.SetDeleted(m, None) == a
  {
  }

  lemma EnrichedRestored(row: MediaRow, m: MediaItem)
    ensures Enrich(row, m).(deleted := None) == row <==> row.deleted.None? && Enrich(row, m) == row
  {
  }

  lemma RepeatedItem(db: Db, m: MediaItem, newId: string)
    requires db.Schema() && newId !in db.media && db.ResolvedId(m, newId) in db.media
    ensures var id := db.ResolvedId(m, newId);
      db.FindOrCreate(m, newId) == db.(media := db.media[id := Enrich(db.media[id], m)])
  {
  }

  // Before its assignment a repeat changes nothing exactly when it brings nothing new of its item.
  lemma RepeatPrepares(db: Db, raw: Incoming, mint: Mint)
    requires db.Schema() && Unused(db, mint) && Parse(raw) == Accepted && Repeats(db, EventFor(db, raw, mint))
    requires EventFor(db, raw, mint).id in db.events
    ensures var l, e := Logged(db, raw, mint), EventFor(db, raw, mint);
      && (l.media == db.media <==> KnowsItem(db, e.media, ToMediaItem(raw)))
      && (KnowsItem(db, e.media, ToMediaItem(raw)) ==> l == db)
  {
    var m, e := ToMediaItem(raw), EventFor(db, raw, mint);
    var id := e.media;
    assert id in db.media && id == db.ResolvedId(m, mint.mediaId);
    var a := db.FindOrCreate(m, mint.mediaId);
    hide Db.SetDeleted, Db.ResolvedId, Parse, ToMediaItem, Db.FindOrCreate;
    RepeatedItem(db, m, mint.mediaId);
    hide Db.Schema, Enrich;
    RestoredMedia(a, id);
    EnrichedRestored(db.media[id], m);
    assert Logged(db, raw, mint) == a.SetDeleted(id, None);
    assert a.media[id] == Enrich(db.media[id], m);
    if KnowsItem(db, id, m) {
      assert db.media[id := db.media[id]] == db.media;
      assert a == db;
    }
  }

  lemma SameRowIff(r: SessionRow, r': SessionRow, kind: string, core: Agg, duration: Option<int>, cfg: Config)
    requires r'.media == r.media && r'.instance == r.instance && r'.created == r.created && r'.deleted == r.deleted
    requires r'.kind == kind && r.agg == core.(completed := r.agg.completed)
    requires r'.agg == core.(completed := Completes(core.maxPos, duration, cfg))
    ensures SameRow(r, r') <==> r.kind == kind && r.agg.completed == Completes(r.agg.maxPos, duration, cfg)
  {
    hide Completes;
  }

  // Folding the newest session again gives the same row exactly when kind and completion are as they would be.
  lemma RefoldedRowIff(l: Db, e: Event, s: string, cfg: Config, db': Db)
    requires l.Schema() && s in l.sessions && Folds(l, s, cfg) && l.OnKey(s, e.KeyOf()) && e in l.Linked(s)
    requires RowPlaced(l, e, s, cfg, db')
    ensures var row := l.sessions[s];
      SameRow(row, db'.sessions[s]) <==>
        row.kind == e.kind && row.agg.completed == Completes(row.agg.maxPos, l.Duration(e.media), cfg)
  {
    hide FoldSet, Completes, Db.Linked, Db.Schema, DistinctIds, Core, SameRow;
    LinkedIds(l, s);
    assert l.Linked(s) + {e} == l.Linked(s);
    FoldIsCore(l.Linked(s), l.Duration(e.media), cfg);
    SameRowIff(l.sessions[s], db'.sessions[s], e.kind, Core(l.Linked(s), cfg), l.Duration(e.media), cfg);
  }

  lemma RejoinedTables(l: Db, e: Event, s: string, cfg: Config, db': Db)
    requires l.Schema() && Placed(l, e, s, cfg, db') && s in l.sessions
    requires e.id in l.events && l.events[e.id] == EventRow(e, Some(s))
    ensures SameTables(l, db') <==> SameRow(l.sessions[s], db'.sessions[s])
  {
    hide FoldSet, Db.Linked, Db.Schema, DistinctIds, Db.Log, Db.OnKey;
  }

  lemma HeldIsRefolded(l: Db, e: Event, sid: string, cfg: Config, db': Db)
    requires Sound(l, cfg) && cfg.gap >= 0 && Arrived(l, e) && Placed(l, e, sid, cfg, db')
    requires (Joins(l, e, sid, cfg.gap) || Starts(l, e, sid, cfg.gap)) && l.events[e.id].session == Some(sid)
    ensures sid in l.sessions && Newest(l, sid)
    ensures SameTables(l, db') <==> HoldsEvent(l, e, cfg)
  {
    hide FoldSet, Completes, Db.Linked, Db.Schema, Sound, Joins, Starts, RowPlaced, LinksMoved, Folds, Newest, SameRow,
      SameTables, Db.OnKey;
    RetryJoins(l, e, sid, sid, cfg);
    JoinsNewest(l, e, sid, cfg.gap);
    JoinedFolds(l, e, sid, cfg);
    RelinkSame(l, e, sid);
    RejoinedTables(l, e, sid, cfg, db');
    RefoldedRowIff(l, e, sid, cfg, db');
  }

  lemma LinkedThere(l: Db, e: Event, sid: string, db': Db)
    requires Arrived(l, e) && LinksMoved(l, e, sid, db') && db'.events == l.events
    ensures l.events[e.id].session == Some(sid)
  {
    hide Db.Linked, Db.Log, Db.Schema;
  }

  lemma RetryInPlaceIff(l: Db, e: Event, sid: string, cfg: Config, db': Db)
    requires Sound(l, cfg) && cfg.gap >= 0 && Arrived(l, e) && Placed(l, e, sid, cfg, db')
    requires Joins(l, e, sid, cfg.gap) || Starts(l, e, sid, cfg.gap)
    ensures SameTables(l, db') <==> HoldsEvent(l, e, cfg)
  {
    hide Completes, Db.Linked, Db.Schema, Sound, Joins, Starts, RowPlaced, LinksMoved, Newest, SameRow;
    if HoldsEvent(l, e, cfg) {
      var s := l.events[e.id].session.value;
      RetryJoins(l, e, s, sid, cfg);
      RetryTarget(l, e, s, sid, cfg);
      HeldIsRefolded(l, e, sid, cfg, db');
    } else if SameTables(l, db') {
      LinkedThere(l, e, sid, db');
      HeldIsRefolded(l, e, sid, cfg, db');
    }
  }

  // Without rows that lack an instance: when a repeat is a no-op on all the tables.
  lemma KeyedRetryIsNoOpIff(db: Db, raw: Incoming, cfg: Config, mint: Mint, db': Db)
    requires Sound(db, cfg) && cfg.gap >= SECOND && Parse(raw) == Accepted && Delivers(db, raw, cfg, mint, db')
    requires EventFor(db, raw, mint).id in db.events
    ensures var e := EventFor(db, raw, mint);
      SameTables(db, db') <==> KnowsItem(db, e.media, ToMediaItem(raw)) && HoldsEvent(db, e, cfg)
  {
    var latest, sid := DeliveryPlaces(db, raw, cfg, mint, db');
    var l, e := Logged(db, raw, mint), EventFor(db, raw, mint);
    assert db.Schema() by { SoundSchema(db, cfg); }
    RepeatPrepares(db, raw, mint);
    assert db'.media == l.media;
    hide Sound, Parse, Logged, EventFor, Processed, RowPlaced, LinksMoved, Db.Schema, Joins, Starts, KnowsItem,
      HoldsEvent, ToMediaItem;
    if KnowsItem(db, e.media, ToMediaItem(raw)) {
      hide SameTables;
      RetryInPlaceIff(db, e, sid, cfg, db');
    }
  }

  lemma KeyedOnlyTheNewestChanges(db: Db, raw: Incoming, cfg: Config, mint: Mint, db': Db, s: string)
    requires Sound(db, cfg) && cfg.gap >= SECOND && Delivers(db, raw, cfg, mint, db') && s in db.sessions
    ensures s in db'.sessions
    ensures Newest(db, s) || db'.sessions[s] == db.sessions[s].(deleted := db'.sessions[s].deleted)
  {
    if Parse(raw) == Accepted {
      var latest, sid := DeliveryPlaces(db, raw, cfg, mint, db');
      var l, e := Logged(db, raw, mint), EventFor(db, raw, mint);
      LoggedAggs(db, raw, mint);
      hide Sound, Parse, Logged, EventFor, Processed, LinksMoved, Db.Schema, Newest, SameLinks, Db.Log, Db.Linked,
        FoldSet, DistinctIds;
      if s == sid {
        NewestBack(db, l, sid);
      }
    }
  }

  // ----- in every state a run can reach -----

  // A NULL instance equals nothing: only a row that has one is ever found again.
  predicate Findable(db: Db, id: string) {
    && id in db.events && db.events[id].session.Some? && db.events[id].session.value in db.sessions
    && db.sessions[db.events[id].session.value].instance.Some?
  }

  // What a repeat does: it is linked to a session with an instance, and no other row changes but in its deletion.
  ghost predicate Relinks(db: Db, e: Event, sid: string, db': Db) {
    && e.id in db.events && db'.events == db.events[e.id := db.events[e.id].(session := Some(sid))]
    && db'.sessions.Keys == db.sessions.Keys + {sid} && db'.sessions[sid].instance.Some?
    && (sid in db.sessions ==> db.sessions[sid].instance.Some?)
    && (forall s | s in db.sessions && s != sid ::
      db'.sessions[s] == db.sessions[s].(deleted := db'.sessions[s].deleted))
  }

  lemma PlacedRelinks(db: Db, l: Db, e: Event, sid: string, cfg: Config, db': Db)
    requires l.Schema() && SameAggs(db, l) && l.events == db.events && e.id in db.events
    requires Placed(l, e, sid, cfg, db') && (sid in l.sessions ==> l.OnKey(sid, e.KeyOf()))
    ensures Relinks(db, e, sid, db')
  {
    hide FoldSet, DistinctIds, Db.Linked, Db.Log, Db.Schema;
  }

  lemma RepeatRelinks(db: Db, raw: Incoming, cfg: Config, mint: Mint, db': Db) returns (sid: string)
    requires Delivers(db, raw, cfg, mint, db') && Parse(raw) == Accepted && EventFor(db, raw, mint).id in db.events
    ensures var e := EventFor(db, raw, mint);
      && Relinks(db, e, sid, db') && db'.media == Logged(db, raw, mint).media
      && (Logged(db, raw, mint) == db ==> forall s | s in db.sessions && s != sid :: db'.sessions[s] == db.sessions[s])
  {
    sid := DeliveryShape(db, raw, cfg, mint, db');
    var l, e := Logged(db, raw, mint), EventFor(db, raw, mint);
    LoggedPrepared(db, raw, mint);
    PlacedRelinks(db, l, e, sid, cfg, db');
    hide Parse, Logged, EventFor, Processed, Relinks, FoldSet, DistinctIds, Db.Linked, Db.Log, Db.Schema, SameAggs,
      SameLinks, Arrived;
  }

  // The link is the same before and after exactly when it is without the rows that lack an instance.
  lemma RelinkedSame(db: Db, e: Event, sid: string, db': Db)
    requires Relinks(db, e, sid, db') && Keyed(db').events == Keyed(db).events
    ensures db'.events == db.events
  {
    assert Keyed(db').events[e.id].session == Some(sid);
    assert Keyed(db).events[e.id].session == db.events[e.id].session;
  }

  lemma KeyedKeys(db: Db, e: Event, sid: string, db': Db)
    requires Relinks(db, e, sid, db')
    ensures Keyed(db').sessions.Keys == Keyed(db).sessions.Keys <==> db'.sessions.Keys == db.sessions.Keys
  {
    assert sid in Keyed(db').sessions;
    assert sid in db.sessions ==> sid in Keyed(db).sessions;
  }

  lemma NothingMovedKeyed(db: Db, e: Event, sid: string, db': Db)
    requires Relinks(db, e, sid, db')
    ensures NothingMoved(db, db') <==> NothingMoved(Keyed(db), Keyed(db'))
  {
    KeyedKeys(db, e, sid, db');
    if NothingMoved(db, db') {
      SameNulls(db, db');
    }
    if NothingMoved(Keyed(db), Keyed(db')) {
      RelinkedSame(db, e, sid, db');
      forall s | s in db.sessions ensures Untouched(db.sessions[s], db'.sessions[s]) {
        if s == sid {
          assert s in Keyed(db).sessions;
        }
      }
    }
  }

  lemma SameTablesKeyed(db: Db, e: Event, sid: string, db': Db)
    requires Relinks(db, e, sid, db') && forall s | s in db.sessions && s != sid :: db'.sessions[s] == db.sessions[s]
    ensures SameTables(db, db') <==> SameTables(Keyed(db), Keyed(db'))
  {
    KeyedKeys(db, e, sid, db');
    if SameTables(db, db') {
      SameNulls(db, db');
    }
    if SameTables(Keyed(db), Keyed(db')) {
      RelinkedSame(db, e, sid, db');
      forall s | s in db.sessions ensures SameRow(db.sessions[s], db'.sessions[s]) {
        if s == sid {
          assert s in Keyed(db).sessions;
        }
      }
    }
  }

  // A repeat whose event is in no row that is found moves.
  lemma UnfoundMoves(db: Db, e: Event, sid: string, db': Db, cfg: Config)
    requires Sound(Keyed(db), cfg) && Relinks(db, e, sid, db') && !Findable(db, e.id)
    ensures db'.events != db.events
  {
    hide Sound;
    if db'.events == db.events {
      LinkedRowThere(db, e.id, cfg);
    }
  }

  /** Delivering an event again moves no link, and changes no row but in completion, kind and stamps, if and only if
      its session has an instance and is still the newest on its key. An event in a session with an instance always
      ends up in the newest one; from a row without one, or from none, it is taken to a session that has one. */
  lemma RetryStaysIff(db: Db, raw: Incoming, cfg: Config, mint: Mint, db': Db)
    requires Sound(Keyed(db), cfg) && cfg.gap >= SECOND && Parse(raw) == Accepted && Delivers(db, raw, cfg, mint, db')
    requires EventFor(db, raw, mint).id in db.events
    ensures var id := EventFor(db, raw, mint).id;
      && (NothingMoved(db, db') <==> Findable(db, id) && Newest(db, db.events[id].session.value))
      && Findable(db', id) && (Findable(db, id) ==> Newest(db, db'.events[id].session.value))
  {
    var e := EventFor(db, raw, mint);
    hide Sound, Parse, Logged, EventFor, Delivers, NothingMoved, Newest, Keyed, Db.Schema;
    var sid := RepeatRelinks(db, raw, cfg, mint, db');
    NothingMovedKeyed(db, e, sid, db');
    if Findable(db, e.id) {
      KeyedRepeat(db, raw, cfg, mint, db');
      KeyedRetryStaysIff(Keyed(db), raw, cfg, mint, Keyed(db'));
      FoundNewest(db, e, sid, db');
    } else {
      UnfoundMoves(db, e, sid, db', cfg);
      MovedNothing(db, db');
    }
  }

  // The same repeat, without the rows that lack an instance.
  lemma KeyedRepeat(db: Db, raw: Incoming, cfg: Config, mint: Mint, db': Db)
    requires Delivers(db, raw, cfg, mint, db') && Parse(raw) == Accepted
    ensures var e := EventFor(db, raw, mint);
      && EventFor(Keyed(db), raw, mint) == e && Delivers(Keyed(db), raw, cfg, mint, Keyed(db'))
      && (e.id in db.events ==> e.id in Keyed(db).events)
      && (Findable(db, e.id) ==> Keyed(db).events[e.id] == db.events[e.id])
      && (e.id in db.events && !Findable(db, e.id) ==> !Findable(Keyed(db), e.id))
  {
    hide Parse, Logged, EventFor, Processed, Repeats, Db.Schema;
    LoggedParts(db, raw, cfg, mint, db');
    KeyedLogged(db, raw, mint);
    DeliveryIgnoresNull(db, raw, cfg, mint, db');
    hide Delivers;
  }

  lemma FoundNewest(db: Db, e: Event, sid: string, db': Db)
    requires Relinks(db, e, sid, db') && Findable(db, e.id)
    ensures Newest(Keyed(db), db.events[e.id].session.value) <==> Newest(db, db.events[e.id].session.value)
    ensures e.id in Keyed(db').events && Keyed(db').events[e.id].session == Some(sid) == db'.events[e.id].session
    ensures Findable(db', e.id) && (Newest(Keyed(db), sid) ==> Newest(db, sid))
  {
    KeyedNewest(db, db.events[e.id].session.value);
    if sid in Keyed(db).sessions {
      KeyedNewest(db, sid);
    }
    hide Newest;
  }

  lemma HoldsKeyed(db: Db, e: Event, cfg: Config)
    requires Findable(db, e.id)
    ensures HoldsEvent(Keyed(db), e, cfg) <==> HoldsEvent(db, e, cfg)
  {
    KeyedNewest(db, db.events[e.id].session.value);
    hide Newest, Completes;
  }

  /** Exactly when delivering an event again is a no-op on all the tables, up to the time a row was last written: its
      item is visible and learns nothing, its session is still the newest on its key, has an instance, and has the
      event's kind and the completion its duration gives. An event that is in no session is never left there. */
  lemma RetryIsNoOpIff(db: Db, raw: Incoming, cfg: Config, mint: Mint, db': Db)
    requires Sound(Keyed(db), cfg) && cfg.gap >= SECOND && Parse(raw) == Accepted && Delivers(db, raw, cfg, mint, db')
    requires EventFor(db, raw, mint).id in db.events
    ensures var e := EventFor(db, raw, mint);
      SameTables(db, db') <==>
        KnowsItem(db, e.media, ToMediaItem(raw)) && Findable(db, e.id) && HoldsEvent(db, e, cfg)
  {
    var e := EventFor(db, raw, mint);
    LoggedParts(db, raw, cfg, mint, db');
    RepeatPrepares(db, raw, mint);
    hide Sound, Parse, Logged, EventFor, Delivers, Keyed, Db.Schema, KnowsItem, HoldsEvent, ToMediaItem, SameRow;
    var sid := RepeatRelinks(db, raw, cfg, mint, db');
    if !Findable(db, e.id) {
      UnfoundMoves(db, e, sid, db', cfg);
    } else if KnowsItem(db, e.media, ToMediaItem(raw)) {
      SameTablesKeyed(db, e, sid, db');
      KeyedRepeat(db, raw, cfg, mint, db');
      KeyedRetryIsNoOpIff(Keyed(db), raw, cfg, mint, Keyed(db'));
      KnownKeyed(db, e.media, ToMediaItem(raw));
      HoldsKeyed(db, e, cfg);
    }
  }

  lemma KnownKeyed(db: Db, m: string, item: MediaItem)
    ensures KnowsItem(Keyed(db), m, item) <==> KnowsItem(db, m, item)
  {
  }

  /** A delivery rewrites at most one row, and only the newest on its key; the others keep their text. */
  lemma OnlyTheNewestChanges(db: Db, raw: Incoming, cfg: Config, mint: Mint, db': Db, s: string)
    requires Sound(Keyed(db), cfg) && cfg.gap >= SECOND && Delivers(db, raw, cfg, mint, db') && s in db.sessions
    ensures s in db'.sessions
    ensures Newest(db, s) || db'.sessions[s] == db.sessions[s].(deleted := db'.sessions[s].deleted)
  {
    hide Sound, Delivers, Newest;
    if db.sessions[s].instance.None? {
      NullRowsStay(db, raw, cfg, mint, db', s);
    } else {
      DeliveryIgnoresNull(db, raw, cfg, mint, db');
      KeyedOnlyTheNewestChanges(Keyed(db), raw, cfg, mint, Keyed(db'), s);
      KeyedNewest(db, s);
    }
  }
}
