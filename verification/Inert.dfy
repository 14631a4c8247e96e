/** Rows whose source instance is NULL, which only a rebuild of events without one writes: no statement finds
    them again, so the rest of the tables behaves as it would without them. */
module Inert {
  import opened Stamps
  import opened Events
  import opened Folding
  import opened Tables
  import opened Sessionize
  import opened Ingest
  import opened Invariants
  import opened Steps
  import opened Live
  import opened Refinement
  import opened Healing

  predicate OnNull(db: Db, link: Option<string>) {
    link.Some? && link.value in db.sessions && db.sessions[link.value].instance.None?
  }

  function KeyedLink(db: Db, row: EventRow): EventRow {
    if OnNull(db, row.session) then row.(session := None) else row
  }

  /** The tables without those rows and without the links to them. */
  function Keyed(db: Db): Db {
    Db(db.media,
       map id | id in db.events :: KeyedLink(db, db.events[id]),
       map s | s in db.sessions && db.sessions[s].instance.Some? :: db.sessions[s])
  }

  lemma KeyedIsAll(db: Db)
    requires RowsKeyed(db)
    ensures Keyed(db) == db
  {
    assert Keyed(db).events == db.events && Keyed(db).sessions == db.sessions;
  }

  // Nothing needs setting aside in tables that are sound as they are.
  lemma SoundIsKeyed(db: Db, cfg: Config)
    requires Sound(db, cfg)
    ensures Keyed(db) == db && Sound(Keyed(db), cfg) && db.Schema() && DeletionAgrees(db)
  {
    KeyedIsAll(db);
  }

  lemma KeyedSchema(db: Db)
    requires db.Schema()
    ensures Keyed(db).Schema()
  {
  }

  lemma KeyedLinked(db: Db, s: string)
    requires s !in db.sessions || db.sessions[s].instance.Some?
    ensures Keyed(db).Linked(s) == db.Linked(s)
  {
    forall id | id in db.events ensures Keyed(db).events[id].session == Some(s) <==> db.events[id].session == Some(s) {
    }
    forall id | id in db.events ensures Keyed(db).events[id].event == db.events[id].event {
    }
    hide KeyedLink;
    assert Keyed(db).events.Keys == db.events.Keys;
    hide Keyed;
    SameLinked(Keyed(db), db, s);
  }

  lemma SameLinked(a: Db, b: Db, s: string)
    requires a.events.Keys == b.events.Keys
    requires forall id | id in b.events :: a.events[id].session == Some(s) <==> b.events[id].session == Some(s)
    requires forall id | id in b.events :: a.events[id].event == b.events[id].event
    ensures a.Linked(s) == b.Linked(s)
  {
    forall x ensures x in a.Linked(s) <==> x in b.Linked(s) {
      if x in a.Linked(s) {
        var id :| id in a.events && a.events[id].session == Some(s) && a.events[id].event == x;
        assert id in b.events;
      }
      if x in b.Linked(s) {
        var id :| id in b.events && b.events[id].session == Some(s) && b.events[id].event == x;
        assert id in a.events;
      }
    }
  }

  lemma KeyedMediaFor(db: Db, identity: string)
    requires db.Schema()
    ensures Keyed(db).MediaFor(identity) == db.MediaFor(identity)
  {
  }

  lemma KeyedMedia(db: Db, media: map<string, MediaRow>)
    ensures Keyed(db.(media := media)) == Keyed(db).(media := media)
  {
    assert Keyed(db.(media := media)).events == Keyed(db).events;
  }

  lemma KeyedFind(db: Db, m: MediaItem, newId: string)
    requires db.Schema()
    ensures Keyed(db).ResolvedId(m, newId) == db.ResolvedId(m, newId)
    ensures Keyed(db).FindOrCreate(m, newId) == Keyed(db.FindOrCreate(m, newId))
  {
    KeyedMediaFor(db, m.identity);
    assert Keyed(db).media == db.media;
    KeyedMedia(db, db.FindOrCreate(m, newId).media);
    hide Keyed, Db.MediaFor, Db.Schema, Enrich, NewMedia;
  }

  lemma SameNulls(a: Db, b: Db)
    requires a.events == b.events && a.sessions.Keys == b.sessions.Keys
    requires forall s | s in a.sessions :: a.sessions[s].instance == b.sessions[s].instance
    ensures Keyed(a).events == Keyed(b).events
  {
  }

  lemma KeyedSetRows(db: Db, id: string, at: Option<Time>)
    ensures Keyed(db).SetDeleted(id, at).sessions == Keyed(db.SetDeleted(id, at)).sessions
  {
    hide KeyedLink, OnNull;
  }

  lemma KeyedSetDeleted(db: Db, id: string, at: Option<Time>)
    ensures Keyed(db).SetDeleted(id, at) == Keyed(db.SetDeleted(id, at))
  {
    SameNulls(db, db.SetDeleted(id, at));
    KeyedSetRows(db, id, at);
    hide KeyedLink, OnNull;
  }

  lemma KeyedInsert(db: Db, e: Event)
    ensures Keyed(db).Insert(e) == Keyed(db.Insert(e))
  {
    assert Keyed(db).Insert(e).events == Keyed(db.Insert(e)).events;
  }

  lemma KeyedLogged(db: Db, raw: Incoming, mint: Mint)
    requires db.Schema() && Parse(raw) == Accepted
    ensures Logged(Keyed(db), raw, mint) == Keyed(Logged(db, raw, mint))
    ensures EventFor(Keyed(db), raw, mint) == EventFor(db, raw, mint)
  {
    var m := ToMediaItem(raw);
    var id := db.ResolvedId(m, mint.mediaId);
    var a := db.FindOrCreate(m, mint.mediaId);
    KeyedFind(db, m, mint.mediaId);
    hide Db.Schema, Db.FindOrCreate, Db.SetDeleted, Db.ResolvedId, Db.Insert, Parse, ToMediaItem, Keyed;
    KeyedSetDeleted(a, id, None);
    KeyedInsert(a.SetDeleted(id, None), ToEvent(raw, id));
  }

  lemma KeyedLatest(l: Db, latest: Option<string>, k: Key)
    ensures Keyed(l).IsLatest(latest, k) <==> l.IsLatest(latest, k)
  {
    hide StampLess;
    assert forall s :: Keyed(l).LiveOnKey(s, k) <==> l.LiveOnKey(s, k);
  }

  lemma KeyedRelink(l: Db, eventId: string, sid: string)
    requires sid !in l.sessions || l.sessions[sid].instance.Some?
    ensures Keyed(l).Link(eventId, sid) == Keyed(l.Link(eventId, sid))
  {
    assert Keyed(l).Link(eventId, sid).events == Keyed(l.Link(eventId, sid)).events;
  }

  lemma KeyedUpsert(l: Db, s: Session)
    requires s.id !in l.sessions || l.sessions[s.id].instance.Some?
    ensures Keyed(l).Upsert(s) == Keyed(l.Upsert(s))
  {
    assert Keyed(l).Upsert(s).sessions == Keyed(l.Upsert(s)).sessions;
    assert Keyed(l).Upsert(s).events == Keyed(l.Upsert(s)).events;
  }

  lemma KeyedTarget(l: Db, e: Event, latest: Option<string>, gap: int, newId: string)
    requires l.IsLatest(latest, e.KeyOf()) && newId !in l.sessions
    ensures latest.Some? ==> latest.value in l.sessions && latest.value in Keyed(l).sessions
    ensures var sid := Target(l, e, latest, gap, newId);
      && Target(Keyed(l), e, latest, gap, newId) == sid && (sid !in l.sessions || l.sessions[sid].instance.Some?)
      && (sid in Keyed(l).sessions <==> sid in l.sessions)
      && (sid in l.sessions ==> Keyed(l).sessions[sid] == l.sessions[sid])
  {
    hide StampLess;
  }

  lemma LinkSchema(l: Db, eventId: string, sid: string)
    requires l.Schema()
    ensures l.Link(eventId, sid).Schema()
  {
  }

  lemma KeyedTake(l: Db, e: Event, sid: string)
    requires sid !in l.sessions || l.sessions[sid].instance.Some?
    ensures var linked := l.Link(e.id, sid);
      && Keyed(l).Link(e.id, sid) == Keyed(linked) && Keyed(linked).Linked(sid) == linked.Linked(sid)
      && Keyed(linked).media == linked.media && linked.sessions == l.sessions
  {
    KeyedRelink(l, e.id, sid);
    KeyedLinked(l.Link(e.id, sid), sid);
    hide KeyedLink, OnNull, Db.Linked;
  }

  // Assigning an event sees none of these rows and leaves them alone.
  lemma KeyedAssign(l: Db, e: Event, latest: Option<string>, cfg: Config, newId: string, now: Time)
    requires l.Schema() && l.IsLatest(latest, e.KeyOf()) && newId !in l.sessions
    ensures Keyed(l).Schema() && Keyed(l).IsLatest(latest, e.KeyOf())
    ensures AssignWith(Keyed(l), e, latest, cfg, newId, now) == Keyed(AssignWith(l, e, latest, cfg, newId, now))
  {
    hide FoldSet, Db.Schema, Db.Linked, Db.IsLatest, Target, Keyed, Db.Link, Db.Upsert, DistinctIds;
    KeyedSchema(l);
    KeyedLatest(l, latest, e.KeyOf());
    KeyedTarget(l, e, latest, cfg.gap, newId);
    var sid := Target(l, e, latest, cfg.gap, newId);
    var linked := l.Link(e.id, sid);
    KeyedTake(l, e, sid);
    LinkSchema(l, e.id, sid);
    LinkedIds(linked, sid);
    var agg := FoldSet(linked.Linked(sid), linked.Duration(e.media), cfg);
    var created := if sid in l.sessions then l.sessions[sid].created else now;
    KeyedUpsert(linked, Session(sid, e.media, e.kind, e.instance, agg, created, now));
  }

  lemma KeyedUnused(db: Db, mint: Mint)
    requires Unused(db, mint)
    ensures Unused(Keyed(db), mint)
  {
  }

  lemma KeyedRepeats(db: Db, e: Event)
    requires Repeats(db, e)
    ensures Repeats(Keyed(db), e)
  {
  }

  lemma AcceptedDelivers(db: Db, raw: Incoming, cfg: Config, mint: Mint, db': Db)
    requires db.Schema() && Unused(db, mint) && Parse(raw) == Accepted && Repeats(db, EventFor(db, raw, mint))
    requires Logged(db, raw, mint).Schema() &&
      Assigned(Logged(db, raw, mint), EventFor(db, raw, mint), cfg, mint.sessionId, mint.now, db')
    ensures Delivers(db, raw, cfg, mint, db')
  {
    hide Parse, Logged, EventFor, Assigned, Db.Schema, Repeats;
  }

  /** A delivery does to the other rows and links what it would do if these rows were not there. */
  lemma DeliveryIgnoresNull(db: Db, raw: Incoming, cfg: Config, mint: Mint, db': Db)
    requires Delivers(db, raw, cfg, mint, db')
    ensures Delivers(Keyed(db), raw, cfg, mint, Keyed(db'))
  {
    KeyedSchema(db);
    KeyedUnused(db, mint);
    if Parse(raw) == Accepted {
      hide Parse, Logged, EventFor, AssignWith, Db.Schema, Repeats, Keyed, Db.IsLatest, Delivers, Arrived;
      var l, e := Logged(db, raw, mint), EventFor(db, raw, mint);
      LoggedParts(db, raw, cfg, mint, db');
      LoggedArrives(db, raw, mint);
      KeyedLogged(db, raw, mint);
      KeyedRepeats(db, e);
      var latest: Option<string> :| l.IsLatest(latest, e.KeyOf()) &&
        db' == AssignWith(l, e, latest, cfg, mint.sessionId, mint.now);
      KeyedAssign(l, e, latest, cfg, mint.sessionId, mint.now);
      assert Assigned(Keyed(l), e, cfg, mint.sessionId, mint.now, Keyed(db'));
      AcceptedDelivers(Keyed(db), raw, cfg, mint, Keyed(db'));
    }
  }

  lemma LoggedParts(db: Db, raw: Incoming, cfg: Config, mint: Mint, db': Db)
    requires Delivers(db, raw, cfg, mint, db') && Parse(raw) == Accepted
    ensures db.Schema() && Unused(db, mint) && Repeats(db, EventFor(db, raw, mint)) && Logged(db, raw, mint).Schema()
    ensures Assigned(Logged(db, raw, mint), EventFor(db, raw, mint), cfg, mint.sessionId, mint.now, db')
  {
    LoggedSchema(db, raw, mint);
    hide Parse, Logged, EventFor, Assigned, Db.Schema, Repeats;
  }

  lemma NullNotTarget(l: Db, e: Event, latest: Option<string>, cfg: Config, newId: string, now: Time, s: string)
    requires l.Schema() && Arrived(l, e) && l.IsLatest(latest, e.KeyOf()) && newId !in l.sessions
    requires s in l.sessions && l.sessions[s].instance.None?
    ensures var db' := AssignWith(l, e, latest, cfg, newId, now); s in db'.sessions && db'.sessions[s] == l.sessions[s]
  {
    hide Db.Schema, Arrived, Db.IsLatest, Keyed, FoldSet, LinksMoved, DistinctIds, Db.Linked, Target, AssignWith;
    KeyedTarget(l, e, latest, cfg.gap, newId);
    AssignPlaces(l, e, latest, cfg, newId, now);
  }

  // The rows themselves change in nothing but the deletion stamp.
  lemma NullRowsStay(db: Db, raw: Incoming, cfg: Config, mint: Mint, db': Db, s: string)
    requires Delivers(db, raw, cfg, mint, db') && s in db.sessions && db.sessions[s].instance.None?
    ensures s in db'.sessions && db'.sessions[s] == db.sessions[s].(deleted := db'.sessions[s].deleted)
  {
    if Parse(raw) == Accepted {
      hide Parse, Logged, EventFor, Db.Schema, Repeats, Db.IsLatest, Delivers, SameLinks, DurationsKept, Db.Log,
        AssignWith;
      var l, e := Logged(db, raw, mint), EventFor(db, raw, mint);
      LoggedParts(db, raw, cfg, mint, db');
      LoggedArrives(db, raw, mint);
      LoggedAggs(db, raw, mint);
      var latest: Option<string> :| l.IsLatest(latest, e.KeyOf()) &&
        db' == AssignWith(l, e, latest, cfg, mint.sessionId, mint.now);
      NullNotTarget(l, e, latest, cfg, mint.sessionId, mint.now, s);
    }
  }

  // ----- what carries over from the tables without these rows -----

  lemma KeyedNewest(db: Db, s: string)
    requires s in db.sessions && db.sessions[s].instance.Some?
    ensures Newest(Keyed(db), s) <==> Newest(db, s)
  {
    forall t | t in db.sessions && db.sessions[t].instance.Some?
      ensures SameKeyRows(Keyed(db), t, s) == SameKeyRows(db, t, s)
    {
    }
  }

  // Every link leads to a row.
  lemma LinkedRowThere(db: Db, id: string, cfg: Config)
    requires Sound(Keyed(db), cfg) && id in db.events && db.events[id].session.Some?
    ensures db.events[id].session.value in db.sessions
  {
    hide RowsKeyed, RowsApart, LinksBounded, NewestFold, CompletionBacked, DeletionAgrees, Db.Schema;
    if !OnNull(db, db.events[id].session) {
      assert Keyed(db).events[id] == db.events[id];
    }
  }

  lemma OneLatest(l: Db, r: Option<string>, s: Option<string>, k: Key, cfg: Config)
    requires Sound(Keyed(l), cfg) && cfg.gap >= SECOND && l.IsLatest(r, k) && l.IsLatest(s, k)
    ensures r == s
  {
    hide Sound, Keyed, Db.IsLatest;
    KeyedLatest(l, r, k);
    KeyedLatest(l, s, k);
    LatestUnique(Keyed(l), r, s, k, cfg);
  }

  /** What a delivery does is determined: the ties that ordering by printed end could leave open never arise. */
  lemma DeliveryIsDetermined(db: Db, raw: Incoming, cfg: Config, mint: Mint, a: Db, b: Db)
    requires Sound(Keyed(db), cfg) && cfg.gap >= SECOND
    requires Delivers(db, raw, cfg, mint, a) && Delivers(db, raw, cfg, mint, b)
    ensures a == b
  {
    if Parse(raw) == Accepted {
      hide Db.Schema, Logged, EventFor, Parse, AssignWith, Repeats, Sound, Db.IsLatest, Keyed, Delivers;
      var l, e := Logged(db, raw, mint), EventFor(db, raw, mint);
      LoggedParts(db, raw, cfg, mint, a);
      LoggedParts(db, raw, cfg, mint, b);
      KeyedLogged(db, raw, mint);
      KeyedUnused(db, mint);
      LoggedSound(Keyed(db), raw, cfg, mint);
      var r: Option<string> :| l.IsLatest(r, e.KeyOf()) && a == AssignWith(l, e, r, cfg, mint.sessionId, mint.now);
      var s: Option<string> :| l.IsLatest(s, e.KeyOf()) && b == AssignWith(l, e, s, cfg, mint.sessionId, mint.now);
      OneLatest(l, r, s, e.KeyOf(), cfg);
    }
  }

  // ----- after a rebuild -----

  lemma SameGood(a: Db, b: Db, s: string, cfg: Config)
    requires a.Schema() && b.Schema() && s in a.sessions && s in b.sessions && RowGood(a, s, cfg)
    requires b.Linked(s) == a.Linked(s) && b.sessions[s] == a.sessions[s] && b.media == a.media
    ensures RowGood(b, s, cfg)
  {
    hide Folds, TightSet, Db.Linked, Db.Schema, Completes;
    SameFold(a, b, s, cfg);
  }

  lemma KeyedRowGood(db: Db, s: string, cfg: Config)
    requires db.Schema() && s in db.sessions && db.sessions[s].instance.Some? && RowGood(db, s, cfg)
    ensures Keyed(db).Schema() && RowGood(Keyed(db), s, cfg)
  {
    hide RowGood, Db.Linked, Db.Schema, KeyedLink;
    KeyedSchema(db);
    KeyedLinked(db, s);
    SameGood(db, Keyed(db), s, cfg);
  }

  lemma KeyedRows(db: Db, cfg: Config)
    requires db.Schema() && forall s | s in db.sessions :: RowGood(db, s, cfg)
    ensures Keyed(db).Schema() && forall s | s in Keyed(db).sessions :: RowGood(Keyed(db), s, cfg)
  {
    KeyedSchema(db);
    hide Db.Schema, RowGood;
    forall s | s in Keyed(db).sessions ensures RowGood(Keyed(db), s, cfg) {
      KeyedRowGood(db, s, cfg);
    }
  }

  lemma KeyedApart(db: Db, gap: int)
    requires RowsApart(db, gap)
    ensures RowsApart(Keyed(db), gap) && RowsKeyed(Keyed(db))
  {
    var k := Keyed(db);
    forall s, t | s in k.sessions && t in k.sessions && s != t && SameKeyRows(k, s, t)
      ensures EndsApart(k.sessions[s].agg, k.sessions[t].agg, gap)
    {
      assert SameKeyRows(db, s, t);
    }
  }

  lemma KeyedFits(db': Db, groups: seq<seq<Event>>, mint: Apply.IdSource, cfg: Config, id: string)
    requires Replayed(db', groups, mint, cfg) && id in db'.events && Keyed(db').events[id].session.Some?
    ensures Keyed(db').OnKey(Keyed(db').events[id].session.value, db'.events[id].event.KeyOf())
  {
    var s := Keyed(db').events[id].session.value;
    assert db'.events[id].session == Some(s);
    assert Apply.LinkHolds(db'.events[id], groups, mint);
    hide Db.Schema, Apply.Unrepeated, Healed, Partition.IsGapPartition, Db.Linked, Partition.IsSession;
    var i: nat :| i < |groups| && s == mint(i) && db'.events[id].event in groups[i];
    assert Healed(db', groups[i], mint(i), cfg);
    assert s in db'.sessions;
    NamedKey(db', groups[i], s, cfg);
  }

  lemma KeyedReplayFits(db': Db, groups: seq<seq<Event>>, mint: Apply.IdSource, cfg: Config)
    requires Replayed(db', groups, mint, cfg)
    ensures LinksFit(Keyed(db'))
  {
    hide Replayed, Db.OnKey;
    forall id | id in Keyed(db').events && Keyed(db').events[id].session.Some?
      ensures Keyed(db').OnKey(Keyed(db').events[id].session.value, Keyed(db').events[id].event.KeyOf())
    {
      KeyedFits(db', groups, mint, cfg, id);
    }
  }

  /** After a rebuild of any events, named or not, all but these rows is sound. */
  lemma ReplayKeyedSound(db': Db, groups: seq<seq<Event>>, mint: Apply.IdSource, cfg: Config)
    requires Replayed(db', groups, mint, cfg)
    ensures Sound(Keyed(db'), cfg)
  {
    hide Replayed, RowGood, RowsApart, LinksFit, RowsKeyed, CompletionBacked, LinksBounded, DeletionAgrees, Folds,
      Db.Schema, Keyed, TightRows, CompletionCurrent;
    RebuiltHasSchema(db', groups, mint, cfg);
    RebuiltRows(db', groups, mint, cfg);
    RebuiltApart(db', groups, mint, cfg);
    KeyedRows(db', cfg);
    KeyedApart(db', cfg.gap);
    KeyedReplayFits(db', groups, mint, cfg);
    GoodRows(Keyed(db'), cfg);
    FittingRows(Keyed(db'), cfg);
  }
}
