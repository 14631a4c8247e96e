/** What holds of the tables in every state the service can reach, whatever the order in which events
    arrive and however often they are delivered. */
module Invariants {
  import opened Stamps
  import opened Events
  import opened Folding
  import opened Partition
  import opened Tables
  import opened Sessionize

  ghost predicate SameKeyRows(db: Db, s: string, t: string)
    requires s in db.sessions && t in db.sessions
  {
    db.sessions[s].media == db.sessions[t].media && db.sessions[s].instance == db.sessions[t].instance
  }

  predicate EndsApart(a: Agg, b: Agg, gap: int) {
    OpensNewSession(a.ended, b.ended, gap) || OpensNewSession(b.ended, a.ended, gap)
  }

  ghost predicate RowsKeyed(db: Db) {
    forall s | s in db.sessions :: db.sessions[s].instance.Some?
  }

  // Linked events carry the key of the row they are linked to.
  ghost predicate LinksFit(db: Db) {
    forall id | id in db.events && db.events[id].session.Some? ::
      db.OnKey(db.events[id].session.value, db.events[id].event.KeyOf())
  }

  ghost predicate RowsApart(db: Db, gap: int) {
    forall s, t | s in db.sessions && t in db.sessions && s != t && SameKeyRows(db, s, t) ::
      EndsApart(db.sessions[s].agg, db.sessions[t].agg, gap)
  }

  ghost predicate LinksBounded(db: Db) {
    forall s, e | s in db.sessions && e in db.Linked(s) :: e.at <= db.sessions[s].agg.ended
  }

  // No row on the same key ends later.
  ghost predicate Newest(db: Db, s: string) {
    s in db.sessions && forall t | t in db.sessions && SameKeyRows(db, t, s) ::
      db.sessions[t].agg.ended <= db.sessions[s].agg.ended
  }

  // A row is the fold of the events linked to it, up to completion.
  ghost predicate Folds(db: Db, s: string, cfg: Config)
    requires db.Schema() && s in db.sessions
  {
    LinkedIds(db, s);
    var L := db.Linked(s);
    L != {} && db.sessions[s].agg == Core(L, cfg).(completed := db.sessions[s].agg.completed)
  }

  ghost predicate NewestFold(db: Db, cfg: Config)
    requires db.Schema()
  {
    forall s | Newest(db, s) :: Folds(db, s, cfg)
  }

  ghost predicate CompletionBacked(db: Db, cfg: Config) {
    forall s | s in db.sessions && db.sessions[s].agg.completed ::
      Completes(db.sessions[s].agg.maxPos, db.Duration(db.sessions[s].media), cfg)
  }

  // A session is deleted exactly when its media item is.
  ghost predicate DeletionAgrees(db: Db) {
    forall s | s in db.sessions && db.sessions[s].media in db.media ::
      (db.sessions[s].deleted.Some? <==> db.media[db.sessions[s].media].deleted.Some?)
  }

  ghost predicate Sound(db: Db, cfg: Config) {
    && db.Schema() && RowsKeyed(db) && LinksFit(db) && RowsApart(db, cfg.gap) && LinksBounded(db)
    && NewestFold(db, cfg) && CompletionBacked(db, cfg) && DeletionAgrees(db)
  }

  // ----- the newest session on a key -----

  /** With a session gap of at least a second, ORDER BY ended_at on the printed text finds the row that
      really ends last, and there is only one. */
  lemma LatestIsNewest(db: Db, id: string, k: Key, cfg: Config)
    requires Sound(db, cfg) && cfg.gap >= SECOND && db.IsLatest(Some(id), k)
    ensures Newest(db, id)
    ensures forall t | t in db.sessions && t != id && SameKeyRows(db, t, id) ::
      OpensNewSession(db.sessions[t].agg.ended, db.sessions[id].agg.ended, cfg.gap)
  {
    forall t | t in db.sessions && t != id && SameKeyRows(db, t, id)
      ensures OpensNewSession(db.sessions[t].agg.ended, db.sessions[id].agg.ended, cfg.gap)
    {
      assert db.LiveOnKey(t, k);
      StampOrderAcross(db.sessions[id].agg.ended, db.sessions[t].agg.ended);
      assert EndsApart(db.sessions[id].agg, db.sessions[t].agg, cfg.gap);
    }
  }

  lemma LatestUnique(db: Db, r: Option<string>, r': Option<string>, k: Key, cfg: Config)
    requires Sound(db, cfg) && cfg.gap >= SECOND && db.IsLatest(r, k) && db.IsLatest(r', k)
    ensures r == r'
  {
    if r.Some? && r'.Some? {
      LatestIsNewest(db, r.value, k, cfg);
      assert SameKeyRows(db, r'.value, r.value);
      StampOrderAcross(db.sessions[r'.value].agg.ended, db.sessions[r.value].agg.ended);
    }
  }

  // ----- assigning one event -----

  // The state in which the pipeline calls Assign: the event is logged and its item is not deleted.
  ghost predicate Arrived(db: Db, e: Event) {
    e.id in db.events && db.events[e.id].event == e && db.Live(e.media)
  }

  // An id that nothing in the database uses.
  ghost predicate Fresh(db: Db, id: string) {
    id !in db.sessions && forall e | e in db.events :: db.events[e].session != Some(id)
  }

  lemma LinkedAfterLink(db: Db, e: Event, sid: string, t: string)
    requires db.Schema() && Arrived(db, e)
    ensures db.Link(e.id, sid).Schema()
    ensures db.Link(e.id, sid).Linked(t) == if t == sid then db.Linked(t) + {e} else db.Linked(t) - {e}
  {
    var db' := db.Link(e.id, sid);
    forall x ensures x in db'.Linked(t) <==> x in (if t == sid then db.Linked(t) + {e} else db.Linked(t) - {e}) {
      if x in db.Linked(t) {
        assert x.id in db.events;
      }
      if x == e && t == sid {
        assert db'.events[e.id].event == e;
      }
      if x in db.Linked(t) && x != e {
        assert db'.events[x.id].event == x;
      }
    }
  }

  lemma LogAfterLink(db: Db, e: Event, sid: string)
    requires db.Schema() && Arrived(db, e)
    ensures db.Link(e.id, sid).Log() == db.Log()
  {
    var db' := db.Link(e.id, sid);
    forall x ensures x in db'.Log() <==> x in db.Log() {
      if x in db.Log() {
        assert x.id in db'.events && db'.events[x.id].event == x;
      }
    }
  }

  ghost predicate LinksMoved(db: Db, e: Event, sid: string, db': Db) {
    && db'.Schema() && db'.media == db.media && db'.Log() == db.Log()
    && db'.events == db.Link(e.id, sid).events
    && (forall t :: db'.Linked(t) == if t == sid then db.Linked(t) + {e} else db.Linked(t) - {e})
  }

  /** What one assignment comes to: e is linked to the session sid, no other row changes, and that row
      becomes the fold of its former links and e. */
  ghost predicate Placed(db: Db, e: Event, sid: string, cfg: Config, db': Db)
    requires db.Schema()
  {
    LinksMoved(db, e, sid, db') && RowPlaced(db, e, sid, cfg, db')
  }

  ghost predicate RowPlaced(db: Db, e: Event, sid: string, cfg: Config, db': Db)
    requires db.Schema()
  {
    && db'.sessions.Keys == db.sessions.Keys + {sid}
    && (forall t | t in db.sessions && t != sid :: db'.sessions[t] == db.sessions[t])
    && db'.OnKey(sid, e.KeyOf()) && db'.sessions[sid].kind == e.kind
    && DistinctIds(db.Linked(sid) + {e})
    && db'.sessions[sid].agg == FoldSet(db.Linked(sid) + {e}, db.Duration(e.media), cfg)
    && db'.sessions[sid].deleted == (if sid in db.sessions then db.sessions[sid].deleted else None)
    && (sid in db.sessions ==> db'.sessions[sid].created == db.sessions[sid].created)
  }

  lemma LinkMoves(db: Db, e: Event, sid: string)
    requires db.Schema() && Arrived(db, e)
    ensures LinksMoved(db, e, sid, db.Link(e.id, sid))
  {
    forall t ensures db.Link(e.id, sid).Linked(t) == if t == sid then db.Linked(t) + {e} else db.Linked(t) - {e} {
      LinkedAfterLink(db, e, sid, t);
    }
    LogAfterLink(db, e, sid);
    LinkedAfterLink(db, e, sid, sid);
  }

  lemma UpsertKeepsLinks(db: Db, e: Event, sid: string, linked: Db, s: Session)
    requires LinksMoved(db, e, sid, linked) && s.media in linked.media
    ensures LinksMoved(db, e, sid, linked.Upsert(s))
  {
    var db' := linked.Upsert(s);
    assert forall t :: db'.Linked(t) == linked.Linked(t);
    assert db'.Log() == linked.Log();
  }

  lemma AssignPlaces(db: Db, e: Event, latest: Option<string>, cfg: Config, newId: string, now: Time)
    requires db.Schema() && Arrived(db, e) && db.IsLatest(latest, e.KeyOf())
    ensures Placed(db, e, Target(db, e, latest, cfg.gap, newId), cfg, AssignWith(db, e, latest, cfg, newId, now))
  {
    var sid := Target(db, e, latest, cfg.gap, newId);
    var linked := db.Link(e.id, sid);
    LinkMoves(db, e, sid);
    LinkedIds(linked, sid);
    var agg := FoldSet(linked.Linked(sid), linked.Duration(e.media), cfg);
    var created := if sid in db.sessions then db.sessions[sid].created else now;
    var row := Session(sid, e.media, e.kind, e.instance, agg, created, now);
    UpsertKeepsLinks(db, e, sid, linked, row);
    UpsertPlaces(db, e, sid, cfg, row);
  }

  lemma UpsertPlaces(db: Db, e: Event, sid: string, cfg: Config, row: Session)
    requires db.Schema() && DistinctIds(db.Linked(sid) + {e})
    requires row.id == sid && row.KeyOf() == e.KeyOf() && row.kind == e.kind
    requires row.agg == FoldSet(db.Linked(sid) + {e}, db.Duration(e.media), cfg)
    ensures RowPlaced(db, e, sid, cfg, db.Link(e.id, sid).Upsert(row))
  {
    hide FoldSet;
  }

  // ----- why assignment keeps the tables sound -----

  ghost predicate Joins(db: Db, e: Event, sid: string, gap: int) {
    Newest(db, sid) && db.OnKey(sid, e.KeyOf()) && !OpensNewSession(db.sessions[sid].agg.ended, e.at, gap)
  }

  ghost predicate Starts(db: Db, e: Event, sid: string, gap: int) {
    Fresh(db, sid) && forall t | t in db.sessions && db.OnKey(t, e.KeyOf()) ::
      OpensNewSession(db.sessions[t].agg.ended, e.at, gap)
  }

  /** An event joins the session that really ends last on its key, or starts one a gap after all of them. */
  lemma TargetJoinsOrStarts(db: Db, e: Event, latest: Option<string>, cfg: Config, newId: string)
    requires Sound(db, cfg) && cfg.gap >= SECOND && Arrived(db, e) && Fresh(db, newId)
    requires db.IsLatest(latest, e.KeyOf())
    ensures var sid := Target(db, e, latest, cfg.gap, newId);
      if sid in db.sessions then latest == Some(sid) && Joins(db, e, sid, cfg.gap) else Starts(db, e, sid, cfg.gap)
  {
    forall t | t in db.sessions && db.OnKey(t, e.KeyOf()) ensures db.LiveOnKey(t, e.KeyOf()) {
      assert db.sessions[t].media in db.media;
    }
    if latest.Some? {
      LatestIsNewest(db, latest.value, e.KeyOf(), cfg);
      forall t | t in db.sessions && db.OnKey(t, e.KeyOf()) && t != latest.value
        ensures OpensNewSession(db.sessions[t].agg.ended, db.sessions[latest.value].agg.ended, cfg.gap)
      {
        assert SameKeyRows(db, t, latest.value);
      }
    }
  }

  lemma TargetRow(db: Db, e: Event, sid: string, cfg: Config, db': Db)
    requires Sound(db, cfg) && Placed(db, e, sid, cfg, db')
    requires Joins(db, e, sid, cfg.gap) || Starts(db, e, sid, cfg.gap)
    ensures db'.Linked(sid) == db.Linked(sid) + {e}
    ensures forall x | x in db'.Linked(sid) :: x.at <= db'.sessions[sid].agg.ended
    ensures Joins(db, e, sid, cfg.gap) ==> db.sessions[sid].agg.ended <= db'.sessions[sid].agg.ended
    ensures Starts(db, e, sid, cfg.gap) ==> db.Linked(sid) == {} && db'.sessions[sid].agg.ended == e.at
    ensures Folds(db', sid, cfg)
    ensures db'.sessions[sid].agg.completed == Completes(db'.sessions[sid].agg.maxPos, db'.Duration(e.media), cfg)
  {
    var L := db.Linked(sid) + {e};
    LinkedIds(db, sid);
    FoldShape(L, db.Duration(e.media), cfg);
    FoldIsCore(L, db.Duration(e.media), cfg);
    hide FoldSet, Completes;
    if Joins(db, e, sid, cfg.gap) {
      assert Folds(db, sid, cfg);
      OldEnd(db, e, sid, cfg);
    } else {
      assert db.Linked(sid) == {};
    }
  }

  lemma OldEnd(db: Db, e: Event, sid: string, cfg: Config)
    requires db.Schema() && sid in db.sessions && Folds(db, sid, cfg) && DistinctIds(db.Linked(sid) + {e})
    ensures db.sessions[sid].agg.ended <= FoldSet(db.Linked(sid) + {e}, db.Duration(e.media), cfg).ended
  {
    LinkedIds(db, sid);
    SpanGrows(db.Linked(sid), e, None, db.Duration(e.media), cfg);
  }

  // Only the target's row is rewritten, it keeps its key, and its end does not move back.
  ghost predicate RowMoved(db: Db, e: Event, sid: string, db': Db) {
    && db'.sessions.Keys == db.sessions.Keys + {sid}
    && (forall t | t in db.sessions && t != sid :: db'.sessions[t] == db.sessions[t])
    && db'.OnKey(sid, e.KeyOf())
    && (if sid in db.sessions then db.OnKey(sid, e.KeyOf()) && db.sessions[sid].agg.ended <= db'.sessions[sid].agg.ended
        else db'.sessions[sid].agg.ended == e.at)
  }

  lemma RowMoves(db: Db, e: Event, sid: string, cfg: Config, db': Db)
    requires db.Schema() && RowPlaced(db, e, sid, cfg, db')
    requires if sid in db.sessions then db.OnKey(sid, e.KeyOf()) &&
      db.sessions[sid].agg.ended <= db'.sessions[sid].agg.ended
             else db'.sessions[sid].agg.ended == e.at
    ensures RowMoved(db, e, sid, db')
  {
    hide FoldSet, DistinctIds, Db.Schema;
  }

  // The target ends a gap after every other row on its key.
  ghost predicate TargetLast(sid: string, gap: int, db': Db) {
    sid in db'.sessions && forall t | t in db'.sessions && t != sid && SameKeyRows(db', t, sid) ::
      OpensNewSession(db'.sessions[t].agg.ended, db'.sessions[sid].agg.ended, gap)
  }

  lemma TargetEndsLast(db: Db, e: Event, sid: string, gap: int, db': Db)
    requires RowMoved(db, e, sid, db') && RowsApart(db, gap) && gap >= 0
    requires Joins(db, e, sid, gap) || Starts(db, e, sid, gap)
    ensures TargetLast(sid, gap, db')
  {
    forall t | t in db'.sessions && t != sid && SameKeyRows(db', t, sid)
      ensures OpensNewSession(db'.sessions[t].agg.ended, db'.sessions[sid].agg.ended, gap)
    {
      assert t in db.sessions && db.OnKey(t, e.KeyOf());
      if Joins(db, e, sid, gap) {
        assert SameKeyRows(db, t, sid);
        assert EndsApart(db.sessions[t].agg, db.sessions[sid].agg, gap);
      }
    }
  }

  lemma AssignKeepsApart(db: Db, e: Event, sid: string, gap: int, db': Db)
    requires RowMoved(db, e, sid, db') && RowsApart(db, gap) && TargetLast(sid, gap, db')
    ensures RowsApart(db', gap)
  {
    forall s, t | s in db'.sessions && t in db'.sessions && s != t && SameKeyRows(db', s, t)
      ensures EndsApart(db'.sessions[s].agg, db'.sessions[t].agg, gap)
    {
      if s == sid {
        assert SameKeyRows(db', t, sid);
      } else if t != sid {
        assert SameKeyRows(db, s, t);
      }
    }
  }

  // A row on another key keeps its links.
  lemma OtherKeysUntouched(db: Db, e: Event, sid: string, db': Db, s: string)
    requires db.Schema() && LinksFit(db) && LinksMoved(db, e, sid, db')
    requires s in db.sessions && s != sid && !db.OnKey(s, e.KeyOf())
    ensures db'.Linked(s) == db.Linked(s)
  {
    assert e !in db.Linked(s);
  }

  lemma AssignKeepsFolds(db: Db, e: Event, sid: string, cfg: Config, db': Db)
    requires db.Schema() && LinksFit(db) && NewestFold(db, cfg) && LinksMoved(db, e, sid, db') && cfg.gap >= 0
    requires RowMoved(db, e, sid, db') && TargetLast(sid, cfg.gap, db') && Folds(db', sid, cfg)
    ensures NewestFold(db', cfg)
  {
    forall s | Newest(db', s) ensures Folds(db', s, cfg) {
      if s != sid {
        OtherNewest(db, e, sid, cfg.gap, db', s);
        SameFold(db, db', s, cfg);
      }
    }
  }

  lemma SameFold(db: Db, db': Db, s: string, cfg: Config)
    requires db.Schema() && db'.Schema() && s in db.sessions && s in db'.sessions
    requires db'.Linked(s) == db.Linked(s) && db'.sessions[s].agg == db.sessions[s].agg
    ensures Folds(db, s, cfg) <==> Folds(db', s, cfg)
  {
    hide FoldSet, Db.Schema;
  }

  lemma OtherNewest(db: Db, e: Event, sid: string, gap: int, db': Db, s: string)
    requires db.Schema() && LinksFit(db) && LinksMoved(db, e, sid, db') && gap >= 0
    requires RowMoved(db, e, sid, db') && TargetLast(sid, gap, db')
    requires Newest(db', s) && s != sid
    ensures Newest(db, s) && db'.Linked(s) == db.Linked(s) && db'.sessions[s] == db.sessions[s]
  {
    assert !SameKeyRows(db', s, sid) by {
      assert SameKeyRows(db', s, sid) ==> SameKeyRows(db', sid, s);
    }
    OtherKeysUntouched(db, e, sid, db', s);
    OtherStillNewest(db, e, sid, db', s);
  }

  lemma OtherStillNewest(db: Db, e: Event, sid: string, db': Db, s: string)
    requires RowMoved(db, e, sid, db')
    requires Newest(db', s) && s != sid && !SameKeyRows(db', s, sid)
    ensures Newest(db, s)
  {
    forall t | t in db.sessions && SameKeyRows(db, t, s) ensures db.sessions[t].agg.ended <= db.sessions[s].agg.ended {
      if t != sid {
        assert SameKeyRows(db', t, s);
      }
    }
  }

  lemma AssignKeepsBounds(db: Db, e: Event, sid: string, db': Db)
    requires LinksBounded(db) && LinksMoved(db, e, sid, db') && RowMoved(db, e, sid, db')
    requires forall x | x in db'.Linked(sid) :: x.at <= db'.sessions[sid].agg.ended
    ensures LinksBounded(db')
  {
  }

  lemma AssignKeepsLinks(db: Db, e: Event, sid: string, db': Db)
    requires LinksFit(db) && Arrived(db, e) && LinksMoved(db, e, sid, db') && RowMoved(db, e, sid, db')
    ensures LinksFit(db')
  {
  }

  lemma AssignKeepsRows(db: Db, e: Event, sid: string, cfg: Config, db': Db)
    requires RowsKeyed(db) && DeletionAgrees(db) && CompletionBacked(db, cfg)
    requires RowMoved(db, e, sid, db') && db'.media == db.media && Arrived(db, e)
    requires sid in db.sessions ==> db'.sessions[sid].deleted == db.sessions[sid].deleted
    requires sid !in db.sessions ==> db'.sessions[sid].deleted == None
    requires db'.sessions[sid].agg.completed == Completes(db'.sessions[sid].agg.maxPos, db'.Duration(e.media), cfg)
    ensures RowsKeyed(db') && DeletionAgrees(db') && CompletionBacked(db', cfg)
  {
    hide Completes;
  }

  /** Assigning any event that is in the log, new or delivered again, keeps the tables sound. */
  lemma AssignKeepsSound(db: Db, e: Event, sid: string, cfg: Config, db': Db)
    requires Sound(db, cfg) && cfg.gap >= 0 && Arrived(db, e) && Placed(db, e, sid, cfg, db')
    requires Joins(db, e, sid, cfg.gap) || Starts(db, e, sid, cfg.gap)
    ensures Sound(db', cfg)
  {
    TargetRow(db, e, sid, cfg, db');
    RowMoves(db, e, sid, cfg, db');
    hide FoldSet, DistinctIds, Completes, Folds, LinksFit, RowsApart, LinksBounded, NewestFold, Newest,
      RowsKeyed, DeletionAgrees, CompletionBacked;
    TargetEndsLast(db, e, sid, cfg.gap, db');
    AssignKeepsApart(db, e, sid, cfg.gap, db');
    AssignKeepsFolds(db, e, sid, cfg, db');
    AssignKeepsBounds(db, e, sid, db');
    AssignKeepsLinks(db, e, sid, db');
    AssignKeepsRows(db, e, sid, cfg, db');
  }
}
