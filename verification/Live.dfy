/** Live sessionization against the batch: when and why the tables hold exactly what a rebuild would. */
module Live {
  import opened Stamps
  import opened Events
  import opened Folding
  import opened Partition
  import opened Tables
  import opened Sessionize
  import opened Ingest
  import opened Invariants
  import opened Steps

  ghost predicate AllFold(db: Db, cfg: Config)
    requires db.Schema()
  {
    forall s | s in db.sessions :: Folds(db, s, cfg)
  }

  // Every event of an item that is not deleted is in a session.
  ghost predicate LiveLinked(db: Db) {
    forall id | id in db.events && db.Live(db.events[id].event.media) :: db.events[id].session.Some?
  }

  // Every row is the fold of its links, and no visible event is outside a session.
  ghost predicate Exact(db: Db, cfg: Config) {
    Sound(db, cfg) && AllFold(db, cfg) && LiveLinked(db)
  }

  // From every event but the last ones another is reached within the gap.
  ghost predicate TightSet(L: set<Event>, gap: int) {
    forall x | x in L :: LastOf(L, x) || HasNext(L, x, gap)
  }

  ghost predicate LastOf(L: set<Event>, x: Event) {
    forall y | y in L :: y.at <= x.at
  }

  ghost predicate HasNext(L: set<Event>, x: Event, gap: int) {
    exists y :: y in L && x.at < y.at && !OpensNewSession(x.at, y.at, gap)
  }

  ghost predicate TightRows(db: Db, gap: int) {
    forall s | s in db.sessions :: TightSet(db.Linked(s), gap)
  }

  ghost predicate SetsApart(A: set<Event>, B: set<Event>, gap: int) {
    forall a, b | a in A && b in B && a.KeyOf() == b.KeyOf() :: Apart(a, b, gap)
  }

  ghost predicate LinksApart(db: Db, gap: int) {
    forall s, t | s in db.sessions && t in db.sessions && s != t :: SetsApart(db.Linked(s), db.Linked(t), gap)
  }

  /** The tables hold the gap partition of the log. */
  ghost predicate Synced(db: Db, cfg: Config) {
    Exact(db, cfg) && TightRows(db, cfg.gap) && LinksApart(db, cfg.gap)
  }

  // ----- arrivals that keep the tables exact or synced -----

  // The event is in no session yet, or is delivered again while its session is where it would go now.
  ghost predicate Clean(l: Db, e: Event, sid: string)
    requires e.id in l.events
  {
    l.events[e.id].session == None || l.events[e.id].session == Some(sid)
  }

  /** Where in time an event may land: more than a gap after the end of every session on its key, except that
      it may reach the newest of them, from a gap before its start on. */
  ghost predicate Fits(l: Db, e: Event, gap: int) {
    forall t | t in l.sessions && l.OnKey(t, e.KeyOf()) :: FitsBeside(l, t, e.at, gap)
  }

  ghost predicate FitsBeside(l: Db, t: string, at: Time, gap: int)
    requires t in l.sessions
  {
    || OpensNewSession(l.sessions[t].agg.ended, at, gap)
    || (Newest(l, t) && !OpensNewSession(at, l.sessions[t].agg.started, gap))
  }

  ghost predicate InOrder(l: Db, e: Event) {
    forall x | x in l.Log() && x.KeyOf() == e.KeyOf() :: x.at <= e.at
  }

  lemma CleanElsewhere(l: Db, e: Event, sid: string, t: string)
    requires l.Schema() && Arrived(l, e) && Clean(l, e, sid) && t != sid
    ensures e !in l.Linked(t)
  {
  }

  // The only link that changes is e's, and it is gained by its session.
  ghost predicate LinksGained(l: Db, e: Event, sid: string, db': Db) {
    && db'.sessions.Keys == l.sessions.Keys + {sid}
    && db'.Linked(sid) == l.Linked(sid) + {e}
    && (forall t | t != sid :: db'.Linked(t) == l.Linked(t))
    && (sid !in l.sessions ==> l.Linked(sid) == {})
  }

  lemma CleanGains(l: Db, e: Event, sid: string, cfg: Config, db': Db)
    requires l.Schema() && LinksFit(l) && Arrived(l, e) && Placed(l, e, sid, cfg, db') && Clean(l, e, sid)
    ensures LinksGained(l, e, sid, db')
  {
    hide FoldSet, DistinctIds;
    forall t | t != sid ensures db'.Linked(t) == l.Linked(t) {
      CleanElsewhere(l, e, sid, t);
    }
  }

  lemma GainKeepsFolds(l: Db, e: Event, sid: string, cfg: Config, db': Db)
    requires l.Schema() && db'.Schema() && AllFold(l, cfg) && LinksGained(l, e, sid, db') && RowMoved(l, e, sid, db')
    requires Folds(db', sid, cfg)
    ensures AllFold(db', cfg)
  {
    hide Folds, Db.Schema, Db.Linked, Db.OnKey;
    forall s | s in db'.sessions ensures Folds(db', s, cfg) {
      if s != sid {
        SameFold(l, db', s, cfg);
      }
    }
  }

  lemma LinkKeepsLive(l: Db, e: Event, sid: string, db': Db)
    requires Arrived(l, e) && LinksMoved(l, e, sid, db')
    requires forall id | id in l.events && l.Live(l.events[id].event.media) && id != e.id :: l.events[id].session.Some?
    ensures LiveLinked(db')
  {
    hide Db.Schema, Db.Linked, Db.Log;
  }

  lemma {:induction false} LatestUpTo(L: set<Event>, at: Time) returns (x: Event)
    requires exists y :: y in L && y.at <= at
    ensures x in L && x.at <= at && forall y | y in L && y.at <= at :: y.at <= x.at
  {
    var y :| y in L && y.at <= at;
    var rest := L - {y};
    if exists z :: z in rest && z.at <= at {
      x := LatestUpTo(rest, at);
      if x.at < y.at {
        x := y;
      }
      assert forall z | z in L :: z in rest || z == y;
    } else {
      x := y;
      assert forall z | z in L && z.at <= at :: z == y || z in rest;
    }
  }

  // Inside the span of a tight set some later event is never more than a gap away.
  lemma Bridged(L: set<Event>, gap: int, at: Time)
    requires TightSet(L, gap) && (exists x :: x in L && x.at <= at) && (exists z :: z in L && at < z.at)
    ensures exists y :: y in L && at < y.at && !OpensNewSession(at, y.at, gap)
  {
    var x := LatestUpTo(L, at);
    var z :| z in L && at < z.at;
    assert !LastOf(L, x);
    var y :| y in L && x.at < y.at && !OpensNewSession(x.at, y.at, gap);
    assert at < y.at;
  }

  // What is known of a session's links from its row.
  ghost predicate Spans(L: set<Event>, started: Time, ended: Time) {
    && (forall x | x in L :: started <= x.at <= ended)
    && (exists x :: x in L && x.at == started) && (exists x :: x in L && x.at == ended)
  }

  lemma TightAround(L: set<Event>, e: Event, gap: int, started: Time, ended: Time)
    requires TightSet(L, gap) && gap >= 0 && Spans(L, started, ended)
    requires !OpensNewSession(ended, e.at, gap) && !OpensNewSession(e.at, started, gap)
    ensures TightSet(L + {e}, gap)
  {
    var first :| first in L && first.at == started;
    forall x | x in L + {e} ensures LastOf(L + {e}, x) || HasNext(L + {e}, x, gap) {
      if x in L && HasNext(L, x, gap) {
        var y :| y in L && x.at < y.at && !OpensNewSession(x.at, y.at, gap);
        assert y in L + {e};
      } else if x in L {
        assert LastOf(L, x) && x.at == ended;
        assert e in L + {e};
      } else if e.at < ended {
        if e.at < started {
          assert first in L + {e};
        } else {
          Bridged(L, gap, e.at);
          var y :| y in L && e.at < y.at && !OpensNewSession(e.at, y.at, gap);
          assert y in L + {e};
        }
      }
    }
  }

  lemma TightOnlyAround(L: set<Event>, e: Event, gap: int, started: Time, ended: Time)
    requires TightSet(L + {e}, gap) && gap >= 0 && Spans(L, started, ended)
    ensures !OpensNewSession(e.at, started, gap)
  {
    if e.at < started {
      var last :| last in L && last.at == ended;
      assert e in L + {e} && last in L + {e};
      assert !LastOf(L + {e}, e);
      var y :| y in L + {e} && e.at < y.at && !OpensNewSession(e.at, y.at, gap);
      assert y in L;
    }
  }

  lemma RowSpans(l: Db, sid: string, cfg: Config)
    requires l.Schema() && sid in l.sessions && Folds(l, sid, cfg)
    ensures Spans(l.Linked(sid), l.sessions[sid].agg.started, l.sessions[sid].agg.ended)
  {
    LinkedIds(l, sid);
    FoldShape(l.Linked(sid), None, cfg);
    hide FoldSet, DistinctIds, Db.Schema, Db.Linked;
  }

  // Linked events are logged, so a session's end is the time of a logged event.
  lemma EndInLog(l: Db, sid: string, e: Event, cfg: Config)
    requires l.Schema() && sid in l.sessions && Folds(l, sid, cfg) && LinksFit(l) && InOrder(l, e)
    requires l.OnKey(sid, e.KeyOf())
    ensures l.sessions[sid].agg.ended <= e.at
  {
    LinkedIds(l, sid);
    FoldShape(l.Linked(sid), None, cfg);
    hide FoldSet, DistinctIds;
    var x :| x in l.Linked(sid) && x.at == l.sessions[sid].agg.ended;
    assert x in l.Log() && x.KeyOf() == e.KeyOf();
  }

  // An event is apart from another session exactly when it lands a gap after that session's end.
  lemma AfterEndApart(l: Db, e: Event, t: string, gap: int)
    requires LinksBounded(l) && gap >= 0 && t in l.sessions && OpensNewSession(l.sessions[t].agg.ended, e.at, gap)
    ensures SetsApart({e}, l.Linked(t), gap) && SetsApart(l.Linked(t), {e}, gap)
  {
    forall b | b in l.Linked(t) ensures OpensNewSession(b.at, e.at, gap) {
    }
    hide Db.Linked;
  }

  lemma OtherKeyApart(l: Db, e: Event, t: string, gap: int)
    requires l.Schema() && LinksFit(l) && t in l.sessions && !l.OnKey(t, e.KeyOf())
    ensures SetsApart({e}, l.Linked(t), gap) && SetsApart(l.Linked(t), {e}, gap)
  {
  }

  // A moment that is apart from all of a tight set and not after its end precedes all of it.
  lemma ApartPrecedes(A: set<Event>, gap: int, at: Time, started: Time, ended: Time)
    requires TightSet(A, gap) && gap >= 0 && Spans(A, started, ended) && at <= ended
    requires forall a | a in A :: OpensNewSession(at, a.at, gap) || OpensNewSession(a.at, at, gap)
    ensures OpensNewSession(at, started, gap)
  {
    var last :| last in A && last.at == ended;
    var first :| first in A && first.at == started;
    if first.at <= at {
      Bridged(A, gap, at);
    }
  }

  lemma ApartMoments(l: Db, sid: string, t: string, gap: int, b: Event)
    requires l.Schema() && LinksFit(l) && sid in l.sessions && t in l.sessions && SameKeyRows(l, t, sid)
    requires SetsApart(l.Linked(t), l.Linked(sid), gap) && b in l.Linked(t)
    ensures forall a | a in l.Linked(sid) :: OpensNewSession(b.at, a.at, gap) || OpensNewSession(a.at, b.at, gap)
  {
    forall a | a in l.Linked(sid) ensures Apart(b, a, gap) {
      SameKeyLinks(l, sid, t, a, b);
    }
  }

  // A session apart from another one that ends later precedes all of it.
  lemma EndsBeforeStart(l: Db, sid: string, t: string, cfg: Config)
    requires l.Schema() && LinksFit(l) && sid in l.sessions && t in l.sessions && sid != t && cfg.gap >= 0
    requires Folds(l, sid, cfg) && Folds(l, t, cfg) && TightSet(l.Linked(sid), cfg.gap)
    requires SetsApart(l.Linked(t), l.Linked(sid), cfg.gap) && SameKeyRows(l, t, sid)
    requires l.sessions[t].agg.ended <= l.sessions[sid].agg.ended
    ensures OpensNewSession(l.sessions[t].agg.ended, l.sessions[sid].agg.started, cfg.gap)
  {
    hide Folds, Db.Schema, Db.Linked, SetsApart, LinksFit, TightSet;
    RowSpans(l, sid, cfg);
    RowSpans(l, t, cfg);
    var b :| b in l.Linked(t) && b.at == l.sessions[t].agg.ended;
    ApartMoments(l, sid, t, cfg.gap, b);
    ApartPrecedes(l.Linked(sid), cfg.gap, b.at, l.sessions[sid].agg.started, l.sessions[sid].agg.ended);
  }

  lemma SameKeyLinks(l: Db, s: string, t: string, a: Event, b: Event)
    requires l.Schema() && LinksFit(l) && s in l.sessions && t in l.sessions && SameKeyRows(l, t, s)
    requires a in l.Linked(s) && b in l.Linked(t)
    ensures a.KeyOf() == b.KeyOf()
  {
  }

  // ... so an event that reaches the later session is apart from the earlier one only after its end.
  lemma ApartOnlyAfterEnd(l: Db, e: Event, sid: string, t: string, cfg: Config)
    requires l.Schema() && LinksFit(l) && sid in l.sessions && t in l.sessions && sid != t && cfg.gap >= 0
    requires Folds(l, sid, cfg) && Folds(l, t, cfg) && TightSet(l.Linked(sid), cfg.gap)
    requires SetsApart(l.Linked(t), l.Linked(sid), cfg.gap) && SameKeyRows(l, t, sid)
    requires l.sessions[t].agg.ended <= l.sessions[sid].agg.ended && l.OnKey(t, e.KeyOf())
    requires !OpensNewSession(e.at, l.sessions[sid].agg.started, cfg.gap) && SetsApart({e}, l.Linked(t), cfg.gap)
    ensures OpensNewSession(l.sessions[t].agg.ended, e.at, cfg.gap)
  {
    EndsBeforeStart(l, sid, t, cfg);
    RowSpans(l, t, cfg);
    var b :| b in l.Linked(t) && b.at == l.sessions[t].agg.ended;
    assert b.KeyOf() == e.KeyOf();
    assert Apart(e, b, cfg.gap);
  }

  lemma SplitApart(A: set<Event>, e: Event, B: set<Event>, gap: int)
    requires SetsApart(A, B, gap) && SetsApart(B, A, gap) && SetsApart({e}, B, gap) && SetsApart(B, {e}, gap)
    ensures SetsApart(A + {e}, B, gap) && SetsApart(B, A + {e}, gap)
  {
    forall a, b | a in A + {e} && b in B && a.KeyOf() == b.KeyOf() ensures Apart(a, b, gap) && Apart(b, a, gap) {
      assert a in A || a in {e};
    }
  }

  lemma GainKeepsApart(l: Db, e: Event, sid: string, gap: int, db': Db)
    requires LinksGained(l, e, sid, db') && LinksApart(l, gap)
    requires forall t | t in l.sessions && t != sid ::
      SetsApart({e}, l.Linked(t), gap) && SetsApart(l.Linked(t), {e}, gap)
    ensures LinksApart(db', gap)
  {
    forall t | t in l.sessions && t != sid
      ensures SetsApart(l.Linked(sid) + {e}, l.Linked(t), gap) && SetsApart(l.Linked(t), l.Linked(sid) + {e}, gap)
    {
      if sid !in l.sessions {
        assert SetsApart({}, l.Linked(t), gap) && SetsApart(l.Linked(t), {}, gap);
      }
      SplitApart(l.Linked(sid), e, l.Linked(t), gap);
    }
    hide SetsApart, Db.Linked;
  }

  lemma GainKeepsTight(l: Db, e: Event, sid: string, gap: int, db': Db)
    requires LinksGained(l, e, sid, db') && TightRows(l, gap) && TightSet(l.Linked(sid) + {e}, gap)
    ensures TightRows(db', gap)
  {
    hide TightSet, Db.Linked;
  }

  // What placing an event needs to be known of the state before it.
  ghost predicate Placeable(l: Db, e: Event, sid: string, cfg: Config, db': Db) {
    && Sound(l, cfg) && cfg.gap >= 0 && Arrived(l, e) && Placed(l, e, sid, cfg, db')
    && (Joins(l, e, sid, cfg.gap) || Starts(l, e, sid, cfg.gap))
    && AllFold(l, cfg) && Clean(l, e, sid)
    && (forall id | id in l.events && l.Live(l.events[id].event.media) && id != e.id :: l.events[id].session.Some?)
  }

  /** A clean arrival, in any order, leaves every row the fold of its events and no visible event out. */
  lemma PlaceKeepsExact(l: Db, e: Event, sid: string, cfg: Config, db': Db)
    requires Placeable(l, e, sid, cfg, db')
    ensures Exact(db', cfg) && LinksGained(l, e, sid, db') && RowMoved(l, e, sid, db')
  {
    AssignKeepsSound(l, e, sid, cfg, db');
    TargetRow(l, e, sid, cfg, db');
    RowMoves(l, e, sid, cfg, db');
    hide FoldSet, DistinctIds, RowsKeyed, RowsApart, LinksBounded, NewestFold, CompletionBacked, DeletionAgrees, Joins,
      Starts, Folds, AllFold, Completes, RowPlaced, RowMoved, LinksFit, LinksMoved, Db.Schema, LinksGained, LiveLinked,
      Clean, Db.Linked;
    CleanGains(l, e, sid, cfg, db');
    GainKeepsFolds(l, e, sid, cfg, db');
    LinkKeepsLive(l, e, sid, db');
  }

  // A new event that fits keeps its session tight and the others away.
  lemma FittingTight(l: Db, e: Event, sid: string, cfg: Config)
    requires l.Schema() && AllFold(l, cfg) && TightRows(l, cfg.gap) && Fits(l, e, cfg.gap) && cfg.gap >= 0
    requires Joins(l, e, sid, cfg.gap) || Starts(l, e, sid, cfg.gap)
    ensures TightSet(l.Linked(sid) + {e}, cfg.gap)
  {
    if Joins(l, e, sid, cfg.gap) {
      assert Folds(l, sid, cfg) && FitsBeside(l, sid, e.at, cfg.gap);
      hide Folds, Db.Schema, Db.Linked, Newest;
      RowSpans(l, sid, cfg);
      TightAround(l.Linked(sid), e, cfg.gap, l.sessions[sid].agg.started, l.sessions[sid].agg.ended);
    } else {
      assert l.Linked(sid) == {};
      assert LastOf({e}, e);
      assert TightSet({} + {e}, cfg.gap);
    }
  }

  // Two sessions on a key are not both the newest.
  lemma NewestAlone(l: Db, s: string, t: string, gap: int)
    requires RowsApart(l, gap) && gap >= 0 && Newest(l, s) && Newest(l, t) && SameKeyRows(l, s, t)
    ensures s == t
  {
    NeighboursApart(l, s, t, gap);
    assert SameKeyRows(l, t, s);
  }

  lemma FittingApart(l: Db, e: Event, sid: string, cfg: Config, t: string)
    requires l.Schema() && LinksBounded(l) && LinksFit(l) && RowsApart(l, cfg.gap) && cfg.gap >= 0 &&
      Fits(l, e, cfg.gap)
    requires Joins(l, e, sid, cfg.gap) || Starts(l, e, sid, cfg.gap)
    requires t in l.sessions && t != sid
    ensures SetsApart({e}, l.Linked(t), cfg.gap) && SetsApart(l.Linked(t), {e}, cfg.gap)
  {
    if l.OnKey(t, e.KeyOf()) {
      assert FitsBeside(l, t, e.at, cfg.gap);
      if Joins(l, e, sid, cfg.gap) && Newest(l, t) {
        NewestAlone(l, sid, t, cfg.gap);
      }
      hide Db.Linked, Db.Schema, SetsApart;
      AfterEndApart(l, e, t, cfg.gap);
    } else {
      OtherKeyApart(l, e, t, cfg.gap);
    }
  }

  lemma FittingKeepsStep(l: Db, e: Event, sid: string, cfg: Config, db': Db)
    requires Sound(l, cfg) && AllFold(l, cfg) && Fits(l, e, cfg.gap) && cfg.gap >= 0
    requires Joins(l, e, sid, cfg.gap) || Starts(l, e, sid, cfg.gap)
    requires TightRows(l, cfg.gap) && LinksApart(l, cfg.gap) && LinksGained(l, e, sid, db')
    ensures TightRows(db', cfg.gap) && LinksApart(db', cfg.gap)
  {
    hide TightSet, SetsApart, Db.Linked, Db.Schema, AllFold, LinksFit, LinksBounded, RowsApart, NewestFold,
      CompletionBacked, DeletionAgrees, RowsKeyed, Joins, Starts, Fits, LinksGained, TightRows, LinksApart;
    FittingTight(l, e, sid, cfg);
    forall t | t in l.sessions && t != sid
      ensures SetsApart({e}, l.Linked(t), cfg.gap) && SetsApart(l.Linked(t), {e}, cfg.gap)
    {
      FittingApart(l, e, sid, cfg, t);
    }
    GainKeepsTight(l, e, sid, cfg.gap, db');
    GainKeepsApart(l, e, sid, cfg.gap, db');
  }

  // And only an event that fits does.
  lemma JoinedFits(l: Db, e: Event, sid: string, cfg: Config, db': Db)
    requires Sound(l, cfg) && AllFold(l, cfg) && cfg.gap >= 0 && Joins(l, e, sid, cfg.gap)
    requires LinksGained(l, e, sid, db') && TightRows(db', cfg.gap)
    ensures !OpensNewSession(e.at, l.sessions[sid].agg.started, cfg.gap)
  {
    assert Folds(l, sid, cfg);
    hide Folds, Db.Schema, Db.Linked, LinksFit, LinksBounded, RowsApart, NewestFold, CompletionBacked, DeletionAgrees,
      RowsKeyed;
    RowSpans(l, sid, cfg);
    assert TightSet(db'.Linked(sid), cfg.gap);
    TightOnlyAround(l.Linked(sid), e, cfg.gap, l.sessions[sid].agg.started, l.sessions[sid].agg.ended);
  }

  lemma OthersFit(l: Db, e: Event, sid: string, cfg: Config, db': Db, t: string)
    requires Sound(l, cfg) && AllFold(l, cfg) && cfg.gap >= 0 && Joins(l, e, sid, cfg.gap)
    requires TightRows(l, cfg.gap) && LinksApart(l, cfg.gap) && LinksGained(l, e, sid, db') && LinksApart(db', cfg.gap)
    requires !OpensNewSession(e.at, l.sessions[sid].agg.started, cfg.gap)
    requires t in l.sessions && t != sid && l.OnKey(t, e.KeyOf())
    ensures OpensNewSession(l.sessions[t].agg.ended, e.at, cfg.gap)
  {
    assert Folds(l, sid, cfg) && Folds(l, t, cfg);
    assert SameKeyRows(l, t, sid);
    assert SetsApart(db'.Linked(sid), db'.Linked(t), cfg.gap);
    assert SetsApart({e}, l.Linked(t), cfg.gap) by {
      assert e in db'.Linked(sid) && db'.Linked(t) == l.Linked(t);
    }
    hide Folds, Db.Schema, Db.Linked, LinksBounded, RowsApart, NewestFold, CompletionBacked, DeletionAgrees, RowsKeyed,
      LinksGained, SetsApart, TightSet;
    ApartOnlyAfterEnd(l, e, sid, t, cfg);
  }

  lemma StepFits(l: Db, e: Event, sid: string, cfg: Config, db': Db)
    requires Sound(l, cfg) && AllFold(l, cfg) && cfg.gap >= 0
    requires Joins(l, e, sid, cfg.gap) || Starts(l, e, sid, cfg.gap)
    requires TightRows(l, cfg.gap) && LinksApart(l, cfg.gap) && LinksGained(l, e, sid, db')
    requires TightRows(db', cfg.gap) && LinksApart(db', cfg.gap)
    ensures Fits(l, e, cfg.gap)
  {
    forall t | t in l.sessions && l.OnKey(t, e.KeyOf()) ensures FitsBeside(l, t, e.at, cfg.gap) {
      if Joins(l, e, sid, cfg.gap) {
        hide Sound, AllFold, TightRows, LinksApart, LinksGained;
        JoinedFits(l, e, sid, cfg, db');
        if t != sid {
          OthersFit(l, e, sid, cfg, db', t);
        }
      }
    }
  }

  lemma RetryKeepsStep(l: Db, e: Event, sid: string, gap: int, db': Db)
    requires l.Schema() && LinksFit(l) && Arrived(l, e) && l.events[e.id].session == Some(sid)
    requires TightRows(l, gap) && LinksApart(l, gap) && LinksGained(l, e, sid, db')
    ensures TightRows(db', gap) && LinksApart(db', gap)
  {
    RelinkChangesNothing(l, e, sid, db');
    hide TightSet, SetsApart, Db.Linked, Db.Schema, LinksFit;
  }

  /** A clean arrival keeps the tables in step with the batch if and only if it is a repeat or fits. */
  lemma PlaceKeepsSyncedIff(l: Db, e: Event, sid: string, cfg: Config, db': Db)
    requires Placeable(l, e, sid, cfg, db') && TightRows(l, cfg.gap) && LinksApart(l, cfg.gap)
    ensures Synced(db', cfg) <==> (l.events[e.id].session.Some? || Fits(l, e, cfg.gap))
  {
    hide Exact, AllFold, LinksFit, LinksBounded, RowsApart, NewestFold, CompletionBacked, DeletionAgrees, RowsKeyed,
      Joins, Starts, Fits, Placed, LinksGained, RowMoved, TightRows, LinksApart, Db.Schema;
    PlaceKeepsExact(l, e, sid, cfg, db');
    if l.events[e.id].session == Some(sid) {
      RetryKeepsStep(l, e, sid, cfg.gap, db');
    } else if Fits(l, e, cfg.gap) {
      FittingKeepsStep(l, e, sid, cfg, db');
    } else if TightRows(db', cfg.gap) && LinksApart(db', cfg.gap) {
      StepFits(l, e, sid, cfg, db');
    }
  }

  lemma RelinkChangesNothing(l: Db, e: Event, sid: string, db': Db)
    requires l.Schema() && Arrived(l, e) && l.events[e.id].session == Some(sid) && LinksGained(l, e, sid, db') &&
      LinksFit(l)
    ensures db'.sessions.Keys == l.sessions.Keys && forall t :: db'.Linked(t) == l.Linked(t)
  {
    assert l.Linked(sid) + {e} == l.Linked(sid);
  }

  // ----- deliveries -----

  ghost predicate Whole(db: Db, m: string) {
    forall id | id in db.events && db.events[id].event.media == m :: db.events[id].session.Some?
  }

  // A repeat finds its session the newest on its key, and no other event of the item is outside a session.
  ghost predicate CleanDelivery(db: Db, e: Event) {
    && (e.id in db.events && db.events[e.id].session.Some? ==> Newest(db, db.events[e.id].session.value))
    && (forall id | id in db.events && id != e.id && db.events[id].event.media == e.media ::
      db.events[id].session.Some?)
  }

  ghost predicate FittingDelivery(db: Db, e: Event, gap: int) {
    (e.id in db.events && db.events[e.id].session.Some?) || Fits(db, e, gap)
  }

  // An older session ended a gap before the newest one did.
  lemma OlderFits(db: Db, t: string, e: Event, cfg: Config)
    requires db.Schema() && AllFold(db, cfg) && LinksFit(db) && RowsApart(db, cfg.gap) && InOrder(db, e) && cfg.gap >= 0
    requires t in db.sessions && db.OnKey(t, e.KeyOf()) && !Newest(db, t)
    ensures OpensNewSession(db.sessions[t].agg.ended, e.at, cfg.gap)
  {
    hide Folds, Db.Schema, Db.Linked, LinksFit, InOrder, RowsApart;
    var n :| n in db.sessions && SameKeyRows(db, n, t) && db.sessions[n].agg.ended > db.sessions[t].agg.ended;
    assert Folds(db, n, cfg);
    NeighboursApart(db, n, t, cfg.gap);
    EndInLog(db, n, e, cfg);
  }

  /** Time order suffices: an event no earlier than anything logged on its key fits. */
  lemma InOrderFits(db: Db, e: Event, cfg: Config)
    requires Exact(db, cfg) && InOrder(db, e) && cfg.gap >= 0
    ensures Fits(db, e, cfg.gap)
  {
    forall t | t in db.sessions && db.OnKey(t, e.KeyOf()) ensures FitsBeside(db, t, e.at, cfg.gap) {
      if Newest(db, t) {
        assert Folds(db, t, cfg);
        hide Folds, Db.Schema, Db.Linked, LinksFit, NewestFold, InOrder, AllFold;
        EndInLog(db, t, e, cfg);
        RowSpans(db, t, cfg);
      } else {
        hide Folds, Db.Schema, Db.Linked, LinksFit, NewestFold, InOrder, AllFold;
        OlderFits(db, t, e, cfg);
      }
    }
  }

  lemma NeighboursApart(l: Db, s: string, t: string, gap: int)
    requires RowsApart(l, gap) && s in l.sessions && t in l.sessions && SameKeyRows(l, s, t)
    ensures s == t || EndsApart(l.sessions[s].agg, l.sessions[t].agg, gap)
  {
  }

  lemma NewestIsTarget(l: Db, e: Event, s: string, sid: string, gap: int)
    requires l.Schema() && LinksFit(l) && LinksBounded(l) && RowsApart(l, gap) && gap >= 0 && Arrived(l, e)
    requires Joins(l, e, sid, gap) || Starts(l, e, sid, gap)
    requires l.events[e.id].session == Some(s) && Newest(l, s)
    ensures sid == s
  {
    assert e in l.Linked(s) && l.OnKey(s, e.KeyOf());
    if Joins(l, e, sid, gap) {
      assert SameKeyRows(l, s, sid) && SameKeyRows(l, sid, s);
      NeighboursApart(l, s, sid, gap);
    }
  }

  // What is different once the pipeline has resolved, restored and logged.
  ghost predicate Prepared(db: Db, l: Db, e: Event) {
    && SameAggs(db, l) && SameLinks(db, l)
    && l.events == (if e.id in db.events then db.events else db.events[e.id := EventRow(e, None)])
    && (forall m | m in db.media && m != e.media ::
      m in l.media && (l.media[m].deleted.Some? <==> db.media[m].deleted.Some?))
    && l.Log() == (if e.id in db.events then db.Log() else db.Log() + {e})
    && (e.media !in db.media ==> forall id | id in db.events :: db.events[id].event.media != e.media)
  }

  lemma UnknownItemUnused(db: Db, m: string)
    requires db.Schema() && m !in db.media
    ensures forall id | id in db.events :: db.events[id].event.media != m
  {
  }

  lemma LoggedPrepared(db: Db, raw: Incoming, mint: Mint)
    requires db.Schema() && Unused(db, mint) && Parse(raw) == Accepted
    ensures Prepared(db, Logged(db, raw, mint), EventFor(db, raw, mint))
  {
    hide Db.FindOrCreate, Db.SetDeleted, SameAggs, SameLinks, Db.ResolvedId, ToMediaItem, DurationsKept, Db.Schema;
    var m := ToMediaItem(raw);
    hide Parse;
    var id := db.ResolvedId(m, mint.mediaId);
    var a := db.FindOrCreate(m, mint.mediaId);
    LoggedAggs(db, raw, mint);
    FindOrCreateMedia(db, m, mint.mediaId);
    SetDeletedRows(a, id, None);
    if id !in db.media {
      UnknownItemUnused(db, id);
    }
  }

  lemma PreparedLinked(db: Db, l: Db, e: Event)
    requires LiveLinked(db) && db.Schema() && Prepared(db, l, e) && CleanDelivery(db, e)
    ensures forall id | id in l.events && l.Live(l.events[id].event.media) && id != e.id :: l.events[id].session.Some?
  {
    hide SameAggs, SameLinks, Newest;
  }

  lemma PreparedFolds(db: Db, l: Db, e: Event, cfg: Config)
    requires db.Schema() && l.Schema() && Prepared(db, l, e) && AllFold(db, cfg)
    ensures AllFold(l, cfg)
  {
    hide Db.Schema, Db.Linked, Db.Log, Folds;
    forall s | s in l.sessions ensures Folds(l, s, cfg) {
      SameFold(db, l, s, cfg);
    }
  }

  lemma PreparedSteps(db: Db, l: Db, e: Event, cfg: Config)
    requires db.Schema() && l.Schema() && Prepared(db, l, e)
    ensures AllFold(db, cfg) ==> AllFold(l, cfg)
    ensures TightRows(db, cfg.gap) ==> TightRows(l, cfg.gap)
    ensures LinksApart(db, cfg.gap) ==> LinksApart(l, cfg.gap)
    ensures Fits(db, e, cfg.gap) <==> Fits(l, e, cfg.gap)
  {
    hide AllFold, TightSet, SetsApart, Db.Schema, Db.Linked, Db.Log, Fits;
    if AllFold(db, cfg) {
      PreparedFolds(db, l, e, cfg);
    }
    SameRowsFit(db, l, e, cfg.gap);
  }

  lemma SameRowsNewest(db: Db, l: Db, s: string)
    requires SameAggs(db, l)
    ensures Newest(l, s) <==> Newest(db, s)
  {
    if s in db.sessions {
      assert forall t | t in db.sessions :: SameKeyRows(l, t, s) == SameKeyRows(db, t, s);
    }
  }

  lemma SameRowsFit(db: Db, l: Db, e: Event, gap: int)
    requires SameAggs(db, l)
    ensures Fits(db, e, gap) <==> Fits(l, e, gap)
  {
    forall t | t in db.sessions ensures FitsBeside(db, t, e.at, gap) <==> FitsBeside(l, t, e.at, gap) {
      SameRowsNewest(db, l, t);
      hide Newest;
    }
    hide FitsBeside, Newest;
    assert forall t | t in db.sessions :: db.OnKey(t, e.KeyOf()) <==> l.OnKey(t, e.KeyOf());
  }

  lemma DeliveryPlaceable(db: Db, raw: Incoming, cfg: Config, mint: Mint, db': Db)
    returns (l: Db, e: Event, sid: string)
    requires Sound(db, cfg) && AllFold(db, cfg) && LiveLinked(db)
    requires cfg.gap >= SECOND && Parse(raw) == Accepted && Delivers(db, raw, cfg, mint, db')
    requires CleanDelivery(db, EventFor(db, raw, mint))
    ensures l == Logged(db, raw, mint) && e == EventFor(db, raw, mint)
    ensures Prepared(db, l, e) && Placeable(l, e, sid, cfg, db')
  {
    var latest;
    latest, sid := DeliveryPlaces(db, raw, cfg, mint, db');
    l, e := Logged(db, raw, mint), EventFor(db, raw, mint);
    LoggedPrepared(db, raw, mint);
    PreparedSteps(db, l, e, cfg);
    PreparedLinked(db, l, e);
    hide Db.Schema, AllFold, LinksFit, LinksBounded, RowsApart, NewestFold, CompletionBacked, DeletionAgrees, RowsKeyed,
      Joins, Starts, Placed, Logged, EventFor, Parse, Processed, SameAggs, SameLinks, LiveLinked, Newest;
    PlacedIsClean(db, l, e, sid, cfg);
  }

  lemma PlacedIsClean(db: Db, l: Db, e: Event, sid: string, cfg: Config)
    requires Sound(l, cfg) && cfg.gap >= 0 && Arrived(l, e) && Prepared(db, l, e) && CleanDelivery(db, e)
    requires Joins(l, e, sid, cfg.gap) || Starts(l, e, sid, cfg.gap)
    ensures Clean(l, e, sid)
  {
    hide Db.Schema, LinksFit, LinksBounded, RowsApart, NewestFold, CompletionBacked, DeletionAgrees, RowsKeyed,
      Joins, Starts, SameAggs, SameLinks, Newest, Db.Log;
    if e.id in db.events && db.events[e.id].session.Some? {
      var s := db.events[e.id].session.value;
      SameRowsNewest(db, l, s);
      NewestIsTarget(l, e, s, sid, cfg.gap);
    }
  }

  // ----- what a delivery that is not clean leaves behind -----

  // A repeat that changes sessions leaves a row behind that still counts it.
  lemma StolenRowStale(l: Db, e: Event, s: string, sid: string, cfg: Config, db': Db)
    requires l.Schema() && db'.Schema() && Arrived(l, e) && l.events[e.id].session == Some(s) && s != sid
    requires s in l.sessions && s in db'.sessions && Folds(l, s, cfg) && db'.sessions[s] == l.sessions[s]
    requires db'.Linked(s) == l.Linked(s) - {e}
    ensures !Folds(db', s, cfg)
  {
    assert e in l.Linked(s);
    FoldCounts(l, s, cfg);
    if Folds(db', s, cfg) {
      FoldCounts(db', s, cfg);
    }
    hide FoldSet, DistinctIds, Db.Schema, Db.Linked, Completes, Folds;
  }

  lemma FoldCounts(db: Db, s: string, cfg: Config)
    requires db.Schema() && s in db.sessions && Folds(db, s, cfg)
    ensures db.sessions[s].agg.count == |db.Linked(s)|
  {
    LinkedIds(db, s);
  }

  lemma RepeatNotNewestBreaks(l: Db, e: Event, s: string, sid: string, cfg: Config, db': Db)
    requires Sound(l, cfg) && AllFold(l, cfg) && Arrived(l, e) && l.events[e.id].session == Some(s) && !Newest(l, s)
    requires (Joins(l, e, sid, cfg.gap) || Starts(l, e, sid, cfg.gap)) && Placed(l, e, sid, cfg, db')
    ensures db'.Schema() && !AllFold(db', cfg)
  {
    assert s != sid && s in l.sessions && Folds(l, s, cfg);
    hide Folds, FoldSet, DistinctIds, Db.Schema, Db.Linked, Joins, Starts, Newest, LinksFit, RowsApart, LinksBounded,
      NewestFold, CompletionBacked, DeletionAgrees, RowsKeyed;
    StolenRowStale(l, e, s, sid, cfg, db');
  }

  // An item that comes back with an event outside every session keeps it outside.
  lemma UnlinkedStays(l: Db, e: Event, sid: string, id: string, db': Db)
    requires Arrived(l, e) && LinksMoved(l, e, sid, db') && id in l.events && id != e.id
    requires l.events[id].event.media == e.media && l.events[id].session.None?
    ensures !LiveLinked(db')
  {
    assert db'.events[id] == l.events[id] && db'.Live(e.media);
    hide Db.Schema, Db.Linked, Db.Log;
  }

  lemma UncleanBreaks(db: Db, l: Db, e: Event, sid: string, cfg: Config, db': Db)
    requires Sound(l, cfg) && l.Schema() && AllFold(l, cfg) && Arrived(l, e) && Prepared(db, l, e) &&
      !CleanDelivery(db, e)
    requires (Joins(l, e, sid, cfg.gap) || Starts(l, e, sid, cfg.gap)) && Placed(l, e, sid, cfg, db')
    ensures !Exact(db', cfg)
  {
    hide Sound, AllFold, Joins, Starts, RowPlaced, Db.Schema, LiveLinked, Newest, Arrived, Db.Log, Db.Linked;
    if id :| id in db.events && id != e.id && db.events[id].event.media == e.media && db.events[id].session.None? {
      UnlinkedStays(l, e, sid, id, db');
    } else {
      var s := db.events[e.id].session.value;
      SameRowsNewest(db, l, s);
      RepeatNotNewestBreaks(l, e, s, sid, cfg, db');
    }
  }

  /** In whatever order events arrive: a delivery leaves every row the fold of its events, and no visible event
      out, if and only if it is clean. */
  lemma DeliveryKeepsExactIff(db: Db, raw: Incoming, cfg: Config, mint: Mint, db': Db)
    requires Exact(db, cfg) && cfg.gap >= SECOND && Delivers(db, raw, cfg, mint, db') && Parse(raw) == Accepted
    ensures Exact(db', cfg) <==> CleanDelivery(db, EventFor(db, raw, mint))
  {
    if CleanDelivery(db, EventFor(db, raw, mint)) {
      var l, e, sid := DeliveryPlaceable(db, raw, cfg, mint, db');
      hide Exact, Delivers, Placeable, Prepared, Parse, EventFor, Logged, CleanDelivery;
      PlaceKeepsExact(l, e, sid, cfg, db');
    } else {
      var latest, sid := DeliveryPlaces(db, raw, cfg, mint, db');
      var l, e := Logged(db, raw, mint), EventFor(db, raw, mint);
      assert db.Schema() && l.Schema() by { SoundSchema(db, cfg); SoundSchema(l, cfg); }
      hide Sound, LiveLinked, CleanDelivery, Prepared, AllFold, Joins, Starts, Placed, Parse, EventFor, Logged,
        Db.Schema;
      LoggedPrepared(db, raw, mint);
      PreparedSteps(db, l, e, cfg);
      assert Arrived(l, e);
      UncleanBreaks(db, l, e, sid, cfg, db');
    }
  }

  /** A delivery keeps the tables in step with the batch if and only if it is clean and, unless a repeat, its
      event fits. */
  lemma DeliveryKeepsSyncedIff(db: Db, raw: Incoming, cfg: Config, mint: Mint, db': Db)
    requires Synced(db, cfg) && cfg.gap >= SECOND && Delivers(db, raw, cfg, mint, db') && Parse(raw) == Accepted
    ensures var e := EventFor(db, raw, mint);
      Synced(db', cfg) <==> CleanDelivery(db, e) && FittingDelivery(db, e, cfg.gap)
  {
    hide Prepared, Parse, EventFor, Logged, TightRows, LinksApart, AllFold, Joins, Starts, Placed, Sound,
      CleanDelivery, Processed, Db.Schema, Fits;
    DeliveryKeepsExactIff(db, raw, cfg, mint, db');
    if CleanDelivery(db, EventFor(db, raw, mint)) {
      var l, e, sid := DeliveryPlaceable(db, raw, cfg, mint, db');
      assert l.Schema() && db.Schema() by { SoundSchema(l, cfg); SoundSchema(db, cfg); }
      PreparedSteps(db, l, e, cfg);
      PlaceKeepsSyncedIff(l, e, sid, cfg, db');
      PreparedSession(db, l, e);
    }
  }

  lemma PreparedSession(db: Db, l: Db, e: Event)
    requires Prepared(db, l, e)
    ensures e.id in l.events
    ensures l.events[e.id].session.Some? <==> e.id in db.events && db.events[e.id].session.Some?
  {
    hide SameAggs, SameLinks, Db.Log;
  }
}
