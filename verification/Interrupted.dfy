/** A delivery that stops half way, because a statement fails or the process dies, and is sent again. */
module Interrupted {
  import opened Stamps
  import opened Events
  import opened Folding
  import opened Tables
  import opened Sessionize
  import opened Ingest
  import opened Invariants
  import opened Steps
  import opened Inert
  import opened Live
  import opened Retries
  import opened Healing
  import opened Guarantees
  import opened Runs

  // The tables after each statement of a delivery but its last: the item resolved, brought back, the event logged,
  // the event linked to the session it is going to.
  ghost function Resolved(db: Db, raw: Incoming, mint: Mint): Db
    requires Parse(raw) == Accepted
  {
    db.FindOrCreate(ToMediaItem(raw), mint.mediaId)
  }

  ghost function Restored(db: Db, raw: Incoming, mint: Mint): Db
    requires Parse(raw) == Accepted
  {
    Resolved(db, raw, mint).SetDeleted(EventFor(db, raw, mint).media, None)
  }

  ghost predicate Stopped(db: Db, raw: Incoming, mint: Mint, p: Db)
    requires Parse(raw) == Accepted
  {
    || p == Resolved(db, raw, mint) || p == Restored(db, raw, mint) || p == Logged(db, raw, mint)
    || exists sid :: p == Logged(db, raw, mint).Link(EventFor(db, raw, mint).id, sid)
  }

  lemma EnrichTwice(row: MediaRow, m: MediaItem)
    ensures Enrich(Enrich(row, m), m) == Enrich(row, m) && Enrich(NewMedia(m), m) == NewMedia(m)
    ensures Enrich(row.(deleted := None), m) == Enrich(row, m).(deleted := None)
  {
  }

  // The item is there and knows all the message says of it.
  predicate Knows(p: Db, id: string, m: MediaItem) {
    id in p.media && p.media[id].identity == m.identity && Enrich(p.media[id], m) == p.media[id]
  }

  lemma ResolvedKnows(db: Db, m: MediaItem, newId: string)
    requires db.Schema() && newId !in db.media
    ensures Knows(db.FindOrCreate(m, newId), db.ResolvedId(m, newId), m)
  {
    var id := db.ResolvedId(m, newId);
    if id in db.media {
      EnrichTwice(db.media[id], m);
    } else {
      EnrichTwice(NewMedia(m), m);
    }
    hide NewMedia, LastSeen, FirstSeen;
  }

  lemma RestoredKnows(a: Db, id: string, m: MediaItem)
    requires Knows(a, id, m)
    ensures Knows(a.SetDeleted(id, None), id, m) && a.SetDeleted(id, None).Live(id)
  {
    RestoredMedia(a, id);
    EnrichTwice(a.media[id], m);
    hide Db.SetDeleted, Enrich;
  }

  lemma KnownResolves(p: Db, id: string, m: MediaItem, newId: string)
    requires p.Schema() && Knows(p, id, m)
    ensures p.ResolvedId(m, newId) == id && p.FindOrCreate(m, newId) == p
  {
    assert p.MediaFor(m.identity) == Some(id);
    assert p.media[id := p.media[id]] == p.media;
    hide Enrich;
  }

  // The tables hold together, and the item is there, known and perhaps still deleted.
  ghost predicate Ready(p: Db, id: string, m: MediaItem) {
    p.Schema() && Knows(p, id, m)
  }

  lemma ResolvedReady(db: Db, raw: Incoming, mint: Mint)
    requires db.Schema() && Unused(db, mint) && Parse(raw) == Accepted
    ensures Ready(Resolved(db, raw, mint), EventFor(db, raw, mint).media, ToMediaItem(raw))
  {
    FindOrCreateSchema(db, ToMediaItem(raw), mint.mediaId);
    ResolvedKnows(db, ToMediaItem(raw), mint.mediaId);
    hide Db.ResolvedId, Parse, ToMediaItem, Db.FindOrCreate, Knows, Db.Schema;
  }

  lemma RestoredReady(a: Db, id: string, m: MediaItem)
    requires Ready(a, id, m)
    ensures Ready(a.SetDeleted(id, None), id, m) && a.SetDeleted(id, None).Live(id)
  {
    SetDeletedSchema(a, id, None);
    RestoredKnows(a, id, m);
  }

  lemma LoggedReady(b: Db, e: Event, m: MediaItem, sid: string)
    requires Ready(b, e.media, m) && b.Live(e.media)
    ensures var l := b.Insert(e);
      && Ready(l, e.media, m) && l.Live(e.media)
      && Ready(l.Link(e.id, sid), e.media, m) && l.Link(e.id, sid).Live(e.media)
  {
    InsertSchema(b, e);
    LinkSchema(b.Insert(e), e.id, sid);
    hide Db.Schema, Enrich;
  }

  lemma StoppedKnows(db: Db, raw: Incoming, mint: Mint, p: Db)
    requires db.Schema() && Unused(db, mint) && Parse(raw) == Accepted && Stopped(db, raw, mint, p)
    ensures Ready(p, EventFor(db, raw, mint).media, ToMediaItem(raw))
    ensures p != Resolved(db, raw, mint) ==> p.Live(EventFor(db, raw, mint).media)
  {
    var m, e, b := ToMediaItem(raw), EventFor(db, raw, mint), Restored(db, raw, mint);
    assert Logged(db, raw, mint) == b.Insert(e);
    hide Logged, EventFor, Db.SetDeleted, Db.ResolvedId, Parse, ToMediaItem, Ready, Db.Schema, Db.Insert, Db.Link,
      Resolved, Db.Live, Unused;
    ResolvedReady(db, raw, mint);
    RestoredReady(Resolved(db, raw, mint), e.media, m);
    LoggedReady(b, e, m, "");
    if sid :| p == b.Insert(e).Link(e.id, sid) {
      LoggedReady(b, e, m, sid);
    }
  }

  lemma InsertedRepeats(b: Db, e: Event, sid: string)
    requires Repeats(b, e)
    ensures Repeats(b.Insert(e), e) && Repeats(b.Insert(e).Link(e.id, sid), e)
  {
  }

  lemma ResolvedEvents(db: Db, raw: Incoming, mint: Mint)
    requires db.Schema() && Unused(db, mint) && Parse(raw) == Accepted
    ensures Resolved(db, raw, mint).events == db.events && Restored(db, raw, mint).events == db.events
  {
    SetDeletedRows(Resolved(db, raw, mint), EventFor(db, raw, mint).media, None);
    hide Db.SetDeleted, Db.ResolvedId, Parse, ToMediaItem, SameAggs, DurationsKept;
  }

  // The event a retry finds or logs is the same one.
  lemma StoppedRepeats(db: Db, raw: Incoming, mint: Mint, p: Db)
    requires db.Schema() && Unused(db, mint) && Parse(raw) == Accepted && Repeats(db, EventFor(db, raw, mint))
    requires Stopped(db, raw, mint, p)
    ensures Repeats(p, EventFor(db, raw, mint))
  {
    var e, b := EventFor(db, raw, mint), Restored(db, raw, mint);
    assert Logged(db, raw, mint) == b.Insert(e);
    ResolvedEvents(db, raw, mint);
    hide Logged, EventFor, Parse, Resolved, Restored, Db.Insert, Db.Link, Db.Schema, Unused;
    InsertedRepeats(b, e, "");
    if sid :| p == b.Insert(e).Link(e.id, sid) {
      InsertedRepeats(b, e, sid);
    }
  }

  // Assigning an event does not depend on the session it is linked to before.
  lemma RelinkedAssign(l: Db, e: Event, sid: string, latest: Option<string>, cfg: Config, newId: string, now: Time)
    requires l.Schema() && l.IsLatest(latest, e.KeyOf())
    ensures var p := l.Link(e.id, sid);
      && p.Schema() && p.IsLatest(latest, e.KeyOf())
      && AssignWith(p, e, latest, cfg, newId, now) == AssignWith(l, e, latest, cfg, newId, now)
  {
    LinkSchema(l, e.id, sid);
    var to := Target(l, e, latest, cfg.gap, newId);
    assert l.Link(e.id, sid).Link(e.id, to) == l.Link(e.id, to);
    hide FoldSet, StampLess, Db.Linked;
  }

  lemma RelinkedAssigned(l: Db, e: Event, sid: string, cfg: Config, newId: string, now: Time, db': Db)
    requires l.Schema() && l.Link(e.id, sid).Schema()
    ensures Assigned(l.Link(e.id, sid), e, cfg, newId, now, db') <==> Assigned(l, e, cfg, newId, now, db')
  {
    hide Db.Schema, AssignWith, StampLess;
    assert forall latest :: l.Link(e.id, sid).IsLatest(latest, e.KeyOf()) <==> l.IsLatest(latest, e.KeyOf());
    hide Db.IsLatest, Db.Link;
    forall latest | l.IsLatest(latest, e.KeyOf())
      ensures AssignWith(l.Link(e.id, sid), e, latest, cfg, newId, now) == AssignWith(l, e, latest, cfg, newId, now)
    {
      RelinkedAssign(l, e, sid, latest, cfg, newId, now);
    }
  }

  ghost predicate LinkedOnly(l: Db, e: Event, p: Db) {
    exists sid :: p == l.Link(e.id, sid)
  }

  lemma InsertedTwice(b: Db, e: Event)
    ensures b.Insert(e).Insert(e) == b.Insert(e)
    ensures forall sid :: b.Insert(e).Link(e.id, sid).Insert(e) == b.Insert(e).Link(e.id, sid)
  {
  }

  // What a retry prepares is what the first attempt had prepared, or had gone on to link.
  lemma RetryPrepares(db: Db, raw: Incoming, mint: Mint, p: Db, again: Mint)
    requires db.Schema() && Unused(db, mint) && Parse(raw) == Accepted && Stopped(db, raw, mint, p)
    ensures p.Schema() && EventFor(p, raw, again) == EventFor(db, raw, mint)
    ensures var l, l' := Logged(db, raw, mint), Logged(p, raw, again);
      l' == l || (l' == p && LinkedOnly(l, EventFor(db, raw, mint), p))
  {
    var m, e, b := ToMediaItem(raw), EventFor(db, raw, mint), Restored(db, raw, mint);
    assert Logged(db, raw, mint) == b.Insert(e);
    StoppedKnows(db, raw, mint, p);
    KnownResolves(p, e.media, m, again.mediaId);
    assert EventFor(p, raw, again) == e && Logged(p, raw, again) == p.SetDeleted(e.media, None).Insert(e);
    hide Logged, EventFor, Db.ResolvedId, Parse, ToMediaItem, Knows, Db.FindOrCreate, Db.Schema, Unused, Db.SetDeleted,
      Db.Insert, Db.Link;
    assert p.Live(e.media) ==> p.SetDeleted(e.media, None) == p by { LiveStays(p, e.media); }
    InsertedTwice(b, e);
  }

  lemma LiveStays(p: Db, id: string)
    ensures p.Live(id) ==> p.SetDeleted(id, None) == p
  {
  }

  lemma RetryAssigns(db: Db, raw: Incoming, cfg: Config, mint: Mint, p: Db, again: Mint, db': Db)
    requires db.Schema() && Unused(db, mint) && Parse(raw) == Accepted && Repeats(db, EventFor(db, raw, mint))
    requires Stopped(db, raw, mint, p) && Unused(p, again)
    ensures p.Schema() && Logged(db, raw, mint).Schema() && EventFor(p, raw, again) == EventFor(db, raw, mint)
    ensures Delivers(p, raw, cfg, again, db') <==>
      Assigned(Logged(db, raw, mint), EventFor(db, raw, mint), cfg, again.sessionId, again.now, db')
  {
    var l, e := Logged(db, raw, mint), EventFor(db, raw, mint);
    LoggedArrives(db, raw, mint);
    RetryPrepares(db, raw, mint, p, again);
    StoppedRepeats(db, raw, mint, p);
    LoggedSchema(p, raw, again);
    hide Logged, EventFor, Parse, Assigned, Db.Schema, Repeats, Stopped, Arrived, Db.Link;
    if Logged(p, raw, again) != l {
      var sid :| p == l.Link(e.id, sid);
      RelinkedAssigned(l, e, sid, cfg, again.sessionId, again.now, db');
    }
  }

  /** A delivery can stop after any of its statements and be sent again: the retry ends exactly where the delivery
      would have ended with the session id and the time that the retry mints. */
  lemma RetryCompletes(db: Db, raw: Incoming, cfg: Config, mint: Mint, p: Db, again: Mint, db': Db)
    requires db.Schema() && Unused(db, mint) && Parse(raw) == Accepted && Repeats(db, EventFor(db, raw, mint))
    requires Stopped(db, raw, mint, p) && Unused(p, again) && Fresh(db, again.sessionId)
    ensures Delivers(p, raw, cfg, again, db') <==>
      Delivers(db, raw, cfg, Ingest.Mint(mint.mediaId, again.sessionId, again.now), db')
  {
    var minted := Ingest.Mint(mint.mediaId, again.sessionId, again.now);
    RetryAssigns(db, raw, cfg, mint, p, again, db');
    assert Unused(db, minted);
    assert Logged(db, raw, minted) == Logged(db, raw, mint) && EventFor(db, raw, minted) == EventFor(db, raw, mint);
    hide Logged, EventFor, Parse, Assigned, Db.Schema, Repeats, Stopped;
  }

  // ----- runs in which deliveries may stop -----

  // A step of a run, or a delivery that stops after one of its statements.
  datatype Turn = Whole(step: Step) | Stop(raw: Incoming, mint: Mint)

  ghost predicate Turns(db: Db, turn: Turn, cfg: Config, db': Db) {
    match turn
    case Whole(step) => Next(db, step, cfg, db')
    case Stop(raw, mint) =>
      && db.Schema() && Unused(db, mint) && Parse(raw) == Accepted && Repeats(db, EventFor(db, raw, mint))
      && Stopped(db, raw, mint, db')
  }

  ghost predicate FaultyRun(states: seq<Db>, turns: seq<Turn>, cfg: Config) {
    && |states| == |turns| + 1 && states[0] == EMPTY_DB
    && forall i | 0 <= i < |turns| :: Turns(states[i], turns[i], cfg, states[i + 1])
  }

  // The delivery got as far as logging its event.
  ghost predicate GotLogged(db: Db, raw: Incoming, mint: Mint, p: Db)
    requires Parse(raw) == Accepted
  {
    p == Logged(db, raw, mint) || LinkedOnly(Logged(db, raw, mint), EventFor(db, raw, mint), p)
  }

  // The event a turn adds to the log.
  ghost function Added(db: Db, turn: Turn, db': Db): set<Wire> {
    match turn
    case Whole(step) => if step.Deliver? && Parse(step.raw) == Accepted then {WireOf(step.raw)} else {}
    case Stop(raw, mint) =>
      if Parse(raw) == Accepted && GotLogged(db, raw, mint, db') then {WireOf(raw)} else {}
  }

  ghost function AddedBy(states: seq<Db>, turns: seq<Turn>, n: nat): set<Wire>
    requires n <= |turns| && n < |states|
  {
    if n == 0 then {} else AddedBy(states, turns, n - 1) + Added(states[n - 1], turns[n - 1], states[n])
  }

  // The statements that keep the log, and what they keep of it.
  lemma KeptBasic(a: Db, b: Db)
    requires Basic(a) && b.Schema() && DeletionAgrees(b) && Kept(a, b) && b.events.Keys == a.events.Keys
    ensures Basic(b) && WireLog(b) == WireLog(a)
  {
    SameWires(a, b);
  }

  lemma ResolvedBasic(db: Db, raw: Incoming, mint: Mint)
    requires Basic(db) && Unused(db, mint) && Parse(raw) == Accepted
    ensures Basic(Resolved(db, raw, mint)) && WireLog(Resolved(db, raw, mint)) == WireLog(db)
  {
    var m := ToMediaItem(raw);
    var a := db.FindOrCreate(m, mint.mediaId);
    FindOrCreateSchema(db, m, mint.mediaId);
    FindOrCreateMedia(db, m, mint.mediaId);
    ResolvedIdentity(db, m, mint.mediaId);
    assert DeletionAgrees(a);
    hide Db.Schema, Db.FindOrCreate, Db.ResolvedId, Parse, ToMediaItem, DurationsKept, WireLog, Kept, DeletionAgrees;
    KeptBasic(db, a);
  }

  lemma LinkKeepsBasic(l: Db, eventId: string, sid: string)
    requires Basic(l)
    ensures Basic(l.Link(eventId, sid)) && WireLog(l.Link(eventId, sid)) == WireLog(l)
  {
    LinkSchema(l, eventId, sid);
    assert Kept(l, l.Link(eventId, sid)) && DeletionAgrees(l.Link(eventId, sid));
    hide Db.Schema, Db.Link, WireLog, Kept, DeletionAgrees;
    assert l.Link(eventId, sid).events.Keys == l.events.Keys by { LinkKeys(l, eventId, sid); }
    KeptBasic(l, l.Link(eventId, sid));
  }

  lemma LinkKeys(l: Db, eventId: string, sid: string)
    ensures l.Link(eventId, sid).events.Keys == l.events.Keys
  {
  }

  lemma LoggedBasic(db: Db, raw: Incoming, mint: Mint)
    requires Basic(db) && Unused(db, mint) && Parse(raw) == Accepted && Repeats(db, EventFor(db, raw, mint))
    ensures Basic(Logged(db, raw, mint)) && WireLog(Logged(db, raw, mint)) == WireLog(db) + {WireOf(raw)}
  {
    LoggedAgrees(db, raw, mint);
    LoggedWires(db, raw, mint);
  }

  lemma StopKeepsBasic(db: Db, raw: Incoming, mint: Mint, p: Db)
    requires Basic(db) && Unused(db, mint) && Parse(raw) == Accepted && Repeats(db, EventFor(db, raw, mint))
    requires Stopped(db, raw, mint, p)
    ensures Basic(p) && WireLog(p) == WireLog(db) + if GotLogged(db, raw, mint, p) then {WireOf(raw)} else {}
  {
    var e, a, l := EventFor(db, raw, mint), Resolved(db, raw, mint), Logged(db, raw, mint);
    hide Logged, EventFor, Parse, Resolved, WireLog, WireOf, Basic, Repeats, Unused, Db.SetDeleted, Db.Link;
    LoggedBasic(db, raw, mint);
    ResolvedBasic(db, raw, mint);
    DeletionKeepsBasic(a, e.media, None);
    if sid :| p == l.Link(e.id, sid) {
      LinkKeepsBasic(l, e.id, sid);
    }
  }

  lemma TurnKeepsBasic(db: Db, turn: Turn, cfg: Config, db': Db)
    requires Basic(db) && cfg.gap >= 0 && Turns(db, turn, cfg, db')
    ensures Basic(db') && WireLog(db') == WireLog(db) + Added(db, turn, db')
  {
    hide Basic, WireLog, WireOf, Parse, Next, Stopped, GotLogged, EventFor, Repeats, Unused, Db.Schema;
    match turn
    case Whole(step) => StepKeepsBasic(db, step, cfg, db');
    case Stop(raw, mint) => StopKeepsBasic(db, raw, mint, db');
  }

  /** Whatever stops where and comes in between: in every state a session is deleted exactly when its item is, and the
      log holds exactly the events of the deliveries that got as far as logging theirs, each once. */
  lemma {:induction false} EveryFaultyState(states: seq<Db>, turns: seq<Turn>, cfg: Config, n: nat)
    requires FaultyRun(states, turns, cfg) && cfg.gap >= 0 && n < |states|
    ensures Basic(states[n]) && WireLog(states[n]) == AddedBy(states, turns, n)
    ensures |WireLog(states[n])| == |states[n].events|
  {
    hide Turns, Added, WireLog;
    if n == 0 {
      EmptyWires();
    } else {
      hide Basic;
      EveryFaultyState(states, turns, cfg, n - 1);
      TurnKeepsBasic(states[n - 1], turns[n - 1], cfg, states[n]);
    }
    WireCount(states[n]);
  }

  /** And whatever had stopped before, a rebuild of named events leaves the tables in step with the log. */
  lemma FaultsAreHealed(states: seq<Db>, turns: seq<Turn>, cfg: Config, n: nat)
    requires FaultyRun(states, turns, cfg) && cfg.gap >= 0 && n < |turns|
    requires turns[n].Whole? && turns[n].step.Replay? && Named(states[n])
    ensures Synced(states[n + 1], cfg) && AllCurrent(states[n + 1], cfg)
  {
    assert Turns(states[n], turns[n], cfg, states[n + 1]);
    hide Next, Named, Synced, AllCurrent, WireLog, FaultyRun;
    EveryFaultyState(states, turns, cfg, n);
    ReplaySyncs(states[n], turns[n].step, cfg, states[n + 1]);
  }
}
