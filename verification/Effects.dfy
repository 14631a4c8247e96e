/** What one step of a run does to every row of the tables, column by column. */
module Effects {
  import opened Sorting
  import opened Stamps
  import opened Events
  import opened Folding
  import opened Rebuild
  import opened Tables
  import opened Sessionize
  import opened Ingest
  import opened Invariants
  import opened Steps
  import opened Partition
  import opened Healing
  import opened Guarantees
  import opened Runs

  // ----- deliveries -----

  // A row of the item and the instance that a message names.
  predicate Mine(db: Db, t: string, m: string, instance: string) {
    t in db.sessions && db.sessions[t].media == m && db.sessions[t].instance == Some(instance)
  }

  // No row beside it prints a later end.
  ghost predicate PrintsLast(db: Db, t: string, m: string, instance: string) {
    && Mine(db, t, m, instance)
    && forall u | Mine(db, u, m, instance) :: !StampLess(db.sessions[t].agg.ended, db.sessions[u].agg.ended)
  }

  // Where the event goes: to the row that prints the latest end if the event comes within the gap of that end, and
  // otherwise to a new one.
  ghost predicate Chosen(db: Db, raw: Incoming, cfg: Config, mint: Mint, m: string, sid: string)
    requires raw.Incoming?
  {
    if sid in db.sessions then
      PrintsLast(db, sid, m, raw.instance) && raw.at - db.sessions[sid].agg.ended <= cfg.gap
    else
      && sid == mint.sessionId
      && ((forall t | t in db.sessions :: !Mine(db, t, m, raw.instance)) ||
          exists t :: PrintsLast(db, t, m, raw.instance) && raw.at - db.sessions[t].agg.ended > cfg.gap)
  }

  // What becomes of it: the event is linked to its row, which is written anew as the fold of its links, and the
  // other rows of the item come back.
  ghost predicate SessionStored(db: Db, raw: Incoming, cfg: Config, mint: Mint, m: string, sid: string, db': Db)
    requires raw.Incoming?
  {
    && raw.eventId in db'.events && db'.events[raw.eventId].session == Some(sid)
    && db'.sessions.Keys == db.sessions.Keys + {sid}
    && (forall t | t in db.sessions && t != sid ::
         db'.sessions[t] == if db.sessions[t].media == m then db.sessions[t].(deleted := None) else db.sessions[t])
    && var row := db'.sessions[sid];
       && row.media == m && row.kind == raw.kind && row.instance == Some(raw.instance) && row.deleted == None
       && row.updated == mint.now && row.created == (if sid in db.sessions then db.sessions[sid].created else mint.now)
       && DistinctIds(EventsOf(db', sid)) && m in db'.media
       && row.agg == FoldSet(EventsOf(db', sid), db'.media[m].duration, cfg)
  }

  ghost function EventsOf(db: Db, sid: string): set<Event> {
    set x | x in db.events && db.events[x].session == Some(sid) :: db.events[x].event
  }

  // The rows of the item are back, and no other row has changed.
  ghost predicate Back(db: Db, m: string, l: Db) {
    && l.sessions.Keys == db.sessions.Keys
    && forall t | t in db.sessions :: l.sessions[t] == Revived(db.sessions[t], m)
  }

  function Revived(row: SessionRow, m: string): SessionRow {
    if row.media == m then row.(deleted := None) else row
  }

  lemma LoggedRows(db: Db, raw: Incoming, mint: Mint)
    requires Basic(db) && mint.mediaId !in db.media && Parse(raw) == Accepted
    ensures Back(db, EventFor(db, raw, mint).media, Logged(db, raw, mint))
  {
    var m := ToMediaItem(raw);
    var id := db.ResolvedId(m, mint.mediaId);
    hide Parse, Enrich, NewMedia, ToEvent;
    RevivedRows(db, db.FindOrCreate(m, mint.mediaId), id);
    hide Db.FindOrCreate, Db.SetDeleted;
  }

  lemma RevivedRows(db: Db, a: Db, id: string)
    requires Basic(db) && a.sessions == db.sessions && id in a.media
    requires if id in db.media then a.media[id].deleted == db.media[id].deleted else a.media[id].deleted == None
    ensures Back(db, id, a.SetDeleted(id, None))
  {
  }

  lemma AssignedRow(l: Db, e: Event, latest: Option<string>, cfg: Config, newId: string, now: Time)
    requires l.Schema() && Arrived(l, e) && l.IsLatest(latest, e.KeyOf()) && newId !in l.sessions
    ensures var sid, l' := Target(l, e, latest, cfg.gap, newId), AssignWith(l, e, latest, cfg, newId, now);
      && e.id in l'.events && l'.events[e.id].session == Some(sid) && sid in l'.sessions
      && l'.sessions[sid].updated == now && l'.sessions[sid].deleted == None
      && l'.sessions[sid].created == (if sid in l.sessions then l.sessions[sid].created else now)
  {
    hide FoldSet, Db.Linked;
  }

  lemma TargetChosen(l: Db, raw: Incoming, cfg: Config, mint: Mint, e: Event, latest: Option<string>)
    requires l.IsLatest(latest, e.KeyOf()) && mint.sessionId !in l.sessions
    requires forall t | t in l.sessions && l.sessions[t].media == e.media :: l.sessions[t].deleted == None
    requires raw.Incoming? && e.instance == raw.instance && e.at == raw.at
    ensures Chosen(l, raw, cfg, mint, e.media, Target(l, e, latest, cfg.gap, mint.sessionId))
  {
    hide StampLess;
    forall t ensures Mine(l, t, e.media, e.instance) <==> l.LiveOnKey(t, e.KeyOf()) {
    }
    if latest.Some? {
      assert PrintsLast(l, latest.value, e.media, e.instance);
    }
  }

  lemma ItemBack(db: Db, m: string, l: Db)
    requires Back(db, m, l)
    ensures forall t | t in l.sessions && l.sessions[t].media == m :: l.sessions[t].deleted == None
  {
  }

  lemma MessageKey(db: Db, raw: Incoming, mint: Mint)
    requires Parse(raw) == Accepted
    ensures var e := EventFor(db, raw, mint);
      raw.Incoming? && e.id == raw.eventId && e.kind == raw.kind && e.instance == raw.instance && e.at == raw.at
  {
    hide Db.ResolvedId;
  }

  // The tables after an assignment, read against those before the delivery.
  lemma PlacedStores(db: Db, l: Db, raw: Incoming, cfg: Config, mint: Mint, e: Event, sid: string, db': Db)
    requires raw.Incoming? && e.id == raw.eventId && e.kind == raw.kind && e.instance == raw.instance
    requires Back(db, e.media, l) && l.Schema() && Arrived(l, e) && Placed(l, e, sid, cfg, db')
    requires e.id in db'.events && db'.events[e.id].session == Some(sid)
    requires sid in db'.sessions && db'.sessions[sid].updated == mint.now && db'.sessions[sid].deleted == None
    requires db'.sessions[sid].created == (if sid in l.sessions then l.sessions[sid].created else mint.now)
    ensures SessionStored(db, raw, cfg, mint, e.media, sid, db')
  {
    hide FoldSet, DistinctIds, EventsOf, Db.Linked, Db.Schema, Db.Log, Db.Link;
    SameLinked(db', sid);
  }

  lemma SameLinked(db: Db, sid: string)
    ensures EventsOf(db, sid) == db.Linked(sid)
  {
  }

  lemma SameEvent(db: Db, raw: Incoming, e: Event, db': Db)
    requires raw.Incoming? && e.id == raw.eventId && Repeats(db, e) && EventStored(db, raw, e.media, db')
    ensures db'.events[raw.eventId].event.media == e.media
  {
    hide StoredAs;
  }

  lemma SameChoice(db: Db, l: Db, raw: Incoming, cfg: Config, mint: Mint, m: string, sid: string)
    requires raw.Incoming? && Back(db, m, l)
    requires Chosen(l, raw, cfg, mint, m, sid)
    ensures Chosen(db, raw, cfg, mint, m, sid)
  {
    hide StampLess;
    forall t ensures Mine(l, t, m, raw.instance) <==> Mine(db, t, m, raw.instance) {
    }
    forall t | t in db.sessions ensures l.sessions[t].agg == db.sessions[t].agg {
    }
    hide Mine;
    forall t ensures PrintsLast(l, t, m, raw.instance) <==> PrintsLast(db, t, m, raw.instance) {
    }
  }

  /** What an accepted delivery does to the sessions, in every state a run can reach: its event goes to the row of its
      item and instance that prints the latest end if it comes within the gap of that end, and otherwise to a new one;
      that row is dated, and is the fold of the events linked to it; the other rows of the item come back, and the rows
      of other items stay as they are. */
  lemma DeliverySessions(db: Db, raw: Incoming, cfg: Config, mint: Mint, db': Db) returns (m: string, sid: string)
    requires Basic(db) && Delivers(db, raw, cfg, mint, db') && Parse(raw) == Accepted
    ensures raw.Incoming? && ItemStored(db, raw, m, db') && EventStored(db, raw, m, db')
    ensures db'.events[raw.eventId].event.media == m
    ensures Chosen(db, raw, cfg, mint, m, sid) && SessionStored(db, raw, cfg, mint, m, sid, db')
  {
    hide Parse, EventFor, Logged, Target, AssignWith, Db.Schema, Placed, Arrived, Db.IsLatest, ItemStored, EventStored,
      Chosen, SessionStored, Repeats, Back, DeletionAgrees, Db.Link;
    var l, e := Logged(db, raw, mint), EventFor(db, raw, mint);
    m := e.media;
    MessageKey(db, raw, mint);
    LoggedArrives(db, raw, mint);
    LoggedRows(db, raw, mint);
    ItemBack(db, m, l);
    ProcessedStores(db, raw, cfg, mint, db');
    SameEvent(db, raw, e, db');
    var latest: Option<string> :| l.IsLatest(latest, e.KeyOf()) &&
      db' == AssignWith(l, e, latest, cfg, mint.sessionId, mint.now);
    LatestStored(l, latest, e.KeyOf());
    sid := Target(l, e, latest, cfg.gap, mint.sessionId);
    AssignPlaces(l, e, latest, cfg, mint.sessionId, mint.now);
    AssignedRow(l, e, latest, cfg, mint.sessionId, mint.now);
    TargetChosen(l, raw, cfg, mint, e, latest);
    SameChoice(db, l, raw, cfg, mint, m, sid);
    PlacedStores(db, l, raw, cfg, mint, e, sid, db');
  }

  // ----- the log of a run -----

  predicate Sends(step: Step, w: Wire) {
    step.Deliver? && Parse(step.raw) == Accepted && WireOf(step.raw) == w
  }

  lemma {:induction false} InDelivered(steps: seq<Step>, w: Wire)
    ensures w in Delivered(steps) <==> exists i :: 0 <= i < |steps| && Sends(steps[i], w)
  {
    hide Sends;
    if steps != [] {
      var n := |steps| - 1;
      InDelivered(steps[..n], w);
      assert w in Delivered(steps) <==> w in Delivered(steps[..n]) || Sends(steps[n], w) by {
        LastSends(steps, w);
      }
    }
  }

  lemma LastSends(steps: seq<Step>, w: Wire)
    requires steps != []
    ensures var n := |steps| - 1; w in Delivered(steps) <==> w in Delivered(steps[..n]) || Sends(steps[n], w)
  {
    hide Parse, WireOf;
  }

  lemma WireSays(e: Event, identity: string, raw: Incoming)
    requires Parse(raw) == Accepted && AsWire(e, identity) == WireOf(raw)
    ensures raw.Incoming? && StoredAs(e, raw) && identity == raw.kind + ":" + raw.externalId
  {
    EventIsMessage(raw, e.media);
    hide StoredAs, TypeNamed;
  }

  // The step delivered the message that the event with this id is stored from.
  ghost predicate Brought(step: Step, db: Db, x: string) {
    && x in db.events && db.events[x].event.media in db.media
    && step.Deliver? && Parse(step.raw) == Accepted && step.raw.eventId == x
    && StoredAs(db.events[x].event, step.raw)
    && db.media[db.events[x].event.media].identity == step.raw.kind + ":" + step.raw.externalId
  }

  lemma WireBrought(step: Step, db: Db, x: string)
    requires db.Schema() && x in db.events && Sends(step, WireAt(db, x))
    ensures Brought(step, db, x)
  {
    hide Parse, StoredAs, WireOf;
    var e := db.events[x].event;
    WireSays(e, db.media[e.media].identity, step.raw);
    MessageId(step.raw, e);
  }

  lemma MessageId(raw: Incoming, e: Event)
    requires raw.Incoming? && StoredAs(e, raw)
    ensures e.id == raw.eventId
  {
  }

  lemma SentIsThere(step: Step, db: Db, w: Wire)
    requires db.Schema() && w in WireLog(db) && Sends(step, w)
    ensures Brought(step, db, step.raw.eventId)
  {
    hide Sends, Brought, Db.Schema;
    var x :| x in db.events && WireAt(db, x) == w;
    WireBrought(step, db, x);
    assert step.raw.eventId == x by { BroughtId(step, db, x); }
  }

  lemma BroughtId(step: Step, db: Db, x: string)
    requires Brought(step, db, x)
    ensures step.Deliver? && step.raw.Incoming? && step.raw.eventId == x
  {
  }

  /** In every state of every run the log holds just the messages accepted so far, each under its own id and as it
      was sent: with its type, time, source and instance, its position or the nearer end of what is allowed, and on
      the item of its source and external id. */
  lemma MessagesAreTheLog(states: seq<Db>, steps: seq<Step>, cfg: Config, n: nat)
    requires Run(states, steps, cfg) && cfg.gap >= 0 && n < |states|
    ensures forall i | 0 <= i < n && steps[i].Deliver? && Parse(steps[i].raw) == Accepted ::
      Brought(steps[i], states[n], steps[i].raw.eventId)
    ensures forall x | x in states[n].events :: exists i :: 0 <= i < n && Brought(steps[i], states[n], x)
  {
    hide Next, Sends, Brought, WireOf, WireLog, Db.Schema, Delivered, TypeNamed;
    var db := states[n];
    LogIsWhatWasDelivered(states, steps, cfg, n);
    forall i | 0 <= i < n && steps[i].Deliver? && Parse(steps[i].raw) == Accepted
      ensures Brought(steps[i], db, steps[i].raw.eventId)
    {
      assert Sends(steps[i], WireOf(steps[i].raw)) by { SendsOwn(steps[i]); }
      assert steps[..n][i] == steps[i];
      InDelivered(steps[..n], WireOf(steps[i].raw));
      SentIsThere(steps[i], db, WireOf(steps[i].raw));
    }
    forall x | x in db.events ensures exists i :: 0 <= i < n && Brought(steps[i], db, x) {
      InWireLog(db, x);
      InDelivered(steps[..n], WireAt(db, x));
      var i :| 0 <= i < n && Sends(steps[..n][i], WireAt(db, x));
      WireBrought(steps[i], db, x);
    }
  }

  lemma SendsOwn(step: Step)
    requires step.Deliver? && Parse(step.raw) == Accepted
    ensures Sends(step, WireOf(step.raw))
  {
  }

  lemma InWireLog(db: Db, x: string)
    requires db.Schema() && x in db.events
    ensures WireAt(db, x) in WireLog(db)
  {
  }

  // ----- deletions and restorations -----

  // The item and all its sessions carry the stamp, and nothing else has changed.
  ghost predicate Stamped(db: Db, id: string, stamp: Option<Time>, db': Db)
    requires id in db.media
  {
    && db'.events == db.events && db'.media == db.media[id := db.media[id].(deleted := stamp)]
    && db'.sessions.Keys == db.sessions.Keys
    && forall s | s in db.sessions ::
      db'.sessions[s] == if db.sessions[s].media == id then db.sessions[s].(deleted := stamp) else db.sessions[s]
  }

  /** In any tables at all: the call that deletes or restores reaches the item if it is in the other state, and with it
      those of its sessions that are; without the item, or with it in that state already, nothing changes. */
  lemma StampReaches(db: Db, id: string, stamp: Option<Time>)
    ensures var db', reached := db.SetDeleted(id, stamp), id in db.media && db.media[id].deleted.Some? == stamp.None?;
      && (!reached ==> db' == db) && db'.events == db.events && db'.sessions.Keys == db.sessions.Keys
      && (reached ==> db'.media == db.media[id := db.media[id].(deleted := stamp)])
      && (forall s | s in db.sessions :: db'.sessions[s] ==
           if reached && db.sessions[s].media == id && db.sessions[s].deleted.Some? == stamp.None?
           then db.sessions[s].(deleted := stamp) else db.sessions[s])
  {
  }

  /** Deleting an item that is there and not deleted stamps it and all its sessions with the time, restoring one that
      is deleted takes the stamp off all of them, and otherwise neither changes anything. */
  lemma DeletionStamps(db: Db, step: Step, cfg: Config, db': Db)
    requires Basic(db) && Next(db, step, cfg, db') && (step.Delete? || step.Restore?)
    ensures step.Delete? ==>
      if step.id in db.media && db.media[step.id].deleted.None? then Stamped(db, step.id, Some(step.now), db')
      else db' == db
    ensures step.Restore? ==>
      if step.id in db.media && db.media[step.id].deleted.Some? then Stamped(db, step.id, None, db') else db' == db
  {
  }

  // ----- rebuilds -----

  // The events of items that are not deleted, and the lengths that are known.
  ghost function VisibleEvents(db: Db): set<Event>
    requires db.Schema()
  {
    set id | id in db.events && db.media[db.events[id].event.media].deleted == None :: db.events[id].event
  }

  function KnownLengths(db: Db): map<string, Option<int>> {
    map m | m in db.media :: db.media[m].duration
  }

  // The row of a rebuilt session: its columns, an instance only if it names one, and the time of the rebuild.
  predicate WrittenRow(row: SessionRow, s: Session, now: Time) {
    && row.media == s.media && row.kind == s.kind && row.agg == s.agg
    && row.instance == (if s.instance == "" then None else Some(s.instance))
    && row.created == now && row.updated == now && row.deleted == None
  }

  ghost predicate Rewritten(db: Db, out: seq<Rebuilt>, ids: Apply.IdSource, now: Time, db': Db) {
    && db'.media == db.media && db'.events.Keys == db.events.Keys
    && (forall s :: s in db'.sessions <==> exists i: nat :: i < |out| && s == ids(i))
    && (forall i: nat | i < |out| :: WrittenRow(db'.sessions[ids(i)], out[i].session, now))
    && (forall x | x in db.events :: db'.events[x].event == db.events[x].event && Relinks(out, ids, x, db'.events[x]))
  }

  ghost predicate Relinks(out: seq<Rebuilt>, ids: Apply.IdSource, x: string, row: EventRow) {
    if row.session.Some? then exists i: nat :: i < |out| && x in out[i].eventIds && row.session.value == ids(i)
    else forall i: nat | i < |out| :: x !in out[i].eventIds
  }

  lemma GroupRow(row: SessionRow, g: seq<Event>, now: Time, durations: Durations, cfg: Config)
    requires Apply.RowHolds(row, g, now, durations, cfg)
    ensures WrittenRow(row, FoldGroup(g, durations, cfg).session, now)
  {
    hide FoldGroup;
  }

  lemma GroupLink(row: EventRow, groups: seq<seq<Event>>, ids: Apply.IdSource, out: seq<Rebuilt>, S: set<Event>,
                  durations: Durations, cfg: Config)
    requires Apply.LinkHolds(row, groups, ids) && out == FoldAll(groups, durations, cfg) && DistinctIds(S)
    requires row.event in S && forall i: nat | i < |groups| :: Elems(groups[i]) <= S
    ensures Relinks(out, ids, row.event.id, row)
  {
    hide FoldOf;
    forall i: nat | i < |out| ensures row.event.id in out[i].eventIds <==> row.event in groups[i] {
      Apply.IdIn(groups[i], row.event.id);
      assert out[i].eventIds == Ids(groups[i]);
      forall e | e in groups[i] && e.id == row.event.id ensures e == row.event {
        assert e in Elems(groups[i]);
      }
    }
    hide Ids;
  }

  /** A rebuild writes one row per session of the reconstruction of the visible events, under the ids drawn for it, and
      links each event to the session that lists it or to none. */
  lemma RebuildRewrites(db: Db, step: Step, cfg: Config, db': Db) returns (out: seq<Rebuilt>)
    requires db.Schema() && cfg.gap >= 0 && step.Replay? && Next(db, step, cfg, db')
    ensures IsReconstruction(out, VisibleEvents(db), KnownLengths(db), cfg)
    ensures Rewritten(db, out, step.ids, step.now, db')
  {
    hide Apply.LinkHolds, Apply.RowHolds, WrittenRow, Relinks, Db.Schema, Db.LiveLog, Db.ReplaceAll, IsGapPartition,
      IsSession, FoldGroup, Sorted, Apply.Unrepeated, VisibleEvents, DistinctIds;
    var groups;
    out, groups :| Apply.RebuildsTo(db, out, groups, cfg, step.ids, step.now, db');
    SameVisible(db);
    ReplacedRows(db, out, groups, cfg, step.ids, step.now, db');
    ReplacedLinks(db, out, groups, cfg, step.ids, step.now, db');
    forall i: nat | i < |out| ensures WrittenRow(db'.sessions[step.ids(i)], out[i].session, step.now) {
      GroupRow(db'.sessions[step.ids(i)], groups[i], step.now, db.Durations(), cfg);
    }
    forall x | x in db.events ensures Relinks(out, step.ids, x, db'.events[x]) {
      LoggedIds(db, x);
      GroupLink(db'.events[x], groups, step.ids, out, db.Log(), db.Durations(), cfg);
    }
  }

  lemma SameVisible(db: Db)
    requires db.Schema()
    ensures VisibleEvents(db) == db.LiveLog() && KnownLengths(db) == db.Durations() && db.LiveLog() <= db.Log()
  {
  }

  lemma LoggedIds(db: Db, x: string)
    requires db.Schema() && x in db.events
    ensures db.events[x].event in db.Log() && db.events[x].event.id == x && DistinctIds(db.Log())
  {
    LogIds(db, db.Log());
  }
}
