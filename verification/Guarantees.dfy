/** Further guarantees over whole runs: the log, deletion, event counts, and completion. */
module Guarantees {
  import opened Sorting
  import opened Stamps
  import opened Events
  import opened Folding
  import opened Partition
  import opened Tables
  import opened Ingest
  import opened Invariants
  import opened Steps
  import opened Live
  import opened Refinement
  import opened Healing
  import opened Runs

  // ----- the log -----

  // An event as the collector sent it, whatever media id the service gave its item.
  datatype Wire = Wire(id: string, identity: string, kind: string, instance: string, typ: EventType,
                       pos: Option<real>, at: Time)

  function WireOf(raw: Incoming): Wire
    requires Parse(raw) == Accepted
  {
    Wire(raw.eventId, ToMediaItem(raw).identity, raw.kind, raw.instance, TypeNamed(raw.typ).value,
      ClampPosition(raw.pos), raw.at)
  }

  function AsWire(e: Event, identity: string): Wire {
    Wire(e.id, identity, e.kind, e.instance, e.typ, e.pos, e.at)
  }

  ghost function WireAt(db: Db, id: string): Wire
    requires db.Schema() && id in db.events
  {
    AsWire(db.events[id].event, db.media[db.events[id].event.media].identity)
  }

  ghost function WireLog(db: Db): set<Wire>
    requires db.Schema()
  {
    set id | id in db.events :: WireAt(db, id)
  }

  // Items keep their identity and events their content.
  ghost predicate Kept(db: Db, db': Db) {
    && (forall m | m in db.media :: m in db'.media && db'.media[m].identity == db.media[m].identity)
    && (forall id | id in db.events :: id in db'.events && db'.events[id].event == db.events[id].event)
  }

  lemma SameWires(db: Db, db': Db)
    requires db.Schema() && db'.Schema() && Kept(db, db') && db'.events.Keys == db.events.Keys
    ensures WireLog(db') == WireLog(db)
  {
    forall id | id in db.events ensures WireAt(db', id) == WireAt(db, id) {
    }
    hide Db.Schema, Kept, WireAt;
    assert forall id :: id in db'.events <==> id in db.events;
  }

  lemma InsertedWires(b: Db, e: Event, b': Db)
    requires b.Schema() && b'.Schema() && b'.media == b.media && b'.events.Keys == b.events.Keys + {e.id} &&
      e.media in b.media
    requires b'.events[e.id].event == e && forall id | id in b.events :: b'.events[id].event == b.events[id].event
    ensures WireLog(b') == WireLog(b) + {AsWire(e, b.media[e.media].identity)}
  {
    hide AsWire;
    forall id | id in b.events ensures WireAt(b', id) == WireAt(b, id) {
    }
    assert WireAt(b', e.id) == AsWire(e, b.media[e.media].identity);
    hide Db.Schema, WireAt;
  }

  lemma InsertWires(b: Db, e: Event)
    requires b.Schema() && e.media in b.media && Repeats(b, e)
    ensures b.Insert(e).Schema() && WireLog(b.Insert(e)) == WireLog(b) + {AsWire(e, b.media[e.media].identity)}
  {
    InsertSchema(b, e);
    hide WireLog, AsWire;
    var b' := b.Insert(e);
    assert b'.media == b.media && b'.events.Keys == b.events.Keys + {e.id};
    assert b'.events[e.id].event == e && forall id | id in b.events :: b'.events[id].event == b.events[id].event;
    InsertedWires(b, e, b');
  }

  lemma ResolvedIdentity(db: Db, m: MediaItem, newId: string)
    requires db.Schema() && newId !in db.media
    ensures var db' := db.FindOrCreate(m, newId);
      Kept(db, db') && db'.media[db.ResolvedId(m, newId)].identity == m.identity
  {
  }

  lemma LoggedWires(db: Db, raw: Incoming, mint: Mint)
    requires db.Schema() && Unused(db, mint) && Parse(raw) == Accepted && Repeats(db, EventFor(db, raw, mint))
    ensures Logged(db, raw, mint).Schema() && WireLog(Logged(db, raw, mint)) == WireLog(db) + {WireOf(raw)}
  {
    var m := ToMediaItem(raw);
    var id := db.ResolvedId(m, mint.mediaId);
    var a := db.FindOrCreate(m, mint.mediaId);
    var b := a.SetDeleted(id, None);
    FindOrCreateSchema(db, m, mint.mediaId);
    FindOrCreateMedia(db, m, mint.mediaId);
    ResolvedIdentity(db, m, mint.mediaId);
    SetDeletedSchema(a, id, None);
    SetDeletedRows(a, id, None);
    assert Kept(a, b) && b.media[id].identity == m.identity by { SetDeletedIdentity(a, id, None); }
    hide Db.Schema, Db.FindOrCreate, Db.SetDeleted, Db.ResolvedId, Parse, ToMediaItem, WireLog, DurationsKept, SameAggs,
      Kept;
    SameWires(db, a);
    SameWires(a, b);
    InsertWires(b, ToEvent(raw, id));
  }

  lemma SetDeletedIdentity(db: Db, id: string, at: Option<Time>)
    ensures Kept(db, db.SetDeleted(id, at))
    ensures db.SetDeleted(id, at).media.Keys == db.media.Keys && db.SetDeleted(id, at).events == db.events
  {
  }

  lemma AssignedKeeps(l: Db, e: Event, sid: string, cfg: Config, db': Db)
    requires l.Schema() && Placed(l, e, sid, cfg, db')
    ensures db'.Schema() && Kept(l, db') && db'.events.Keys == l.events.Keys
  {
    hide FoldSet, DistinctIds, Db.Schema, Db.Linked, Db.Log;
  }

  // ----- what every step keeps, even a rebuild that leaves unreadable rows -----

  lemma PlacedAgrees(l: Db, e: Event, sid: string, cfg: Config, db': Db)
    requires l.Schema() && Arrived(l, e) && Placed(l, e, sid, cfg, db') && DeletionAgrees(l)
    requires sid in l.sessions ==> l.OnKey(sid, e.KeyOf())
    ensures DeletionAgrees(db')
  {
    hide FoldSet, DistinctIds, Db.Linked, Db.Log;
  }

  ghost predicate Basic(db: Db) {
    db.Schema() && DeletionAgrees(db)
  }

  lemma LoggedAgrees(db: Db, raw: Incoming, mint: Mint)
    requires Basic(db) && Unused(db, mint) && Parse(raw) == Accepted
    ensures DeletionAgrees(Logged(db, raw, mint))
  {
    var m := ToMediaItem(raw);
    var id := db.ResolvedId(m, mint.mediaId);
    var a := db.FindOrCreate(m, mint.mediaId);
    FindOrCreateMedia(db, m, mint.mediaId);
    assert DeletionAgrees(a);
    SetDeletedAgrees(a, id, None);
    hide Db.Schema, Db.FindOrCreate, Db.SetDeleted, Db.ResolvedId, Parse, ToMediaItem, DurationsKept;
  }

  lemma DeliveryKeepsBasic(db: Db, raw: Incoming, cfg: Config, mint: Mint, db': Db)
    requires Basic(db) && Delivers(db, raw, cfg, mint, db')
    ensures Basic(db')
    ensures WireLog(db') == if Parse(raw) == Accepted then WireLog(db) + {WireOf(raw)} else WireLog(db)
  {
    if Parse(raw) == Accepted {
      var sid := DeliveryShape(db, raw, cfg, mint, db');
      var l, e := Logged(db, raw, mint), EventFor(db, raw, mint);
      LoggedAgrees(db, raw, mint);
      LoggedWires(db, raw, mint);
      hide Db.Schema, Logged, EventFor, Parse, Placed, Arrived, Processed, DeletionAgrees, WireLog, WireOf, Kept,
        Db.OnKey;
      AssignedKeeps(l, e, sid, cfg, db');
      SameWires(l, db');
      PlacedAgrees(l, e, sid, cfg, db');
    }
  }

  /** Any delivery, a repeat too, brings the item back and all its sessions with it. */
  lemma DeliveryRevives(db: Db, raw: Incoming, cfg: Config, mint: Mint, db': Db)
    requires Basic(db) && Parse(raw) == Accepted && Delivers(db, raw, cfg, mint, db')
    ensures db'.Live(EventFor(db, raw, mint).media)
    ensures forall s | s in db'.sessions && db'.sessions[s].media == EventFor(db, raw, mint).media ::
      db'.sessions[s].deleted.None?
  {
    var sid := DeliveryShape(db, raw, cfg, mint, db');
    DeliveryKeepsBasic(db, raw, cfg, mint, db');
    hide Parse, Logged, EventFor, Processed, RowPlaced, WireLog, Db.Schema, Db.Log, Db.Linked;
    assert db'.Live(EventFor(db, raw, mint).media);
  }

  lemma ReplayKeepsBasic(db: Db, step: Step, cfg: Config, db': Db)
    requires db.Schema() && cfg.gap >= 0 && step.Replay? && Next(db, step, cfg, db')
    ensures Basic(db') && WireLog(db') == WireLog(db) && db'.media == db.media
  {
    var out, groups :| Apply.RebuildsTo(db, out, groups, cfg, step.ids, step.now, db');
    RebuildIsRebuilt(db, out, groups, cfg, step.ids, step.now, db');
    ReplacedLinks(db, out, groups, cfg, step.ids, step.now, db');
    hide Apply.RebuildsTo, Replayed, Db.Schema, Db.LiveLog, Db.Log, Apply.LinkHolds, WireLog, RowGood;
    RebuiltHasSchema(db', groups, step.ids, cfg);
    RebuiltRows(db', groups, step.ids, cfg);
    FittingRows(db', cfg);
    SameWires(db, db');
  }

  function Delivered(steps: seq<Step>): set<Wire> {
    if steps == [] then {}
    else
      var last := steps[|steps| - 1];
      Delivered(steps[..|steps| - 1]) +
      (if last.Deliver? && Parse(last.raw) == Accepted then {WireOf(last.raw)} else {})
  }

  lemma StepKeepsBasic(db: Db, step: Step, cfg: Config, db': Db)
    requires Basic(db) && cfg.gap >= 0 && Next(db, step, cfg, db')
    ensures Basic(db')
    ensures WireLog(db') == if step.Deliver? && Parse(step.raw) == Accepted then WireLog(db) + {WireOf(step.raw)}
      else WireLog(db)
  {
    hide Delivers, Db.SetDeleted, Apply.RebuildsTo, WireLog, WireOf, Parse, Db.Schema, DeletionAgrees, Kept;
    match step
    case Deliver(raw, mint) => DeliveryKeepsBasic(db, raw, cfg, mint, db');
    case Delete(id, now) => DeletionKeepsBasic(db, id, Some(now));
    case Restore(id) => DeletionKeepsBasic(db, id, None);
    case Replay(ids, now) => ReplayKeepsBasic(db, step, cfg, db');
  }

  lemma DeletionKeepsBasic(db: Db, id: string, at: Option<Time>)
    requires Basic(db)
    ensures Basic(db.SetDeleted(id, at)) && WireLog(db.SetDeleted(id, at)) == WireLog(db)
  {
    SetDeletedSchema(db, id, at);
    SetDeletedAgrees(db, id, at);
    SetDeletedIdentity(db, id, at);
    hide Db.SetDeleted, Db.Schema, DeletionAgrees, WireLog, Kept;
    SameWires(db, db.SetDeleted(id, at));
  }

  /** In every state of every run, with any repeats, deletions and rebuilds, the log holds exactly the
      events delivered so far, each once, and a session is deleted exactly when its item is. */
  lemma {:induction false} LogIsWhatWasDelivered(states: seq<Db>, steps: seq<Step>, cfg: Config, n: nat)
    requires Run(states, steps, cfg) && cfg.gap >= 0 && n < |states|
    ensures Basic(states[n]) && WireLog(states[n]) == Delivered(steps[..n])
    ensures |WireLog(states[n])| == |states[n].events|
  {
    hide Next, WireOf, Parse, WireLog;
    if n == 0 {
      assert WireLog(EMPTY_DB) == {} by { EmptyWires(); }
    } else {
      hide Db.Schema, DeletionAgrees;
      LogIsWhatWasDelivered(states, steps, cfg, n - 1);
      StepKeepsBasic(states[n - 1], steps[n - 1], cfg, states[n]);
      assert steps[..n][..n - 1] == steps[..n - 1];
    }
    WireCount(states[n]);
  }

  lemma EmptyWires()
    ensures WireLog(EMPTY_DB) == {}
  {
  }

  lemma WireCount(db: Db)
    requires db.Schema()
    ensures |WireLog(db)| == |db.events|
  {
    WireCountOf(db, db.events.Keys);
    assert WireLog(db) == Wires(db, db.events.Keys);
  }

  ghost function Wires(db: Db, ids: set<string>): set<Wire>
    requires db.Schema() && ids <= db.events.Keys
  {
    set id | id in ids :: WireAt(db, id)
  }

  lemma {:induction false} WireCountOf(db: Db, ids: set<string>)
    requires db.Schema() && ids <= db.events.Keys
    ensures |Wires(db, ids)| == |ids|
  {
    if ids == {} {
      assert Wires(db, ids) == {};
    } else {
      var id :| id in ids;
      WireCountOf(db, ids - {id});
      forall x | x in ids - {id} ensures WireAt(db, x) != WireAt(db, id) {
      }
      hide Db.Schema, WireAt;
      assert WireAt(db, id) !in Wires(db, ids - {id});
      assert Wires(db, ids) == Wires(db, ids - {id}) + {WireAt(db, id)};
    }
  }

  /** At least once becomes exactly once: two runs in which the same events were delivered, however often,
      in whatever batches and order, end with the same log. */
  lemma SameDeliveriesSameLog(states: seq<Db>, steps: seq<Step>, states': seq<Db>, steps': seq<Step>, cfg: Config)
    requires Run(states, steps, cfg) && Run(states', steps', cfg) && cfg.gap >= 0
    requires Delivered(steps) == Delivered(steps')
    ensures states[|steps|].Schema() && states'[|steps'|].Schema()
    ensures WireLog(states[|steps|]) == WireLog(states'[|steps'|])
  {
    hide Next, WireOf, Parse;
    LogIsWhatWasDelivered(states, steps, cfg, |steps|);
    LogIsWhatWasDelivered(states', steps', cfg, |steps'|);
    assert steps[..|steps|] == steps && steps'[..|steps'|] == steps';
  }

  // ----- deletion -----

  /** Deleting an item and bringing it back is the identity on all the tables. */
  lemma DeleteThenRestore(db: Db, id: string, now: Time)
    requires Basic(db) && db.Live(id)
    ensures db.SetDeleted(id, Some(now)).SetDeleted(id, None) == db
  {
    var d := db.SetDeleted(id, Some(now));
    var r := d.SetDeleted(id, None);
    assert r.media == db.media;
    assert r.sessions == db.sessions;
  }

  /** A rebuild in between is what breaks that: it leaves no session and no link of a deleted item, though
      it neither revives the item nor touches its events. */
  lemma RebuildForgetsDeleted(db: Db, step: Step, cfg: Config, db': Db, m: string)
    requires db.Schema() && cfg.gap >= 0 && step.Replay? && Next(db, step, cfg, db')
    requires m in db.media && !db.Live(m)
    ensures m in db'.media && !db'.Live(m) && db'.Log() == db.Log()
    ensures forall s | s in db'.sessions :: db'.sessions[s].media != m
    ensures forall id | id in db'.events && db'.events[id].event.media == m :: db'.events[id].session == None
  {
    var out, groups :| Apply.RebuildsTo(db, out, groups, cfg, step.ids, step.now, db');
    hide Apply.RebuildsTo;
    RebuildIsRebuilt(db, out, groups, cfg, step.ids, step.now, db');
    RebuiltRows(db', groups, step.ids, cfg);
    hide Folds, TightSet, CurrentAt, Db.Linked, Db.Log, Healed, IsGapPartition, Db.LiveLog, Apply.Unrepeated;
    forall s | s in db'.sessions ensures db'.sessions[s].media != m {
      assert RowGood(db', s, cfg);
    }
    forall id | id in db'.events && db'.events[id].event.media == m ensures db'.events[id].session == None {
      assert Apply.LinkHolds(db'.events[id], groups, step.ids);
      forall i: nat | i < |groups| ensures db'.events[id].event !in groups[i] {
        GroupEventsLive(db', groups, step.ids, cfg, i);
      }
    }
  }

  lemma GroupEventsLive(db': Db, groups: seq<seq<Event>>, ids: Apply.IdSource, cfg: Config, i: nat)
    requires Replayed(db', groups, ids, cfg) && i < |groups|
    ensures forall e | e in groups[i] :: db'.Live(e.media)
  {
    hide Apply.Unrepeated, Healed, Separated, IsSession;
    assert groups[i] in Elems(groups);
    forall e | e in groups[i] ensures db'.Live(e.media) {
      assert e in Elems(groups[i]);
    }
  }
}
