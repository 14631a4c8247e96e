/** What bringing an item back brings back: everything, unless a rebuild came in between. */
module Restoring {
  import opened Sorting
  import opened Stamps
  import opened Events
  import opened Folding
  import opened Partition
  import opened Rebuild
  import opened Drift
  import opened Tables
  import opened Ingest
  import opened Invariants
  import opened Steps
  import opened Live
  import opened Refinement
  import opened Healing
  import opened Runs
  import opened Guarantees
  import opened Totals

  // A visible event whose item has no stored session is something a diff reports.
  lemma MissingSessionDrifts(db: Db, cfg: Config, stored: seq<Session>, out: seq<Rebuilt>, groups: seq<seq<Event>>,
                             e: Event)
    requires Reads(db, stored) && Reconstructs(out, groups, db.LiveLog(), db.Durations(), cfg)
    requires e in db.LiveLog() && forall s | s in db.sessions :: db.sessions[s].media != e.media
    ensures DiffOf(stored, out).HasDrift()
  {
    var g :| g in Elems(groups) && e in g;
    var i: nat :| i < |groups| && groups[i] == g;
    assert IsSession(g, cfg.gap) && out[i].session.media == e.media;
    hide Reconstructs, IsSession, IsGapPartition, Db.LiveLog, FoldAll;
    UnmatchedDrifts(stored, out, i);
  }

  // The rebuild of a log without the item: in step, up to date, and nothing left of the item but its events.
  lemma RebuiltWithout(gone: Db, step: Step, cfg: Config, rebuilt: Db, id: string)
    requires gone.Schema() && cfg.gap >= 0 && step.Replay? && Next(gone, step, cfg, rebuilt) && Named(gone)
    requires id in gone.media && !gone.Live(id)
    ensures Synced(rebuilt, cfg) && AllCurrent(rebuilt, cfg) && rebuilt.Log() == gone.Log() && id in rebuilt.media
    ensures forall s | s in rebuilt.sessions :: rebuilt.sessions[s].media != id
  {
    hide Synced, AllCurrent, Named, Next, Db.Schema, Db.Log;
    ReplaySyncs(gone, step, cfg, rebuilt);
    RebuildForgetsDeleted(gone, step, cfg, rebuilt, id);
  }

  // Restoring the item brings it back and adds no session.
  lemma RestoredWithout(rebuilt: Db, id: string)
    requires rebuilt.Schema() && id in rebuilt.media && forall s | s in rebuilt.sessions ::
      rebuilt.sessions[s].media != id
    ensures var back := rebuilt.SetDeleted(id, None);
      back.Live(id) && back.events == rebuilt.events && forall s | s in back.sessions :: back.sessions[s].media != id
  {
    SetDeletedRows(rebuilt, id, None);
  }

  ghost predicate HasEvent(db: Db, id: string) {
    exists x :: x in db.events && db.events[x].event.media == id
  }

  lemma SameLogSameItems(db: Db, d: Db, id: string)
    requires d.Log() == db.Log()
    ensures HasEvent(d, id) <==> HasEvent(db, id)
  {
    assert HasEvent(db, id) <==> exists e :: e in db.Log() && e.media == id;
    assert HasEvent(d, id) <==> exists e :: e in d.Log() && e.media == id;
  }

  lemma Forgotten(db: Db, id: string, now: Time, gone: Db, step: Step, cfg: Config, rebuilt: Db)
    requires db.Schema() && cfg.gap >= 0 && db.Live(id) && gone == db.SetDeleted(id, Some(now))
    requires step.Replay? && Named(gone) && Next(gone, step, cfg, rebuilt)
    ensures rebuilt.Schema() && Synced(rebuilt, cfg) && AllCurrent(rebuilt, cfg) && id in rebuilt.media
    ensures (forall s | s in rebuilt.sessions :: rebuilt.sessions[s].media != id) &&
      (HasEvent(rebuilt, id) <==> HasEvent(db, id))
  {
    SetDeletedSchema(db, id, Some(now));
    SetDeletedRows(db, id, Some(now));
    assert gone.Log() == db.Log();
    hide Synced, AllCurrent, Named, Next, Db.SetDeleted, Db.Log, Db.LiveLog, Db.Schema;
    RebuiltWithout(gone, step, cfg, rebuilt, id);
    SyncedSchema(rebuilt, cfg);
    SameLogSameItems(db, rebuilt, id);
  }

  /** Delete, rebuild, restore: the item is back, none of its sessions are, and a diff is silent if and only if
      it never had an event. */
  lemma RestoreAfterRebuild(db: Db, id: string, now: Time, gone: Db, step: Step, cfg: Config, rebuilt: Db, back: Db,
                            stored: seq<Session>, out: seq<Rebuilt>, groups: seq<seq<Event>>)
    requires db.Schema() && cfg.gap >= 0 && db.Live(id) && gone == db.SetDeleted(id, Some(now))
    requires step.Replay? && Named(gone) && Next(gone, step, cfg, rebuilt) && back == rebuilt.SetDeleted(id, None)
    requires Reads(back, stored) && Reconstructs(out, groups, back.LiveLog(), back.Durations(), cfg)
    ensures back.Live(id) && forall s | s in back.sessions :: back.sessions[s].media != id
    ensures DiffOf(stored, out).HasDrift() <==> HasEvent(db, id)
  {
    hide Synced, AllCurrent, Named, Next, Db.SetDeleted, Reads, Reconstructs, DiffOf, Db.Log, Db.LiveLog, Db.Schema;
    Forgotten(db, id, now, gone, step, cfg, rebuilt);
    RestoredWithout(rebuilt, id);
    if x :| x in rebuilt.events && rebuilt.events[x].event.media == id {
      assert back.events[x].event in back.LiveLog() by { VisibleEvent(back, x); }
      MissingSessionDrifts(back, cfg, stored, out, groups, back.events[x].event);
    } else {
      RestoredSilent(rebuilt, id, cfg, stored, out, groups);
    }
  }

  lemma VisibleEvent(db: Db, x: string)
    requires x in db.events && db.Live(db.events[x].event.media)
    ensures db.events[x].event in db.LiveLog()
  {
  }

  lemma RestoredSilent(rebuilt: Db, id: string, cfg: Config, stored: seq<Session>, out: seq<Rebuilt>,
                       groups: seq<seq<Event>>)
    requires Synced(rebuilt, cfg) && AllCurrent(rebuilt, cfg) && cfg.gap >= 0
    requires forall x | x in rebuilt.events :: rebuilt.events[x].event.media != id
    requires Reads(rebuilt.SetDeleted(id, None), stored)
    requires Reconstructs(out, groups, rebuilt.SetDeleted(id, None).LiveLog(),
      rebuilt.SetDeleted(id, None).Durations(), cfg)
    ensures !DiffOf(stored, out).HasDrift()
  {
    var back := rebuilt.SetDeleted(id, None);
    assert Whole(rebuilt, id);
    hide Synced, Db.SetDeleted, Reads, Reconstructs, DiffOf, Whole, CurrentAt;
    RestoreKeepsSyncedIff(rebuilt, id, cfg);
    DeletionKeepsCurrent(rebuilt, id, None, cfg);
    LiveRefinesBatch(back, cfg, stored, out, groups);
  }

  // ----- with other things going on in between -----

  // The item's row, its events with their links, and its sessions are the same.
  ghost predicate SamePart(db: Db, db': Db, m: string) {
    && (m in db.media <==> m in db'.media) && (m in db.media ==> db'.media[m] == db.media[m])
    && (forall id :: EventOf(db, id, m) <==> EventOf(db', id, m))
    && (forall id | EventOf(db, id, m) :: db'.events[id] == db.events[id])
    && (forall s :: SessionOf(db, s, m) <==> SessionOf(db', s, m))
    && (forall s | SessionOf(db, s, m) :: db'.sessions[s] == db.sessions[s])
  }

  predicate EventOf(db: Db, id: string, m: string) {
    id in db.events && db.events[id].event.media == m
  }

  predicate SessionOf(db: Db, s: string, m: string) {
    s in db.sessions && db.sessions[s].media == m
  }

  lemma SamePartChain(a: Db, b: Db, c: Db, m: string)
    requires SamePart(a, b, m) && SamePart(b, c, m)
    ensures SamePart(a, c, m)
  {
  }

  lemma ResolvedElsewhere(db: Db, item: MediaItem, newId: string, m: string)
    requires db.ResolvedId(item, newId) != m
    ensures SamePart(db, db.FindOrCreate(item, newId), m)
  {
  }

  lemma StampedElsewhere(db: Db, id: string, at: Option<Time>, m: string)
    requires id != m
    ensures SamePart(db, db.SetDeleted(id, at), m)
  {
  }

  lemma InsertedElsewhere(db: Db, e: Event, m: string)
    requires e.media != m
    ensures SamePart(db, db.Insert(e), m)
  {
  }

  lemma LoggedElsewhere(db: Db, raw: Incoming, mint: Mint, m: string)
    requires Parse(raw) == Accepted && EventFor(db, raw, mint).media != m
    ensures SamePart(db, Logged(db, raw, mint), m)
  {
    var item, e := ToMediaItem(raw), EventFor(db, raw, mint);
    hide Parse, Db.FindOrCreate, Db.SetDeleted, Db.Insert, SamePart, Db.ResolvedId, ToMediaItem;
    var a := db.FindOrCreate(item, mint.mediaId);
    var b := a.SetDeleted(e.media, None);
    ResolvedElsewhere(db, item, mint.mediaId, m);
    StampedElsewhere(a, e.media, None, m);
    InsertedElsewhere(b, e, m);
    SamePartChain(db, a, b, m);
    SamePartChain(db, b, b.Insert(e), m);
  }

  lemma PlacedElsewhere(l: Db, e: Event, sid: string, cfg: Config, db': Db, m: string)
    requires l.Schema() && Arrived(l, e) && Placed(l, e, sid, cfg, db') && e.media != m
    requires sid in l.sessions ==> l.OnKey(sid, e.KeyOf())
    ensures SamePart(l, db', m)
  {
    hide FoldSet, DistinctIds, Db.Linked, Db.Log, Db.Schema;
  }

  lemma DeliveredElsewhere(db: Db, raw: Incoming, cfg: Config, mint: Mint, db': Db, m: string)
    requires Delivers(db, raw, cfg, mint, db') && (Parse(raw) == Accepted ==> EventFor(db, raw, mint).media != m)
    ensures SamePart(db, db', m)
  {
    if Parse(raw) == Accepted {
      hide Parse, Logged, EventFor, SamePart, Placed, Arrived, Processed, Db.Schema, Db.OnKey;
      var l, e := Logged(db, raw, mint), EventFor(db, raw, mint);
      var sid := DeliveryShape(db, raw, cfg, mint, db');
      LoggedElsewhere(db, raw, mint, m);
      PlacedElsewhere(l, e, sid, cfg, db', m);
      SamePartChain(db, l, db', m);
    }
  }

  // The step is no rebuild and concerns another item, or none.
  ghost predicate Elsewhere(db: Db, step: Step, m: string) {
    match step
    case Deliver(raw, mint) => Parse(raw) == Accepted ==> EventFor(db, raw, mint).media != m
    case Delete(id, now) => id != m
    case Restore(id) => id != m
    case Replay(ids, now) => false
  }

  lemma StepElsewhere(db: Db, step: Step, cfg: Config, db': Db, m: string)
    requires Next(db, step, cfg, db') && Elsewhere(db, step, m)
    ensures SamePart(db, db', m)
  {
    hide Delivers, SamePart, Parse, EventFor, Db.SetDeleted;
    match step
    case Deliver(raw, mint) => DeliveredElsewhere(db, raw, cfg, mint, db', m);
    case Delete(id, now) => StampedElsewhere(db, id, Some(now), m);
    case Restore(id) => StampedElsewhere(db, id, None, m);
  }

  lemma {:induction false} StretchElsewhere(states: seq<Db>, steps: seq<Step>, cfg: Config, m: string, i: nat, n: nat)
    requires Run(states, steps, cfg) && i <= n < |states| && forall k | i <= k < n :: Elsewhere(states[k], steps[k], m)
    ensures SamePart(states[i], states[n], m)
    decreases n
  {
    hide Next, Elsewhere;
    if i < n {
      hide SamePart;
      StretchElsewhere(states, steps, cfg, m, i, n - 1);
      StepElsewhere(states[n - 1], steps[n - 1], cfg, states[n], m);
      SamePartChain(states[i], states[n - 1], states[n], m);
    }
  }

  // Stamping an item depends on nothing but its part of the tables.
  lemma StampedAlike(a: Db, b: Db, m: string, at: Option<Time>)
    requires SamePart(a, b, m)
    ensures SamePart(a.SetDeleted(m, at), b.SetDeleted(m, at), m)
  {
    var a', b' := a.SetDeleted(m, at), b.SetDeleted(m, at);
    assert a'.events == a.events && b'.events == b.events;
    forall id ensures EventOf(a', id, m) <==> EventOf(b', id, m) {
      assert EventOf(a, id, m) <==> EventOf(b, id, m);
    }
    forall s ensures SessionOf(a', s, m) <==> SessionOf(b', s, m) {
      assert SessionOf(a, s, m) <==> SessionOf(b, s, m);
    }
    forall s | SessionOf(a', s, m) ensures b'.sessions[s] == a'.sessions[s] {
      assert SessionOf(a, s, m);
    }
  }

  /** Whatever happens to other items in between: deleting an item and bringing it back leaves its row, its events
      with their links, and its sessions exactly as they were. */
  lemma RestoreUndoesDelete(states: seq<Db>, steps: seq<Step>, cfg: Config, m: string, i: nat, n: nat)
    requires Run(states, steps, cfg) && cfg.gap >= 0 && i < n < |steps|
    requires states[i].Live(m) && steps[i].Delete? && steps[i].id == m && steps[n] == Restore(m)
    requires forall k | i < k < n :: Elsewhere(states[k], steps[k], m)
    ensures SamePart(states[i], states[n + 1], m)
  {
    var now := steps[i].now;
    assert Next(states[i], steps[i], cfg, states[i + 1]) && Next(states[n], steps[n], cfg, states[n + 1]);
    assert states[i + 1] == states[i].SetDeleted(m, Some(now)) && states[n + 1] == states[n].SetDeleted(m, None);
    hide Next, Elsewhere, Db.SetDeleted, SamePart, WireLog;
    LogIsWhatWasDelivered(states, steps, cfg, i);
    DeleteThenRestore(states[i], m, now);
    StretchElsewhere(states, steps, cfg, m, i + 1, n);
    StampedAlike(states[i + 1], states[n], m, None);
  }
}
