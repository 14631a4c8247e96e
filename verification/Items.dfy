/** What the media items end up as after a run: how long, and whether visible. */
module Items {
  import opened Stamps
  import opened Events
  import opened Folding
  import opened Tables
  import opened Enrichment
  import opened Ingest
  import opened Invariants
  import opened Steps
  import opened Guarantees
  import opened Runs

  // The durations that accepted deliveries brought, by identity.
  function KnownDurations(steps: seq<Step>): set<(string, int)> {
    if steps == [] then {}
    else
      var last := steps[|steps| - 1];
      KnownDurations(steps[..|steps| - 1]) +
      (if last.Deliver? && Parse(last.raw) == Accepted then BroughtBy(last.raw) else {})
  }

  function BroughtBy(raw: Incoming): set<(string, int)>
    requires raw.Incoming?
  {
    if raw.duration.Some? then {(ToMediaItem(raw).identity, raw.duration.value)} else {}
  }

  ghost predicate OnePerIdentity(known: set<(string, int)>) {
    forall a, b | a in known && b in known && a.0 == b.0 :: a == b
  }

  // An item has a duration that was delivered for it, if any was.
  ghost predicate DurationsFrom(db: Db, known: set<(string, int)>) {
    && (forall m | m in db.media :: ItemFrom(db.media[m], known))
    && (forall k | k in known :: exists m :: m in db.media && db.media[m].identity == k.0)
  }

  predicate ItemFrom(row: MediaRow, known: set<(string, int)>) {
    if row.duration.Some? then (row.identity, row.duration.value) in known
    else forall k | k in known :: k.0 != row.identity
  }

  lemma ResolvedFrom(db: Db, raw: Incoming, newId: string, known: set<(string, int)>)
    requires db.Schema() && newId !in db.media && DurationsFrom(db, known) && raw.Incoming?
    ensures DurationsFrom(db.FindOrCreate(ToMediaItem(raw), newId), known + BroughtBy(raw))
  {
    var m := ToMediaItem(raw);
    var db' := db.FindOrCreate(m, newId);
    var id := db.ResolvedId(m, newId);
    assert m.duration == raw.duration && db'.media[id].identity == m.identity;
    hide ToMediaItem;
    forall x | x in db'.media ensures ItemFrom(db'.media[x], known + BroughtBy(raw)) {
      if x != id {
        assert db'.media[x] == db.media[x] && db.media[x].identity != m.identity;
      }
    }
    forall k | k in known + BroughtBy(raw) ensures exists x :: x in db'.media && db'.media[x].identity == k.0 {
      if k in known {
        var x :| x in db.media && db.media[x].identity == k.0;
        assert x in db'.media && db'.media[x].identity == k.0;
      }
    }
  }

  // Deletion changes neither identities nor durations.
  lemma StampedFrom(db: Db, id: string, at: Option<Time>, known: set<(string, int)>)
    requires DurationsFrom(db, known)
    ensures DurationsFrom(db.SetDeleted(id, at), known)
  {
    var db' := db.SetDeleted(id, at);
    assert db'.media.Keys == db.media.Keys;
    forall m | m in db.media ensures db'.media[m] == db.media[m].(deleted := db'.media[m].deleted) {
    }
    hide Db.SetDeleted;
  }

  lemma DeliveredMedia(db: Db, raw: Incoming, cfg: Config, mint: Mint, db': Db)
    requires Delivers(db, raw, cfg, mint, db') && Parse(raw) == Accepted
    ensures var m := ToMediaItem(raw);
      db'.media == db.FindOrCreate(m, mint.mediaId).SetDeleted(db.ResolvedId(m, mint.mediaId), None).media
  {
    var sid := DeliveryShape(db, raw, cfg, mint, db');
    hide Parse, EventFor, RowPlaced, Arrived, Db.Schema, Db.FindOrCreate, Db.SetDeleted, Db.ResolvedId, Processed;
  }

  lemma SameMediaFrom(a: Db, b: Db, known: set<(string, int)>)
    requires DurationsFrom(a, known) && b.media == a.media
    ensures DurationsFrom(b, known)
  {
  }

  lemma DeliveryDurations(db: Db, raw: Incoming, cfg: Config, mint: Mint, db': Db, known: set<(string, int)>)
    requires DurationsFrom(db, known) && Delivers(db, raw, cfg, mint, db') && Parse(raw) == Accepted
    ensures DurationsFrom(db', known + BroughtBy(raw))
  {
    assert db.Schema() && mint.mediaId !in db.media;
    var m := ToMediaItem(raw);
    DeliveredMedia(db, raw, cfg, mint, db');
    assert raw.Incoming?;
    hide Delivers, Parse, Db.Schema, Db.FindOrCreate, Db.SetDeleted, Db.ResolvedId, DurationsFrom, BroughtBy,
      ToMediaItem;
    ResolvedFrom(db, raw, mint.mediaId, known);
    var a := db.FindOrCreate(m, mint.mediaId);
    StampedFrom(a, db.ResolvedId(m, mint.mediaId), None, known + BroughtBy(raw));
    SameMediaFrom(a.SetDeleted(db.ResolvedId(m, mint.mediaId), None), db', known + BroughtBy(raw));
  }

  lemma StepDurations(db: Db, step: Step, cfg: Config, db': Db, known: set<(string, int)>)
    requires db.Schema() && DurationsFrom(db, known) && cfg.gap >= 0 && Next(db, step, cfg, db')
    ensures DurationsFrom(db', known + if step.Deliver? && Parse(step.raw) == Accepted then BroughtBy(step.raw) else {})
  {
    hide Delivers, Parse, Db.Schema, DurationsFrom, BroughtBy, Db.SetDeleted, Apply.RebuildsTo;
    assert known + {} == known;
    match step
    case Deliver(raw, mint) =>
      if Parse(raw) == Accepted {
        DeliveryDurations(db, raw, cfg, mint, db', known);
      } else {
        RefusedSame(db, raw, cfg, mint, db');
      }
    case Delete(id, now) => StampedFrom(db, id, Some(now), known);
    case Restore(id) => StampedFrom(db, id, None, known);
    case Replay(ids, now) =>
      ReplayKeepsBasic(db, step, cfg, db');
      SameMediaFrom(db, db', known);
  }

  lemma RefusedSame(db: Db, raw: Incoming, cfg: Config, mint: Mint, db': Db)
    requires Delivers(db, raw, cfg, mint, db') && Parse(raw) != Accepted
    ensures db' == db
  {
  }

  // In every state, every item's duration is one that was delivered for it, if any was.
  lemma {:induction false} EveryDuration(states: seq<Db>, steps: seq<Step>, cfg: Config, n: nat)
    requires Run(states, steps, cfg) && cfg.gap >= 0 && n < |states|
    ensures DurationsFrom(states[n], KnownDurations(steps[..n]))
  {
    hide Next, Parse, BroughtBy;
    if n > 0 {
      hide DurationsFrom;
      EveryDuration(states, steps, cfg, n - 1);
      EveryStateSchema(states, steps, cfg, n - 1);
      assert steps[..n][..n - 1] == steps[..n - 1];
      StepDurations(states[n - 1], steps[n - 1], cfg, states[n], KnownDurations(steps[..n - 1]));
    }
  }

  ghost predicate SameLengths(db: Db, db': Db) {
    forall m, n | m in db.media && n in db'.media && db.media[m].identity == db'.media[n].identity ::
      db.media[m].duration == db'.media[n].duration
  }

  ghost predicate SameVisible(db: Db, db': Db) {
    forall m, n | m in db.media && n in db'.media && db.media[m].identity == db'.media[n].identity ::
      db.Live(m) <==> db'.Live(n)
  }

  lemma OneLength(db: Db, db': Db, known: set<(string, int)>)
    requires DurationsFrom(db, known) && DurationsFrom(db', known) && OnePerIdentity(known)
    ensures SameLengths(db, db')
  {
    forall m, n | m in db.media && n in db'.media && db.media[m].identity == db'.media[n].identity
      ensures db.media[m].duration == db'.media[n].duration
    {
      assert ItemFrom(db.media[m], known) && ItemFrom(db'.media[n], known);
    }
  }

  /** Equal deliveries give items of equal length when no item was given two: otherwise the first one wins, and
      which is first depends on the order. */
  lemma SameDeliveriesSameLengths(states: seq<Db>, steps: seq<Step>, states': seq<Db>, steps': seq<Step>, cfg: Config)
    requires Run(states, steps, cfg) && Run(states', steps', cfg) && cfg.gap >= 0
    requires KnownDurations(steps) == KnownDurations(steps') && OnePerIdentity(KnownDurations(steps))
    ensures SameLengths(states[|steps|], states'[|steps'|])
  {
    hide Next, DurationsFrom, KnownDurations, OnePerIdentity;
    EveryDuration(states, steps, cfg, |steps|);
    EveryDuration(states', steps', cfg, |steps'|);
    assert steps[..|steps|] == steps && steps'[..|steps'|] == steps';
    OneLength(states[|steps|], states'[|steps'|], KnownDurations(steps));
  }

  ghost predicate AllVisible(db: Db) {
    forall m | m in db.media :: db.Live(m)
  }

  lemma DeliveryVisible(db: Db, raw: Incoming, cfg: Config, mint: Mint, db': Db)
    requires AllVisible(db) && Delivers(db, raw, cfg, mint, db') && Parse(raw) == Accepted
    ensures AllVisible(db')
  {
    var m := ToMediaItem(raw);
    DeliveredMedia(db, raw, cfg, mint, db');
    var a := db.FindOrCreate(m, mint.mediaId);
    assert AllVisible(a);
    hide Delivers, Parse, Db.FindOrCreate, Db.ResolvedId, ToMediaItem;
  }

  lemma StepVisible(db: Db, step: Step, cfg: Config, db': Db)
    requires db.Schema() && AllVisible(db) && cfg.gap >= 0 && Next(db, step, cfg, db') && !step.Delete?
    ensures AllVisible(db')
  {
    hide Delivers, Parse, Db.Schema, Apply.RebuildsTo;
    match step
    case Deliver(raw, mint) =>
      if Parse(raw) == Accepted {
        DeliveryVisible(db, raw, cfg, mint, db');
      } else {
        RefusedSame(db, raw, cfg, mint, db');
      }
    case Restore(id) =>
    case Replay(ids, now) => ReplayKeepsBasic(db, step, cfg, db');
  }

  // Without a deletion every item stays visible.
  lemma {:induction false} UndeletedVisible(states: seq<Db>, steps: seq<Step>, cfg: Config, n: nat)
    requires Run(states, steps, cfg) && cfg.gap >= 0 && n < |states| && forall i | 0 <= i < |steps| :: !steps[i].Delete?
    ensures AllVisible(states[n])
  {
    hide Next;
    if n > 0 {
      hide AllVisible;
      UndeletedVisible(states, steps, cfg, n - 1);
      EveryStateSchema(states, steps, cfg, n - 1);
      StepVisible(states[n - 1], steps[n - 1], cfg, states[n]);
    }
  }

  // ----- what the rows hold -----

  // What accepted deliveries said of one item, in order.
  function SentFor(steps: seq<Step>, identity: string): seq<MediaItem> {
    if steps == [] then []
    else
      var last := steps[|steps| - 1];
      SentFor(steps[..|steps| - 1], identity) +
      (if last.Deliver? && Parse(last.raw) == Accepted && ToMediaItem(last.raw).identity == identity
       then [ToMediaItem(last.raw)] else [])
  }

  // The row is what its deliveries make of it, deleted or not.
  predicate RowFrom(row: MediaRow, ms: seq<MediaItem>) {
    ms != [] && row.(deleted := None) == Enriched(ms)
  }

  ghost predicate RowsFrom(db: Db, steps: seq<Step>) {
    && (forall m | m in db.media :: RowFrom(db.media[m], SentFor(steps, db.media[m].identity)))
    && (forall identity | SentFor(steps, identity) != [] :: exists m ::
      m in db.media && db.media[m].identity == identity)
  }

  lemma RowMore(row: MediaRow, ms: seq<MediaItem>, m: MediaItem)
    requires RowFrom(row, ms)
    ensures RowFrom(Enrich(row, m), ms + [m]) && Enrich(row, m).identity == row.identity
  {
    assert (ms + [m])[..|ms|] == ms;
  }

  lemma RowFirst(m: MediaItem)
    ensures RowFrom(NewMedia(m), [m])
  {
  }

  lemma SentMore(steps: seq<Step>, raw: Incoming, mint: Mint, identity: string)
    requires Parse(raw) == Accepted
    ensures SentFor(steps + [Deliver(raw, mint)], identity) ==
      if ToMediaItem(raw).identity == identity then SentFor(steps, identity) + [ToMediaItem(raw)]
      else SentFor(steps, identity)
  {
    assert (steps + [Deliver(raw, mint)])[..|steps|] == steps;
    hide Parse, ToMediaItem;
  }

  lemma SentSame(steps: seq<Step>, step: Step, identity: string)
    requires !(step.Deliver? && Parse(step.raw) == Accepted)
    ensures SentFor(steps + [step], identity) == SentFor(steps, identity)
  {
    assert (steps + [step])[..|steps|] == steps;
  }

  // Resolving the item of one more delivery.
  lemma ResolvedRow(db: Db, steps: seq<Step>, item: MediaItem, newId: string, x: string)
    requires db.Schema() && newId !in db.media && RowsFrom(db, steps) && x in db.FindOrCreate(item, newId).media
    ensures var row := db.FindOrCreate(item, newId).media[x];
      RowFrom(row, if row.identity == item.identity then SentFor(steps, row.identity) + [item]
                   else SentFor(steps, row.identity))
  {
    hide Enriched, SentFor;
    var id := db.ResolvedId(item, newId);
    if x != id {
      assert db.media[x].identity != item.identity;
    } else if id in db.media {
      RowMore(db.media[id], SentFor(steps, item.identity), item);
    } else {
      assert forall m | m in db.media :: db.media[m].identity != item.identity;
      assert SentFor(steps, item.identity) + [item] == [item];
      RowFirst(item);
    }
  }

  lemma StampedRows(db: Db, id: string, at: Option<Time>, steps: seq<Step>)
    requires RowsFrom(db, steps)
    ensures RowsFrom(db.SetDeleted(id, at), steps)
  {
    hide Enriched, SentFor;
    var db' := db.SetDeleted(id, at);
    assert db'.media.Keys == db.media.Keys;
    forall m | m in db.media ensures db'.media[m] == db.media[m].(deleted := db'.media[m].deleted) {
    }
    hide Db.SetDeleted;
  }

  lemma ResolvedRows(db: Db, steps: seq<Step>, raw: Incoming, mint: Mint)
    requires db.Schema() && mint.mediaId !in db.media && RowsFrom(db, steps) && Parse(raw) == Accepted
    ensures RowsFrom(db.FindOrCreate(ToMediaItem(raw), mint.mediaId), steps + [Deliver(raw, mint)])
  {
    var item := ToMediaItem(raw);
    var a := db.FindOrCreate(item, mint.mediaId);
    var more := steps + [Deliver(raw, mint)];
    hide Parse, ToMediaItem, SentFor, RowFrom;
    forall x | x in a.media ensures RowFrom(a.media[x], SentFor(more, a.media[x].identity)) {
      ResolvedRow(db, steps, item, mint.mediaId, x);
      SentMore(steps, raw, mint, a.media[x].identity);
    }
    forall identity | SentFor(more, identity) != []
      ensures exists x :: x in a.media && a.media[x].identity == identity
    {
      SentMore(steps, raw, mint, identity);
      ResolvedThere(db, item, mint.mediaId, identity);
    }
  }

  lemma ResolvedThere(db: Db, item: MediaItem, newId: string, identity: string)
    requires db.Schema() && newId !in db.media
    requires identity == item.identity || exists m :: m in db.media && db.media[m].identity == identity
    ensures var a := db.FindOrCreate(item, newId); exists x :: x in a.media && a.media[x].identity == identity
  {
    var a, id := db.FindOrCreate(item, newId), db.ResolvedId(item, newId);
    assert id in a.media && a.media[id].identity == item.identity;
    if m :| m in db.media && db.media[m].identity == identity {
      assert m in a.media && a.media[m].identity == identity;
    }
  }

  lemma SameMediaRows(a: Db, b: Db, steps: seq<Step>)
    requires RowsFrom(a, steps) && b.media == a.media
    ensures RowsFrom(b, steps)
  {
    hide SentFor, RowFrom;
  }

  lemma DeliveryRows(db: Db, raw: Incoming, cfg: Config, mint: Mint, db': Db, steps: seq<Step>)
    requires RowsFrom(db, steps) && Delivers(db, raw, cfg, mint, db') && Parse(raw) == Accepted
    ensures RowsFrom(db', steps + [Deliver(raw, mint)])
  {
    assert db.Schema() && mint.mediaId !in db.media;
    var m := ToMediaItem(raw);
    DeliveredMedia(db, raw, cfg, mint, db');
    hide Delivers, Parse, Db.Schema, Db.FindOrCreate, Db.SetDeleted, Db.ResolvedId, RowsFrom, ToMediaItem;
    ResolvedRows(db, steps, raw, mint);
    var a, id := db.FindOrCreate(m, mint.mediaId), db.ResolvedId(m, mint.mediaId);
    StampedRows(a, id, None, steps + [Deliver(raw, mint)]);
    SameMediaRows(a.SetDeleted(id, None), db', steps + [Deliver(raw, mint)]);
  }

  lemma QuietRows(db: Db, step: Step, steps: seq<Step>)
    requires RowsFrom(db, steps) && !(step.Deliver? && Parse(step.raw) == Accepted)
    ensures RowsFrom(db, steps + [step])
  {
    hide Parse, SentFor, RowFrom;
    forall identity ensures SentFor(steps + [step], identity) == SentFor(steps, identity) {
      SentSame(steps, step, identity);
    }
  }

  lemma StepRows(db: Db, step: Step, cfg: Config, db': Db, steps: seq<Step>)
    requires db.Schema() && RowsFrom(db, steps) && cfg.gap >= 0 && Next(db, step, cfg, db')
    ensures RowsFrom(db', steps + [step])
  {
    hide Delivers, Parse, Db.Schema, RowsFrom, Db.SetDeleted, Apply.RebuildsTo;
    if step.Deliver? && Parse(step.raw) == Accepted {
      DeliveryRows(db, step.raw, cfg, step.mint, db', steps);
    } else {
      QuietRows(db, step, steps);
      match step
      case Deliver(raw, mint) => RefusedSame(db, raw, cfg, mint, db');
      case Delete(id, now) => StampedRows(db, id, Some(now), steps + [step]);
      case Restore(id) => StampedRows(db, id, None, steps + [step]);
      case Replay(ids, now) =>
        ReplayKeepsBasic(db, step, cfg, db');
        SameMediaRows(db, db', steps + [step]);
    }
  }

  lemma {:induction false} EveryRow(states: seq<Db>, steps: seq<Step>, cfg: Config, n: nat)
    requires Run(states, steps, cfg) && cfg.gap >= 0 && n < |states|
    ensures RowsFrom(states[n], steps[..n])
  {
    hide Next, Parse;
    if n > 0 {
      hide RowsFrom;
      EveryRow(states, steps, cfg, n - 1);
      EveryStateSchema(states, steps, cfg, n - 1);
      assert steps[..n] == steps[..n - 1] + [steps[n - 1]];
      StepRows(states[n - 1], steps[n - 1], cfg, states[n], steps[..n - 1]);
    }
  }

  /** In every state of every run, whatever is deleted, restored or rebuilt in between: an item shows the last
      non-empty title and language that accepted deliveries, repeats too, sent for it, the first non-empty URL, the
      first known duration, and the kind of the first of them. */
  lemma ItemsAreEnriched(states: seq<Db>, steps: seq<Step>, cfg: Config, n: nat, m: string)
    requires Run(states, steps, cfg) && cfg.gap >= 0 && n < |states| && m in states[n].media
    ensures var row, ms := states[n].media[m], SentFor(steps[..n], states[n].media[m].identity);
      && ms != [] && row.kind == (if ms[0].kind == "" then "unknown" else ms[0].kind)
      && HoldsLast(row.title, Titles(ms)) && HoldsLast(row.language, Languages(ms))
      && HoldsFirst(row.url, Urls(ms)) && HoldsFirstKnown(row.duration, Lengths(ms))
  {
    hide Next, SentFor, HoldsLast, HoldsFirst, HoldsFirstKnown, Enriched;
    EveryRow(states, steps, cfg, n);
    ColumnsAfter(SentFor(steps[..n], states[n].media[m].identity));
  }
}
