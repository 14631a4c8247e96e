/** From the player's browser to the tables: at-least-once delivery into an idempotent log is exactly once. */
module EndToEnd {
  import opened Folding
  import opened Tables
  import opened Ingest
  import opened Queue
  import Delivery
  import opened Guarantees

  // The collector's world and the service's tables.
  datatype Joint = Joint(world: Delivery.World, db: Db)

  const EMPTY := Joint(Delivery.START, EMPTY_DB)

  // What the collector does on its own; the server taking the next event of one of its requests; and whatever
  // else the service does: other collectors' deliveries, deletions, restorations and rebuilds.
  datatype Action = Collect(move: Delivery.Step) | Take(request: nat, mint: Mint) | Serve(step: Runs.Step)

  ghost predicate Acts(j: Joint, action: Action, cfg: Config, j': Joint) {
    match action
    case Collect(move) => !move.Commit? && Delivery.Moves(j.world, move, j'.world) && j'.db == j.db
    case Take(k, mint) =>
      && Delivery.Moves(j.world, Delivery.Commit(k), j'.world)
      && Runs.Next(j.db, Runs.Deliver(NextOf(j.world, k), mint), cfg, j'.db)
    case Serve(step) => j'.world == j.world && Runs.Next(j.db, step, cfg, j'.db)
  }

  // The event of a request that is committed next.
  function NextOf(w: Delivery.World, k: nat): Raw
    requires Delivery.Enabled(w, Delivery.Commit(k))
  {
    w.requests[k].batch[w.requests[k].committed]
  }

  ghost predicate JointRun(states: seq<Joint>, actions: seq<Action>, cfg: Config) {
    && |states| == |actions| + 1 && states[0] == EMPTY
    && forall i | 0 <= i < |actions| :: Acts(states[i], actions[i], cfg, states[i + 1])
  }

  // The accepted event that an action brings from elsewhere.
  function Brought(action: Action): set<Wire> {
    if action.Serve? && action.step.Deliver? && Parse(action.step.raw) == Accepted then {WireOf(action.step.raw)}
    else {}
  }

  function Served(actions: seq<Action>): set<Wire> {
    if actions == [] then {} else Served(actions[..|actions| - 1]) + Brought(actions[|actions| - 1])
  }

  function WiresOf(q: seq<Raw>): set<Wire>
    requires forall e | e in q :: Parse(e) == Accepted
  {
    set e | e in q :: WireOf(e)
  }

  lemma OneMoreWire(q: seq<Raw>, e: Raw)
    requires (forall x | x in q :: Parse(x) == Accepted) && Parse(e) == Accepted
    ensures (forall x | x in q + [e] :: Parse(x) == Accepted) && WiresOf(q + [e]) == WiresOf(q) + {WireOf(e)}
  {
    hide Parse, WireOf;
    assert forall x :: x in q + [e] <==> x in q || x == e;
  }

  // What both sides know of the log.
  ghost predicate Agreed(j: Joint, others: set<Wire>) {
    && Delivery.Safe(j.world) && Basic(j.db)
    && WireLog(j.db) == WiresOf(j.world.received) + others
  }

  lemma SafeAccepted(w: Delivery.World)
    requires Delivery.Safe(w)
    ensures forall e | e in w.received :: Parse(e) == Accepted
  {
    hide Delivery.AllDistinct, Delivery.Locked, Delivery.Accounted, Delivery.Divided, Parse;
  }

  lemma UncommittedStays(w: Delivery.World, step: Delivery.Step, w': Delivery.World)
    requires Delivery.Moves(w, step, w') && !step.Commit?
    ensures w'.received == w.received
  {
    hide Parse, Ack, Delivery.NewId, IdsOf;
  }

  lemma CommittedReceived(w: Delivery.World, k: nat, w': Delivery.World)
    requires Delivery.Moves(w, Delivery.Commit(k), w')
    ensures Delivery.Enabled(w, Delivery.Commit(k)) && Parse(NextOf(w, k)) == Accepted
    ensures w'.received == w.received + [NextOf(w, k)]
  {
    hide Parse;
  }

  lemma CollectKeeps(j: Joint, move: Delivery.Step, cfg: Config, j': Joint, others: set<Wire>)
    requires Agreed(j, others) && Acts(j, Collect(move), cfg, j')
    ensures Agreed(j', others)
  {
    hide Delivery.Moves, Delivery.Safe, Basic, Parse, WireOf, WireLog, WiresOf;
    Delivery.MovesKeepSafe(j.world, move, j'.world);
    UncommittedStays(j.world, move, j'.world);
  }

  lemma TakeKeeps(j: Joint, k: nat, mint: Mint, cfg: Config, j': Joint, others: set<Wire>)
    requires Agreed(j, others) && cfg.gap >= 0 && Acts(j, Take(k, mint), cfg, j')
    ensures Agreed(j', others)
  {
    hide Delivery.Moves, Delivery.Safe, Runs.Next, Basic, Parse, WireOf, WireLog, WiresOf, Delivery.Enabled;
    Delivery.MovesKeepSafe(j.world, Delivery.Commit(k), j'.world);
    CommittedReceived(j.world, k, j'.world);
    StepKeepsBasic(j.db, Runs.Deliver(NextOf(j.world, k), mint), cfg, j'.db);
    SafeAccepted(j.world);
    OneMoreWire(j.world.received, NextOf(j.world, k));
  }

  lemma ServeKeeps(j: Joint, step: Runs.Step, cfg: Config, j': Joint, others: set<Wire>)
    requires Agreed(j, others) && cfg.gap >= 0 && Acts(j, Serve(step), cfg, j')
    ensures Agreed(j', others + Brought(Serve(step)))
  {
    hide Delivery.Moves, Delivery.Safe, Runs.Next, Basic, Parse, WireOf, WireLog, WiresOf;
    StepKeepsBasic(j.db, step, cfg, j'.db);
  }

  lemma ActKeepsAgreed(j: Joint, action: Action, cfg: Config, j': Joint, others: set<Wire>)
    requires Agreed(j, others) && cfg.gap >= 0 && Acts(j, action, cfg, j')
    ensures Agreed(j', others + Brought(action))
  {
    hide Acts, Agreed, Parse, WireOf;
    assert others + {} == others;
    match action
    case Collect(move) => CollectKeeps(j, move, cfg, j', others);
    case Take(k, mint) => TakeKeeps(j, k, mint, cfg, j', others);
    case Serve(step) => ServeKeeps(j, step, cfg, j', others);
  }

  lemma EmptyAgrees()
    ensures Agreed(EMPTY, {})
  {
    Delivery.StartSafe();
    assert WireLog(EMPTY_DB) == {} by { EmptyWires(); }
  }

  lemma {:induction false} EveryStateAgrees(states: seq<Joint>, actions: seq<Action>, cfg: Config, n: nat)
    requires JointRun(states, actions, cfg) && cfg.gap >= 0 && n < |states|
    ensures Agreed(states[n], Served(actions[..n]))
  {
    hide Acts, Agreed, Brought;
    if n == 0 {
      EmptyAgrees();
    } else {
      EveryStateAgrees(states, actions, cfg, n - 1);
      assert actions[..n][..n - 1] == actions[..n - 1];
      ActKeepsAgreed(states[n - 1], actions[n - 1], cfg, states[n], Served(actions[..n - 1]));
    }
  }

  lemma AckedReceived(w: Delivery.World, e: Raw)
    requires Delivery.Safe(w) && e in w.saved && e.eventId in w.acked
    ensures e in w.received
  {
    hide Delivery.Locked, Delivery.OnTheWire, Delivery.AllDistinct;
    Delivery.StoredDistinct(w);
    var i :| 0 <= i < |w.saved| && w.saved[i] == e;
    var gone := |w.saved| - |w.stored|;
    assert e.eventId in IdsOf(w.saved[..gone]);
    var j :| 0 <= j < gone && w.saved[j].eventId == e.eventId;
    assert j == i;
    assert Delivery.Left(w, i);
  }

  /** At every moment of every joint run, whatever was posted twice, answered into the void or cut short, and
      whatever else the service is fed, deletes or rebuilds: the log holds exactly the events that this collector's
      requests got through and those from elsewhere, each once; and every event the collector has let go of as
      acknowledged is among them. */
  lemma AckedIsLogged(states: seq<Joint>, actions: seq<Action>, cfg: Config, n: nat)
    requires JointRun(states, actions, cfg) && cfg.gap >= 0 && n < |states|
    ensures Agreed(states[n], Served(actions[..n])) && |WireLog(states[n].db)| == |states[n].db.events|
    ensures forall e | e in states[n].world.saved && e.eventId in states[n].world.acked ::
      Parse(e) == Accepted && WireOf(e) in WireLog(states[n].db)
  {
    hide Acts, Parse, WireOf, WireLog, Delivery.Safe, Db.Schema;
    EveryStateAgrees(states, actions, cfg, n);
    WireCount(states[n].db);
    var w := states[n].world;
    SafeAccepted(w);
    forall e | e in w.saved && e.eventId in w.acked ensures e in w.received {
      AckedReceived(w, e);
    }
  }
}
