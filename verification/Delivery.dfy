/** The collector-to-core protocol, step by step: message handlers, alarms, the lock chain, requests that are
    processed event by event, answers that get lost, and a worker that can be killed at any point. */
module Delivery {
  import opened Ingest
  import opened Queue

  // The work queued on the lock chain; only its head ever runs.
  datatype Task = Add(event: Raw) | Flush

  // How far the head has come: it loads the stored queue, perhaps posts, and saves; loading and saving can throw.
  datatype Stage = Waiting | Loaded(queue: seq<Raw>) | Posting(queue: seq<Raw>, request: nat)
    | Posted(queue: seq<Raw>, ok: bool)

  // A request at the server, which commits its events one by one.
  datatype Request = Request(batch: seq<Raw>, committed: nat)

  // What is stored, running and on the wire; what the server committed; and the history: every event ever
  // saved to the queue in order, and the ids that left it by an acknowledgement or by the cap.
  datatype World = World(stored: seq<Raw>, tasks: seq<Task>, stage: Stage, requests: seq<Request>, received: seq<Raw>,
                         saved: seq<Raw>, acked: set<string>, evicted: set<string>)

  const START := World([], [], Waiting, [], [], [], {}, {})

  datatype Step = Submit(event: Raw) | Alarm | Load | SaveAdded | Post | Commit(request: nat) | Answer(ok: bool)
    | Settle | Reject | Crash

  function Adds(tasks: seq<Task>): seq<Raw> {
    if tasks == [] then [] else (if tasks[0].Add? then [tasks[0].event] else []) + Adds(tasks[1..])
  }

  // Event ids are freshly drawn.
  ghost predicate NewId(w: World, e: Raw) {
    forall f | f in w.saved + Adds(w.tasks) :: f.eventId != e.eventId
  }

  predicate Enabled(w: World, step: Step) {
    match step
    case Submit(e) => true
    case Alarm => true
    case Load => w.tasks != [] && w.stage.Waiting?
    case SaveAdded => w.tasks != [] && w.tasks[0].Add? && w.stage.Loaded?
    case Post => w.tasks != [] && w.tasks[0].Flush? && w.stage.Loaded? && w.stage.queue != []
    case Commit(k) =>
      && k < |w.requests| && w.requests[k].committed < |w.requests[k].batch|
      && Parse(w.requests[k].batch[w.requests[k].committed]) == Accepted
    case Answer(ok) =>
      && w.stage.Posting? && w.stage.request < |w.requests|
      && (ok ==> w.requests[w.stage.request].committed == |w.requests[w.stage.request].batch|)
    case Settle => w.tasks != [] && w.tasks[0].Flush? && (w.stage.Posted? || (w.stage.Loaded? && w.stage.queue == []))
    case Reject => w.tasks != [] && !w.stage.Posting?
    case Crash => true
  }

  function After(w: World, step: Step): World
    requires Enabled(w, step)
  {
    match step
    case Submit(e) => w.(tasks := w.tasks + [Add(e)])
    case Alarm => w.(tasks := w.tasks + [Flush])
    case Load => w.(stage := Loaded(w.stored))
    case SaveAdded =>
      var (queue, dropped) := Enqueue(w.stage.queue, w.tasks[0].event);
      w.(stored := queue, tasks := w.tasks[1..], stage := Waiting, saved := w.saved + [w.tasks[0].event],
         evicted := w.evicted + IdsOf((w.stage.queue + [w.tasks[0].event])[..dropped]))
    case Post =>
      w.(stage := Posting(w.stage.queue, |w.requests|),
         requests := w.requests + [Request(DrainBatch(w.stage.queue, BATCH_MAX), 0)])
    case Commit(k) =>
      var r := w.requests[k];
      w.(requests := w.requests[k := r.(committed := r.committed + 1)], received := w.received + [r.batch[r.committed]])
    case Answer(ok) => w.(stage := Posted(w.stage.queue, ok))
    case Settle =>
      if w.stage.Posted? && w.stage.ok then
        var ids := IdsOf(DrainBatch(w.stage.queue, BATCH_MAX));
        w.(stored := Ack(w.stage.queue, ids), tasks := w.tasks[1..], stage := Waiting, acked := w.acked + ids)
      else w.(tasks := w.tasks[1..], stage := Waiting)
    case Reject => w.(tasks := w.tasks[1..], stage := Waiting)
    case Crash => w.(tasks := [], stage := Waiting)
  }

  ghost predicate Execution(worlds: seq<World>, steps: seq<Step>) {
    && |worlds| == |steps| + 1 && worlds[0] == START
    && forall i | 0 <= i < |steps| :: Moves(worlds[i], steps[i], worlds[i + 1])
  }

  ghost predicate Moves(w: World, step: Step, w': World) {
    Enabled(w, step) && w' == After(w, step) && (step.Submit? ==> NewId(w, step.event))
  }

  // ----- the invariant -----

  ghost predicate AllDistinct(w: World) {
    Distinct(w.saved + Adds(w.tasks))
  }

  // First in, first out: the stored queue is the newest part of what was saved, and never over the cap.
  ghost predicate Fifo(w: World) {
    |w.stored| <= MAX_QUEUE && |w.stored| <= |w.saved| && w.stored == w.saved[|w.saved| - |w.stored|..]
  }

  // What the running task loaded is what is still stored, and a good answer is about a committed batch.
  ghost predicate Locked(w: World) {
    && (!w.stage.Waiting? ==> w.tasks != [] && w.stage.queue == w.stored)
    && (w.stage.Posting? ==> w.stage.request < |w.requests|)
    && (w.stage.Posting? ==> w.requests[w.stage.request].batch == DrainBatch(w.stored, BATCH_MAX))
    && (w.stage.Posted? && w.stage.ok ==> forall e | e in DrainBatch(w.stored, BATCH_MAX) :: e in w.received)
  }

  ghost predicate RequestKept(w: World, r: Request) {
    && r.committed <= |r.batch| && (forall e | e in r.batch :: e in w.saved)
    && (forall i | 0 <= i < r.committed :: r.batch[i] in w.received)
  }

  ghost predicate OnTheWire(w: World) {
    && (forall r | r in w.requests :: RequestKept(w, r))
    && (forall e | e in w.received :: e in w.saved && Parse(e) == Accepted)
  }

  // What an event that left the queue met: acknowledged after it was committed, or dropped as the oldest of
  // more than a thousand.
  ghost predicate Left(w: World, i: nat)
    requires i < |w.saved|
  {
    var e := w.saved[i];
    (e.eventId in w.acked && e in w.received) || (e.eventId in w.evicted && i + MAX_QUEUE < |w.saved|)
  }

  ghost predicate Accounted(w: World) {
    |w.stored| <= |w.saved| && forall i | 0 <= i < |w.saved| - |w.stored| :: Left(w, i)
  }

  // Exactly the events before the stored part have left, each in one way only.
  ghost predicate Divided(w: World) {
    && |w.stored| <= |w.saved|
    && w.acked + w.evicted == IdsOf(w.saved[..|w.saved| - |w.stored|]) && w.acked !! w.evicted
  }

  ghost predicate Safe(w: World) {
    AllDistinct(w) && Fifo(w) && Locked(w) && OnTheWire(w) && Accounted(w) && Divided(w)
  }

  lemma {:induction false} AddsSnoc(tasks: seq<Task>, t: Task)
    ensures Adds(tasks + [t]) == Adds(tasks) + (if t.Add? then [t.event] else [])
  {
    if tasks != [] {
      AddsSnoc(tasks[1..], t);
      assert (tasks + [t])[1..] == tasks[1..] + [t];
    }
  }

  lemma DistinctSnoc(q: seq<Raw>, e: Raw)
    requires Distinct(q) && forall f | f in q :: f.eventId != e.eventId
    ensures Distinct(q + [e])
  {
  }

  lemma DistinctWithout(q: seq<Raw>, n: nat)
    requires Distinct(q) && n < |q|
    ensures Distinct(q[..n] + q[n + 1..])
  {
    var r := q[..n] + q[n + 1..];
    forall i, j | 0 <= i < j < |r| ensures r[i].eventId != r[j].eventId {
      assert r[i] == q[if i < n then i else i + 1] && r[j] == q[if j < n then j else j + 1];
    }
  }

  // What a task that throws would have added is not saved.
  lemma RejectKeepsDistinct(w: World)
    requires AllDistinct(w) && w.tasks != []
    ensures Distinct(w.saved + Adds(w.tasks[1..]))
  {
    var n, all, left := |w.saved|, w.saved + Adds(w.tasks), w.saved + Adds(w.tasks[1..]);
    if w.tasks[0].Add? {
      DistinctWithout(all, n);
      assert left == all[..n] + all[n + 1..];
    } else {
      assert left == all;
    }
  }

  lemma MovesKeepDistinct(w: World, step: Step, w': World)
    requires AllDistinct(w) && Moves(w, step, w')
    ensures AllDistinct(w')
  {
    var all := w.saved + Adds(w.tasks);
    if step.Crash? {
      assert w'.saved + Adds(w'.tasks) == all[..|w.saved|];
      return;
    }
    if step.Reject? {
      RejectKeepsDistinct(w);
      return;
    }
    hide Distinct, Ack, Parse;
    match step
    case Submit(e) =>
      AddsSnoc(w.tasks, Add(e));
      DistinctSnoc(all, e);
      assert w'.saved + Adds(w'.tasks) == all + [e];
    case Alarm =>
      AddsSnoc(w.tasks, Flush);
      assert w'.saved + Adds(w'.tasks) == all;
    case SaveAdded => assert w'.saved + Adds(w'.tasks) == all;
    case Settle => assert w'.saved + Adds(w'.tasks) == all;
    case _ =>
  }

  lemma StoredDistinct(w: World)
    requires AllDistinct(w) && Fifo(w)
    ensures Distinct(w.saved) && Distinct(w.stored)
  {
    var all := w.saved + Adds(w.tasks);
    forall i, j | 0 <= i < j < |w.saved| ensures w.saved[i].eventId != w.saved[j].eventId {
      assert all[i] == w.saved[i] && all[j] == w.saved[j];
    }
  }

  // A good flush takes the batch, and nothing else, off the front of what is stored.
  lemma SettleDrops(w: World)
    requires AllDistinct(w) && Fifo(w) && Locked(w) && Enabled(w, Settle) && w.stage.Posted? && w.stage.ok
    ensures After(w, Settle).stored == w.stored[|DrainBatch(w.stored, BATCH_MAX)|..]
  {
    StoredDistinct(w);
    AckDropsBatch(w.stored, BATCH_MAX);
  }

  lemma MovesKeepFifo(w: World, step: Step, w': World)
    requires AllDistinct(w) && Fifo(w) && Locked(w) && Moves(w, step, w')
    ensures Fifo(w')
  {
    if step.Settle? && w.stage.Posted? && w.stage.ok {
      SettleDrops(w);
    }
    hide Ack, AllDistinct, Distinct;
  }

  lemma MovesKeepWire(w: World, step: Step, w': World)
    requires OnTheWire(w) && Fifo(w) && Locked(w) && Moves(w, step, w')
    ensures OnTheWire(w')
  {
    hide Ack, AllDistinct, Distinct, Parse;
    match step
    case Post =>
      forall e | e in DrainBatch(w.stored, BATCH_MAX) ensures e in w.saved {
      }
    case Commit(k) => CommitKeepsWire(w, k);
    case SaveAdded =>
      forall r | r in w'.requests ensures RequestKept(w', r) {
        assert RequestKept(w, r);
      }
    case _ =>
  }

  lemma CommitKeepsWire(w: World, k: nat)
    requires OnTheWire(w) && Enabled(w, Commit(k))
    ensures OnTheWire(After(w, Commit(k)))
  {
    hide Parse;
    var w', r := After(w, Commit(k)), w.requests[k];
    assert RequestKept(w, r);
    assert r.batch[r.committed] in r.batch && w'.received[|w.received|] == r.batch[r.committed];
    forall q | q in w'.requests ensures RequestKept(w', q) {
      assert q in w.requests || q == r.(committed := r.committed + 1);
    }
  }

  lemma MovesKeepLocked(w: World, step: Step, w': World)
    requires OnTheWire(w) && Locked(w) && Moves(w, step, w')
    ensures Locked(w')
  {
    hide Ack, AllDistinct, Distinct, Parse, NewId;
    if step.Answer? && step.ok {
      var r := w.requests[w.stage.request];
      assert RequestKept(w, r);
    }
  }

  // The ids of a run of the history are new to the ids before it.
  lemma IdsOfRun(q: seq<Raw>, n: nat, m: nat)
    requires Distinct(q) && n <= m <= |q|
    ensures IdsOf(q[..n]) + IdsOf(q[n..m]) == IdsOf(q[..m]) && IdsOf(q[..n]) !! IdsOf(q[n..m])
  {
    assert q[..m] == q[..n] + q[n..m];
    forall e, f | e in q[..n] && f in q[n..m] ensures e.eventId != f.eventId {
      var i :| 0 <= i < n && q[i] == e;
      var j :| n <= j < m && q[j] == f;
    }
  }

  lemma InIds(q: seq<Raw>, i: nat)
    requires i < |q|
    ensures q[i].eventId in IdsOf(q)
  {
    assert q[i] in q;
  }

  lemma StaysLeft(w: World, w': World, i: nat)
    requires i < |w.saved| && Left(w, i) && w.saved <= w'.saved
    requires w.acked <= w'.acked && w.evicted <= w'.evicted && w.received <= w'.received
    ensures Left(w', i)
  {
  }

  lemma SettledAccounted(w: World, i: nat)
    requires AllDistinct(w) && Fifo(w) && Locked(w) && Accounted(w)
    requires Enabled(w, Settle) && w.stage.Posted? && w.stage.ok
    requires i < |w.saved| - |After(w, Settle).stored|
    ensures Left(After(w, Settle), i)
  {
    var w', n, b := After(w, Settle), |w.saved| - |w.stored|, DrainBatch(w.stored, BATCH_MAX);
    SettleDrops(w);
    hide AllDistinct, Ack, IdsOf;
    if i < n {
      StaysLeft(w, w', i);
    } else {
      assert w.saved[i] == b[i - n];
      InIds(b, i - n);
    }
  }

  lemma AddedAccounted(w: World, i: nat)
    requires Fifo(w) && Locked(w) && Accounted(w) && Enabled(w, SaveAdded)
    requires i < |w.saved| + 1 - |After(w, SaveAdded).stored|
    ensures Left(After(w, SaveAdded), i)
  {
    var w', n, next := After(w, SaveAdded), |w.saved| - |w.stored|, w.stored + [w.tasks[0].event];
    hide IdsOf;
    if i < n {
      StaysLeft(w, w', i);
    } else {
      var gone := next[..Enqueue(w.stored, w.tasks[0].event).1];
      assert w'.saved[i] == gone[i - n];
      InIds(gone, i - n);
    }
  }

  lemma MovesKeepAccounted(w: World, step: Step, w': World)
    requires AllDistinct(w) && Fifo(w) && Locked(w) && Accounted(w) && Moves(w, step, w')
    ensures Accounted(w')
  {
    hide Ack, AllDistinct, Parse, NewId, Left, IdsOf;
    if step.Settle? && w.stage.Posted? && w.stage.ok {
      SettleDrops(w);
      forall i | 0 <= i < |w'.saved| - |w'.stored| ensures Left(w', i) {
        SettledAccounted(w, i);
      }
    } else if step.SaveAdded? {
      forall i | 0 <= i < |w'.saved| - |w'.stored| ensures Left(w', i) {
        AddedAccounted(w, i);
      }
    } else {
      forall i | 0 <= i < |w'.saved| - |w'.stored| ensures Left(w', i) {
        StaysLeft(w, w', i);
      }
    }
  }

  // Joining a run of the history to one side of the division.
  lemma DividedMore(q: seq<Raw>, n: nat, m: nat, side: set<string>, other: set<string>)
    requires Distinct(q) && n <= m <= |q| && side + other == IdsOf(q[..n]) && side !! other
    ensures side + IdsOf(q[n..m]) + other == IdsOf(q[..m]) && (side + IdsOf(q[n..m])) !! other
  {
    IdsOfRun(q, n, m);
    hide Distinct, IdsOf;
  }

  lemma SettledDivided(w: World)
    requires AllDistinct(w) && Fifo(w) && Locked(w) && Divided(w)
    requires Enabled(w, Settle) && w.stage.Posted? && w.stage.ok
    ensures Divided(After(w, Settle))
  {
    hide Ack, AllDistinct, Distinct, IdsOf;
    var n, b := |w.saved| - |w.stored|, DrainBatch(w.stored, BATCH_MAX);
    SettleDrops(w);
    StoredDistinct(w);
    DividedMore(w.saved, n, n + |b|, w.acked, w.evicted);
    assert b == w.saved[n..n + |b|];
  }

  lemma AddedDivided(w: World)
    requires AllDistinct(w) && Fifo(w) && Locked(w) && Divided(w) && Enabled(w, SaveAdded)
    ensures Divided(After(w, SaveAdded))
  {
    hide Ack, AllDistinct, Distinct, IdsOf;
    var w', n, e := After(w, SaveAdded), |w.saved| - |w.stored|, w.tasks[0].event;
    var d := Enqueue(w.stored, e).1;
    MovesKeepDistinct(w, SaveAdded, w');
    MovesKeepFifo(w, SaveAdded, w');
    StoredDistinct(w');
    assert w'.saved[..n] == w.saved[..n];
    DividedMore(w'.saved, n, n + d, w.evicted, w.acked);
    assert (w.stored + [e])[..d] == w'.saved[n..n + d];
  }

  lemma MovesKeepDivided(w: World, step: Step, w': World)
    requires AllDistinct(w) && Fifo(w) && Locked(w) && Divided(w) && Moves(w, step, w')
    ensures Divided(w')
  {
    hide Ack, AllDistinct, Parse, NewId, IdsOf;
    if step.Settle? && w.stage.Posted? && w.stage.ok {
      SettledDivided(w);
    } else if step.SaveAdded? {
      AddedDivided(w);
    }
  }

  lemma MovesKeepSafe(w: World, step: Step, w': World)
    requires Safe(w) && Moves(w, step, w')
    ensures Safe(w')
  {
    MovesKeepDistinct(w, step, w');
    MovesKeepFifo(w, step, w');
    MovesKeepWire(w, step, w');
    MovesKeepLocked(w, step, w');
    MovesKeepAccounted(w, step, w');
    MovesKeepDivided(w, step, w');
    hide Moves, AllDistinct, Fifo, Locked, OnTheWire, Accounted, Divided;
  }

  lemma StartSafe()
    ensures Safe(START)
  {
  }

  /** Every state of every interleaving is safe: the queue stays first in, first out and under its cap, the
      running task works on what is really stored, and every event that left the queue is accounted for. */
  lemma {:induction false} EveryWorldSafe(worlds: seq<World>, steps: seq<Step>, n: nat)
    requires Execution(worlds, steps) && n < |worlds|
    ensures Safe(worlds[n])
  {
    hide Safe, Moves;
    if n == 0 {
      StartSafe();
    } else {
      EveryWorldSafe(worlds, steps, n - 1);
      assert Moves(worlds[n - 1], steps[n - 1], worlds[n]);
      MovesKeepSafe(worlds[n - 1], steps[n - 1], worlds[n]);
    }
  }

  /** Nothing is lost silently: at every moment each event ever saved is still queued, or was acknowledged and
      is at the server, or was dropped by the cap while a thousand newer ones were saved after it. */
  lemma NothingLost(worlds: seq<World>, steps: seq<Step>, n: nat, i: nat)
    requires Execution(worlds, steps) && n < |worlds| && i < |worlds[n].saved|
    ensures var w, e := worlds[n], worlds[n].saved[i];
      e in w.stored || (e.eventId in w.acked && e in w.received) || (e.eventId in w.evicted && i + 1000 < |w.saved|)
    ensures var w := worlds[n]; |w.saved| == |w.stored| + |w.acked| + |w.evicted| && |w.stored| <= 1000
  {
    hide Moves, AllDistinct, Locked, OnTheWire, IdsOf;
    EveryWorldSafe(worlds, steps, n);
    var w := worlds[n];
    var gone := |w.saved| - |w.stored|;
    assert i < gone ==> Left(w, i);
    assert i >= gone ==> w.saved[i] == w.stored[i - gone];
    StoredDistinct(w);
    IdCount(w.saved[..gone]);
    assert |w.acked + w.evicted| == |w.acked| + |w.evicted|;
  }

  lemma {:induction false} IdCount(q: seq<Raw>)
    requires Distinct(q)
    ensures |IdsOf(q)| == |q|
  {
    if q != [] {
      var n := |q| - 1;
      IdCount(q[..n]);
      IdsOfRun(q, n, n + 1);
      assert q[..n + 1] == q && q[n..n + 1] == [q[n]];
      assert IdsOf([q[n]]) == {q[n].eventId};
    }
  }

  /** The lock makes every task whole: whatever else is going on, the stored queue only ever changes by one
      complete enqueue or one complete successful flush of the queue as it then is. */
  lemma TasksAreWhole(w: World, step: Step, w': World)
    requires Safe(w) && Moves(w, step, w')
    ensures match step
      case SaveAdded => w'.stored == Enqueue(w.stored, w.tasks[0].event).0
      case Settle => w'.stored == if w.stage.Posted? && w.stage.ok then Flushed(w.stored, 1) else w.stored
      case _ => w'.stored == w.stored
  {
    hide AllDistinct, OnTheWire, Accounted, Divided, NewId, Parse, Ack;
    assert Flushed(w.stored, 0) == w.stored;
  }

  // ----- refused events -----

  ghost predicate Clean(q: seq<Raw>) {
    forall e | e in DrainBatch(q, BATCH_MAX) :: Parse(e) == Accepted
  }

  lemma UncleanAcksNothing(w: World, step: Step, w': World)
    requires Safe(w) && Moves(w, step, w') && !Clean(w.stored)
    ensures w'.acked == w.acked
  {
    hide AllDistinct, Accounted, Divided, NewId, Parse, Ack, IdsOf, RequestKept;
  }

  ghost function Gone(w: World): int {
    |w.saved| - |w.stored|
  }

  // The history only grows, and what has left the queue stays out.
  lemma HistoryGrows(w: World, step: Step, w': World)
    requires Safe(w) && Moves(w, step, w')
    ensures w.saved <= w'.saved && Gone(w) <= Gone(w')
  {
    if step.Settle? && w.stage.Posted? && w.stage.ok {
      SettleDrops(w);
    }
    hide AllDistinct, OnTheWire, Accounted, Divided, NewId, Parse, Ack, IdsOf;
  }

  // An event that is still queued, and was among the oldest fifty, is among them still.
  lemma StillInFront(w: World, gone: nat, i: nat)
    requires Fifo(w) && gone <= Gone(w) <= i < gone + BATCH_MAX && i < |w.saved| && Parse(w.saved[i]) != Accepted
    ensures !Clean(w.stored)
  {
    hide Parse;
    assert DrainBatch(w.stored, BATCH_MAX)[i - Gone(w)] == w.saved[i];
  }

  // The server never commits it, so it cannot be acknowledged.
  lemma RefusedOnlyEvicted(w: World, i: nat)
    requires Safe(w) && i < |w.saved| && i < Gone(w) && Parse(w.saved[i]) != Accepted
    ensures i + MAX_QUEUE < |w.saved|
  {
    hide Parse, AllDistinct, Locked, Divided;
    assert Left(w, i);
  }

  /** One event the server refuses holds up the whole queue: from the moment it is among the oldest fifty,
      nothing is acknowledged until a thousand newer events have been saved behind it. */
  lemma {:induction false} RefusedHoldsUp(worlds: seq<World>, steps: seq<Step>, m: nat, n: nat, i: nat)
    requires Execution(worlds, steps) && m <= n < |worlds| && i < |worlds[m].saved|
    requires Gone(worlds[m]) <= i < Gone(worlds[m]) + 50 && Parse(worlds[m].saved[i]) != Accepted
    ensures worlds[m].saved <= worlds[n].saved && Gone(worlds[m]) <= Gone(worlds[n])
    ensures worlds[n].acked == worlds[m].acked || i + 1000 < |worlds[n].saved|
    decreases n
  {
    hide Moves, Safe, Parse, Clean, Fifo;
    if m < n {
      var w, w' := worlds[n - 1], worlds[n];
      RefusedHoldsUp(worlds, steps, m, n - 1, i);
      EveryWorldSafe(worlds, steps, m);
      EveryWorldSafe(worlds, steps, n - 1);
      assert Moves(w, steps[n - 1], w');
      HistoryGrows(w, steps[n - 1], w');
      SafeFifo(worlds[m]);
      SafeFifo(w);
      if i < Gone(w) {
        RefusedOnlyEvicted(w, i);
      } else {
        StillInFront(w, Gone(worlds[m]), i);
        UncleanAcksNothing(w, steps[n - 1], w');
      }
    }
  }

  lemma SafeFifo(w: World)
    requires Safe(w)
    ensures Fifo(w) && Gone(w) >= 0
  {
  }

  predicate Path(w: World, steps: seq<Step>, w': World)
    decreases |steps|
  {
    if steps == [] then w' == w
    else !steps[0].Submit? && Enabled(w, steps[0]) && Path(After(w, steps[0]), steps[1..], w')
  }

  lemma {:induction false} PathThen(w: World, steps: seq<Step>, v: World, step: Step)
    requires Path(w, steps, v) && !step.Submit? && Enabled(v, step)
    ensures Path(w, steps + [step], After(v, step))
    decreases |steps|
  {
    hide Enabled, After;
    if steps == [] {
      assert steps + [step] == [step];
      assert Path(After(v, step), [], After(v, step));
    } else {
      PathThen(After(w, steps[0]), steps[1..], v, step);
      assert (steps + [step])[1..] == steps[1..] + [step];
    }
  }

  /** A task that throws never wedges the chain: whatever the head has come to, it can end, and the next one runs. */
  lemma NeverWedged(w: World) returns (steps: seq<Step>, v: World)
    requires Safe(w) && w.tasks != []
    ensures Path(w, steps, v) && Crash !in steps && v.tasks == w.tasks[1..] && v.stored == w.stored
    ensures v.tasks != [] ==> Enabled(v, Load)
  {
    hide AllDistinct, Fifo, OnTheWire, Accounted, Divided, Parse, Ack, IdsOf;
    if w.stage.Posting? {
      var a := After(w, Answer(false));
      v := After(a, Reject);
      steps := [Answer(false), Reject];
      assert steps[1..] == [Reject] && Path(v, [], v) && Path(a, [Reject], v);
    } else {
      v := After(w, Reject);
      steps := [Reject];
      assert Path(v, [], v);
    }
  }

  // The server commits what is left of the request the worker waits for.
  lemma {:induction false} CommitRest(w: World, k: nat) returns (steps: seq<Step>, v: World)
    requires w.stage.Posting? && w.stage.request == k < |w.requests|
    requires w.requests[k].committed <= |w.requests[k].batch|
    requires forall e | e in w.requests[k].batch :: Parse(e) == Accepted
    ensures Path(w, steps, v) && v.stage == w.stage && v.tasks == w.tasks && v.stored == w.stored && k < |v.requests|
    ensures v.requests[k].committed == |v.requests[k].batch|
    ensures v.received == w.received + w.requests[k].batch[w.requests[k].committed..]
    ensures v.saved == w.saved && v.acked == w.acked && v.evicted == w.evicted
    decreases |w.requests[k].batch| - w.requests[k].committed
  {
    hide Parse, Ack, IdsOf;
    if w.requests[k].committed == |w.requests[k].batch| {
      return [], w;
    }
    var rest;
    rest, v := CommitRest(After(w, Commit(k)), k);
    steps := [Commit(k)] + rest;
  }

  /** And no other event holds it up: when the oldest fifty are acceptable, a waiting flush can run to its end and take
      exactly them. That the service takes the request at all, its token and its size, is left to the answer. */
  lemma CleanFlushes(w: World) returns (steps: seq<Step>, v: World)
    requires Safe(w) && w.tasks == [Flush] && w.stage.Waiting? && w.stored != [] && Clean(w.stored)
    ensures Path(w, steps, v) && v.stored == Flushed(w.stored, 1) && v.tasks == [] && v.stage == Waiting
    ensures v.received == w.received + DrainBatch(w.stored, BATCH_MAX)
    ensures v.saved == w.saved && v.acked == w.acked + IdsOf(DrainBatch(w.stored, BATCH_MAX)) && v.evicted == w.evicted
  {
    hide Parse, Ack, IdsOf, AllDistinct, OnTheWire, Accounted, Divided, Fifo;
    var a := After(w, Load);
    var b := After(a, Post);
    var rest, c := CommitRest(b, |w.requests|);
    var d := After(c, Answer(true));
    v := After(d, Settle);
    PathThen(b, rest, c, Answer(true));
    PathThen(b, rest + [Answer(true)], d, Settle);
    steps := [Load, Post] + (rest + [Answer(true)] + [Settle]);
    assert steps[1..] == [Post] + (rest + [Answer(true)] + [Settle]);
    assert steps[1..][1..] == rest + [Answer(true)] + [Settle];
    assert Flushed(w.stored, 0) == w.stored;
  }
}
