/** What a step of the delivery protocol touches, and what can always be done next. */
module Progress {
  import opened Ingest
  import opened Queue
  import opened Delivery

  // The event that a request commits next.
  function NextEvent(w: World, k: nat): Raw
    requires k < |w.requests| && w.requests[k].committed < |w.requests[k].batch|
  {
    w.requests[k].batch[w.requests[k].committed]
  }

  /** What is touched by what: only the end of an enqueue adds to the history of saved events, and evicts; only the
      server's commits add to what it received; only the end of a flush acknowledges; a message and an alarm line up a
      task behind the others, the end of a task takes the head off, and only a crash takes them all. */
  lemma StepTouches(w: World, step: Step, w': World)
    requires Moves(w, step, w')
    ensures step.SaveAdded? ==> w.tasks != [] && w.tasks[0].Add?
    ensures w'.saved == if step.SaveAdded? then w.saved + [w.tasks[0].event] else w.saved
    ensures step.Commit? ==> step.request < |w.requests|
    ensures step.Commit? ==> w.requests[step.request].committed < |w.requests[step.request].batch|
    ensures w'.received == if step.Commit? then w.received + [NextEvent(w, step.request)] else w.received
    ensures !step.Settle? ==> w'.acked == w.acked
    ensures !step.SaveAdded? ==> w'.evicted == w.evicted
    ensures w'.tasks == match step
      case Submit(e) => w.tasks + [Add(e)]
      case Alarm => w.tasks + [Flush]
      case SaveAdded => w.tasks[1..]
      case Settle => w.tasks[1..]
      case Reject => w.tasks[1..]
      case Crash => []
      case _ => w.tasks
  {
    hide Ack, Parse, NewId, IdsOf;
  }

  /** A request once sent stays with the server and only gets further, whatever becomes of the worker. */
  lemma RequestsStay(w: World, step: Step, w': World, k: nat)
    requires Moves(w, step, w') && k < |w.requests|
    ensures k < |w'.requests| && w'.requests[k].batch == w.requests[k].batch
    ensures w'.requests[k].committed == w.requests[k].committed + (if step == Commit(k) then 1 else 0)
    ensures |w'.requests| == |w.requests| + (if step.Post? then 1 else 0)
  {
    hide Ack, Parse, NewId, IdsOf;
  }

  /** A message, an alarm and a crash can come at any moment; the server can go on with any request whose next event
      it accepts; and an answer that is no good can come whenever one is waited for. */
  lemma AnyMoment(w: World, e: Raw)
    requires Safe(w)
    ensures Enabled(w, Submit(e)) && Enabled(w, Alarm) && Enabled(w, Crash)
    ensures w.stage.Posting? ==> Enabled(w, Answer(false))
    ensures forall k: nat | k < |w.requests| && w.requests[k].committed < |w.requests[k].batch| ::
      Parse(NextEvent(w, k)) == Accepted ==> Enabled(w, Commit(k))
  {
    hide Parse, AllDistinct, Fifo, OnTheWire, Accounted, Divided;
  }

  // Nothing is running and nothing is waiting to.
  predicate Quiet(w: World) {
    w.tasks == [] && w.stage == Waiting
  }

  /** In a quiet moment a message can be saved at once: it comes last in the queue, and if that was full the oldest
      event has made room for it. */
  lemma MessageIsSaved(w: World, e: Raw) returns (a: World, b: World, v: World)
    requires Safe(w) && Quiet(w) && NewId(w, e)
    ensures Moves(w, Submit(e), a) && Moves(a, Load, b) && Moves(b, SaveAdded, v) && Quiet(v)
    ensures v.saved == w.saved + [e] && v.received == w.received && v.acked == w.acked
    ensures |w.stored| < 1000 ==> v.stored == w.stored + [e] && v.evicted == w.evicted
    ensures |w.stored| == 1000 ==> v.stored == w.stored[1..] + [e] && v.evicted == w.evicted + {w.stored[0].eventId}
  {
    a := After(w, Submit(e));
    b := After(a, Load);
    v := After(b, SaveAdded);
    hide Parse, AllDistinct, Locked, OnTheWire, Accounted, Divided;
    assert a.tasks == [Add(e)] && b.stage.queue == w.stored;
    assert (w.stored + [e])[0..] == w.stored + [e];
    if |w.stored| == 1000 {
      assert (w.stored + [e])[..1] == [w.stored[0]];
    }
  }

  /** In a quiet moment an alarm can deliver the oldest fifty events, if the server accepts them all: they are taken
      off the queue, received in their order, and acknowledged. */
  lemma AlarmDelivers(w: World) returns (steps: seq<Step>, v: World)
    requires Safe(w) && Quiet(w) && w.stored != []
    requires forall i | 0 <= i < |w.stored| && i < 50 :: Parse(w.stored[i]) == Accepted
    ensures steps != [] && steps[0] == Alarm && Path(w, steps, v) && Quiet(v)
    ensures var n := if |w.stored| < 50 then |w.stored| else 50;
      && v.stored == w.stored[n..] && v.received == w.received + w.stored[..n]
      && v.saved == w.saved && v.evicted == w.evicted && v.acked == w.acked + IdsOf(w.stored[..n])
  {
    hide Parse, AllDistinct, Locked, OnTheWire, Accounted, Divided, Ack, IdsOf;
    var a := After(w, Alarm);
    assert Moves(w, Alarm, a);
    MovesKeepSafe(w, Alarm, a);
    StoredDistinct(w);
    FlushesTakeTheOldest(w.stored, 1);
    var rest;
    rest, v := CleanFlushes(a);
    assert DrainBatch(w.stored, BATCH_MAX) == w.stored[..if |w.stored| < 50 then |w.stored| else 50];
    steps := [Alarm] + rest;
    assert steps[1..] == rest;
  }
}
