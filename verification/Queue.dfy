/** The browser collector's persisted queue: capped by dropping the oldest, drained from the front,
    acknowledged by id. */
module Queue {
  import opened Ingest
  import opened Events

  type Raw = r: Incoming | r.Incoming? witness Incoming(1, "", "", 0, "", "", "", "", "", "", None, "", None)

  const MAX_QUEUE := 1000
  const BATCH_MAX := 50

  function Enqueue(q: seq<Raw>, e: Raw): (seq<Raw>, nat) {
    var next := q + [e];
    if |next| > MAX_QUEUE then
      var dropped := |next| - MAX_QUEUE;
      (next[dropped..], dropped)
    else (next, 0)
  }

  function DrainBatch(q: seq<Raw>, max: nat): seq<Raw> {
    if |q| <= max then q else q[..max]
  }

  function IdsOf(q: seq<Raw>): set<string> {
    set e | e in q :: e.eventId
  }

  function Ack(q: seq<Raw>, ids: set<string>): seq<Raw> {
    if q == [] then []
    else (if q[0].eventId in ids then [] else [q[0]]) + Ack(q[1..], ids)
  }

  ghost predicate Distinct(q: seq<Raw>) {
    forall i, j | 0 <= i < j < |q| :: q[i].eventId != q[j].eventId
  }

  lemma {:induction false} AckNone(q: seq<Raw>, ids: set<string>)
    requires forall e | e in q :: e.eventId !in ids
    ensures Ack(q, ids) == q
  {
    if q != [] {
      AckNone(q[1..], ids);
    }
  }

  lemma {:induction false} AckRun(q: seq<Raw>, ids: set<string>, n: nat)
    requires n <= |q| && (forall e | e in q[..n] :: e.eventId in ids) && (forall e | e in q[n..] :: e.eventId !in ids)
    ensures Ack(q, ids) == q[n..]
  {
    if n == 0 {
      AckNone(q, ids);
    } else {
      assert q[0] in q[..n];
      forall e | e in q[1..][..n - 1] ensures e in q[..n] {
      }
      AckRun(q[1..], ids, n - 1);
    }
  }

  /** Acknowledging a drained batch takes exactly that batch off the front, whatever else shares its content. */
  lemma AckDropsBatch(q: seq<Raw>, max: nat)
    requires Distinct(q)
    ensures Ack(q, IdsOf(DrainBatch(q, max))) == q[|DrainBatch(q, max)|..]
  {
    var n := |DrainBatch(q, max)|;
    assert DrainBatch(q, max) == q[..n];
    forall e | e in q[n..] ensures e.eventId !in IdsOf(q[..n]) {
      var j :| n <= j < |q| && q[j] == e;
      assert forall i | 0 <= i < n :: q[i].eventId != q[j].eventId;
    }
    AckRun(q, IdsOf(q[..n]), n);
  }

  // The queue after k successful flushes with nothing enqueued in between.
  function Flushed(q: seq<Raw>, k: nat): seq<Raw> {
    if k == 0 then q
    else
      var p := Flushed(q, k - 1);
      Ack(p, IdsOf(DrainBatch(p, BATCH_MAX)))
  }

  function Least(a: nat, b: nat): nat {
    if a <= b then a else b
  }

  lemma {:induction false} FlushesTakeTheOldest(q: seq<Raw>, k: nat)
    requires Distinct(q)
    ensures Flushed(q, k) == q[Least(k * BATCH_MAX, |q|)..]
  {
    if k > 0 {
      FlushesTakeTheOldest(q, k - 1);
      var p := Flushed(q, k - 1);
      AckDropsBatch(p, BATCH_MAX);
      var n := |DrainBatch(p, BATCH_MAX)|;
      assert p[n..] == q[Least((k - 1) * BATCH_MAX, |q|) + n..];
    }
  }

  /** Each successful flush takes the oldest fifty: n queued events need exactly ceil(n / 50) of them. */
  lemma FlushesEmpty(q: seq<Raw>, k: nat)
    requires Distinct(q)
    ensures Flushed(q, k) == [] <==> (|q| + 49) / 50 <= k
  {
    FlushesTakeTheOldest(q, k);
  }

  // What a post may do: the server commits a prefix of the batch, and its answer may get lost.
  datatype Fortune = Fortune(committed: nat, answered: bool)

  class Server {
    var received: seq<Raw>

    constructor ()
      ensures received == []
    {
      received := [];
    }

    method Post(batch: seq<Raw>, luck: Fortune) returns (ok: bool)
      requires luck.committed <= |batch|
      modifies this
      ensures received == old(received) + batch[..luck.committed]
      ensures ok <==> luck.answered && luck.committed == |batch|
    {
      received := received + batch[..luck.committed];
      ok := luck.answered && luck.committed == |batch|;
    }
  }

  class Worker {
    var stored: seq<Raw>

    constructor ()
      ensures stored == []
    {
      stored := [];
    }

    method Add(e: Raw)
      requires |stored| <= 1000
      modifies this
      ensures |stored| <= 1000
      ensures old(|stored|) < 1000 ==> stored == old(stored) + [e]
      ensures old(|stored|) == 1000 ==> stored == old(stored)[1..] + [e]
    {
      var (queue, _) := Enqueue(stored, e);
      stored := queue;
    }

    /** A flush removes a batch exactly when every event of it is at the server; otherwise it keeps them all. */
    method FlushOnce(server: Server, luck: Fortune) returns (sent: nat, kept: nat)
      requires Distinct(stored) && luck.committed <= |DrainBatch(stored, BATCH_MAX)|
      modifies this, server
      ensures sent <= |old(stored)| && stored == old(stored)[sent..] && kept == |stored|
      ensures server.received == old(server.received) + old(stored)[..luck.committed]
      ensures sent <= luck.committed && (sent > 0 ==> sent == luck.committed == |DrainBatch(old(stored), BATCH_MAX)|)
      ensures luck == Fortune(|DrainBatch(old(stored), BATCH_MAX)|, true) ==> stored == Flushed(old(stored), 1)
    {
      var q := stored;
      if |q| == 0 {
        assert Flushed(q, 0) == [];
        return 0, 0;
      }
      var batch := DrainBatch(q, BATCH_MAX);
      var ids := IdsOf(batch);
      var ok := server.Post(batch, luck);
      assert batch[..luck.committed] == q[..luck.committed];
      if !ok {
        return 0, |q|;
      }
      var remaining := Ack(q, ids);
      AckDropsBatch(q, BATCH_MAX);
      assert Flushed(q, 0) == q;
      stored := remaining;
      return |batch|, |remaining|;
    }
  }
}
