/** The thumbnail chain of one media item: sources tried in order behind a double-checked disk cache. */
module Thumb {
  import opened Events

  type Image = string

  // The cache file name: it changes when the source file is replaced.
  type Key = string

  // What one source did: an error, nothing, or an image that may be empty.
  datatype Resolve = Error | Nothing | Image(data: Image)

  predicate Usable(r: Resolve) {
    r.Image? && r.data != ""
  }

  function ReadCache(cache: map<Key, Image>, key: Option<Key>): Option<Image> {
    if key.Some? && key.value in cache && cache[key.value] != "" then Some(cache[key.value]) else None
  }

  // ----- one call on its own -----

  class Chain {
    var cache: map<Key, Image>

    constructor ()
      ensures cache == map[]
    {
      cache := map[];
    }

    /** With nobody else around: the cached image if there is one, else the first usable one in source order,
        which is then cached. */
    method Get(key: Option<Key>, sources: seq<Resolve>, writable: bool) returns (r: Option<Image>)
      modifies this
      ensures ReadCache(old(cache), key).Some? ==> r == ReadCache(old(cache), key) && cache == old(cache)
      ensures ReadCache(old(cache), key).None? && r.None? ==>
        cache == old(cache) && forall s | s in sources :: !Usable(s)
      ensures ReadCache(old(cache), key).None? && r.Some? ==>
        && (exists i :: 0 <= i < |sources| && Usable(sources[i]) && r.value == sources[i].data
                        && forall j | 0 <= j < i :: !Usable(sources[j]))
        && cache == if key.Some? && writable then old(cache)[key.value := r.value] else old(cache)
    {
      if ReadCache(cache, key).Some? {
        return ReadCache(cache, key);
      }
      if ReadCache(cache, key).Some? {
        return ReadCache(cache, key);
      }
      var i := 0;
      while i < |sources|
        invariant i <= |sources| && forall j | 0 <= j < i :: !Usable(sources[j])
      {
        if Usable(sources[i]) {
          if key.Some? && writable {
            cache := cache[key.value := sources[i].data];
          }
          return Some(sources[i].data);
        }
        i := i + 1;
      }
      return None;
    }
  }

  // ----- many calls at once -----

  // Where a call is: before its first look, waiting for the lock, holding it, at a source, writing, back; and what
  // the sources it has asked so far did, one after the other.
  datatype Call =
    | Begun(key: Option<Key>)
    | Missed(key: Option<Key>)
    | Entered(key: Option<Key>)
    | Trying(key: Option<Key>, tried: seq<Resolve>)
    | Found(key: Option<Key>, data: Image, tried: seq<Resolve>)
    | Done(key: Option<Key>, result: Option<Image>, tried: seq<Resolve>)

  // The cache, the item's lock and the calls, and the history of each cache key: the images its sources
  // produced, in order, and how many of them could not be written.
  datatype World = World(sources: nat, cache: map<Key, Image>, holder: Option<int>, calls: map<int, Call>,
                         wins: map<Key, seq<Image>>, lost: map<Key, nat>)

  datatype Step = Begin(t: int, key: Option<Key>) | Look(t: int) | Enter(t: int) | Recheck(t: int)
                | Try(t: int, outcome: Resolve) | GiveUp(t: int) | Write(t: int, ok: bool)

  function Wins(w: World, k: Key): seq<Image> {
    if k in w.wins then w.wins[k] else []
  }

  function Lost(w: World, k: Key): nat {
    if k in w.lost then w.lost[k] else 0
  }

  predicate Enabled(w: World, step: Step) {
    match step
    case Begin(t, _) => t !in w.calls
    case Look(t) => t in w.calls && w.calls[t].Begun?
    case Enter(t) => t in w.calls && w.calls[t].Missed? && w.holder.None?
    case Recheck(t) => t in w.calls && w.calls[t].Entered?
    case Try(t, _) => t in w.calls && w.calls[t].Trying? && |w.calls[t].tried| < w.sources
    case GiveUp(t) => t in w.calls && w.calls[t].Trying? && |w.calls[t].tried| >= w.sources
    case Write(t, _) => t in w.calls && w.calls[t].Found?
  }

  function After(w: World, step: Step): World
    requires Enabled(w, step)
  {
    match step
    case Begin(t, key) => w.(calls := w.calls[t := Begun(key)])
    case Look(t) =>
      var key := w.calls[t].key;
      var hit := ReadCache(w.cache, key);
      w.(calls := w.calls[t := if hit.Some? then Done(key, hit, []) else Missed(key)])
    case Enter(t) => w.(holder := Some(t), calls := w.calls[t := Entered(w.calls[t].key)])
    case Recheck(t) =>
      var key := w.calls[t].key;
      var hit := ReadCache(w.cache, key);
      if hit.Some? then w.(holder := None, calls := w.calls[t := Done(key, hit, [])])
      else w.(calls := w.calls[t := Trying(key, [])])
    case Try(t, outcome) =>
      var key, tried := w.calls[t].key, w.calls[t].tried + [outcome];
      if Usable(outcome) then
        w.(calls := w.calls[t := Found(key, outcome.data, tried)],
           wins := if key.Some? then w.wins[key.value := Wins(w, key.value) + [outcome.data]] else w.wins)
      else w.(calls := w.calls[t := Trying(key, tried)])
    case GiveUp(t) => w.(holder := None, calls := w.calls[t := Done(w.calls[t].key, None, w.calls[t].tried)])
    case Write(t, ok) =>
      var key, data := w.calls[t].key, w.calls[t].data;
      w.(holder := None, calls := w.calls[t := Done(key, Some(data), w.calls[t].tried)],
         cache := if key.Some? && ok then w.cache[key.value := data] else w.cache,
         lost := if key.Some? && !ok then w.lost[key.value := Lost(w, key.value) + 1] else w.lost)
  }

  ghost predicate Schedule(worlds: seq<World>, steps: seq<Step>) {
    && |worlds| == |steps| + 1
    && worlds[0] == World(worlds[0].sources, map[], None, map[], map[], map[])
    && forall i | 0 <= i < |steps| :: Moves(worlds[i], steps[i], worlds[i + 1])
  }

  ghost predicate Moves(w: World, step: Step, w': World) {
    Enabled(w, step) && w' == After(w, step)
  }

  // ----- the invariant -----

  predicate Inside(c: Call) {
    c.Entered? || c.Trying? || c.Found?
  }

  // The lock is held by the one call that is inside.
  ghost predicate OneInside(w: World) {
    && (forall t | t in w.calls :: Inside(w.calls[t]) <==> w.holder == Some(t))
    && (w.holder.Some? ==> w.holder.value in w.calls)
  }

  // The call inside is about to write an image under this key.
  predicate Writing(w: World, k: Key) {
    && w.holder.Some? && w.holder.value in w.calls
    && w.calls[w.holder.value].Found? && w.calls[w.holder.value].key == Some(k)
  }

  function Count(b: bool): nat {
    if b then 1 else 0
  }

  // Every image produced for a key is in the cache, about to be written there, or could not be written.
  ghost predicate BalancedAt(w: World, k: Key) {
    |Wins(w, k)| == Lost(w, k) + Count(k in w.cache) + Count(Writing(w, k))
  }

  ghost predicate Balanced(w: World) {
    forall k :: BalancedAt(w, k)
  }

  ghost predicate CallGood(w: World, c: Call) {
    match c
    case Trying(key, _) => key.Some? ==> key.value !in w.cache
    case Found(key, data, _) =>
      key.Some? ==> key.value !in w.cache && data != "" && Wins(w, key.value) != []
                    && Wins(w, key.value)[|Wins(w, key.value)| - 1] == data
    case Done(key, result, _) => key.Some? && result.Some? ==> result.value in Wins(w, key.value)
    case _ => true
  }

  ghost predicate CallsGood(w: World) {
    forall t | t in w.calls :: CallGood(w, w.calls[t])
  }

  ghost predicate CacheGood(w: World) {
    forall k | k in w.cache :: w.cache[k] != "" && w.cache[k] in Wins(w, k)
  }

  ghost predicate Safe(w: World) {
    OneInside(w) && Balanced(w) && CallsGood(w) && CacheGood(w)
  }

  lemma MovesKeepOneInside(w: World, step: Step, w': World)
    requires OneInside(w) && Moves(w, step, w')
    ensures OneInside(w')
  {
  }

  lemma MoveKeepsBalance(w: World, step: Step, w': World, k: Key)
    requires OneInside(w) && BalancedAt(w, k) && Moves(w, step, w') && !step.Write?
    ensures BalancedAt(w', k)
  {
  }

  lemma WriteKeepsBalance(w: World, step: Step, w': World, k: Key)
    requires OneInside(w) && BalancedAt(w, k) && Moves(w, step, w') && step.Write? && CallGood(w, w.calls[step.t])
    ensures BalancedAt(w', k)
  {
  }

  lemma MovesKeepBalanced(w: World, step: Step, w': World)
    requires OneInside(w) && Balanced(w) && CallsGood(w) && Moves(w, step, w')
    ensures Balanced(w')
  {
    hide OneInside, CallGood, BalancedAt, After;
    forall k ensures BalancedAt(w', k) {
      if step.Write? {
        WriteKeepsBalance(w, step, w', k);
      } else {
        MoveKeepsBalance(w, step, w', k);
      }
    }
  }

  // The call that moves: a hit was produced once, a miss leaves the key uncached, a success is the last one.
  lemma LookerGood(w: World, step: Step, w': World)
    requires CacheGood(w) && Moves(w, step, w') && !step.Try? && !step.Write?
    ensures CallGood(w', w'.calls[step.t])
  {
  }

  lemma ProducerGood(w: World, step: Step, w': World)
    requires Moves(w, step, w') && (step.Try? || step.Write?) && CallGood(w, w.calls[step.t])
    ensures CallGood(w', w'.calls[step.t])
  {
  }

  // The calls that stand still: only the holder of the lock produces or caches anything.
  lemma OthersGood(w: World, step: Step, w': World, t: int)
    requires OneInside(w) && Moves(w, step, w') && t in w.calls && t != step.t && CallGood(w, w.calls[t])
    ensures CallGood(w', w'.calls[t])
  {
    if !step.Try? && !step.Write? {
      hide Usable, ReadCache, OneInside, Inside;
      assert w'.cache == w.cache && w'.wins == w.wins;
    }
  }

  lemma MovesKeepCalls(w: World, step: Step, w': World)
    requires OneInside(w) && CallsGood(w) && CacheGood(w) && Moves(w, step, w')
    ensures CallsGood(w')
  {
    assert forall t | t in w'.calls :: t in w.calls || (step.Begin? && t == step.t);
    assert step.Begin? || step.t in w.calls;
    hide OneInside, CallGood, CacheGood, After;
    if step.Try? || step.Write? {
      ProducerGood(w, step, w');
    } else {
      LookerGood(w, step, w');
    }
    forall t | t in w'.calls ensures CallGood(w', w'.calls[t]) {
      if t != step.t {
        OthersGood(w, step, w', t);
      }
    }
  }

  lemma MovesKeepCache(w: World, step: Step, w': World)
    requires CallsGood(w) && CacheGood(w) && Moves(w, step, w')
    ensures CacheGood(w')
  {
    if step.Write? {
      assert CallGood(w, w.calls[step.t]);
    }
    hide CallsGood;
  }

  lemma {:induction false} EveryWorldSafe(worlds: seq<World>, steps: seq<Step>, n: nat)
    requires Schedule(worlds, steps) && n < |worlds|
    ensures Safe(worlds[n])
  {
    if n > 0 {
      hide OneInside, Balanced, CallsGood, CacheGood, Moves;
      EveryWorldSafe(worlds, steps, n - 1);
      var w, step, w' := worlds[n - 1], steps[n - 1], worlds[n];
      assert Moves(w, step, w');
      MovesKeepOneInside(w, step, w');
      MovesKeepBalanced(w, step, w');
      MovesKeepCalls(w, step, w');
      MovesKeepCache(w, step, w');
    }
  }

  /** However the calls interleave: the sources produced an image for a key exactly once for each write that
      failed, plus once if it is cached or being cached now. */
  lemma SourcesRun(worlds: seq<World>, steps: seq<Step>, n: nat, k: Key)
    requires Schedule(worlds, steps) && n < |worlds|
    ensures var w := worlds[n]; |Wins(w, k)| == Lost(w, k) + Count(k in w.cache || Writing(w, k))
  {
    hide Moves;
    EveryWorldSafe(worlds, steps, n);
    var w := worlds[n];
    assert BalancedAt(w, k);
    if Writing(w, k) {
      var t := w.holder.value;
      assert t in w.calls && CallGood(w, w.calls[t]);
    }
  }

  /** Single flight: while writes succeed, the sources are run to success at most once for a key, and every
      call that returns an image for it returns that one. */
  lemma SingleFlight(worlds: seq<World>, steps: seq<Step>, n: nat, k: Key)
    requires Schedule(worlds, steps) && n < |worlds| && Lost(worlds[n], k) == 0
    ensures |Wins(worlds[n], k)| <= 1
    ensures forall t | t in worlds[n].calls && Returned(worlds[n].calls[t], k) ::
      Wins(worlds[n], k) == [worlds[n].calls[t].result.value]
  {
    hide Moves;
    SourcesRun(worlds, steps, n, k);
    EveryWorldSafe(worlds, steps, n);
    var w := worlds[n];
    forall t | t in w.calls && Returned(w.calls[t], k) ensures Wins(w, k) == [w.calls[t].result.value] {
      assert CallGood(w, w.calls[t]);
    }
  }

  predicate Returned(c: Call, k: Key) {
    c.Done? && c.key == Some(k) && c.result.Some?
  }

  /** Once cached, always cached: the file under a key never changes again and its sources never run again. */
  lemma CachedStays(w: World, step: Step, w': World, k: Key)
    requires Safe(w) && Moves(w, step, w') && k in w.cache
    ensures k in w'.cache && w'.cache[k] == w.cache[k] && Wins(w', k) == Wins(w, k)
  {
    match step
    case Try(t, _) => assert CallGood(w, w.calls[t]);
    case Write(t, _) => assert CallGood(w, w.calls[t]);
    case _ =>
  }

  // ----- in source order -----

  ghost predicate NoneUsable(tried: seq<Resolve>) {
    forall i | 0 <= i < |tried| :: !Usable(tried[i])
  }

  // The last source asked made the image, and none asked before it did.
  ghost predicate FirstUsable(tried: seq<Resolve>, data: Image) {
    && tried != [] && Usable(tried[|tried| - 1]) && tried[|tried| - 1].data == data
    && NoneUsable(tried[..|tried| - 1])
  }

  // What a call has of the sources it asked, which it asks in their order.
  ghost predicate InOrder(c: Call, sources: nat) {
    match c
    case Trying(_, tried) => |tried| <= sources && NoneUsable(tried)
    case Found(_, data, tried) => |tried| <= sources && FirstUsable(tried, data)
    case Done(key, result, tried) =>
      if result.None? then |tried| == sources && NoneUsable(tried)
      else (tried == [] && key.Some?) || (|tried| <= sources && FirstUsable(tried, result.value))
    case _ => true
  }

  lemma MovesKeepOrder(w: World, step: Step, w': World, t: int)
    requires Moves(w, step, w') && t in w'.calls && (t in w.calls ==> InOrder(w.calls[t], w.sources))
    ensures w'.sources == w.sources && InOrder(w'.calls[t], w'.sources)
  {
    if step.Try? && t == step.t {
      var tried := w.calls[t].tried + [step.outcome];
      assert tried[..|tried| - 1] == w.calls[t].tried;
    }
  }

  /** However the calls interleave: a call that asked the sources returns what the first of them, in their order, that
      makes an image makes, and nothing exactly when it has asked them all and none does; a call that asked none
      returns a cached image. */
  lemma {:induction false} FirstInOrder(worlds: seq<World>, steps: seq<Step>, n: nat, t: int)
    requires Schedule(worlds, steps) && n < |worlds| && t in worlds[n].calls
    ensures worlds[n].sources == worlds[0].sources && InOrder(worlds[n].calls[t], worlds[n].sources)
    decreases n
  {
    hide Moves, InOrder;
    assert n > 0;
    if t in worlds[n - 1].calls {
      FirstInOrder(worlds, steps, n - 1, t);
    } else {
      SameSources(worlds, steps, n - 1);
    }
    assert Moves(worlds[n - 1], steps[n - 1], worlds[n]);
    MovesKeepOrder(worlds[n - 1], steps[n - 1], worlds[n], t);
  }

  lemma {:induction false} SameSources(worlds: seq<World>, steps: seq<Step>, n: nat)
    requires Schedule(worlds, steps) && n < |worlds|
    ensures worlds[n].sources == worlds[0].sources
  {
    if n > 0 {
      SameSources(worlds, steps, n - 1);
      assert Moves(worlds[n - 1], steps[n - 1], worlds[n]);
    }
  }

  // ----- what a step does to the calls -----

  /** A step moves one call and no other, and a call keeps the key it began with. */
  lemma OneCallMoves(w: World, step: Step, w': World, t: int)
    requires Moves(w, step, w') && t in w'.calls
    ensures t in w.calls || (step.Begin? && step.t == t && w'.calls[t] == Begun(step.key))
    ensures t in w.calls && t != step.t ==> w'.calls[t] == w.calls[t]
    ensures t in w.calls ==> w'.calls[t].key == w.calls[t].key
  {
    hide Usable, ReadCache;
  }

  /** A look at the cache, with or without the lock, ends the call with the image that is there, and the sources are
      only asked when there is none; a call that ends lets go of the lock. */
  lemma LookEnds(w: World, step: Step, w': World, t: int, k: Key)
    requires Safe(w) && Moves(w, step, w') && step.t == t && t in w.calls && w.calls[t].key == Some(k)
    ensures k in w.cache && (step.Look? || step.Recheck?) ==> w'.calls[t] == Done(Some(k), Some(w.cache[k]), [])
    ensures k !in w.cache && step.Look? ==> w'.calls[t] == Missed(Some(k))
    ensures k !in w.cache && step.Recheck? ==> w'.calls[t] == Trying(Some(k), [])
    ensures w'.calls[t].Done? ==> w'.holder != Some(t)
  {
    hide Balanced, CallsGood;
  }

  /** Whoever holds the lock can go on, and nobody is kept out of it when it is free. */
  lemma NobodyIsStuck(w: World, t: int)
    requires Safe(w) && t in w.calls && !w.calls[t].Done?
    ensures w.holder == Some(t) || w.calls[t].Begun? || (w.holder.None? && w.calls[t].Missed?) ==>
      exists step: Step :: step.t == t && !step.Begin? && Enabled(w, step)
    ensures w.calls[t].Missed? && w.holder.Some? ==> w.holder.value in w.calls && Inside(w.calls[w.holder.value])
  {
    hide Balanced, CallsGood, CacheGood;
    var c := w.calls[t];
    if w.holder.Some? {
      var h := w.holder.value;
      assert h in w.calls && (Inside(w.calls[h]) <==> w.holder == Some(h));
    }
    assert c.Begun? ==> Enabled(w, Look(t));
    assert c.Missed? && w.holder.None? ==> Enabled(w, Enter(t));
    assert c.Entered? ==> Enabled(w, Recheck(t));
    assert c.Trying? ==> Enabled(w, Try(t, Nothing)) || Enabled(w, GiveUp(t));
    assert c.Found? ==> Enabled(w, Write(t, true));
  }
}
