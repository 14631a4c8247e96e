/** Media ids are minted per run; the reconstruction depends on them only as names. */
module Renaming {
  import opened Sorting
  import opened Events
  import opened Folding
  import opened Partition
  import opened Rebuild
  import opened Tables
  import opened Guarantees
  import opened Items
  import opened Runs

  // Two databases with the same log, in which each item is as visible and as long as its counterpart.
  ghost predicate Alike(db: Db, db': Db) {
    && db.Schema() && db'.Schema() && WireLog(db) == WireLog(db')
    && (forall m, n | m in db.media && n in db'.media && db.media[m].identity == db'.media[n].identity ::
          (db.Live(m) <==> db'.Live(n)) && db.media[m].duration == db'.media[n].duration)
  }

  // The id of the item with the same identity.
  ghost function Twin(db: Db, db': Db, m: string): string {
    if m in db.media && db'.MediaFor(db.media[m].identity).Some? then db'.MediaFor(db.media[m].identity).value else m
  }

  ghost function Renamed(db: Db, db': Db, e: Event): Event {
    e.(media := Twin(db, db', e.media))
  }

  ghost function RenamedAll(db: Db, db': Db, g: seq<Event>): seq<Event> {
    seq(|g|, i requires 0 <= i < |g| => Renamed(db, db', g[i]))
  }

  ghost function RenamedOutput(db: Db, db': Db, rb: Rebuilt): Rebuilt {
    rb.(session := rb.session.(media := Twin(db, db', rb.session.media)))
  }

  lemma TwinOf(db: Db, db': Db, m: string, n: string)
    requires db'.Schema() && m in db.media && n in db'.media && db.media[m].identity == db'.media[n].identity
    ensures Twin(db, db', m) == n
  {
  }

  // Every logged event has its counterpart in the other log, under the same id.
  lemma EventTwin(db: Db, db': Db, id: string)
    requires db.Schema() && db'.Schema() && WireLog(db) == WireLog(db') && id in db.events
    ensures id in db'.events && db'.events[id].event == Renamed(db, db', db.events[id].event)
    ensures var m, n := db.events[id].event.media, db'.events[id].event.media;
      m in db.media && n in db'.media && db.media[m].identity == db'.media[n].identity
  {
    assert WireAt(db, id) in WireLog(db');
    var other :| other in db'.events && WireAt(db', other) == WireAt(db, id);
    assert other == id;
    TwinOf(db, db', db.events[id].event.media, db'.events[id].event.media);
  }

  lemma VisibleTwins(db: Db, db': Db)
    requires Alike(db, db')
    ensures db'.LiveLog() == set e | e in db.LiveLog() :: Renamed(db, db', e)
  {
    forall id | id in db.events
      ensures id in db'.events && db'.events[id].event == Renamed(db, db', db.events[id].event)
      ensures db.Live(db.events[id].event.media) <==> db'.Live(db'.events[id].event.media)
    {
      EventTwin(db, db', id);
    }
    forall id | id in db'.events ensures id in db.events {
      EventTwin(db', db, id);
    }
    hide Db.Schema, WireLog, Renamed;
  }

  // Items with logged events are told apart by their counterparts.
  lemma TwinsDistinct(db: Db, db': Db, e: Event, f: Event)
    requires Alike(db, db') && e in db.LiveLog() && f in db.LiveLog()
    ensures Renamed(db, db', e).KeyOf() == Renamed(db, db', f).KeyOf() <==> e.KeyOf() == f.KeyOf()
  {
    assert e.id in db.events && db.events[e.id].event == e && f.id in db.events && db.events[f.id].event == f;
    EventTwin(db, db', e.id);
    EventTwin(db, db', f.id);
    hide WireLog;
  }

  lemma RenamedSession(db: Db, db': Db, g: seq<Event>, gap: int)
    requires IsSession(g, gap)
    ensures IsSession(RenamedAll(db, db', g), gap)
  {
    var h := RenamedAll(db, db', g);
    forall i, j | 0 <= i < j < |h| ensures Before(h[i], h[j]) {
      assert Before(g[i], g[j]);
    }
    forall e | e in h ensures e.KeyOf() == h[0].KeyOf() {
      var i :| 0 <= i < |h| && h[i] == e;
      assert g[i] in g;
    }
    forall i | 0 < i < |h| ensures !OpensNewSession(h[i - 1].at, h[i].at, gap) {
      assert !OpensNewSession(g[i - 1].at, g[i].at, gap);
    }
  }

  lemma RenamedElems(db: Db, db': Db, g: seq<Event>)
    ensures Elems(RenamedAll(db, db', g)) == set e | e in g :: Renamed(db, db', e)
  {
    var h := RenamedAll(db, db', g);
    forall e | e in g ensures Renamed(db, db', e) in h {
      var i :| 0 <= i < |g| && g[i] == e;
      assert h[i] == Renamed(db, db', e);
    }
    forall e | e in h ensures e in set x | x in g :: Renamed(db, db', x) {
      var i :| 0 <= i < |h| && h[i] == e;
      assert g[i] in g;
    }
  }

  ghost function RenamedPieces(db: Db, db': Db, P: set<seq<Event>>): set<seq<Event>> {
    set g | g in P :: RenamedAll(db, db', g)
  }

  lemma RenamedApart(db: Db, db': Db, g: seq<Event>, h: seq<Event>, gap: int)
    requires Alike(db, db') && Elems(g) <= db.LiveLog() && Elems(h) <= db.LiveLog() && ApartSessions(g, h, gap)
    ensures ApartSessions(RenamedAll(db, db', g), RenamedAll(db, db', h), gap)
  {
    hide Alike, Db.LiveLog, Renamed;
    var g', h' := RenamedAll(db, db', g), RenamedAll(db, db', h);
    forall a, b | a in g' && b in h' && a.KeyOf() == b.KeyOf() ensures Apart(a, b, gap) {
      var i :| 0 <= i < |g'| && g'[i] == a;
      var j :| 0 <= j < |h'| && h'[j] == b;
      assert g[i] in Elems(g) && h[j] in Elems(h);
      TwinsDistinct(db, db', g[i], h[j]);
      assert Apart(g[i], h[j], gap);
      RenamedTime(db, db', g[i]);
      RenamedTime(db, db', h[j]);
    }
  }

  lemma RenamedTime(db: Db, db': Db, e: Event)
    ensures Renamed(db, db', e).at == e.at
  {
  }

  lemma RenamedPartition(db: Db, db': Db, P: set<seq<Event>>, gap: int)
    requires Alike(db, db') && IsGapPartition(P, db.LiveLog(), gap)
    ensures IsGapPartition(RenamedPieces(db, db', P), db'.LiveLog(), gap)
  {
    VisibleTwins(db, db');
    hide Alike, Db.LiveLog, Renamed, RenamedAll, ApartSessions, IsSession;
    forall h | h in RenamedPieces(db, db', P) ensures IsSession(h, gap) && Elems(h) <= db'.LiveLog() {
      var g :| g in P && h == RenamedAll(db, db', g);
      RenamedSession(db, db', g, gap);
      RenamedElems(db, db', g);
      assert forall e | e in g :: e in Elems(g);
    }
    forall e | e in db'.LiveLog() ensures exists h :: h in RenamedPieces(db, db', P) && e in h {
      var x :| x in db.LiveLog() && e == Renamed(db, db', x);
      var g :| g in P && x in g;
      RenamedElems(db, db', g);
      assert e in Elems(RenamedAll(db, db', g));
    }
    forall g', h' | g' in RenamedPieces(db, db', P) && h' in RenamedPieces(db, db', P) && g' != h'
      ensures ApartSessions(g', h', gap)
    {
      var g :| g in P && g' == RenamedAll(db, db', g);
      var h :| h in P && h' == RenamedAll(db, db', h);
      RenamedApart(db, db', g, h, gap);
    }
  }

  // Nothing a session row shows depends on the media id.
  lemma {:induction false} RenamedWatched(db: Db, db': Db, g: seq<Event>, maxGap: int)
    ensures Watched(RenamedAll(db, db', g), maxGap) == Watched(g, maxGap)
  {
    if |g| >= 2 {
      var n := |g| - 1;
      RenamedWatched(db, db', g[..n], maxGap);
      assert RenamedAll(db, db', g)[..n] == RenamedAll(db, db', g[..n]);
    }
  }

  lemma {:induction false} RenamedFurthest(db: Db, db': Db, g: seq<Event>)
    ensures MaxPosition(RenamedAll(db, db', g)) == MaxPosition(g)
  {
    if g != [] {
      var n := |g| - 1;
      RenamedFurthest(db, db', g[..n]);
      assert RenamedAll(db, db', g)[..n] == RenamedAll(db, db', g[..n]);
    }
  }

  lemma RenamedFold(db: Db, db': Db, g: seq<Event>, cfg: Config)
    requires Alike(db, db') && IsSession(g, cfg.gap) && Elems(g) <= db.LiveLog()
    ensures FoldGroup(RenamedAll(db, db', g), db'.Durations(), cfg) ==
      RenamedOutput(db, db', FoldGroup(g, db.Durations(), cfg))
  {
    var h := RenamedAll(db, db', g);
    RenamedSession(db, db', g, cfg.gap);
    RenamedWatched(db, db', g, 2 * cfg.cadence);
    RenamedFurthest(db, db', g);
    GroupStart(g, db.Durations(), cfg);
    GroupStart(h, db'.Durations(), cfg);
    assert g[0] in Elems(g);
    SameLength(db, db', g[0]);
    assert Ids(h) == Ids(g);
    hide Alike, Db.LiveLog, IsSession, Watched, MaxPosition, FoldOf, Twin, Db.Durations;
  }

  lemma SameLength(db: Db, db': Db, e: Event)
    requires Alike(db, db') && e in db.LiveLog()
    ensures DurationOf(db'.Durations(), Twin(db, db', e.media)) == DurationOf(db.Durations(), e.media)
  {
    assert e.id in db.events && db.events[e.id].event == e;
    EventTwin(db, db', e.id);
    hide WireLog;
  }

  /** Two databases that are alike reconstruct to the same sessions, up to the ids of their items. */
  lemma AlikeReconstructions(db: Db, db': Db, cfg: Config, out: seq<Rebuilt>, groups: seq<seq<Event>>,
                             out': seq<Rebuilt>, groups': seq<seq<Event>>)
    requires Alike(db, db') && cfg.gap >= 0
    requires Reconstructs(out, groups, db.LiveLog(), db.Durations(), cfg)
    requires Reconstructs(out', groups', db'.LiveLog(), db'.Durations(), cfg)
    ensures Elems(out') == set rb | rb in out :: RenamedOutput(db, db', rb)
  {
    RenamedPartition(db, db', Elems(groups), cfg.gap);
    PartitionUnique(RenamedPieces(db, db', Elems(groups)), Elems(groups'), db'.LiveLog(), cfg.gap);
    forall g | g in groups
      ensures FoldGroup(RenamedAll(db, db', g), db'.Durations(), cfg) ==
        RenamedOutput(db, db', FoldGroup(g, db.Durations(), cfg))
    {
      assert g in Elems(groups);
      RenamedFold(db, db', g, cfg);
    }
    hide Alike, Db.LiveLog, Sorted, FoldGroup, RenamedOutput, RenamedAll, Db.Durations, IsGapPartition;
    FoldElems(out, groups, db.Durations(), cfg);
    FoldElems(out', groups', db'.Durations(), cfg);
    assert forall h :: h in groups' <==> h in Elems(groups');
    assert forall g :: g in groups <==> g in Elems(groups);
    OutputsMatch(db, db', cfg, out, groups, out', groups');
  }

  lemma FoldElems(out: seq<Rebuilt>, groups: seq<seq<Event>>, durations: Durations, cfg: Config)
    requires out == FoldAll(groups, durations, cfg)
    ensures forall rb :: rb in out <==> exists g :: g in groups && rb == FoldGroup(g, durations, cfg)
  {
    hide FoldGroup;
    forall g | g in groups ensures FoldGroup(g, durations, cfg) in out {
      var i: nat :| i < |groups| && groups[i] == g;
      assert out[i] == FoldGroup(g, durations, cfg);
    }
    forall rb | rb in out ensures exists g :: g in groups && rb == FoldGroup(g, durations, cfg) {
      var i: nat :| i < |out| && out[i] == rb;
      assert groups[i] in groups;
    }
  }

  lemma OutputsMatch(db: Db, db': Db, cfg: Config, out: seq<Rebuilt>, groups: seq<seq<Event>>,
                     out': seq<Rebuilt>, groups': seq<seq<Event>>)
    requires forall rb :: rb in out <==> exists g :: g in groups && rb == FoldGroup(g, db.Durations(), cfg)
    requires forall rb :: rb in out' <==> exists g :: g in groups' && rb == FoldGroup(g, db'.Durations(), cfg)
    requires forall h :: h in groups' <==> h in RenamedPieces(db, db', Elems(groups))
    requires forall g | g in groups ::
      FoldGroup(RenamedAll(db, db', g), db'.Durations(), cfg) ==
        RenamedOutput(db, db', FoldGroup(g, db.Durations(), cfg))
    ensures Elems(out') == set rb | rb in out :: RenamedOutput(db, db', rb)
  {
    hide FoldGroup, RenamedOutput, RenamedAll, Db.Durations;
    forall r | r in out' ensures r in set rb | rb in out :: RenamedOutput(db, db', rb) {
      var h :| h in groups' && r == FoldGroup(h, db'.Durations(), cfg);
      var g :| g in Elems(groups) && h == RenamedAll(db, db', g);
      assert FoldGroup(g, db.Durations(), cfg) in out;
    }
    forall rb | rb in out ensures RenamedOutput(db, db', rb) in out' {
      var g :| g in groups && rb == FoldGroup(g, db.Durations(), cfg);
      assert g in Elems(groups);
      assert RenamedAll(db, db', g) in groups';
    }
  }

  // ----- the same sessions -----

  /** Exactly once, to the end: two runs in which the same events were delivered, however often, in whatever batches
      and order, none of them giving an item two durations, and which end with the same items visible, reconstruct
      to the same sessions. */
  lemma SameDeliveriesSameSessions(states: seq<Db>, steps: seq<Step>, states': seq<Db>, steps': seq<Step>, cfg: Config,
                                   out: seq<Rebuilt>, groups: seq<seq<Event>>, out': seq<Rebuilt>,
                                   groups': seq<seq<Event>>)
    requires Run(states, steps, cfg) && Run(states', steps', cfg) && cfg.gap >= 0 &&
      Delivered(steps) == Delivered(steps')
    requires KnownDurations(steps) == KnownDurations(steps') && OnePerIdentity(KnownDurations(steps))
    requires SameVisible(states[|steps|], states'[|steps'|])
    requires Reconstructs(out, groups, states[|steps|].LiveLog(), states[|steps|].Durations(), cfg)
    requires Reconstructs(out', groups', states'[|steps'|].LiveLog(), states'[|steps'|].Durations(), cfg)
    ensures Elems(out') == set rb | rb in out :: RenamedOutput(states[|steps|], states'[|steps'|], rb)
  {
    hide Next, Reconstructs, RenamedOutput, Db.LiveLog, Db.Durations, WireLog, KnownDurations, OnePerIdentity;
    SameDeliveriesSameLog(states, steps, states', steps', cfg);
    SameDeliveriesSameLengths(states, steps, states', steps', cfg);
    AlikeReconstructions(states[|steps|], states'[|steps'|], cfg, out, groups, out', groups');
  }

  /** So nothing but the events delivered, and the durations they bring, decides what is reconstructed as long as
      nothing is deleted. */
  lemma SameUndeletedSameSessions(states: seq<Db>, steps: seq<Step>, states': seq<Db>, steps': seq<Step>, cfg: Config,
                                  out: seq<Rebuilt>, groups: seq<seq<Event>>, out': seq<Rebuilt>,
                                  groups': seq<seq<Event>>)
    requires Run(states, steps, cfg) && Run(states', steps', cfg) && cfg.gap >= 0 &&
      Delivered(steps) == Delivered(steps')
    requires KnownDurations(steps) == KnownDurations(steps') && OnePerIdentity(KnownDurations(steps))
    requires (forall i | 0 <= i < |steps| :: !steps[i].Delete?) && forall i | 0 <= i < |steps'| :: !steps'[i].Delete?
    requires Reconstructs(out, groups, states[|steps|].LiveLog(), states[|steps|].Durations(), cfg)
    requires Reconstructs(out', groups', states'[|steps'|].LiveLog(), states'[|steps'|].Durations(), cfg)
    ensures Elems(out') == set rb | rb in out :: RenamedOutput(states[|steps|], states'[|steps'|], rb)
  {
    UndeletedVisible(states, steps, cfg, |steps|);
    UndeletedVisible(states', steps', cfg, |steps'|);
    hide Next, Reconstructs, RenamedOutput, Db.LiveLog, Db.Durations, KnownDurations, OnePerIdentity;
    SameDeliveriesSameSessions(states, steps, states', steps', cfg, out, groups, out', groups');
  }
}
