/** A rebuild heals any state: whatever rows and links were stored, they come out in step with the log. */
module Healing {
  import opened Sorting
  import opened Stamps
  import opened Events
  import opened Folding
  import opened Partition
  import opened Rebuild
  import opened Drift
  import opened Tables
  import opened Sessionize
  import opened Invariants
  import opened Live
  import opened Refinement
  import opened Apply

  // Visible events all name the instance they came from.
  ghost predicate Named(db: Db) {
    forall e | e in db.LiveLog() :: e.instance != ""
  }

  lemma ReplacedRows(db: Db, out: seq<Rebuilt>, groups: seq<seq<Event>>, cfg: Config, mint: IdSource, now: Time,
                     db': Db)
    requires db.Schema() && cfg.gap >= 0 && Apply.Unrepeated(mint) && RebuildsTo(db, out, groups, cfg, mint, now, db')
    ensures forall s :: s in db'.sessions <==> exists i: nat :: i < |groups| && s == mint(i)
    ensures forall i: nat | i < |groups| :: RowHolds(db'.sessions[mint(i)], groups[i], now, db.Durations(), cfg)
    ensures forall i: nat | i < |groups| ::
      groups[i] != [] && Elems(groups[i]) <= db.LiveLog() && IsSession(groups[i], cfg.gap)
  {
    RebuildAccepted(db, out, groups, cfg, mint, now);
    hide FoldOf, IsGapPartition, IsSession, FoldGroup, Sorted, WriteOf, Ids, InsertedRows, Db.Schema, Db.LiveLog,
      WritesOf, FoldAll;
    var writes := WritesOf(out, mint, now);
    InsertedRowsMeaning(writes);
    assert |writes| == |groups| by { GroupsDistinct(db, out, groups, cfg); WritesSize(out, mint, now); }
    forall i: nat | i < |groups|
      ensures mint(i) in db'.sessions && RowHolds(db'.sessions[mint(i)], groups[i], now, db.Durations(), cfg)
      ensures writes[i].session.id == mint(i)
      ensures groups[i] != [] && Elems(groups[i]) <= db.LiveLog() && IsSession(groups[i], cfg.gap)
    {
      GroupFacts(db, out, groups, cfg, i);
      WriteAt(groups, db.Durations(), cfg, mint, now, i);
      InsertedRow(writes, i);
    }
    forall s | s in db'.sessions ensures exists i: nat :: i < |groups| && s == mint(i) {
      var a :| 0 <= a < |writes| && WrittenAs(writes[a], s, InsertedRows(writes)[s]);
      assert s == mint(a);
    }
  }

  lemma WritesSize(out: seq<Rebuilt>, mint: IdSource, now: Time)
    ensures |WritesOf(out, mint, now)| == |out|
  {
  }

  lemma ReplacedLinks(db: Db, out: seq<Rebuilt>, groups: seq<seq<Event>>, cfg: Config, mint: IdSource, now: Time,
                      db': Db)
    requires db.Schema() && cfg.gap >= 0 && Apply.Unrepeated(mint) && RebuildsTo(db, out, groups, cfg, mint, now, db')
    ensures db'.media == db.media && db'.events.Keys == db.events.Keys
    ensures forall id | id in db.events ::
      db'.events[id].event == db.events[id].event && LinkHolds(db'.events[id], groups, mint)
  {
    RebuildAccepted(db, out, groups, cfg, mint, now);
    RebuildLinks(db, out, groups, cfg, mint, now);
    hide LinkHolds, IsGapPartition, FoldAll, WritesOf, InsertedRows, Db.Schema, Db.LiveLog, Owner;
  }

  // A group of the reconstruction, its row and its links, after a rebuild.
  ghost predicate Healed(db': Db, g: seq<Event>, s: string, cfg: Config) {
    && s in db'.sessions && db'.Linked(s) == Elems(g) && IsSession(g, cfg.gap)
    && g[0].media in db'.media && db'.Live(g[0].media)
    && db'.sessions[s].media == g[0].media
    && db'.sessions[s].instance == NullStr(g[0].instance)
    && db'.sessions[s].agg == FoldSorted(g, db'.Duration(g[0].media), cfg)
    && db'.sessions[s].deleted == None
  }

  lemma RowHealed(row: SessionRow, g: seq<Event>, now: Time, durations: Durations, cfg: Config)
    requires RowHolds(row, g, now, durations, cfg) && IsSession(g, cfg.gap)
    ensures row.media == g[0].media && row.instance == NullStr(g[0].instance) && row.deleted == None
    ensures row.agg == FoldSorted(g, DurationOf(durations, g[0].media), cfg)
  {
    GroupStart(g, durations, cfg);
    hide FoldSorted, FoldOf;
  }

  lemma HealedAt(db: Db, db': Db, groups: seq<seq<Event>>, mint: IdSource, now: Time, cfg: Config, i: nat)
    requires db.Schema() && Apply.Unrepeated(mint) && i < |groups| && GroupsSeparate(groups)
    requires db'.media == db.media && db'.events.Keys == db.events.Keys
    requires forall id | id in db.events ::
      db'.events[id].event == db.events[id].event && LinkHolds(db'.events[id], groups, mint)
    requires mint(i) in db'.sessions && RowHolds(db'.sessions[mint(i)], groups[i], now, db.Durations(), cfg)
    requires Elems(groups[i]) <= db.LiveLog() && IsSession(groups[i], cfg.gap)
    ensures Healed(db', groups[i], mint(i), cfg)
  {
    var g := groups[i];
    SessionHasFirst(g, cfg.gap);
    assert db.LiveLog() <= db.Log();
    assert g[0].media in db.media && db.Live(g[0].media);
    hide LinkHolds, IsSession, RowHolds, Db.Linked, FoldSorted, Db.LiveLog, Db.Log, GroupsSeparate, Apply.Unrepeated;
    RowHealed(db'.sessions[mint(i)], g, now, db.Durations(), cfg);
    SeparateAt(groups, i);
    LinkedIsGroup(db, db', groups, mint, i);
  }

  lemma SeparateAt(groups: seq<seq<Event>>, i: nat)
    requires GroupsSeparate(groups) && i < |groups|
    ensures forall j: nat, e | j < |groups| && e in groups[j] && e in groups[i] :: i == j
  {
  }

  /** After a rebuild there is one row per group of the reconstruction, and it is healed. */
  lemma RebuildHeals(db: Db, out: seq<Rebuilt>, groups: seq<seq<Event>>, cfg: Config, mint: IdSource, now: Time,
                     db': Db)
    requires db.Schema() && cfg.gap >= 0 && Apply.Unrepeated(mint) && RebuildsTo(db, out, groups, cfg, mint, now, db')
    ensures forall s :: s in db'.sessions <==> exists i: nat :: i < |groups| && s == mint(i)
    ensures forall i: nat | i < |groups| :: Healed(db', groups[i], mint(i), cfg)
  {
    ReplacedRows(db, out, groups, cfg, mint, now, db');
    ReplacedLinks(db, out, groups, cfg, mint, now, db');
    SeparateGroups(db, out, groups, cfg, mint, now, db');
    hide LinkHolds, IsSession, RowHolds, RebuildsTo, Apply.Unrepeated, FoldSorted, Db.Schema, Db.LiveLog,
      GroupsSeparate, Healed;
    forall i: nat | i < |groups| ensures Healed(db', groups[i], mint(i), cfg) {
      HealedAt(db, db', groups, mint, now, cfg, i);
    }
  }

  lemma SessionHasFirst(g: seq<Event>, gap: int)
    requires IsSession(g, gap)
    ensures g != [] && g[0] in Elems(g)
  {
  }

  ghost predicate GroupsSeparate(groups: seq<seq<Event>>) {
    forall i: nat, j: nat, e | i < |groups| && j < |groups| && e in groups[j] && e in groups[i] :: i == j
  }

  lemma SeparateGroups(db: Db, out: seq<Rebuilt>, groups: seq<seq<Event>>, cfg: Config, mint: IdSource, now: Time,
                       db': Db)
    requires db.Schema() && cfg.gap >= 0 && RebuildsTo(db, out, groups, cfg, mint, now, db')
    ensures GroupsSeparate(groups)
  {
    GroupsDistinct(db, out, groups, cfg);
    hide Db.Schema, Db.LiveLog, Db.ReplaceAll, FoldAll, Sorted;
    forall i: nat, j: nat, e | i < |groups| && j < |groups| && e in groups[j] && e in groups[i] ensures i == j {
      assert groups[i] in Elems(groups) && groups[j] in Elems(groups);
      OneSessionPerEvent(Elems(groups), db.LiveLog(), cfg.gap, groups[i], groups[j], e);
    }
  }

  // ----- from healed rows to tables in step -----

  /** What a rebuild leaves behind, whatever was there before. */
  ghost predicate Replayed(db': Db, groups: seq<seq<Event>>, mint: IdSource, cfg: Config) {
    && db'.Schema() && Apply.Unrepeated(mint)
    && (forall s :: s in db'.sessions <==> exists i: nat :: i < |groups| && s == mint(i))
    && (forall i: nat | i < |groups| :: Healed(db', groups[i], mint(i), cfg))
    && (forall id | id in db'.events :: LinkHolds(db'.events[id], groups, mint))
    && NoRepeats(groups) && IsGapPartition(Elems(groups), db'.LiveLog(), cfg.gap)
  }

  lemma RebuildIsRebuilt(db: Db, out: seq<Rebuilt>, groups: seq<seq<Event>>, cfg: Config, mint: IdSource, now: Time,
                         db': Db)
    requires db.Schema() && cfg.gap >= 0 && Apply.Unrepeated(mint) && RebuildsTo(db, out, groups, cfg, mint, now, db')
    ensures Replayed(db', groups, mint, cfg)
    ensures db'.media == db.media && db'.Log() == db.Log() && db'.LiveLog() == db.LiveLog()
  {
    hide LinkHolds, IsGapPartition, Db.LiveLog, Db.Log, Db.ReplaceAll, FoldAll, Sorted, Apply.Unrepeated, FoldSorted,
      IsSession, Db.Linked, Db.Schema, Healed, NoRepeats, WritesOf, Db.Durations;
    RebuildHeals(db, out, groups, cfg, mint, now, db');
    ReplacedLinks(db, out, groups, cfg, mint, now, db');
    GroupsDistinct(db, out, groups, cfg);
    SameLogs(db, db');
    RebuiltSchema(db, db', groups, mint, cfg);
  }

  lemma SameLogs(db: Db, db': Db)
    requires db'.media == db.media && db'.events.Keys == db.events.Keys
    requires forall id | id in db.events :: db'.events[id].event == db.events[id].event
    ensures db'.Log() == db.Log() && db'.LiveLog() == db.LiveLog()
  {
    forall x ensures (x in db'.Log() <==> x in db.Log()) && (x in db'.LiveLog() <==> x in db.LiveLog()) {
      if id :| id in db.events && db.events[id].event == x {
        assert db'.events[id].event == x;
      }
      if id :| id in db.events && db.Live(db.events[id].event.media) && db.events[id].event == x {
        assert db'.events[id].event == x;
      }
    }
  }

  lemma RebuiltSchema(db: Db, db': Db, groups: seq<seq<Event>>, mint: IdSource, cfg: Config)
    requires db.Schema() && db'.media == db.media && db'.events.Keys == db.events.Keys
    requires forall id | id in db.events :: db'.events[id].event == db.events[id].event
    requires forall s :: s in db'.sessions <==> exists i: nat :: i < |groups| && s == mint(i)
    requires forall i: nat | i < |groups| :: Healed(db', groups[i], mint(i), cfg)
    ensures db'.Schema()
  {
    hide Db.Linked, FoldSorted, IsSession;
    forall s | s in db'.sessions ensures db'.sessions[s].media in db'.media {
      var i: nat :| i < |groups| && s == mint(i);
      assert Healed(db', groups[i], mint(i), cfg);
    }
  }

  lemma NamedKey(db': Db, g: seq<Event>, s: string, cfg: Config)
    requires Healed(db', g, s, cfg) && db'.Schema()
    ensures g != [] && (db'.sessions[s].instance.Some? <==> g[0].instance != "")
    ensures g[0].instance != "" ==> forall e | e in g :: db'.OnKey(s, e.KeyOf())
    ensures forall e | e in g :: e.at <= db'.sessions[s].agg.ended
    ensures db'.sessions[s].agg.ended == g[|g| - 1].at
    ensures db'.sessions[s].agg.completed ==
      Completes(db'.sessions[s].agg.maxPos, db'.Duration(db'.sessions[s].media), cfg)
  {
    hide Db.Linked, Db.Schema, Completes, MaxPosition, Watched, RoundSeconds, StrLess;
    forall e | e in g ensures e.at <= g[|g| - 1].at {
      var i :| 0 <= i < |g| && g[i] == e;
      assert i < |g| - 1 ==> Before(g[i], g[|g| - 1]);
    }
  }

  lemma HealedFolds(db': Db, g: seq<Event>, s: string, cfg: Config)
    requires db'.Schema() && Healed(db', g, s, cfg)
    ensures Folds(db', s, cfg)
  {
    LinkedIds(db', s);
    ArrangeUnique(g, Elems(g));
    NoElems(g);
    hide Completes, MaxPosition, Watched, RoundSeconds, StrLess, Db.Schema, Db.Linked, Before;
  }

  lemma SessionTight(g: seq<Event>, gap: int, i: nat)
    requires IsSession(g, gap) && i < |g|
    ensures LastOf(Elems(g), g[i]) || HasNext(Elems(g), g[i], gap)
    decreases |g| - i
  {
    hide StrLess;
    if i == |g| - 1 {
      forall y | y in Elems(g) ensures y.at <= g[i].at {
        var j :| 0 <= j < |g| && g[j] == y;
        assert j < i ==> Before(g[j], g[i]);
      }
    } else {
      assert Before(g[i], g[i + 1]) && g[i + 1] in Elems(g);
      SessionTight(g, gap, i + 1);
      if g[i].at == g[i + 1].at && HasNext(Elems(g), g[i + 1], gap) {
        var y :| y in Elems(g) && g[i + 1].at < y.at && !OpensNewSession(g[i + 1].at, y.at, gap);
      }
    }
  }

  lemma HealedTight(db': Db, g: seq<Event>, s: string, cfg: Config)
    requires Healed(db', g, s, cfg)
    ensures TightSet(db'.Linked(s), cfg.gap)
  {
    hide IsSession, FoldSorted, LastOf, HasNext, Db.Linked;
    forall x | x in Elems(g) ensures LastOf(Elems(g), x) || HasNext(Elems(g), x, cfg.gap) {
      var i :| 0 <= i < |g| && g[i] == x;
      SessionTight(g, cfg.gap, i);
    }
  }

  lemma HealedApart(db': Db, groups: seq<seq<Event>>, mint: IdSource, i: nat, j: nat, cfg: Config)
    requires i < |groups| && j < |groups| && i != j && NoRepeats(groups) && Separated(Elems(groups), cfg.gap)
    requires Healed(db', groups[i], mint(i), cfg) && Healed(db', groups[j], mint(j), cfg) && db'.Schema()
    ensures SetsApart(db'.Linked(mint(i)), db'.Linked(mint(j)), cfg.gap)
    ensures SameKeyRows(db', mint(i), mint(j)) ==>
      EndsApart(db'.sessions[mint(i)].agg, db'.sessions[mint(j)].agg, cfg.gap)
  {
    var g, h := groups[i], groups[j];
    assert g in Elems(groups) && h in Elems(groups) && g != h;
    assert ApartSessions(g, h, cfg.gap);
    NamedKey(db', g, mint(i), cfg);
    NamedKey(db', h, mint(j), cfg);
    hide Db.Linked, FoldSorted, Db.Schema, Ordered, Separated, Db.OnKey, Db.Live, Completes;
    LastsApart(g, h, cfg.gap);
  }

  lemma LastsApart(g: seq<Event>, h: seq<Event>, gap: int)
    requires IsSession(g, gap) && IsSession(h, gap) && ApartSessions(g, h, gap)
    ensures g[0].KeyOf() == h[0].KeyOf() ==> Apart(g[|g| - 1], h[|h| - 1], gap)
  {
    assert g[|g| - 1] in g && h[|h| - 1] in h;
  }

  ghost predicate AllNamed(groups: seq<seq<Event>>) {
    forall i | 0 <= i < |groups| :: groups[i] != [] && groups[i][0].instance != ""
  }

  lemma NamedGroup(P: set<seq<Event>>, S: set<Event>, gap: int, e: Event) returns (g: seq<Event>)
    requires IsGapPartition(P, S, gap) && e in S
    ensures g in P && g != [] && e.instance == g[0].instance
  {
    g :| g in P && e in g;
    assert e.KeyOf() == g[0].KeyOf();
  }

  lemma NamedGroups(db': Db, groups: seq<seq<Event>>, mint: IdSource, cfg: Config)
    requires Replayed(db', groups, mint, cfg)
    ensures Named(db') <==> AllNamed(groups)
    ensures forall i: nat | i < |groups| :: groups[i] != []
  {
    hide Db.Schema, Healed, LinkHolds, Apply.Unrepeated, IsGapPartition, NoRepeats, Db.LiveLog;
    forall i: nat | i < |groups| ensures groups[i] != [] && groups[i][0] in db'.LiveLog() {
      assert groups[i] in Elems(groups);
      FirstOfSession(Elems(groups), db'.LiveLog(), cfg.gap, groups[i]);
    }
    if AllNamed(groups) {
      forall e | e in db'.LiveLog() ensures e.instance != "" {
        var g := NamedGroup(Elems(groups), db'.LiveLog(), cfg.gap, e);
        var i :| 0 <= i < |groups| && groups[i] == g;
      }
    }
  }

  /** A rebuild leaves sessions that can be read again exactly when every visible event names its
      instance: an absent one is written as NULL, which the next rebuild cannot scan. */
  lemma ReadableIffNamed(db': Db, groups: seq<seq<Event>>, mint: IdSource, cfg: Config)
    requires Replayed(db', groups, mint, cfg)
    ensures db'.SessionsReadable() <==> Named(db')
  {
    NamedGroups(db', groups, mint, cfg);
    hide Db.Schema, Db.Linked, FoldSorted, LinkHolds, Apply.Unrepeated, IsGapPartition, Named, IsSession;
    forall i: nat | i < |groups| ensures mint(i) in db'.LiveSessions() &&
      (db'.sessions[mint(i)].instance.Some? <==> groups[i][0].instance != "")
    {
      assert Healed(db', groups[i], mint(i), cfg);
    }
    forall s | s in db'.LiveSessions() ensures exists i: nat :: i < |groups| && s == mint(i) {
    }
  }

  lemma RebuiltRows(db': Db, groups: seq<seq<Event>>, mint: IdSource, cfg: Config)
    requires Replayed(db', groups, mint, cfg)
    ensures forall s | s in db'.sessions :: RowGood(db', s, cfg)
    ensures AllNamed(groups) ==> RowsKeyed(db')
  {
    hide Db.Schema, LinkHolds, Apply.Unrepeated, IsGapPartition, NoRepeats, Healed, RowGood;
    forall s | s in db'.sessions ensures RowGood(db', s, cfg) && (AllNamed(groups) ==> db'.sessions[s].instance.Some?) {
      var i: nat :| i < |groups| && s == mint(i);
      RowRebuilt(db', groups[i], s, cfg);
    }
  }

  lemma GoodRows(db: Db, cfg: Config)
    requires db.Schema() && forall s | s in db.sessions :: RowGood(db, s, cfg)
    ensures AllFold(db, cfg) && TightRows(db, cfg.gap) && CompletionCurrent(db, cfg) && CompletionBacked(db, cfg)
  {
    hide Folds, TightSet, Completes, Db.Linked, Db.Schema, RowFits;
  }

  lemma FittingRows(db: Db, cfg: Config)
    requires db.Schema() && forall s | s in db.sessions :: RowGood(db, s, cfg)
    ensures LinksBounded(db) && DeletionAgrees(db)
  {
    hide Folds, TightSet, Completes, Db.Linked, Db.Schema, CurrentAt;
  }

  ghost predicate RowGood(db: Db, s: string, cfg: Config)
    requires db.Schema() && s in db.sessions
  {
    Folds(db, s, cfg) && TightSet(db.Linked(s), cfg.gap) && CurrentAt(db, s, cfg) && RowFits(db, s)
  }

  ghost predicate RowFits(db: Db, s: string)
    requires s in db.sessions
  {
    && (forall e | e in db.Linked(s) :: e.at <= db.sessions[s].agg.ended)
    && db.Live(db.sessions[s].media) && db.sessions[s].deleted == None
  }

  lemma RowRebuilt(db': Db, g: seq<Event>, s: string, cfg: Config)
    requires Healed(db', g, s, cfg) && db'.Schema()
    ensures RowGood(db', s, cfg)
    ensures g != [] && (db'.sessions[s].instance.Some? <==> g[0].instance != "")
  {
    HealedFolds(db', g, s, cfg);
    HealedTight(db', g, s, cfg);
    NamedKey(db', g, s, cfg);
    hide Folds, TightSet, Completes, FoldSorted, Db.Schema, IsSession, Db.Linked;
  }

  lemma RebuiltApart(db': Db, groups: seq<seq<Event>>, mint: IdSource, cfg: Config)
    requires Replayed(db', groups, mint, cfg)
    ensures RowsApart(db', cfg.gap) && LinksApart(db', cfg.gap)
  {
    hide Db.Schema, LinkHolds, Apply.Unrepeated, NoRepeats, Healed, SetsApart, Separated, Db.Linked, Db.LiveLog,
      IsSession;
    forall s, t | s in db'.sessions && t in db'.sessions && s != t
      ensures SetsApart(db'.Linked(s), db'.Linked(t), cfg.gap)
      ensures SameKeyRows(db', s, t) ==> EndsApart(db'.sessions[s].agg, db'.sessions[t].agg, cfg.gap)
    {
      var i: nat :| i < |groups| && s == mint(i);
      var j: nat :| j < |groups| && t == mint(j);
      HealedApart(db', groups, mint, i, j, cfg);
    }
  }

  lemma RebuiltLinks(db': Db, groups: seq<seq<Event>>, mint: IdSource, cfg: Config)
    requires Replayed(db', groups, mint, cfg)
    ensures LiveLinked(db')
    ensures AllNamed(groups) ==> LinksFit(db')
  {
    hide Db.Schema, Apply.Unrepeated, NoRepeats, Healed, Separated, Db.Linked, IsSession, Db.OnKey;
    forall id | id in db'.events && db'.Live(db'.events[id].event.media) ensures db'.events[id].session.Some? {
      assert LinkHolds(db'.events[id], groups, mint);
      assert db'.events[id].event in db'.LiveLog();
      var g :| g in Elems(groups) && db'.events[id].event in g;
      var i :| 0 <= i < |groups| && groups[i] == g;
    }
    if AllNamed(groups) {
      forall id | id in db'.events && db'.events[id].session.Some?
        ensures db'.OnKey(db'.events[id].session.value, db'.events[id].event.KeyOf())
      {
        assert LinkHolds(db'.events[id], groups, mint);
        var i: nat :| i < |groups| && db'.events[id].session.value == mint(i) && db'.events[id].event in groups[i];
        NamedKey(db', groups[i], mint(i), cfg);
      }
    }
  }

  /** Whatever was stored before, a rebuild of events that name their instance leaves the tables in step
      with the log: every visible event in exactly one session, every row the fold of its events. */
  lemma RebuildSyncs(db': Db, groups: seq<seq<Event>>, mint: IdSource, cfg: Config)
    requires Replayed(db', groups, mint, cfg) && Named(db')
    ensures Synced(db', cfg) && CompletionCurrent(db', cfg)
  {
    NamedGroups(db', groups, mint, cfg);
    RebuiltHasSchema(db', groups, mint, cfg);
    RebuiltRows(db', groups, mint, cfg);
    GoodRows(db', cfg);
    FittingRows(db', cfg);
    RebuiltApart(db', groups, mint, cfg);
    RebuiltLinks(db', groups, mint, cfg);
    hide Replayed, TightRows, LinksBounded, CompletionBacked, DeletionAgrees, RowsKeyed, RowsApart, LinksApart,
      LiveLinked, LinksFit, Db.Schema, CompletionCurrent, RowGood, Folds;
  }

  lemma RebuiltHasSchema(db': Db, groups: seq<seq<Event>>, mint: IdSource, cfg: Config)
    requires Replayed(db', groups, mint, cfg)
    ensures db'.Schema()
  {
  }

  /** A second rebuild, straight after a first, finds nothing to change. */
  lemma SecondRebuildIsSilent(db: Db, out: seq<Rebuilt>, groups: seq<seq<Event>>, cfg: Config, mint: IdSource,
                              now: Time, db': Db, stored: seq<Session>, out': seq<Rebuilt>, groups': seq<seq<Event>>)
    requires db.Schema() && cfg.gap >= 0 && Apply.Unrepeated(mint) && RebuildsTo(db, out, groups, cfg, mint, now, db')
    requires Named(db) && Reads(db', stored)
    requires Reconstructs(out', groups', db'.LiveLog(), db'.Durations(), cfg)
    ensures !DiffOf(stored, out').HasDrift() && groups' == groups && out' == out
  {
    RebuildIsRebuilt(db, out, groups, cfg, mint, now, db');
    assert Named(db');
    hide Named, Replayed, Reconstructs, DiffOf, Synced, CompletionCurrent, Db.Schema, Db.LiveLog, Db.Log, Reads,
      Apply.Unrepeated, Db.ReplaceAll;
    RebuildSyncs(db', groups, mint, cfg);
    LiveRefinesBatch(db', cfg, stored, out', groups');
    ReconstructionUnique(out, groups, out', groups', db.LiveLog(), db.Durations(), cfg);
  }
}
