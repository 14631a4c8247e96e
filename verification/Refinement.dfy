/** Live sessionization refines the batch: tables kept in step hold the very sessions a rebuild makes. */
module Refinement {
  import opened Sorting
  import opened Stamps
  import opened Events
  import opened Folding
  import opened Partition
  import opened Rebuild
  import opened Drift
  import opened Tables
  import opened Sessionize
  import opened Invariants
  import opened Live

  // The events of a stored session in replay order.
  ghost function GroupOf(db: Db, s: string): seq<Event>
    requires db.Schema()
  {
    LinkedIds(db, s);
    Arrange(db.Linked(s))
  }

  ghost function LiveGroups(db: Db): set<seq<Event>>
    requires db.Schema()
  {
    set s | s in db.LiveSessions() :: GroupOf(db, s)
  }

  // The neighbour of an event in replay order is within the gap.
  lemma TightStep(g: seq<Event>, L: set<Event>, gap: int, i: nat)
    requires Ordered(g) && Elems(g) == L && 0 < i < |g| && gap >= 0
    requires LastOf(L, g[i - 1]) || HasNext(L, g[i - 1], gap)
    ensures !OpensNewSession(g[i - 1].at, g[i].at, gap)
  {
    hide StrLess;
    var x := g[i - 1];
    assert g[i] in L;
    assert Before(x, g[i]);
    if !LastOf(L, x) {
      var y :| y in L && x.at < y.at && !OpensNewSession(x.at, y.at, gap);
      var j :| 0 <= j < |g| && g[j] == y;
      assert j < i - 1 ==> Before(g[j], x);
      assert i < j ==> Before(g[i], g[j]);
    }
  }

  lemma TightArranged(L: set<Event>, gap: int)
    requires DistinctIds(L) && TightSet(L, gap) && gap >= 0
    ensures forall i | 0 < i < |Arrange(L)| :: !OpensNewSession(Arrange(L)[i - 1].at, Arrange(L)[i].at, gap)
  {
    var g := Arrange(L);
    hide Before, LastOf, HasNext;
    forall i | 0 < i < |g| ensures !OpensNewSession(g[i - 1].at, g[i].at, gap) {
      assert g[i - 1] in Elems(g);
      TightStep(g, L, gap, i);
    }
  }

  lemma StoredIsSession(db: Db, s: string, cfg: Config)
    requires db.Schema() && s in db.sessions && LinksFit(db) && Folds(db, s, cfg) && TightSet(db.Linked(s), cfg.gap)
    requires cfg.gap >= 0
    ensures IsSession(GroupOf(db, s), cfg.gap) && Elems(GroupOf(db, s)) == db.Linked(s)
    ensures forall e | e in db.Linked(s) :: db.OnKey(s, e.KeyOf())
  {
    LinkedIds(db, s);
    var g := GroupOf(db, s);
    TightArranged(db.Linked(s), cfg.gap);
    NoElems(g);
    hide FoldSet, StrLess, TightSet;
    forall e | e in g ensures e.KeyOf() == g[0].KeyOf() {
      assert e in Elems(g) && g[0] in Elems(g);
    }
  }

  lemma LinkedIsLive(db: Db, s: string)
    requires db.Schema() && LinksFit(db) && DeletionAgrees(db) && s in db.LiveSessions()
    ensures db.Linked(s) <= db.LiveLog()
  {
  }

  lemma LiveIsCovered(db: Db, e: Event)
    requires db.Schema() && LinksFit(db) && DeletionAgrees(db) && LiveLinked(db) && e in db.LiveLog()
    ensures exists s :: s in db.LiveSessions() && e in db.Linked(s)
  {
    var id :| id in db.events && db.Live(db.events[id].event.media) && db.events[id].event == e;
    var s := db.events[id].session.value;
    assert s in db.LiveSessions() && e in db.Linked(s);
  }

  lemma StoredSessions(db: Db, cfg: Config)
    requires Synced(db, cfg) && cfg.gap >= 0
    ensures forall s | s in db.LiveSessions() ::
      IsSession(GroupOf(db, s), cfg.gap) && Elems(GroupOf(db, s)) == db.Linked(s) && db.Linked(s) <= db.LiveLog()
  {
    hide Db.Schema, LinksFit, LinksBounded, RowsApart, NewestFold, CompletionBacked, DeletionAgrees, RowsKeyed,
      TightSet, SetsApart, Folds, LiveLinked, IsSession, LinksApart;
    forall s | s in db.LiveSessions()
      ensures IsSession(GroupOf(db, s), cfg.gap) && Elems(GroupOf(db, s)) == db.Linked(s) &&
        db.Linked(s) <= db.LiveLog()
    {
      StoredIsSession(db, s, cfg);
      LinkedIsLive(db, s);
    }
  }

  lemma GroupsApart(db: Db, s: string, t: string, gap: int)
    requires db.Schema() && SetsApart(db.Linked(s), db.Linked(t), gap)
    requires Elems(GroupOf(db, s)) == db.Linked(s) && Elems(GroupOf(db, t)) == db.Linked(t)
    ensures ApartSessions(GroupOf(db, s), GroupOf(db, t), gap)
  {
    var g, h := GroupOf(db, s), GroupOf(db, t);
    hide GroupOf, Db.Schema, Db.Linked;
    forall a, b | a in g && b in h && a.KeyOf() == b.KeyOf() ensures Apart(a, b, gap) {
      assert a in Elems(g) && b in Elems(h);
    }
  }

  lemma LiveCovered(db: Db)
    requires db.Schema() && LinksFit(db) && DeletionAgrees(db) && LiveLinked(db)
    requires forall s | s in db.LiveSessions() :: Elems(GroupOf(db, s)) == db.Linked(s)
    ensures forall e | e in db.LiveLog() :: exists g :: g in LiveGroups(db) && e in g
  {
    hide Db.Schema, LinksFit, DeletionAgrees, LiveLinked, GroupOf, Db.LiveLog, Db.Linked, Db.LiveSessions;
    forall e | e in db.LiveLog() ensures exists g :: g in LiveGroups(db) && e in g {
      LiveIsCovered(db, e);
      var s :| s in db.LiveSessions() && e in db.Linked(s);
      assert GroupOf(db, s) in LiveGroups(db) && e in Elems(GroupOf(db, s));
    }
  }

  lemma LiveSeparated(db: Db, gap: int)
    requires db.Schema() && LinksApart(db, gap)
    requires forall s | s in db.LiveSessions() :: Elems(GroupOf(db, s)) == db.Linked(s)
    ensures Separated(LiveGroups(db), gap)
  {
    hide Db.Schema, GroupOf, Db.Linked, SetsApart, ApartSessions;
    forall g, h | g in LiveGroups(db) && h in LiveGroups(db) && g != h ensures ApartSessions(g, h, gap) {
      var s :| s in db.LiveSessions() && GroupOf(db, s) == g;
      var t :| t in db.LiveSessions() && GroupOf(db, t) == h;
      GroupsApart(db, s, t, gap);
    }
  }

  /** The visible sessions of tables in step are the gap partition of the visible log. */
  lemma SyncedIsPartition(db: Db, cfg: Config)
    requires Synced(db, cfg) && cfg.gap >= 0
    ensures db.Schema() && IsGapPartition(LiveGroups(db), db.LiveLog(), cfg.gap)
  {
    StoredSessions(db, cfg);
    hide Db.Schema, LinksFit, LinksBounded, RowsApart, NewestFold, CompletionBacked, DeletionAgrees, RowsKeyed,
      TightRows, AllFold, LiveLinked, IsSession, LinksApart, GroupOf, Db.LiveLog, Db.Linked, Separated;
    LiveCovered(db);
    LiveSeparated(db, cfg.gap);
  }

  // ----- what AllSessions returns, compared with a reconstruction -----

  ghost predicate Reads(db: Db, stored: seq<Session>) {
    && (forall s :: s in stored <==> s.id in db.LiveSessions() && s == db.SessionAt(s.id))
    && Sorted(stored, RowLess)
  }

  // What is read is a function of the tables.
  lemma OneReading(db: Db, stored: seq<Session>, stored': seq<Session>)
    requires Reads(db, stored) && Reads(db, stored')
    ensures stored' == stored
  {
    hide RowLess;
    forall x, y | x in stored && y in stored ensures !(RowLess(x, y) && RowLess(y, x)) {
      RowLessAsymmetric(x, y);
    }
    SortedUnique(stored, stored', RowLess);
  }

  // Every visible session's completion is judged by the duration known now.
  ghost predicate CompletionCurrent(db: Db, cfg: Config) {
    forall s | s in db.LiveSessions() :: CurrentAt(db, s, cfg)
  }

  ghost predicate CurrentAt(db: Db, s: string, cfg: Config)
    requires s in db.sessions
  {
    db.sessions[s].agg.completed == Completes(db.sessions[s].agg.maxPos, db.Duration(db.sessions[s].media), cfg)
  }

  ghost function GroupProfile(g: seq<Event>, durations: Durations, cfg: Config): Profile {
    ProfileOf(FoldGroup(g, durations, cfg).session)
  }

  ghost function RowProfile(db: Db, s: string): Profile
    requires s in db.sessions
  {
    ProfileOf(db.SessionAt(s))
  }

  ghost function BatchProfile(db: Db, s: string, cfg: Config): Profile
    requires db.Schema()
  {
    GroupProfile(GroupOf(db, s), db.Durations(), cfg)
  }

  lemma StreamOf(db: Db, s: string, cfg: Config)
    requires db.Schema() && s in db.sessions && Folds(db, s, cfg)
    ensures IsStream(GroupOf(db, s)) && Elems(GroupOf(db, s)) == db.Linked(s)
  {
    LinkedIds(db, s);
    NoElems(GroupOf(db, s));
  }

  // The rebuilt session of a stored session's events differs from it at most in completion.
  lemma SameProfile(db: Db, s: string, cfg: Config)
    requires db.Schema() && s in db.sessions && RowsKeyed(db) && Folds(db, s, cfg) && LinksFit(db)
    ensures var p, r := RowProfile(db, s), BatchProfile(db, s, cfg);
      && r.key == p.key && r.agg == p.agg.(completed := r.agg.completed)
      && (r == p <==> CurrentAt(db, s, cfg))
  {
    LinkedIds(db, s);
    var L, g := db.Linked(s), GroupOf(db, s);
    StreamOf(db, s, cfg);
    assert g[0] in Elems(g);
    GroupStart(g, db.Durations(), cfg);
    FoldIsCore(L, db.Duration(g[0].media), cfg);
    hide FoldSorted, FoldOf, Watched, MaxPosition, Completes, StrLess;
  }

  lemma GroupsUnique(groups: seq<seq<Event>>, durations: Durations, cfg: Config)
    requires Sorted(groups, GroupLess) && forall i | 0 <= i < |groups| :: IsStream(groups[i])
    ensures UniqueRebuiltKeys(FoldAll(groups, durations, cfg))
  {
    var out := FoldAll(groups, durations, cfg);
    forall i, j | 0 <= i < j < |out| ensures NaturalKeyOf(out[i].session) != NaturalKeyOf(out[j].session) {
      var g, h := groups[i], groups[j];
      assert GroupLess(g, h);
      GroupStart(g, durations, cfg);
      GroupStart(h, durations, cfg);
      StartLessTotal(g[0].at, g[0].KeyOf(), h[0].at, h[0].KeyOf());
    }
  }

  ghost function RowProfiles(db: Db): set<Profile> {
    set s | s in db.LiveSessions() :: RowProfile(db, s)
  }

  ghost function BatchProfiles(db: Db, cfg: Config): set<Profile>
    requires db.Schema()
  {
    set s | s in db.LiveSessions() :: BatchProfile(db, s, cfg)
  }

  lemma RebuiltProfilesOf(db: Db, out: seq<Rebuilt>, groups: seq<seq<Event>>, cfg: Config)
    requires db.Schema() && out == FoldAll(groups, db.Durations(), cfg) && Elems(groups) == LiveGroups(db)
    ensures RebuiltProfiles(out) == BatchProfiles(db, cfg)
  {
    hide Db.Schema, FoldGroup, GroupOf, Db.LiveSessions;
    forall p | p in RebuiltProfiles(out) ensures p in BatchProfiles(db, cfg) {
      var rb :| rb in out && ProfileOf(rb.session) == p;
      var i :| 0 <= i < |out| && out[i] == rb;
      assert groups[i] in Elems(groups);
      var s :| s in db.LiveSessions() && GroupOf(db, s) == groups[i];
      assert BatchProfile(db, s, cfg) == p;
    }
    forall s | s in db.LiveSessions() ensures BatchProfile(db, s, cfg) in RebuiltProfiles(out) {
      assert GroupOf(db, s) in Elems(groups);
      var i :| 0 <= i < |groups| && groups[i] == GroupOf(db, s);
      assert out[i] in out;
    }
  }

  lemma StoredProfilesOf(db: Db, stored: seq<Session>)
    requires Reads(db, stored)
    ensures StoredProfiles(stored) == RowProfiles(db)
  {
    forall p | p in StoredProfiles(stored) ensures p in RowProfiles(db) {
      var x :| x in stored && ProfileOf(x) == p;
      assert x.id in db.LiveSessions() && RowProfile(db, x.id) == p;
    }
    forall s | s in db.LiveSessions() ensures RowProfile(db, s) in StoredProfiles(stored) {
      assert db.SessionAt(s).id == s;
      assert db.SessionAt(s) in stored;
    }
  }

  lemma SyncedSchema(db: Db, cfg: Config)
    requires Synced(db, cfg)
    ensures db.Schema()
  {
  }

  lemma CurrentMeansEqual(db: Db, cfg: Config)
    requires Sound(db, cfg) && AllFold(db, cfg)
    ensures CompletionCurrent(db, cfg) <==> forall s | s in db.LiveSessions() ::
      RowProfile(db, s) == BatchProfile(db, s, cfg)
  {
    hide Db.Schema, CurrentAt, RowProfile, BatchProfile, RowsApart, LinksBounded, NewestFold, CompletionBacked,
      DeletionAgrees, Folds, LinksFit, RowsKeyed;
    forall s | s in db.LiveSessions() ensures RowProfile(db, s) == BatchProfile(db, s, cfg) <==> CurrentAt(db, s, cfg) {
      SameProfile(db, s, cfg);
    }
  }

  lemma StoredGroupMeaning(g: seq<Event>, durations: Durations, cfg: Config)
    requires IsStream(g)
    ensures var p := GroupProfile(g, durations, cfg);
      p.key == g[0].KeyOf() && p.agg.started == g[0].at && p.agg.ended == g[|g| - 1].at && p.agg.count == |g|
  {
    GroupStart(g, durations, cfg);
    hide FoldOf, Completes, MaxPosition, Watched;
  }

  // A visible row that says what a group of the reconstruction says holds just the events of that group.
  lemma MatchedGroup(db: Db, s: string, P: set<seq<Event>>, g: seq<Event>, cfg: Config)
    requires Sound(db, cfg) && AllFold(db, cfg) && cfg.gap >= 0 && s in db.LiveSessions()
    requires IsGapPartition(P, db.LiveLog(), cfg.gap) && g in P &&
      RowProfile(db, s) == GroupProfile(g, db.Durations(), cfg)
    ensures db.Linked(s) == Elems(g) && GroupOf(db, s) == g
  {
    assert Folds(db, s, cfg) && IsSession(g, cfg.gap);
    StoredGroupMeaning(g, db.Durations(), cfg);
    hide GroupProfile, RowsApart, LinksBounded, NewestFold, CompletionBacked, AllFold, Folds;
    RowSpans(db, s, cfg);
    FoldCounts(db, s, cfg);
    LinkedIsLive(db, s);
    LinkedIds(db, s);
    forall e | e in db.Linked(s) ensures e in g {
      assert db.OnKey(s, e.KeyOf()) && db.sessions[s].agg.started <= e.at <= db.sessions[s].agg.ended;
      WithinSpan(P, db.LiveLog(), cfg.gap, g, e);
    }
    SameSize(db.Linked(s), g);
    ArrangeUnique(g, db.Linked(s));
  }

  lemma SameSize(L: set<Event>, g: seq<Event>)
    requires IsStream(g) && L <= Elems(g) && |L| == |g| && DistinctIds(L)
    ensures L == Elems(g)
  {
    OrderedSize(g);
    SubsetSize(L, Elems(g));
  }

  // ... so no other visible row starts with it.
  lemma MatchedAlone(db: Db, s: string, t: string, P: set<seq<Event>>, g: seq<Event>, cfg: Config)
    requires Sound(db, cfg) && AllFold(db, cfg) && cfg.gap >= 0 && s in db.LiveSessions() && t in db.LiveSessions()
    requires IsGapPartition(P, db.LiveLog(), cfg.gap) && g in P &&
      RowProfile(db, s) == GroupProfile(g, db.Durations(), cfg)
    requires NaturalKeyOf(db.SessionAt(s)) == NaturalKeyOf(db.SessionAt(t))
    ensures s == t
  {
    MatchedGroup(db, s, P, g, cfg);
    StoredGroupMeaning(g, db.Durations(), cfg);
    assert Folds(db, t, cfg) && IsSession(g, cfg.gap);
    hide GroupProfile, RowsApart, LinksBounded, NewestFold, CompletionBacked, AllFold, Folds;
    RowSpans(db, t, cfg);
    LinkedIsLive(db, t);
    var e :| e in db.Linked(t) && e.at == db.sessions[t].agg.started;
    assert db.OnKey(t, e.KeyOf());
    FirstNotAfterLast(g);
    WithinSpan(P, db.LiveLog(), cfg.gap, g, e);
    assert e in db.Linked(s);
  }

  lemma FirstNotAfterLast(g: seq<Event>)
    requires IsStream(g)
    ensures g[0].at <= g[|g| - 1].at
  {
    assert |g| > 1 ==> Before(g[0], g[|g| - 1]);
  }

  // A silent diff finds a group for every visible row.
  lemma SilentRow(db: Db, s: string, stored: seq<Session>, out: seq<Rebuilt>, groups: seq<seq<Event>>, cfg: Config)
    returns (g: seq<Event>)
    requires Sound(db, cfg) && AllFold(db, cfg) && cfg.gap >= 0 && Reads(db, stored) && s in db.LiveSessions()
    requires Reconstructs(out, groups, db.LiveLog(), db.Durations(), cfg) && !DiffOf(stored, out).HasDrift()
    ensures g in Elems(groups) && RowProfile(db, s) == GroupProfile(g, db.Durations(), cfg)
  {
    hide Sound, AllFold, DiffOf, IsGapPartition, FoldGroup, KeptProfiles, RebuiltProfiles, GroupLess;
    NoDriftIff(stored, out);
    assert db.SessionAt(s).id == s;
    var kept := KeyIsKept(stored, db.SessionAt(s));
    assert ProfileOf(kept) in RebuiltProfiles(out) by { KeptIn(stored, kept); }
    var i := ProfileAt(out, ProfileOf(kept));
    g := groups[i];
    MatchedAlone(db, kept.id, s, Elems(groups), g, cfg);
  }

  lemma ProfileAt(out: seq<Rebuilt>, p: Profile) returns (i: nat)
    requires p in RebuiltProfiles(out)
    ensures i < |out| && ProfileOf(out[i].session) == p
  {
    var rb :| rb in out && ProfileOf(rb.session) == p;
    i :| 0 <= i < |out| && out[i] == rb;
  }

  lemma KeptHas(stored: seq<Session>, p: Profile) returns (s: Session)
    requires p in KeptProfiles(stored)
    ensures s in stored && ProfileOf(s) == p
  {
    s :| s in stored && Kept(stored, s) && ProfileOf(s) == p;
  }

  // ... which is that of its events.
  lemma SilentRowAgrees(db: Db, s: string, stored: seq<Session>, out: seq<Rebuilt>, groups: seq<seq<Event>>,
                        cfg: Config)
    requires Sound(db, cfg) && AllFold(db, cfg) && cfg.gap >= 0 && Reads(db, stored) && s in db.LiveSessions()
    requires Reconstructs(out, groups, db.LiveLog(), db.Durations(), cfg) && !DiffOf(stored, out).HasDrift()
    ensures GroupOf(db, s) in Elems(groups) && RowProfile(db, s) == BatchProfile(db, s, cfg)
  {
    hide Sound, AllFold, DiffOf, IsGapPartition, GroupProfile, RowProfile, GroupOf, Reads;
    var g := SilentRow(db, s, stored, out, groups, cfg);
    MatchedGroup(db, s, Elems(groups), g, cfg);
  }

  // And a visible row for every group.
  lemma SilentGroup(db: Db, stored: seq<Session>, out: seq<Rebuilt>, groups: seq<seq<Event>>, cfg: Config,
                    g: seq<Event>)
    requires Sound(db, cfg) && AllFold(db, cfg) && cfg.gap >= 0 && Reads(db, stored) && g in Elems(groups)
    requires Reconstructs(out, groups, db.LiveLog(), db.Durations(), cfg) && !DiffOf(stored, out).HasDrift()
    ensures g in LiveGroups(db)
  {
    hide Sound, AllFold, DiffOf, IsGapPartition, GroupProfile, RowProfile, GroupOf, Reads, KeptProfiles,
      RebuiltProfiles;
    NoDriftIff(stored, out);
    var i: nat :| i < |groups| && groups[i] == g;
    var s := GroupHasRow(db, stored, out, groups, cfg, i);
    MatchedGroup(db, s, Elems(groups), g, cfg);
  }

  lemma GroupHasRow(db: Db, stored: seq<Session>, out: seq<Rebuilt>, groups: seq<seq<Event>>, cfg: Config, i: nat)
    returns (s: string)
    requires Reads(db, stored) && out == FoldAll(groups, db.Durations(), cfg) && i < |groups|
    requires KeptProfiles(stored) == RebuiltProfiles(out)
    ensures s in db.LiveSessions() && RowProfile(db, s) == GroupProfile(groups[i], db.Durations(), cfg)
  {
    hide KeptProfiles, FoldGroup, RowLess;
    assert out[i] in out && ProfileOf(out[i].session) in RebuiltProfiles(out);
    var x := KeptHas(stored, ProfileOf(out[i].session));
    s := x.id;
  }

  lemma SilentGroups(db: Db, stored: seq<Session>, out: seq<Rebuilt>, groups: seq<seq<Event>>, cfg: Config)
    requires Sound(db, cfg) && AllFold(db, cfg) && cfg.gap >= 0 && Reads(db, stored)
    requires Reconstructs(out, groups, db.LiveLog(), db.Durations(), cfg) && !DiffOf(stored, out).HasDrift()
    ensures LiveGroups(db) == Elems(groups) && CompletionCurrent(db, cfg)
  {
    CurrentMeansEqual(db, cfg);
    assert db.Schema();
    hide Sound, AllFold, DiffOf, Reconstructs, GroupOf, CompletionCurrent, RowProfile, BatchProfile, Db.Schema, Reads,
      Db.LiveLog;
    forall s | s in db.LiveSessions()
      ensures GroupOf(db, s) in Elems(groups) && RowProfile(db, s) == BatchProfile(db, s, cfg)
    {
      SilentRowAgrees(db, s, stored, out, groups, cfg);
    }
    forall g | g in Elems(groups) ensures g in LiveGroups(db) {
      SilentGroup(db, stored, out, groups, cfg, g);
    }
  }

  lemma GroupsAreStreams(P: set<seq<Event>>, S: set<Event>, gap: int, groups: seq<seq<Event>>)
    requires IsGapPartition(P, S, gap) && P == Elems(groups)
    ensures forall i | 0 <= i < |groups| :: IsStream(groups[i])
  {
    forall i | 0 <= i < |groups| ensures IsStream(groups[i]) {
      assert groups[i] in Elems(groups);
    }
  }

  lemma AgreeingIsSilent(db: Db, stored: seq<Session>, out: seq<Rebuilt>, groups: seq<seq<Event>>, cfg: Config)
    requires Sound(db, cfg) && AllFold(db, cfg) && Reads(db, stored)
    requires Reconstructs(out, groups, db.LiveLog(), db.Durations(), cfg)
    requires LiveGroups(db) == Elems(groups) && CompletionCurrent(db, cfg)
    ensures !DiffOf(stored, out).HasDrift()
  {
    GroupsAreStreams(Elems(groups), db.LiveLog(), cfg.gap, groups);
    assert db.Schema();
    hide AllFold, DiffOf, IsGapPartition, FoldAll, StoredProfiles, RebuiltProfiles, GroupLess, UniqueRebuiltKeys,
      IsStream, CompletionCurrent, RowProfile, BatchProfile, Db.Schema, LiveGroups, Db.LiveSessions, Db.LiveLog, Reads,
      Sound;
    GroupsUnique(groups, db.Durations(), cfg);
    CurrentMeansEqual(db, cfg);
    RebuiltProfilesOf(db, out, groups, cfg);
    StoredProfilesOf(db, stored);
    SameProfilesSilent(stored, out);
  }

  /** What a silent diff says about tables in which every row is the fold of its events: the visible sessions hold
      exactly the groups of the reconstruction, event for event, and no completion is out of date. */
  lemma SilentIff(db: Db, cfg: Config, stored: seq<Session>, out: seq<Rebuilt>, groups: seq<seq<Event>>)
    requires Sound(db, cfg) && AllFold(db, cfg) && cfg.gap >= 0 && Reads(db, stored)
    requires Reconstructs(out, groups, db.LiveLog(), db.Durations(), cfg)
    ensures !DiffOf(stored, out).HasDrift() <==> LiveGroups(db) == Elems(groups) && CompletionCurrent(db, cfg)
  {
    assert db.Schema();
    hide Sound, AllFold, Reads, Reconstructs, DiffOf, LiveGroups, CompletionCurrent, Db.Schema, Db.LiveLog;
    if !DiffOf(stored, out).HasDrift() {
      SilentGroups(db, stored, out, groups, cfg);
    } else if LiveGroups(db) == Elems(groups) && CompletionCurrent(db, cfg) {
      AgreeingIsSilent(db, stored, out, groups, cfg);
    }
  }

  /** In every state kept in step, the stored sessions hold exactly the partition of events a rebuild
      makes, and the diff is silent if and only if each session's completion was last judged by the
      duration known now: nothing else can drift. */
  lemma LiveRefinesBatch(db: Db, cfg: Config, stored: seq<Session>, out: seq<Rebuilt>, groups: seq<seq<Event>>)
    requires Synced(db, cfg) && cfg.gap >= 0 && Reads(db, stored)
    requires Reconstructs(out, groups, db.LiveLog(), db.Durations(), cfg)
    ensures Elems(groups) == LiveGroups(db)
    ensures !DiffOf(stored, out).HasDrift() <==> CompletionCurrent(db, cfg)
  {
    SyncedIsPartition(db, cfg);
    PartitionUnique(Elems(groups), LiveGroups(db), db.LiveLog(), cfg.gap);
    hide Sound, AllFold, IsGapPartition, DiffOf, Reads, CompletionCurrent, LiveGroups, Db.LiveLog, Db.Schema;
    SilentIff(db, cfg, stored, out, groups);
  }
}
