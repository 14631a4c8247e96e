/** Persisting a rebuild, and what it does to whatever was stored before. */
module Apply {
  import opened Sorting
  import opened Stamps
  import opened Events
  import opened Folding
  import opened Partition
  import opened Rebuild
  import opened Drift
  import opened Tables
  import opened Store
  import opened Sessionize
  import opened Refinement

  // A source of fresh ids.
  type IdSource = nat -> string

  ghost predicate Unrepeated(mint: IdSource) {
    forall i: nat, j: nat | i != j :: mint(i) != mint(j)
  }

  function WriteOf(rb: Rebuilt, id: string, now: Time): SessionWrite {
    SessionWrite(rb.session.(id := id, created := now, updated := now), rb.eventIds)
  }

  function WritesOf(rebuilt: seq<Rebuilt>, mint: IdSource, now: Time): seq<SessionWrite> {
    seq(|rebuilt|, i requires 0 <= i < |rebuilt| => WriteOf(rebuilt[i], mint(i), now))
  }

  method ApplyRebuild(repo: Repo, rebuilt: seq<Rebuilt>, mint: IdSource, now: Time) returns (ok: bool)
    requires repo.Valid()
    modifies repo
    ensures repo.Valid() && ok == old(repo.View()).WritesAccepted(WritesOf(rebuilt, mint, now))
    ensures repo.View() == old(repo.View()).ReplaceAll(WritesOf(rebuilt, mint, now))
  {
    var writes: seq<SessionWrite> := [];
    for i := 0 to |rebuilt|
      invariant writes == WritesOf(rebuilt[..i], mint, now)
    {
      assert rebuilt[..i + 1][..i] == rebuilt[..i];
      writes := writes + [WriteOf(rebuilt[i], mint(i), now)];
      assert writes == WritesOf(rebuilt[..i + 1], mint, now);
    }
    assert rebuilt[..|rebuilt|] == rebuilt;
    ok := repo.ReplaceAllSessions(writes);
  }

  // What one run of rebuild-sessions --write makes of the tables.
  ghost predicate RebuildsTo(db: Db, out: seq<Rebuilt>, groups: seq<seq<Event>>, cfg: Config, mint: IdSource, now: Time,
                             db': Db)
  {
    Reconstructs(out, groups, db.LiveLog(), db.Durations(), cfg) && db' == db.ReplaceAll(WritesOf(out, mint, now))
  }

  // The answer of the command: whether the readable sessions differ from the reconstruction of the log.
  ghost predicate DriftIs(db: Db, stored: seq<Session>, out: seq<Rebuilt>, cfg: Config, drift: bool) {
    && Reads(db, stored) && IsReconstruction(out, db.LiveLog(), db.Durations(), cfg)
    && drift == DiffOf(stored, out).HasDrift()
  }

  lemma RebuiltUnique(out: seq<Rebuilt>, S: set<Event>, durations: Durations, cfg: Config)
    requires IsReconstruction(out, S, durations, cfg)
    ensures UniqueRebuiltKeys(out)
  {
    var groups :| Reconstructs(out, groups, S, durations, cfg);
    hide GroupLess, FoldAll, Separated;
    forall i | 0 <= i < |groups| ensures IsStream(groups[i]) {
      assert groups[i] in Elems(groups);
    }
    GroupsUnique(groups, durations, cfg);
  }

  /** What the answer means: it is a function of the tables, no drift means that the kept rows are the rebuilt
      sessions, and all rows are, each as often, exactly when there is no drift and no two share a natural key. */
  lemma AnswerMeaning(db: Db, stored: seq<Session>, out: seq<Rebuilt>, cfg: Config, drift: bool)
    requires cfg.gap >= 0 && DriftIs(db, stored, out, cfg, drift)
    ensures !drift <==> KeptProfiles(stored) == RebuiltProfiles(out)
    ensures multiset(StoredProfileList(stored)) == multiset(RebuiltProfileList(out)) <==> !drift && UniqueKeys(stored)
    ensures forall stored', out', drift' | DriftIs(db, stored', out', cfg, drift') :: drift' == drift
  {
    hide Reads, IsReconstruction, DiffOf, KeptProfiles, RebuiltProfiles, UniqueKeys, UniqueRebuiltKeys, Db.LiveLog;
    NoDriftIff(stored, out);
    RebuiltUnique(out, db.LiveLog(), db.Durations(), cfg);
    SilenceIsAgreementIff(stored, out);
    forall stored', out', drift' | DriftIs(db, stored', out', cfg, drift') ensures drift' == drift {
      OneReading(db, stored, stored');
      OneReconstruction(out, out', db.LiveLog(), db.Durations(), cfg);
    }
  }

  /** The rebuild command: it stops with an error, touching nothing, when the stored sessions cannot be
      read; otherwise it reports the diff, and with write it replaces the derived tables. */
  method RebuildSessions(repo: Repo, cfg: Config, write: bool, mint: IdSource, now: Time)
    returns (drift: Result<bool>)
    requires repo.Valid() && cfg.gap >= 0 && Unrepeated(mint)
    modifies repo
    ensures repo.Valid() && (drift.Ok? <==> old(repo.View()).SessionsReadable())
    ensures drift.Failed? || !write ==> repo.View() == old(repo.View())
    ensures drift.Ok? && write ==>
      exists out, groups :: RebuildsTo(old(repo.View()), out, groups, cfg, mint, now, repo.View())
    ensures drift.Ok? ==> exists stored, out :: DriftIs(old(repo.View()), stored, out, cfg, drift.value)
  {
    var events := repo.AllEvents();
    var stored := repo.AllSessions();
    if stored.Failed? {
      return Failed;
    }
    var durations := repo.AllMediaDurations();
    var rebuilt := Reconstruct(events, durations, cfg);
    ghost var groups :| Reconstructs(rebuilt, groups, repo.View().LiveLog(), repo.View().Durations(), cfg);
    var report := Diff(stored.value, rebuilt);
    assert Reads(repo.View(), stored.value);
    drift := Ok(report.HasDrift());
    assert DriftIs(repo.View(), stored.value, rebuilt, cfg, drift.value);
    if write {
      ghost var db := repo.View();
      RebuildAccepted(db, rebuilt, groups, cfg, mint, now);
      var ok := ApplyRebuild(repo, rebuilt, mint, now);
      assert ok;
      assert RebuildsTo(db, rebuilt, groups, cfg, mint, now, repo.View());
    }
  }

  // ----- what the written rows and links are -----

  lemma {:induction false} OwnerIs(writes: seq<SessionWrite>, eventId: string, i: nat)
    requires i < |writes| && eventId in writes[i].eventIds
    requires forall j | 0 <= j < |writes| && j != i :: eventId !in writes[j].eventIds
    ensures Owner(writes, eventId) == Some(writes[i].session.id)
  {
    if i < |writes| - 1 {
      OwnerIs(writes[..|writes| - 1], eventId, i);
    }
  }

  lemma {:induction false} OwnerNone(writes: seq<SessionWrite>, eventId: string)
    requires forall j | 0 <= j < |writes| :: eventId !in writes[j].eventIds
    ensures Owner(writes, eventId) == None
  {
    if writes != [] {
      OwnerNone(writes[..|writes| - 1], eventId);
    }
  }

  lemma InsertedRow(writes: seq<SessionWrite>, i: nat)
    requires DistinctWrites(writes) && i < |writes|
    ensures writes[i].session.id in InsertedRows(writes)
    ensures WrittenAs(writes[i], writes[i].session.id, InsertedRows(writes)[writes[i].session.id])
  {
    InsertedRowsMeaning(writes);
    var id := writes[i].session.id;
    var a :| 0 <= a < |writes| && WrittenAs(writes[a], id, InsertedRows(writes)[id]);
    assert a == i;
  }

  lemma IdIn(g: seq<Event>, id: string)
    ensures id in Ids(g) <==> exists e :: e in g && e.id == id
  {
    if id in Ids(g) {
      var i :| 0 <= i < |g| && Ids(g)[i] == id;
      assert g[i] in g;
    }
    if e :| e in g && e.id == id {
      var i :| 0 <= i < |g| && g[i] == e;
      assert Ids(g)[i] == id;
    }
  }

  // The row a rebuild writes for a group.
  ghost predicate RowHolds(row: SessionRow, g: seq<Event>, now: Time, durations: Durations, cfg: Config) {
    row == RowOf(FoldGroup(g, durations, cfg).session.(created := now, updated := now),
                 NullStr(FoldGroup(g, durations, cfg).session.instance))
  }

  lemma GroupIdsDisjoint(groups: seq<seq<Event>>, S: set<Event>, gap: int, i: nat, j: nat, e: Event)
    requires IsGapPartition(Elems(groups), S, gap) && NoRepeats(groups) && DistinctIds(S) && gap >= 0
    requires i < |groups| && j < |groups| && i != j && e in groups[i]
    ensures e.id !in Ids(groups[j])
  {
    IdIn(groups[j], e.id);
    assert groups[i] in Elems(groups) && groups[j] in Elems(groups);
    if x :| x in groups[j] && x.id == e.id {
      assert x in Elems(groups[j]) && e in Elems(groups[i]);
      OneSessionPerEvent(Elems(groups), S, gap, groups[i], groups[j], e);
    }
  }

  lemma GroupFacts(db: Db, out: seq<Rebuilt>, groups: seq<seq<Event>>, cfg: Config, i: nat)
    requires db.Schema() && Reconstructs(out, groups, db.LiveLog(), db.Durations(), cfg) && i < |groups|
    ensures groups[i] != [] && Elems(groups[i]) <= db.LiveLog() && IsSession(groups[i], cfg.gap)
    ensures groups[i][0] in db.LiveLog() && groups[i][0].media in db.media && db.Live(groups[i][0].media)
  {
    assert groups[i] in Elems(groups);
    assert groups[i][0] in Elems(groups[i]);
  }

  lemma GroupsDistinct(db: Db, out: seq<Rebuilt>, groups: seq<seq<Event>>, cfg: Config)
    requires db.Schema() && Reconstructs(out, groups, db.LiveLog(), db.Durations(), cfg)
    ensures NoRepeats(groups) && DistinctIds(db.LiveLog()) && |out| == |groups|
  {
    assert db.LiveLog() <= db.Log();
    LogIds(db, db.LiveLog());
    hide IsGapPartition, Db.Schema, FoldGroup, StrLess;
    forall i, j | 0 <= i < j < |groups| ensures groups[i] != groups[j] {
      var g, h := groups[i], groups[j];
      assert GroupLess(g, h);
      StartLessTotal(g[0].at, g[0].KeyOf(), h[0].at, h[0].KeyOf());
    }
  }

  lemma WriteAt(groups: seq<seq<Event>>, durations: Durations, cfg: Config, mint: IdSource, now: Time, i: nat)
    requires i < |groups| && groups[i] != []
    ensures var w := WritesOf(FoldAll(groups, durations, cfg), mint, now)[i];
      && w.eventIds == Ids(groups[i]) && w.session.id == mint(i) && w.session.media == groups[i][0].media
      && w.session == FoldGroup(groups[i], durations, cfg).session.(id := mint(i), created := now, updated := now)
  {
    hide FoldOf, Ids;
    var out := FoldAll(groups, durations, cfg);
    assert out[i] == FoldGroup(groups[i], durations, cfg);
    assert WritesOf(out, mint, now)[i] == WriteOf(out[i], mint(i), now);
  }

  lemma RebuildAccepted(db: Db, out: seq<Rebuilt>, groups: seq<seq<Event>>, cfg: Config, mint: IdSource, now: Time)
    requires db.Schema() && cfg.gap >= 0 && Reconstructs(out, groups, db.LiveLog(), db.Durations(), cfg) &&
      Unrepeated(mint)
    ensures db.WritesAccepted(WritesOf(out, mint, now))
  {
    hide FoldOf, Db.Schema, IsGapPartition, IsSession, Db.LiveLog, FoldGroup, Sorted;
    var writes := WritesOf(out, mint, now);
    forall i | 0 <= i < |writes| ensures writes[i].session.media in db.media && writes[i].session.id == mint(i) {
      GroupFacts(db, out, groups, cfg, i);
      WriteAt(groups, db.Durations(), cfg, mint, now, i);
    }
  }

  // Which session a rebuild links an event to.
  lemma OwnerOf(db: Db, out: seq<Rebuilt>, groups: seq<seq<Event>>, cfg: Config, mint: IdSource, now: Time, e: Event,
                i: nat)
    requires db.Schema() && cfg.gap >= 0 && Reconstructs(out, groups, db.LiveLog(), db.Durations(), cfg)
    requires i < |groups| && e in groups[i]
    ensures Owner(WritesOf(out, mint, now), e.id) == Some(mint(i))
  {
    hide FoldOf, Db.Schema, IsGapPartition, IsSession, Db.LiveLog, FoldGroup, Sorted, WriteOf, Ids, Owner;
    GroupsDistinct(db, out, groups, cfg);
    var writes := WritesOf(out, mint, now);
    IdIn(groups[i], e.id);
    forall j | 0 <= j < |writes|
      ensures writes[j].session.id == mint(j) && (e.id in writes[j].eventIds <==> j == i)
    {
      GroupFacts(db, out, groups, cfg, j);
      WriteAt(groups, db.Durations(), cfg, mint, now, j);
      if j != i {
        GroupIdsDisjoint(groups, db.LiveLog(), cfg.gap, i, j, e);
      }
    }
    OwnerIs(writes, e.id, i);
  }

  lemma OwnerOutside(db: Db, out: seq<Rebuilt>, groups: seq<seq<Event>>, cfg: Config, mint: IdSource, now: Time,
                     id: string)
    requires db.Schema() && cfg.gap >= 0 && Reconstructs(out, groups, db.LiveLog(), db.Durations(), cfg)
    requires id in db.events && forall i | 0 <= i < |groups| :: db.events[id].event !in groups[i]
    ensures Owner(WritesOf(out, mint, now), id) == None
  {
    hide FoldOf, IsGapPartition, IsSession, FoldGroup, Sorted, WriteOf, Ids, Owner;
    var writes := WritesOf(out, mint, now);
    forall j | 0 <= j < |writes| ensures id !in writes[j].eventIds {
      GroupFacts(db, out, groups, cfg, j);
      WriteAt(groups, db.Durations(), cfg, mint, now, j);
      IdIn(groups[j], id);
      forall x | x in groups[j] ensures x.id != id {
        assert x in Elems(groups[j]) && x in db.LiveLog();
      }
    }
    OwnerNone(writes, id);
  }

  lemma RebuildLinks(db: Db, out: seq<Rebuilt>, groups: seq<seq<Event>>, cfg: Config, mint: IdSource, now: Time)
    requires db.Schema() && cfg.gap >= 0 && Reconstructs(out, groups, db.LiveLog(), db.Durations(), cfg) &&
      Unrepeated(mint)
    ensures var links := Relinked(db.events, WritesOf(out, mint, now));
      forall id | id in db.events :: links[id].event == db.events[id].event && LinkHolds(links[id], groups, mint)
  {
    hide FoldOf, Db.Schema, IsGapPartition, IsSession, Db.LiveLog, Reconstructs, Owner, WritesOf;
    var links := Relinked(db.events, WritesOf(out, mint, now));
    forall id | id in db.events ensures LinkHolds(links[id], groups, mint) {
      var e := db.events[id].event;
      assert e.id == id by { EventIds(db, id); }
      if i: nat :| i < |groups| && e in groups[i] {
        OwnerOf(db, out, groups, cfg, mint, now, e, i);
      } else {
        OwnerOutside(db, out, groups, cfg, mint, now, id);
      }
    }
  }

  lemma EventIds(db: Db, id: string)
    requires db.Schema() && id in db.events
    ensures db.events[id].event.id == id
  {
  }

  // An event is linked to the one session whose group it is in, or to none.
  ghost predicate LinkHolds(row: EventRow, groups: seq<seq<Event>>, mint: IdSource) {
    if row.session.Some? then exists i: nat :: i < |groups| && row.session.value == mint(i) && row.event in groups[i]
    else forall i: nat | i < |groups| :: row.event !in groups[i]
  }

  lemma LinkedIsGroup(db: Db, db': Db, groups: seq<seq<Event>>, mint: IdSource, i: nat)
    requires db'.events.Keys == db.events.Keys && Unrepeated(mint) && i < |groups| && db.Schema()
    requires forall id | id in db.events ::
      db'.events[id].event == db.events[id].event && LinkHolds(db'.events[id], groups, mint)
    requires Elems(groups[i]) <= db.Log()
    requires forall j: nat, e | j < |groups| && e in groups[j] && e in groups[i] :: i == j
    ensures db'.Linked(mint(i)) == Elems(groups[i])
  {
    forall e ensures e in db'.Linked(mint(i)) <==> e in Elems(groups[i]) {
      if e in db'.Linked(mint(i)) {
        var id :| id in db'.events && db'.events[id].session == Some(mint(i)) && db'.events[id].event == e;
        assert LinkHolds(db'.events[id], groups, mint);
      }
      if e in Elems(groups[i]) {
        assert e in db.Log() && e.id in db.events && db.events[e.id].event == e;
        assert LinkHolds(db'.events[e.id], groups, mint);
        assert e in groups[i];
      }
    }
  }
}
