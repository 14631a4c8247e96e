/** Live sessionization: one event at a time, against the tables. */
module Sessionize {
  import opened Stamps
  import opened Events
  import opened Folding
  import opened Partition
  import opened Tables
  import opened Store

  // Events in the log have distinct ids, and so does every part of it.
  lemma LogIds(db: Db, S: set<Event>)
    requires db.Schema() && S <= db.Log()
    ensures DistinctIds(S)
  {
  }

  lemma LinkedIds(db: Db, sid: string)
    requires db.Schema()
    ensures DistinctIds(db.Linked(sid))
  {
    LogIds(db, db.Linked(sid));
  }

  // The session an event joins when the newest one on its key is `latest`.
  function Target(db: Db, e: Event, latest: Option<string>, gap: int, newId: string): string
    requires latest.Some? ==> latest.value in db.sessions
  {
    if latest.Some? && !OpensNewSession(db.sessions[latest.value].agg.ended, e.at, gap) then latest.value else newId
  }

  /** The tables after assigning e: it is linked to its target, which is folded again from its links. */
  ghost function AssignWith(db: Db, e: Event, latest: Option<string>, cfg: Config, newId: string, now: Time): Db
    requires db.Schema() && db.IsLatest(latest, e.KeyOf())
  {
    var sid := Target(db, e, latest, cfg.gap, newId);
    var linked := db.Link(e.id, sid);
    LinkedIds(linked, sid);
    var agg := FoldSet(linked.Linked(sid), linked.Duration(e.media), cfg);
    var created := if sid in db.sessions then db.sessions[sid].created else now;
    linked.Upsert(Session(sid, e.media, e.kind, e.instance, agg, created, now))
  }

  // Which of several rows tied for the latest printed end is found is up to the database.
  ghost predicate Assigned(db: Db, e: Event, cfg: Config, newId: string, now: Time, db': Db)
    requires db.Schema()
  {
    exists latest: Option<string> :: db.IsLatest(latest, e.KeyOf()) && db' == AssignWith(db, e, latest, cfg, newId, now)
  }

  class Sessionizer {
    const repo: Repo
    const cfg: Config

    constructor (repo: Repo, cfg: Config)
      ensures this.repo == repo && this.cfg == cfg
    {
      this.repo, this.cfg := repo, cfg;
    }

    method Assign(e: Event, newId: string, now: Time) returns (r: Result<string>)
      requires repo.Valid() && newId !in repo.sessions
      modifies repo
      ensures repo.Valid() && r.Ok? == (e.media in old(repo.media))
      ensures repo.media == old(repo.media) && repo.sessions.Keys <= old(repo.sessions.Keys) + {newId}
      ensures r.Ok? ==> Assigned(old(repo.View()), e, cfg, newId, now, repo.View())
      ensures r.Ok? && e.id in old(repo.events) ==> repo.events[e.id].session == Some(r.value)
    {
      ghost var db := repo.View();
      var latest := repo.LatestSessionFor(e.KeyOf());
      ghost var found: Option<string> := if latest.Some? then Some(latest.value.id) else None;
      var sessionId, created := newId, now;
      if latest.Some? && !OpensNewSession(latest.value.agg.ended, e.at, cfg.gap) {
        sessionId, created := latest.value.id, latest.value.created;
      }
      assert sessionId == Target(db, e, found, cfg.gap, newId);
      repo.SetEventSession(e.id, sessionId);
      var events := repo.EventsForSession(sessionId);
      var duration := repo.MediaDuration(e.media);
      if duration.Failed? {
        return Failed;
      }
      var agg := Fold(events, duration.value, cfg);
      LinkedIds(repo.View(), sessionId);
      FoldOfRows(events, repo.View().Linked(sessionId), duration.value, cfg);
      var _ := repo.UpsertSession(Session(sessionId, e.media, e.kind, e.instance, agg, created, now));
      assert repo.View() == AssignWith(db, e, found, cfg, newId, now);
      r := Ok(sessionId);
    }
  }
}
