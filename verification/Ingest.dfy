/** From one decoded message to the tables, and from a batch of them to one answer. */
module Ingest {
  import opened Stamps
  import opened Events
  import opened Folding
  import opened Tables
  import opened Store
  import opened Sessionize

  // One raw event after JSON decoding; Garbled is anything that does not decode.
  datatype Incoming = Garbled | Incoming(v: int, eventId: string, typ: string, at: Time, kind: string,
                                         instance: string, externalId: string, mediaKind: string, title: string,
                                         url: string, duration: Option<int>, language: string, pos: Option<real>)

  datatype Verdict = Accepted | UnsupportedVersion | Invalid

  const VERSION := 1
  const MAX_POSITION: real := 2592000.0

  function TypeNamed(name: string): Option<EventType> {
    match name
    case "start" => Some(Start)
    case "progress" => Some(Progress)
    case "pause" => Some(Pause)
    case "resume" => Some(Resume)
    case "stop" => Some(Stop)
    case "seek" => Some(Seek)
    case _ => None
  }

  function Parse(raw: Incoming): Verdict {
    if raw.Garbled? then Invalid
    else if raw.v != VERSION then UnsupportedVersion
    else if raw.eventId == "" || TypeNamed(raw.typ).None? || raw.kind == "" || raw.externalId == "" ||
      raw.at == ZERO_TIME
    then Invalid
    else Accepted
  }

  function ClampPosition(p: Option<real>): Option<real> {
    if p.None? then None
    else if p.value < 0.0 then Some(0.0)
    else if p.value > MAX_POSITION then Some(MAX_POSITION)
    else p
  }

  function ToMediaItem(raw: Incoming): MediaItem
    requires raw.Incoming?
  {
    MediaItem(raw.kind + ":" + raw.externalId, if raw.mediaKind == "" then "unknown" else raw.mediaKind,
              raw.title, raw.url, raw.duration, raw.language)
  }

  function ToEvent(raw: Incoming, mediaId: string): Event
    requires Parse(raw) == Accepted
  {
    Event(raw.eventId, mediaId, raw.kind, raw.instance, TypeNamed(raw.typ).value, ClampPosition(raw.pos), raw.at)
  }

  // The fresh ids and the clock reading one call may use.
  datatype Mint = Mint(mediaId: string, sessionId: string, now: Time)

  // The tables when Assign is called: item resolved and live, event logged.
  ghost function Logged(db: Db, raw: Incoming, mint: Mint): Db
    requires Parse(raw) == Accepted
  {
    var m := ToMediaItem(raw);
    var id := db.ResolvedId(m, mint.mediaId);
    db.FindOrCreate(m, mint.mediaId).SetDeleted(id, None).Insert(ToEvent(raw, id))
  }

  ghost function EventFor(db: Db, raw: Incoming, mint: Mint): Event
    requires Parse(raw) == Accepted
  {
    ToEvent(raw, db.ResolvedId(ToMediaItem(raw), mint.mediaId))
  }

  lemma LoggedSchema(db: Db, raw: Incoming, mint: Mint)
    requires db.Schema() && mint.mediaId !in db.media && Parse(raw) == Accepted
    ensures Logged(db, raw, mint).Schema()
    ensures EventFor(db, raw, mint).media in Logged(db, raw, mint).media
  {
    hide Db.Schema, Db.FindOrCreate, Db.ResolvedId;
    var m := ToMediaItem(raw);
    var id := db.ResolvedId(m, mint.mediaId);
    FindOrCreateSchema(db, m, mint.mediaId);
    SetDeletedSchema(db.FindOrCreate(m, mint.mediaId), id, None);
    InsertSchema(db.FindOrCreate(m, mint.mediaId).SetDeleted(id, None), ToEvent(raw, id));
  }

  // No id but the minted ones comes into use.
  lemma LoggedKeys(db: Db, raw: Incoming, mint: Mint)
    requires Parse(raw) == Accepted
    ensures Logged(db, raw, mint).media.Keys <= db.media.Keys + {mint.mediaId}
    ensures Logged(db, raw, mint).sessions.Keys == db.sessions.Keys
  {
    hide Parse;
  }

  ghost predicate Processed(db: Db, raw: Incoming, cfg: Config, mint: Mint, db': Db)
    requires db.Schema() && mint.mediaId !in db.media
  {
    if Parse(raw) != Accepted then db' == db
    else
      LoggedSchema(db, raw, mint);
      Assigned(Logged(db, raw, mint), EventFor(db, raw, mint), cfg, mint.sessionId, mint.now, db')
  }

  // ----- what is stored of a message, column by column -----

  // A type as collectors write it.
  function NameOf(typ: EventType): string {
    match typ
    case Start => "start"
    case Progress => "progress"
    case Pause => "pause"
    case Resume => "resume"
    case Stop => "stop"
    case Seek => "seek"
  }

  // The event is the message: its type under its name, its position or the nearer end of the thirty days allowed.
  ghost predicate StoredAs(e: Event, raw: Incoming)
    requires raw.Incoming?
  {
    && e.id == raw.eventId && e.kind == raw.kind && e.instance == raw.instance && e.at == raw.at
    && NameOf(e.typ) == raw.typ
    && (raw.pos.None? ==> e.pos.None?)
    && (raw.pos.Some? && raw.pos.value < 0.0 ==> e.pos == Some(0.0))
    && (raw.pos.Some? && 0.0 <= raw.pos.value <= 2592000.0 ==> e.pos == raw.pos)
    && (raw.pos.Some? && raw.pos.value > 2592000.0 ==> e.pos == Some(2592000.0))
  }

  // A new item is the message's; of a known one, the message replaces the title and the language if it has them,
  // and fills in what is missing of the rest.
  ghost predicate ItemShows(before: Option<MediaRow>, row: MediaRow, raw: Incoming)
    requires raw.Incoming?
  {
    && row.identity == raw.kind + ":" + raw.externalId && row.deleted.None?
    && match before
       case None =>
         && row.kind == (if raw.mediaKind == "" then "unknown" else raw.mediaKind) && row.duration == raw.duration
         && TextOf(row.title) == raw.title && TextOf(row.url) == raw.url && TextOf(row.language) == raw.language
         && row.title != Some("") && row.url != Some("") && row.language != Some("")
       case Some(was) =>
         && row.kind == was.kind && row.duration == (if was.duration.Some? then was.duration else raw.duration)
         && TextOf(row.title) == (if raw.title != "" then raw.title else TextOf(was.title))
         && TextOf(row.language) == (if raw.language != "" then raw.language else TextOf(was.language))
         && TextOf(row.url) == (if TextOf(was.url) != "" then TextOf(was.url) else raw.url)
  }

  function TextOf(column: Option<string>): string {
    if column.Some? then column.value else ""
  }

  ghost predicate ItemStored(db: Db, raw: Incoming, id: string, db': Db)
    requires raw.Incoming?
  {
    && db'.media.Keys == db.media.Keys + {id} && (forall x | x in db.media && x != id :: db'.media[x] == db.media[x])
    && (forall x | x in db.media && db.media[x].identity == raw.kind + ":" + raw.externalId :: x == id)
    && ItemShows(if id in db.media then Some(db.media[id]) else None, db'.media[id], raw)
  }

  ghost predicate EventStored(db: Db, raw: Incoming, id: string, db': Db)
    requires raw.Incoming?
  {
    && db'.events.Keys == db.events.Keys + {raw.eventId}
    && (forall x | x in db.events && x != raw.eventId :: db'.events[x] == db.events[x])
    && var e := db'.events[raw.eventId].event;
      if raw.eventId in db.events then e == db.events[raw.eventId].event else StoredAs(e, raw) && e.media == id
  }

  /** A message is accepted exactly when it has the one version there is, an id, a source, an external id and a time,
      and names one of the six types. */
  lemma ParseMeaning(raw: Incoming)
    ensures Parse(raw) == Accepted <==>
      && raw.Incoming? && raw.v == 1 && raw.eventId != "" && raw.kind != "" && raw.externalId != "" && raw.at != 0
      && exists typ :: NameOf(typ) == raw.typ
    ensures Parse(raw) == UnsupportedVersion <==> raw.Incoming? && raw.v != 1
  {
    if raw.Incoming? {
      TypesHaveNames(raw.typ);
      hide TypeNamed, NameOf;
    }
  }

  lemma TypesHaveNames(name: string)
    ensures TypeNamed(name).Some? <==> exists typ :: NameOf(typ) == name
    ensures TypeNamed(name).Some? ==> NameOf(TypeNamed(name).value) == name
  {
    forall typ ensures TypeNamed(NameOf(typ)) == Some(typ) {
    }
  }

  lemma EventIsMessage(raw: Incoming, id: string)
    requires Parse(raw) == Accepted
    ensures raw.Incoming? && StoredAs(ToEvent(raw, id), raw) && ToEvent(raw, id).media == id
  {
    TypesHaveNames(raw.typ);
    hide TypeNamed, NameOf;
  }

  lemma EnrichedShows(row: MediaRow, raw: Incoming)
    requires raw.Incoming? && row.identity == raw.kind + ":" + raw.externalId
    ensures ItemShows(Some(row), Enrich(row, ToMediaItem(raw)).(deleted := None), raw)
  {
  }

  lemma NewShows(raw: Incoming)
    requires raw.Incoming?
    ensures ItemShows(None, NewMedia(ToMediaItem(raw)), raw) && NewMedia(ToMediaItem(raw)).deleted == None
  {
  }

  lemma ResolvedItem(db: Db, m: MediaItem, newId: string)
    requires db.Schema() && newId !in db.media
    ensures var id, media := db.ResolvedId(m, newId), db.FindOrCreate(m, newId).media;
      && media.Keys == db.media.Keys + {id} && (forall x | x in db.media && x != id :: media[x] == db.media[x])
      && (forall x | x in db.media && db.media[x].identity == m.identity :: x == id)
      && media[id] == (if id in db.media then Enrich(db.media[id], m) else NewMedia(m))
      && (id in db.media ==> db.media[id].identity == m.identity)
  {
    hide Enrich, NewMedia;
  }

  lemma RevivedItem(a: Db, id: string)
    requires id in a.media
    ensures var media := a.SetDeleted(id, None).media;
      && media.Keys == a.media.Keys && media[id] == a.media[id].(deleted := None)
      && forall x | x in a.media && x != id :: media[x] == a.media[x]
  {
  }

  lemma ItemIsStored(db: Db, raw: Incoming, newId: string)
    requires db.Schema() && newId !in db.media && Parse(raw) == Accepted
    ensures var m := ToMediaItem(raw); var id := db.ResolvedId(m, newId);
      ItemStored(db, raw, id, db.FindOrCreate(m, newId).SetDeleted(id, None))
  {
    var m := ToMediaItem(raw);
    var id := db.ResolvedId(m, newId);
    ResolvedItem(db, m, newId);
    RevivedItem(db.FindOrCreate(m, newId), id);
    if id in db.media {
      EnrichedShows(db.media[id], raw);
    } else {
      NewShows(raw);
    }
    hide Parse, Db.FindOrCreate, Db.SetDeleted, Db.ResolvedId, ItemShows, Enrich, NewMedia, Db.Schema;
  }

  lemma AssignedStores(l: Db, e: Event, cfg: Config, newId: string, now: Time, l': Db)
    requires l.Schema() && Assigned(l, e, cfg, newId, now, l')
    ensures l'.media == l.media && l'.events.Keys == l.events.Keys
    ensures forall x | x in l.events :: l'.events[x].event == l.events[x].event
    ensures forall x | x in l.events && x != e.id :: l'.events[x] == l.events[x]
  {
    hide FoldSet, Db.IsLatest, Db.Linked, Target;
  }

  /** Whatever the tables hold: processing an accepted message stores it as it was sent, and shows what it says of its
      item; a known event is not stored again, and no other event or item is touched. */
  lemma ProcessedStores(db: Db, raw: Incoming, cfg: Config, mint: Mint, db': Db)
    requires db.Schema() && mint.mediaId !in db.media && Parse(raw) == Accepted && Processed(db, raw, cfg, mint, db')
    ensures raw.Incoming?
    ensures var id := EventFor(db, raw, mint).media; ItemStored(db, raw, id, db') && EventStored(db, raw, id, db')
  {
    hide Parse, EventFor, Logged, Assigned, ItemShows, StoredAs, EventStored, Db.Schema, Db.FindOrCreate, Db.SetDeleted,
      Db.ResolvedId;
    LoggedSchema(db, raw, mint);
    var e, l := EventFor(db, raw, mint), Logged(db, raw, mint);
    LoggedTables(db, raw, mint);
    EventIsMessage(raw, e.media);
    ItemIsStored(db, raw, mint.mediaId);
    AssignedStores(l, e, cfg, mint.sessionId, mint.now, db');
    StoredStays(db, raw, e, l, db');
  }

  lemma StoredStays(db: Db, raw: Incoming, e: Event, l: Db, l': Db)
    requires raw.Incoming? && e.id == raw.eventId && StoredAs(e, raw) && ItemStored(db, raw, e.media, l)
    requires l.events == db.events[e.id := if e.id in db.events then db.events[e.id] else EventRow(e, None)]
    requires l'.media == l.media && l'.events.Keys == l.events.Keys
    requires forall x | x in l.events :: l'.events[x].event == l.events[x].event
    requires forall x | x in l.events && x != e.id :: l'.events[x] == l.events[x]
    ensures ItemStored(db, raw, e.media, l') && EventStored(db, raw, e.media, l')
  {
    hide ItemShows, StoredAs;
  }

  lemma LoggedTables(db: Db, raw: Incoming, mint: Mint)
    requires Parse(raw) == Accepted
    ensures var e, l, m := EventFor(db, raw, mint), Logged(db, raw, mint), ToMediaItem(raw);
      && e == ToEvent(raw, e.media) && e.id == raw.eventId && e.media == db.ResolvedId(m, mint.mediaId)
      && l.media == db.FindOrCreate(m, mint.mediaId).SetDeleted(e.media, None).media
      && l.events == db.events[e.id := if e.id in db.events then db.events[e.id] else EventRow(e, None)]
  {
    hide Parse, Enrich, NewMedia;
    var e := EventFor(db, raw, mint);
    assert e.id in db.events ==> db.events[e.id := db.events[e.id]] == db.events;
  }

  class Pipeline {
    const repo: Repo
    const sess: Sessionizer

    constructor (repo: Repo, sess: Sessionizer)
      requires sess.repo == repo
      ensures this.repo == repo && this.sess == sess
    {
      this.repo, this.sess := repo, sess;
    }

    method Process(raw: Incoming, mint: Mint) returns (verdict: Verdict)
      requires repo.Valid() && sess.repo == repo
      requires mint.mediaId !in repo.media && mint.sessionId !in repo.sessions
      modifies repo
      ensures repo.Valid() && verdict == Parse(raw)
      ensures Processed(old(repo.View()), raw, sess.cfg, mint, repo.View())
      ensures verdict == Accepted ==>
        exists id :: ItemStored(old(repo.View()), raw, id, repo.View()) &&
          EventStored(old(repo.View()), raw, id, repo.View())
      ensures repo.media.Keys <= old(repo.media.Keys) + {mint.mediaId}
      ensures repo.sessions.Keys <= old(repo.sessions.Keys) + {mint.sessionId}
    {
      verdict := Parse(raw);
      if verdict != Accepted {
        return;
      }
      ghost var db := repo.View();
      LoggedKeys(db, raw, mint);
      hide Parse, Assigned, Db.Schema, ItemStored, EventStored;
      var mediaId := repo.FindOrCreateMediaItem(ToMediaItem(raw), mint.mediaId);
      repo.RestoreMedia(mediaId);
      var stored := ToEvent(raw, mediaId);
      var _ := repo.InsertEvent(stored);
      assert repo.View() == Logged(db, raw, mint);
      var _ := sess.Assign(stored, mint.sessionId, mint.now);
      ProcessedStores(db, raw, sess.cfg, mint, repo.View());
    }

    /** A batch is processed in order up to its first bad event; what came before that stays committed. */
    method HandleBatch(items: seq<Incoming>, mints: seq<Mint>)
      returns (verdict: Verdict, done: nat, ghost states: seq<Db>)
      requires repo.Valid() && sess.repo == repo && |mints| == |items|
      requires UnusedFrom(mints, 0, repo.media.Keys, repo.sessions.Keys)
      modifies repo
      ensures repo.Valid() && done <= |items| && |states| == done + 1
      ensures states[0] == old(repo.View()) && states[done] == repo.View()
      ensures forall i | 0 <= i < done ::
        Parse(items[i]) == Accepted && BatchStep(states[i], items[i], sess.cfg, mints[i], states[i + 1])
      ensures verdict == if done < |items| then Parse(items[done]) else Accepted
      ensures done < |items| <==> verdict != Accepted
    {
      hide BatchStep, Parse, Db.Schema, UnusedFrom, Processed;
      states, done := [repo.View()], 0;
      while done < |items|
        invariant 0 <= done <= |items| && |states| == done + 1 && repo.Valid()
        invariant states[0] == old(repo.View()) && states[done] == repo.View()
        invariant forall i | 0 <= i < done ::
          Parse(items[i]) == Accepted && BatchStep(states[i], items[i], sess.cfg, mints[i], states[i + 1])
        invariant UnusedFrom(mints, done, repo.media.Keys, repo.sessions.Keys)
      {
        ghost var mediaIds, sessionIds := repo.media.Keys, repo.sessions.Keys;
        UnusedNext(mints, done, mediaIds, sessionIds);
        verdict := Process(items[done], mints[done]);
        if verdict != Accepted {
          RefusedChangesNothing(states[done], items[done], sess.cfg, mints[done], repo.View());
          return;
        }
        assert BatchStep(states[done], items[done], sess.cfg, mints[done], repo.View()) by {
          IsBatchStep(states[done], items[done], sess.cfg, mints[done], repo.View());
        }
        states := states + [repo.View()];
        UnusedShrinks(mints, done + 1, mediaIds + {mints[done].mediaId}, sessionIds + {mints[done].sessionId},
                      repo.media.Keys, repo.sessions.Keys);
        done := done + 1;
      }
      verdict := Accepted;
    }
  }

  lemma RefusedChangesNothing(db: Db, raw: Incoming, cfg: Config, mint: Mint, db': Db)
    requires db.Schema() && mint.mediaId !in db.media && Processed(db, raw, cfg, mint, db') && Parse(raw) != Accepted
    ensures db' == db
  {
  }

  // The ids from position k on are distinct and not in use.
  ghost predicate UnusedFrom(mints: seq<Mint>, k: nat, media: set<string>, sessions: set<string>) {
    && (forall i | k <= i < |mints| :: mints[i].mediaId !in media && mints[i].sessionId !in sessions)
    && (forall i, j | k <= i < j < |mints| ::
      mints[i].mediaId != mints[j].mediaId && mints[i].sessionId != mints[j].sessionId)
  }

  lemma UnusedNext(mints: seq<Mint>, k: nat, media: set<string>, sessions: set<string>)
    requires UnusedFrom(mints, k, media, sessions) && k < |mints|
    ensures mints[k].mediaId !in media && mints[k].sessionId !in sessions
    ensures UnusedFrom(mints, k + 1, media + {mints[k].mediaId}, sessions + {mints[k].sessionId})
  {
  }

  lemma UnusedShrinks(mints: seq<Mint>, k: nat, media: set<string>, sessions: set<string>,
                      media': set<string>, sessions': set<string>)
    requires UnusedFrom(mints, k, media, sessions) && media' <= media && sessions' <= sessions
    ensures UnusedFrom(mints, k, media', sessions')
  {
  }

  ghost predicate BatchStep(db: Db, raw: Incoming, cfg: Config, mint: Mint, db': Db) {
    db.Schema() && mint.mediaId !in db.media && mint.sessionId !in db.sessions && Processed(db, raw, cfg, mint, db')
  }

  lemma IsBatchStep(db: Db, raw: Incoming, cfg: Config, mint: Mint, db': Db)
    requires db.Schema() && mint.mediaId !in db.media && mint.sessionId !in db.sessions
    requires Processed(db, raw, cfg, mint, db')
    ensures BatchStep(db, raw, cfg, mint, db')
  {
  }
}
