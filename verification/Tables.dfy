/** The three tables of the database as values, and what each statement issued against them means. */
module Tables {
  import opened Stamps
  import opened Events

  // identity_key is source_kind + ":" + external_id; a missing column is None.
  datatype MediaItem = MediaItem(identity: string, kind: string, title: string, url: string,
                                 duration: Option<int>, language: string)

  datatype MediaRow = MediaRow(identity: string, kind: string, title: Option<string>, url: Option<string>,
                               duration: Option<int>, language: Option<string>, deleted: Option<Time>)

  datatype EventRow = EventRow(event: Event, session: Option<string>)

  datatype SessionRow = SessionRow(media: string, kind: string, instance: Option<string>, agg: Agg,
                                   created: Time, updated: Time, deleted: Option<Time>)

  datatype SessionWrite = SessionWrite(session: Session, eventIds: seq<string>)

  function NullStr(s: string): Option<string> {
    if s == "" then None else Some(s)
  }

  // COALESCE(NULLIF(incoming, ''), stored): a non-empty incoming value wins.
  function LastSeen(incoming: string, stored: Option<string>): Option<string> {
    if incoming == "" then stored else Some(incoming)
  }

  // COALESCE(NULLIF(stored, ''), incoming): a non-empty stored value wins.
  function FirstSeen(stored: Option<string>, incoming: string): Option<string> {
    if stored.Some? && stored.value != "" then stored else NullStr(incoming)
  }

  function NewMedia(m: MediaItem): MediaRow {
    MediaRow(m.identity, if m.kind == "" then "unknown" else m.kind, NullStr(m.title), NullStr(m.url),
             m.duration, NullStr(m.language), None)
  }

  function Enrich(row: MediaRow, m: MediaItem): MediaRow {
    row.(title := LastSeen(m.title, row.title),
         duration := if row.duration.Some? then row.duration else m.duration,
         url := FirstSeen(row.url, m.url),
         language := LastSeen(m.language, row.language))
  }

  function RowOf(s: Session, instance: Option<string>): SessionRow {
    SessionRow(s.media, s.kind, instance, s.agg, s.created, s.updated, None)
  }

  // The rows a list of writes inserts, and the session each event is left pointing at.
  function InsertedRows(writes: seq<SessionWrite>): map<string, SessionRow> {
    if writes == [] then map[]
    else
      var s := writes[|writes| - 1].session;
      InsertedRows(writes[..|writes| - 1])[s.id := RowOf(s, NullStr(s.instance))]
  }

  function Owner(writes: seq<SessionWrite>, eventId: string): Option<string> {
    if writes == [] then None
    else if eventId in writes[|writes| - 1].eventIds then Some(writes[|writes| - 1].session.id)
    else Owner(writes[..|writes| - 1], eventId)
  }

  function Relinked(events: map<string, EventRow>, writes: seq<SessionWrite>): map<string, EventRow> {
    map id | id in events :: events[id].(session := Owner(writes, id))
  }

  function Repointed(links: map<string, EventRow>, sessionId: string, eventIds: seq<string>): map<string, EventRow> {
    map id | id in links :: if id in eventIds then links[id].(session := Some(sessionId)) else links[id]
  }

  lemma RelinkedStep(events: map<string, EventRow>, writes: seq<SessionWrite>, w: SessionWrite)
    ensures Relinked(events, writes + [w]) == Repointed(Relinked(events, writes), w.session.id, w.eventIds)
  {
    assert (writes + [w])[..|writes|] == writes;
  }

  predicate WrittenAs(w: SessionWrite, id: string, row: SessionRow) {
    w.session.id == id && row == RowOf(w.session, NullStr(w.session.instance))
  }

  lemma {:induction false} InsertedRowsMeaning(writes: seq<SessionWrite>)
    ensures forall id | id in InsertedRows(writes) ::
      exists a :: 0 <= a < |writes| && WrittenAs(writes[a], id, InsertedRows(writes)[id])
    ensures forall a | 0 <= a < |writes| :: writes[a].session.id in InsertedRows(writes)
  {
    if writes != [] {
      InsertedRowsMeaning(writes[..|writes| - 1]);
    }
  }

  predicate DistinctWrites(writes: seq<SessionWrite>) {
    forall i, j | 0 <= i < j < |writes| :: writes[i].session.id != writes[j].session.id
  }

  datatype Db = Db(media: map<string, MediaRow>, events: map<string, EventRow>, sessions: map<string, SessionRow>) {

    // What the schema guarantees: primary keys, the unique identity key, and foreign keys.
    ghost predicate Schema() {
      && (forall id, id' | id in media && id' in media && media[id].identity == media[id'].identity :: id == id')
      && (forall id | id in events :: events[id].event.id == id && events[id].event.media in media)
      && (forall id | id in sessions :: sessions[id].media in media)
    }

    // ----- media_item -----

    // The row with this identity key; the column is unique.
    ghost function MediaFor(identity: string): Option<string> {
      if exists id :: id in media && media[id].identity == identity then
        (var id :| id in media && media[id].identity == identity; Some(id))
      else None
    }

    ghost function ResolvedId(m: MediaItem, newId: string): string {
      if MediaFor(m.identity).Some? then MediaFor(m.identity).value else newId
    }

    ghost function FindOrCreate(m: MediaItem, newId: string): Db {
      var id := ResolvedId(m, newId);
      if MediaFor(m.identity).Some? then this.(media := media[id := Enrich(media[id], m)])
      else this.(media := media[id := NewMedia(m)])
    }

    predicate Live(m: string) {
      m in media && media[m].deleted.None?
    }

    function Duration(m: string): Option<int> {
      if m in media then media[m].duration else None
    }

    function Durations(): map<string, Option<int>> {
      map m | m in media :: media[m].duration
    }

    // The session rows of one item that are (not) deleted take the new deletion stamp.
    function SetDeleted(id: string, at: Option<Time>): Db {
      if id in media && (media[id].deleted.None? <==> at.Some?) then
        this.(media := media[id := media[id].(deleted := at)],
              sessions := map s | s in sessions ::
                if sessions[s].media == id && (sessions[s].deleted.None? <==> at.Some?)
                then sessions[s].(deleted := at) else sessions[s])
      else this
    }

    // ----- watch_event -----

    function Insert(e: Event): Db {
      if e.id in events then this else this.(events := events[e.id := EventRow(e, None)])
    }

    function Link(eventId: string, sessionId: string): Db {
      if eventId in events then this.(events := events[eventId := events[eventId].(session := Some(sessionId))])
      else this
    }

    function Log(): set<Event> {
      set id | id in events :: events[id].event
    }

    function Linked(sessionId: string): set<Event> {
      set id | id in events && events[id].session == Some(sessionId) :: events[id].event
    }

    // Events of items that are not deleted: what a rebuild replays.
    function LiveLog(): set<Event> {
      set id | id in events && Live(events[id].event.media) :: events[id].event
    }

    // ----- watch_session -----

    // An absent instance is NULL, and NULL equals nothing.
    predicate OnKey(sessionId: string, k: Key) {
      && sessionId in sessions
      && sessions[sessionId].media == k.media
      && sessions[sessionId].instance == Some(k.instance)
    }

    predicate LiveOnKey(sessionId: string, k: Key) {
      OnKey(sessionId, k) && sessions[sessionId].deleted.None?
    }

    // ORDER BY ended_at DESC LIMIT 1 compares printed times and leaves ties open.
    ghost predicate IsLatest(r: Option<string>, k: Key) {
      match r
      case None => forall s | s in sessions :: !LiveOnKey(s, k)
      case Some(id) =>
        LiveOnKey(id, k) &&
        forall s | s in sessions && LiveOnKey(s, k) :: !StampLess(sessions[id].agg.ended, sessions[s].agg.ended)
    }

    function Upsert(s: Session): Db {
      var row := RowOf(s, Some(s.instance));
      this.(sessions := sessions[s.id :=
        if s.id in sessions then row.(created := sessions[s.id].created, deleted := sessions[s.id].deleted) else row])
    }

    function SessionAt(id: string): Session
      requires id in sessions
    {
      var r := sessions[id];
      Session(id, r.media, r.kind, if r.instance.Some? then r.instance.value else "", r.agg, r.created, r.updated)
    }

    function LiveSessions(): set<string> {
      set s | s in sessions && sessions[s].deleted.None?
    }

    // AllSessions scans source_instance into a string, which fails on NULL.
    predicate SessionsReadable() {
      forall s | s in LiveSessions() :: sessions[s].instance.Some?
    }

    predicate WritesAccepted(writes: seq<SessionWrite>) {
      DistinctWrites(writes) && forall i | 0 <= i < |writes| :: writes[i].session.media in media
    }

    // All rows replaced and all links redrawn, or nothing at all.
    function ReplaceAll(writes: seq<SessionWrite>): Db {
      if WritesAccepted(writes) then
        this.(sessions := InsertedRows(writes),
              events := Relinked(events, writes))
      else this
    }
  }

  // ----- every statement respects the schema -----

  lemma FindOrCreateSchema(db: Db, m: MediaItem, newId: string)
    requires db.Schema() && newId !in db.media
    ensures db.FindOrCreate(m, newId).Schema() && db.ResolvedId(m, newId) in db.FindOrCreate(m, newId).media
  {
  }

  lemma SetDeletedSchema(db: Db, id: string, at: Option<Time>)
    requires db.Schema()
    ensures db.SetDeleted(id, at).Schema()
  {
  }

  lemma InsertSchema(db: Db, e: Event)
    requires db.Schema() && e.media in db.media
    ensures db.Insert(e).Schema()
  {
  }

  // One write more: refused when its id is taken or its media item unknown.
  lemma AcceptStep(db: Db, writes: seq<SessionWrite>, i: nat)
    requires i < |writes| && db.WritesAccepted(writes[..i])
    ensures var s, rows := writes[i].session, InsertedRows(writes[..i]);
      && InsertedRows(writes[..i + 1]) == rows[s.id := RowOf(s, NullStr(s.instance))]
      && db.WritesAccepted(writes[..i + 1]) == (s.id !in rows && s.media in db.media)
      && (s.id in rows || s.media !in db.media ==> !db.WritesAccepted(writes))
  {
    InsertedRowsMeaning(writes[..i]);
    assert writes[..i + 1][..i] == writes[..i] && writes[..i + 1][i] == writes[i];
    var s, rows := writes[i].session, InsertedRows(writes[..i]);
    assert InsertedRows(writes[..i + 1]) == rows[s.id := RowOf(s, NullStr(s.instance))];
    hide InsertedRows, NullStr, RowOf;
    if s.id in rows {
      var a :| 0 <= a < i && WrittenAs(writes[..i][a], s.id, rows[s.id]);
      assert writes[a].session.id == s.id;
    }
  }

  const EMPTY_DB := Db(map[], map[], map[])
}
