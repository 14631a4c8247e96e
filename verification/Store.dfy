/** The repository object: each method changes the tables as its statement says. */
module Store {
  import opened Sorting
  import opened Stamps
  import opened Events
  import opened Tables

  datatype Result<+T> = Ok(value: T) | Failed

  class Repo {
    var media: map<string, MediaRow>
    var events: map<string, EventRow>
    var sessions: map<string, SessionRow>

    ghost function View(): Db
      reads this
    {
      Db(media, events, sessions)
    }

    ghost predicate Valid()
      reads this
    {
      View().Schema()
    }

    constructor ()
      ensures Valid() && View() == EMPTY_DB
    {
      media, events, sessions := map[], map[], map[];
    }

    method FindOrCreateMediaItem(m: MediaItem, newId: string) returns (id: string)
      requires Valid() && newId !in media
      modifies this`media
      ensures Valid() && View() == old(View()).FindOrCreate(m, newId)
      ensures id == old(View()).ResolvedId(m, newId) && id in media
    {
      if found :| found in media && media[found].identity == m.identity {
        id := found;
        media := media[id := Enrich(media[id], m)];
      } else {
        id := newId;
        media := media[id := NewMedia(m)];
      }
    }

    // ON CONFLICT(id) DO NOTHING; a new row must reference a media item.
    method InsertEvent(e: Event) returns (ok: bool)
      requires Valid()
      modifies this`events
      ensures Valid() && ok == (e.id in old(events) || e.media in media)
      ensures View() == if ok then old(View()).Insert(e) else old(View())
    {
      ok := e.id in events || e.media in media;
      if ok && e.id !in events {
        events := events[e.id := EventRow(e, None)];
      }
    }

    method MediaDuration(id: string) returns (r: Result<Option<int>>)
      ensures r == if id in media then Ok(View().Duration(id)) else Failed
    {
      r := if id in media then Ok(media[id].duration) else Failed;
    }

    method LatestSessionFor(k: Key) returns (r: Option<Session>)
      ensures View().IsLatest(if r.Some? then Some(r.value.id) else None, k)
      ensures r.Some? ==> r.value.id in sessions && r.value == View().SessionAt(r.value.id)
      ensures r.Some? ==>
        sessions[r.value.id] == SessionRow(k.media, r.value.kind, Some(k.instance), r.value.agg, r.value.created,
          r.value.updated, None)
    {
      r := None;
      var rest := sessions.Keys;
      while rest != {}
        invariant rest <= sessions.Keys
        invariant r.Some? ==> r.value.id in sessions && r.value == View().SessionAt(r.value.id)
        invariant r.Some? ==> View().LiveOnKey(r.value.id, k)
        invariant forall s | s in sessions && s !in rest && View().LiveOnKey(s, k) ::
          r.Some? && !StampLess(r.value.agg.ended, sessions[s].agg.ended)
      {
        var s :| s in rest;
        rest := rest - {s};
        var row := sessions[s];
        if row.media == k.media && row.instance == Some(k.instance) && row.deleted.None? {
          StampLessAsymmetric(row.agg.ended, row.agg.ended);
          if r.None? || StampLess(r.value.agg.ended, row.agg.ended) {
            NoneLater(s, k, rest, r);
            r := Some(Session(s, row.media, row.kind, k.instance, row.agg, row.created, row.updated));
          }
        }
      }
    }

    // A row that ends after the best so far also ends no earlier than all the rows it beat.
    lemma NoneLater(s: string, k: Key, rest: set<string>, r: Option<Session>)
      requires s in sessions
      requires forall x | x in sessions && x !in rest && x != s && View().LiveOnKey(x, k) ::
        r.Some? && !StampLess(r.value.agg.ended, sessions[x].agg.ended)
      requires r.Some? ==> StampLess(r.value.agg.ended, sessions[s].agg.ended)
      ensures forall x | x in sessions && x !in rest && x != s && View().LiveOnKey(x, k) ::
        !StampLess(sessions[s].agg.ended, sessions[x].agg.ended)
    {
      forall x | x in sessions && x !in rest && x != s && View().LiveOnKey(x, k)
        ensures !StampLess(sessions[s].agg.ended, sessions[x].agg.ended)
      {
        if StampLess(sessions[s].agg.ended, sessions[x].agg.ended) {
          StampLessTransitive(r.value.agg.ended, sessions[s].agg.ended, sessions[x].agg.ended);
        }
      }
    }

    method SetEventSession(eventId: string, sessionId: string)
      requires Valid()
      modifies this`events
      ensures Valid() && View() == old(View()).Link(eventId, sessionId)
    {
      if eventId in events {
        events := events[eventId := events[eventId].(session := Some(sessionId))];
      }
    }

    method EventsForSession(sessionId: string) returns (rows: seq<Event>)
      requires Valid()
      ensures TextOrdered(rows) && Elems(rows) == View().Linked(sessionId) && DistinctSeqIds(rows)
    {
      rows := [];
      var rest := events.Keys;
      while rest != {}
        invariant rest <= events.Keys && DistinctSeqIds(rows)
        invariant forall e :: e in rows <==>
          e.id in events && e.id !in rest && events[e.id] == EventRow(e, Some(sessionId))
      {
        var id :| id in rest;
        rest := rest - {id};
        if events[id].session == Some(sessionId) {
          rows := rows + [events[id].event];
        }
      }
      assert Elems(rows) == View().Linked(sessionId);
      TextSorted(rows);
      SortKeepsIds(rows);
      rows := StableSort(rows, TextLess);
    }

    // created_at and deleted_at survive an update.
    method UpsertSession(s: Session) returns (ok: bool)
      requires Valid()
      modifies this`sessions
      ensures Valid() && ok == (s.media in media)
      ensures View() == if ok then old(View()).Upsert(s) else old(View())
      ensures ok ==> sessions == old(sessions)[s.id :=
        SessionRow(s.media, s.kind, Some(s.instance), s.agg,
          if s.id in old(sessions) then old(sessions)[s.id].created else s.created, s.updated,
          if s.id in old(sessions) then old(sessions)[s.id].deleted else None)]
    {
      ok := s.media in media;
      if ok {
        var row := RowOf(s, Some(s.instance));
        if s.id in sessions {
          row := row.(created := sessions[s.id].created, deleted := sessions[s.id].deleted);
        }
        sessions := sessions[s.id := row];
      }
    }

    method AllEvents() returns (rows: seq<Event>)
      requires Valid()
      ensures TextOrdered(rows) && Elems(rows) == View().LiveLog() && DistinctSeqIds(rows)
    {
      rows := [];
      var rest := events.Keys;
      while rest != {}
        invariant rest <= events.Keys && DistinctSeqIds(rows)
        invariant forall e :: e in rows <==>
          e.id in events && e.id !in rest && events[e.id].event == e && View().Live(e.media)
      {
        var id :| id in rest;
        rest := rest - {id};
        var m := events[id].event.media;
        if m in media && media[m].deleted.None? {
          rows := rows + [events[id].event];
        }
      }
      assert Elems(rows) == View().LiveLog();
      TextSorted(rows);
      SortKeepsIds(rows);
      rows := StableSort(rows, TextLess);
    }

    // In the order of printed start and id. Fails when a row's instance is NULL: it is scanned into a plain string.
    method AllSessions() returns (r: Result<seq<Session>>)
      ensures r.Ok? <==> View().SessionsReadable()
      ensures r.Ok? ==> forall s :: s in r.value <==> s.id in View().LiveSessions() && s == View().SessionAt(s.id)
      ensures r.Ok? ==> Sorted(r.value, RowLess)
      ensures r.Ok? <==> forall id | id in sessions && sessions[id].deleted.None? :: sessions[id].instance.Some?
      ensures r.Ok? ==> forall id | id in sessions && sessions[id].deleted.None? :: View().SessionAt(id) in r.value
      ensures r.Ok? ==> forall s | s in r.value ::
        s.id in sessions && sessions[s.id] == SessionRow(s.media, s.kind, Some(s.instance), s.agg, s.created, s.updated,
          None)
    {
      var out: seq<Session> := [];
      var rest := set s | s in sessions && sessions[s].deleted.None?;
      ghost var all := rest;
      assert all == View().LiveSessions();
      while rest != {}
        invariant rest <= all
        invariant forall s | s in all - rest :: sessions[s].instance.Some?
        invariant forall s :: s in out <==> s.id in all - rest && s == View().SessionAt(s.id)
        invariant forall i, j | 0 <= i < j < |out| :: out[i].id != out[j].id
      {
        var s :| s in rest;
        var row := sessions[s];
        if row.instance.None? {
          return Failed;
        }
        ghost var was := out;
        out := out + [Session(s, row.media, row.kind, row.instance.value, row.agg, row.created, row.updated)];
        assert out[|was|] == View().SessionAt(s);
        rest := rest - {s};
      }
      RowsSorted(out);
      r := Ok(StableSort(out, RowLess));
      assert forall s :: s in r.value <==> s in Elems(out);
    }

    method AllMediaDurations() returns (durations: map<string, Option<int>>)
      ensures durations == View().Durations()
    {
      durations := map m | m in media :: media[m].duration;
    }

    // One transaction: on a duplicate id or an unknown media item nothing changes.
    method ReplaceAllSessions(writes: seq<SessionWrite>) returns (ok: bool)
      requires Valid()
      modifies this`events, this`sessions
      ensures Valid() && ok == old(View()).WritesAccepted(writes) && View() == old(View()).ReplaceAll(writes)
      ensures ok <==>
        && (forall i, j | 0 <= i < j < |writes| :: writes[i].session.id != writes[j].session.id)
        && (forall i | 0 <= i < |writes| :: writes[i].session.media in media)
      ensures !ok ==> View() == old(View())
    {
      var rows, links;
      ok, rows, links := RunWrites(View(), media.Keys, events, writes);
      if ok {
        sessions, events := rows, links;
      }
    }

    method SetDeletedAt(id: string, at: Option<Time>) returns (changed: bool)
      requires Valid()
      modifies this`media, this`sessions
      ensures Valid() && View() == old(View()).SetDeleted(id, at)
      ensures changed == (id in old(media) && (old(media)[id].deleted.None? <==> at.Some?))
    {
      changed := id in media && (media[id].deleted.None? <==> at.Some?);
      if changed {
        media := media[id := media[id].(deleted := at)];
        sessions := map s | s in sessions ::
          if sessions[s].media == id && (sessions[s].deleted.None? <==> at.Some?)
          then sessions[s].(deleted := at) else sessions[s];
      }
    }

    method SoftDeleteMedia(id: string, now: Time) returns (found: bool)
      requires Valid()
      modifies this`media, this`sessions
      ensures Valid() && View() == old(View()).SetDeleted(id, Some(now)) && found == old(View()).Live(id)
    {
      found := SetDeletedAt(id, Some(now));
    }

    method RestoreMedia(id: string)
      requires Valid()
      modifies this`media, this`sessions
      ensures Valid() && View() == old(View()).SetDeleted(id, None)
    {
      if id in media && media[id].deleted.Some? {
        var _ := SetDeletedAt(id, None);
      }
    }
  }

  lemma SortKeepsIds(s: seq<Event>)
    requires DistinctSeqIds(s)
    ensures DistinctSeqIds(StableSort(s, TextLess))
  {
    TextSorted(s);
    var t := StableSort(s, TextLess);
    forall i, j | 0 <= i < j < |t| ensures t[i].id != t[j].id {
      assert TextLess(t[i], t[j]);
      StrLessAsymmetric(t[i].id, t[i].id);
      StampLessAsymmetric(t[i].at, t[i].at);
      assert t[i] in Elems(t) && t[j] in Elems(t) && t[i] in s && t[j] in s;
    }
  }

  // The statements of the transaction after both tables have been cleared.
  method RunWrites(ghost db: Db, media: set<string>, events: map<string, EventRow>, writes: seq<SessionWrite>)
    returns (ok: bool, rows: map<string, SessionRow>, links: map<string, EventRow>)
    requires media == db.media.Keys && events == db.events
    ensures ok == db.WritesAccepted(writes)
    ensures ok ==> db.ReplaceAll(writes) == db.(sessions := rows, events := links)
    ensures ok ==> forall id | id in rows :: rows[id].media in media
  {
    rows := map[];
    links := map id | id in events :: events[id].(session := None);
    assert rows == InsertedRows(writes[..0]) && links == Relinked(events, writes[..0]);
    hide InsertedRows, Owner;
    for i := 0 to |writes|
      invariant db.WritesAccepted(writes[..i])
      invariant rows == InsertedRows(writes[..i])
      invariant links == Relinked(events, writes[..i])
    {
      var s := writes[i].session;
      assert writes[..i + 1] == writes[..i] + [writes[i]];
      AcceptStep(db, writes, i);
      RelinkedStep(events, writes[..i], writes[i]);
      if s.id in rows || s.media !in media {
        return false, rows, links;
      }
      rows := rows[s.id := RowOf(s, NullStr(s.instance))];
      links := Repoint(links, s.id, writes[i].eventIds);
    }
    assert writes[..|writes|] == writes;
    InsertedRowsMeaning(writes);
    ok := true;
  }

  // UPDATE watch_event SET session_id = ? WHERE id = ?, once per id.
  method Repoint(links: map<string, EventRow>, sessionId: string, eventIds: seq<string>)
    returns (r: map<string, EventRow>)
    ensures r == Repointed(links, sessionId, eventIds)
  {
    r := links;
    for j := 0 to |eventIds|
      invariant r == Repointed(links, sessionId, eventIds[..j])
    {
      if eventIds[j] in r {
        r := r[eventIds[j] := r[eventIds[j]].(session := Some(sessionId))];
      }
      assert eventIds[..j + 1] == eventIds[..j] + [eventIds[j]];
    }
    assert eventIds[..|eventIds|] == eventIds;
  }
}
