/** Where the code does less than its documentation says: one concrete run for each. */
module Counterexamples {
  import opened Sorting
  import opened Stamps
  import opened Events
  import opened Folding
  import opened Partition
  import opened Tables
  import opened Sessionize
  import opened Ingest
  import opened Invariants
  import opened Steps
  import opened Refinement
  import opened Retries
  import opened Rebuild
  import opened Healing

  // One item, watched to position 100 in one session and opened again in another, a gap later.
  const FIRST := Event("a", "m", "k", "i", Start, Some(100.0), SECOND)

  function Second(gap: int): Event {
    Event("b", "m", "k", "i", Start, None, 2 * SECOND + gap)
  }

  function RowFor(e: Event): SessionRow {
    SessionRow("m", "k", Some(e.instance), Agg(e.at, e.at, 0, Position(e), false, 1), 0, 0, None)
  }

  function Item(duration: Option<int>): MediaRow {
    MediaRow("k:x", "unknown", None, None, duration, None, None)
  }

  function TwoSessions(gap: int): Db {
    Db(map["m" := Item(None)],
       map["a" := EventRow(FIRST, Some("s")), "b" := EventRow(Second(gap), Some("t"))],
       map["s" := RowFor(FIRST), "t" := RowFor(Second(gap))])
  }

  const MINT := Ingest.Mint("m2", "u", 0)

  lemma FoldOfOne(e: Event, cfg: Config)
    ensures DistinctIds({e}) && FoldSet({e}, None, cfg) == Agg(e.at, e.at, 0, Position(e), false, 1)
  {
    assert Ordered([e]) && Elems([e]) == {e};
    ArrangeUnique([e], {e});
    assert MaxPosition([e]) == Position(e) by {
      assert [e][..0] == [];
    }
    assert Watched([e], 2 * cfg.cadence) == 0;
  }

  lemma TwoSessionsLinks(gap: int)
    ensures TwoSessions(gap).Schema()
    ensures TwoSessions(gap).Linked("s") == {FIRST} && TwoSessions(gap).Linked("t") == {Second(gap)}
  {
    var db := TwoSessions(gap);
    assert db.events.Keys == {"a", "b"};
    assert db.events["a"] == EventRow(FIRST, Some("s")) && db.events["b"] == EventRow(Second(gap), Some("t"));
    assert "a" in db.events && "b" in db.events;
  }

  lemma TwoSessionsFold(cfg: Config, s: string)
    requires s in {"s", "t"}
    ensures TwoSessions(cfg.gap).Schema() && Folds(TwoSessions(cfg.gap), s, cfg)
  {
    TwoSessionsLinks(cfg.gap);
    var db := TwoSessions(cfg.gap);
    var e := if s == "s" then FIRST else Second(cfg.gap);
    LinkedIds(db, s);
    FoldOfOne(e, cfg);
    FoldIsCore({e}, None, cfg);
  }

  lemma TwoSessionsSound(cfg: Config)
    requires cfg.gap >= SECOND
    ensures Sound(TwoSessions(cfg.gap), cfg)
  {
    var db := TwoSessions(cfg.gap);
    TwoSessionsLinks(cfg.gap);
    assert db.events.Keys == {"a", "b"} && db.sessions.Keys == {"s", "t"};
    assert NewestFold(db, cfg) by {
      hide Folds;
      forall x | Newest(db, x) ensures Folds(db, x, cfg) {
        TwoSessionsFold(cfg, x);
      }
    }
    hide Db.Linked, NewestFold;
  }

  // Everything a delivery of a known event finds in these tables.
  function Again(id: string, at: Time, duration: Option<int>, pos: Option<real>): Incoming {
    Incoming(1, id, "start", at, "k", "i", "x", "", "", "", duration, "", pos)
  }

  lemma Resolves(gap: int)
    ensures TwoSessions(gap).MediaFor("k:x") == Some("m")
  {
    var db := TwoSessions(gap);
    assert db.media.Keys == {"m"} && "m" in db.media && db.media["m"].identity == "k:x";
  }

  // The two rows, the second of which still ends last.
  predicate SecondLast(db: Db, gap: int) {
    && db.sessions.Keys == {"s", "t"} && db.sessions["s"] == RowFor(FIRST) && db.LiveOnKey("t", Key("m", "i"))
    && db.sessions["t"].agg.ended == 2 * SECOND + gap
  }

  lemma LatestIsSecond(db: Db, gap: int)
    requires SecondLast(db, gap) && gap >= SECOND
    ensures db.IsLatest(Some("t"), Key("m", "i"))
  {
    hide StampLess, SameStamp;
    StampOrderBeyondASecond(SECOND, 2 * SECOND + gap);
    StampLessAsymmetric(2 * SECOND + gap, 2 * SECOND + gap);
    forall s | s in db.sessions && db.LiveOnKey(s, Key("m", "i"))
      ensures !StampLess(db.sessions["t"].agg.ended, db.sessions[s].agg.ended)
    {
      assert s == "s" || s == "t";
    }
  }

  // What joining the second session leaves alone.
  lemma JoiningSecond(l: Db, e: Event, cfg: Config)
    requires cfg.gap >= SECOND && l.Schema() && l.sessions == TwoSessions(cfg.gap).sessions
    requires e.KeyOf() == Key("m", "i") && e.at <= 2 * SECOND + cfg.gap
    ensures l.IsLatest(Some("t"), e.KeyOf())
    ensures var db' := AssignWith(l, e, Some("t"), cfg, MINT.sessionId, MINT.now);
      && db'.media == l.media && db'.events == l.Link(e.id, "t").events
      && db'.sessions.Keys == l.sessions.Keys && db'.sessions["s"] == l.sessions["s"]
  {
    LatestIsSecond(l, cfg.gap);
    hide FoldSet, Db.IsLatest;
  }

  // Deliver the first event once more.
  lemma RetryFinds(cfg: Config)
    requires cfg.gap >= SECOND
    ensures var db, raw := TwoSessions(cfg.gap), Again("a", SECOND, None, Some(100.0));
      && Parse(raw) == Accepted && Unused(db, MINT) && EventFor(db, raw, MINT) == FIRST && Logged(db, raw, MINT) == db
  {
    var db, raw := TwoSessions(cfg.gap), Again("a", SECOND, None, Some(100.0));
    Resolves(cfg.gap);
    assert ToMediaItem(raw).identity == "k:x";
    assert db.events.Keys == {"a", "b"} && db.sessions.Keys == {"s", "t"};
    assert Enrich(db.media["m"], ToMediaItem(raw)) == db.media["m"];
    assert db.FindOrCreate(ToMediaItem(raw), "m2") == db;
  }

  lemma SecondHasFirst(gap: int)
    ensures "s" in TwoSessions(gap).sessions
  {
  }

  // A delivery may take any session the query may find.
  lemma DeliversTo(db: Db, raw: Incoming, cfg: Config, mint: Ingest.Mint, latest: Option<string>)
    requires db.Schema() && Unused(db, mint) && Parse(raw) == Accepted && Repeats(db, EventFor(db, raw, mint))
    requires Logged(db, raw, mint).Schema() && Logged(db, raw, mint).IsLatest(latest, EventFor(db, raw, mint).KeyOf())
    ensures Delivers(db, raw, cfg, mint,
      AssignWith(Logged(db, raw, mint), EventFor(db, raw, mint), latest, cfg, mint.sessionId, mint.now))
  {
    hide Parse, Logged, EventFor, Repeats, FoldSet, Db.IsLatest, AssignWith, Db.Schema;
    var l, e := Logged(db, raw, mint), EventFor(db, raw, mint);
    assert Assigned(l, e, cfg, mint.sessionId, mint.now, AssignWith(l, e, latest, cfg, mint.sessionId, mint.now));
  }

  /** Re-sending an event is not always a no-op: once a newer session has opened on its key, a retry takes
      the event out of its session and puts it into the newer one, and leaves the old row counting it. */
  lemma RetryStealsAnEvent(cfg: Config) returns (db: Db, raw: Incoming, db': Db)
    requires cfg.gap >= SECOND
    ensures Sound(db, cfg) && Delivers(db, raw, cfg, MINT, db') && !NothingMoved(db, db')
    ensures raw.Incoming? && raw.eventId in db.events && db.events[raw.eventId].session == Some("s")
    ensures db'.events[raw.eventId].session == Some("t") && db'.Linked("s") == {} && db'.sessions["s"].agg.count == 1
  {
    db, raw := TwoSessions(cfg.gap), Again("a", SECOND, None, Some(100.0));
    TwoSessionsSound(cfg);
    assert db.Schema();
    hide Sound, FoldSet, Db.Schema, Parse, Logged, EventFor, Unused, Db.IsLatest, AssignWith, Delivers;
    RetryFinds(cfg);
    JoiningSecond(db, FIRST, cfg);
    DeliversTo(db, raw, cfg, MINT, Some("t"));
    db' := AssignWith(db, FIRST, Some("t"), cfg, MINT.sessionId, MINT.now);
    assert db'.events["a"].session == Some("t") && db'.events["b"].session == Some("t") &&
      db'.events.Keys == {"a", "b"};
  }

  // Deliver a third event, into the second session, that brings the duration.
  lemma LearningFinds(cfg: Config)
    requires cfg.gap >= SECOND
    ensures var db, raw := TwoSessions(cfg.gap), Again("c", 2 * SECOND + cfg.gap, Some(100), None);
      var e := Event("c", "m", "k", "i", Start, None, 2 * SECOND + cfg.gap);
      && Parse(raw) == Accepted && Unused(db, MINT) && EventFor(db, raw, MINT) == e
      && Logged(db, raw, MINT) ==
        db.(media := map["m" := Item(Some(100))], events := db.events["c" := EventRow(e, None)])
  {
    var db, raw := TwoSessions(cfg.gap), Again("c", 2 * SECOND + cfg.gap, Some(100), None);
    Resolves(cfg.gap);
    assert ToMediaItem(raw).identity == "k:x";
    assert db.events.Keys == {"a", "b"} && db.sessions.Keys == {"s", "t"};
    assert Enrich(db.media["m"], ToMediaItem(raw)) == Item(Some(100));
    assert db.FindOrCreate(ToMediaItem(raw), "m2") == db.(media := map["m" := Item(Some(100))]);
  }

  lemma CurrentBefore(cfg: Config)
    ensures CompletionCurrent(TwoSessions(cfg.gap), cfg)
  {
    assert TwoSessions(cfg.gap).sessions.Keys == {"s", "t"};
  }

  lemma LeftBehind(db: Db, cfg: Config)
    requires cfg.threshold <= 1.0 && "s" in db.sessions && db.sessions["s"] == RowFor(FIRST)
    requires "m" in db.media && db.media["m"] == Item(Some(100))
    ensures "s" in db.LiveSessions() && !CurrentAt(db, "s", cfg) && !CompletionCurrent(db, cfg)
  {
    assert cfg.threshold * 100.0 <= 100.0;
  }

  lemma LearningDelivered(cfg: Config, db: Db, raw: Incoming, l: Db, e: Event) returns (db': Db)
    requires cfg.gap >= SECOND && db.Schema() && Parse(raw) == Accepted && Unused(db, MINT) && e.id !in db.events
    requires EventFor(db, raw, MINT) == e && Logged(db, raw, MINT) == l && l.sessions == TwoSessions(cfg.gap).sessions
    requires e.KeyOf() == Key("m", "i") && e.at <= 2 * SECOND + cfg.gap
    ensures Delivers(db, raw, cfg, MINT, db') && db'.media == l.media
    ensures "s" in db'.sessions && db'.sessions["s"] == l.sessions["s"]
  {
    assert MINT.mediaId !in db.media;
    hide Parse, Logged, EventFor, Unused, FoldSet, Db.IsLatest, AssignWith, Db.Schema, Db.Link, Delivers, TwoSessions;
    LoggedSchema(db, raw, MINT);
    JoiningSecond(l, e, cfg);
    DeliversTo(db, raw, cfg, MINT, Some("t"));
    db' := AssignWith(l, e, Some("t"), cfg, MINT.sessionId, MINT.now);
    SecondHasFirst(cfg.gap);
  }

  /** A duration learned after a session was folded is not used to judge it again, although the position it
      reached completes it. */
  lemma LateDurationLeavesCompletionBehind(cfg: Config) returns (db: Db, raw: Incoming, db': Db)
    requires cfg.gap >= SECOND && cfg.threshold <= 1.0
    ensures Sound(db, cfg) && CompletionCurrent(db, cfg) && Delivers(db, raw, cfg, MINT, db')
    ensures "s" in db'.LiveSessions() && !CurrentAt(db', "s", cfg) && !CompletionCurrent(db', cfg)
  {
    db, raw := TwoSessions(cfg.gap), Again("c", 2 * SECOND + cfg.gap, Some(100), None);
    TwoSessionsSound(cfg);
    CurrentBefore(cfg);
    LearningFinds(cfg);
    assert db.Schema();
    hide Parse, Sound, Logged, EventFor, Unused, CompletionCurrent, CurrentAt, Delivers, Db.Schema, Db.LiveSessions;
    db' := LearningDelivered(cfg, db, raw, Logged(db, raw, MINT), EventFor(db, raw, MINT));
    LeftBehind(db', cfg);
  }

  /** One visible event without a source instance, and a rebuild writes a session that no later rebuild or
      diff can read for as long as its item is not deleted. */
  lemma UnnamedInstanceBlocksRebuilds(db: Db, out: seq<Rebuilt>, groups: seq<seq<Event>>, cfg: Config,
                                      ids: Apply.IdSource, now: Time, db': Db)
    requires db.Schema() && cfg.gap >= 0 && Apply.Unrepeated(ids) &&
      Apply.RebuildsTo(db, out, groups, cfg, ids, now, db')
    requires exists e :: e in db.LiveLog() && e.instance == ""
    ensures !db'.SessionsReadable()
  {
    RebuildIsRebuilt(db, out, groups, cfg, ids, now, db');
    hide Apply.RebuildsTo, Replayed;
    ReadableIffNamed(db', groups, ids, cfg);
  }

  // A rebuild leaves no row on a key without an instance.
  lemma NoUnnamedRows(db': Db, groups: seq<seq<Event>>, ids: Apply.IdSource, cfg: Config, k: Key)
    requires Replayed(db', groups, ids, cfg) && k.instance == ""
    ensures forall s | s in db'.sessions :: !db'.OnKey(s, k)
  {
    hide Db.Schema, Apply.LinkHolds, IsGapPartition, NoRepeats, Apply.Unrepeated, IsSession, FoldSorted, Db.Linked;
    forall s | s in db'.sessions ensures !db'.OnKey(s, k) {
      var i: nat :| i < |groups| && s == ids(i);
      assert Healed(db', groups[i], ids(i), cfg);
    }
  }

  /** After a rebuild, the next event without an instance opens a session of its own, even within the gap of the
      session that the rebuild has just made of the events before it. */
  lemma UnnamedOpensTwice(db: Db, groups: seq<seq<Event>>, ids: Apply.IdSource, cfg: Config, raw: Incoming,
                          mint: Ingest.Mint, db': Db)
    requires Replayed(db, groups, ids, cfg) && Parse(raw) == Accepted && raw.instance == ""
    requires Delivers(db, raw, cfg, mint, db')
    ensures raw.eventId in db'.events && db'.events[raw.eventId].session == Some(mint.sessionId) &&
      mint.sessionId !in db.sessions
  {
    var l, e := Logged(db, raw, mint), EventFor(db, raw, mint);
    assert e.id == raw.eventId && e.instance == "" && mint.sessionId !in db.sessions;
    hide Replayed, Parse, Logged, EventFor, FoldSet, Db.Schema, Arrived, Repeats, Unused, SameLinks, Db.Log, Db.Linked,
      DurationsKept;
    LoggedArrives(db, raw, mint);
    LoggedAggs(db, raw, mint);
    NoUnnamedRows(db, groups, ids, cfg, e.KeyOf());
    NoRowNoLatest(db, l, e.KeyOf());
    var latest: Option<string> :| l.IsLatest(latest, e.KeyOf()) &&
      db' == AssignWith(l, e, latest, cfg, mint.sessionId, mint.now);
    assert e.id in l.events by { LoggedHas(l, e); }
  }

  lemma LoggedHas(l: Db, e: Event)
    requires Arrived(l, e)
    ensures e.id in l.events
  {
  }

  lemma NoRowNoLatest(db: Db, l: Db, k: Key)
    requires SameAggs(db, l) && forall s | s in db.sessions :: !db.OnKey(s, k)
    ensures forall r: Option<string> | l.IsLatest(r, k) :: r == None
  {
    assert forall s | s in l.sessions :: !l.OnKey(s, k);
  }
}
