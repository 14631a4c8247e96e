# WatchTrail, verified

WatchTrail records what was watched: collectors in the browser and in VLC send an append-only log of
play, pause, seek and stop events to a small service, which turns the log into *sessions*. This project
models that path end to end in Dafny and proves what it promises.

* **The sessionizer.** One fold defines what a session's events amount to. It is used in two ways: live, one event at
  a time against three mutable tables (`Store`, `Sessionize`, `Ingest`), and in batch, by reconstructing every session
  from the whole log (`Rebuild`, `Drift`, `Reports`, `Apply`). `Moments` says what watched time is without the loop, and
  `Outputs` what a reconstruction is in terms of events and times. The tables are the fields of a class whose methods
  change them as the SQL statements do; what each statement means is also a function of a value, `Tables.Db`, and
  deliveries, deletions, restorations and rebuilds are the steps of a run (`Runs`); what each step does to every row,
  column by column, is `Effects`. The main results say exactly which steps keep the live tables in step with the
  batch, what a rebuild heals, what every reachable state keeps, when a repeated delivery is a no-op, that one which
  stopped half way is completed by its retry (`Interrupted`), what a silent drift check does and does not mean
  (`Drift`, `Refinement`), and that, while nothing is deleted, the reconstruction depends on nothing but the events
  delivered and the durations they bring (`Renaming`, `Items`). `Histories`, `Misreports`, `Unnamed` and
  `Counterexamples` hold concrete runs in which the code does less than one would expect.
* **The browser collector.** The playback state machine, the content script that drives it (`Collector`), what it
  sends of each cue (`Cues`), an exact account of what it emits against the time really played (`PlayTime`), what the
  service makes of that when it folds the stored events (`StoredPlay`), the capped queue (`Queue`), the interleaved
  delivery protocol with lost answers and a worker that can be killed at any point (`Delivery`, `Progress`), and its
  composition with the service (`EndToEnd`).
* **Smaller cores.** Keyset pagination (`Paging`) and what the list shows (`Listings`), the double-checked thumbnail
  cache (`Thumb`), the VLC collector's JSON printer (`Printer`) and what is read back of it (`Readback`), the keys
  joined as text (`KeyText`) and media enrichment (`Enrichment`).

`Sorting`, `Stamps`, `Events`, `Folding`, `Partition` and `Conservation` hold the shared vocabulary: stable sorting,
times and strings as the database compares them, replay order, the fold, the gap partition, and watched time.
`Invariants`, `Steps`, `Live`, `Refinement` and `Inert` build up to the theorems about runs, and `Retries`,
`Guarantees`, `Totals` and `Restoring` draw further ones from them.

`dafny verify dfyconfig.toml` checks everything.

## Hypotheses

Each is stated where it is used, and each is something a caller can check.

* The session gap is at least a second where live sessions are concerned: `ORDER BY ended_at` compares
  printed times, and print order is time order exactly for gaps of that size (`Stamps.TextOrderSafeIff`).
* An event id stands for one event (`Steps.Repeats`); freshly minted ids are unused (`Steps.Unused`).
* "In step" (`Runs.InStep`) is not a hypothesis one could do without: it is, step by step, the exact condition under
  which the tables stay in step with the batch (`Runs.StepKeepsSyncedIff`). A delivery is in step when a repeat finds
  its session the newest on its key, a new event lands more than a gap after the end of every session on its key,
  except that it may reach the newest from a gap before its start on (`Live.Fits`, which arrival in time order
  implies, `Live.InOrderFits`), and no other event of the item is outside a session; a rebuild, when every visible
  event names an instance; a restoration, when all events of the item are in sessions; a deletion, always.
* The browser collector names no instance (`collectors/browser-extension/src/content.ts:64-79`), so a database
  with a visible browser event is not `Named`, and a rebuild of it writes rows that no statement finds again. What
  holds of every state of every run sets those rows aside (`Inert.Keyed`), and deliveries do to the rest exactly
  what they would do without them (`Inert.DeliveryIgnoresNull`), which is how the theorems about single deliveries
  and repeats hold in all those states too; being in step after a rebuild needs named events.
* What a diff reports is stated for any stored rows whatever. That no two sessions of the rebuilt side share a
  natural key is true of every reconstruction (`Refinement.GroupsUnique`).
* The play-time account needs nothing of the player (`PlayTime.Accounted`); when it comes out right is exact
  (`PlayTime.RightAtEveryMomentIff`), and `PlayTime.Regular` is a simple sufficient condition. For the stored
  events the clock must not run back, and `StoredPlay.Steady` says exactly what the events of one millisecond
  must have in common, because their random ids order them.

## Where code and documentation differ

The model follows the code.

* `README.md:83` calls re-sending an event a safe no-op. On the log it always is
  (`Guarantees.LogIsWhatWasDelivered`). In every state a run can reach, it is one on all the tables, but for the time a
  row was last written, exactly when the item is not deleted and learns nothing from the message, and the event is in
  a session that has an instance, is the newest on its key, and has the event's kind and the completion that the
  known duration gives (`Retries.RetryIsNoOpIff`). Otherwise a repeat can take the event out of its session and leave
  the old row counting it (`Retries.RetryStaysIff`, `Counterexamples.RetryStealsAnEvent`); it always does so when the
  row has no instance, which is what the rows of browser events come to after a rebuild: the collector's ordinary
  retry then moves the event even from the only session there is (`Unnamed.RetryAfterRebuildMoves`). It can bring back
  an item that was deleted in between (`Guarantees.DeliveryRevives`, `Histories.RetryRevives`), roll a title or a
  language back to the one it was sent with, since the last one seen wins (`Items.ItemsAreEnriched`), or judge a
  completion again; and one whose event is in no session links it. What `internal/ingest/pipeline.go:86-87` promises
  does hold: a delivery that stopped half way is completed by sending it again (`Interrupted.RetryCompletes`).
* `internal/rebuild/rebuild.go:119` says that drift is whether the stored sessions disagree with the rebuild. A row is
  not compared when a later one has its natural key (`internal/rebuild/rebuild.go:133-136`), and live sessions of one
  key can come to start alike. A diff is silent exactly when the rows that are compared agree (`Drift.NoDriftIff`);
  all rows do, each as often, exactly when it is silent and no two share a natural key
  (`Drift.SilenceIsAgreementIff`), which holds of the rebuilt side but not of every reachable stored side: four
  deliveries lead to tables that hold a wrong session and a silent diff, which would have drift had the two sessions
  drawn their ids the other way round (`Misreports.SilentDiffOverWrongTables`, `Drift.OrderIrrelevantIff`).
* `internal/sessionize/split.go:5-8` and the rebuild's documentation promise that live and batch agree. The exact
  condition on a step is `Runs.StepKeepsSyncedIff` for the partition and `Totals.StepKeepsCurrentIff` for
  completion, and there are steps that do not meet it: an event that arrives late can join a session that a
  rebuild would not put it in (`Histories.LateEventDiverges`), a repeat can leave a row stale (above), a duration
  learned after a session was folded does not judge it again
  (`Counterexamples.LateDurationLeavesCompletionBehind`), and the next two.
* `internal/ingest/pipeline.go:66-67` promises that a new event brings a deleted item and its history back. After
  a rebuild in between it brings back the item and none of its sessions (`Histories.HistoryIsLost`,
  `Restoring.RestoreAfterRebuild`, `Runs.RestoreKeepsSyncedIff`).
* The fold is documented as time present, with pauses excluded. A seek or progress sent during a pause makes the
  rest of the pause count (`PlayTime.ScrubbingWhilePausedCounts`), and a pause and a resume of one millisecond
  may be stored the other way round and hide the play after them (`StoredPlay.TiedIdsMislead`).
* A rebuild writes an empty source instance as NULL, and later reads fail on it: exactly when some visible
  event has none (`Healing.ReadableIffNamed`, `Counterexamples.UnnamedInstanceBlocksRebuilds`); and the next
  event without one opens a second session within the gap (`Counterexamples.UnnamedOpensTwice`).
* The bounds of the session list are compared with starts as text (`internal/store/read.go:80-89`), so a window is not
  one of times: a session that starts half a second after a whole-second `from` is not listed, and one that starts on
  the whole second is listed although its `from` lies within that second. Beyond the bound's own second they are right
  (`Listings.BoundsBySecond`).
* An event the service refuses is never dropped by the browser collector, so once it is in the next batch it
  holds up the whole queue until the cap evicts it (`Delivery.RefusedHoldsUp`, `Delivery.CleanFlushes`).

## Model

| member | source | states |
|---|---|---|
| Stamps.TextOrderSafeIff | internal/store/sessions.go:38-44 | times further apart than the gap always sort in time order as RFC3339Nano text if and only if the gap is a second (less a nanosecond) or more |
| Stamps.StampOrderFailsWithinASecond | internal/store/sessions.go:38-44 | within a second the text order can be the reverse of the time order |
| Stamps.StrLessMeaning | internal/rebuild/rebuild.go:33 | one string comes before another exactly when, at the first place where they differ, it has the smaller character or has ended |
| Stamps.FractionReads | internal/store/sessions.go:118-140 | a fraction of a second prints as its decimal places, the last of them not zero, and no fraction as none |
| Events.OrderedUnique | internal/rebuild/rebuild.go:28-38 | a set of events has exactly one replay order |
| Events.TextOrderHealed | internal/sessionize/fold.go:40-44 | the fold's stable sort by time puts rows that arrive in printed-text order into replay order, whatever the text order did within a second |
| Events.PrintedOrders | internal/store/sessions.go:74-80 | the orders in which events and sessions are read are those of their times, but for times of one second, and of their ids within one time |
| Folding.Fold | internal/sessionize/fold.go:36-78 | the loop over a sorted copy computes the fold of the list, which the next two rows characterise |
| Folding.FoldMeaning | internal/sessionize/fold.go:46-76 | read off a set of events, the aggregate spans exactly their times and counts them; its position is the greatest one reported, or zero; and it is completed if and only if the duration is known and positive and some event got as far as the threshold's part of it |
| Moments.FoldCountsMoments | internal/sessionize/fold.go:52-71 | the watched seconds are, to the nearest and halves up, the number of nanoseconds of the session whose last event neither paused nor stopped and whose next event came within two cadences of it |
| Folding.FoldGrows | internal/sessionize/fold.go:46-76 | adding any event never shrinks a session nor takes back its completion while a known duration stays |
| Folding.FoldOfRows | internal/store/sessions.go:74-116 | folding the rows of a session, in the order the query returns them, is folding the set of its events |
| Folding.WatchedWithinSpan | internal/sessionize/fold.go:52-70 | the watched time lies between zero and the span of the session |
| Partition.PartitionUnique | internal/rebuild/rebuild.go:51-66 | a log has exactly one partition into sessions whose neighbours are within the gap and which lie more than the gap apart per key |
| Partition.SplitIsPartition | internal/rebuild/rebuild.go:51-66 | cutting one key's ordered stream at the gaps gives that partition |
| Conservation.SplitConservesIff | internal/sessionize/fold.go:52-70 | splitting conserves the watched time of every stream if and only if the gap is at least the longest interval that counts |
| Conservation.SplittingLosesNoWatchedTime | internal/rebuild/rebuild.go:54-60 | with a gap of two cadences or more, a key's sessions sum to its unsplit stream, each is watched no longer than it spans, and rounding moves the total by at most half a second a session |
| Rebuild.Reconstruct | internal/rebuild/rebuild.go:30-79 | the result is the reconstruction of the set of events: the folds of its one gap partition, in output order; the four `Outputs` rows say what that is in terms of events and times |
| Outputs.OutputOrder | internal/rebuild/rebuild.go:68-77 | of any two sessions the one that starts earlier comes first, of those that start together the one whose item, and then whose instance, is the smaller string |
| Outputs.EachInOne | internal/rebuild/rebuild.go:51-66 | every event is in exactly one session |
| Outputs.SessionSays | internal/rebuild/rebuild.go:81-102 | a session lists its events by time and id, each within the gap of the one before; item and instance are those of all of them, the source kind is the first one's, and the aggregate is their fold under the item's length |
| Outputs.SessionsLieApart | internal/rebuild/rebuild.go:54-60 | events of one item and instance in different sessions are more than the gap apart |
| Rebuild.GroupByGap | internal/rebuild/rebuild.go:51-63 | after the loop, the flushed and the open groups together are the gap partition |
| Rebuild.FlushOpen | internal/rebuild/rebuild.go:64-66 | flushing the open groups in any order completes the partition |
| Rebuild.ReconstructionUnique | internal/rebuild/rebuild.go:64-78 | the final sort key tells the groups of a gap partition apart, so neither the order of flushing nor a stable sort's ties can change groups or output |
| Rebuild.OneReconstruction | internal/rebuild/rebuild.go:26-38 | the output is a function of the set of events: any two reconstructions of it are equal |
| Drift.Diff | internal/rebuild/rebuild.go:131-157 | the two maps and three loops compute the report |
| Drift.ReportMeaning | internal/rebuild/rebuild.go:131-157 | for any rows and any rebuild: added and removed hold exactly the unmatched rebuilt and the unmatched stored sessions; changed holds exactly the rows no later one with their key hides that disagree with the rebuilt session they match, each with exactly the fields in which they do |
| Reports.ReportInOrder | internal/rebuild/rebuild.go:131-157 | the added and changed sessions are listed in the order of the rebuild and the removed ones as they were read: each that is unmatched, or disagrees with the row compared, exactly once, and no other |
| Reports.ChangesNameInOrder | internal/rebuild/rebuild.go:179-197 | a change names the fields in which the sessions disagree in one fixed order |
| Drift.ReportIsPatch | internal/rebuild/rebuild.go:131-157 | for any rows and a rebuild without repeated keys, which every reconstruction is: the rows compared, less what was removed or changed, plus what was added or changed, are the rebuilt sessions |
| Drift.NoDriftIff | internal/rebuild/rebuild.go:119-122 | for any rows and any rebuild: a report is silent if and only if the rows compared, the last of each natural key, and the rebuilt sessions are the same up to ids and bookkeeping times |
| Drift.SilenceIsAgreementIff | internal/rebuild/rebuild.go:119-136 | all stored rows are the rebuilt sessions, each as often, if and only if the report is silent and no two rows share a natural key |
| Drift.OrderIrrelevantIff | internal/rebuild/rebuild.go:132-136 | the answer does not depend on the order in which the rows are read if and only if rows that share a natural key agree |
| Misreports.SilentDiffOverWrongTables | internal/rebuild/rebuild.go:119-136 | a run of four deliveries to tables with a stale session, on which every diff is silent, and would have drift with the two rows in the other order |
| KeyText.TextKeysFaithfulIff | internal/rebuild/rebuild.go:52 | keys joined with a NUL tell groups apart if and only if no media id is another one followed by a NUL |
| KeyText.NaturalTextFaithful | internal/rebuild/rebuild.go:124-126 | the three-part key is faithful for media ids without NULs, whatever the instances contain |
| Store.Repo.FindOrCreateMediaItem | internal/store/sqlite.go:67-124 | the item with this identity is enriched, or a new one is inserted |
| Enrichment.ColumnsAfter | internal/store/sqlite.go:67-124 | after any events: title and language are the last non-empty ones sent, URL the first non-empty, duration the first known, identity and kind those of the first event |
| Items.ItemsAreEnriched | internal/store/sqlite.go:67-124 | in every state of every run, whatever is deleted, restored or rebuilt: each item shows those columns of what the accepted deliveries, repeats too, sent for its identity |
| Store.Repo.InsertEvent | internal/store/sqlite.go:126-139 | a known id changes nothing, a new one is logged unlinked, an unknown item is refused |
| Store.Repo.LatestSessionFor | internal/store/sessions.go:34-66 | a live session on the key that no other prints a later end than, or none if there is none |
| Store.Repo.SetEventSession | internal/store/sessions.go:68-72 | exactly this event is linked to the session |
| Store.Repo.EventsForSession | internal/store/sessions.go:74-116 | exactly the events linked to the session, in text order, each once |
| Store.Repo.UpsertSession | internal/store/sessions.go:118-140 | the row is inserted, or all but its creation and deletion time is replaced |
| Store.Repo.AllEvents | internal/store/replay.go:9-51 | exactly the events of items that are not deleted, in text order, each once |
| Store.Repo.AllSessions | internal/store/replay.go:53-91 | exactly the live sessions, in the order of printed start and id, or failure if and only if one has a NULL instance |
| Store.Repo.ReplaceAllSessions | internal/store/replay.go:126-171 | rows and links are replaced as the writes say, or nothing changes at all |
| Store.Repo.SetDeletedAt | internal/store/delete.go:15-43 | the item and those of its sessions in the same state flip together, or nothing does |
| Store.Repo.SoftDeleteMedia | internal/store/delete.go:45-50 | a live item and its live sessions get the stamp, and the answer says whether there was one |
| Store.Repo.RestoreMedia | internal/store/delete.go:52-71 | a deleted item and its deleted sessions lose the stamp |
| Sessionize.Sessionizer.Assign | internal/sessionize/sessionizer.go:32-80 | the event is linked to the latest session within the gap or to a new one, which is folded again from its links |
| Ingest.Pipeline.Process | internal/ingest/pipeline.go:53-95 | a refused event changes nothing; an accepted one is resolved, brought back, logged and assigned; what then stands in the columns of its event and its item is said of the message itself |
| Ingest.ParseMeaning | internal/event/event.go:50-81 | a message is accepted if and only if it is of version 1, has an id, a source, an external id and a time, and names one of the six types |
| Ingest.ProcessedStores | internal/ingest/pipeline.go:53-85 | from any tables: a new event is stored under its own id, type, source, instance and time, its position or the nearer end of thirty days, on the item of its source and external id; that item shows the title, language, URL and length the message brings or fills in; no other event or item is touched |
| Effects.MessagesAreTheLog | internal/ingest/pipeline.go:73-84 | in every state of every run the log holds just the accepted messages, each under its own id and as it was sent |
| Effects.DeliverySessions | internal/sessionize/sessionizer.go:36-80 | in every state a run can reach: the event goes to the row of its item and instance that prints the latest end if it comes within the gap of it, else to a new row; that row gets the event's columns, the dates, and the fold of the events linked to it; the item's other rows come back, and all others stay |
| Effects.StampReaches | internal/store/delete.go:15-43 | in any tables at all: the call reaches the item if it is in the other state, and with it exactly those of its sessions that are; otherwise nothing changes |
| Effects.DeletionStamps | internal/store/delete.go:15-71 | deleting an undeleted item stamps it and all its sessions with the time, restoring a deleted one clears all the stamps, and otherwise neither changes anything |
| Effects.RebuildRewrites | internal/store/replay.go:126-171 | a rebuild leaves one row per session of the reconstruction of the visible events, with its columns, an instance only if it names one and the time of the rebuild, and links each event to the session that lists it or to none |
| Ingest.Pipeline.HandleBatch | internal/ingest/http.go:36-49 | events are processed in order up to the first refused one, what came before stays committed, and the answer is that event's verdict |
| Invariants.LatestIsNewest | internal/store/sessions.go:38-44 | with a gap of a second or more, ordering by printed end finds the session that really ends last, and it is alone there |
| Invariants.TargetJoinsOrStarts | internal/sessionize/sessionizer.go:44-50 | an event joins the session that really ends last on its key, or starts one more than a gap away from all of them |
| Invariants.AssignKeepsSound | internal/sessionize/sessionizer.go:36-80 | assigning any logged event, new or repeated, keeps every invariant of the tables |
| Steps.DeliveryPlaces | internal/ingest/pipeline.go:55-95 | where any delivered event ends up, repeats included |
| Steps.DeliveryGrows | internal/ingest/pipeline.go:55-95 | no delivery loses or shrinks a session, moves its creation time or takes back its completion |
| Inert.DeliveryIsDetermined | internal/store/sessions.go:38-44 | in every state a run can reach, two outcomes of one delivery are equal: the ties that ordering by printed end leaves open never arise |
| Live.DeliveryKeepsExactIff | internal/sessionize/sessionizer.go:52-79 | in any arrival order: a delivery leaves every row the fold of its events and no visible event out if and only if a repeat finds its session the newest and no other event of the item is outside a session |
| Live.DeliveryKeepsSyncedIff | internal/sessionize/sessionizer.go:44-50 | a delivery keeps the tables in step with the batch if and only if it is clean in that sense and, unless a repeat, lands more than a gap after the end of every session on its key, or of all but the newest, which it then reaches from a gap before its start on |
| Live.InOrderFits | internal/sessionize/sessionizer.go:44-50 | an event no earlier than anything logged on its key always does |
| Refinement.SyncedIsPartition | internal/rebuild/rebuild.go:51-66 | the visible sessions of tables in step are the gap partition of the visible log |
| Refinement.SilentIff | internal/rebuild/rebuild.go:131-157 | of sound tables in which every row is the fold of its events: the diff is silent if and only if the visible sessions hold exactly the groups of the reconstruction, event for event, and no completion is out of date |
| Refinement.LiveRefinesBatch | internal/sessionize/split.go:5-8 | in step, stored sessions hold exactly the partition a rebuild makes, and the diff is silent if and only if no completion is out of date |
| Apply.ApplyRebuild | internal/rebuild/rebuild.go:166-177 | the rebuilt sessions replace the derived tables under fresh ids |
| Apply.AnswerMeaning | cmd/watchtrail/rebuild.go:59-92 | the answer of the command is a function of the tables; no drift means that the rows compared are the rebuilt sessions, and all rows are exactly when, besides, no two share a natural key |
| Apply.RebuildSessions | cmd/watchtrail/rebuild.go:59-92 | fails untouched if and only if the stored sessions are unreadable; otherwise reports the drift of the sessions, as they are read in order, against the reconstruction and, with write, replaces the tables |
| Healing.RebuildHeals | internal/store/replay.go:126-171 | whatever was stored before: one row per group, holding that group's fold and linked to exactly its events |
| Healing.ReadableIffNamed | internal/store/replay.go:158 | the rows a rebuild leaves can be read again if and only if every visible event names its instance |
| Healing.RebuildSyncs | internal/rebuild/rebuild.go:166-177 | such a rebuild leaves the tables in step with the log, from any state |
| Healing.SecondRebuildIsSilent | internal/rebuild/rebuild.go:131-157 | a second rebuild straight after finds no drift and makes the same output |
| Inert.DeliveryIgnoresNull | internal/store/sessions.go:38-44 | rows without an instance are never found: a delivery does to all other rows and links what it would do if these were not there |
| Runs.EveryStateSound | internal/sessionize/sessionizer.go:44-79 | in every state of every run, whatever the order and repeats, rows without an instance set aside: session ends per key are more than the gap apart, the newest row is the fold of its links, completion is backed by a known duration, deletion agrees |
| Runs.SessionsOnlyGrow | internal/store/sessions.go:124-134 | between rebuilds no run loses or shrinks a session, moves its creation time or reverts its completion |
| Runs.NewerEndsLater | internal/sessionize/sessionizer.go:44-50 | between rebuilds the sessions of a key end in the order in which they were opened, more than the gap apart, however late events arrive |
| Runs.StepKeepsSyncedIff | internal/sessionize/sessionizer.go:36-80 | for every step, deliveries, deletions, restorations and rebuilds alike: it keeps the tables in step if and only if it is in step |
| Runs.EveryStateSyncedIff | internal/sessionize/sessionizer.go:36-80 | every state of a run is in step if and only if every step is |
| Runs.RestoreKeepsSyncedIff | internal/store/delete.go:52-71 | bringing an item back keeps the tables in step if and only if all its events are in sessions |
| Runs.BatchIsStretch | internal/ingest/http.go:36-49 | the states a batch goes through are a stretch of a run, one delivery an event |
| Runs.RunRefinesBatch | internal/rebuild/rebuild.go:26-79 | at any point of a run that is in step since its start or since its last rebuild, stored sessions and reconstruction of the visible log hold the same partition and differ at most in completions out of date, so a rebuild is a checkpoint live sessions continue from |
| Retries.RetryIsNoOpIff | README.md:83 | in every state a run can reach, rows without an instance included: a repeat leaves all tables as they are, up to the time a row was last written, if and only if the item is visible and learns nothing, and the event is in a session that has an instance, is the newest on its key, and has the event's kind and the completion its duration gives |
| Retries.RetryStaysIff | internal/sessionize/sessionizer.go:44-56 | in those states: a repeat moves no link, and changes no row but in completion, kind and stamps, if and only if the event's session has an instance and is still the newest on its key; an event in a session with an instance always ends up in the newest, any other in a session that has one |
| Unnamed.RetryAfterRebuildMoves | internal/store/sessions.go:42 | a concrete run in which an event without an instance is sent, the sessions are rebuilt and the event is sent again: it is in the only session on its key, its item learns nothing, and every outcome moves it and leaves the rebuilt row counting it |
| Guarantees.DeliveryRevives | internal/ingest/pipeline.go:66-70 | any delivery, a repeat too, leaves the item and all its sessions undeleted |
| Interrupted.RetryCompletes | internal/ingest/pipeline.go:86-87 | wherever between two statements a delivery stops, sending it again next ends exactly where an undisturbed one would have, with the session id and the time that the retry draws |
| Interrupted.EveryFaultyState | internal/ingest/pipeline.go:83-92 | over runs in which any delivery may stop after any statement and anything may come in between: the log holds exactly the events of the deliveries that got as far as logging theirs, each once, and a session is deleted exactly when its item is |
| Interrupted.FaultsAreHealed | internal/rebuild/rebuild.go:166-177 | after any such run a rebuild of named events leaves the tables in step with the log |
| Retries.OnlyTheNewestChanges | internal/sessionize/sessionizer.go:44-56 | a delivery rewrites no row but one that was the newest on its key |
| Guarantees.LogIsWhatWasDelivered | internal/store/sqlite.go:126-139 | in every state of every run the log holds exactly the accepted events delivered so far, each once |
| Guarantees.SameDeliveriesSameLog | internal/store/sqlite.go:126-139 | runs that deliver the same events, however often, in whatever batches and order, end with the same log |
| Items.SameDeliveriesSameLengths | internal/store/sqlite.go:85 | runs that deliver the same durations end with items of the same length if no identity is given two different ones |
| Renaming.SameDeliveriesSameSessions | internal/rebuild/rebuild.go:26-79 | runs that deliver the same events and durations, no identity given two, and end with the same items visible, reconstruct to the same sessions up to the minted item ids |
| Renaming.SameUndeletedSameSessions | internal/rebuild/rebuild.go:26-79 | visible at the end is what every item is when nothing is deleted: then the deliveries alone decide |
| Renaming.AlikeReconstructions | internal/rebuild/rebuild.go:26-79 | item ids matter to the reconstruction only as names |
| Guarantees.DeleteThenRestore | internal/store/delete.go:15-43 | deleting an item and bringing it back is the identity on all tables |
| Guarantees.RebuildForgetsDeleted | internal/store/replay.go:133-138 | a rebuild never revives a deleted item, and leaves it without sessions and links |
| Restoring.RestoreUndoesDelete | internal/store/delete.go:15-43 | over runs, whatever happens to other items in between but no rebuild: deleting an item and bringing it back leaves its row, its events with their links and its sessions exactly as they were |
| Restoring.RestoreAfterRebuild | internal/store/delete.go:52-71 | delete, rebuild, restore: the item is back without any session, and the diff shows drift if and only if it had an event |
| Totals.VisibleCountsAddUp | internal/store/sessions.go:118-140 | in any arrival order, with clean deliveries, event counts of the visible sessions sum to the size of the visible log |
| Totals.DeliveryKeepsCurrentIff | internal/sessionize/fold.go:73-76 | after a delivery every completion is as a rebuild would judge it if and only if no session but the one joined has one that the duration then known contradicts |
| Totals.StepKeepsCurrentIff | internal/sessionize/fold.go:73-76 | of the steps in step, exactly those deliveries that leave a completion behind make one out of date; deletions, restorations and rebuilds never do |
| Totals.RunNeverDrifts | internal/rebuild/rebuild.go:131-157 | when, since the start or the last rebuild, every step is in step and none leaves a completion behind, no diff shows drift |
| Counterexamples.RetryStealsAnEvent | internal/sessionize/sessionizer.go:44-56 | a concrete repeat that moves its event to a newer session and leaves the old row counting it |
| Counterexamples.LateDurationLeavesCompletionBehind | internal/store/sqlite.go:85 | a concrete late duration that leaves a finished session marked unfinished |
| Counterexamples.UnnamedInstanceBlocksRebuilds | internal/store/replay.go:71-75 | one visible event without an instance makes the result of a rebuild unreadable for as long as its item is not deleted |
| Counterexamples.UnnamedOpensTwice | internal/store/sessions.go:42 | after a rebuild, the next event without an instance opens a session of its own even within the gap |
| Histories.TwoSessionsReached | internal/ingest/pipeline.go:53-95 | a run of two deliveries from the empty tables reaches the state the counterexamples start from |
| Histories.LateEventDiverges | internal/sessionize/sessionizer.go:44-50 | a concrete late event that joins a newer session: every row stays the fold of its events, yet every diff afterwards has drift |
| Histories.RetryRevives | internal/ingest/pipeline.go:66-70 | a concrete run in which an item is deleted and a repeat of an event in its newest session, which moves nothing, brings it back |
| Histories.HistoryIsLost | internal/store/replay.go:133-138 | a concrete run in which an item is deleted, the sessions rebuilt and the item restored, and none of its sessions come back |
| Collector.Content.Emit | collectors/browser-extension/src/content.ts:81-95 | one native event closes the media switched away from, moves the state machine and sends what it says |
| Cues.EveryCue | collectors/browser-extension/src/content.ts:81-95 | over every run: a cue sends the stop of another media that is open, with the position at which a cue last showed it, and then what its own player did, with its own position: a start or resume, a pause, seek or stop of what is open, progress thirty seconds after the last start or progress, else nothing |
| Collector.TraceGrammar | collectors/browser-extension/src/core/session.ts:16-53 | every trace, with any media switches, is a word of (start (progress, pause, resume or seek)* stop)*, one media open at a time, and what is open is what the script believes |
| Collector.ProgressBound | collectors/browser-extension/src/core/session.ts:36-40 | a period open for T ms holds at most T / 30000 progress events |
| Collector.MediaGrammar | collectors/browser-extension/src/core/session.ts:44-53 | seen from one media id, the trace is a word of the same grammar, open exactly when that id is |
| PlayTime.Accounted | collectors/browser-extension/src/core/session.ts:16-42 | with nothing asked of the player: watched time of what was sent, and the time played since, is the time really played plus the excess counted between emissions |
| PlayTime.RightAtEveryMomentIff | collectors/browser-extension/src/core/session.ts:16-42 | the watched time is right at every moment if and only if, while playing, emissions are in order and at most a minute apart, and no seek or progress sent while paused is followed within a minute |
| PlayTime.ReportsPlayTime | collectors/browser-extension/src/core/session.ts:36-40 | native events at most thirty seconds apart while playing, and nothing scrubbed while paused, suffice |
| PlayTime.MediaTrace | collectors/browser-extension/src/core/session.ts:44-53 | with any media switches, what is sent of one media is what its player, hidden whenever the page moves on, would send alone |
| StoredPlay.StoredIsReportedIff | internal/store/sessions.go:74-80 | whatever ids the events draw, the rows ordered by time and id give what was reported if and only if no millisecond soon followed by another emission holds both an event that counts and one that does not |
| StoredPlay.FoldRecoversPlayTime | internal/sessionize/fold.go:52-71 | for such traces, whatever the ids and the order of delivery, the fold gives the time really played up to the last event, plus the excess, which a true trace has none of, rounded |
| StoredPlay.SessionsGivePlayTime | internal/rebuild/rebuild.go:54-60 | and the sessions of a key, however the gap cuts them, add up to it before rounding |
| StoredPlay.TiedIdsMislead | internal/sessionize/fold.go:52-71 | a pause and resume of one millisecond whose ids sort the other way round hide half a minute of play |
| PlayTime.ScrubbingWhilePausedCounts | collectors/browser-extension/src/core/session.ts:29-30 | one seek during a pause makes the rest of the pause count as watched |
| Queue.AckDropsBatch | collectors/browser-extension/src/core/queue.ts:14-22 | acknowledging a drained batch takes exactly that batch off the front |
| Queue.FlushesEmpty | collectors/browser-extension/src/core/flush.ts:11-20 | n queued events need exactly ceil(n / 50) successful flushes |
| Queue.Worker.Add | collectors/browser-extension/src/core/queue.ts:5-12 | the event is appended, and a full queue loses its oldest |
| Queue.Worker.FlushOnce | collectors/browser-extension/src/core/flush.ts:11-20 | a batch is removed only when all of it is at the server, and always when that is answered; otherwise the queue is kept whole |
| Delivery.EveryWorldSafe | collectors/browser-extension/src/background.ts:69-81 | under every interleaving of handlers, alarms, requests, lost answers, tasks that throw and crashes: first in first out, at most 1000, the running task works on what is really stored |
| Delivery.NeverWedged | collectors/browser-extension/src/background.ts:69-81 | whatever the task at the head of the chain has come to, it can end without a crash and without touching what is stored, and the next one can run |
| Delivery.NothingLost | collectors/browser-extension/src/background.ts:122-172 | every event ever saved is queued, or acknowledged and at the server, or was evicted with a thousand newer ones behind it; the three add up |
| Delivery.TasksAreWhole | collectors/browser-extension/src/background.ts:73-81 | the stored queue only ever changes by one whole enqueue or one whole successful flush of the queue as it then is |
| Delivery.RefusedHoldsUp | collectors/browser-extension/src/core/flush.ts:14-16 | over whole runs: once an event the server refuses is among the oldest fifty, nothing is acknowledged until a thousand newer events have been saved behind it |
| Delivery.CleanFlushes | collectors/browser-extension/src/core/flush.ts:11-20 | when the oldest fifty are acceptable, a waiting flush can run to its end and take exactly them |
| Progress.StepTouches | collectors/browser-extension/src/background.ts:69-172 | only the end of an enqueue adds to what was saved or evicts, only a commit adds to what the server received, only the end of a flush acknowledges; tasks line up in order, and only a crash takes them all |
| Progress.RequestsStay | collectors/browser-extension/src/background.ts:103-120 | a request once sent stays with the server and only gets further, whatever becomes of the worker |
| Progress.AnyMoment | collectors/browser-extension/src/background.ts:69-172 | a message, an alarm and a crash can come at any moment, the server can go on with any request whose next event it accepts, and a bad answer can come whenever one is awaited |
| Progress.MessageIsSaved | collectors/browser-extension/src/background.ts:149-163 | in a quiet moment a message can be saved at once, behind the others, in place of the oldest of a thousand |
| Progress.AlarmDelivers | collectors/browser-extension/src/core/flush.ts:11-20 | in a quiet moment an alarm can deliver the oldest fifty events, if acceptable: off the queue, received in order, and acknowledged |
| EndToEnd.AckedIsLogged | internal/ingest/http.go:36-49 | over joint runs of a collector and the service, which others feed too: the log holds exactly the events this collector's requests got through and those from elsewhere, each once, and every acknowledged event among them |
| Paging.CursorCuts | internal/store/read.go:120-128 | what is behind the n-th row of the list is the list without its first n |
| Paging.PagesAreTheList | internal/store/read.go:93-177 | for every filter and limit, following the cursors ends and yields exactly the matching sessions in order |
| Paging.ListingOrdered | internal/store/read.go:136 | the list is strictly ordered, so no session is listed twice |
| Paging.PageMembers | internal/store/read.go:120-176 | a page holds exactly the matching sessions between its cursor and the next |
| Paging.NeverRepeats | internal/store/read.go:12-17 | whatever changes between pages, an untouched session never comes twice |
| Paging.NeverVanishes | internal/store/read.go:12-17 | and has come by the time there is no next cursor |
| Paging.CursorRoundTrip | internal/store/read.go:14-40 | a cursor reads back as its position even if the id contains the separator, and is never the empty cursor |
| Paging.Reader.Sessions | internal/store/read.go:96-177 | the rows and the next cursor of the page asked for, or failure if and only if the cursor is malformed; the `Listings` rows say which rows these are |
| Listings.ListsWhatIsVisible | internal/store/read.go:105 | in every state of every run: no page of any filter shows a session of a deleted item, and without a filter the pages together show every session of every other item |
| Listings.DeletionIsListed | internal/store/delete.go:45-71 | deleting an item takes its sessions off the list, and bringing it back puts them on it again |
| Listings.FilterSelects | internal/store/read.go:105-119 | a filter lists exactly those rows of the unfiltered list that have the item, source and kind it names and lie, as text, from its start on and before its end |
| Listings.WindowsAdjoin | internal/store/read.go:80-89 | two adjoining windows together list what the window over both does, no row twice |
| Listings.BoundsBySecond | internal/store/read.go:80-89 | a bound tells earlier from later starts but for those in its own second, of which it always misjudges one |
| Listings.NewestFirst | internal/store/read.go:136 | no row starts a second or more after one listed before it, and rows that start together come in descending order of their ids |
| Listings.PageLength | internal/store/read.go:97-103 | a page has fifty rows unless asked for another number, never more than two hundred; only the last has fewer, and only it has no next cursor |
| Thumb.Chain.Get | internal/thumb/chain.go:45-81 | alone: the cached image, else the first usable one in source order, which is cached |
| Thumb.SourcesRun | internal/thumb/chain.go:45-81 | over all interleavings the sources succeed for a key exactly once per failed write, plus once if it is cached or being cached |
| Thumb.SingleFlight | internal/thumb/chain.go:53-61 | while writes succeed the sources succeed at most once, and every call that returns an image returns that one |
| Thumb.CachedStays | internal/thumb/chain.go:105-127 | a cached image never changes and its sources never run again |
| Thumb.OneCallMoves | internal/thumb/chain.go:45-81 | a step moves one call and no other, and a call keeps the key it began with |
| Thumb.LookEnds | internal/thumb/chain.go:45-62 | a look at the cache, with or without the lock, ends the call with the image that is there; the sources are only asked when there is none; a call that ends lets go of the lock |
| Thumb.NobodyIsStuck | internal/thumb/chain.go:45-81 | whoever holds the lock can go on, and nobody is kept out of it when it is free |
| Thumb.FirstInOrder | internal/thumb/chain.go:63-80 | over all interleavings: a call that asked the sources returns what the first of them, in their order, that makes an image makes, and nothing if and only if it asked all and none does |
| Printer.ChainIsOnePass | collectors/vlc-lua/modules/core.lua:24-29 | the chained substitutions are one pass over the characters |
| Printer.StringRoundTrip | collectors/vlc-lua/modules/core.lua:24-29 | section 7 of RFC 8259 reads a printed string back as the same string |
| Printer.EncodeRoundTrip | collectors/vlc-lua/modules/core.lua:31-54 | a printed value is read back whole, nothing left over; what it is read back as, the `Readback` rows say |
| Readback.ScalarsReadBack | collectors/vlc-lua/modules/core.lua:33-42 | a string is read back as that string, a number as its token, true and false as themselves, nil and what is not finite as null |
| Readback.CharText | collectors/vlc-lua/modules/core.lua:24-29 | a string prints as its characters one after the other between quotes: the five short escapes, the four-digit code of any other control character in lower case, and all the rest as themselves |
| Readback.TableReadsBack | collectors/vlc-lua/modules/core.lua:43-51 | a table is read back as an object with exactly its keys, ascending, each holding what the text of its own field is read back as |
| Readback.PrintAlikeIff | collectors/vlc-lua/modules/core.lua:31-54 | values without nil and infinities print alike if and only if they are equal up to the order of fields |
| Printer.PrintIsOneLine | collectors/vlc-lua/modules/core.lua:31-54 | no control byte is ever printed, so one event is one line |
| Printer.PairsOrderIrrelevant | collectors/vlc-lua/modules/core.lua:44-51 | the text of a table does not depend on the order in which its fields are visited |
| Printer.Encode | collectors/vlc-lua/modules/core.lua:31-54 | the recursive loop over sorted keys prints the text of the value |

## Left out

* Truly concurrent calls of `Process` on one key: the code does not serialise them; each call is one step of a run here, although its statements do not share a transaction. Calls that stop between two of them are `Interrupted.EveryFaultyState`, and sending the event again `Interrupted.RetryCompletes`.
* UUIDs and clocks: ids and times are inputs, fresh where the code mints them. One native player event reads the clock once.
* Why the service refuses a whole request (a wrong token, a body over 1 MiB): to the collector it is an answer that is not good, which any request may get.
* I/O errors of the database, JSON decoding (`Ingest.Garbled` is whatever does not decode), `lang.Normalize`, and the columns nothing is derived from (`received_at`, `raw`, `metadata`, `updated_at` of media, external id).
* Floating point: positions and thresholds are reals, watched time is integer nanoseconds rounded half up.
* Times outside the years 0 to 9999, whose printed seconds have another width.
* base64 and time parsing: `Paging.Codec` stands for any pair of codecs that read back what they wrote.
* Grouping keys are pairs and triples, not joined strings; `KeyText` proves when that is the same.
* The loops of `Reconstruct` are three methods (`Reconstruct`, `GroupByGap`, `FlushOpen`), and `ReplaceAllSessions` runs its writes in two helpers.
* The interleaved collector protocol and the interleaved thumbnail calls are state machines on values, because they have more than one thread; `Queue.Worker` and `Thumb.Chain` are their sequential forms. The content type of an image is not part of this model.
* Number formatting by Lua's `string.format`: a number is the token it was formatted to. Sparse and non-string table keys, which events do not have.
* The VLC collector's polling step, its spool file and djb2 hash: they add only easy members.
* The TCP transport, server-sent events, pages, stats, search, authentication, TLS and discovery: no deep state.
