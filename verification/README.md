# Verified model of tr-engine's state machines and merge rules

tr-engine ingests radio traffic: it stores calls, transcriptions, talkgroups and
units in PostgreSQL, suggests unit tags from what is heard, merges radio systems
that turn out to be the same, backfills transcriptions, and streams live audio to
browsers. This project models the parts of it that are state machines or merge
rules, and proves what they promise. `dafny verify dfyconfig.toml` checks it all.

The parts, from the hardest down:

* **Unit tag suggestions.** `ScanCursor` is the race between transcription writers
  that commit in any order and scanners behind a cursor, `ScanHazards` when a fetch
  would lose one; `Transcriptions` is the writer itself and `OverlappingStores` its
  transactions interleaved. `Evidence` and `SuggestionRows` are one suggestion row,
  `SuggestionTables` the tables and what each locked transaction does to them,
  `MergeStatements` and `SuggestionStore` those transactions statement by
  statement, `SuggestionRuns` every interleaving of them with stale batches,
  `SuggestionCounts` the exactness of the counters, `LateGroups` exactly when it
  survives calls that are linked to their groups late and evidence that was cut
  off, and `LateGroupRuns` two runs in which it does not.
* **Tag and observation merges.** `TagMerge`, `UnitObservations` and
  `ArchiveImport`: whose tag survives a system merge, an archive import or a CSV.
  NULL is an option value; a comparison with NULL falls through to ELSE, LEAST and
  GREATEST ignore NULL (`Sql`).
* **Backfill.** `BackfillPaging` is the keyset order and a page, `BackfillQueue` the
  job queue, worker loop and wakeup channel under every interleaving,
  `BackfillManager` the methods and a job's walk.
* **Buffers and ownership.** `Batcher`, `EventRing` and `AudioRouter`.
* **Audio arithmetic.** `PlayoutRing`, `PlayoutRuns`, `PlayoutSessions` and
  `PlayoutRates` (ring, resampler, whole sessions of chunks and callbacks, and
  sessions whose rate changes), `Jitter` (Welford statistics on both sides), `AudioFrames` and `LossyFrames`
  (binary frames, and gap detection when frames are lost); `Multiples` holds repeated sums.

Code that updates fields is a class whose methods are proved against functions on
values; the laws are proved about those functions and, for whatever interleaves, over
all runs of a state machine whose steps are the sections under one lock or one
database transaction.

## Where the code and its comments differ

* The comment at internal/database/unit_tag_suggestions.go:198-202 says a lower ID
  always goes with a lower xid, barring the instant between nextval and the row
  write. A writer that first clears an old primary row
  (internal/database/transcriptions.go:178-185) has its xid before it draws its ID;
  `ScanHazards.EarlyXidPassesAnOpenId` is a run in which the cursor then passes an ID
  still to come, and `ScanHazards.InstantPassesAnOpenId` one for the instant the
  comment leaves out. `ScanHazards.UnescapedBatchIsUnsafeIff` says exactly when, for every
  run. The one-hour escape is the third way (`ScanHazards.EscapePassesAnOpenId`, and
  exactly when in `ScanHazards.OrderedBatchIsUnsafeIff`).
* internal/database/transcriptions.go:164-168 promises that older primaries are
  cleared. Two transactions that overlap can leave two
  (`OverlappingStores.TwoFirstsLeaveTwoPrimaries`): a run never does if and only if
  none clears before another of its call, which it outlasts, commits
  (`OverlappingStores.NeverTwoPrimariesIff`). A primary transcription with source
  `llm` is always refused, because `llm` is not a status of the calls table
  (schema.sql:325-326).
* A merge does not look at whether its target is deleted.
  `SuggestionRuns.MergeStrandsIff` says exactly when that leaves suggestions on a
  deleted system; the runs take a live target as hypothesis.
* Ingest does not take the merge lock. When its system is merged away between a
  call's insert and the upsert of its group, the call is on the target and its group
  on the deleted source. The runs include this; rows stay apart and counted
  (`SuggestionRuns.ReachableRowsAreOk`), the stray group being a transmission of its
  own.
* Every call is stored without its group and linked to it afterwards
  (internal/ingest/handler_calls.go:199-209). A call that is sighted in between is
  counted again with another recording of that group
  (`LateGroupRuns.RegroupCountsTwice`), or by a merge with the system of the other
  recording (`LateGroupRuns.MergeCountsTwice`). `LateGroups.CountsStayRightIff` says
  exactly which runs keep every count right, by a condition on each link, each
  sighting and each merge of the run.
* An approval with an empty tag leaves the unit's tag but labels it manual
  (internal/database/units.go:205-233), although the comment above that code says an
  empty tag leaves the label alone too (`SuggestionTables.ApprovalAppliesTheTagIff`).
* web/audio-worklet.js:76 speaks of 200 ms before playout; the code waits for 400 ms.
* When the input is faster than the output the resampler can leave whole samples
  owing after an underrun and then extrapolate beyond full scale; it never does if and
  only if the input rate is at most the output's (`PlayoutSessions.PlayoutIsSoundIff`).
* When a chunk does not fit behind what the playout ring holds, samples are lost and
  the ring's positions disagree from then on, unless it came full circle
  (`PlayoutRing.RadioAudioProcessor.EnqueueSamples`).
* Frame headers hold 16 bits of the system ID, the sequence counter is kept under the
  whole ID: two systems 65536 apart show gaps that are none
  (`AudioFrames.ConfusedSourcesShowAGap`). A set of sources never shows a gap if and
  only if no two of them agree in the header (`AudioFrames.SourcesNeverGapIff`).

## Model

| member | source | states |
|---|---|---|
| ScanCursor.XidTestMeans | internal/database/unit_tag_suggestions.go:223-226 | For all full transaction IDs, the modulo-2^32 test says whether the row's lies in the half circle before the snapshot's |
| ScanCursor.XidTestIsExact | internal/database/unit_tag_suggestions.go:207-212 | Within 2^31 of each other the test on truncated IDs is the order of the full ones |
| ScanCursor.XidTestNeedsTheWindow | internal/database/unit_tag_suggestions.go:223-226 | At a distance of 2^31 it is wrong |
| ScanCursor.XidTestMeansOld | internal/database/unit_tag_suggestions.go:223-226 | On any state of the run, frozen and rewritten rows included: the test passes exactly if the row's last version was written before every open transaction took its xid |
| ScanCursor.BatchMeans | internal/database/unit_tag_suggestions.go:206-240 | A fetched batch is exactly the committed rows between its start and its last row, at most the limit, all settled |
| ScanCursor.BatchTakesIff | internal/database/unit_tag_suggestions.go:206-240 | A fetch takes a committed row exactly if there is room and it and every committed row before it are older than the delay and, unless older than an hour, last written before every open transaction |
| ScanCursor.BatchStopsAt | internal/database/unit_tag_suggestions.go:218-226 | The first row a batch with room leaves out is younger than the delay, or at most an hour old, not frozen, and not older than some open xid |
| ScanCursor.SettledPrefixMeans | internal/unittags/scanner.go:194-206 | The scanner keeps the leading settled rows and stops at the first that is not |
| ScanCursor.FetchedRowIsClosed | internal/database/unit_tag_suggestions.go:195-202 | At or below a row that a fetch takes, without the escape, no open transaction holds an ID |
| ScanCursor.StepKeepsInv | internal/database/transcriptions.go:169-242 | Begin, a write elsewhere, the update that clears older rows, the draw of an ID, the row write, commit with its rewritten rows, abort, freeze, fetch and apply all keep the order of IDs and xids and the safety of cursor and held batches |
| ScanCursor.CursorIsSafe | internal/database/unit_tag_suggestions.go:191-239 | Over every run that keeps the three hypotheses, the applied batches joined are the committed IDs up to the cursor, once each and in order, and no open transaction holds an ID the cursor passed |
| ScanCursor.NothingCommitsBehindTheCursor | internal/database/unit_tag_suggestions.go:191-202 | Whatever follows, a transcription that ever commits at or below the cursor had been applied |
| ScanHazards.UnescapedBatchIsUnsafeIff | internal/database/transcriptions.go:178-202 | After any run, a batch that did not need the escape would pass an ID still to come if and only if a row's writer took its xid between the ID and the xid of an open transaction, or an open transaction drew its ID between the xid and the ID of a row's writer; never if all took both at one moment |
| ScanHazards.OrderedBatchIsUnsafeIff | internal/database/unit_tag_suggestions.go:27-32 | After any run whose inserts take ID and xid together, a batch, by the escape or not, would pass an ID still to come if and only if a transaction that has inserted and has a lower xid than its last row is open |
| ScanCursor.RunKeepsHistory | internal/database/transcriptions.go:169-242 | Over any run, whether one transaction drew its ID before another took its xid can be told from either counter, and no xid is taken twice |
| ScanHazards.EarlyXidPassesAnOpenId | internal/database/transcriptions.go:178-202 | When a writer clears an older row before its insert, some run passes an open ID |
| ScanHazards.InstantPassesAnOpenId | internal/database/unit_tag_suggestions.go:198-202 | Between nextval and the row write, some run passes the ID drawn |
| ScanHazards.EscapePassesAnOpenId | internal/database/unit_tag_suggestions.go:27-32 | Without "no one-hour escape" some run passes an open ID |
| Transcriptions.TranscriptionStore.InsertTranscription | internal/database/transcriptions.go:169-242 | Commits all four writes or none; succeeds exactly when the constraints accept the row |
| Transcriptions.SerialStoresKeepInv | internal/database/transcriptions.go:164-168 | One after another, any stores leave at most one primary per call, and the call's columns, status included, repeat it |
| Transcriptions.StoreWrites | internal/database/transcriptions.go:178-235 | What one store writes to transcriptions, its call and its call's group, and that all else stays |
| Transcriptions.AcceptedIff | internal/database/transcriptions.go:187-221 | A row is taken if its call exists and it is automatic, by a person, or by a language model and not primary |
| OverlappingStores.EndsWithTwoPrimariesIff | internal/database/transcriptions.go:178-206 | Any interleaving of begin, clear, insert, commit and abort leaves a call two primaries if and only if one of its transactions that stored a primary committed after all later such ones, and there is one, had cleared |
| OverlappingStores.NeverTwoPrimariesIff | internal/database/transcriptions.go:164-168 | Over a whole run no call ever has two primaries if and only if no transaction storing a primary cleared before another of its call, which it outlasted, committed |
| OverlappingStores.TwoFirstsLeaveTwoPrimaries | internal/database/transcriptions.go:178-206 | Two first transcriptions of a call that overlap leave it two primaries: a run from an empty table |
| Evidence.NewestFirstSorts | internal/database/unit_tag_suggestions.go:326-334 | The rebuilt list is a rearrangement of the entries, newest first |
| Evidence.NewestFirstIsStable | internal/database/unit_tag_suggestions.go:330-331 | Entries of one time keep their order |
| Evidence.NewestKeeps | internal/database/unit_tag_suggestions.go:326-334 | The capped list is sorted, one entry a transmission, of the right size, and loses nothing while it fits |
| Evidence.CutEntriesAreOldest | internal/database/unit_tag_suggestions.go:330-332 | An entry cut off is no newer than any kept |
| Evidence.DuplicatesInject | internal/database/systems.go:356-364 | When both lists record one group per call, the source's duplicates inject into the target's evidence |
| Evidence.DuplicatesNeedAgreement | internal/database/systems.go:396-400 | When they do not, two entries can be duplicates of one |
| SuggestionRows.SightedIsOk | internal/database/unit_tag_suggestions.go:314-337 | A sighting keeps evidence sorted, distinct by call and by group, within cap and call count, and call count within occurrences |
| SuggestionRows.FoldedIsOk | internal/database/systems.go:365-407 | So does folding two rows |
| SuggestionRows.SightedIsExact | internal/database/unit_tag_suggestions.go:303-312 | Up to the cap a sighting keeps call count equal to the evidence |
| SuggestionRows.FoldedIsExact | internal/database/systems.go:356-407 | Up to 10 so does a fold, and neither count goes down |
| SuggestionRows.FoldedDecision | internal/database/systems.go:381-386 | A folded row is pending iff both were; the target's own decision stays |
| SuggestionRows.SightingsAddUp | internal/database/unit_tag_suggestions.go:303-320 | Over any sightings, calls, mentions, seen times and tag comparison of a row are those of exactly the sightings whose transmission was not in the evidence at their turn |
| SuggestionRows.FoldAddsUp | internal/database/systems.go:365-375 | Calls and mentions less what both rows hold, the times of both, and the comparison of the row seen last |
| SuggestionTables.ConflictsAreInjective | internal/database/systems.go:173-207 | The group remap is injective, complete, and maps no group to a remapped one, because groups are unique by system, talkgroup and start |
| SuggestionTables.ApprovalAppliesTheTagIff | internal/database/units.go:205-233 | An approval labels the unit manual in any case; the unit then bears the applied tag if and only if that is not empty or was its tag before, and other units stay as they are |
| SuggestionTables.ApprovalMeans | internal/database/unit_tag_suggestions.go:557-619 | Which outcome an approval has, all decision columns after it, and that nothing else changes |
| SuggestionTables.DismissalMeans | internal/database/unit_tag_suggestions.go:625-659 | The same of a dismissal, which leaves unit and provenance alone |
| SuggestionTables.ApplyMeans | internal/database/unit_tag_suggestions.go:346-417 | A batch is written exactly if the cursor is where it was read, no named system was merged away and each row has a system; then the cursor moves to its end |
| SuggestionTables.MergedSuggestionsMean | internal/database/systems.go:356-420 | Which rows a merge leaves, and from which rows each comes |
| SuggestionTables.MergedCallsMean | internal/database/systems.go:166-220 | Where a merge leaves every call and every call group |
| SuggestionTables.MergedUnitsMean | internal/database/systems.go:282-327 | Whose tag each unit has after a merge, in the labels' own words, and which units there are |
| SuggestionTables.MergedTalkgroupsMean | internal/database/systems.go:235-270 | The same for talkgroups, column by column |
| MergeStatements.FindConflicts | internal/database/systems.go:173-195 | The join computes the remap |
| MergeStatements.MoveCalls | internal/database/systems.go:166-207 | Re-pointing groups one at a time is re-pointing them all at once |
| MergeStatements.MergeRows | internal/database/systems.go:237-268 | Upserting the source rows one by one and deleting them leaves the merged table |
| MergeStatements.MergeSuggestions | internal/database/systems.go:327-420 | The four statements on suggestions together make the merge |
| MergeStatements.StatementsMakeTheMerge | internal/database/systems.go:327-420 | Remap, fold, delete and move, in that order, equal the merge as one step |
| SuggestionStore.Database.EnsureScanCursor | internal/database/unit_tag_suggestions.go:160-169 | Creates the cursor at 0 if missing and returns its position |
| SuggestionStore.Database.ApplyUnitTagSightings | internal/database/unit_tag_suggestions.go:346-417 | Moves the cursor and records every sighting, or changes nothing |
| SuggestionStore.Database.ApproveUnitTagSuggestion | internal/database/unit_tag_suggestions.go:557-619 | Writes the tag as manual and the decision with the previous tag, or changes nothing |
| SuggestionStore.Database.DismissUnitTagSuggestion | internal/database/unit_tag_suggestions.go:625-659 | Decides a pending row and touches nothing else |
| SuggestionStore.Database.MergeSystems | internal/database/systems.go:153-462 | The statements of a merge equal the merge as one step, or nothing changes |
| SuggestionStore.AnyMerged | internal/database/unit_tag_suggestions.go:372-389 | Whether any system the sightings name was merged away |
| SuggestionStore.RecordSightings | internal/database/unit_tag_suggestions.go:391-411 | The upserts of a batch in order, failing exactly at a missing system |
| SuggestionRuns.StepKeepsInv | internal/database/systems.go:153-420 | Ingest, fetch, apply, approve, dismiss and merge each keep every row's invariant, the groups, the cursor chain and the fetched batches |
| SuggestionRuns.ReachableRowsAreOk | internal/database/unit_tag_suggestions.go:303-337 | Every suggestion row of every run is on a live system, sorted, distinct, and within caps and counts |
| SuggestionRuns.EveryIdIsAppliedOnce | internal/database/unit_tag_suggestions.go:339-370 | However many scanners hold stale batches, each ID up to the cursor lies in exactly one applied range and none beyond it |
| SuggestionRuns.DecisionSurvives | internal/database/systems.go:381-386 | Every step keeps a decision, or replaces it with the merge target's own |
| SuggestionRuns.DecidedNeverPendsAgain | internal/database/unit_tag_suggestions.go:310-312 | Over any run a decided candidate never becomes pending again, followed through merges |
| SuggestionRuns.MergeStrandsIff | internal/database/systems.go:153-164 | A merge leaves a suggestion on a deleted system if and only if its target was deleted and its source had one |
| SuggestionRuns.RemapKeepsApartIff | internal/database/systems.go:327-355 | Pointing a row's evidence at the twins of its groups keeps it one entry a transmission if and only if none of its entries records such a twin already |
| SuggestionCounts.ReachableCountsAreExact | internal/database/systems.go:356-407 | While within both caps, a reachable call count is the evidence length and the number of distinct transmissions heard, over all systems merged in, as long as calls are linked to groups before they are fetched or heard |
| LateGroups.CountsStayRightIff | internal/database/unit_tag_suggestions.go:303-312 | All through any run from the start, whatever is linked late, cut off or merged, every count is the number of distinct transmissions heard if and only if every link, sighting and merge of the run meets its condition |
| LateGroups.LateLinkKeepsCountIff | internal/ingest/handler_calls.go:199-209 | From any reachable state, a link of a call to a group leaves a right count right if and only if the call was not heard for the row, or it shared its old transmission with another heard call just when it shares its new one |
| LateGroups.SightingKeepsCountIff | internal/database/unit_tag_suggestions.go:303-312 | From an exact count, however calls are grouped since, a sighting leaves an exact count if and only if it clashes with the evidence just when its call's transmission had been heard |
| LateGroups.SightingBreaksCountIff | internal/database/unit_tag_suggestions.go:303-312 | In terms of the evidence: it goes wrong if and only if some entry's call now stands for the sighting's transmission and none clashes, or one clashes and none stands for it |
| LateGroups.FoldKeepsCountIff | internal/database/systems.go:356-407 | Folding two rows with exact counts leaves an exact count if and only if as many duplicates are taken off as transmissions were heard for both |
| LateGroups.MergeLeavesCountRightIff | internal/database/systems.go:327-420 | From any reachable state, a merge leaves right counts right if and only if that holds of the fold; rows that are only moved keep theirs |
| LateGroupRuns.RegroupCountsTwice | internal/ingest/handler_calls.go:199-209 | Fetch, link, store another recording of the group, sight both: a run from the start that counts two calls for one transmission |
| LateGroupRuns.MergeCountsTwice | internal/database/systems.go:356-407 | Another run counts two calls for one transmission by a merge, after every count was right until then |
| TagMerge.MergedPairIsOneRows | internal/database/systems.go:125-143 | Tag and label always come from one row: the source's if tagged and of at least the target's rank, or the target untagged; else the target's |
| TagMerge.MergeAssociative | internal/database/systems.go:235-257 | Merging A into B into C gives what merging B and then A into C gives |
| TagMerge.NestingIsIrrelevant | internal/database/systems.go:301-314 | However merges are nested, only the order of the rows matters |
| TagMerge.MergeHistoryKeepsTheWinner | internal/database/systems.go:125-143 | Any history of merges ends with the pair of the highest-ranking tagged row, the last of equals |
| TagMerge.HistoryKeepsTheBestLabel | internal/database/systems.go:125-143 | Over any history the last manual tag survives; without one the last from a CSV; without either the last of all others, MQTT, directory and unlabelled alike |
| TagMerge.MergeTakesTheSourceUnless | internal/database/systems.go:134-143 | Of two tags the source's is taken unless the target's is manual and it is not, or the target's is from a CSV and it is neither |
| UnitObservations.RecorderTagIsTheLatest | internal/database/units.go:389-394 | Folding any rows leaves the recorder tag seen latest, later ones winning ties |
| UnitObservations.OtaTagIsTheLatest | internal/database/units.go:395-399 | Likewise the over-the-air alias last seen latest |
| UnitObservations.MergeKeepsWindow | internal/database/units.go:400-415 | The alias window stays well formed and its end never goes back; its start moves only to the incoming start, and not across a gap |
| UnitObservations.WindowAfterMerge | internal/database/units.go:395-415 | The window one merge leaves: extended for the same alias, replaced by that of another that ends no earlier, unchanged otherwise |
| UnitObservations.WindowOverAnyRun | internal/database/units.go:378-415 | The same over any run of rows |
| UnitObservations.MergeIsIdempotent | internal/database/units.go:388-415 | Merging a row again changes nothing |
| ArchiveImport.UnitImportIsIdempotent | internal/database/units.go:422-454 | Importing a unit row again changes nothing |
| ArchiveImport.TalkgroupImportIsIdempotent | internal/database/talkgroups.go:701-756 | Importing a talkgroup row again changes nothing |
| ArchiveImport.ManualTagOutlivesEdits | internal/database/units.go:265-289 | After any imports, CSVs, merges and patches a non-empty manual tag is the last manual tag written |
| ArchiveImport.UnitImportMeans | internal/database/units.go:422-454 | Which tag and label an archive record leaves a unit, and the extreme times |
| ArchiveImport.TalkgroupImportMeans | internal/database/talkgroups.go:701-756 | What an archive row leaves of a talkgroup, column by column |
| ArchiveImport.CsvLeaves | internal/database/units.go:265-289 | The last entry of a unit replaces any tag, with the label csv, but a manual one that is not empty |
| ArchiveImport.ImportNeverBlanks | internal/database/talkgroups.go:701-756 | Empty values never blank a column, losing rows never replace one, manual yields only to manual |
| ArchiveImport.ImportAllTakesTheBestLabel | internal/database/talkgroups.go:701-713 | Whatever was stored, the label ends as the best of the stored and all imported |
| ArchiveImport.ImportAllTakesTheExtremes | internal/database/talkgroups.go:715-756 | The seen times end as the minimum and maximum of the stored and imported ones present |
| ArchiveImport.ImportOrderIsIrrelevant | internal/database/talkgroups.go:701-756 | From any stored row, label and seen times do not depend on the order of import |
| ArchiveImport.CsvTableMeans | internal/database/units.go:241-290 | A CSV gives each of its units its last entry and keeps all other rows |
| ArchiveImport.CsvImportIsIdempotent | internal/database/units.go:279-285 | Importing an unchanged CSV again touches no row |
| ArchiveImport.TagTables.ImportUpsertUnit | internal/database/units.go:422-454 | The CASE chain writes the imported row, or nothing if the offered label is not allowed, whether or not the row exists |
| ArchiveImport.TagTables.ImportUpsertTalkgroup | internal/database/talkgroups.go:715-756 | The CASE of each column, one after another, writes the imported row, or nothing if the offered label is not allowed |
| ArchiveImport.TagTables.WinsOver | internal/database/talkgroups.go:701-707 | The chain of conditions decides that the offered label has at least the stored one's rank, and is one of the four |
| ArchiveImport.TagTables.ImportedText | internal/database/talkgroups.go:729-743 | An empty offer keeps the column; any other replaces it if the row wins or it is empty |
| ArchiveImport.TagTables.ImportUnitTags | internal/database/units.go:250-290 | All of a CSV or none of it, with the number of rows inserted or changed |
| BackfillPaging.BeforeIsAStrictTotalOrder | internal/database/queries_calls.go:274-281 | Before is a strict total order |
| BackfillPaging.NewestComesFirst | internal/database/queries_calls.go:274-281 | Later calls come first, and of calls that start together the highest ID |
| BackfillPaging.GuardMatchesQuery | internal/database/queries_calls.go:314-317 | The query's row comparison and the loop's guard agree |
| BackfillPaging.PageMeans | internal/database/queries_calls.go:283-337 | A page is in order, all matching and past the cursor, and misses a matching call only when full and before it |
| BackfillManager.BackfillManager.Submit | internal/ingest/backfill.go:123-155 | Queues a job under the next ID behind all others, its position the jobs ahead, or nothing if counting failed |
| BackfillManager.BackfillManager.CancelJob | internal/ingest/backfill.go:187-219 | For one ID: no queued job has it afterwards, the others stay in order, the active job is cancelled if it is that one; for all: the queue is empty and the active job cancelled; and the answer says whether there was such a job |
| BackfillManager.BackfillManager.TakeNext | internal/ingest/backfill.go:221-244 | Makes the head of the queue the active job |
| BackfillManager.BackfillManager.Snapshot | internal/ingest/backfill.go:158-185 | Reports the active job and the queue in order |
| BackfillManager.BackfillManager.Release | internal/ingest/backfill.go:246-252 | The ended job leaves the manager |
| BackfillManager.BackfillManager.RecordResult | internal/ingest/backfill.go:334-347 | Counts one call and raises the total if needed |
| BackfillManager.BackfillManager.HandPage | internal/ingest/backfill.go:303-327 | Hands over a page in order until done or cancelled; its guard never fires |
| BackfillManager.BackfillManager.ProcessJob | internal/ingest/backfill.go:265-332 | No call handed over twice, newest first, each matching at some page; the guard never fires; a walk to the last page handed over every call that matched throughout; nothing after cancellation; it ends |
| BackfillManager.PagedWalkIsOneQuery | internal/ingest/backfill.go:281-332 | On a set that does not change, the pages joined are one ordered query |
| BackfillQueue.EveryJobIsInOnePlace | internal/ingest/backfill.go:123-263 | After any interleaving each job is in exactly one of queued, active, finished, cancelled; jobs start in ID order and pass over only cancelled ones; completed and failed stay within total |
| BackfillQueue.EndedJobsStayEnded | internal/ingest/backfill.go:187-263 | A finished or cancelled job is never queued or started again |
| BackfillQueue.CancelledJobNeverStarts | internal/ingest/backfill.go:192-217 | A job cancelled while it is queued, alone or with all others, is never started, whatever follows |
| BackfillQueue.CancelledWorkIsDropped | internal/ingest/backfill.go:195-209 | A job cancelled while it works never counts as finished and is dropped at its end |
| BackfillQueue.WorkMeans | internal/ingest/backfill.go:265-347 | Recount, results and end of the active job, in numbers; it is finished exactly if it was not cancelled and the manager is not going down |
| BackfillQueue.NoWakeupIsLost | internal/ingest/backfill.go:145-149 | Whenever the loop waits on a non-empty queue, pending signals bring it to the job at the head |
| Batcher.Batcher.Add | internal/ingest/batcher.go:31-56 | Adds, flushes at the size limit, or arms the timer on the first item |
| Batcher.Batcher.Flush | internal/ingest/batcher.go:58-65 | Hands off what is pending, if anything |
| Batcher.Batcher.Callback | internal/ingest/batcher.go:48-54 | A timer's callback, however late, hands off what is pending unless stopped |
| Batcher.Batcher.Stop | internal/ingest/batcher.go:67-79 | Stops the timer and hands off what is pending |
| Batcher.NothingIsLostOrDoubled | internal/ingest/batcher.go:31-94 | In any interleaving, stale callbacks included, batches then pending items are the accepted items, batches have 1 to maxSize items, pending items have a live timer, and none are pending after Stop |
| Batcher.StepHandsOff | internal/ingest/batcher.go:31-94 | A batch is handed off by the item that fills it, by a flush or stop with something pending, or by any timer's callback with something pending, and by nothing else; the first pending item's timer keeps running |
| Batcher.TimerFlushes | internal/ingest/batcher.go:47-55 | The live timer's own steps hand off exactly what is pending |
| Batcher.StopDeliversAll | internal/ingest/batcher.go:67-94 | Once Stop returned, every accepted item's batch has been flushed, for good |
| EventRing.EventBus.Insert | internal/ingest/eventbus.go:150-158 | The ring holds exactly the last events in insertion order, whichever of the numbered events is inserted next |
| EventRing.EventBus.NewEvent | internal/ingest/eventbus.go:126-147 | Numbers an event with an ID no other event has or was given, good for Insert whatever other publishers number and insert first |
| EventRing.EventBus.ReplaySince | internal/ingest/eventbus.go:71-111 | Returns the retained events after the given ID that pass the filter, or all that pass if it is empty or gone |
| EventRing.ReplayStartsAfterTheSeen | internal/ingest/eventbus.go:71-73 | A client that saw event k is replayed from k+1, or from the oldest retained event if that is later |
| EventRing.MatchesFilter | internal/ingest/eventbus.go:184-258 | The loops decide the filter: any type, and each ID list unless empty or the event has none |
| EventRing.RejectedIff | internal/ingest/eventbus.go:184-258 | What keeps an event from a client, list by list and ID by ID |
| EventRing.TrimMeans | internal/ingest/eventbus.go:191 | Trimming takes all white space off both ends and nothing else |
| EventRing.TypeMatchesMeans | internal/ingest/eventbus.go:188-205 | A type filter selects a type, or type and subtype joined by a colon |
| AudioRouter.OneSiteAtATime | internal/audio/router.go:169-275 | Over any run, consecutive frames of a talkgroup from different sites are more than the idle timeout apart; otherwise sequence numbers step by 1 modulo 2^16; encoders and streams have the same keys |
| AudioRouter.ChunkIsDroppedIff | internal/audio/router.go:197-275 | After any run a chunk is dropped if and only if its key's last frame is from another site and no older than the idle timeout; otherwise exactly one frame is published, with the chunk's key, unit, site and time, the stream's rate and the next number |
| AudioRouter.CleanupTakesTheIdle | internal/audio/router.go:314-330 | After any run a cleanup ends exactly the streams whose last frame is older than the idle timeout, with their encoders |
| AudioRouter.JitterIsOfTheStream | internal/audio/router.go:224-231 | A stream's statistics are those of the times between its own frames, less those out of bounds |
| AudioRouter.LookupByShortName | internal/ingest/identity.go:150-172 | Finds the entry of the named instance, or any with the name when none is named |
| AudioRouter.LookupByShortNameAny | internal/ingest/identity.go:174-196 | Finds an instance that knows the name and is not excluded, if there is one |
| AudioRouter.Router.ResolveInstanceId | internal/audio/router.go:124-166 | Learned senders keep their instance, no two share one, and only unclaimed instances are learned |
| AudioRouter.Router.ProcessChunk | internal/audio/router.go:169-275 | Drops a chunk without identity, else routes it by system, site and talkgroup, keeping the invariants |
| AudioRouter.Router.RouteChunk | internal/audio/router.go:197-275 | Takeover, same site, new stream and drop, as one function of the state |
| AudioRouter.Router.CleanupIdle | internal/audio/router.go:314-330 | Removes exactly the idle streams with their encoders |
| PlayoutRing.RadioAudioProcessor.EnqueueSamples | web/audio-worklet.js:43-67 | While the chunk fits the ring is a FIFO queue trimmed to the newest half second over 1.5 s; samples are conserved if and only if it fits; positions stay aligned if and only if it fits or comes full circle; what it leaves is within full scale in any case |
| PlayoutRing.RadioAudioProcessor.WriteSample | web/audio-worklet.js:48-52 | One sample goes behind the queue if the ring is aligned and not full |
| PlayoutRing.RadioAudioProcessor.TrimOverflow | web/audio-worklet.js:57-66 | A trim leaves exactly floor(0.5 * rate) samples, the newest, and keeps alignment and conservation |
| PlayoutRing.RadioAudioProcessor.Process | web/audio-worklet.js:69-159 | One callback renders the queue, or silence before the start threshold, and counts empty callbacks |
| PlayoutRing.RadioAudioProcessor.Render | web/audio-worklet.js:106-127 | The output loop is the resampler on the queue |
| PlayoutRing.RadioAudioProcessor.Consume | web/audio-worklet.js:118-123 | Takes whole samples off the front |
| PlayoutRing.RadioAudioProcessor.Interpolate | web/audio-worklet.js:109-113 | Reads the two slots the queue's first samples are in |
| PlayoutRing.RadioAudioProcessor.CountSilence | web/audio-worklet.js:129-148 | Counts callbacks without data and stops playout |
| PlayoutRuns.RenderIsOutputs | web/audio-worklet.js:106-127 | A callback's outputs are that many single ones of a run |
| PlayoutRuns.CallbackMeans | web/audio-worklet.js:69-159 | When a callback is silent, starts, plays and stops, and what it leaves |
| PlayoutRuns.EnqueueMeans | web/audio-worklet.js:43-67 | What an enqueue leaves of a queue with room, in samples |
| PlayoutRuns.ConsumptionIsExact | web/audio-worklet.js:101-123 | At a constant rate at most the output's, n outputs with data used up exactly floor(n * ratio) samples, whatever arrives, is trimmed or runs dry |
| PlayoutRuns.ExactThroughoutIff | web/audio-worklet.js:113-123 | At any ratio, that holds all through a run if and only if every output of it finds the whole samples it calls for |
| PlayoutRuns.RunKeepsFraction | web/audio-worklet.js:113-122 | Then the fraction stays in [0,1) |
| PlayoutRuns.InterpolatedIsBetween | web/audio-worklet.js:109-114 | An output lies between its two samples |
| PlayoutRuns.LinesArePlayedAsLines | web/audio-worklet.js:106-127 | Samples on a line are played as a line, at any ratio and over any number of outputs with samples on both sides |
| PlayoutRuns.OutputsAreBounded | web/audio-worklet.js:106-127 | Then no output ever exceeds full scale |
| PlayoutSessions.CallbackIsProcess | web/audio-worklet.js:69-159 | A callback of a session is one call of the player on the ring's state |
| PlayoutSessions.PlayoutIsSoundIff | web/audio-worklet.js:43-159 | For every input rate a header can carry, output rate and block size: all sessions stay within full scale, and all use up their input exactly, if and only if the input rate is at most the output's |
| PlayoutRates.RatesAreSoundIff | web/audio-worklet.js:43-159 | For rates a header can carry, changing at will, with any chunks, overfull ones too, and any callbacks: no output exceeds full scale if and only if no rate is above the output's |
| PlayoutRuns.PlayoutStopsAfterSilence | web/audio-worklet.js:129-150 | Playout survives 188 empty callbacks and stops at the 189th |
| Jitter.JitterStats.Add | internal/audio/jitter.go:17-41 | The field updates are Welford's step |
| Jitter.JitterStats.GetVariance | internal/audio/jitter.go:48-54 | m2 over the count, 0 below two samples |
| Jitter.JitterStats.Reset | internal/audio/jitter.go:61-64 | Back to no samples |
| Jitter.MeanIsExact | internal/audio/jitter.go:36-38 | The mean times the count is the sum of the samples |
| Jitter.DeviationIsExact | internal/audio/jitter.go:36-40 | m2 is the sum of squared deviations from the final mean |
| Jitter.BoundsAreExact | internal/audio/jitter.go:21-34 | min and max are the least and greatest sample |
| Jitter.MeanIsBetween | internal/audio/jitter.go:17-41 | min <= mean <= max |
| Jitter.VarianceIsPopulationVariance | internal/audio/jitter.go:48-54 | The variance is the mean squared deviation and not negative |
| Jitter.JitterEntry.AddJitterSample | web/audio-engine.js:289-305 | The browser's statistics stay equal to the server's on the same samples |
| Jitter.JitterEntry.ResetJitterStats | web/audio-engine.js:312-319 | Equal to the server's with no samples |
| AudioFrames.DecodedEncoded | internal/api/audio_stream.go:147-172 | For all field values the browser reads each field modulo its width |
| AudioFrames.RoundTripIffInRange | web/audio-engine.js:416-427 | A frame arrives as sent if and only if every field fits |
| AudioFrames.FrameLayout | internal/api/audio_stream.go:147-172 | Which bytes each field is in, the high byte first |
| AudioFrames.DecodedReads | web/audio-engine.js:416-427 | Messages of at least 14 bytes are read the same way, a rate of 0 as 8000 |
| AudioFrames.Connection.WriteFrame | internal/api/audio_stream.go:148-172 | The bytes put into the reused buffer are the encoding, under the talkgroup's next number |
| AudioFrames.AudioEngine.HandleBinaryFrame | web/audio-engine.js:416-495 | A frame more than 500 ms after the last ends the transmission at that last frame and begins one; otherwise the frame is counted, and a gap if its number is not the next. LossyFrames says what that comes to over a run |
| AudioFrames.NoGapIsEverCounted | web/audio-engine.js:438-495 | On one connection, past any wraparound and pause, no gap is counted, in this transmission or an ended one, while the header tells the sources apart |
| AudioFrames.ConfusedSourcesShowAGap | internal/api/audio_stream.go:149-151 | Any two sources the header confuses show one with their first frames |
| AudioFrames.SourcesNeverGapIff | internal/api/audio_stream.go:147-172 | A set of sources shows no gap over any frames drawn from it if and only if no two of its server keys agree in the header |
| LossyFrames.LossesAreCounted | web/audio-engine.js:438-495 | For sources the header tells apart, over any run and any losses, the browser keeps for each source the account of its current transmission and of all that ended: start, end, frames, and at how many of them frames had been lost |
| LossyFrames.ArrivalAddsAGapIff | web/audio-engine.js:488-495 | A frame that arrives within a transmission adds a gap if and only if the number of its source's frames lost since the last that arrived is not a multiple of 65536 |

## Left out

- ScanCursor.CursorIsSafe: holds under three hypotheses, that no transaction inserts after it cleared a row, that no other ID is drawn or xid taken between an insert's ID and its xid, and that no fetched row more than an hour old was written after an open transaction took its xid, with the xids compared within 2^31; a run breaks each, `ScanHazards.UnescapedBatchIsUnsafeIff` says exactly when a batch is unsafe without the first two, `ScanHazards.OrderedBatchIsUnsafeIff` when any batch is without the third.
- SuggestionCounts.ReachableCountsAreExact: holds of runs in which a call is linked to its group before it is fetched or heard (or to the group it has); `LateGroups.CountsStayRightIff` is the condition for all runs.
- SuggestionRuns.ReachableRowsAreOk: all scanners share one evidence cap, a merge's target is live and differs from its source, and a sighting's call is in the calls table when it is fetched. A source merged away before is merged again only when nothing elsewhere refers to a group of it; a call's group is one of its own system or of a system merged away.
- ArchiveImport.ImportOrderIsIrrelevant: covers the label and the seen times; the text columns do depend on the order of rows of equal rank.
- Building sightings from transcription text (internal/unittags): only "stop at the first unsettled row" is modelled; superseded rows carry no evidence and are not distinguished.
- The rest of a merge: unit events, trunking messages, decode rates, sites, names, the merge log and its counters, and the first_seen and last_seen of merged units.
- Foreign keys other than the one a sighting can break, and the constraint on talkgroups.mode.
- Import into a database without the alpha_tag_source column (internal/database/units.go:455-490).
- Which calls a backfill filter selects: the matching set is any set that may change between pages. Timeouts are failed queries; what the transcription queue does with a call is a yes or no.
- Backfill logging: the loop cancels the job's context before it asks whether it was cancelled, so its log always says so.
- Delivery of events to subscribers' channels, and the handoff between replay and subscription.
- The text of an event ID: it is a pair of time and number, or any other text; trimming covers ASCII white space.
- Encoding of audio data, jitter snapshots and the parsing of talkgroup keys in the router; a map entry is a value, so a stream is replaced where the code updates it through a reference.
- OverlappingStores.NeverTwoPrimariesIff: row locks are not modelled, so its runs include all that the locks allow and some they delay; a constraint that refuses a row is an abort.
- PlayoutSessions.PlayoutIsSoundIff: quantifies over the sessions whose chunks fit behind what is queued, in which the ring is a queue, at one constant input rate; `PlayoutRates.RatesAreSoundIff` drops both for loudness, taking for what an overfull chunk leaves any samples within full scale.
- AudioFrames.AudioEngine.HandleBinaryFrame: leaves out the delay statistics and their outlier rule, the recorded audio chunks, and the limit on the list of ended transmissions.
- Buffer statistics and the stop message of the audio worklet, and an output without channels.
- Floating-point rounding, square roots, JSON, HTTP, MQTT, UDP and WebSocket transport, clocks other than as parameters.
- Maps are iterated in any order; the order of Go's map iteration is not fixed.
