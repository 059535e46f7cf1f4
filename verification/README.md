# Verified models of the Navidrome fork's hard parts

This project states, as Dafny models with machine-checked proofs, what six parts of the
server and its deployment tools are for:

1. **Smart-playlist criteria to SQL.** A criteria tree is compiled to a condition that is
   evaluated in SQL three-valued logic over rows with NULLs. The compiler is correct for every
   tree and row, and its two rewrites (bare annotation columns, batched `EXISTS` subqueries)
   change nothing a query can see.
2. **Genre repair and Beets sync.** Two write-ahead protocols over live files, backups, the
   Beets database and a durable manifest. Every durable action is a step that may be carried
   out, fail or never return, so each method's postcondition speaks of the state left behind
   at any such point.
3. **Personal-radio feedback.** An idempotent event log that drives item outcomes, transition
   counters and the discovery lifecycle, one transaction per event.
4. **Playlist positions.** A table with `UNIQUE(playlist_id, id)` that refines one list per
   playlist. An `UPDATE` visits its rows in an arbitrary order and each single-row change is
   checked.
5. **Two persistent queues.** The artwork queue with `retry_at` as a version stamp, and the
   download-job queue with find-or-create and claim by compare-and-set, as traces of
   interleaved statements.
6. **Lyrics.** Voice allocation, cue ends per agent, exact UTF-8 byte ranges after trimming,
   and streaming white-space collapse (white space as in section 2.3 of XML 1.0, default
   handling as in section 8.2.10 of TTML2).

`dafny verify dfyconfig.toml` checks everything.

Modules: `Prelude`, `Genres` and `Faults` (shared types), `SqlCondition`, `ConditionMerging`,
`CriteriaCompiler`, `CriteriaLaws`, `GenreRepair`, `BeetsSync`, `RadioFeedback`, `RadioLaws`,
`PlaylistPositions`, `ArtworkQueue`, `DownloadJobs`, `LyricsText`, `EnhancedLrc`, `TtmlLines`,
`CueEnds`, `VoiceAllocation`, `Lyricsfile`. `CriteriaLaws` and `RadioLaws` say in plain terms what
the specifications they are named after amount to.

## Findings

Properties a reader might expect that the code does not have; each is shown by a member below,
with the exact condition under which the property does hold.

- The bare annotation comparison is not equal to the `COALESCE` form: it yields NULL for FALSE
  (`NegatedPlayCount`; `NegationNeedsCoalesce` says exactly when a NOT above it would be wrong).
  The compiler is right because no NOT is ever built above a comparison (`CompileBelow`).
- A failed or killed apply cannot always be resumed: an undisturbed second run completes exactly
  when no file is in the window between being replaced and having its post-state recorded
  (`ApplyAgain`); the window is reached (`CrashInWindow`). In it neither a resumed apply nor a
  plain rollback can finish (`StuckIsUnknown`, `PlainRollbackOfStuck`); the resumed apply marks
  the run failed and then a forced rollback restores everything (`RecoverStuck`).
- After apply and a library scan, rollback, even forced, refuses a candidate whose replacement
  list repeats a genre; it finishes exactly when every list reads back as planned
  (`ApplyScanUndo`), which lists made by `unique_values` always do (`UniquePlanReadsBack`).
- An interrupted plain Beets rollback cannot always be resumed: an undisturbed second run finishes
  exactly when every row restored but not yet marked has the same original and replacement lists
  up to normalisation (`RollbackAgain`); a forced one always finishes.
- A `kept` discovery is not kept for good (`KeptIsNotPermanent`); it leaves that state exactly on
  an early skip that can be told from the request and the stored item (`KeptUnlessSkippedEarly`).
- Reorder with an argument outside the list leaves gaps, unless both arguments lie on the same
  side of it (`ListAfterMove`, `MoveFromBeyond`).
- Lines not sorted by start may overlap and share a voice (`UnsortedMayShare`); a voice is safe
  while no line starts at or after its end (`SoundingThroughKeepsVoice`).
- The number of voices equals the greatest number of lines active together exactly when a line
  of positive length is among the deepest (`VoicesAreMostActive`); a line without an end inside
  another one takes a voice although it is never active (`InstantLineTakesVoice`).
- A Lyricsfile cue's byte range selects its value exactly when the word has text
  (`WordSelects`); an empty word gets the range of one byte.

## Model

| member | source | states |
|---|---|---|
| SqlCondition.EvalAndIs | persistence/criteria_sql.go:141-150 | a conjunction under three-valued logic depends only on which truth values occur among its members |
| SqlCondition.EvalOrIs | persistence/criteria_sql.go:151-160 | the same for a disjunction |
| SqlCondition.ExistsAnyIs | persistence/criteria_sql.go:560-607 | a batched subquery is two-valued and TRUE exactly when some value matches some of its inner conditions, negated if asked |
| ConditionMerging.ChunksPartition | persistence/criteria_sql.go:515-537 | batching loses, repeats and reorders nothing, and makes ceil(n/350) batches of 1 to 350 |
| ConditionMerging.CollectGroups | persistence/criteria_sql.go:489-513 | the loop's groups hold, for every field, exactly its mergeable conditions with their indices, under keys in strictly ascending text order |
| ConditionMerging.KeysAscending | persistence/criteria_sql.go:517 | the keys come in ascending order of their texts, whatever order the conditions came in |
| ConditionMerging.KeysByName | persistence/criteria_sql.go:517 | which order that is: roles before tags, and by name within each |
| ConditionMerging.AppendBatches | persistence/criteria_sql.go:526-536 | the chunk loop appends one subquery for each batch of at most 350 |
| ConditionMerging.BuildAdditions | persistence/criteria_sql.go:515-537 | the loop over the keys removes exactly the members of groups of two or more and appends their batches |
| ConditionMerging.KeepOthers | persistence/criteria_sql.go:543-550 | the remaining conditions stay in order |
| ConditionMerging.MergeSameFieldConds | persistence/criteria_sql.go:478-550 | the rewritten list, and that it reports a change exactly when some field has two or more mergeable conditions |
| ConditionMerging.MergedWithoutGroups | persistence/criteria_sql.go:459-473 | without such a field the rewrite is the identity, so the callers' early return is harmless |
| ConditionMerging.PairsAreMerged | persistence/criteria_sql.go:478-550 | when two conditions with a field value and the same negation name one field, none of that kind on it is left in the list |
| ConditionMerging.OthersStay | persistence/criteria_sql.go:543-550 | a condition that shares its field with no other is still in the list |
| ConditionMerging.AdditionsAreBatches | persistence/criteria_sql.go:526-536 | all that is added are batched subqueries |
| ConditionMerging.BatchHit | persistence/criteria_sql.go:450-458 | the batches of a field contain a deciding condition exactly when one of the field's conditions was deciding, and are never NULL |
| ConditionMerging.BatchShape | persistence/criteria_sql.go:515-537 | n conditions on one field (n at least 2) become ceil(n/350) subqueries of at most 350, and each condition lands in exactly one of them |
| ConditionMerging.MergedHit | persistence/criteria_sql.go:478-550 | for every row the merged list contains a deciding condition exactly when the original does |
| ConditionMerging.MergedUnknown | persistence/criteria_sql.go:478-550 | for every row the merged list contains a NULL exactly when the original does |
| ConditionMerging.MergeKeepsOr | persistence/criteria_sql.go:459-464 | merging keeps the exact three-valued result of an OR group, for every list and row |
| ConditionMerging.MergeKeepsAnd | persistence/criteria_sql.go:466-473 | merging negated conditions (De Morgan form) keeps the exact three-valued result of an AND group |
| CriteriaCompiler.AnnotationBelow | persistence/criteria_sql.go:698-742 | the bare form is TRUE exactly when the COALESCE form is, can differ only by NULL for FALSE, and does not differ on annotated rows |
| CriteriaCompiler.NegationNeedsCoalesce | persistence/criteria_sql.go:715-742 | a NOT above both forms selects the same rows exactly when the row is annotated, COALESCE was kept, or the default satisfies the comparison |
| CriteriaCompiler.NegatedPlayCount | persistence/criteria_sql.go:715-742 | an input on which they differ: NOT (playcount > 0) on a row never played selects with COALESCE and is NULL without |
| CriteriaCompiler.ComparisonCondIs | persistence/criteria_sql.go:682-714 | a compiled comparison is TRUE exactly when the field's value (or its default) satisfies it |
| CriteriaCompiler.RangeCondIs | persistence/criteria_sql.go:292-315 | a compiled range is TRUE exactly on the rows inside the closed range, default included |
| CriteriaCompiler.PeriodCondIs | persistence/criteria_sql.go:317-340 | in-the-last is strictly after the first date, not-in-the-last strictly before it or never; the boundary date is in neither |
| CriteriaCompiler.MissingCondIs | persistence/criteria_sql.go:207-253 | missing and present select by NULL, the empty encodings, and tag or role absence |
| CriteriaCompiler.CompileIsRight | persistence/criteria_sql.go:139-198 | compiler correctness: for every criteria tree, row and choice of rewrites, a row is selected exactly when it satisfies the tree as written; the CriteriaLaws rows say in arithmetic and text what each leaf means |
| CriteriaLaws.NumberComparisons | persistence/criteria_sql.go:163-172 | on a column with value or default x the six comparisons with n select the row exactly when x = n, x is not n, x > n (gt and after), x < n (lt and before) |
| CriteriaLaws.FlagComparisons | persistence/criteria_sql.go:163-168 | a boolean compares as one or zero |
| CriteriaLaws.ListComparisons | persistence/criteria_sql.go:163-172 | a list reads as membership under is and isNot; every other operator refuses it |
| CriteriaLaws.RangeOfNumbers | persistence/criteria_sql.go:292-315 | a range selects exactly when low <= x <= high |
| CriteriaLaws.NothingComparesWithNull | persistence/criteria_sql.go:682-714 | a missing value without a default satisfies no comparison and lies in no range |
| CriteriaLaws.TagComparisons | persistence/criteria_sql.go:255-290 | on a tag or role one value has to compare; under isNot no value may be equal |
| CriteriaLaws.CoalesceKept | persistence/criteria_sql.go:715-742 | for which operators, defaults and values the shipped compiler keeps COALESCE: exactly those the bare form would answer differently or cannot be typed for |
| CriteriaLaws.RulesAreBatched | persistence/criteria_sql.go:141-160 | where two rules of a group ask of one tag or role, no subquery of a single rule is left for it in the compiled group |
| CriteriaLaws.AnythingAround | persistence/criteria_sql.go:173-174 | a pattern between percent signs matches, under SQLite LIKE, exactly the texts with a stretch that matches it |
| CriteriaLaws.AnythingAfter | persistence/criteria_sql.go:175-176 | a pattern followed by a percent sign matches exactly the texts with a prefix that matches it |
| CriteriaLaws.AnythingBefore | persistence/criteria_sql.go:177-178 | a pattern behind a percent sign matches exactly the texts with a suffix that matches it |
| CriteriaLaws.PlainMatch | persistence/criteria_sql.go:173-180 | a pattern without wildcards matches itself alone, up to the case of ASCII letters |
| CriteriaLaws.TextOfColumn | persistence/criteria_sql.go:173-180 | contains, notContains, startsWith and endsWith select a column by a stretch, no stretch, a prefix and a suffix of its text |
| CriteriaLaws.TextInTag | persistence/criteria_sql.go:173-180 | on a tag or role some value has to contain the text; under notContains none may |
| CriteriaLaws.TextStartsTag | persistence/criteria_sql.go:173-180 | on a tag or role some value has to start with the text |
| CriteriaLaws.TextEndsTag | persistence/criteria_sql.go:173-180 | on a tag or role some value has to end with the text |
| CriteriaLaws.CompilesWhen | persistence/criteria_sql.go:139-340 | exactly which trees compile, by what every leaf names and is given |
| CriteriaLaws.RefusedBecause | persistence/criteria_sql.go:200-374 | which error a refused rule reports |
| CriteriaLaws.GroupRefusedBecause | persistence/criteria_sql.go:141-160 | a group reports the error of its first unacceptable member |
| CriteriaLaws.WhereSelects | persistence/criteria_sql.go:132-198 | a playlist without rules has every track; one with an accepted tree has exactly the tracks that satisfy it |
| CriteriaCompiler.CompileSucceedsAlike | persistence/criteria_sql.go:139-198 | the rewrites never decide whether a tree compiles or which error it gives |
| CriteriaCompiler.ShippedSelectsSameRows | persistence/criteria_sql.go:132-198 | the shipped translation selects the same rows as the one with COALESCE everywhere and no merging |
| CriteriaCompiler.CompileBelow | persistence/criteria_sql.go:139-198 | over whole trees the shipped translation differs from the plain one only by NULL in place of FALSE |
| GenreRepair.Repair.constructor | deploy/repair_music_genres.py:830-1045 | a fresh dry-run manifest is a sound starting state, also when several rows name one file |
| GenreRepair.UniqueIs | deploy/repair_music_genres.py:225-235 | unique_values lists every usable genre of the list once, up to normalisation, in the order of first occurrence, and nothing else |
| GenreRepair.UniqueFrom | deploy/repair_music_genres.py:225-235 | every value it lists is an element of the list, stripped |
| GenreRepair.AsAskedMeans | deploy/repair_music_genres.py:1168-1194 | a file has its genres as asked only if every usable requested genre is among them, each of them was requested, and no two normalise alike |
| GenreRepair.ReadyWhen | deploy/repair_music_genres.py:1217-1277 | when a candidate is ready: its database row names the planned recording and genres, its file holds recorded content, and what the tag writer makes of it passes the checks |
| GenreRepair.MayRestoreWhen | deploy/repair_music_genres.py:1217-1277 | when rollback accepts an entry: its database row has the planned or the replacement genres and its file may be put back |
| GenreRepair.DoneIsAsAsked | deploy/repair_music_genres.py:1352-1402 | a finished candidate's file has its own other tags and its genres as asked |
| GenreRepair.Repair.CopyToBackup | deploy/repair_music_genres.py:1062-1071 | a backup copy appears whole or not at all |
| GenreRepair.Repair.ReplaceGenres | deploy/repair_music_genres.py:1168-1194 | the live file is unchanged or is the verified replacement, whatever happens; success means the latter |
| GenreRepair.Repair.EnsureBackup | deploy/repair_music_genres.py:1374-1387 | the backup of the original bytes is durably recorded before the file may be touched |
| GenreRepair.Repair.ChangeFile | deploy/repair_music_genres.py:1388-1402 | replacing, recording the post-state and undoing on an exception keep the safety property at every stopping point |
| GenreRepair.Repair.UndoChange | deploy/repair_music_genres.py:1390-1396 | the exception branch puts back the original bytes and always re-raises |
| GenreRepair.Repair.ResumeEntry | deploy/repair_music_genres.py:1360-1373 | resuming an entry accepts a finished file without touching it, redoes an untouched one and refuses anything else, changing nothing |
| GenreRepair.Repair.ApplyEntry | deploy/repair_music_genres.py:1354-1402 | one loop iteration changes only its own file and entry and keeps the safety property; it finishes only on a ready entry and does when undisturbed; stopped, it leaves a ready entry ready or in the crash window |
| GenreRepair.Repair.ApplyAll | deploy/repair_music_genres.py:1352-1403 | when every file has one row: the loop completes only from a ready state, with every candidate replaced and both states recorded, and does complete when undisturbed; backups in other directories are left alone |
| GenreRepair.Repair.Apply | deploy/repair_music_genres.py:1317-1412 | in every state apply can leave behind the safety property holds; exactly when it refuses, in terms of the arguments and the manifest; after completion with one row a file, every candidate file has its own other tags and its genres as asked; undisturbed it then completes exactly when every candidate is ready, and otherwise marks the run failed |
| GenreRepair.GrowsSound | deploy/repair_music_genres.py:1352-1412 | a manifest of the same plan that forgets no backup allows every file what it was allowed before |
| GenreRepair.SoundAfterBackup | deploy/repair_music_genres.py:1056-1071 | writing an unrecorded entry's backup disturbs no recorded backup |
| GenreRepair.SoundAfterLive | deploy/repair_music_genres.py:1388-1396 | once an entry's backup is recorded its file may be replaced or put back |
| GenreRepair.EveryFileIsRecoverable | deploy/repair_music_genres.py:1317-1412 | in a sound state every library file is its original, or is its original with the genre replaced while the durable manifest names a backup of the original bytes; one entry holds both when the rows of a file agree on what they saw |
| GenreRepair.Repair.Run | deploy/repair_music_genres.py:1317-1470 | over every plan and every sequence of applies, rollbacks and library scans with failures and crashes anywhere, every file stays recoverable in that sense |
| GenreRepair.Repair.RollbackEntry | deploy/repair_music_genres.py:1432-1465 | one rollback iteration puts the recorded backup back over its own file, exactly if validation passes when undisturbed, and leaves a sound state wherever it stops |
| GenreRepair.Repair.Rollback | deploy/repair_music_genres.py:1415-1470 | exactly when it refuses; backups are never touched; finishing marks every backed-up entry; when the rows of a file agree on its original, undisturbed it finishes exactly when every entry passes validation at its turn, finishing leaves the whole library byte for byte original, and interrupted it can be run again |
| GenreRepair.TurnComes | deploy/repair_music_genres.py:1432-1453 | an entry passes validation at its turn exactly when it could be restored from the state rollback found: later rows of a file need no content check |
| GenreRepair.AllRestored | deploy/repair_music_genres.py:1415-1470 | with every backed-up file restored no file of the library differs from its original |
| GenreRepair.CompletedApplyCanRestore | deploy/repair_music_genres.py:1217-1277 | after a completed apply rollback's validation passes, forced or not, exactly when the database rows do |
| GenreRepair.ForceCanRestore | deploy/repair_music_genres.py:1217-1277 | with force only the database rows can stop a rollback |
| GenreRepair.Repair.RollbackUntilDone | deploy/repair_music_genres.py:1415-1470 | rollback failing or killed any number of times and rerun ends with the original library |
| GenreRepair.Repair.ApplyThenUndo | deploy/repair_music_genres.py:1317-1470 | a completed apply followed by such a rollback, without force, restores every file |
| GenreRepair.Repair.ApplyScanUndo | deploy/repair_music_genres.py:1317-1470 | apply, library scan, rollback: after a completed apply the rollback finishes, with the library original, exactly when every replacement list reads back as planned, and fails otherwise, even forced |
| GenreRepair.ScannedDbAccepts | deploy/repair_music_genres.py:1237-1244 | after a completed apply and a scan the database rows pass exactly when dropping repeated genres leaves a list as planned or as the database had it |
| GenreRepair.UniquePlanReadsBack | deploy/repair_music_genres.py:225-235 | lists that came through unique_values always read back as planned, stripping being idempotent |
| GenreRepair.RepeatDoesNotReadBack | deploy/repair_music_genres.py:225-235 | a list naming a genre twice does not |
| GenreRepair.Repair.ForceUndoOfFailed | deploy/repair_music_genres.py:1415-1470 | from every failed apply, however reached, forced rollback restores every file |
| GenreRepair.StuckIsUnknown | deploy/repair_music_genres.py:1217-1277 | in the crash window neither apply's nor plain rollback's validation can pass |
| GenreRepair.ReadyUnlessStuck | deploy/repair_music_genres.py:1352-1402 | a stopped run is ready again exactly when no candidate is in the crash window |
| GenreRepair.Repair.ApplyAgain | deploy/repair_music_genres.py:1317-1412 | an apply of ready candidates stopped anywhere and run again undisturbed completes exactly when no candidate is in the crash window |
| GenreRepair.Repair.CrashInWindow | deploy/repair_music_genres.py:1374-1401 | the window is reached: killed between replacing a file and recording its post-state, exactly when the written bytes differ, and always when the normalised genres do |
| GenreRepair.Repair.PlainRollbackOfStuck | deploy/repair_music_genres.py:1415-1470 | in the crash window a rollback without force never finishes |
| GenreRepair.Repair.RecoverStuck | deploy/repair_music_genres.py:1317-1470 | in the crash window a resumed apply fails and marks the run, and forced rollback then restores everything |
| BeetsSync.Sync.constructor | deploy/sync_beets_genres.py:101-148 | a dry-run plan over distinct items is a sound starting state |
| BeetsSync.AcceptsWhen | deploy/sync_beets_genres.py:202-219 | when a re-run accepts a candidate: the item is there under its path, with the planned list, or already recorded and with the replacement |
| BeetsSync.MayRestoreWhen | deploy/sync_beets_genres.py:259-268 | when rollback accepts a row: the item is there under its path and, unless forced, has the list that was written, or the replacement when none is recorded |
| BeetsSync.SoundAfterStore | deploy/sync_beets_genres.py:227-231 | a Beets row may change once its record is durable, without disturbing the other rows |
| BeetsSync.Sync.RecordAndStore | deploy/sync_beets_genres.py:221-236 | the original list is durably recorded before the Beets row changes |
| BeetsSync.Sync.SyncRow | deploy/sync_beets_genres.py:202-236 | one candidate: accepted as planned or as already written, refused otherwise; whatever happens it stays acceptable to a re-run |
| BeetsSync.AcceptedElsewhere | deploy/sync_beets_genres.py:202-236 | because items are distinct, working on one row never makes another unacceptable |
| BeetsSync.Sync.Apply | deploy/sync_beets_genres.py:185-245 | exactly when it refuses; completion means every planned row is applied and shows its replacement; a failed or killed run leaves a state that a re-run accepts, and an undisturbed failure is recorded |
| BeetsSync.Sync.ApplyUntilDone | deploy/sync_beets_genres.py:185-245 | apply interrupted anywhere any number of times ends with every candidate at its replacement and old_genres holding its original list |
| BeetsSync.Sync.RestoreRow | deploy/sync_beets_genres.py:259-276 | one applied row goes back to its original list |
| BeetsSync.Sync.Rollback | deploy/sync_beets_genres.py:248-280 | undisturbed it finishes exactly when every applied row is restorable; finishing leaves every Beets row at its original list; an interrupted one can be forced again |
| BeetsSync.AllRestored | deploy/sync_beets_genres.py:248-280 | with every active row marked restored no Beets row differs from its original |
| BeetsSync.Sync.CompletedSyncRestorable | deploy/sync_beets_genres.py:258-268 | a completed sync is accepted for rollback with or without force |
| BeetsSync.Sync.SyncThenRollback | deploy/sync_beets_genres.py:185-280 | sync with any interruptions, then one rollback, restores the original lists, forced or not |
| BeetsSync.Sync.SyncThenUndo | deploy/sync_beets_genres.py:185-280 | the same with a forced rollback that is itself interrupted any number of times |
| BeetsSync.Sync.RollbackAgain | deploy/sync_beets_genres.py:248-280 | after a plain rollback of a completed sync stopped anywhere, an undisturbed plain re-run finishes exactly when every row that already shows its original list has the same replacement up to normalisation; otherwise a forced one finishes |
| BeetsSync.HalfBackRestorable | deploy/sync_beets_genres.py:262-268 | half way back, rollback's check passes for all rows exactly on that condition |
| BeetsSync.Sync.KilledBeforeMark | deploy/sync_beets_genres.py:269-276 | such a row is reached by dying between the store and the manifest write |
| RadioFeedback.OutcomeRises | persistence/personal_radio_repository.go:473-536 | every applied event moves an item strictly up none, started, early_skip, accepted, late_skip, keep, completed |
| RadioLaws.OutcomeAfter | persistence/personal_radio_repository.go:473-536 | the outcome of a committed event for every event and prior outcome, as a table; a skip is early below 30 seconds and below a fifth of the recording |
| RadioLaws.ListeningAfter | persistence/personal_radio_feedback.go:168-199 | the item keeps the longest listening data of the two, is marked played and dated; other items stay |
| RadioLaws.RefusedWhen | persistence/personal_radio_feedback.go:141-167 | exactly which deliveries are not found or conflict, and no other error comes from the data |
| RadioLaws.TrackAfter | persistence/personal_radio_feedback.go:201-224 | which counter of the recording a committed event moves, for each new outcome and for a restarted discovery; no other recording moves |
| RadioLaws.TransitionAfter | persistence/personal_radio_repository.go:538-571 | a committed event moves only the transition row of its own source and target, by a new binding and by the new outcome |
| RadioLaws.BindingAfter | persistence/personal_radio_feedback.go:176-190 | an item is bound exactly on its first start with an identified latest source, and to that source |
| RadioLaws.LatestIsAnchor | persistence/personal_radio_repository.go:461-471 | the source is the accepted, finished, kept or late-skipped item of the session with the latest feedback, ties going to the larger id |
| RadioLaws.DiscoveryAfter | persistence/personal_radio_feedback.go:209-251 | what a committed event makes of the discovery of its recording: state, start count and expiry |
| RadioFeedback.AnchorIsUnique | persistence/personal_radio_repository.go:461-471 | the most recent accepted item of a session is unique |
| RadioFeedback.RadioRepository.RecentAccepted | persistence/personal_radio_repository.go:461-471 | the query returns that item |
| RadioFeedback.RadioRepository.Bind | persistence/personal_radio_feedback.go:176-190 | an item is bound to a source only on a start, only once, and only between identified tracks |
| RadioFeedback.RadioRepository.WriteItem | persistence/personal_radio_feedback.go:168-199 | the item and transition writes together are the specified new store, whose outcome and counters RadioLaws tabulates |
| RadioFeedback.RadioRepository.ApplyPlaybackFeedback | persistence/personal_radio_feedback.go:141-262 | the transaction computes the specified store and reply, or the specified error |
| RadioFeedback.RadioRepository.Attempt | persistence/personal_radio_feedback.go:109-139 | one attempt commits as a whole or leaves no trace |
| RadioFeedback.RadioRepository.Record | persistence/personal_radio_feedback.go:36-107 | over up to four attempts the request takes effect exactly once on success and not at all on an error; it succeeds exactly when a clear attempt comes in time and the request is acceptable |
| RadioFeedback.LoggedDoesNothing | persistence/personal_radio_feedback.go:141-167 | a logged event id changes nothing: the same contents are a duplicate, others a conflict |
| RadioFeedback.RedeliveryIsHarmless | persistence/personal_radio_feedback.go:141-167 | redelivering a committed event at any later point, with any contents, leaves the final state of every log as if it had not been redelivered |
| RadioFeedback.RepeatsRemoved | persistence/personal_radio_feedback.go:141-167 | a log ends where the log with repeats removed ends |
| RadioFeedback.LoggedIff | persistence/personal_radio_feedback.go:252-262 | an event is on record exactly when some delivery of it committed |
| RadioFeedback.CommittedParts | persistence/personal_radio_feedback.go:168-262 | what a committed event does to items, log and transitions, whatever else it writes |
| RadioFeedback.DeltaIsReached | persistence/personal_radio_repository.go:473-512 | a counter moves by one exactly when the item reaches that level now |
| RadioFeedback.BindingCounts | persistence/personal_radio_feedback.go:168-199 | an attempt is counted exactly when an item becomes bound |
| RadioFeedback.ReplayConsistent | persistence/personal_radio_repository.go:538-571 | over every run each counter of every transition row is bounded by the items bound there that got that far |
| RadioFeedback.CountersOverEveryRun | persistence/personal_radio_repository.go:538-571 | over every run attempt_count equals the number of items bound to that source and target, and no other counter exceeds it |
| RadioFeedback.ItemLife | persistence/personal_radio_repository.go:473-536 | over its whole life an item's outcome, listened and duration never go down, its binding never changes, and each outcome is applied at most once |
| RadioFeedback.AddsAtMostOne | persistence/personal_radio_feedback.go:168-199 | over its whole life an item adds at most one to each transition counter, only to those whose level it came to, and exactly one to the attempts when it is bound |
| RadioFeedback.RecordingCounters | persistence/personal_radio_feedback.go:201-224 | over every run a recording's positive, neutral and early counters add up to the judgements delivered, a restart of a discovery being one, and completions stay among the positives |
| RadioFeedback.KeptIsNotPermanent | persistence/personal_radio_feedback.go:209-251 | a run that does it: start, start, early skip takes a discovery to kept and then to pending deletion |
| RadioFeedback.KeptUnlessSkippedEarly | persistence/personal_radio_feedback.go:209-251 | for every store and committed delivery a kept discovery stops being kept exactly on a manual skip of its own recording by an item with no outcome past a start, heard for less than the threshold |
| PlaylistPositions.PlaylistTracks.SetPosition | persistence/playlist_track_repository.go:254-292 | a single-row change is refused exactly when another row of the playlist has that position |
| PlaylistPositions.PlaylistTracks.UpdatePositions | persistence/playlist_track_repository.go:254-292 | one UPDATE in any visiting order is all or nothing, and succeeds when no target meets another row's old or new position |
| PlaylistPositions.UpdateIsCollisionless | persistence/playlist_track_repository.go:254-292 | when such a statement cannot collide |
| PlaylistPositions.StatementStep | persistence/playlist_track_repository.go:254-292 | what a positional statement does to a list, without any possible collision |
| PlaylistPositions.PlacedIsMoved | persistence/playlist_track_repository.go:288-292 | rows at the positions the last statement leaves are the list with one element moved |
| PlaylistPositions.MovedIs | persistence/playlist_track_repository.go:254-292 | the moved list has the element at its new place and without it the other elements in their old order |
| PlaylistPositions.PlaylistTracks.ParkSource | persistence/playlist_track_repository.go:260-265 | the source row is parked on the sentinel |
| PlaylistPositions.PlaylistTracks.ShiftRange | persistence/playlist_track_repository.go:267-279 | the affected range goes to the negatives, shifted by one |
| PlaylistPositions.PlaylistTracks.FlipRange | persistence/playlist_track_repository.go:281-286 | the negatives are flipped back, the sentinel excepted |
| PlaylistPositions.PlaylistTracks.PlaceSource | persistence/playlist_track_repository.go:288-292 | the parked row takes its place, which completes the move |
| PlaylistPositions.PlaylistTracks.Reorder | persistence/playlist_track_repository.go:254-292 | with both positions in range the list with that element moved; for every other pair of arguments the positions stay 1..n exactly when both lie below the list or both beyond it |
| PlaylistPositions.ListAfterMove | persistence/playlist_track_repository.go:254-292 | the positions a move leaves are 1..n exactly when both arguments are on one side of the list, or it is empty |
| PlaylistPositions.MoveFromBeyond | persistence/playlist_track_repository.go:254-292 | moving position n + 1 to 1 leaves the rows at 2..n + 1 |
| PlaylistPositions.CountAbove | persistence/playlist_repository.go:508-531 | the window function numbers the negated rows 1..n in the old order |
| PlaylistPositions.PlaylistTracks.Renumber | persistence/playlist_repository.go:508-531 | renumbering succeeds and gives 1..n with the relative order kept |
| PlaylistPositions.DropAtIs | persistence/playlist_track_repository.go:235-242 | every element at a kept position stands in the shorter list behind exactly the kept ones before it |
| PlaylistPositions.DropOrphansIs | persistence/playlist_repository.go:486-500 | orphans are exactly the library entries whose file is gone; video entries are none |
| PlaylistPositions.RequestedEntry | persistence/playlist_track_repository.go:296-319 | an entry requested from HomeTube carries its id as a video, any other as a media file |
| PlaylistPositions.PlaylistTracks.Delete | persistence/playlist_track_repository.go:235-242 | the list without the tracks at the given positions |
| PlaylistPositions.PlaylistTracks.DeleteAll | persistence/playlist_track_repository.go:244-251 | the empty list |
| PlaylistPositions.PlaylistTracks.MaxPosition | persistence/playlist_track_repository.go:187-203 | the greatest position is the length of the list |
| PlaylistPositions.PlaylistTracks.AddTracks | persistence/playlist_repository.go:326-344 | chunked insertion appends the tracks in order |
| PlaylistPositions.PlaylistTracks.Add | persistence/playlist_track_repository.go:187-203 | the list with the songs appended |
| PlaylistPositions.PlaylistTracks.AddEntries | persistence/playlist_track_repository.go:296-319 | the list with mixed entries appended |
| PlaylistPositions.PlaylistTracks.Replace | persistence/playlist_repository.go:315-324 | exactly the given songs, whatever was there |
| PlaylistPositions.PlaylistTracks.CleanPlaylist | persistence/playlist_repository.go:486-500 | one playlist without its orphans, order kept |
| PlaylistPositions.PlaylistTracks.CleanAll | persistence/playlist_repository.go:471-503 | cleaning the affected playlists in any order removes every orphan everywhere |
| PlaylistPositions.RepresentsOneList | persistence/playlist_track_repository.go:187-319 | a table never represents two different lists for one playlist |
| PlaylistPositions.PlaylistTracks.Run | persistence/playlist_track_repository.go:187-319 | over any run of all these operations positions stay exactly 1..n and the table refines the lists under append, filter and move |
| ArtworkQueue.StampOrigin | persistence/artwork_queue_repository.go:98-137 | a row's stamp was written by its latest write |
| ArtworkQueue.StampNeverReturns | persistence/artwork_queue_repository.go:98-137 | a stamp seen before a write to the row is never seen there again |
| ArtworkQueue.DeleteSeesLatest | persistence/artwork_queue_repository.go:135-137 | in every interleaving a row is deleted only by a worker whose snapshot was read at or after the latest enqueue or reschedule |
| ArtworkQueue.MarkFailedSeesLatest | persistence/artwork_queue_repository.go:126-133 | the same for a failure report |
| ArtworkQueue.OneAttemptPerStamp | persistence/artwork_queue_repository.go:126-133 | each seen stamp adds at most one attempt, whoever reports it |
| ArtworkQueue.EnqueuedWorkIsServed | persistence/artwork_queue_repository.go:35-44 | enqueued work disappears only by a purge or by a worker that read it after it was enqueued |
| ArtworkQueue.AttemptsAreFailures | persistence/artwork_queue_repository.go:98-133 | attempts is the number of effective failures since the latest enqueue |
| ArtworkQueue.PreservingKeepsBackoff | persistence/artwork_queue_repository.go:41-44 | re-requesting without a reset leaves stamp and attempts alone and can only raise the priority |
| ArtworkQueue.EnqueueResets | persistence/artwork_queue_repository.go:98-111 | after enqueueing, every named key is queued without failures and due at once, with the highest priority asked for or held; no other key changes |
| ArtworkQueue.PreservingQueues | persistence/artwork_queue_repository.go:41-44 | after enqueueing with backoff preserved, a new key is queued like that and a queued one changes in priority alone |
| ArtworkQueue.InsertLeavesQueued | persistence/artwork_queue_repository.go:90-96 | inserting what is not queued leaves a queued row untouched |
| ArtworkQueue.TargetIs | persistence/artwork_queue_repository.go:98-111 | an item without an image name asks for the primary image |
| ArtworkQueue.Queue.MarkFailedIfUnchanged | persistence/artwork_queue_repository.go:126-133 | one more attempt and the new date, exactly when the stamp is the one seen |
| ArtworkQueue.Queue.DeleteIfUnchanged | persistence/artwork_queue_repository.go:135-137 | the row goes exactly when the stamp is the one seen |
| ArtworkQueue.Queue.EnqueueItems | persistence/artwork_queue_repository.go:98-111 | the chunked loop performs the enqueues in order |
| ArtworkQueue.Queue.EnqueuePreserving | persistence/artwork_queue_repository.go:41-44 | the same with the conflict clause that preserves backoff |
| ArtworkQueue.Queue.DequeueBatch | persistence/artwork_queue_repository.go:113-124 | the n most urgent due rows by priority and age, without repeats, left in the table; nothing due is missing unless the batch is full |
| DownloadJobs.StepKeepsOneActive | persistence/music_download_job_repository.go:50-114 | every statement keeps at most one queued-or-running job per user and song |
| DownloadJobs.OneActiveAlways | persistence/music_download_job_repository.go:50-245 | so does every interleaving |
| DownloadJobs.ActiveWhen | persistence/music_download_job_repository.go:68-114 | an active job is a queued or running song job of that user and source |
| DownloadJobs.CompletedIsInactive | persistence/music_download_job_repository.go:222-236 | completing changes the status of that job alone and makes it inactive |
| DownloadJobs.ReturnsWhatItPromoted | persistence/music_download_job_repository.go:90-114 | the job read back is the job promoted |
| DownloadJobs.FindOrCreateAnswersActive | persistence/music_download_job_repository.go:68-88 | the answer is the one active job of that song, created exactly when there was none |
| DownloadJobs.StillTaken | persistence/music_download_job_repository.go:170-220 | while nothing is requeued a claimed job does not wait again |
| DownloadJobs.ClaimedOnce | persistence/music_download_job_repository.go:170-245 | no job is handed to two workers unless running jobs were requeued in between |
| DownloadJobs.JobRepository.PromoteActive | persistence/music_download_job_repository.go:90-114 | the active job with at least the requested priority if it waits, untouched if it runs |
| DownloadJobs.JobRepository.FindOrCreatePlay | persistence/music_download_job_repository.go:68-88 | the active job of this user's song, created exactly when there is none |
| DownloadJobs.JobRepository.SelectNext | persistence/music_download_job_repository.go:170-200 | the next waiting job by priority and age, or none when nothing is claimable |
| DownloadJobs.JobRepository.ClaimNext | persistence/music_download_job_repository.go:170-220 | whatever commits in between, a worker is given the most urgent waiting job exactly when its own guarded update moved it from queued to running |
| DownloadJobs.JobRepository.Requeue | persistence/music_download_job_repository.go:238-245 | exactly the running jobs wait again |
| LyricsText.TrimSpaceBytes | model/lyrics_lrc.go:240-246 | the kept byte range holds exactly the UTF-8 bytes of the trimmed text, also for all-space text |
| LyricsText.ClipSelects | model/lyrics_lrc.go:248-263 | clipped cues select their values in the kept range, in order and without overlap |
| LyricsText.ClipTiling | model/lyrics_lrc.go:248-263 | when every stretch is a cue the clipped cues tile the kept range |
| LyricsText.ClipStampsNext | model/lyrics_lrc.go:248-263 | one more stretch adds one more cue exactly when a byte of it is kept, with its times and agent |
| EnhancedLrc.CollectSegments | model/lyrics_lrc.go:190-234 | the first loop builds the raw line and its segments from the timed words, and notes a closing marker |
| EnhancedLrc.ClipSegments | model/lyrics_lrc.go:248-263 | the second loop computes the clipped cues, each with the start of its own segment |
| EnhancedLrc.CuesTileTheLine | model/lyrics_lrc.go:210-269 | for every line each cue's inclusive range selects exactly its value, cues are ordered and disjoint, and with timed segments they tile the whole trimmed line |
| EnhancedLrc.CuesCarryTimes | model/lyrics_lrc.go:210-269 | cues and timed words that keep a byte correspond one to one, in order: each cue starts at its marker and only the last one ends, at the closing marker |
| EnhancedLrc.RawAround | model/lyrics_lrc.go:190-234 | where each word stands in the raw line |
| EnhancedLrc.ParseEnhancedLine | model/lyrics_lrc.go:178-270 | the method returns the timed words trimmed as one line, or the plain text without cues when no word is timed, and those cues: byte ranges select their values, and each cue carries the start of its own marker, the last one the time of a closing marker as its end |
| EnhancedLrc.ShiftCues | model/lyrics_lrc.go:295-312 | a copy with every known time moved by the offset |
| EnhancedLrc.ShiftMoves | model/lyrics_lrc.go:288-312 | a known start or end moves later by the offset; nothing else changes |
| EnhancedLrc.ShiftKeepsRanges | model/lyrics_lrc.go:288-312 | shifting keeps ranges valid and ordered, and shifting back undoes it |
| TtmlLines.CollapseConcat | model/lyrics_ttml.go:492-518 | collapsing is streamable: a text may be cut anywhere when the trailing-space flag is carried |
| TtmlLines.CollapseIsCollapsed | model/lyrics_ttml.go:568-587 | the result has blanks as its only XML white space and never two in a row |
| TtmlLines.CollapseKeepsContent | model/lyrics_ttml.go:568-587 | no character but blanks, tabs, line feeds and carriage returns is lost, added or moved |
| TtmlLines.CollapseTwice | model/lyrics_ttml.go:563-595 | collapsing again changes nothing, so normalising the pieces a second time is harmless |
| TtmlLines.CollapseWhitespace | model/lyrics_ttml.go:568-587 | the loop computes the collapse: single blanks for white space and every other character kept |
| TtmlLines.StreamCollapsesWhole | model/lyrics_ttml.go:492-518 | per logical line the piece-by-piece collapse equals collapsing the whole concatenation and dropping its leading blank |
| TtmlLines.EmittedFlag | model/lyrics_ttml.go:492-518 | the carried flag says whether the text emitted on this line ends in a blank |
| TtmlLines.SplitByBreak | model/lyrics_ttml.go:492-518 | the method computes exactly those streamed lines, one per break |
| TtmlLines.ConcatRaw | model/lyrics_ttml.go:589-595 | re-normalising collapsed pieces concatenates them unchanged |
| TtmlLines.FinalizeLogicalLine | model/lyrics_ttml.go:520-553 | the trimmed line and its clipped cues, each with the times and agent of its own piece |
| TtmlLines.FinalizedIsGood | model/lyrics_ttml.go:520-553 | each cue of a logical line selects its value there, in order |
| TtmlLines.FinalizedStamps | model/lyrics_ttml.go:520-553 | cues and timed pieces that keep a byte correspond one to one, in order, with the same start, end, agent and bytes |
| TtmlLines.BuiltTimings | model/lyrics_ttml.go:445-476 | joining drops and reorders no cue: their times are those of all timed pieces that keep a byte |
| TtmlLines.BreakSplits | model/lyrics_ttml.go:492-518 | a break ends a line: what is before and behind it are split apart |
| TtmlLines.OneRawLine | model/lyrics_ttml.go:492-518 | without a break there is one line |
| TtmlLines.JoinedSplits | model/lyrics_ttml.go:459-475 | splitting the joined text at line feeds gives the lines back |
| TtmlLines.TrimmedLines | model/lyrics_ttml.go:445-457 | exactly the empty lines at both ends are dropped |
| TtmlLines.LineTextIs | model/lyrics_ttml.go:492-553 | each logical line's text is its raw text collapsed as a whole and trimmed |
| TtmlLines.JoinedIsGood | model/lyrics_ttml.go:459-475 | after joining, every cue still selects its value and cues are ordered and disjoint across line breaks |
| TtmlLines.JoinLines | model/lyrics_ttml.go:459-475 | the joining loop with its running byte offset |
| TtmlLines.BuildLine | model/lyrics_ttml.go:445-476 | for every list of pieces the returned line and cues are those: every byte range selects its value, the cues carry the times and agents of exactly the pieces that keep a byte, in order, and the lines are separated by line feeds |
| CueEnds.NormalizeCueEnds | model/lyrics_normalize.go:138-171 | the loops compute the normalised group |
| CueEnds.AllOrNone | model/lyrics_normalize.go:129-171 | ends are all present or all absent, present exactly when every cue had something to take its end from, and nothing but ends changes |
| CueEnds.EndsWithin | model/lyrics_normalize.go:129-171 | each end lies between its start and the later of that and the next start |
| CueEnds.EndTable | model/lyrics_normalize.go:138-171 | the end of a normalised cue in every case of given end, next start and fallback |
| CueEnds.FittingEndsStay | model/lyrics_normalize.go:138-171 | a given end is kept exactly when it lies in those bounds |
| CueEnds.NormalizedTwice | model/lyrics_normalize.go:138-171 | a second application changes nothing |
| CueEnds.Group | model/lyrics_normalize.go:97-107 | the grouping loop lists exactly each agent's positions |
| CueEnds.Scatter | model/lyrics_normalize.go:114-125 | writing a group back changes exactly its agent's positions |
| CueEnds.OneAgent | model/lyrics_normalize.go:109-113 | with one agent the shortcut gives the same result as grouping |
| CueEnds.NormalizeCueEndsByAgent | model/lyrics_normalize.go:97-127 | the method computes the normalisation by agent, shortcut included |
| CueEnds.ByAgentProjects | model/lyrics_normalize.go:92-127 | for each agent the result restricted to it is the normalisation of its own subsequence |
| CueEnds.ByAgentEnds | model/lyrics_normalize.go:92-127 | ends are all-or-none per agent and within the agent's own neighbours |
| CueEnds.ByAgentTwice | model/lyrics_normalize.go:92-127 | a second application changes nothing |
| CueEnds.NormalizeLineTiming | model/lyrics_normalize.go:45-82 | a line takes missing bounds from its earliest start and latest time and keeps those it has |
| CueEnds.NormalizeCueLine | model/lyrics_normalize.go:84-90 | cue ends by agent, then the line's bounds |
| CueEnds.NormalizeCueLines | model/lyrics_normalize.go:17-43 | every line with its own end, or the next line's given start, as fallback |
| VoiceAllocation.Prune | model/lyrics_lyricsfile.go:134-138 | exactly the voices whose line has ended are released |
| VoiceAllocation.LowestFree | model/lyrics_lyricsfile.go:140-146 | the search terminates with the lowest free voice |
| VoiceAllocation.TableHolds | model/lyrics_lyricsfile.go:127-176 | every line still sounding holds its voice in the table of busy voices |
| VoiceAllocation.BusyIsSounding | model/lyrics_lyricsfile.go:133-146 | the voices found busy are exactly those of the earlier lines still sounding |
| VoiceAllocation.SoundingThroughKeepsVoice | model/lyrics_lyricsfile.go:133-176 | in whatever order the lines come, a line's voice is not taken while no line starts at or after its end |
| VoiceAllocation.StillSounding | model/lyrics_lyricsfile.go:133-176 | with lines sorted by start, a line never takes the voice of an earlier line that still sounds at its start |
| VoiceAllocation.OverlapNeverShares | model/lyrics_lyricsfile.go:104-176 | for entries sorted by start, lines that overlap in time never share a voice |
| VoiceAllocation.UnsortedMayShare | model/lyrics_lyricsfile.go:133-176 | four unsorted lines of which two overlap and share a voice |
| VoiceAllocation.SharedVoiceHasGap | model/lyrics_lyricsfile.go:133-176 | overlapping lines that share a voice have a line between them that starts when the first has ended |
| VoiceAllocation.VoicesArePeakDepth | model/lyrics_lyricsfile.go:104-176 | the number of voices is one more than the greatest number of lines any line meets still sounding |
| VoiceAllocation.VoicesAreContiguous | model/lyrics_lyricsfile.go:140-149 | no voice number is skipped, in whatever order the lines come |
| VoiceAllocation.VoicesAreMostActive | model/lyrics_lyricsfile.go:104-176 | the number of voices is the greatest number of simultaneously active lines exactly when a line of positive length is among the deepest |
| VoiceAllocation.AllWithLength | model/lyrics_lyricsfile.go:104-176 | in particular whenever every line has positive length |
| VoiceAllocation.InstantLineTakesVoice | model/lyrics_lyricsfile.go:166-172 | a line of no length inside another takes a second voice |
| VoiceAllocation.SecondVoiceWhen | model/lyrics_lyricsfile.go:127-149 | a second voice is used exactly when some line starts before the end of the line that comes right before it |
| Lyricsfile.WordsToLineCues | model/lyrics_lyricsfile.go:239-283 | the loops compute the cues and the line put together from the words |
| Lyricsfile.WordSelects | model/lyrics_lyricsfile.go:233-283 | a cue's range selects its value in the line exactly when its word has text |
| Lyricsfile.WordsTile | model/lyrics_lyricsfile.go:233-283 | when all words have text the cues tile the line |
| Lyricsfile.WordsOrdered | model/lyrics_lyricsfile.go:239-283 | a cue of a word with text ends before every later cue begins |
| Lyricsfile.ResolveEnds | model/lyrics_lyricsfile.go:115-125 | each line's end: its entry's own; without one its last word's; without that the next entry's start, or none |
| Lyricsfile.NameLines | model/lyrics_lyricsfile.go:127-177 | the main loop allocates the specified voices and names the cues after them |
| Lyricsfile.VoiceIdInjective | model/lyrics_lyricsfile.go:150-151 | different voices have different agent ids |
| Lyricsfile.SoundingThroughKeepsAgent | model/lyrics_lyricsfile.go:104-198 | cues of a line and of a later one it sounds through to carry different agents, in any order |
| Lyricsfile.OverlapNeverSharesAgent | model/lyrics_lyricsfile.go:104-198 | cues of overlapping attributed lines carry different agents when entries are sorted by start |
| Lyricsfile.VoiceNames | model/lyrics_lyricsfile.go:150-151 | an agent's id is its voice number in decimal, without leading zeros |
| Lyricsfile.AttributedWhen | model/lyrics_lyricsfile.go:175-198 | agents are listed exactly when a line with words exists and some line starts before the end of the line that comes right before it |
| Lyricsfile.Built | model/lyrics_lyricsfile.go:110-198 | lines that are as specified have the texts, starts, ends and word cues of their entries, and lines that go on while a later one sounds share no agent with it |
| Lyricsfile.BuildLines | model/lyrics_lyricsfile.go:110-198 | every line has its entry's text and start, its end by the three cases in order of preference and one cue for each word with that word's times; agents are listed once each exactly when some line starts before the end of the line right before it and some cue exists, then no line shares an agent with a later one it goes on through, and otherwise no cue names an agent |

## Left out

- SQL text, placeholder numbering and SQLite type affinity: conditions are values; comparisons are on numbers and booleans.
- Criteria maps with several fields in one operator: each leaf has one field.
- LIKE on a row is an arbitrary function of column and pattern; the CriteriaLaws rows about text apply to rows on which it is SQLite's LIKE without an ESCAPE character.
- Candidate selection, MusicBrainz evidence and `classify_existing_genres` in the genre repair plan: the plan is an input.
- Tag reading and writing, ID3v1 footers, paths, symlinks and the check that the backup directory is outside the library: a file is its genre, its other tags and its audio, and the writer is an arbitrary function whose result is checked as the code checks it. Stripping and normalising a genre are arbitrary functions too; stripping is assumed idempotent in UniquePlanReadsBack only.
- Content hashes are modelled as the content itself, so collisions do not occur; a library scan copies a file's genres unchanged.
- GenreRepair.Repair.Apply: when it completes is stated for plans in which every file has one row; with several rows for a file, safety only.
- GenreRepair.Repair.Rollback: when the rows of one file were planned from different contents of it, safety only, since the backup recorded last need not hold the original.
- The Beets dry run: the plan is an input over distinct items, and the recorded database path is not compared.
- Personal radio: ids are opaque values, already normalised (zero is the empty string); media hints and timestamps of transition rows, connection handling, busy timeouts and contexts are not modelled; items start without a transition source and only feedback changes them.
- Playlist Reorder: playlists of 999999 or more tracks (999998 when an argument is outside 1..n) have no stated result beyond keeping rows and UNIQUE; counters, cover rebuilds and smart-playlist refresh are not modelled.
- Artwork queue: each stamp written to a row is assumed new for that row; the insert-select variants that enqueue missing artwork are not modelled.
- Download jobs: free-form `Update` is represented by completion of a running job only.
- Lyrics: regular expressions, XML, YAML, sanitising and time parsing are not modelled; the models start from markers, pieces and words. Text before the first inline marker of an Enhanced LRC line is dropped by the code and does not reach the model.
- VoiceAllocation.OverlapNeverShares: is stated for entries sorted by start; the code does not sort them, and SoundingThroughKeepsVoice and UnsortedMayShare say what holds otherwise.
- VoiceAllocation.VoicesArePeakDepth: the number of voices is characterised for entries sorted by start only.
- CueEnds.NormalizeCueLines: idempotence is not stated, since a filled line end becomes a fallback on a second pass.
- Text is a sequence of Unicode scalar values; strings that are not valid UTF-8 are not modelled.
- Integer widths: times, positions and counters are unbounded integers.
