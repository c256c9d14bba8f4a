# cardingest: a verified model

cardingest watches card slots, copies each inserted card to a NAS, reads every copy back, and erases from
the card only what was verified. This project models that behaviour in Dafny and proves the properties the
program is built for. `dafny verify dfyconfig.toml` checks all of it.

The model has two levels for the ingest itself.

* `Protocol` is a step machine: any number of slot workers share one destination, one hash index and one
  ticket counter, and interleave at every I/O call. Each failure the code distinguishes is a step of its own,
  the NAS may land other bytes than were sent, and the process may die between any two steps.
  `ProtocolSafety`, `Resume` and `Rerun` prove what holds over every run; `Stock` says over all cards and slots, and
  `Clobber` for one card, when an erased file can be lost to a file of the same name; `Interleaving` says when one
  content is placed twice, and `Heal` and `HealRuns` when a rerun makes up for files that failed.
* `Pipeline` (with `IngestSpec`, `Mounter` and `Lifecycle`) is the imperative code of one worker over mutable
  disks. The outcome of every I/O call is an argument. Its methods are proved against functions of those
  outcomes, and a ghost history shows that each of them performs a run of `Protocol`, so the safety results
  apply to it (`Lifecycle.PipelineHistoryIsSafe`). `Conservation` adds up counters and progress reports,
  `HealIngest` compares two calls of Ingest with one, and `ErasePlan` says what an erase plan leaves on a card.

The other modules are the state machines and parsers around it: `Detect` (presence tracker and poll loop),
`Orchestrator` and `WorkerTable` (events, worker goroutines, shutdown), `Rules` and `Categories` (policy),
`Mp4` (video dates), `Hub` (event fan-out) and `Notify` (size texts). `Domain` holds shared types.

Two idioms recur. A definition that a proof does not need is hidden there with `hide`. Inductions are written
out: no lemma leaves one to Dafny, hence the many `{:induction false}`.

Parameters stand for what the model does not look into: the content hash, `DateFn` and the layout expansion,
library calls of the policy (lower-casing, trimming, globbing, size parsing), and the result of every I/O
call. Injectivity of the hash is never assumed globally; a result that needs it names the contents involved.

## Where the code and its comments differ

The model follows the code.

* `internal/detect/state.go:30` says removals precede insertions for a slot whose card was swapped between
  polls. A swapped slot gets only its removal in that reconciliation; its insertion can come one poll later at
  the earliest (`Detect.AtMostOneEventPerSlot`).
* `internal/store/store.go:2-4` promises that a half-ingested card resumes. That is exact when the same files, or
  none, fail at every attempt (`Resume.ResumeEqualsUninterrupted`). A file that fails once and lands on the rerun
  may overwrite a later file of the same name (`HealRuns.RerunAfterFileFailureMayDiffer`), and one of two copies of
  a photo that fails once may leave the photo under the other name (`Heal.DuplicateMayMove`).
  `Heal.RerunHealsIff` gives the exact condition for any disks and any contents, `HealRuns.EveryRerunHealsIff` and
  `HealIngest.IngestTwice` carry it to all runs and to calls of Ingest, and `Heal.DistinctRerunHealsIff` reduces it,
  when no content repeats, to which file at a place failed.
* `internal/pipeline/pipeline.go:246` moves a file "into place"; the rename replaces whatever has that name, and
  destinations keep only base names. So a file erased as verified can be nowhere on the destination: two photos of
  one name on one card (`Clobber.TwoPhotosOneName`) or on two (`Stock.TwoCamerasOneName`). Whatever cards go into
  whatever slots, no run loses a file in this way if and only if each file has a place that no other content is
  ever put to: its own, or one where the destination held its bytes all along (`Stock.NothingLostIffAnchored`). On
  an empty destination that says that files of one destination name have one content
  (`Stock.NothingLostIffPlacesDistinct`).
* `internal/pipeline/pipeline.go:220-230` promises not to land content again that was verified before. That is so
  for one slot (`Interleaving.OneSlotNeverPlacesRecorded`). Two slots may both miss the hash in the index and then
  place it twice (`Interleaving.TwoSlotsMayPlaceTwice`). This is the only way
  (`Interleaving.PlacedAgainOnlyInARace`), and it can happen if and only if cards of two slots hold kept files with
  one hash (`Interleaving.NeverPlacedAgainIff`).
* `internal/app/app.go:273` reports `Erased` as the number of paths planned for erasure, also when some removals
  failed (`ErasePlan.RefusedRemovalIsReported`). The number is right if and only if every planned removal
  succeeded (`ErasePlan.PlannedIsRemovedIff`, `Lifecycle.ReportedErasedIsExactIff`).

## Model

| member | source | states |
|---|---|---|
| `ProtocolSafety.EraseIsSafe` | internal/pipeline/pipeline.go:206-261 | Over every interleaving of any number of slots with arbitrary failures, corrupted landings and crashes: a file erased as verified had its hash recorded before, and that hash was recorded after bytes with that hash had been renamed into place. |
| `ProtocolSafety.RunKeepsInv` | internal/pipeline/pipeline.go:206-261 | Every reachable state satisfies the inductive invariant: the index holds exactly the hashes recorded in the history, the final area is the history replayed, each in-flight copy's hash is its card file's, tickets are distinct, every verified path has an indexed hash. |
| `ProtocolSafety.TempFilesDistinct` | internal/pipeline/pipeline.go:210 | Two slots with copies in flight never use the same temp file, whatever characters slot names contain: their paths differ after cleaning too. |
| `Domain.TempNamesHaveOneTicket` | internal/pipeline/pipeline.go:210 | Two cleaned temp paths are equal only if their tickets are, for any slot names. |
| `Domain.TempNameInjective` | internal/pipeline/pipeline.go:210 | For slot names without a slash they are equal only if slot and ticket are. |
| `Domain.TempNameIs` | internal/pipeline/pipeline.go:210 | For such slot names the path is the temp directory and one name made of the slot and the ticket. |
| `Domain.DoubledSlashSharesTempName` | internal/pipeline/pipeline.go:210 | With slashes the slot is not determined: names that differ in a doubled slash get the same path. |
| `ProtocolSafety.DestinationIsLastWriter` | internal/pipeline/pipeline.go:247-255 | After any run each final path holds exactly the bytes last renamed to it, or what it held before the run if nothing was. |
| `ProtocolSafety.ErasedFilesAreOnDestination` | internal/pipeline/pipeline.go:234-260 | If renames to one path always carry equal bytes and the hash is injective on the contents involved, every file erased as verified is on the destination byte for byte, at the end of every run. |
| `Stock.NothingLostIffAnchored` | internal/pipeline/pipeline.go:206-307 | Over all runs of any slots and any cards whose kept files are of a given stock, with every failure, abort, crash and rerun, starting on any destination: no file erased as verified is ever missing from the destination, if and only if erasing ingested files is off or each file of the stock has a place where nothing of other content lands, its own or one that held its bytes from the start. |
| `Stock.NothingLostIffPlacesDistinct` | internal/pipeline/pipeline.go:303-307 | On an empty destination, with erasing on: if and only if any two files of the stock with one destination name have the same bytes. |
| `Stock.AnchoredIsKept` | internal/pipeline/pipeline.go:234-260 | File by file: what such a run erases as verified is a content of the stock, and if the file that was placed is anchored its bytes are on the destination at the end, whatever the other files of the stock do. |
| `Stock.UnanchoredIsLost` | internal/pipeline/pipeline.go:247-255 | For each file of the stock that is not anchored, on any destination: a run that erases it as verified and ends with its bytes nowhere on the destination. |
| `Stock.TwoCamerasOneName` | internal/pipeline/pipeline.go:247-255 | Two cards, each with another photo named A.JPG, ingested one after the other without any failure: the first photo is erased and gone. |
| `ProtocolSafety.RunGrows` | internal/store/sqlite.go:60-80 | Index and history only grow along every run, across crashes. |
| `ProtocolSafety.CardIsSafe` | internal/app/app.go:233-268 | In every reachable state a card is as scanned until it has been remounted writable, which needs an ingest of all files without a fatal error; afterwards failed files and files the erase policy does not cover are still there, unchanged. |
| `ProtocolSafety.PlanIsUnprotected` | internal/app/app.go:244-252 | A path planned for erasure never belongs to a failed file or to one the policy keeps. |
| `Interleaving.PlacementWasLookedUp` | internal/pipeline/pipeline.go:220-252 | In every run each placement goes back to a lookup by the same worker that did not find the hash, with nothing but the read-back in between on its side: no other file, card or process; and that lookup precedes every record of the hash in the history. |
| `Interleaving.PlacedAgainOnlyInARace` | internal/pipeline/pipeline.go:222-260 | A content whose hash is already on record is placed only if another slot's worker made that record between this worker's lookup and its rename. |
| `Interleaving.OneSlotNeverPlacesRecorded` | internal/store/store.go:3-4 | One slot alone, through crashes, aborts, failures and changes of card, never places a recorded content again. |
| `Interleaving.TwoSlotsMayPlaceTwice` | internal/pipeline/pipeline.go:222-260 | Two slots whose cards hold files with one hash: a run in which both look it up first, and both place and record it. |
| `Interleaving.NeverPlacedAgainIff` | internal/store/store.go:3-4 | No run over given cards, with whatever failures and crashes, ever places a content whose hash is on record, if and only if no two slots' cards hold kept files with one hash. |
| `Clobber.CompletedKeepsAllIffNamesDistinct` | internal/pipeline/pipeline.go:303-307 | One card alone: any run that completes its ingest onto an empty destination, through whatever aborts, crashes and reruns, leaves every kept file's bytes there if and only if of the files that are each the first of their content on the card no two have the same destination name. |
| `Clobber.SharedNameErasesLost` | internal/pipeline/pipeline.go:247-255 | For any card with two files that are each the first of their content on it and have one destination name: a run in which no call fails erases the earlier one as verified and ends with its bytes nowhere on the destination. |
| `Clobber.TwoPhotosOneName` | internal/pipeline/pipeline.go:247-255 | The same for a concrete card of two photos named A.JPG in two folders. |
| `Clobber.NothingLostIffNamesDistinct` | internal/pipeline/pipeline.go:303-307 | One card alone, in one slot onto an empty destination, with erasing on and the same files failing at every attempt: no run ever loses a file it erases as verified if and only if of the files that are each the first of their content on the card no two have the same destination name. |
| `Resume.ResumeEqualsUninterrupted` | internal/pipeline/pipeline.go:115-186 | Any two single-slot runs over one card that finish the ingest, each aborted, cancelled, crashed and rerun any number of times at any step, with the same files failing at every attempt, end with the same final area, index and verified list, even when names clobber; both equal landing the card's files in order. |
| `Resume.RunKeepsResumable` | internal/pipeline/pipeline.go:206-261 | After every step of such a run, between rename and record too, landing the card from the current disks gives the same result as from the original ones. |
| `Resume.IngestCanComplete` | internal/pipeline/pipeline.go:115-186 | Whatever earlier runs left on the disks, stale temp files and unrecorded renames included, some run without failures ingests the whole card. |
| `Heal.RerunHealsIff` | internal/store/store.go:2-4 | For any card, destination and index, and any set of failing files: ingesting the other files and then the whole card leaves the final area and index of one clean ingest, if and only if at every place the last file the two place has the bytes of the last one the clean ingest places. |
| `Heal.DistinctRerunHealsIff` | internal/store/store.go:2-4 | When no content repeats, that holds if and only if at the place of each new file that failed the last new file failed too. |
| `Heal.DuplicateMayMove` | internal/pipeline/pipeline.go:222-230 | Two copies of one photo under two names, the first failing once: the rerun leaves the photo under the other name, though no failed file's place is shared. |
| `HealRuns.EveryRerunHealsIff` | internal/pipeline/pipeline.go:154-163 | Every single-slot run that ingests a card with exactly the given files failing, by unreadable files or by mismatches, followed by every rerun without such failures, both through any aborts and crashes: the final area and index are those of every ingest without such failures if and only if that condition holds. |
| `HealRuns.GivenUpFilesHealIff` | internal/pipeline/pipeline.go:154-163 | There are such runs for any card and any set of files: one that reports exactly the kept files of the set as failed, and its rerun. |
| `HealRuns.RerunAfterFileFailureMayDiffer` | internal/pipeline/pipeline.go:154-163 | Two files with one name: a run that gives up the first once and is rerun leaves the first's bytes, a clean run leaves the second's. |
| `HealIngest.LedgerIsLand` | internal/pipeline/pipeline.go:128-172 | An ingest whose failing files cannot be opened or copied, or read back different, and whose other files are healthy ends with exactly the others landed in scan order, whatever is already on the disks. |
| `HealIngest.IngestTwice` | internal/pipeline/pipeline.go:154-163 | Two calls of Ingest, the first with such failing files and the second without failures, end with the final area and index of one call without failures on the same disks, if and only if that condition holds. |
| `Rerun.IngestIsIdempotent` | internal/pipeline/pipeline.go:220-230 | After any run in which a slot ingested a card without failed files, a second complete ingest of it without card-side errors copies nothing, dedupes exactly the first verified list, and changes neither final area nor index. |
| `Rerun.KnownCardChangesNothing` | internal/pipeline/pipeline.go:220-230 | Whatever goes wrong meanwhile, ingesting a card all of whose kept hashes are recorded never touches final area or index. |
| `Pipeline.Pipeline.StreamCopy` | internal/pipeline/pipeline.go:265-288 | Which failures are card-side and which destination-side, what the temp file then holds, and that the hash returned is that of the card's bytes. |
| `Pipeline.Pipeline.CopyAndVerify` | internal/pipeline/pipeline.go:206-261 | For every combination of I/O outcomes, call by call: a file fails alone exactly when the card cannot be opened or copied or the copy reads back different, is known exactly when its hash is recorded, is stored exactly when every call succeeds, and everything else is fatal, a temp file that cannot be created or flushed included; and the exact new final area, index, temp area and ticket counter. It performs a run of the step machine. |
| `Pipeline.Pipeline.CopyThrough` | internal/pipeline/pipeline.go:212-261 | The same verdicts from the drawn temp name on. |
| `Pipeline.Pipeline.VerifyAndPlace` | internal/pipeline/pipeline.go:222-230 | From the index lookup on: known content is dropped without a read-back, a failing lookup is fatal. |
| `Pipeline.Pipeline.ReadBackAndPlace` | internal/pipeline/pipeline.go:232-244 | From the read-back on: the bytes that landed are hashed, a mismatch fails this file only, an unreadable copy is fatal. |
| `Pipeline.Pipeline.PlaceAndRecord` | internal/pipeline/pipeline.go:246-255 | Rename and record, with calls that fail although they took effect. |
| `Pipeline.Pipeline.RecordHash` | internal/pipeline/pipeline.go:257-260 | The hash is stored only after a rename that reported success. |
| `Pipeline.Pipeline.Ingest` | internal/pipeline/pipeline.go:115-186 | The result, disks and progress reports are those of playing the scanned files in order; a file is skipped exactly when the rules skip it or no category takes it; a nil error means that all files were handled, that no cancellation was seen, and that no call on the destination or the index failed; it ends early only on a cancellation or such a failure. |
| `IngestSpec.EveryFileIsHandled` | internal/pipeline/pipeline.go:128-172 | Of every ingest, file by file: what rules and categories allow as its decision, that it ends the ingest exactly when a call on the destination or the index fails for it, and otherwise whether it is copied, deduplicated, failed or skipped. |
| `IngestSpec.OutcomeIs` | internal/pipeline/pipeline.go:206-288 | Which calls lead to which of the four verdicts on a file. |
| `Pipeline.Pipeline.IngestAll` | internal/pipeline/pipeline.go:128-172 | The loop keeps result, disks, reports and step-machine worker equal to the ledger of the files handled so far. |
| `Pipeline.Pipeline.Erase` | internal/pipeline/pipeline.go:293-301 | Exactly the given paths whose removal succeeds disappear; an error is returned exactly when some path could not be removed; every removal is one planned by the step machine. |
| `IngestSpec.ResultReflectsOutcomes` | internal/pipeline/pipeline.go:123-172 | After any number of files the three path lists are the order-preserving selections of the scan by outcome, the counters are their lengths, and categories are tallied per verified file. |
| `IngestSpec.OutcomesPartition` | internal/pipeline/pipeline.go:123-172 | The selections by outcome partition the files handled: each is in exactly one of them and there once, nothing else is in any, and the verified ones are the copied and the deduplicated. |
| `ProtocolSafety.PickKeepsOrder` | internal/pipeline/pipeline.go:136-171 | Each path list keeps the scan order. |
| `Conservation.CountersAddUp` | internal/pipeline/pipeline.go:123-172 | Copied, deduped, skipped and failed add up to the files handled; verified is copied plus deduped and equals the sum over categories, at every point of every ingest. |
| `Conservation.CategoriesAreCounted` | internal/pipeline/pipeline.go:170 | The count of a category is the number of copied and deduplicated files whose decision it was. |
| `Conservation.BytesAreOfCopied` | internal/pipeline/pipeline.go:164-166 | The bytes reported as copied are the added sizes of exactly the copied files. |
| `Conservation.SizesAdd` | internal/pipeline/pipeline.go:123-126 | The total of a scan is additive and is the size for a single file. |
| `Conservation.ReportsCountUp` | internal/pipeline/pipeline.go:132 | Progress report k says k files done and the bytes copied by the first k outcomes. |
| `Conservation.ReportsNeverRunBackwards` | internal/pipeline/pipeline.go:123-174 | Reports count 0, 1, … without a gap, up to the final n of n after a nil-error ingest; each names its slot and the file it precedes and shows the bytes copied so far, which never decrease, out of the total. |
| `Lifecycle.App.IngestCard` | internal/app/app.go:198-333 | For every outcome of mount, scan, ingest, remount and erase: the exact sequence of status, job-record, publish, mount, unmount and eject actions, with the counts recorded. A failing mount, ingest or remount leaves the card as it was; a failed ingest publishes job_error and never job_complete, and its record, if there is one, says error. The ingest counts as succeeded exactly when every file was handled. |
| `Lifecycle.App.IngestMounted` | internal/app/app.go:233-268 | A failing ingest leaves the card as it was and tells of an error only; otherwise every verified path is vouched for by the index before anything is erased, and what is planned is what the result lists, as the policy says. |
| `Lifecycle.App.EraseCard` | internal/app/app.go:244-268 | Nothing planned means no remount; a failing remount leaves the card unchanged; otherwise exactly the removable planned paths go, and a partial erase still completes the job. |
| `ErasePlan.SurvivorsAreUncovered` | internal/app/app.go:244-268 | A scanned file survives if and only if the policy does not cover its outcome or its removal fails. |
| `ErasePlan.OnlyFailedAndSkippedSurvive` | internal/app/app.go:244-268 | With erasing ingested files on, skipped files off, and all removals succeeding, exactly the failed and skipped files survive. |
| `ErasePlan.PlannedIsRemovedIff` | internal/app/app.go:259-274 | The length of the erase plan is the number of files gone from the card if and only if every planned removal succeeds. |
| `ErasePlan.RefusedRemovalIsReported` | internal/app/app.go:259-274 | One ingested file whose removal fails: nothing is gone and one is reported. |
| `Lifecycle.ReportedErasedIsExactIff` | internal/app/app.go:271-303 | Of a job that completes: the number it publishes as erased is the number of files gone if and only if every planned removal succeeds. |
| `Lifecycle.WatchedCallsBalance` | internal/app/app.go:198-333 | Over any sequence of calls that workers of the machine could make, as the lifecycle code makes them: each job begun but the one under way has published one verdict, each recorded one has finished its record once, each mounted one has unmounted. |
| `Lifecycle.PipelineHistoryIsSafe` | internal/pipeline/pipeline.go:206-261 | Whatever sequence of calls a pipeline object has served, its disks are those of a safe history. |
| `Detect.Tracker.Reconcile` | internal/detect/state.go:31-60 | In whatever order the maps are visited: the next committed and pending sets, and the events as departures then arrivals, each once; a consumer that knew the old committed set learns exactly the new one. |
| `Detect.ReconcileRefinesWindow` | internal/detect/state.go:9-15 | One reconciliation keeps this: the committed set is the window over the last two snapshots, and committed and pending partition the last. |
| `Detect.TrackerIsWindow` | internal/detect/state.go:9-15 | Over any sequence of snapshots the committed set is exactly the slots seen with one serial in the last two, and committed and pending partition the last. |
| `Detect.EventsAreWindowDifference` | internal/detect/state.go:35-57 | The removals and insertions reported are exactly the difference between the two-snapshot windows before and after. |
| `Detect.AtMostOneEventPerSlot` | internal/detect/state.go:35-57 | No reconciliation reports two events for one slot. |
| `Detect.ReplayAlternates` | internal/detect/state.go:35-57 | In any stream of events a consumer can follow, a slot's insertions and removals strictly alternate and a removal names the card inserted. |
| `Detect.Run` | internal/detect/poll.go:49-75 | Skipping failed enumerations: after every tick, what has been delivered so far tells a consumer exactly the two-snapshot window, each tick delivers at most one event for a slot, insertions name the device that tick saw and removals a device inserted before; a cancelled delivery stops where it was, and the rest of its tick would have led to the window. |
| `Orchestrator.RunKeepsInv` | internal/app/app.go:138-194 | Over every interleaving of polls, events, worker steps and shutdown: each uncancelled worker belongs to the card last reported in its slot, table entries and unfinished goroutines match one to one, and the wait count is the number of running goroutines. |
| `Orchestrator.OneWorkerPerSlot` | internal/app/app.go:151-168 | At most one unfinished worker per slot. |
| `Orchestrator.FinishDeletesOwnEntry` | internal/app/app.go:170-177 | finishWorker, which deletes by slot, removes only the entry of its own goroutine and touches no other job. |
| `Orchestrator.CancelledForItsOwnCard` | internal/app/app.go:179-185 | A worker becomes cancelled only by the removal of its own card (same slot and serial), by its own end, or by shutdown. |
| `Orchestrator.InsertStartsJobIffFree` | internal/app/app.go:151-168 | A received insertion starts and lists exactly one job, for that card, if its slot is free, and changes nothing otherwise. |
| `Orchestrator.RemovalCancels` | internal/app/app.go:179-185 | Receiving a removal cancels the worker listed for the slot. |
| `Orchestrator.ShutdownCancelsAll` | internal/app/app.go:187-192 | Shutdown cancels every unfinished worker and changes nothing else about any. |
| `Orchestrator.IngestingIffBusyWorker` | internal/app/app.go:202-204 | A slot shows as ingesting if and only if a worker of that slot is between its two status updates. |
| `Orchestrator.EveryMountIsUnmounted` | internal/app/app.go:210-231 | When a worker has shown idle again, its successful mounts and its unmounts are equally many, and at most one. |
| `Orchestrator.EveryJobIsJudgedOnce` | internal/app/app.go:202-333 | In every interleaving no job ever publishes a second verdict or finishes its record twice; once it has shown idle it has published exactly one verdict and finished its record, if it had one, exactly once with the same outcome; only a mounted job completes. |
| `Orchestrator.NothingRunsAfterReturn` | internal/app/app.go:187-194 | Once shutdown has returned, every worker has exited, the table is empty, and no job ever starts or moves again. |
| `Orchestrator.HeardAlternates` | internal/app/app.go:116-149 | The insertions and removals the app receives for a slot strictly alternate, with matching serials, in every interleaving. |
| `Orchestrator.DroppedInsertIsNotRetried` | internal/app/app.go:151-157 | After an insert that found its slot busy, no new job starts in that slot until the card's removal is received. |
| `WorkerTable.Table.StartWorker` | internal/app/app.go:151-168 | The critical section does what the machine's insertion step does, and refuses exactly when the slot is listed. |
| `WorkerTable.Table.StopWorker` | internal/app/app.go:179-185 | The critical section does what the machine's removal step does. |
| `WorkerTable.Table.FinishWorker` | internal/app/app.go:170-177 | The critical section does what the machine's finishing step does. |
| `WorkerTable.Table.ShowIngesting` | internal/app/app.go:202-203 | The first status update does what the machine's first worker step does. |
| `WorkerTable.Table.ShowIdle` | internal/app/app.go:204 | The last status update does what the machine's last visible worker step does. |
| `WorkerTable.Table.CancelWorkers` | internal/app/app.go:187-192 | Visiting the table in any order cancels exactly the jobs listed in it and changes nothing else about any. |
| `Rules.CompileMatch` | internal/rules/compile.go:59-92 | Compiling a match fails exactly for an invalid glob or size, and the matcher accepts a file exactly when all criteria given hold; without a match block it accepts every file. |
| `Rules.Compile` | internal/rules/compile.go:19-56 | Compilation succeeds exactly when every entry says keep or skip and has a valid match block, otherwise names the first that does not. Of each file the engine says what the first entry that hits it says; when none does, what the last default says; without a default, skip; and for an empty list, keep. |
| `Rules.DefaultMayMove` | internal/rules/compile.go:24-45 | A sole default entry may stand anywhere in the list without changing a decision. |
| `Rules.RulesAfterHitAreDead` | internal/rules/rules.go:43-50 | Removing everything after a rule that hits a file does not change the decision for it; so nothing after a rule with an absent or empty match block matters. |
| `Rules.SwapChangesIff` | internal/rules/rules.go:43-50 | Swapping two adjacent rules changes a file's decision if and only if no earlier rule hits it and both hit it with different actions. |
| `Categories.Categorize` | internal/pipeline/pipeline.go:343-361 | The result is that of visiting the categories in some order: one that lists the extension in any case, if there is one, else one that lists "*", else none. |
| `Categories.ListsExtension` | internal/pipeline/pipeline.go:347-355 | The inner loop reports an explicit match exactly when there is one, and otherwise whether "*" is listed. |
| `Categories.CategorizeIsLegit` | internal/pipeline/pipeline.go:340-361 | In every visiting order an explicit match wins whenever one exists; else a catch-all is chosen (one named by the empty string counts as none); else none. |
| `Categories.LegitIsReached` | internal/pipeline/pipeline.go:346 | Every such answer is given by some visiting order. |
| `Categories.OrderIndependentIffUnambiguous` | internal/pipeline/pipeline.go:346 | The answer is independent of the visiting order if and only if at most one category lists the extension and, if none does, at most one lists "*". |
| `Mp4.FindAtom` | internal/exifdate/mp4.go:44-76 | On arbitrary bytes with wrapping 64-bit offsets the walk ends, and returns the payload of the first header of its chain with the wanted type, or nothing when the chain has none. |
| `Mp4.WalkIsShort` | internal/exifdate/mp4.go:47-74 | On arbitrary bytes each header visited is inside the file and at least eight bytes after the one before, so the number of headers is at most an eighth of the bytes after the start. |
| `Mp4.WalkOfSerialized` | internal/exifdate/mp4.go:44-76 | Over any list of atoms serialized with 32-bit, 64-bit or (for the last) to-the-end sizes, as in section 4.2 of ISO/IEC 14496-12, the walk visits exactly those atoms in order. |
| `Mp4.FindFailsIffAbsent` | internal/exifdate/mp4.go:44-76 | The search over serialized atoms fails if and only if the type is absent. |
| `Mp4.FindReturnsFirstPayload` | internal/exifdate/mp4.go:70-72 | The search over serialized atoms returns exactly the payload of the first atom of the type. |
| `Mp4.DamageEndsTheWalk` | internal/exifdate/mp4.go:44-76 | Atoms followed by a malformed header, or by less than a header: the walk visits exactly those atoms, and a type is found among them or not at all. |
| `Mp4.ClaimedSizeIsBelieved` | internal/exifdate/mp4.go:67-72 | A header of the wanted type is found whatever size of eight or more it claims, and the region returned ends where it claims to, past the end of the file too. |
| `Mp4.DateIsExactIff` | internal/exifdate/mp4.go:102 | The date computed in 64-bit nanoseconds is exact if and only if the creation time is at most 9223372036 seconds; so for every version-0 value. |
| `Mp4.DateWraps` | internal/exifdate/mp4.go:102 | For every creation time the date is the exact nanosecond count wrapped around to 64 bits. |
| `Mp4.TruncatedGivesNoDate` | internal/exifdate/mp4.go:79-96 | A movie header that the file ends inside of gives no date. |
| `Mp4.WholeGivesDate` | internal/exifdate/mp4.go:79-103 | Any other gives the time at bytes 4 to 12 for version 1, 4 to 8 otherwise, unless it is zero. |
| `Mp4.CreationDateReadsBack` | internal/exifdate/mp4.go:18-40 | For every serialized file whose first moov holds any atoms with an mvhd among them (section 8.2.2 of ISO/IEC 14496-12), the date is the first such mvhd's creation time, or none if that is zero. |
| `Mp4.NoMovieHeaderNoDate` | internal/exifdate/mp4.go:31-38 | Without a moov, or without an mvhd in the first one, there is no date. |
| `Mp4.ReadMvhd` | internal/exifdate/mp4.go:79-103 | The version selects a 64-bit or 32-bit time; a short read or a zero time gives no date. |
| `Mp4.Mp4CreationDate` | internal/exifdate/mp4.go:18-40 | The nested search and read compute the specified date; an unreadable file has none. |
| `Hub.Hub.Subscribe` | internal/events/hub.go:35-51 | A new, empty, open channel joins the subscribers. |
| `Hub.Hub.Publish` | internal/events/hub.go:54-66 | Whatever the map order, every subscriber with fewer than 64 events buffered gets the event once, stamped with the time if it carries none, the others lose it, and nothing else changes. |
| `Hub.Hub.Cancel` | internal/events/hub.go:42-49 | The first call unsubscribes and closes, later calls change nothing. |
| `Hub.NeverPanics` | internal/events/hub.go:42-66 | In every interleaving of subscribe, publish, receive and two-step cancel there is no send on a closed channel and no second close, and no buffer exceeds 64. |
| `Hub.DeliversInOrder` | internal/events/hub.go:54-66 | What a subscriber has received and has buffered is, in order, the events published since it subscribed without those flagged as dropped. |
| `Hub.DropsOnlyWhenFull` | internal/events/hub.go:61-64 | Every dropped event was offered at a moment when the buffer held 64 events. |
| `Hub.KeepingUpLosesNothing` | internal/events/hub.go:32-34 | A subscriber whose buffer is never full when offered an event misses none published since it subscribed. |
| `Hub.CancelEndsDelivery` | internal/events/hub.go:42-49 | A cancelled subscription covers exactly the events announced between its subscription and its cancellation, for ever after. |
| `Hub.AnnouncedIsStamped` | internal/events/hub.go:55-57 | What a publisher announces is its event, with its own time or, lacking one, the publisher's. |
| `Notify.HumanBytes` | internal/notify/pulsar.go:172-182 | For every 64-bit size from 1024 up the divisor stays within 64 bits and is 1024 to the suffix's power, the size is at least the divisor and less than 1024 times it, and the letter is the one of that power of 1024. |
| `Notify.SuffixIsForced` | internal/notify/pulsar.go:172-182 | No other suffix satisfies those bounds. |

## Left out

- HTTP, SSE, the generated API, the web page, configuration files, logging and telemetry.
- Real mounts, sysfs enumeration and file-system internals: a card and the destination are maps from path to
  bytes, and each call has an outcome argument. Directories, permissions and partial directory creation are
  not modelled.
- SQLite: the index is a persistent set; a failing insert may or may not have taken effect. Job history is a
  logged action.
- Expansion and cleaning of the layout string: a function from category and date to a directory. A layout that
  points into the temp directory is not modelled.
- 64-bit overflow of the ticket counter and of byte totals; both are unbounded in the model.
- Slot names whose slashes make the cleaned temp path leave the temp directory: the final area and the temp area
  are kept apart in the model.
- Content that changes on the destination between rename and a later read, or on the card during an ingest.
- The sync after an erase, whose failure is only logged, and the status snapshot published with each status change.
- An unmount that fails leaves the model's card unmounted; the code logs the error and goes on the same way.
- `MockDetector`, whose events may be reordered under concurrent callers, and device fields other than path
  and serial.
- Cancellation of the parent context is modelled where the code looks at it (before each file, in event
  delivery, in shutdown), not inside library calls.
- EXIF decoding, file-time fallback, globbing, size parsing (floating point), hashing and time formatting are
  library calls taken as given functions.
- Liveness, timing, notification delivery and the text of messages; `HumanBytes` gives the scaled number's
  divisor and suffix, not its rounded digits.
- Resume.ResumeEqualsUninterrupted: excludes files that fail at one attempt and land at another, which is the
  subject of `HealRuns`, and hash collisions between bytes sent and bytes landed.
- Heal.RerunHealsIff: a rerun in which files fail again, and failures of several reruns in a row, are not spelled
  out; the last-writer result covers them.
- Stock.NothingLostIffAnchored: hash collisions with a content of the stock are excluded, on cards and on the way to
  the destination; without that, the collision alone can lose a file.
- Clobber.NothingLostIffNamesDistinct: for one card; the condition is sharper there because the scan order is known.
  `Stock` has the general case.
- Hub.Hub.Publish: the object form handles one call at a time; interleavings are the subject of the step
  machine in the same module.
