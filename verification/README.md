# A model of DLPDuck's durable state

DLPDuck reads documents, searches them for sensitive data, files them in an archive or a
quarantine, and keeps an audit trail of everything it did. Its promises are about whole runs:
crashes may fall between any two durable writes, several processes write the same stores, and
operators redact, trim, purge, reprocess and release in between. This project models that state
and proves the promises over every run, or says exactly when they hold.

| files | what they model |
|---|---|
| `AuditLedger`, `LedgerRuns`, `LedgerVerdicts`, `LedgerTip`, `ClockSetBack`, `LedgerReport`, `AuditStore` | the hash-chained audit trail: append, resume, redaction, retention trims and `verify`; every run of them; what `verify` says after it; what the newest hash fixes; appends under a wrong clock; which lines it complains of, what an emptied event still says; the class that does it |
| `LogReading`, `AuditBrowse` | finding the newest record from the end of a file; browsing the trail and the console's pages |
| `OperationLock`, `LockRuns` | a lock that survives the deletion of its own file, over any number of processes |
| `CommitProtocol`, `CommitAudit`, `CommitRuns`, `ClaimRaces`, `OneRow`, `Committer`, `CommitOutcome` | claim, commit, crash, resume and confirmed retry of one job, one durable write at a time; callers that overtake one another; the straight-line code; what is filed where |
| `Disposition`, `Reassessment`, `Containment`, `Degradation`, `Recovery`, `Erasure`, `Mishaps`, `Assessments`, `Reprocessor` | reassessment by any number of readers, release, purge, recovery of a write-ahead transition and reindex; where the file is; degraded documents; events; erasure; runs that show why the conditions are there; what one reassessment, release or rebuild leaves; the straight-line code |
| `IndexStore` | concurrent appends to the assessment history and compaction |
| `Sorting`, `RowGrouping`, `Documents`, `HitRecords` | visual rows, line numbering, offsets, matching, masking and reveal; what a recorded hit says |
| `Validators`, `CheckDigits` | Luhn, NHS modulus 11 and IBAN modulus 97: the slips each catches, the check digits each accepts |
| `Decimals`, `PdfWriter`, `PdfScan`, `PdfReader`, `PdfRoundTrip` | the minimal PDF writer and a reader of its text |
| `Ruleset` | includes and overrides of rule files |
| `Wrappers`, `Sequences` | optional values, results, and a fact about sequences |

What an operation leaves is stated twice where it matters: through the specification's functions,
which the theorems over runs are about, and outright, field by field, so that neither can drift
without the other.

The protocols are state machines: a `World`, an `Action`, `Next`, and `Run` over a sequence of
actions; an invariant is kept by every step and the theorems follow for every run. Beside each of
the code's own straight-line operations stands a class whose methods change fields as the code
does, each proved equal to the specification's function or to its run of single steps. A digest is
a free constructor over the event's contents, which makes it injective and acyclic.

What turned out otherwise than the code's own comments say is stated as a result, with the exact
condition under which the comment holds:

- A redacted event's `prev` is under no digest any more. History before it can be removed without
  `verify` noticing (`LedgerTip.RedactedRunIsCut`), and a mark can be forged over any newest hash
  (`LedgerTip.ForgedMarkKeepsAnyTip`). Of a trail that passes with a known newest hash, exactly the
  lines after the newest redaction in that trail's own report are the original ones
  (`LedgerTip.TipFixesExactly`).
- A trim whose newest partition holds no readable event writes no checkpoint and can make `verify`
  fail for good (`LedgerVerdicts.TrimWithoutCheckpoint`).
- A purge on a later day refreshes the date of a pending transition's file, and recovery then
  appends its event twice (`Mishaps.LatePurgeRepeatsTheEvent`); exactly then
  (`Recovery.PurgeThenRecovery`).
- A batch that was asked to extract before a purge, and a rebuild that began before it, write text
  back after it (`Erasure.TextOutlivesItsPurge`, `Erasure.BatchOutlivesThePurge`,
  `Erasure.RebuildOutlivesThePurge`); text stays erased exactly if no such reader can resume
  (`Erasure.PurgeIsNeverUndone`), and is gone when the purge ends exactly if none wrote during it
  (`Erasure.PurgeErases`).
- A claim finished by the caller of an earlier claim can leave an index row that names a place the
  document was never copied to (`ClaimRaces.StaleClaimLosesTheDocument`,
  `ClaimRaces.FinishIsSafeExactly`).
- A transition recorded over a pending one can strand the file or lose the event of the first
  (`Mishaps.OverwritingStrandsTheFile`, `Containment.StartIsSoundExactly`,
  `Recovery.EveryRowHasItsEventExactly`).

Other limits that the results make precise: a reindex from stored text forgets that the extraction
was degraded, as its documentation discloses (`Degradation.MarkSurvivesReindex`); a rebuilt index
starts again at number 1 and meets old events of the same numbers
(`Mishaps.LostIndexRepeatsTheNumber`, `Recovery.OneEventPerNumberExactly`); an append under a clock set back breaks the chain
(`ClockSetBack.AppendAtAnyDay`); besides equal signs, the IBAN check accepts the swaps 1/B, 2/M
and 3/X (`Validators.IbanAndNeighbours`).

Check everything with `dafny verify dfyconfig.toml`.

## Model

| member | source | states |
|---|---|---|
| AuditLedger.VerifiedExactly | dlpduck/audit.py:556-662 | `verify` reports no break exactly when every line is readable, each event names the hash before it (the first one the checkpoint's), every unredacted event hashes to what it carries, and every emptied field has a record of its removal |
| AuditLedger.RecordedMeans | dlpduck/audit.py:604-662 | what the walk collects from `audit.redacted` records is exactly which fields of which event some record names |
| AuditLedger.Eligible | dlpduck/retention.py:42-56 | the eligible partitions are the leading ones dated before the cutoff, and the next one is not |
| AuditLedger.PartOf | dlpduck/audit.py:442-452 | the first partition that holds an event of this number, or none at all |
| LedgerRuns.AppendKeepsChain | dlpduck/audit.py:337-364 | an event appended after the last readable record (or the checkpoint) continues numbers and links, so the chain invariant holds again |
| LedgerRuns.EmptyingKeepsChain | dlpduck/audit.py:396-428 | emptying fields of one event keeps every position, hash and `prev` link of the chain |
| LedgerRuns.EmptyingTwice | dlpduck/audit.py:396-428 | redacting twice is redacting the union of the fields once |
| LedgerRuns.StepKeeps | dlpduck/audit.py:230-440 | every single durable step, a torn write, a half redaction and one deletion of a trim included, keeps the trail's invariant |
| LedgerRuns.SpoiledIsUncovered | dlpduck/audit.py:230-270 | losing today's last record can never leave the checkpoint ahead of the chain |
| LedgerVerdicts.VerifyOverRuns | dlpduck/audit.py:556-662 | after any run at all `verify` passes exactly when no line is lost, the oldest event directly follows the checkpoint and every emptied field has its record |
| LedgerVerdicts.QuietRunsVerify | dlpduck/audit.py:556-662 | with nothing torn or half done `verify` passes, numbers run without a gap from the checkpoint, the reported redactions are exactly the emptied events, and every event is what was hashed but for its emptied fields |
| LedgerVerdicts.FinishedTrimsVerify | dlpduck/retention.py:110-150 | over any appends, crashes, redactions and whole trims that each find a readable event in their newest partition, once every removal is recorded `verify` passes exactly when no write was torn |
| LedgerVerdicts.HalfDoneRedaction | dlpduck/audit.py:396-440 | a crash between emptying and recording: `verify` still passes exactly when it passed before and earlier records already name every emptied field |
| LedgerVerdicts.TrimIsARun | dlpduck/retention.py:110-150 | a checkpoint and one deletion after another make the whole trim |
| LedgerVerdicts.TrimRestores | dlpduck/retention.py:110-150 | re-running a trim with no earlier cutoff puts the chain back in order after any interruption, when its newest partition holds a readable event |
| LedgerVerdicts.TrimWithoutCheckpoint | dlpduck/audit.py:246-256 | without such an event no checkpoint is written, and the chain stays in order exactly when nothing readable was removed or nothing readable is left |
| LedgerVerdicts.TrimWithoutCheckpointFails | dlpduck/audit.py:246-256 | a run of three days whose trail passes `verify`, and fails it after an authorised trim of the first two |
| LedgerVerdicts.TrimNeverOrphans | dlpduck/retention.py:110-150 | a finished trim never separates a surviving redaction from its record: `verify` passes |
| LedgerReport.BreaksAreExact | dlpduck/audit.py:585-662 | on any trail whatever `verify` complains of exactly the lines that cannot be read, that name another hash than the newest readable line before them, whose digest is not theirs though unmarked, or whose emptied fields no record gives, and of each for that reason |
| LedgerReport.MarkedFieldsReadRedacted | dlpduck/audit.py:421-426 | over every run, a surviving event reads `[redacted]` in every field its marker names and carries everywhere else what was hashed |
| LedgerReport.RefusedExactly | dlpduck/audit.py:392-420 | no redaction of the fields that carry the chain or a redaction's own account; what is refused, with which error, in the order of the checks |
| LedgerReport.TornRecordShows | dlpduck/audit.py:353-363 | over every run that passes: a record cut off by a crash fails `verify` at once, one that lacks only its newline passes and is the next writer's tail, and either way the next record of that day shares its line and is lost with it |
| LedgerTip.TamperingIsFound | dlpduck/audit.py:573-634 | among trails with its checkpoint and newest hash, the lines of an unredacted trail are the only ones that `verify` passes without reporting a redaction |
| LedgerTip.ChainsGoDeeper | dlpduck/audit.py:573-634 | each unredacted event makes the hash one level deeper, so a chain never returns to where it started |
| LedgerTip.TipFixesExactly | dlpduck/audit.py:556-634 | of any trail that passes `verify` with the checkpoint and newest hash of an original chain, the last k lines are the events as first hashed if and only if its own report names no redaction among them |
| LedgerTip.TipOfRunFixesExactly | dlpduck/audit.py:556-634 | the same for the trail of any run, redacted or not, and whatever is put in its place |
| LedgerTip.RedactedEventCutsTheChain | dlpduck/audit.py:556-565 | everything before a redacted event can be dropped and `verify` still passes with the same newest hash, as long as the redactions that remain keep their records |
| LedgerTip.EveryRedactionCuts | dlpduck/audit.py:556-565 | over every run whose writes and redactions were finished they do keep them, so every redacted event is such a place; the method's comment claims otherwise |
| LedgerTip.RedactedRunIsCut | dlpduck/audit.py:556-565 | a concrete run: two events, the second redacted and recorded, and a trail without the first that passes |
| LedgerTip.ForgedMarkKeepsAnyTip | dlpduck/audit.py:604-634 | for every checkpoint and every hash, two lines with a forged mark pass `verify` with it as the newest; the reported redaction is all that tells |
| AuditStore.AuditLog.constructor | dlpduck/audit.py:272-295 | a new process starts from the chain's real tail |
| AuditStore.AuditLog.LastParseable | dlpduck/audit.py:139-176 | the newest record of a partition that can be read |
| AuditStore.AuditLog.Resume | dlpduck/audit.py:272-295 | walking back over partitions gives the last readable event of the whole trail, else the checkpoint, else nothing |
| AuditStore.AuditLog.Append | dlpduck/audit.py:298-364 | whatever other processes wrote and whatever the clock says, the new event continues the real tail, carries the caller's fields under a digest of all of it, and the trail is the old one with that one line in the partition of its day |
| ClockSetBack.AppendAtAnyDay | dlpduck/audit.py:353-363 | after an append under any clock to the trail of any run that passes, `verify` passes if and only if no line stands in a newer partition and the one written to is not torn |
| ClockSetBack.LinesSetBack | dlpduck/audit.py:353-363 | the new line stands after every line of its own and older days and before all newer ones |
| ClockSetBack.LandsInItsDay | dlpduck/audit.py:353-363 | the line ends the partition of its own day, other partitions are untouched and all stay in date order |
| AuditStore.AuditLog.FindEvent | dlpduck/audit.py:442-452 | the first event of this number, or none exactly when there is none |
| AuditStore.AuditLog.Redact | dlpduck/audit.py:366-440 | a refusal changes nothing and says why; otherwise every named field of the found event reads `[redacted]`, every other field of it and every other line is as before, its marker is the old one and these fields, and a record naming event, fields, reason and actor is appended |
| AuditStore.AuditLog.WriteTrimCheckpoint | dlpduck/audit.py:230-270 | the checkpoint is the last readable event of the newest trimmed partition and never moves backwards |
| AuditStore.AuditLog.CheckAccounts | dlpduck/audit.py:636-662 | an emptied event without a record, or with fields no record names, is a break |
| AuditStore.AuditLog.Verify | dlpduck/audit.py:556-662 | the single walk returns exactly the verdict, breaks and redactions of the specification |
| AuditStore.ApplyRetention | dlpduck/retention.py:110-150 | the intent, the checkpoint, the deletions and the result, in that order, for exactly the eligible partitions |
| AuditStore.RetentionLeaves | dlpduck/retention.py:110-150 | both events with the count, the partitions from the cutoff on, and the checkpoint at the newest readable event of the newest trimmed partition unless it is there or further already |
| AuditStore.RetentionIsARun | dlpduck/retention.py:110-150 | a retention is one of the runs the ledger's theorems are about |
| LogReading.LastParseable | dlpduck/audit.py:139-176 | reading backwards in growing windows finds what a full forward scan finds, for every content and window, and ends |
| LogReading.ReadBackwards | dlpduck/audit.py:166-173 | the backward search of one window finds the window's newest record |
| LogReading.ScanFindsLast | dlpduck/audit.py:139-176 | that scan finds the last line that can be read, and nothing exactly when no line can |
| LogReading.LineIsSplitOff | dlpduck/audit.py:158-165 | a line is what stands before a byte 10, and what follows is split on its own |
| LogReading.RecordIsTheMiddle | dlpduck/audit.py:166-173 | ASCII white space around a record is cut off and nothing else; what is left, if anything, is parsed |
| LogReading.SplitConcat | dlpduck/audit.py:158-165 | cutting a file anywhere joins only the line the cut falls in: dropping a window's first piece loses nothing else |
| LogReading.TornTailIsSteppedOver | dlpduck/audit.py:139-153 | a record cut short by a crash leaves the file reading as it did before |
| LogReading.AppendAfterTornIsLost | dlpduck/audit.py:355-363 | a record written behind a torn one shares its line and is not found either |
| LogReading.AppendedLineIsFound | dlpduck/audit.py:355-363 | a record appended after whole lines is the one found next |
| AuditBrowse.Events | dlpduck/audit.py:513-554 | on a trail whose numbers rise, newest-first reading with an early stop equals filtering everything, sorting by descending number and cutting |
| AuditBrowse.EarlyStopLosesNothing | dlpduck/audit.py:519-553 | once the limit is reached, older partitions cannot change the result |
| AuditBrowse.PagesShowAll | dlpduck/console/app.py:1020-1033 | following the cursor page by page lists every event of the range once, newest first |
| AuditBrowse.PagesEnd | dlpduck/console/app.py:1020-1033 | the pages come to an end |
| AuditBrowse.PagesOverRuns | dlpduck/console/app.py:1020-1033 | on the trail of any run, half-done work included, the pages list every readable event exactly once |
| AuditBrowse.PageIsExact | dlpduck/audit.py:513-554 | over every run a page holds the newest of the events that lie in the range, both days included, and before the cursor: newest first, a hundred or all there are, and a cursor exactly if more are left |
| AuditBrowse.CursorIsAccepted | dlpduck/console/app.py:1020-1045 | every cursor a page hands out is one the route accepts |
| LockRuns.AtMostOneHolder | dlpduck/operations.py:71-119 | however often the lock file is deleted and recreated, at most one thread of all processes holds the lock, on the file the path names |
| LockRuns.MutexIsNeverReplaced | dlpduck/operations.py:41-67 | while a thread is inside, no step replaces the mutex its registry entry names |
| LockRuns.EntryLivesWhileUsed | dlpduck/operations.py:122-129 | an entry exists exactly while some thread of the process uses it, and one of them at most owns the mutex |
| LockRuns.WokenOnDeletedFileGivesItUp | dlpduck/operations.py:102-110 | a waiter woken on an unlinked file does not hold the lock and gives that file up, leaving everything else as it was |
| LockRuns.WokenOnDeletedFileGoesRound | dlpduck/operations.py:85-119 | it then gets the lock on the current file, or a new one, if and only if nobody has locked that |
| LockRuns.LockIsTakenExactly | dlpduck/operations.py:71-119 | in every reachable state a thread that calls and is not interrupted gets the lock if and only if its process's mutex and the file at the path are free |
| LockRuns.CallLeavesNoTrace | dlpduck/operations.py:41-129 | a call that takes the lock and lets it go leaves mutexes, registry and file locks as they were |
| LockRuns.NestedCallLeavesNoTrace | dlpduck/operations.py:85-129 | a nested call keeps the lock held, and its return puts everything back |
| LockRuns.StepKeeps | dlpduck/operations.py:41-129 | every step of every thread, and a crash of a process, keeps the lock's invariant |
| CommitRuns.OneCompletionPerReceipt | dlpduck/pipeline.py:617-691 | under every schedule of crashes and resumes a receipt has at most one `job.completed`, exactly one once its commit closes it, and no index row exists without one |
| CommitRuns.DeliveredAtMostOnce | dlpduck/pipeline.py:692-730 | emit plugins run at most once plus once per confirmed retry, never before the index row |
| ClaimRaces.RowStandsOverDocument | dlpduck/pipeline.py:643-703 | an index row names a place the document was already copied to, in every run whose claims are each finished when `SafeFinish` holds |
| ClaimRaces.FinishIsSafeExactly | dlpduck/pipeline.py:976-1006 | in every state such runs reach, that guard on the manifest's day, decision and mark and the copies on disk holds if and only if nothing that may follow the finish puts a row over a missing document |
| OneRow.JobHasOneRow | dlpduck/pipeline.py:692-702 | a job has at most one index row, in every run whose claims are each finished when `SoleFinish` holds |
| OneRow.OneRowExactly | dlpduck/pipeline.py:976-1006 | in every state such runs reach, that guard holds if and only if nothing that may follow gives the job a second row |
| ClaimRaces.StaleClaimLosesTheDocument | dlpduck/pipeline.py:976-1006 | a run with two claims around midnight, finished by the first caller, after which the row names a place the document was never copied to |
| CommitRuns.CrashIsInvisible | dlpduck/pipeline.py:1098-1159 | over all runs: a commit that crashes before its delivery, with days and further arrivals passing before it is resumed, comes back to exactly where it would be had it slept, if and only if the manifest on disk still says what the commit works with |
| CommitRuns.SleepShowsInTheDay | dlpduck/pipeline.py:673-690 | a commit that sleeps over midnight ends as one that does not, but for the day on its completion event |
| CommitAudit.AuditStep | dlpduck/pipeline.py:603-733 | every step keeps the count of completions and what the manifest says of them in agreement |
| CommitRuns.SearchMissesNothing | dlpduck/pipeline.py:617-641 | over all runs, looking from the claim's own day on counts every completion of the receipt |
| CommitRuns.ResumeRestarts | dlpduck/pipeline.py:1098-1159 | a resume of a snapshotted job starts the same commit from its first stage with the recorded assessment |
| CommitOutcome.ClaimLeftAlone | dlpduck/pipeline.py:394-733 | a claim from any state of the job, left alone: an indexed job takes it as a duplicate, a failure is kept apart with nothing filed, and otherwise the document lies in the quarantine of its day if that is the verdict and in its archive if not, with its row, its content and one completion saying so |
| CommitOutcome.FiledAsDecided | dlpduck/pipeline.py:643-703 | over every schedule of claims, crashes, resumes and retries a row is in quarantine if and only if its verdict is, under its own day and never for a failure, and every copy, completion, ruleset and content goes back to a decision that says so |
| CommitOutcome.ResumeLeftAlone | dlpduck/pipeline.py:1098-1159 | a resume of any claim found in staging, left alone: a recorded decision is carried out under its receipt's day, each store written unless the manifest has it; without one the document is a duplicate or is processed |
| CommitOutcome.FailureIsNotRetried | dlpduck/pipeline.py:736-767 | a failure that was recorded before a crash is carried out after it without processing the document again, and is not reported twice |
| CommitOutcome.UncertainWaits | dlpduck/pipeline.py:711-718 | a delivery that may have happened keeps the job waiting until an operator confirms, and then it is resumed with one more delivery |
| CommitOutcome.ArrivalsTurnedAway | dlpduck/pipeline.py:267-328 | further arrivals get a receipt closed as a duplicate and one event each and touch nothing else |
| Committer.JobStores.FilePdf | dlpduck/pipeline.py:659-671 | the snapshot and the copy, each once, the copy in quarantine exactly when that is the verdict |
| Committer.JobStores.CompletionAlreadyAudited | dlpduck/pipeline.py:617-641 | found exactly when the manifest says an append may have begun and the trail since that day holds the receipt's completion |
| Committer.JobStores.AuditCompletion | dlpduck/pipeline.py:673-690 | the completion is appended unless it is there |
| Committer.JobStores.WriteStores | dlpduck/pipeline.py:692-702 | the row with the verdict, the place that goes with it and the ruleset the job was assessed under, and the content row |
| Committer.JobStores.EmitOnce | dlpduck/pipeline.py:711-718 | an uncertain delivery is refused and changes nothing; a plugin that raises leaves the delivery begun and unconfirmed |
| Committer.RaisedIsCrash | dlpduck/pipeline.py:704-718 | a plugin that raises leaves the job exactly as a crash in the same place would |
| Committer.JobStores.Commit | dlpduck/pipeline.py:643-733 | the straight-line commit ends where the single steps of the protocol end, is refused over an uncertain delivery, or stops where a plugin raised; either way the document is in the root its verdict names, with row, content and completion, each unless it was there, and receipt, delivery and staging as that end leaves them |
| Containment.RowTellsWhereTheFileIs | dlpduck/reprocess.py:513-639 | after any run whose starts are sound, evaluations in flight, crashes, index losses and rebuilds included, with nothing pending the file is where the current row says, and that is the archive exactly when the row says archived with no release pending |
| Containment.StartIsSoundExactly | dlpduck/reprocess.py:565-648 | the guard of a start, that the new transition names every place the file may be at, holds if and only if carrying it out leaves the row saying where the file is |
| Containment.RestoreIsSoundExactly | dlpduck/reindex.py:185-275 | the same of a rebuild that makes its row the current one: the row says where the file is if and only if the file is still where the rebuild surveyed it |
| Containment.OrderlyRunsAreSound | dlpduck/reprocess.py:641-693 | runs that start nothing over a pending transition and do not lose the index meet that guard throughout |
| Containment.PermissionFollowsTheFile | dlpduck/console/app.py:266-276 | the console asks for the quarantine permission exactly for files that lie in quarantine |
| Containment.OnlyReleaseOpensQuarantine | dlpduck/reprocess.py:513-563 | no run at all without a release takes a file out of quarantine |
| Containment.OpeningIsOnRecord | dlpduck/reprocess.py:513-563 | a quarantined document found in the archive has a `job.released` event, if no start overtook its release |
| Containment.OpeningIsOnRecordExactly | dlpduck/reprocess.py:641-693 | a start meets that condition if and only if carrying it out does not leave the file in the archive without such an event |
| Degradation.RulesModeNeverClearsDegraded | dlpduck/reprocess.py:329-364 | while `quarantine_on_degraded` is on, no sequence of rules-mode reassessments, releases, crashes, and rebuilds that find the mark clears a degraded document or moves its file |
| Assessments.DegradedExtractionHolds | dlpduck/reprocess.py:422-510 | over every sound run, a new extraction that comes out degraded leaves the document marked so, in quarantine, with no release pending and the pages of that extraction, and none of those steps clears it afterwards |
| Assessments.RulesKeepTheExtraction | dlpduck/reprocess.py:329-344 | without a new extraction or a rebuild every assessment keeps the page count and the degraded mark of ingest |
| Assessments.RulesModeAgreesExactly | dlpduck/reprocess.py:329-345 | judged again from stored text a document is decided as that extraction would be, except exactly where a page failed, ingest was not strict, nothing else is wrong and the setting is strict now |
| Assessments.DecidedExactly | dlpduck/disposition.py:5-15 | quarantine exactly for a hit or, under the strict setting, a failed, empty or degraded extraction; and which reason is given when |
| Assessments.ReassessmentLeftAlone | dlpduck/reprocess.py:292-648 | one reassessment of any job in any state: the next row's verdict, pending release, path, pages and mark, where the file goes, which text is stored and which event is appended |
| Assessments.ReleaseLeftAlone | dlpduck/reprocess.py:513-563 | one release: the row as it was but numbered on, in the archive and not pending, the file there, one event; nothing at all when none is pending or the file is gone |
| Assessments.RebuildLeftAlone | dlpduck/reindex.py:154-288 | one rebuild: a first row that says where the file lies, with what an extraction showed only if there was one, and no text that was purged |
| Assessments.RestoreReplacesTheFirst | dlpduck/reindex.py:204-275 | a rebuild that was overtaken writes over the first assessment only, and no number stands twice |
| Degradation.MarkSurvivesReindex | dlpduck/reindex.py:191-230 | a rebuild that reads its document keeps the degraded mark if and only if the text is gone as well and a fresh extraction is degraded |
| Degradation.ForgottenMarkClears | dlpduck/reindex.py:204-288 | after a rebuild left alone, the next rules-mode reassessment clears the document if and only if it finds no hit and the text survived, or a clean fresh extraction may be stored; cleared or not, the file stays in quarantine |
| Recovery.RecoveryCarriesOut | dlpduck/reprocess.py:650-693 | one recovery finishes a transition that crashed anywhere, any number of times: its row is current, the file at the row's path if it exists, the transition gone, the event there |
| Recovery.RecoveryEventCount | dlpduck/reprocess.py:675-688 | that leaves exactly one matching event if and only if no event older than the transition file was missed |
| Recovery.RecoveryIsExactlyOnce | dlpduck/reprocess.py:650-693 | over every run whose index survives, whose starts are sound and whose purges are timely, rows run 1, 2, 3 each superseding the one before, and recovery ends with exactly one event |
| Recovery.EveryRowHasItsEvent | dlpduck/reprocess.py:650-693 | over such runs, once nothing is pending the trail holds exactly one event for every row after the first, if no start overtakes a written row whose event is missing |
| Recovery.EveryRowHasItsEventExactly | dlpduck/reprocess.py:641-693 | a start meets that condition if and only if carrying it out leaves every row with exactly one event |
| Recovery.PurgeThenRecovery | dlpduck/pipeline.py:875-891 | a purge of a pending transition and its recovery leave one event if and only if none was there from an earlier day |
| Recovery.OneEventPerNumberExactly | dlpduck/reprocess.py:641-693 | over any trail, old events of a lost index included, a transition that is started and dies after any of its steps or none ends with its own event and no other of its number if and only if the trail held none of that number before |
| Mishaps.LatePurgeRepeatsTheEvent | dlpduck/pipeline.py:875-891 | a run in which a purge on a later day rewrites the transition file and recovery appends the event a second time |
| Mishaps.LostIndexRepeatsTheNumber | dlpduck/reindex.py:204-275 | a run in which a rebuilt history starts again at 1 and the trail gets two events for one number |
| Mishaps.LostIndexLosesTheEvent | dlpduck/reprocess.py:675-688 | a run in which recovery after a rebuild takes the old event of that number for its own and appends none |
| Erasure.PurgeErases | dlpduck/pipeline.py:827-873 | a purge among any steps of readers and rebuilds: intent and end are on record, no pending transition keeps text, a hard one leaves no file, and the text is gone at its end if and only if nothing wrote it without the lock after it was deleted |
| Erasure.PurgeIsNeverUndone | dlpduck/reprocess.py:422-510 | after a purge nothing that may follow brings text back without a new extraction being asked for, if and only if no reader left over from before can resume: a batch asked to extract whose file is, or may be moved, where its row says; a judgement that holds text; a rebuild that asked what was purged before it was |
| Erasure.PurgeIsNeverUndoneWithIndex | dlpduck/reprocess.py:565-582 | the same while the index is not lost, where a changed verdict over an older row no longer counts, because a newer assessment refuses it |
| Erasure.HardPurgeIsNeverUndone | dlpduck/pipeline.py:827-873 | after a hard purge no run of anything brings a file back |
| Erasure.TextOutlivesItsPurge | dlpduck/reprocess.py:465-479 | a run in which an extraction judged before a purge writes its text back after it |
| Erasure.BatchOutlivesThePurge | dlpduck/reprocess.py:442-479 | a run in which a batch that looked up its rows before a purge extracts and writes the text after it |
| Erasure.RebuildOutlivesThePurge | dlpduck/reindex.py:154-172 | a run in which a rebuild that asked the trail before a purge restores the text after it |
| Mishaps.OverwritingStrandsTheFile | dlpduck/reprocess.py:641-648 | a run in which a second caller writes over a pending transition and leaves the file in quarantine under a row that names the archive |
| Degradation.ReindexForgetsDegraded | dlpduck/reindex.py:204-230 | a run from ingest: a degraded document whose index is lost and rebuilt from its text ends up waiting to be released |
| Reprocessor.JobRecords.ApplyTransition | dlpduck/reprocess.py:650-689 | the straight-line code ends where the single steps end |
| Reprocessor.JobRecords.AlreadyAudited | dlpduck/reprocess.py:676-684 | found exactly when an event of this kind and number stands in a partition not older than the transition file |
| Reprocessor.JobRecords.WriteAssessment | dlpduck/reprocess.py:565-624 | refused exactly when a newer assessment is current; otherwise the next row has the judged verdict, pages and degraded mark, a release pending exactly for what leaves quarantine or waited already, and the file follows an escalation |
| Reprocessor.JobRecords.Reassess | dlpduck/reprocess.py:292-510 | one job of a reassessment that nobody interrupts ends where its three separate steps end, and that is the row, file, text and event of `ReassessmentLeftAlone` |
| Reprocessor.JobRecords.Release | dlpduck/reprocess.py:513-563 | released exactly when a release is pending and the file is at one of its two places, and then the row and the file are in the archive |
| Reprocessor.JobRecords.RecoverTransitions | dlpduck/reprocess.py:690-693 | from any reachable state the pending transition is carried out |
| Reprocessor.JobRecords.DropPendingText | dlpduck/pipeline.py:875-891 | the text goes, the transition stays |
| Reprocessor.JobRecords.PurgeContent | dlpduck/pipeline.py:827-873 | the straight-line purge ends where the single steps end, with the text erased |
| IndexStore.HistoryIsOneChain | dlpduck/reprocess.py:565-579 | with readers outside the lock and appends inside it, each job's rows are one chain 1, 2, 3 without gap or rival |
| IndexStore.CompactionChangesNothing | dlpduck/index.py:191-239 | every step of a compaction, and a crash after any of them, leaves the same rows and the same current row of every job |
| IndexStore.AppendsNeverCollide | dlpduck/index.py:77-120 | no row is ever lost, and an allowed append never finds its name taken |
| IndexStore.IngestIsWritten | dlpduck/index.py:77-120 | the ingest of a new job adds exactly its first row |
| IndexStore.AppendIsWritten | dlpduck/reprocess.py:565-600 | an allowed reassessment adds exactly the next row after the one it read, which is current from then on |
| IndexStore.Partition.WriteRow | dlpduck/index.py:77-120 | the exclusive guard refuses exactly the names that are taken; without it the file is replaced, and repeating a write changes nothing |
| IndexStore.Partition.Gather | dlpduck/index.py:217-221 | the merged table holds exactly the rows of the listed files |
| IndexStore.Partition.Compact | dlpduck/index.py:217-239 | the same rows, in one file |
| RowGrouping.Group | dlpduck/extract.py:307-329 | the rows are the boxes from top to bottom, each within the tolerance of its first box, first boxes further apart than that |
| RowGrouping.FewestRows | dlpduck/extract.py:307-329 | no grouping of the same boxes within that tolerance uses fewer rows |
| RowGrouping.RowsSpanWithin | dlpduck/extract.py:320-329 | the rows are such a grouping themselves |
| RowGrouping.ToleranceIs | dlpduck/extract.py:313-315 | the tolerance is the ratio's share of the upper median of the positive heights, of twelve points if there is none, and at least two points |
| Sorting.SortedIsSorted | dlpduck/extract.py:317 | sorting gives the same elements in order |
| Documents.Offsets | dlpduck/types.py:102-109 | the running count is where each line begins in the joined text |
| Documents.LineInText | dlpduck/types.py:98-126 | every line stands in the joined text at its offset |
| Documents.NumberLines | dlpduck/extract.py:142-154 | one running number over all pages, unreadable pages giving no rows |
| Documents.LinesAreNumbered | dlpduck/extract.py:142-154 | lines are numbered in order, and each says truly where on its page it stands |
| HitRecords.EveryRowIsALine | dlpduck/extract.py:142-154 | every row of every page is a line, after all rows of earlier pages |
| HitRecords.PositionWindow | dlpduck/rules.py:135-150 | a rule's line window counts from the top of the page, its bottom or the start of the document, both ends included |
| Documents.ContextNear | dlpduck/engine.py:122-137 | true exactly when some line inside the window matches the context |
| Documents.ScanLines | dlpduck/engine.py:77-91 | exactly the accepted matches of every line, in order |
| Documents.ScanDocument | dlpduck/engine.py:93-120 | exactly the accepted matches of the joined text, in order, each counted from the line it starts on; on a document without lines an error exactly when an empty match is valid |
| HitRecords.LineScopeHitIsMatch | dlpduck/engine.py:77-91 | every line-scope hit is an accepted match with its place in its line and a form that hides all but the tail the rule keeps |
| HitRecords.LineScopeMatchIsHit | dlpduck/engine.py:77-91 | and every accepted match of every line has its hit |
| HitRecords.DocumentHitIsMatch | dlpduck/engine.py:93-120 | every document-scope hit is an accepted match, recorded on the line where it begins, and hidden likewise |
| HitRecords.DocumentMatchIsHit | dlpduck/engine.py:93-120 | and every match accepted on that line has its hit |
| HitRecords.MaskHides | dlpduck/masking.py:46-61 | one bullet for each letter or digit of the match; the last `keep` show only if more than three stay hidden, and then they are the match's own |
| Documents.MaskTellsItsTail | dlpduck/masking.py:46-61 | masking again with the number of characters a masked form shows gives the same form |
| Documents.LineScopeScanReveals | dlpduck/console/app.py:61-96 | every line-scope hit reveals exactly its match |
| Documents.DocumentScanReveals | dlpduck/console/app.py:61-96 | every document-scope hit, wrapped over line breaks or not, reveals exactly its match, and an empty match nothing |
| Documents.RevealOnlyShowsWhatMasks | dlpduck/console/app.py:83-96 | on any text, reveal shows only a piece of it that masks to the recorded form |
| Validators.Luhn | dlpduck/validators.py:43-54 | the doubling loop computes the weighted sum the laws below are about |
| CheckDigits.LuhnCheckDigit | dlpduck/validators.py:43-54 | 12 to 18 digits are completed by exactly the check digit that brings them, each second one from the right doubled and its digits added, to a multiple of ten |
| CheckDigits.PublishedCard | tests/test_validators.py:7-11 | 4111 1111 1111 1111 is accepted, with any other last digit it is not |
| CheckDigits.DigitsInPlace | dlpduck/validators.py:30-39 | each decimal digit of a text counts once and in its place, and nothing else does |
| Validators.LuhnCatchesChange | dlpduck/validators.py:43-54 | any one wrong digit is rejected |
| Validators.LuhnAndNeighbours | dlpduck/validators.py:43-54 | swapped neighbours are accepted exactly when equal, or 0 and 9 |
| Validators.NhsExactly | dlpduck/validators.py:77-89 | accepted exactly when ten digits, weighted 10 down to 1, come to a multiple of 11 |
| CheckDigits.NhsCheckDigit | dlpduck/validators.py:77-89 | nine digits with their weights written out decide the tenth; when they leave one, none fits |
| Validators.NhsCatchesChange | dlpduck/validators.py:77-89 | any one wrong digit is rejected |
| Validators.NhsCatchesSwap | dlpduck/validators.py:77-89 | any swap of two different digits is rejected, however far apart |
| CheckDigits.IbanCheckDigits | dlpduck/validators.py:58-73 | of all pairs of check digits exactly those are accepted that come, modulo 97, to 98 less the remainder of the rearranged number with 00 in their place, for lengths of 15 to 34 |
| CheckDigits.IbanComputed | dlpduck/validators.py:58-73 | so the check digits a bank computes are accepted |
| CheckDigits.PublishedIban | tests/test_validators.py:24-28 | GB29 NWBK 6016 1331 9268 19 is accepted, with any other last digit it is not |
| CheckDigits.IbanOfSigns | dlpduck/validators.py:58-73 | a text of ASCII letters and digits is judged by them |
| Validators.IbanCatchesChange | dlpduck/validators.py:58-73 | one wrong digit, or one wrong letter, is rejected |
| Validators.IbanAndNeighbours | dlpduck/validators.py:58-73 | swapped neighbours on one side of the rotation are accepted exactly when equal or one of 1/B, 2/M, 3/X |
| Validators.IbanIgnoresSeparators | dlpduck/validators.py:59-60 | characters that are neither letters nor digits do not matter, wherever they stand |
| Validators.IbanRefusesForeign | dlpduck/validators.py:61-65 | a letter or digit that is not ASCII is refused |
| Decimals.ParseDec | dlpduck/images.py:223-225 | a number written in decimal reads back as itself |
| Decimals.PaddedWidth | dlpduck/images.py:226-227 | a padded offset is ten digits exactly while it is below ten to the tenth |
| PdfWriter.Build | dlpduck/images.py:182-218 | objects get the numbers the references to them use, the first two filled in at the end |
| PdfWriter.WriteBodies | dlpduck/images.py:220-225 | each remembered offset is the length of the file when its object is written |
| PdfWriter.Write | dlpduck/images.py:178-231 | the written file is header, objects, table, trailer and the table's place |
| PdfReader.EntriesAreTwenty | dlpduck/images.py:226-227 | all table entries are twenty bytes exactly while the last object begins below ten to the tenth |
| PdfReader.EveryObjectIsLocated | dlpduck/images.py:220-231 | a reader that follows `startxref` is told the byte where each object begins |
| PdfReader.EveryObjectIsThere | dlpduck/images.py:220-225 | the object's number, text and end stand at that byte |
| PdfReader.HeaderAndFreeEntry | dlpduck/images.py:218-227 | the version and a binary comment come first, and the table begins with the head of the free list |
| PdfScan.ScanUndoesFilling | dlpduck/images.py:195-218 | words filled into a format's fixed texts are read back from the text |
| PdfRoundTrip.ListIsRead | dlpduck/images.py:214-218 | the page tree's list of references is read back from the text |
| PdfRoundTrip.ReaderUndoesWriter | dlpduck/images.py:178-231 | a reader given nothing but the text follows `startxref`, table, references, page tree and stream lengths and gets the frames back, in order and byte for byte, from every file up to ten to the tenth bytes |
| PdfRoundTrip.FilesTellFramesApart | dlpduck/images.py:178-231 | two files are equal if and only if their frames are, so the id taken from a file's digest tells documents apart |
| Ruleset.Loader.Process | dlpduck/rules.py:218-245 | the recursion collects exactly the definitions of the depth-first walk, or stops at its first error, and ends on every finite set of files |
| Ruleset.Load | dlpduck/rules.py:210-254 | the loaded rules are those of the walk, or its error |
| Ruleset.LoadedHasNoCycle | dlpduck/rules.py:223-239 | after a load without error no path of includes meets a file twice or leads to a missing one |
| Ruleset.ReportedCycleIsOne | dlpduck/rules.py:225-230 | a reported cycle is a path of includes whose last file is already on it |
| Ruleset.CyclesExactly | dlpduck/rules.py:210-254 | both directions for a whole load |
| Ruleset.LoadsExactly | dlpduck/rules.py:210-245 | a load goes through if and only if no includes lead around in a circle or to an entry that is no mapping, has no id, names a file outside the built-in ones, or one that is missing or no mapping |
| Ruleset.ErrorIsReal | dlpduck/rules.py:210-245 | every reported error names an entry that fails in just that way and the includes that lead there |
| Ruleset.LoadedIsLastEnabled | dlpduck/rules.py:240-254 | a rule is loaded exactly when it is the last definition of its id and enabled |
| Ruleset.LoadedByFirstAppearance | dlpduck/rules.py:240-254 | loaded rules stand in the order their ids first appeared, each once |

## Left out

- AuditStore.AuditLog.Append: the caller's fields carry none of the names the chain uses; no caller passes one, and the code would let it overwrite the event's own field.
- AuditStore.AuditLog.LastParseable: works on parsed lines; `LogReading.LastParseable` is the same search on bytes.
- AuditLedger.VerifiedExactly: a missing `prev` or `hash` and a null one are the same value, and blank lines are not modelled.
- LedgerVerdicts.FinishedTrimsVerify: retention of the stores other than the audit trail deletes whole partitions and has no chain to keep.
- AuditStore.ApplyRetention: the plan of the audit store only; the other stores are deleted between the same two events and have no chain.
- LockRuns.AtMostOneHolder: a holder deletes the lock's directory at most once while it holds it, as the two callers do; acquiring without blocking is modelled by refusals, and fairness is not.
- CommitRuns.DeliveredAtMostOnce: manifests of older releases without a receipt, a rejection at claim time and replacing a failed folder are not part of the commit model; neither are reassessment, purge and reindex, which have their own.
- Containment.RowTellsWhereTheFileIs: one job with one `dt=` partition per root; a crash ends whoever holds the store lock, and readers in other processes go on; a scan that raises leaves a reader without a judgement, as unavailable text does.
- Erasure.PurgeIsNeverUndone: a purge of a job whose commit is still to be resumed is not modelled; the commit protocol has no purge.
- Recovery.RecoveryIsExactlyOnce: asks that the index is not lost and that no purge rewrites a transition whose event is already there from an earlier day; the runs in `Mishaps` show why.
- Assessments.ReassessmentLeftAlone: a row's hits, severity, rules and pages read by OCR are not fields of the model; whether they are as recorded is a parameter.
- IndexStore.HistoryIsOneChain: a reader's row carries the number it read; ingest writes only a job's first row.
- Documents.DocumentScanReveals: a pattern is any function to spans inside the text, so the regular expressions and their time budgets are left out, and the character classes of Unicode are a parameter.
- RowGrouping.Group: positions are real numbers, so rounding of floating point is left out, as is the text of a row joined from left to right.
- Validators.IbanAndNeighbours: says nothing of the fourth and fifth characters, which the rotation puts at opposite ends, nor of letters whose upper case is longer than one character.
- PdfRoundTrip.ReaderUndoesWriter: `%.4f` of a page size is given as its text, and one char stands for one byte; the reader accepts the layout this writer uses, not every PDF.
- Ruleset.Load: a file that is not YAML, a `rules` value that is not a list, and the checks a single rule makes of its own fields when it is compiled are not modelled.
- PDF rendering, OCR, image decoding and the isolated worker: extraction is any function to numbered lines.
- DuckDB, Parquet, search, tags over HTTP, sessions, permissions other than containment, the command line, syslog and webhook delivery, heartbeats and configuration: input and output around the modelled state.
- The Kubernetes lease: its safety depends on clocks and the API server.
- `fsync`, temporary files and renames: an atomic write is one step.
- Correlation digests and Unicode normalisation.
