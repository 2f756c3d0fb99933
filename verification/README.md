# What jasil's state machines promise

This project models the parts of jasil whose correctness is a matter of whole runs rather than of one call, and
proves what they keep. It is split along the source's own components.

- **Audit checkpoints and retention** (`AuditTime`, `AuditLog`, `AuditChain`, `AuditStore`, `AuditVerify`,
  `AuditReport`, `AuditEvidence`, `AuditTamper`, `AuditRuns`, `AuditTheorems`, `AuditCrash`, `AuditWitness`). Windows of the log are sealed into a hash chain, each
  checkpoint is copied to a write-once sink before it is committed, old rows are pruned, and the chain is verified.
  Instants are integer microseconds. SHA-256, Ed25519 and JSON are functions passed as parameters, and no collision
  freedom is assumed: the tamper theorem ends in "the same history, or here is a collision". A run is any sequence of
  clock ticks, staged rows that become visible within the grace period, sealing with any valid settings, crashes
  between the sink write and the commit, and completed prunes on either path.
- **After-commit callbacks** (`AfterCommit`, `AfterCommitRuns`, `AfterCommitOrder`). The two session listeners, driven
  by every sequence of begin, savepoint, flush, register, release, rollback, commit and callback call. They are
  compared with a ledger that records, for each registration, the transactions enclosing it and what became of them.
- **Job leases** (`Leases`, `LeaseRuns`, `LeaseFencing`). Each section of the keeper that runs under its lock is a
  step; the steps of runner and heartbeat interleave freely, and a renewal answers any subset of the held jobs or fails.
- **Reloading backends** (`Reloading`). Concurrent `resolve` calls as steps: take a number, the source returns or
  raises, apply under the lock, or be interrupted while building.
- **Key-value state** (`Decimal`, `TtlMap`, `TtlLaws`, `MemoryState`, `Gate`). The in-process backend, with its several clock
  readings a call, refines a map that never evicts anything; the escalating gate's script agrees with it.
- **Local storage** (`LocalStorage`, `LocalArea`, `StorageStreams`, `Uploads`). The flat and the versioned layout of an
  area are layers of one map. Each operation is a list of atomic changes, any prefix of which may be all that happens.
- **Identifiers, cursors and paging** (`Bits`, `Uuid7`, `Base64`, `Cursors`, `Paging`).
- **Shared Redis clients** (`RedisClients`, `Glob`) and **the SMTP payload** (`SmtpData`).

Objects of the source that update their fields are classes here, each method proved equal to a function of the old
state; the theorems are about those functions over every run.

## Where the code does not keep what is written about it

- `after_commit.py:7-11` says that a callback runs when its transaction and the outermost one commit. One registered
  under a savepoint that was opened inside a flush is lost although everything commits: the flush's own subtransaction
  ends without a commit event and drops what was handed to it. `AfterCommitRuns.PromiseKeptIff` says exactly when the
  promise holds, `AfterCommitRuns.LostInsideFlush` is the run.
- `LeaseKeeper.begin` returns "the event set if its lease is lost" (`heartbeat.py:89`). A job that the heartbeat loses
  between the renewal that confirmed it and its `begin` runs unsignalled: `LeaseRuns.TrackedIff` is the exact discipline
  that rules this out, `LeaseRuns.BeginAfterLoss` and `LeaseRuns.UntrackedNeverFenced` are the run.
- `docs/audit.md:513-514` calls an `AuditSinkConflictError` while sealing the sign of a rewrite. It is also what an
  honest retry meets when the window length or the key changed since a crash: `AuditWitness.WindowChangeConflicts` is
  the run, `AuditCrash.RetryConflictsIff` the exact condition in every execution.
- `release_shared_clients` says that releasing twice cannot take another user's reference (`redis_clients.py:228-229`).
  It does exactly when another user holds that client (`RedisClients.ReleasedTwiceIff`,
  `RedisClients.RepeatedReleaseCloses`).
- `Platform.close` is called safe to call more than once (`container.py:139`). Two overlapping closes of one platform
  close the client under another platform: `RedisClients.OverlappingClosesSteal` is the run, `RedisClients.ConservedIff`
  the exact condition over all runs.
- `decode_cursor` refuses what "this module" did not produce (`cursors.py:47-48`), but also the cursor of a row without
  an id (`Cursors.EmptyIdRefused`) or one too long: `Cursors.DecodesIff` is the exact condition.

## Exact limits where nothing is promised

- Self-fencing measures silence from the moment a renewal returns, the database from the moment it was stamped. Against
  the database's expiry the bound holds if and only if the gap between attempts and the round trip fit in one interval
  together (`LeaseFencing.NeverOverstaysIff`).
- A delete that stops half-way brings a superseded copy back exactly when one was left behind
  (`LocalStorage.DeletePartial`); changing an area's layout keeps its contents under the exact condition of
  `LocalArea.ReconfigureKeepsIff`. `LocalArea.OldBytesReturn` is one run of saves that shows both.
- If a build is interrupted by something that is no ordinary exception, a later call can be answered with a backend
  older than the settings it brought home (`Reloading.InterruptedBuildHidesRead`), and only then
  (`Reloading.ReturnsAreFresh`).
- The gate's script and the in-process operation agree if and only if the gate, and under a closed gate the counter,
  hold integers (`Gate.Script`).
- The SMTP payload, which promises only what `smtplib` sends, is transparent exactly for bodies without a bare line
  feed in front of a dot (`SmtpData.TransparencyIff`); `SmtpData.BareLineFeedChanges` is one that is not.

## Model

| member | source | states |
|---|---|---|
| AuditTime.WindowEndOnGrid | jasil/audit/checkpoints.py:312-320 | A window is non-empty, at most the setting long, ends on the setting's grid and on a whole minute, and does not cross a UTC midnight, wherever it starts. |
| AuditTime.FirstStartOnGrid | jasil/audit/checkpoints.py:368-374 | The first window starts on the grid and contains the first row. |
| AuditTime.MidnightOutside | jasil/audit/maintenance.py:305-327 | A midnight cut never falls inside a window of one day. |
| AuditLog.SelectWindow | jasil/audit/checkpoints.py:123-129 | The database gives the window's rows ordered by time, with ties in any order. |
| AuditLog.WindowRows | jasil/audit/checkpoints.py:130-131 | Whatever order ties came in, grouping and sorting by id gives the one ascending sequence of the rows. |
| AuditLog.AscendingUnique | jasil/audit/checkpoints.py:114-121 | A set of rows has only one sequence ascending by time and id. |
| AuditChain.ComputeDigest | jasil/audit/checkpoints.py:134-141 | The streamed digest depends on the set of rows and the link only, not on the order of retrieval. |
| AuditChain.EncodeInjective | jasil/audit/checkpoints.py:137-140 | Newline-separated rows followed by a one-line link determine the rows and the link. |
| AuditChain.DigestBinding | jasil/audit/checkpoints.py:104-141 | Equal preimages mean the same row sequence and the same link. |
| AuditStore.AuditDatabase.SealPendingWindows | jasil/audit/checkpoints.py:323-404 | A run seals due windows one after another, at most a thousand, and stops short only at a sink conflict or when the next window's end and grace lie ahead; it does nothing when the chain is ahead of the clock. |
| AuditStore.AuditDatabase.SealWindow | jasil/audit/checkpoints.py:377-404 | One window is drafted, signed, copied to the sink and then committed; a conflict changes nothing. |
| AuditStore.AuditDatabase.PrunePartitions | jasil/audit/maintenance.py:290-320 | Nothing goes under a hold or with retention off; what goes is older than the settings, the newest checkpoint and the floor allow; every day that is old enough goes; and one row records it if any partition was dropped. |
| AuditStore.AuditDatabase.PruneRows | jasil/audit/maintenance.py:321-340 | Nothing goes under a hold or with retention off; exactly the rows before the sealed window that holds the cutoff go, all of them old enough, and the prune is recorded. |
| AuditStore.PartitionCutLaw | jasil/audit/maintenance.py:291-316 | Where partitions are cut: at the last midnight that the settings, the newest checkpoint and the floor all allow, and exactly when the routine's own floor refuses. |
| AuditStore.DeleteCutLaw | jasil/audit/maintenance.py:321-331 | Where rows are cut: at the start of a sealed window that is only partly old enough, and only when a prune is permitted. |
| AuditVerify.PruningHorizonBounds | jasil/audit/checkpoints.py:420-442 | No trusted checkpoint allows pruning beyond the horizon. |
| AuditVerify.PruningHorizonAttained | jasil/audit/checkpoints.py:420-442 | The horizon is that of some trusted checkpoint. |
| AuditVerify.FindPruningHorizon | jasil/audit/checkpoints.py:420-442 | Trying candidates from the latest horizon down finds the maximum over the trusted checkpoints. |
| AuditVerify.CheckOne | jasil/audit/checkpoints.py:527-558 | The findings for one window: gap, mismatch, broken chain, bad signature, or excused as pruned. |
| AuditVerify.CheckSelected | jasil/audit/checkpoints.py:527-558 | The loop over a range reports each window against its predecessor. |
| AuditVerify.VerifyCheckpoints | jasil/audit/checkpoints.py:445-576 | The report: range refused, or all findings, with rows before the first and after the last checkpoint. |
| AuditReport.OkIff | jasil/audit/checkpoints.py:445-576 | For every table, keys and range, `ok` if and only if no unsealed rows, no gap before, between or behind the windows, and each window intact or let go by a trusted checkpoint, signed when there are keys, and linked; and exactly which ranges and keys are refused. |
| AuditReport.OkMeansSigned | jasil/audit/checkpoints.py:542-543 | An `ok` report with keys vouches for the signature of every checkpoint in the range. |
| AuditReport.EachWindowReported | jasil/audit/checkpoints.py:527-558 | Each window of the range is reported with its first defect, whether it was pruned, its counts, and the gap in front of it. |
| AuditReport.EdgesReported | jasil/audit/checkpoints.py:494-511 | Rows before the first window and the gap behind the last are reported with their bounds and counts. |
| AuditReport.SignatureBinds | jasil/audit/checkpoints.py:144-158 | One signature vouches for one deployment, window, row count, hash, link and retention. |
| AuditReport.BehindHorizonIff | jasil/audit/checkpoints.py:420-442 | A window end is behind the horizon if and only if some trusted checkpoint not under hold lets it go. |
| AuditEvidence.RangeIsSlice | jasil/audit/checkpoints.py:512-522 | On a linked chain the checkpoints of a range are a contiguous slice, and the one before it is its predecessor. |
| AuditEvidence.IntactLogPasses | jasil/audit/checkpoints.py:445-576 | A linked chain whose windows are intact or excused, with valid signatures, verifies over any range. |
| AuditTamper.CheckedInRange | jasil/audit/checkpoints.py:512-558 | A clean range checks each window in it against its neighbour in the table, if that starts before the range or lies in it too. |
| AuditTamper.ReportMeansGenuine | jasil/audit/checkpoints.py:527-558 | Clean reports, however the ranges are cut, mean that every stored window they cover is, with its link, the digest of the rows there now. |
| AuditTamper.EqualHashEqualTail | jasil/audit/checkpoints.py:134-141 | A stretch of windows that ends in a hash of a genuine chain is the end of that chain, rows and links, or contains a collision. |
| AuditTamper.AnchoredEvidence | jasil/audit/checkpoints.py:445-576 | Clean hash-only reports over the windows up to a checkpoint with the sealed hash pin each of those windows, counting back, to the sealed rows and links, or exhibit a collision; what lies before may be pruned or gone. |
| AuditTamper.TamperEvidence | jasil/audit/checkpoints.py:485-576 | From the head of the chain, in as many reports as the range limit asks for: the same, with no window added or removed. |
| AuditRuns.StepKeeps | jasil/audit/checkpoints.py:323-404 | Every step of every run keeps the log, tiling, digests, signatures and cut consistent. |
| AuditTheorems.ReachableInv | jasil/audit/maintenance.py:176-222 | The invariant holds after any number of steps of any execution. |
| AuditTheorems.NoFalseAlarms | jasil/audit/checkpoints.py:445-576 | After any execution, verifying any range of at most 366 days is fine and reports each window, as pruned exactly when its rows are gone. |
| AuditTheorems.PrunedRowsWereSealed | jasil/audit/maintenance.py:290-341 | Every committed row that retention removed lies in a sealed window. |
| AuditTheorems.RetentionObeysSettings | jasil/audit/maintenance.py:290-340 | In every execution a prune under a hold, with retention off or not allowed by the newest checkpoint changes nothing, and what any prune takes is old enough under settings, checkpoint and floor. |
| AuditTheorems.RowPruneIsComplete | jasil/audit/maintenance.py:321-340 | After a permitted DELETE no row is left of any sealed window that is old enough. |
| AuditTheorems.PartitionPruneIsComplete | jasil/audit/maintenance.py:308-320 | After a permitted partition drop no row is left of any day that is old enough. |
| AuditTheorems.PrunesAreRecorded | jasil/audit/maintenance.py:334-339 | No row is pruned without a new row that records the prune. |
| AuditTheorems.WindowTiling | jasil/audit/checkpoints.py:312-404 | Sealed windows are contiguous, non-empty, no longer than the setting, on the grid, within one day and past their grace; the guard against a chain ahead of the clock never fires. |
| AuditTheorems.SealedIsGenuine | jasil/audit/checkpoints.py:377-404 | In every execution the sealed chain is genuine for the rows ever logged and ordered by start. |
| AuditCrash.CrashSafeDoubleWrite | docs/audit.md:456-458 | In every execution, whatever crashes and whatever settings change, every stored checkpoint has an identical copy outside. |
| AuditCrash.RetryConflictsIff | jasil/audit/checkpoints.py:264-309 | In every execution a seal is refused if and only if its window is due and a copy without checkpoint lies under its name that ends elsewhere or is signed differently. |
| AuditCrash.CopyHasOrigin | jasil/audit/checkpoints.py:396-401 | Every copy without a checkpoint was left by a run that died between the two writes, with that run's window end and key. |
| AuditCrash.RecordedRetention | jasil/audit/checkpoints.py:383-397 | In every execution a new checkpoint records the retention and hold of the run that seals it, or of the run that died leaving its copy, and never any other. |
| AuditCrash.RecordedWithoutSink | jasil/audit/checkpoints.py:383-397 | Without a sink it records those of the run that seals it. |
| AuditCrash.SealsExactlyWhatIsDue | jasil/audit/checkpoints.py:377-404 | A seal appends a checkpoint if and only if there is something to seal, the window's end and grace are past, and no copy disagrees. |
| AuditCrash.RetryNeverConflicts | docs/audit.md:459-462 | A seal that uses the window end and key of the runs that died on its window never conflicts, whatever retention or legal hold it uses and whatever other runs did. |
| AuditWitness.WindowChangeConflicts | docs/audit.md:513-514 | An honest execution whose retry is refused: the window length changed after the crash. |
| AfterCommit.Hooks.RunAfterCommit | jasil/_core/after_commit.py:33-56 | A callback is appended under the root or a savepoint with no savepoint above it. |
| AfterCommit.OwnerIsInnermost | jasil/_core/after_commit.py:55-55 | That position is unique, and it is the one chosen; the ledger's paths are defined by this law alone. |
| AfterCommit.Hooks.OnTransactionEnd | jasil/_core/after_commit.py:65-85 | Release re-parents, any other inner end discards, the root's commit empties the list into the ready callbacks. |
| AfterCommit.ReleaseAll | jasil/_core/after_commit.py:71-77 | Re-parenting on release keeps the pending list equal to the registrations still waiting, in order. |
| AfterCommit.DropAll | jasil/_core/after_commit.py:78-79 | Discarding removes exactly the registrations whose transaction ended. |
| AfterCommitRuns.StepKeeps | jasil/_core/after_commit.py:33-85 | Every session event keeps pending and delivered callbacks equal to what the ledger says. |
| AfterCommitRuns.StepConserves | jasil/_core/after_commit.py:81-85 | No ready callback is lost or duplicated before it is called, also when callbacks commit further work. |
| AfterCommitRuns.DeliveredExactly | jasil/_core/after_commit.py:33-85 | A callback becomes ready once if its transaction and all enclosing ones committed and no flush encloses its savepoint, and never otherwise; it is then called once. |
| AfterCommitRuns.PromiseKeptIff | jasil/_core/after_commit.py:7-11 | The documented promise holds exactly for callbacks that no flush encloses, or whose transactions did not all commit. |
| AfterCommitRuns.LostInsideFlush | jasil/_core/after_commit.py:71-79 | The run in which everything commits and the callback is gone. |
| AfterCommitOrder.RunInRegistrationOrder | jasil/_core/after_commit.py:81-85 | Callbacks of one outermost transaction are called in registration order, whatever they start meanwhile. |
| Leases.LeaseKeeper.Hold | jasil/jobs/heartbeat.py:80-86 | A new batch replaces everything and counts as proof of life. |
| Leases.LeaseKeeper.Begin | jasil/jobs/heartbeat.py:88-93 | A job runs under a signal of its own. |
| Leases.LeaseKeeper.Finalize | jasil/jobs/heartbeat.py:95-104 | Only the running job is marked as being written. |
| Leases.LeaseKeeper.Finish | jasil/jobs/heartbeat.py:106-111 | The job is neither running nor held. |
| Leases.LeaseKeeper.TakeWaiting | jasil/jobs/heartbeat.py:249-255 | Exactly the held jobs that are not running are taken and no longer held. |
| Leases.LeaseKeeper.AbandonIfOverdue | jasil/jobs/heartbeat.py:178-215 | An overdue handler is signalled once, stops being held, and the waiting jobs are handed out. |
| Leases.LeaseKeeper.RenewSection | jasil/jobs/heartbeat.py:146-170 | A renewal drops and signals what was not renewed; a failed one fences only after enough silence. |
| Leases.LeaseKeeper.PopUnrenewed | jasil/jobs/heartbeat.py:162-169 | Each job not renewed is dropped, and the running one among them is signalled unless it is being written. |
| Leases.LeaseKeeper.Drop | jasil/jobs/heartbeat.py:113-116 | The job is no longer held; what runs is untouched. |
| Leases.LeaseKeeper.Clear | jasil/jobs/heartbeat.py:118-122 | Nothing is held or running. |
| LeaseRuns.TrackedIff | jasil/jobs/heartbeat.py:80-170 | A section keeps "unsignalled and running means held" if and only if it does not begin a job that is not held nor drop a live one. |
| LeaseRuns.LostJobsAreSignalled | jasil/jobs/heartbeat.py:80-200 | Over every interleaving signals stay set, and under a disciplined runner a running, unfinished job no longer held has been signalled. |
| LeaseRuns.SignalHasCause | jasil/jobs/heartbeat.py:162-247 | In every run each signal was set in one section on its own live handler, because it overran its cap, was given away, or renewals were silent for a lease less one interval. |
| LeaseRuns.BeginAfterLoss | jasil/jobs/runner.py:199-201 | The heartbeat loses a job between the runner's confirmation and its begin: it runs live and unheld. |
| LeaseRuns.UntrackedNeverFenced | jasil/jobs/heartbeat.py:144-149 | From there no number of renewals, whatever they answer, signals the handler. |
| LeaseRuns.LeavesOnce | jasil/jobs/heartbeat.py:249-255 | Each job of a batch leaves the held set exactly once and is handed to release at most once. |
| LeaseRuns.LeavesIff | jasil/jobs/heartbeat.py:80-255 | Within a batch a held job leaves if and only if it is finished, dropped, released while waiting, given away, abandoned or released with an abandoned one, or the batch is cleared. |
| LeaseRuns.GoneForGood | jasil/jobs/heartbeat.py:106-122 | After it was finished, dropped, cleared, released or lost, no renewal of that batch gets it and no release hands it out, over every run. |
| LeaseRuns.HandedIff | jasil/jobs/heartbeat.py:249-255 | Exactly the held jobs that do not run are handed out, under their claimed attempts. |
| LeaseRuns.RunsUntilFinished | jasil/jobs/heartbeat.py:88-122 | The job begun last runs, with its marks, until it is finished or its batch is over. |
| LeaseRuns.LastRenewedMoves | jasil/jobs/heartbeat.py:80-86 | The last proof of life moves exactly at a claim and at a renewal that was answered. |
| LeaseRuns.AbandonedNeverRenewed | jasil/jobs/heartbeat.py:178-215 | An abandoned job is signalled, and no later renewal of its batch asks for it or gets it. |
| LeaseFencing.FencedWithinLease | jasil/jobs/heartbeat.py:231-247 | With attempts at most one interval apart, an unsignalled handler is always strictly within one lease of the last successful renewal. |
| LeaseFencing.BeginTimelyIff | jasil/jobs/heartbeat.py:231-247 | Beginning a held job keeps the bound if and only if no attempt has already found its lease too old. |
| LeaseFencing.NeverFencedEarly | jasil/settings.py:173-179 | In every run a handler is signalled for its cap, for a lost job, or after at least two intervals of silence. |
| LeaseFencing.NeverOverstaysIff | jasil/jobs/heartbeat.py:231-247 | A handler never outlives the lease stamped in the database, over all schedules, if and only if gap plus round trip is at most one interval. |
| Reloading.ReloadingBackend.ApplyRead | jasil/_reloading.py:118-129 | An overtaken read changes nothing but the failure flag; a newer one builds only on a change or a retry that is due. |
| Reloading.ReloadingBackend.FallBack | jasil/_reloading.py:109-117 | After a source failure only a backend that is the last outcome is returned. |
| Reloading.StepKeeps | jasil/_reloading.py:96-129 | Every step of every interleaving keeps each call's outcome tied to a read. |
| Reloading.NewestReadWins | jasil/_reloading.py:96-129 | The current outcome is the last build's, for the newest read applied to the end; no call brought a newer one home unless a still newer build was interrupted. |
| Reloading.ReturnsAreFresh | jasil/_reloading.py:96-129 | A successful call returns the outcome of a read numbered at least its own, unless a later build was interrupted; a failed read returns a working backend no older than what was current when the call began. |
| Reloading.RejectionsStand | jasil/_reloading.py:99-105 | Every call of every run returned the outcome of the last build before it; one whose source raised failed exactly when there was none or it had no backend. |
| Reloading.InterruptedBuildHidesRead | jasil/_reloading.py:123-129 | The run in which an interrupted build answers a call with settings older than it read. |
| Reloading.BuiltOncePerChange | jasil/_reloading.py:125-128 | While the settings stay the same and no retry falls due, nothing is built and the outcome stays. |
| Reloading.OutcomeSaysBuild | jasil/_reloading.py:146-159 | In every run the current outcome has the last build's backend or its reason, and a retry thirty seconds later exactly when the failure may pass. |
| Reloading.BuildsExactlyWhenDue | jasil/_reloading.py:118-129 | In every run a read builds if and only if it is not overtaken and nothing was built yet, the settings changed, or a passing failure is thirty seconds old; a rejection is never built again. |
| Reloading.FailingFlag | jasil/_reloading.py:119-135 | In every run the flag tells whether the source failed when it was last heard of. |
| Decimal.ParseFormat | jasil/backends/state_memory.py:16-23 | Every counter survives being written and read. |
| Decimal.ParseAccepts | jasil/backends/state_memory.py:16-23 | What is read as an integer is exactly what is written for one, and "-0". |
| TtlMap.SamePerformed | jasil/backends/state_memory.py:53-65 | Tables that differ in expired keys only answer every operation alike and stay alike. |
| TtlLaws.GetAfterSet | jasil/backends/state_memory.py:67-78 | A value reads back until its time to live is over and not after; other keys read as before; a time that is not positive is refused. |
| TtlLaws.GetAfterDelete | jasil/backends/state_memory.py:80-119 | Deleting and consuming take the key away; consuming answers what a get would have. |
| TtlLaws.GetAfterSetIfAbsent | jasil/backends/state_memory.py:102-111 | A value is stored if and only if none can be read. |
| TtlLaws.GetAfterIncr | jasil/backends/state_memory.py:85-100 | A counter goes up by the amount and reads back, expiring by the new time or exactly when it would have; other text is refused. |
| TtlLaws.ScanReads | jasil/backends/state_memory.py:132-140 | A scan names exactly the keys with the prefix that a get would read. |
| TtlLaws.DeletePrefixCounts | jasil/backends/state_memory.py:121-130 | The count is that of such a scan, and all of it is gone; the empty prefix is refused. |
| TtlLaws.OpenGateCounts | jasil/backends/state_memory.py:162-177 | An open gate counts one, and closes for exactly the seconds of the last tier reached. |
| TtlLaws.ClosedForItsSeconds | jasil/backends/state_memory.py:154-161 | A gate just closed is closed to a later call if and only if that comes within the seconds and its clock has not reached the instant. |
| TtlLaws.ClosedGateKeeps | jasil/backends/state_memory.py:154-161 | A closed gate answers the counter as it stands and its own instant, and changes nothing. |
| TtlLaws.TextRefused | jasil/backends/state_memory.py:19-23 | Text that is no integer is refused under either key. |
| MemoryState.MemoryState.SweepIfDue | jasil/backends/state_memory.py:43-51 | At most once a minute every expired key is dropped, and no other. |
| MemoryState.MemoryState.Get | jasil/backends/state_memory.py:67-70 | Answers as the map without eviction does. |
| MemoryState.MemoryState.Set | jasil/backends/state_memory.py:72-78 | Refuses a lifetime that is not positive; else stores, unseen sweep included. |
| MemoryState.MemoryState.Incr | jasil/backends/state_memory.py:85-100 | Adds to the live integer, keeps its expiry unless given one, refuses other text. |
| MemoryState.MemoryState.SetIfAbsent | jasil/backends/state_memory.py:102-111 | Stores exactly when no live value exists. |
| MemoryState.MemoryState.Delete | jasil/backends/state_memory.py:80-83 | Removes the key, live or not. |
| MemoryState.MemoryState.GetAndDelete | jasil/backends/state_memory.py:113-119 | Returns the live value and removes the key. |
| MemoryState.MemoryState.DeletePrefix | jasil/backends/state_memory.py:121-130 | Counts the live keys only, and removes all with the prefix; refuses an empty one. |
| MemoryState.MemoryState.IterKeys | jasil/backends/state_memory.py:132-140 | The keys that are live when the scan reaches them. |
| MemoryState.MemoryState.RecordTieredFailure | jasil/backends/state_memory.py:142-177 | Answers and stores as the gate's reference does, with its six clock readings. |
| MemoryState.RefinesTtlMap | jasil/backends/state_memory.py:43-177 | With a clock that never goes back, eviction and sweeps change no answer of any later operation. |
| Gate.ScriptArguments | jasil/backends/state_redis.py:189-192 | The flattened argument list. |
| Gate.ScriptLock | jasil/backends/state_redis.py:43-49 | The script's index loop over the flattened list finds the last tier reached, for every list. |
| Gate.Script | jasil/backends/state_redis.py:23-57 | On keys that hold anything, the script answers and leaves the table as the in-process operation does if and only if the gate, and under a closed gate the counter, hold integers or nothing. |
| Gate.LockMeans | jasil/backends/state_memory.py:168-171 | For any tier list the duration is that of the last tier reached, and zero when none is. |
| Gate.LastReached | jasil/backends/state_memory.py:168-171 | Last match wins, for any tier list. |
| Gate.HighestTierReached | jasil/backends/state_memory.py:168-171 | For ascending tiers the duration is that of the highest tier reached. |
| Gate.ClosedGateHolds | jasil/backends/state_memory.py:153-162 | While the gate is closed, any number of calls changes nothing and reports the same instant and count. |
| LocalStorage.SaveIsAtomic | jasil/backends/storage_local.py:308-351 | A save cut short anywhere shows the old map or the new one, and every payload stays readable. |
| LocalStorage.DeletePartial | jasil/backends/storage_local.py:934-966 | What a delete cut short anywhere shows, exactly; a completed one removes the key and nothing else. |
| LocalStorage.CleanupUnseen | jasil/backends/storage_local.py:353-423 | However far the best-effort removal gets, readers see no difference. |
| LocalArea.FailedWriteLeavesNothing | jasil/backends/storage_local.py:296-306 | A failed write of a new key, tidied up, leaves no identity behind. |
| LocalArea.Area.Get | jasil/backends/storage_local.py:398-411 | The layers are looked through as the single map says. |
| LocalArea.Area.HasKeyConflict | jasil/backends/storage_local.py:237-258 | A plain key is refused if and only if a key of either layout is its ancestor or descendant. |
| LocalArea.Area.Save | jasil/backends/storage_local.py:560-565 | Success replaces one entry of the map, a conflict changes nothing, a failure shows the old or the new map. |
| LocalArea.Area.Delete | jasil/backends/storage_local.py:934-966 | Success removes one entry of the map; a missing key is no error. |
| LocalArea.Area.ListKeys | jasil/backends/storage_local.py:1047-1127 | Exactly the visible keys with the prefix, each once. |
| LocalArea.Area.DeletePrefix | jasil/backends/storage_local.py:968-980 | Removes the key and everything below it, nothing else, and counts them. |
| LocalArea.RefinesOneMap | jasil/backends/storage_local.py:340-411 | Any run of successful saves and deletes, with any cleanup failing, behaves as one map. |
| LocalArea.ReconfigureKeepsIff | jasil/backends/storage_local.py:398-411 | For every pair of settings, a change keeps an area's contents if and only if the layouts agree where precedence changes and nothing is flat only where flat files stop being read. |
| LocalArea.CleanRunsReconfigure | docs/providers-and-backends.md:152-156 | As long as no cleanup fails, an area may be turned plain and back with nothing read changing. |
| LocalArea.OldBytesReturn | jasil/backends/storage_local.py:934-966 | Saves after which a cut delete, or turning the area back, shows the old bytes. |
| StorageStreams.ExactSizeReader.Read | jasil/_core/storage_streams.py:48-74 | Hands out the source's bytes in order, never more than asked for, and refuses a source that is short or long. |
| StorageStreams.CopyExactly | jasil/backends/storage_local.py:704-716 | The copy is the whole source, of the declared size, however it is cut up; every honest source of that size is copied. |
| StorageStreams.CopyWithin | jasil/backends/storage_local.py:592-605 | A stream is copied whole if it fits the limit and refused otherwise. |
| Uploads.Session.UploadPart | jasil/backends/storage_local.py:676-729 | A part commits only with exactly the declared bytes and replaces what its number held; the staged total stays within the limit; and which refusal answers which input. |
| Uploads.Session.OtherBytes | jasil/backends/storage_local.py:691-692 | The bytes staged under every other number are counted once each, in any listing order. |
| Uploads.Session.ValidateCompletion | jasil/backends/storage_local.py:531-558 | Accepts exactly unique, ordered references of legal sizes within the limit, and tells a bad request from one too big. |
| Uploads.Session.CheckStaged | jasil/backends/storage_local.py:738-743 | Accepts exactly the references that name every staged part with its size. |
| Uploads.Session.CopyParts | jasil/backends/storage_local.py:751-767 | Copies the parts in order and accepts exactly those whose digests are the referenced ones. |
| Uploads.Session.CompleteUpload | jasil/backends/storage_local.py:731-785 | After any run of part uploads, success stores the content committed last under each number, joined in ascending order, and returns its length; a refusal leaves what is read unchanged. |
| Uploads.ReturnedRefsComplete | jasil/backends/storage_local.py:531-558 | Handing back the references that the uploads returned completes any session with parts, unless one before the last is too small. |
| Uploads.BeginUpload | jasil/backends/storage_local.py:622-675 | A session opens for a key that clashes with none, with parts of 5 MiB to 5 GiB and ten thousand of them. |
| Uploads.JoinedInOrder | jasil/backends/storage_local.py:750-766 | Lower part numbers come first. |
| Uploads.ReferencedIsJoined | jasil/backends/storage_local.py:750-766 | Copying the references in order gives the staged parts in ascending order. |
| Uploads.JoinedIsLastCommitted | jasil/backends/storage_local.py:695-724 | The staged parts of a run of commits, joined, are the last commits under each number, joined. |
| Bits.OrDisjoint | jasil/_core/uuid7.py:46-46 | Or of fields that do not overlap is their sum. |
| Bits.AndMask | jasil/_core/uuid7.py:45-46 | Masking with the low bits is the remainder. |
| Uuid7.Generator.Next | jasil/_core/uuid7.py:25-47 | One call advances timestamp and counter and packs them. |
| Uuid7.FieldsAreRight | jasil/_core/uuid7.py:46-46 | Time, version 7, counter, variant 2 and the low bits of the draw sit in their fields (section 5.7 of RFC 9562). |
| Uuid7.AdvanceMeans | jasil/_core/uuid7.py:33-43 | A clock that moved on is taken over with a counter drawn from eleven bits; otherwise time and counter go up by one. |
| Uuid7.TextSaysValue | jasil/_core/uuid7.py:47-47 | The text is 36 characters, grouped 8-4-4-4-12, that read back as the value. |
| Uuid7.LeadBound | jasil/_core/uuid7.py:32-44 | After n calls the timestamp leads the largest clock reading by at most n / 2048 milliseconds. |
| Uuid7.AlwaysInTime | jasil/_core/uuid7.py:32-46 | A clock with that much room never overflows the 48-bit field, and the counter stays below 4096. |
| Uuid7.StrictlyIncreasing | jasil/_core/uuid7.py:25-31 | For any clock readings and draws, each value exceeds every earlier one as a number and as text. |
| Uuid7.Version7Increases | jasil/_core/uuid7.py:45-47 | The same for the 48-bit, 62-bit layout in use. |
| Base64.RoundTrip | jasil/_core/cursors.py:33-34 | Unpadded URL-safe base64 decodes to exactly the bytes encoded (section 5 of RFC 4648). |
| Base64.AlphabetPlaces | jasil/_core/cursors.py:34-34 | Characters are those of the URL-safe alphabet in its order, and only plus and slash are read besides. |
| Base64.GroupIsNumber | jasil/_core/cursors.py:34-34 | Three bytes and their four characters are one number, most significant part first. |
| Base64.DecodesOnlyWellFormed | jasil/_core/cursors.py:53-54 | Exactly whole groups of the alphabet with at most two final padding characters decode. |
| Cursors.DecodesIff | jasil/_core/cursors.py:37-63 | A cursor decodes to what was encoded if and only if the id is not empty and the text has at most 512 characters. |
| Cursors.EmptyIdRefused | jasil/_core/cursors.py:47-48 | A row without an id gets a cursor that is refused. |
| Cursors.LengthIff | jasil/_core/cursors.py:20-20 | That limit is 384 bytes of the document inside. |
| Paging.ListEntries | jasil/audit/query.py:98-114 | A page is the newest rows below the cursor; a next cursor is given exactly when more are left. |
| Paging.EveryRowOnce | jasil/audit/query.py:98-114 | Following cursors with any page sizes returns every row present throughout exactly once, newest first, whatever is inserted meanwhile. |
| Paging.WalksEnd | jasil/audit/query.py:112-114 | No walk has more than one page per row and a last one. |
| Paging.NextCursorAccepted | jasil/audit/query.py:98-99 | A returned cursor is always accepted by the next call. |
| RedisClients.SharedClients.GetSharedClient | jasil/_core/redis_clients.py:186-222 | One more reference, to the open client or a new one; an unreachable server changes nothing. |
| RedisClients.SharedClients.ReleaseSharedClients | jasil/_core/redis_clients.py:225-253 | One reference less per key; the clients that lose their last one are handed over for closing. |
| RedisClients.Platform.Close | jasil/container.py:126-152 | A close gives back what the platform took; one that follows it changes nothing. |
| RedisClients.StepKeeps | jasil/container.py:149-152 | Each step of builds, failed builds and closes keeps the counts right if and only if it is not a copy of a non-empty list that another close has copied and not cleared. |
| RedisClients.ConservedIff | jasil/container.py:149-152 | Over every run the counts are the references held at every moment if and only if no two closes of one platform overlap. |
| RedisClients.ReferencesConserved | jasil/_core/redis_clients.py:186-253 | In every such run counts equal references held, both maps have the same keys, and no client that is still held has been closed. |
| RedisClients.EveryClientClosedOnce | jasil/_core/redis_clients.py:238-249 | In every run, overlapping closes included, each client made is open or has been closed, once. |
| RedisClients.OverlappingClosesSteal | jasil/container.py:149-152 | Copy, copy, clear, clear, and two releases: the client is closed under another platform. |
| RedisClients.ReleasedTwiceIff | jasil/_core/redis_clients.py:225-230 | After any run, one more release of a key is harmless if and only if nobody holds the client. |
| RedisClients.RepeatedReleaseCloses | jasil/_core/redis_clients.py:225-230 | Two users, one releasing twice: the client is closed under the other. |
| Glob.EscapedPrefix | jasil/_core/redis_clients.py:64-81 | The escaped text and a star match exactly the keys with that prefix. |
| SmtpData.TransparencyIff | jasil/backends/mail_smtp.py:108-113 | The receiver of section 4.5.2 of RFC 5321 reads the whole payload, and recovers the body if and only if no bare line feed precedes a dot. |
| SmtpData.CrlfBodiesSurvive | jasil/backends/mail_smtp.py:108-113 | Bodies whose line feeds all end lines are recovered exactly. |
| SmtpData.BareLineFeedChanges | jasil/backends/mail_smtp.py:108-113 | A body that arrives with one dot too many. |

## Left out

- JSON, ISO timestamps, SHA-256 and Ed25519: functions given as parameters, with the properties a theorem needs stated as its hypotheses.
- Floating-point seconds: instants are integers or reals, and a window span divides exactly.
- Row pruning between two batches of one DELETE, which can leave a window half empty; the theorems are about completed prunes.
- Timestamp rounding of a database that stores less than microseconds.
- Catalog synchronisation, grants and partition creation of the audit maintenance, and the SQL behind it.
- LeaseFencing.FencedWithinLease: for handlers not begun on a lease that an attempt has already found too old, which the runner ensures by renewing before each turn; LeaseFencing.BeginTimelyIff says that this is exactly what a begin needs.
- AuditTamper.AnchoredEvidence: assumes that the first covered window's link is one line, which a caller can read off the stored row; a link with line ends in it could carry rows.
- LeaseRuns.AbandonedNeverRenewed: is about the batch in which the job was abandoned; a later claim may hold the same job again.
- The claim, release and renewal queries of `jobs/crud.py`: a renewal answers any subset of the held jobs or fails.
- Log lines, their levels, and the mail and geocoding wrappers around the reloading backend.
- MemoryState.MemoryState.IterKeys: the keys are a set; the order of a dictionary, which eviction can change, is not modelled.
- The range of Redis integers, the text of Lua numbers above 2^53, and Redis errors.
- Symbolic links, path containment, fsync, permission errors on reading, empty directories that could not be pruned, and several processes writing one area at once.
- The upload manifest, its clean-up by age, `copy`, `stat`, `serve` and `url`.
- Connecting to Redis, deleting by pattern, and closing a client outside the lock.
- Filters and the time range of `list_entries`, which only narrow the set of rows a page is taken from.
- SMTP sessions, TLS, addresses and the rest of `mail_smtp.py`.
- Settings parsing, capability reports, dashboards, event schemas, Redis Streams, Pub/Sub and S3: wrappers, or network calls over libraries.
