# CrystalBackup: verified model of the backup engine

This project models the parts of CrystalBackup that are hard to get right and proves what they promise.

- **The per-PVC state machine** (`VolumeModel`, `VolumeStep`, `VolumeEngine`, `VolumeLaws`, `VolumeOutcomes`). One record per
  volume, driven one step a pass, with four deadlines read off cluster objects and one outer backstop. The
  class `Volume` is the record the controller updates in place; each method is proved against a function of
  the record and of everything the pass read. The laws hold for one step, and for every sequence of steps; `VolumeOutcomes` says
  in the fields of record and observation alone what each step leaves.
- **One pass and the queue of volumes** (`Names`, `BackupPass`, `PassOutcomes`, `QueueProgress`). Enumeration, the choice of one
  volume, roll-up and terminal marks; then a termination measure for the whole queue.
- **Runs with kills, conflicts and late writes** (`Abandonment`, `Reconciliation`, `RunLaws`, `RunOutcomes`,
  `RunLeads`, `ResultLaws`, `ResidueLaws`, `ResidueRuns`, `AbandonmentRuns`). A Backup's store and its
  controller as a step system: a pass is a sequence of API steps, a kill may fall between any two, a status
  write may be stored, refused, or error and land later; the schedule may end the Backup as abandoned, the
  second writer of its status; other parties edit, drain and delete objects, and the Backup itself may be deleted and
  finalized. The step of a pass is the function the `Volume` and `BackupRecord` methods are proved to compute.
- **The repository mutex** (`MoverCensus`, `RepoQueue`, `MoverMutex`, `Maintenance`, `MutexLinks`). The exclusive queue with its
  producers, its consumer and its shutdown; the protocol between mover admission and the operations that
  remove repository locks; the polling loops of a maintenance operation; and the correspondence between the protocol's steps
  and the queue, the drain and the volume's pass.
- **The missed-backup alert** (`PromQL`, `ClusterState`, `MissedBackup`, `AlertFolds`). A small denotational
  semantics of the PromQL the alert is written in, the collector's series, and the self-check's fold over the
  same objects.
- **The cluster-manifest capture and the finalizer** (`ClusterCapture`, `Finalizer`).
- **Four small kernels** (`Splitter`, `Splice`, `DnsName`, `Tail`) on top of `Text`.

Code that changes things step by step is imperative Dafny proved against specification functions; code made of
expressions is functions; protocols are step systems, and their theorems are about every run.

## Assumptions

- Reads are current and status writes are optimistic-concurrency updates. The one exception is the mover
  census, whose lag is explicit in `MoverMutex`: it need only show a Job by the time its re-check has finished.
- A create or a delete of an object takes effect at its own step of the run, whatever it answers; only a status write and
  the exposures-cleaned marker may land later. A create that reached the API server after the marker would be outside
  `RunLaws.MarkerMeansNothingRemains`.
- A mover Job that is being deleted no longer runs. In `MoverMutex` an operation's quiescence is the queue's
  counter, which `RepoQueue` proves to span the operation; it does not outlive the operator process. Its movers are
  those of Backups: a restore's mover is in the same census but passes its gate once, without a re-check
  (`internal/controller/restore_engine.go:794`), and no theorem speaks of it.
- `QueueProgress` bounds the passes of a run that keeps persisting, whose listings come from a finite set of
  names, whose successive clock readings are at least a fixed gap apart, whose Jobs carry a creation time, and
  in which a mover Job was created before its volume entered Uploading. Two waits have no clock by design and
  are counted apart: a closed admission gate, and a mover that is running or whose pods cannot be listed.
- The foreign objects of a run do not carry this Backup's owner label.
- `MissedBackup` evaluates query and fold at one instant; object names are unique in their scope; recorded
  times are after 1970.
- In a drain the k-th tick comes no earlier than k periods after the start, and once the context has ended the
  wait takes its arm: the second is about the scheduler, since a select with both arms ready may take either.

## Where the code and its documentation disagree

The model follows the code. Each disagreement below is a lemma with the input that shows it.

- The sanitiser's comment promises a length of at most `max` for every `max >= 1`
  (`internal/controller/backup_controller.go:3220-3223`). It holds exactly when the cleaned name already fits or
  `max >= 10` (`DnsName.LengthIsKeptExactly`, with an input in `DnsName.LengthIsOverrun`). Every caller passes 56 or 55
  (`internal/controller/backup_controller.go:87`, `internal/controller/restore_engine.go:72`), where it holds.
- The terminal sweep and the finalizer pass over Skipped volumes as never exposed
  (`internal/controller/backup_controller.go:2449-2463`, `internal/controller/backup_controller.go:1212-1214`). In every run a
  Skipped volume has an exposure exactly when some pass got as far as making an object for it (or one was there before)
  and neither another hand nor a deletion has cleared it since (`ResidueLaws.SkippedVolumeIsExposedExactly`). Three ways to
  it, each a run: the pass is killed before its status write, the write is refused, or Expose breaks half way and the
  volume is parked; a later pass then finds the storage unsupported (`ResidueRuns.SkippedVolumeMayBeExposed`). There is no
  fourth (`ResidueLaws.ExposureBehindASkip`).
- The finalizer is said to be held until the deletes succeed, so that no residue is orphaned
  (`internal/controller/backup_controller.go:1200-1203`). It waits for accepted deletes, without a verification read: it goes
  over exactly the objects of PVCs whose stored record is Skipped or missing, and those a clean-up answered success over
  and left (`ResidueLaws.FinalizerGoesOverResidueExactly`, with a run of each in `ResidueRuns.FinalizerMayGoOverResidue`).
  The exposures-cleaned marker, by contrast, is never stored over an object with this
  Backup's owner label (`RunLaws.MarkerMeansNothingRemains`).
- The movers a drain waits on are said only to drain (`internal/controller/backup_maintenance.go:282-290`). Of the
  movers at work on the operation's repository that is true except for exactly one step, the adoption of an abandoned Job
  (`MoverMutex.JoinsExactlyByAdoption`, `MoverMutex.DrainNeverGrows`). The census the drain waits on can grow: by Jobs of
  other repositories, by Jobs whose pass must still undo them, and by abandoned ones
  (`MoverMutex.WhoCanJoinTheCensus`, with runs in `MoverMutex.AnotherRepositoryHoldsTheDrainOpen` and
  `MoverMutex.OwnRepositoryCanHoldTheDrainOpen`).
- The re-check after a Job's creation is described as the point where the race is closed
  (`internal/controller/backup_controller.go:2060-2069`). It is for movers whose re-check passed; a Job whose undo failed, whose
  create errored after committing, or whose pass died before the re-check can be adopted beside a running
  operation (`MoverMutex.AbandonedJobsBreakTheExclusion`). A mover uploads beside one exactly when its Job was so adopted
  and has not ended since (`MoverMutex.ExclusionBreaksExactlyByAdoption`), and an operator restart forgets the operation
  (`MoverMutex.OperatorDeathBreaksTheExclusion`).
- The queue's drain is said to leave no caller blocked (`internal/repo/queue/queue.go:344-346`). That holds exactly when no
  producer appends after the consumer's last take (`RepoQueue.ResolvesEverythingExactly`): always for Stop
  (`RepoQueue.StopResolvesEverything`), not for a cancelled parent context (`RepoQueue.ParentCancelMayStrand`).
- A failed Job create is said to leave no grant for a Job that never started
  (`internal/controller/cluster_manifests_phase.go:231`). When the create committed and errored, the Job did start and
  loses its grant (`ClusterCapture.LostCreateLeavesTheJobBare`). A running Job is without its grant exactly after such
  a rollback, or after a delete of the reaper's or of an abandonment that landed since the grant was bound
  (`ClusterCapture.JobIsBareExactly`, with `ClusterCapture.LateReapLeavesTheJobBare` and
  `ClusterCapture.AbandonmentLeavesTheJobBare`).
- The abandonment of a cluster run is said to have no result to lose and no crash window
  (`internal/controller/schedule_abandonment.go:499-505`). A capture that ended before the schedule looked loses what its Job
  said (`ClusterCapture.AbandonmentLosesAVerdict`); an unstored capture loses its Job exactly to the cluster or to an
  abandonment (`ClusterCapture.UnstoredCaptureKeepsItsJobExactly`). A pass that was on its way starts a capture under
  a run already ended (`ClusterCapture.EndedRunMayStillCapture`), and a grant that stands after an abandonment was bound
  by such a pass (`ClusterCapture.StandingGrantWasBoundSince`).
- A run with a volume in flight is said never to be abandoned (`internal/controller/schedule_abandonment.go:66-70`). On the
  namespace plane that holds in every run (`AbandonmentRuns.NamespaceKillEndsOnlyWaiting`). On the cluster plane the
  children are listed again after the verdict, and one that has a volume in flight by then is ended too
  (`AbandonmentRuns.RelistedChildMayBeInFlight`).
- An unreadable report is called the signal of a hard-killed mover (`internal/controller/backup_controller.go:2356-2360`).
  The read fails too when the pods cannot be listed: a mover that completed is then failed as crashed, and the
  repository's lane is taken for a lock removal (`VolumeLaws.UnlistedPodsCountAsAHardKill`).
- The self-check is said to give the same answer as the alert (`internal/alerts/predicate.go:250-255`). It does
  exactly when no key's tenants straddle the deadline (`MissedBackup.QueryIsFoldPlusStraddles`,
  `MissedBackup.TenantChangeMakesThemDiffer`).
- The stall predicate is said to reproduce its alert exactly (`internal/alerts/predicate.go:494-498`). On the five join
  labels it does (`AlertFolds.StallQueryAgreesOnKeys`); with the tenant label it does exactly when every stuck run
  carries its namespace's tenant (`AlertFolds.StallQueryEqualsFoldExactly`).
- The outer backstop is meant never to win over a bound that can give a better answer
  (`internal/controller/backup_controller.go:379-385`). The two verdicts of one pass read the clock separately, so for a
  snapshot created exactly two hours into the phase the weaker one can win (`VolumeLaws.LadderRacesAtItsMargin`).

## Model

| member | source | states |
|---|---|---|
| `VolumeModel.ClampKeepsToken` | internal/controller/clusterbackup_controller.go:895-901 | clamping a recorded cause keeps the token a reader matches on |
| `VolumeModel.DeadlineReasonNamesItself` | internal/controller/backup_controller.go:3050-3058 | a deadline's reason still starts with its own token after trimming and truncation |
| `VolumeModel.TextTestsAreExact` | internal/controller/backup_controller.go:3310-3321 | the two tests on the stored text (empty, parked prefix) are exactly the tests on what the reason says |
| `MoverCensus.TerminalScan` | internal/concurrency/semaphore.go:54-64 | true exactly when some true condition is Complete or Failed |
| `MoverCensus.RunningMoverJobs` | internal/concurrency/semaphore.go:41-49 | counts one for each listed Job that is not terminal |
| `MoverCensus.ActiveMoverCount` | internal/controller/backup_controller.go:2204-2235 | zero exactly when no per-PVC Job is unfinished and not being deleted |
| `MoverCensus.CapIsExact` | internal/concurrency/semaphore.go:70-75 | an open gate keeps to the limit exactly while the count fits 31 bits or wraps to between the limit and 2^31; at 2^31 it opens under any limit |
| `VolumeEngine.Volume.Park` | internal/controller/backup_controller.go:1809-1830 | keeps the volume Pending with the parked reason and changes nothing else |
| `VolumeEngine.Volume.RecordAdvanceFailure` | internal/controller/backup_controller.go:1832-1850 | records the retry note in flight and leaves phase and clocks alone |
| `VolumeEngine.Volume.StampPhaseEntry` | internal/controller/backup_controller.go:1537-1553 | restarts the phase clock on a change of phase or a missing clock, only in flight |
| `VolumeEngine.Volume.ClearStaleReason` | internal/controller/backup_controller.go:1655-1664 | clears the reason exactly when a waiting or retrying note has been left behind |
| `VolumeEngine.Volume.FailOnBackstop` | internal/controller/backup_controller.go:1582-1612 | fails the volume exactly when its phase clock is past the outer bound |
| `VolumeEngine.Volume.StepPending` | internal/controller/backup_controller.go:1686-1807 | one Pending step, branch for branch: park, skip, fail or expose |
| `VolumeEngine.Volume.StepSnapshotting` | internal/controller/backup_controller.go:1866-2087 | one Snapshotting step: rebuild, judge the snapshot, gate, create, re-check |
| `VolumeEngine.Volume.StepUploading` | internal/controller/backup_controller.go:2250-2367 | one Uploading step: wait, complete, fail, queue the unlock |
| `VolumeEngine.Volume.Advance` | internal/controller/backup_controller.go:1498-1527 | the dispatch with the two pieces of status hygiene around it |
| `VolumeEngine.Volume.DriveOnce` | internal/controller/backup_controller.go:819-850 | an error of the step becomes a recorded reason and nothing else |
| `VolumeEngine.EverStarted` | internal/controller/backup_controller.go:2937-2952 | true exactly when some pod of the Job ever started |
| `VolumeEngine.Stalled` | internal/controller/backup_controller.go:2899-2930 | true exactly past the start bound with a readable pod list in which none ever started |
| `VolumeLaws.StepKeepsLifecycle` | internal/controller/backup_controller.go:1498-1664 | every step, whatever is answered, takes at most one forward edge and keeps reason and phase fitting |
| `VolumeLaws.RunKeepsLifecycle` | internal/controller/backup_controller.go:1498-1664 | over every sequence of steps terminal records never change, phases only move forward, clocks are set once |
| `VolumeLaws.UploadFailsExactly` | internal/controller/backup_controller.go:2250-2367 | an upload fails if and only if its Job ended badly, or nobody ever started within the start bound, or the Job is gone or unreadable past the backstop; it completes if and only if the mover reported success |
| `VolumeLaws.FirstTerminal` | internal/controller/backup_controller.go:2250-2367 | in every run that ends an upload as Failed, one of those three reasons held at one step |
| `VolumeLaws.RunningUploadSurvives` | internal/controller/backup_controller.go:2899-2952 | an upload seen running on every pass is still uploading after any number of passes and any clock readings |
| `VolumeLaws.PhaseClockIsEntry` | internal/controller/backup_controller.go:1537-1553 | the phase clock of an in-flight volume is the stamp of its entry, or of its first touch, and has not moved since |
| `VolumeLaws.BackstopNeedsItsPredicate` | internal/controller/backup_controller.go:1555-1612 | a Failed in flight beyond the object deadlines needs the backstop due, which is more than four hours past the entry |
| `VolumeLaws.BackstopComesFourHoursAfterEntry` | internal/controller/backup_controller.go:1537-1612 | over whole runs: a step at which the backstop ends a volume in flight comes more than four hours after the step that brought it into its phase, or first touched it there |
| `VolumeLaws.SnapshotVerdictWinsExactly` | internal/controller/backup_controller.go:1887-1957 | when the backstop is due too, the snapshot verdict wins if and only if the snapshot was past its own limit when judged |
| `VolumeLaws.SnapshotVerdictBeatsBackstop` | internal/controller/backup_controller.go:2112-2126 | so it wins for every snapshot created at most two hours after entry, less the time between the pass's two clock readings |
| `VolumeLaws.LadderRacesAtItsMargin` | internal/controller/backup_controller.go:350-399 | without that allowance it can lose: a concrete pass |
| `VolumeLaws.TeardownExactlyAtTheEnd` | internal/controller/backup_controller.go:1498-1527 | a step asks for teardown exactly when work in flight has just ended |
| `VolumeLaws.EntryToUploading` | internal/controller/backup_controller.go:1985-2087 | a volume enters Uploading only with a Job that existed, or one created through an open gate and re-checked |
| `VolumeLaws.CreationIsRechecked` | internal/controller/backup_controller.go:2060-2073 | a Job created by the step is dropped, and the volume stays, exactly when quiescence is required at the re-check |
| `VolumeLaws.UnlockExactlyAfterUnreadableReport` | internal/controller/backup_controller.go:2250-2367 | an unlock is queued exactly for a finished mover whose report could not be read |
| `VolumeLaws.UnlistedPodsCountAsAHardKill` | internal/controller/backup_controller.go:2342-2360 | a complete mover whose pods cannot be listed is failed as crashed and queues an unlock |
| `VolumeLaws.WaitingVolumeIsParkedOrJudged` | internal/controller/backup_controller.go:1686-1807 | a waiting volume fails exactly on its clock, a missing source or a refused pre-check, is Skipped exactly on unsupported storage, and otherwise is parked with its clock running |
| `VolumeOutcomes.WaitingOutcome` | internal/controller/backup_controller.go:1686-1807 | for every answer, the record a Pending step leaves: expired, without a source, unsupported, refused, exposed, or parked under the cause that kept it; and the objects it made |
| `VolumeOutcomes.SnapshottingOutcome` | internal/controller/backup_controller.go:1866-1995 | for every answer that does not reach the mover's Job, the record a Snapshotting step leaves: broken on its cause, or past its deadlines, or waiting; and the objects it made |
| `VolumeOutcomes.LaunchOutcome` | internal/controller/backup_controller.go:1975-2087 | past an open gate the volume moves on, unless the Job it has just created must go again; before a closed one nothing changes, cap and mutex spelled out; and the writes in order |
| `VolumeOutcomes.FinishedOutcome` | internal/controller/backup_controller.go:2336-2367 | a volume completes with exactly the snapshot, sizes and node its mover reported, and fails with exactly what the report or the kubelet said |
| `VolumeOutcomes.UnfinishedOutcome` | internal/controller/backup_controller.go:2250-2329 | for every other answer, the record an Uploading step leaves: never started, gone or unreadable past the backstop, or still running |
| `VolumeOutcomes.TerminalOutcome` | internal/controller/backup_controller.go:1498-1527 | a terminal volume is left alone |
| `Names.SortSorts` | internal/controller/backup_controller.go:1457-1490 | sorting gives a sorted permutation |
| `Names.LessEqExactly` | internal/controller/backup_controller.go:1457-1490 | the order is the byte-wise one: a start of the other, or smaller where they first differ |
| `BackupPass.EnumerationAppends` | internal/controller/backup_controller.go:1457-1490 | enumeration leaves the known records alone and appends one fresh Pending record, in name order, for exactly the names not tracked |
| `BackupPass.PickDefersParked` | internal/controller/backup_controller.go:3285-3301 | a volume is picked exactly while one is unfinished, and a parked one only when all unfinished ones are parked |
| `PassOutcomes.PickIsFirst` | internal/controller/backup_controller.go:3285-3301 | the pick is the first volume neither done nor parked, or for want of one the first not done |
| `BackupPass.PassMovesAtMostOne` | internal/controller/backup_controller.go:818-889 | a pass changes at most the volume it picked, along one forward edge, and asks for no other's teardown |
| `BackupPass.RollUpTerminalExactly` | internal/status/phases.go:173-234 | the roll-up is terminal exactly when every volume is; it never yields PartiallyCompleted |
| `PassOutcomes.RollUpExactly` | internal/status/phases.go:173-234 | which phase for which volumes, all six: Uploading before Snapshotting before Pending; once all are done, Completed exactly without a failure, PartiallyFailed exactly with a failure and a completion, Failed otherwise |
| `PassOutcomes.SettleExactly` | internal/controller/backup_controller.go:955-1025 | the writer stores the roll-up, held at Uploading exactly while the manifest half runs or a release is owed over done volumes, and stamps the two times once |
| `PassOutcomes.SucceededExactly` | internal/controller/backup_controller.go:955-1025 | what it stores is a success exactly when nothing failed, nothing is unfinished and nothing is owed |
| `PassOutcomes.SelectedExactly` | api/v1alpha1/common_types.go:326-347 | a name is selected exactly when a PVC of that name has all labels, some include pattern if any, and no exclude pattern |
| `BackupPass.BackupRecord.MatchedNames` | api/v1alpha1/common_types.go:326-347 | the names the selector picks: all labels, some include glob if any, no exclude glob |
| `BackupPass.BackupRecord.Enumerate` | internal/controller/backup_controller.go:1457-1490 | the record's volumes become the enumeration of the selected names |
| `BackupPass.BackupRecord.FirstNonTerminal` | internal/controller/backup_controller.go:3285-3301 | the index loop finds the first unfinished volume that is not parked, else the first parked one |
| `BackupPass.BackupRecord.DriveNext` | internal/controller/backup_controller.go:818-860 | drives the picked record in place and returns the teardown it leaves due |
| `BackupPass.BackupRecord.RollUpPhases` | internal/status/phases.go:173-234 | the counting loop computes the roll-up |
| `BackupPass.BackupRecord.PrepareWrite` | internal/controller/backup_controller.go:955-1025 | phase, hold-backs and once-only times before the one status write; first arrival is recognised by the unset backupTime |
| `BackupPass.BackupRecord.Abort` | internal/controller/backup_controller.go:1150-1177 | a failed hook makes the record Failed, with its times stamped once |
| `PassOutcomes.AbortedExactly` | internal/controller/backup_controller.go:1150-1177 | the record a hook abort leaves: Failed, volumes as they are, times stamped once |
| `Abandonment.InFlight` | internal/controller/schedule_abandonment.go:198-205 | true exactly when some volume is in flight, queued or inside its Pending budget |
| `Abandonment.LastProgressAt` | internal/controller/schedule_abandonment.go:222-233 | the loop computes the newest progress |
| `Abandonment.LastProgressIsNewest` | internal/controller/schedule_abandonment.go:207-233 | no recorded instant is later, and it is one of them |
| `Abandonment.BackupAbandonment` | internal/controller/schedule_abandonment.go:247-261 | both halves of the evidence, over the record |
| `Abandonment.BudgetNeverDecides` | internal/controller/schedule_abandonment.go:235-261 | past the grace a run is abandoned if and only if every volume is terminal or waits and has been attempted: the Pending budget never decides |
| `Abandonment.ControllerAgrees` | internal/controller/schedule_abandonment.go:143-146 | every volume such a verdict ends is one the controller's own next step fails, whatever it is answered, while its Pending bound is no longer than the grace |
| `Abandonment.TerminateAbandonedBackup` | internal/controller/schedule_abandonment.go:295-329 | the loop over the record leaves the terminal status of the kill and nothing else |
| `Abandonment.AbandonedTerminalPhase` | internal/controller/schedule_abandonment.go:357-364 | partly failed exactly when some volume had completed |
| `Abandonment.KillKeepsResults` | internal/controller/schedule_abandonment.go:278-282 | terminal volumes are untouched, the others fail with their cause kept behind the token, the run is never a success, and both times are stamped once |
| `QueueProgress.PickedProgress` | internal/controller/backup_controller.go:1498-1612 | an unexcused pick strictly lowers the volume's weight, whatever is answered |
| `QueueProgress.ExcusedStays` | internal/controller/backup_controller.go:1985-1997 | an excused wait leaves the volume as it is |
| `QueueProgress.EnumerationKeepsMeasure` | internal/controller/backup_controller.go:1457-1490 | newly found PVCs move weight into the queue and create none |
| `QueueProgress.PassDecreases` | internal/controller/backup_controller.go:818-889 | every pass strictly decreases the measure unless it was spent on an excused wait |
| `QueueProgress.UnfinishedRunsAreShort` | internal/controller/backup_controller.go:818-889 | a run that never finishes is no longer than the measure plus its excused passes |
| `QueueProgress.EveryVolumeEnds` | internal/controller/backup_controller.go:818-889 | over a finite set of PVCs, any longer run contains a pass at which every volume is terminal |
| `QueueProgress.BuiltInWeight` | internal/controller/backup_controller.go:295-399 | with the built-in bounds and the five-second poll the weight of one volume is 6486 passes |
| `RunLaws.StepKeeps` | internal/controller/backup_controller.go:673-930 | every step of the system, kills and late writes included, keeps the invariant and evolves the stored status |
| `RunLaws.RunKeeps` | internal/controller/backup_controller.go:673-930 | so does every run |
| `RunLaws.MarkerMeansNothingRemains` | internal/controller/backup_controller.go:2449-2627 | in every run, once the exposures-cleaned marker is stored no object with this Backup's owner label exists, then or ever after |
| `RunOutcomes.MarkedExactly` | internal/controller/backup_controller.go:2491-2499 | in every run the marker is stored if and only if some step of it stored it |
| `RunLeads.SweepEndsInTheMarker` | internal/controller/backup_controller.go:2449-2499 | from every idle, terminal, unmarked Backup that is not being deleted, whose clean-ups succeed and leave nothing attributed to it, the sweep ends with the marker stored and every swept object and Job gone |
| `RunLeads.FailedCleanUpEndsTheSweep` | internal/controller/backup_controller.go:2449-2480 | with a clean-up that fails the sweep goes through every volume and ends without the marker |
| `RunLeads.SeenEndsTheSweep` | internal/controller/backup_controller.go:2588-2627 | a listing that shows an attributed object, or fails, ends the sweep without the marker |
| `RunLaws.NoResultLost` | internal/controller/backup_controller.go:2406-2423 | in every run, the step that removes a mover Job (TTL, foreign deletes and the Backup's own deletion apart) finds its volume's terminal result stored, unless hooks aborted the Backup |
| `ResultLaws.CompletedCarriesItsReport` | internal/controller/backup_controller.go:2346-2350 | in every run a volume stored as Completed carries the snapshot, sizes and node of a good report that an uncut pass over it read |
| `ResultLaws.JobGoneReportStored` | internal/controller/backup_controller.go:2406-2423 | so the step that removes a Job finds the volume's record stored, a completed one with its mover's report |
| `RunLeads.TeardownLeads` | internal/controller/backup_controller.go:868-930 | a stored result takes exposure and Job with it, counts once and forgets where due: the exact final state |
| `RunLeads.LandedWriteLeads` | internal/controller/backup_controller.go:2629-2660 | a terminal write that errored and landed is found by the read after it, and the teardown goes on |
| `RunLeads.LostWriteLeads` | internal/controller/backup_controller.go:2629-2660 | one that is not found ends the pass with nothing torn down |
| `RunLeads.EveryAnswerMayCome` | internal/controller/backup_controller.go:955-1025 | a write may be stored exactly while nobody has written since, and may be refused or given up at any time |
| `RunLeads.PassesMayBegin` | internal/controller/backup_controller.go:673-742 | a pass, a sweep and a deletion's pass begin exactly on an idle Backup in the state each is for |
| `RunLeads.PassWritesItsWork` | internal/controller/backup_controller.go:742-866 | an uncut pass goes on to write, over the version it read, the known records, the new ones, and the one it drove as its step left it |
| `RunLeads.OtherWrites` | internal/controller/hooks_phase.go:389-396 | what the gate, the freeze window and a hook abort write |
| `RunOutcomes.StatusChangesExactly` | internal/controller/backup_controller.go:955-1025 | the stored status changes exactly by a write that is stored, then or late |
| `RunOutcomes.JobsChangeExactly` | internal/controller/backup_controller.go:2406-2423 | a Job comes exactly by a pass that created it and did not take it back, and goes exactly by a clean-up of its own volume or by vanishing |
| `RunOutcomes.ObjectsChangeExactly` | internal/controller/backup_controller.go:2449-2463 | an object comes exactly by a pass that made it for the volume it drove, or from elsewhere, and goes exactly by a clean-up of a volume not Skipped, or by other hands |
| `RunOutcomes.EffectsChangeExactly` | internal/controller/backup_controller.go:895-1025 | counters, retention, deletion, release and abort flag change exactly by these steps |
| `RunOutcomes.VersionChangesExactly` | internal/controller/backup_controller.go:955-1025 | the version moves exactly with a stored write, the marker, a deletion, a release or another's edit |
| `RunLeads.InFlightExactly` | internal/controller/backup_controller.go:2629-2660 | a write is in flight exactly from its giving up, or from the schedule, to its landing |
| `RunLaws.TerminalEffectsAtMostOnce` | internal/controller/backup_controller.go:895-1025 | in every run the terminal counters are recorded at most once and only on a stored terminal phase, and retention is enqueued at most once and only on a stored success |
| `ResultLaws.RetentionSparesFailures` | internal/controller/backup_controller.go:895-930 | in every run retention is enqueued only for a Backup none of whose stored volumes failed or is unfinished |
| `RunLaws.AbandonFits` | internal/controller/schedule_abandonment.go:276-289 | the schedule's terminal write is one legitimate step on from the status it was made of, like the controller's own |
| `RunLaws.StoredStatusEvolves` | internal/controller/backup_controller.go:955-1025 | whoever writes it, the passes, the freeze window or the schedule: a stored terminal status is final, both times never move, volumes are unique, only appended and only move forward |
| `RunLaws.StampedLabelsAreExact` | internal/controller/backup_controller.go:3150-3184 | labels this version stamps are attributed exactly to their owner |
| `RunLaws.SiblingsDoNotCount` | internal/controller/backup_controller.go:2588-2627 | another Backup's leftovers, in the shape this version stamps, neither block the marker nor stand in for a clean read |
| `RunLaws.OldSiblingsCountExactly` | internal/controller/backup_controller.go:2588-2627 | a sibling's leftover from before the owner label blocks exactly when it carries this Backup's run, or no run and a PVC this Backup tracks |
| `RunLaws.AnOldSiblingBlocks` | internal/controller/backup_controller.go:2588-2627 | and one does: two Backups of one namespace and PVC |
| `ResidueLaws.SkippedVolumeIsExposedExactly` | internal/controller/backup_controller.go:2449-2463 | in every run, a PVC stored as Skipped has an exposure object exactly when a pass made one (or it was there before) and neither another hand nor a deletion has cleared it since |
| `ResidueLaws.MadeWhileWaiting` | internal/controller/backup_controller.go:1793-1807 | a step that makes an object for a waiting volume parks it when Expose broke and moves it on when Expose was done |
| `ResidueLaws.ExposureBehindASkip` | internal/controller/backup_controller.go:1793-1807 | in every run, the pass that made an object of a PVC stored as Skipped in the end was cut off, or its write was never stored, or its Expose broke half way |
| `ResidueRuns.SkippedVolumeMayBeExposed` | internal/controller/backup_controller.go:1797-1806 | three runs to it: the pass killed before its write, its write refused, Expose broken half way |
| `ResidueLaws.FinalizerGoesOverResidueExactly` | internal/controller/backup_controller.go:1204-1245 | in every run, the finalizer about to go goes over exactly the objects of PVCs stored as Skipped or not stored, and those a successful clean-up left |
| `ResidueRuns.FinalizerMayGoOverResidue` | internal/controller/backup_controller.go:1191-1203 | three runs to it: a Skipped volume, a volume never stored, an accepted delete that lingers |
| `RunLeads.DeletionEndsInTheRelease` | internal/controller/backup_controller.go:1204-1245 | a deletion whose clean-ups succeed and whose update goes through releases the Backup, with every volume's objects and Jobs gone as answered; one failure, and it stays |
| `AbandonmentRuns.NamespaceKillEndsOnlyWaiting` | internal/controller/backupschedule_controller.go:418-455 | in every run of the namespace plane an abandoning write ends only volumes that wait and were attempted more than four hours ago |
| `AbandonmentRuns.RelistedChildMayBeInFlight` | internal/controller/schedule_abandonment.go:506-522 | a child of a cluster run that was judged without volumes may have one in flight when it is ended |
| `RepoQueue.Worker.Enqueue` | internal/repo/queue/queue.go:408-419 | appends the handle and counts it if its kind blocks movers |
| `RepoQueue.Worker.AfterResolve` | internal/repo/queue/queue.go:424-431 | drops the handle's contribution to the counter |
| `RepoQueue.Worker.MoverBlockingActive` | internal/repo/queue/queue.go:434-438 | true exactly while one of the open handles blocks movers |
| `RepoQueue.Worker.Pop` | internal/repo/queue/queue.go:441-451 | takes the head of the queue and leaves the counter alone |
| `RepoQueue.Worker.Drain` | internal/repo/queue/queue.go:454-460 | takes the whole queue and leaves the counter alone |
| `RepoQueue.ShopKept` | internal/repo/queue/queue.go:218-374 | every interleaving of producers, consumer and shutdown keeps the ledger, the counter and the order |
| `RepoQueue.QuiescenceSpansTheOperation` | internal/repo/queue/queue.go:269-277 | the gate is closed exactly while a blocking operation is queued, running or just resolved |
| `RepoQueue.OneAtATimeInOrder` | internal/repo/queue/queue.go:195-247 | what ran is the first accepted, in order, and only the last of it may be unresolved |
| `RepoQueue.EveryAcceptedRuns` | internal/repo/queue/queue.go:218-284 | from every state an uncancelled run can be in at the top of its loop, the consumer gets to run and resolve every accepted operation in order, and the gate opens |
| `RepoQueue.CancelledEmptiesTheQueue` | internal/repo/queue/queue.go:299-352 | once cancelled it resolves the whole queue without running any of it, and is gone |
| `RepoQueue.AcceptedExactlyWhileOpen` | internal/repo/queue/queue.go:155-193 | an operation is taken in exactly while nobody has stopped or cancelled the queue |
| `RepoQueue.ConsumerIsNeverStuck` | internal/repo/queue/queue.go:218-352 | in every state the consumer is gone or has exactly one step to take |
| `RepoQueue.StopResolvesEverything` | internal/repo/queue/queue.go:286-352 | after a Stop every accepted handle is resolved and the gate is open |
| `RepoQueue.ResolvesEverythingExactly` | internal/repo/queue/queue.go:299-352 | however it was shut down, every accepted handle is resolved exactly when no producer appended after the consumer's last take; the rest is what they appended |
| `RepoQueue.ParentCancelMayStrand` | internal/repo/queue/queue.go:344-352 | after a cancelled parent context an accepted handle may never be resolved: a concrete interleaving |
| `MoverMutex.StepKeepsMutex` | internal/controller/backup_controller.go:1997-2073 | every step of movers, operations, cache and deaths keeps the exclusion invariant |
| `MoverMutex.MoverChangesExactly` | internal/controller/backup_controller.go:1997-2087 | a mover's Job comes exactly by a create and goes exactly by its end or a deleting undo; its volume moves on exactly by an adoption or a re-check that passes |
| `MoverMutex.PassChangesExactly` | internal/controller/backup_controller.go:1997-2087 | its pass starts at the gate, goes on by a create that made its Job and a re-check that must undo it, and ends in every other way |
| `MoverMutex.JobMarksChangeExactly` | internal/controller/backup_controller.go:2060-2087 | a Job is shown by the listing and re-checked exactly by these steps |
| `MoverMutex.JobIsLeftBehindExactly` | internal/controller/backup_controller.go:2060-2087 | a Job is left behind exactly by an ambiguous create, or by a pass that dies or fails to undo it |
| `MoverMutex.LaneChangesExactly` | internal/repo/queue/queue.go:195-284 | a repository's operations queue, drain, execute and end exactly by these steps, and are forgotten with the operator |
| `MoverMutex.ReCheckedMoversAreExcluded` | internal/controller/backup_controller.go:2060-2073 | in every run, while an operation executes past its drain no mover of its repository is active whose re-check passed, and an uploading one is an abandoned Job |
| `MoverMutex.AdmittedMoversUndoOrWereCounted` | internal/controller/backup_controller.go:2060-2073 | without an abandoning step the only active Jobs beside an executing operation belong to passes that must undo them |
| `MoverMutex.AbandonedJobsBreakTheExclusion` | internal/controller/backup_controller.go:2060-2073 | each of the three abandoning steps does put an uploading mover beside an executing operation: concrete runs |
| `MoverMutex.ExclusionBreaksExactlyByAdoption` | internal/controller/backup_controller.go:2060-2073 | in every run, a mover uploads under an active Job beside an executing operation if and only if some step adopted its abandoned Job and that Job has not ended since |
| `MoverMutex.OperatorDeathBreaksTheExclusion` | internal/repo/queue/queue.go:34-45 | a restart forgets an operation whose Job goes on: a concrete run |
| `MoverMutex.NoneJoinsWhileRequired` | internal/controller/backup_controller.go:2172-2185 | no re-check passes on a repository whose quiescence is required |
| `MoverMutex.JoinsExactlyByAdoption` | internal/controller/backup_controller.go:2060-2073 | while quiescence is required, a mover joins those at work on the repository exactly by the adoption of an abandoned Job |
| `MoverMutex.DrainNeverGrows` | internal/controller/backup_maintenance.go:282-308 | over any stretch with quiescence required, the movers at work on the repository only become fewer but for such adoptions, and without abandoned Jobs they only become fewer |
| `MoverMutex.JoinsTheCensusExactly` | internal/controller/backup_controller.go:2204-2235 | a Job joins the census exactly when the listing comes to show it or its re-check passes |
| `MoverMutex.WhoCanJoinTheCensus` | internal/controller/backup_controller.go:2223-2235 | while a repository drains, exactly the active Jobs not shown yet can join: other repositories' Jobs, Jobs whose pass must undo them, and abandoned Jobs |
| `MoverMutex.AnotherRepositoryHoldsTheDrainOpen` | internal/controller/backup_controller.go:2223-2235 | the census counts other repositories, whose movers can join while the drain waits |
| `MoverMutex.OwnRepositoryCanHoldTheDrainOpen` | internal/controller/backup_controller.go:2060-2073 | so can a Job of the drained repository that its pass has not undone yet: a concrete run |
| `MoverMutex.OnlyTheDeadAreForgotten` | internal/repo/queue/queue.go:34-45 | an operation executes that the queue has forgotten exactly when its operator died during it |
| `MutexLinks.GateIsTheGateStep` | internal/controller/backup_controller.go:2172-2195 | the mutex's gate step is the admission gate of the volume's pass, and only the concurrency cap can hold back more |
| `MutexLinks.StartMoverIsTheSteps` | internal/controller/backup_controller.go:1997-2073 | past the gate the pass moves the volume on, creates and takes back exactly as the mutex's create and re-check steps do |
| `MutexLinks.GateReadsTheLane` | internal/repo/queue/queue.go:269-277 | in every interleaving the queue's counter is positive exactly while the mutex's lane requires quiescence |
| `MutexLinks.QueueStepsAreLaneSteps` | internal/repo/queue/queue.go:195-277 | until shutdown every step of the queue is a step of its lane (enqueue, start, end) or leaves the lane alone |
| `MutexLinks.DrainIsTheCensusStep` | internal/controller/backup_maintenance.go:291-308 | a drain passes exactly when one of its censuses succeeds in a state where the mutex lets it pass, after nothing but busy ones |
| `Maintenance.BothHalvesAgree` | internal/controller/backup_maintenance.go:248-256 | admission is shut for a submission exactly when one of its operations waits for the drain, which is an unlock or a prune |
| `Maintenance.WaitForMoverQuiescence` | internal/controller/backup_maintenance.go:291-308 | the drain loop computes the drain's outcome on any transcript |
| `Maintenance.DrainedExactlyOnZero` | internal/controller/backup_maintenance.go:291-308 | the operation goes on exactly when a census read zero after nothing but busy ones |
| `Maintenance.DrainIsDecidedByTheFirstStop` | internal/controller/backup_maintenance.go:291-308 | the first turn that is not merely busy decides: past, census failed, or timed out with the count it last saw |
| `Maintenance.DrainEndsByItsOwnCap` | internal/controller/backup_maintenance.go:411-432 | the drain ends within its own thirty-minute cap, after at most 901 looks: a prune's exactly there, never at its four hours, an unlock's at its ten minutes |
| `Maintenance.CreateMaintenanceJob` | internal/controller/backup_maintenance.go:475-500 | the create loop computes the claim on any transcript |
| `Maintenance.ClaimIsOwnOrSeenLive` | internal/controller/backup_maintenance.go:463-500 | it succeeds exactly with a Job it created or one seen live, after waiting out nothing but graves |
| `Maintenance.CreateIsDecidedByTheFirstStop` | internal/controller/backup_maintenance.go:463-500 | the first turn without a grave decides, each outcome by its own answer |
| `Maintenance.WaitForMaintenanceJob` | internal/controller/backup_maintenance.go:507-567 | the wait loop computes its outcome on any transcript |
| `Maintenance.WaitIsDecidedByTheFirstStop` | internal/controller/backup_maintenance.go:507-567 | success exactly on an observed completion, failure on an observed failure, gone exactly on an unbroken absence longer than the grace |
| `Maintenance.SightingsResetTheGrace` | internal/controller/backup_maintenance.go:512-546 | with one sighting in every grace period the Job is never reported gone |
| `Maintenance.RunRepoMaintenance` | internal/controller/backup_maintenance.go:408-461 | succeeds exactly when every stage does; each stage's event is there exactly when every stage before it succeeded, in order, and the clean-up always last |
| `ClusterState.DeclaredIsConsistent` | internal/metrics/schedule.go:106-198 | with unique object names no two schedules declare one series |
| `ClusterState.DeclaredExactly` | internal/alerts/predicate.go:316-364 | an entry is declared if and only if some schedule has its namespace, name, location, cluster and timing, or some cluster schedule has and its accepted selector matches the namespace; and its tenant is the namespace's |
| `ClusterState.LatestIsLatest` | internal/alerts/predicate.go:366-384 | the fold over Backups holds, for each series, the greatest success time |
| `ClusterState.LatestIsOrderFree` | internal/alerts/predicate.go:366-384 | in whatever order they are listed |
| `MissedBackup.AllActive` | internal/alerts/predicate.go:316-364 | the two loops over the planes build the map of live schedules |
| `MissedBackup.LastSuccesses` | internal/alerts/predicate.go:366-384 | the loop over Backups builds the map of last successes |
| `MissedBackup.BackupMissedAgainst` | internal/alerts/predicate.go:286-425 | the self-check reports exactly the fold's breaches, with their ages |
| `MissedBackup.FoldFiresExactly` | internal/alerts/predicate.go:286-425 | a key is reported if and only if an unpaused schedule of either plane declares it, in the objects' own fields, and every success of it, or without one that schedule's creation, is too old |
| `MissedBackup.FoldReportsExactly` | internal/alerts/predicate.go:286-425 | what it reports: the namespace's tenant, and the age since the last success or, for want of one, since the creation of a live schedule |
| `MissedBackup.BoundsOfTheAlerts` | internal/alerts/rules.go:934-968 | the two alerts' bounds in numbers |
| `MissedBackup.QueryNeverFails` | internal/alerts/rules.go:945-951 | the right side of the comparison has one series a key, so the evaluation never errors |
| `MissedBackup.QueryFiresExactly` | internal/alerts/rules.go:934-968 | the expression fires on a key if and only if an unpaused schedule of either plane declares it, in the objects' own fields, and all successes of one tenant, or without any success that schedule's creation, are too old |
| `MissedBackup.QueryReportsExactly` | internal/alerts/rules.go:934-968 | what the expression reports: the age since that tenant's last success or, for want of any, since the creation of a declaring schedule |
| `MissedBackup.QueryIsFoldPlusStraddles` | internal/alerts/rules.go:196-230 | for every cluster state the query fires on what the fold reports, and on more exactly for the keys whose tenants straddle the deadline |
| `MissedBackup.QueryEqualsFold` | internal/alerts/predicate.go:247-261 | when the tenants agree query and fold are the same vector, all six labels and values |
| `MissedBackup.TenantChangeMakesThemDiffer` | internal/alerts/predicate.go:1096-1099 | a concrete state on which they differ |
| `MissedBackup.CriticalIsAlsoWarning` | internal/alerts/predicate.go:269-284 | every critical breach of the self-check is a warning breach at the same instant |
| `MissedBackup.CriticalAlertIsAlsoWarning` | internal/alerts/rules.go:284-342 | every series the critical expression fires on, the warning expression fires on |
| `AlertFolds.BackupStalled` | internal/alerts/predicate.go:512-568 | the self-check reports exactly the stall fold's breaches |
| `AlertFolds.StalledExactly` | internal/alerts/predicate.go:494-511 | a series is breached exactly when some unfinished run of it is too old, in any order of listing |
| `AlertFolds.BreachedByAStuckRun` | internal/alerts/predicate.go:494-511 | the same in the objects' own fields, with the age of the oldest stuck run |
| `AlertFolds.NewerRunsNeverHideAStall` | internal/alerts/predicate.go:510-511 | adding runs never silences a stall |
| `AlertFolds.MoreRunsOnlyRaiseTheLatest` | internal/alerts/predicate.go:366-384 | adding runs only raises a series' last success |
| `AlertFolds.StallQueryAgreesOnKeys` | internal/alerts/rules.go:864-866 | on the five join labels the stall expression and the fold agree for every cluster, whatever its tenants |
| `AlertFolds.StallQueryEqualsFoldExactly` | internal/alerts/predicate.go:494-498 | with all six labels and the ages they are the same vector exactly when every stuck run carries its namespace's tenant |
| `AlertFolds.ClusterIdentities` | internal/alerts/predicate.go:1142-1171 | the loop computes the identity and the location map |
| `AlertFolds.IdentityIs` | internal/alerts/predicate.go:1134-1171 | the identity is the cluster the claiming defaults agree on; without one, the cluster all locations that name any agree on; and nothing otherwise |
| `AlertFolds.IdsAreTheLocations` | internal/alerts/predicate.go:1143-1152 | with unique names each location leads to its own cluster |
| `AlertFolds.IdentityIsOrderFreeExactly` | internal/alerts/predicate.go:1134-1171 | the identity is independent of the list's order if and only if the default locations name one cluster |
| `ClusterCapture.Capture.StartClusterManifestsJob` | internal/controller/cluster_manifests_phase.go:164-238 | grant, then Job, in that order; a failed create takes the grant back |
| `ClusterCapture.Capture.AdvanceClusterManifests` | internal/controller/cluster_manifests_phase.go:95-159 | does nothing over a stored verdict, starts without a Job, waits while it runs, and reports exactly what an ended one said, or a failure if its report cannot be read |
| `ClusterCapture.Capture.TeardownClusterManifests` | internal/controller/cluster_manifests_phase.go:243-249 | the grant goes first, then the Job, in that order |
| `ClusterCapture.Capture.TerminateAbandonedRun` | internal/controller/schedule_abandonment.go:524-560 | the grant, which must go, then the Job, then the terminal status, in that order |
| `ClusterCapture.VerdictBeforeTeardown` | internal/controller/cluster_manifests_phase.go:156-158 | in every run the passes tear down only over a stored verdict, which is never written again; with none stored a grant goes exactly by a rollback, the reaper or an abandonment, a Job by the cluster or an abandonment |
| `ClusterCapture.VerdictIsWhatTheJobSaid` | internal/controller/cluster_manifests_phase.go:125-156 | in every run a stored verdict is what the last Job to end had said when a pass looked and could read its report, and a failure when it could not |
| `ClusterCapture.CalmCaptureLeavesItsVerdict` | internal/controller/cluster_manifests_phase.go:95-249 | an undisturbed capture stores its Job's verdict, whatever it is, and leaves neither grant nor Job |
| `ClusterCapture.StepChangesExactly` | internal/controller/cluster_manifests_phase.go:95-249 | grant, Job, verdict, end and the point of the pass change exactly by these steps |
| `ClusterCapture.UnstoredCaptureKeepsItsJobExactly` | internal/controller/schedule_abandonment.go:490-505 | in every run a created capture without a stored verdict has its Job if and only if neither the cluster nor an abandonment has taken it since |
| `ClusterCapture.StandingGrantWasBoundSince` | internal/controller/schedule_abandonment.go:493-505 | in every run a grant that stands after an abandonment took one away was bound after that |
| `ClusterCapture.JobIsBareExactly` | internal/controller/cluster_manifests_phase.go:230-236 | in every run, a running capture Job is without its grant exactly when its create was lost and rolled back, or a delete of the reaper's or of an abandonment landed since its grant was bound |
| `ClusterCapture.GrantCoversEveryRunningJob` | internal/controller/cluster_manifest_rbac.go:72-76 | so without lost creates and such deletes it never runs without it |
| `ClusterCapture.AbandonmentLeavesTheJobBare` | internal/controller/schedule_abandonment.go:524-532 | the abandonment's delete lands on a Job created after it looked: one run from nothing |
| `ClusterCapture.AbandonmentLosesAVerdict` | internal/controller/schedule_abandonment.go:490-505 | it takes away an ended Job whose verdict is not stored: one run from nothing |
| `ClusterCapture.EndedRunMayStillCapture` | internal/controller/schedule_abandonment.go:499-505 | a pass on its way starts a capture under a run already ended: one run from nothing |
| `ClusterCapture.LostCreateLeavesTheJobBare` | internal/controller/cluster_manifests_phase.go:230-236 | a create that committed and errored leaves the Job without its grant |
| `ClusterCapture.LateReapLeavesTheJobBare` | internal/controller/reaper.go:620-666 | a reaper's delete that lands after a restart of the capture does too: one run from nothing |
| `Finalizer.Deletion.SweepVolumes` | internal/controller/backup_controller.go:1209-1221 | every volume but the Skipped ones is tried, and a failure does not stop the sweep |
| `Finalizer.Deletion.Finalize` | internal/controller/backup_controller.go:1204-1245 | the finalizer goes exactly when every sweepable clean-up answered success and the update went through, over exactly the exposures not swept or left by a successful clean-up |
| `Splitter.Split` | hack/check-dashboard-metrics.py:273-302 | the index loop computes the split; an index error is its None |
| `Splitter.FailsExactlyOnADanglingEscape` | hack/check-dashboard-metrics.py:279-284 | it fails if and only if the text ends with a backslash inside a string |
| `Splitter.JoinUndoesSplit` | hack/check-dashboard-metrics.py:273-302 | joining the unfiltered parts with commas gives the text back |
| `Splitter.SplitTopLevelUndoesJoin` | hack/check-dashboard-metrics.py:273-302 | splitting comma-joined non-blank arguments gives exactly those arguments |
| `Splitter.PartsAreArguments` | hack/check-dashboard-metrics.py:273-302 | every part of a text that ends at the top level is one argument |
| `Splitter.CutsExactly` | hack/check-dashboard-metrics.py:273-302 | a comma cuts exactly outside strings and at bracket depth zero, all three kinds counted |
| `Splitter.StringsAreSkipped` | hack/check-dashboard-metrics.py:277-288 | inside a string no bracket, comma or escaped quote counts |
| `Splitter.NonBlankExactly` | hack/check-dashboard-metrics.py:300-302 | dropped are exactly the blank parts, and the others keep their order |
| `Splitter.Balanced` | hack/check-dashboard-metrics.py:132-154 | finds the first parenthesis outside strings that closes the group, and fails exactly when there is none |
| `Splitter.ParenthesesInStringsDoNotCount` | hack/check-dashboard-metrics.py:132-154 | inside a string no parenthesis counts for the group |
| `Splitter.ExtractedContentSplits` | hack/check-dashboard-metrics.py:233-243 | what it extracts never makes the splitter fail |
| `Splice.FindRegion` | hack/gen-preflight-table/main.go:723-744 | succeeds exactly on one marker of each kind in order, and says what is wrong otherwise |
| `Splice.MarkersExactly` | hack/gen-preflight-table/main.go:723-744 | a line is a marker exactly when it is the marker's text between white space |
| `Splice.SpliceRegion` | hack/gen-preflight-table/main.go:721-750 | succeeds exactly on a source with one region and replaces what is between its markers |
| `Splice.TrimNewlinesExactly` | hack/gen-preflight-table/main.go:746-750 | what is stripped from a region is all of its trailing newlines and nothing else |
| `Splice.OutsideIsKept` | hack/gen-preflight-table/main.go:718-720 | every line outside the markers, and the markers, are kept |
| `Splice.SpliceableAgainExactly` | hack/gen-preflight-table/main.go:721-750 | the result has a region again if and only if the new lines contain no marker |
| `Splice.LaterRegionReplaces` | hack/gen-preflight-table/main.go:721-750 | a later region fully replaces an earlier one, and the same one again changes nothing |
| `Splice.SplicingTheOldLinesBack` | hack/gen-preflight-table/main.go:746-750 | putting the old lines back gives the old source, when they do not end in an empty line |
| `DnsName.SanitizeDNSName` | internal/controller/backup_controller.go:3224-3254 | the loop computes the sanitised name |
| `DnsName.CleanIsHyphenated` | internal/controller/backup_controller.go:3224-3244 | the cleaned name is the maximal runs of letters and digits of the lower-cased text with one hyphen between any two, or an x |
| `DnsName.SanitizedExactly` | internal/controller/backup_controller.go:3244-3254 | the result is the cleaned name where it fits, otherwise a start of it that leaves room for a hyphen and the hash of the raw name |
| `DnsName.SanitizedIsLabel` | internal/controller/backup_controller.go:3220-3254 | for every input and every maximum the result is a label with no double hyphen |
| `DnsName.LengthIsKeptExactly` | internal/controller/backup_controller.go:3220-3254 | its length keeps to the maximum if and only if the cleaned name does or the maximum is at least 10 |
| `DnsName.LengthIsOverrun` | internal/controller/backup_controller.go:3220-3254 | one input at which it does not |
| `DnsName.SanitizingIsIdempotent` | internal/controller/backup_controller.go:3220-3254 | sanitising twice is sanitising once, whenever the first result fits |
| `DnsName.MoverNameFits` | internal/controller/backup_controller.go:82-87 | with the cap of 56 the mover Job's name is a label of at most 63 characters |
| `Tail.TailWriter.Write` | cmd/crystal-mover/run.go:245-255 | after any writes the buffer is the last max characters of everything written |
| `Tail.TailWriter.WriteAll` | cmd/crystal-mover/run.go:245-255 | so after any sequence of writes |
| `Tail.LastLine` | cmd/crystal-mover/run.go:225-233 | the backward loop finds the last line that is not blank, trimmed |
| `Tail.LastLineExactly` | cmd/crystal-mover/run.go:225-233 | it is some line, trimmed, with only blank lines after it; empty exactly when all are blank |
| `Tail.TailQuotesExactly` | cmd/crystal-mover/run.go:225-259 | the tail quotes what the whole stream would if and only if that line lies in the tail or the stream is blank |
| `Tail.WriterQuotesTheStream` | cmd/crystal-mover/run.go:235-259 | so a writer's quote is right whenever the last line lies inside what it kept |

## Left out

- BackupPass.Selected: the shell-glob match itself is a parameter; a malformed pattern is a match that fails.
- VolumeModel.ShortReason: trimming recognises ASCII white space only; the wording of a cause is opaque text.
- VolumeLaws.SnapshotVerdictBeatsBackstop: allows for the time between the pass's two clock readings, because at the exact margin the claim is false (VolumeLaws.LadderRacesAtItsMargin).
- RunLaws.NoResultLost: excepts a Backup whose hooks aborted it or that is being deleted, and Jobs that vanish by TTL or by another hand.
- QueueProgress.EveryVolumeEnds: excused waits are counted, not bounded; they end when the gate opens and started movers finish, which is the cluster's part.
- MoverMutex.ReCheckedMoversAreExcluded: speaks of operations the queue still holds; an operation that outlives its operator is the subject of MoverMutex.OnlyTheDeadAreForgotten and MoverMutex.OperatorDeathBreaksTheExclusion.
- Splice.SplicingTheOldLinesBack: old lines that end in an empty line are not restored, because the region is stripped of trailing newlines.
- DnsName.Sanitized: Unicode lower-casing and the FNV hash are parameters; distinct inputs are not claimed to get distinct names.
- Tail.TailWriter: works on characters, not on bytes of an encoding.
- Whole-second truncation of stored timestamps and the floating-point rounding of the 1.1 factor are not modelled; times are integers or exact rationals.
- Stored objects carry the PVC's name rather than the derived names of Jobs, Secrets and snapshots, which are not injective.
- The per-Job credentials Secrets: created before and deleted with their Job.
- Restore, erasure, discovery, external synchronisation, the manifest half of a Backup, the hooks of a freeze window, and key and Secret resolution; the manifest half and an owed release appear as two answers that hold the terminal phase back, and the freeze window as the status it writes.
- The exposers, restic and object storage: answers of the environment.
- The cluster plane's judgement of a whole run (`internal/controller/schedule_abandonment.go:386-480`): its last part, the look at the capture Job, is a step of `ClusterCapture`; for a child Backup an abandonment may come at any time.
- Events, log lines, spans, metric registration and the `for` hold of an alert: no property of their own.
- The missed-backup self-check's detail sentence and the order its breaches are printed in: a breach is its labels and its age.
- The unparsed cron and its period: a schedule carries the period at the instant of evaluation, or none.
- Retention's two guards (an immutable location, an empty keep policy): one answer of the environment at the point of enqueue.
