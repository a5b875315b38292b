/** What one step of a volume leaves, read off what the cluster answered: for each phase which outcome,
    with which record, reason and writes. Everything is said in the fields of the record and of the
    observation. */
module VolumeOutcomes {
  import opened Prelude
  import opened VolumeModel
  import opened VolumeStep
  import MoverCensus

  // ---- Bounds ----

  /** A positive setting is the bound; otherwise the built-in one is. */
  function Bound(setting: int, builtIn: int): int { if setting > 0 then setting else builtIn }

  /** The phase clock is past the outer bound, four hours unless set. */
  predicate OuterDue(cfg: Config, v: VolumeStatus, o: Observation) {
    v.phaseEnteredAt.Some? && o.outer - v.phaseEnteredAt.value > Bound(cfg.advanceRetry, 14400)
  }

  /** The record of a volume that left its phase in this pass. */
  function Left(v: VolumeStatus, o: Observation, phase: VolumePhase, reason: Reason): VolumeStatus {
    v.(phase := phase, reason := reason, phaseEnteredAt := Some(o.stamped))
  }

  /** The record of a volume still in its phase in flight: a missing clock is started. */
  function Stayed(v: VolumeStatus, o: Observation, reason: Reason): VolumeStatus {
    v.(reason := reason, phaseEnteredAt := if v.phaseEnteredAt.None? then Some(o.stamped) else v.phaseEnteredAt)
  }

  lemma MadeAllExactly(what: seq<ExposureObject>, e: Effect)
    ensures |MadeAll(what)| == |what| && (e in MadeAll(what) <==> e.Made? && e.what in what)
  {
    if e.Made? && e.what in what {
      var i :| 0 <= i < |what| && what[i] == e.what;
      assert MadeAll(what)[i] == e;
    }
  }

  /** A pass that errored leaves a waiting volume parked under the error, and notes it on any other. */
  lemma ErrorIsRecorded(v: VolumeStatus, c: string)
    ensures Retrying(v, c) == v.(reason := if v.phase.Pending? || v.phase.Unset? then Unresolvable(c) else RetryingAfter(c))
  {
  }

  // ---- Waiting ----

  /** One hour unless set, from the first attempt. */
  predicate Expired(cfg: Config, v: VolumeStatus, o: Observation) {
    v.firstAttemptAt.Some? && o.entry - v.firstAttemptAt.value > Bound(cfg.pendingResolve, 3600)
  }

  /** The pass called Expose. */
  predicate Tried(cfg: Config, v: VolumeStatus, o: Observation) {
    !Expired(cfg, v, o) && o.pvc == Found && o.resolution == Resolved && o.precheck == Passed
  }

  /** c is what kept the volume waiting: the read, the resolution, the pre-check or Expose itself. */
  predicate KeptWaitingBy(o: Observation, c: string) {
    || o.pvc == Read.Unreadable(c)
    || (o.pvc == Found && o.resolution == Unresolved(c))
    || (o.pvc == Found && o.resolution == Resolved && o.precheck == Inconclusive(c))
    || (o.pvc == Found && o.resolution == Resolved && o.precheck == Passed && o.exposed == Broke(c))
  }

  lemma WaitingOutcome(cfg: Config, v: VolumeStatus, o: Observation)
    requires v.phase.IsWaiting()
    ensures var s := Drive(cfg, v, o); var w := s.vol;
      var t := v.(firstAttemptAt := if v.firstAttemptAt.Some? then v.firstAttemptAt else Some(o.entry));
      && (Expired(cfg, v, o) ==>
            w == Left(v, o, Failed, if v.reason.Blank? then Overdue(PendingClock, "") else v.reason))
      && (!Expired(cfg, v, o) && o.pvc == NotFound ==> w == Left(t, o, Failed, SourceMissing))
      && (!Expired(cfg, v, o) && o.pvc == Found && o.resolution == Unsupported ==>
            w == Left(t, o, Skipped, StorageUnsupported))
      && (!Expired(cfg, v, o) && o.pvc == Found && o.resolution == Resolved && o.precheck == Refused ==>
            w == Left(t, o, Failed, PrecheckRefused))
      && (Tried(cfg, v, o) && o.exposed == Done ==> w == Left(t, o, Snapshotting, Blank))
      && (forall c :: !Expired(cfg, v, o) && KeptWaitingBy(o, c) ==> w == t.(reason := Unresolvable(c)))
      && s.effects == (if Tried(cfg, v, o) then MadeAll(o.made) else [])
      && s.error.None? && !s.teardown
  {
  }

  // ---- Snapshotting ----

  /** c is what kept the exposure from being rebuilt. */
  predicate KeptApartBy(o: Observation, c: string) {
    || (o.pvc == NotFound && c == "source PVC not found")
    || o.pvc == Read.Unreadable(c)
    || (o.pvc == Found && o.resolution == Unsupported && c == "no CSI snapshot support")
    || (o.pvc == Found && o.resolution == Unresolved(c))
    || (o.pvc == Found && o.resolution == Resolved && o.exposed == Broke(c))
  }

  predicate Rebuilt(o: Observation) { o.pvc == Found && o.resolution == Resolved && o.exposed == Done }

  /** The admission gate lets a new mover through: no Job yet, no operation that removes locks, and room
      under the cap, if one is set. */
  predicate Admits(o: Observation) {
    && o.slot == NotFound && !o.quiesceBefore
    && (o.limit <= 0 || (o.census.Counted? && MoverCensus.ToInt32(o.census.n) < o.limit))
  }

  /** The pass went on to its mover's Job. */
  predicate Starts(o: Observation) { Rebuilt(o) && o.ready == Ready && (o.slot == Found || Admits(o)) }

  /** c is what broke the start of the mover. */
  predicate StartBrokenBy(o: Observation, c: string) {
    && Rebuilt(o) && o.ready == Ready
    && (|| o.slot == Read.Unreadable(c)
        || (o.slot == NotFound && !o.quiesceBefore && o.limit > 0 && o.census == Uncounted(c))
        || (Starts(o) && o.creds == Broke(c))
        || (Starts(o) && o.creds == Done && o.creation == NotCreated(c)))
  }

  predicate NotReadyYet(o: Observation) { Rebuilt(o) && o.ready != Ready }

  /** The snapshot existed for fifteen minutes and nobody had picked it up. */
  predicate Untaken(o: Observation) {
    && NotReadyYet(o) && o.progress.Seen? && o.progress.startedAt.Some?
    && !o.progress.acknowledged && o.judged - o.progress.startedAt.value > 900
  }

  /** It was picked up, and not ready within two hours. */
  predicate Overlong(o: Observation) {
    && NotReadyYet(o) && o.progress.Seen? && o.progress.startedAt.Some?
    && o.progress.acknowledged && o.judged - o.progress.startedAt.value > 7200
  }

  /** The record of a volume whose pass broke on c. */
  function Broken(cfg: Config, v: VolumeStatus, o: Observation, c: string): VolumeStatus {
    if OuterDue(cfg, v, o) then Left(v, o, Failed, Overdue(AdvanceClock, c)) else Stayed(v, o, RetryingAfter(c))
  }

  lemma SnapshottingOutcome(cfg: Config, v: VolumeStatus, o: Observation)
    requires v.phase.Snapshotting?
    ensures var s := Drive(cfg, v, o); var w := s.vol;
      && (forall c :: KeptApartBy(o, c) || StartBrokenBy(o, c) ==> w == Broken(cfg, v, o, c))
      && (Untaken(o) ==> w == Left(v, o, Failed, Overdue(SnapshotUntouched, "")))
      && (Overlong(o) ==> w == Left(v, o, Failed, Overdue(SnapshotUnready, o.detail)))
      && (NotReadyYet(o) && !Untaken(o) && !Overlong(o) ==>
            w == if OuterDue(cfg, v, o) then Left(v, o, Failed, Overdue(AdvanceClock, NEVER_READY))
                 else Stayed(v, o, if o.ready.ReadyUnknown? then RetryingAfter(o.ready.cause) else v.reason))
      && (!Launches(o) ==>
            s.effects == if o.pvc == Found && o.resolution == Resolved then MadeAll(o.made) else [])
  {
    if NotReadyYet(o) { NotReadyOutcome(cfg, v, o); }
    forall c | KeptApartBy(o, c) ensures Drive(cfg, v, o).vol == Broken(cfg, v, o, c) { ApartOutcome(cfg, v, o, c); }
    forall c | StartBrokenBy(o, c) ensures Drive(cfg, v, o).vol == Broken(cfg, v, o, c) { StartBrokenOutcome(cfg, v, o, c); }
    if !Launches(o) { MadeOnly(cfg, v, o); }
  }

  lemma MadeOnly(cfg: Config, v: VolumeStatus, o: Observation)
    requires v.phase.Snapshotting? && !Launches(o)
    ensures Drive(cfg, v, o).effects == if o.pvc == Found && o.resolution == Resolved then MadeAll(o.made) else []
  {
  }

  lemma NotReadyOutcome(cfg: Config, v: VolumeStatus, o: Observation)
    requires v.phase.Snapshotting? && NotReadyYet(o)
    ensures var w := Drive(cfg, v, o).vol;
      if Untaken(o) then w == Left(v, o, Failed, Overdue(SnapshotUntouched, ""))
      else if Overlong(o) then w == Left(v, o, Failed, Overdue(SnapshotUnready, o.detail))
      else w == if OuterDue(cfg, v, o) then Left(v, o, Failed, Overdue(AdvanceClock, NEVER_READY))
                else Stayed(v, o, if o.ready.ReadyUnknown? then RetryingAfter(o.ready.cause) else v.reason)
  {
  }

  lemma ApartOutcome(cfg: Config, v: VolumeStatus, o: Observation, c: string)
    requires v.phase.Snapshotting? && KeptApartBy(o, c)
    ensures Drive(cfg, v, o).vol == Broken(cfg, v, o, c)
  {
  }

  lemma StartBrokenOutcome(cfg: Config, v: VolumeStatus, o: Observation, c: string)
    requires v.phase.Snapshotting? && StartBrokenBy(o, c)
    ensures Drive(cfg, v, o).vol == Broken(cfg, v, o, c)
  {
  }

  /** The pass got as far as creating its Job, or finding it. */
  predicate Launches(o: Observation) { Starts(o) && o.creds == Done && !o.creation.NotCreated? }

  /** The other end of the table: past the gate the volume moves on, unless the Job it has just created must
      go again; and before the gate, or on a Job taken back, nothing changes. */
  lemma LaunchOutcome(cfg: Config, v: VolumeStatus, o: Observation)
    requires v.phase.Snapshotting? && Rebuilt(o) && o.ready == Ready
    ensures var s := Drive(cfg, v, o); var w := s.vol;
      && (Launches(o) && !(o.creation == Created && o.quiesceAfter) ==> w == Left(v, o, Uploading, Blank))
      && (Launches(o) && o.creation == Created && o.quiesceAfter ==> w == Stayed(v, o, v.reason))
      && (!Starts(o) && (forall c :: !StartBrokenBy(o, c)) ==> w == Stayed(v, o, v.reason))
      && s.effects == MadeAll(o.made)
           + (if Launches(o) && o.creation == Created then [CreatedJob] else [])
           + (if Launches(o) && o.creation == Created && o.quiesceAfter then [DroppedJob] else [])
  {
    var made := MadeAll(o.made);
    assert made + [] == made && made + [CreatedJob] + [] == made + [CreatedJob];
    assert made + [CreatedJob] + [DroppedJob] == made + [CreatedJob, DroppedJob];
    if !Starts(o) && forall c :: !StartBrokenBy(o, c) { GateHolds(o); }
    if Starts(o) { GateOpens(o); }
  }

  lemma GateOpens(o: Observation)
    requires Starts(o)
    ensures MoverSlot(o).Open?
  {
  }

  lemma GateHolds(o: Observation)
    requires Rebuilt(o) && o.ready == Ready && !Starts(o) && forall c :: !StartBrokenBy(o, c)
    ensures MoverSlot(o).Blocked?
  {
    if o.slot.Unreadable? { assert StartBrokenBy(o, o.slot.cause); }
    if o.census.Uncounted? { assert !StartBrokenBy(o, o.census.cause); }
  }

  // ---- Uploading ----

  /** The Job ended, well or badly. */
  predicate Finished(o: Observation) {
    && o.job.JobFound?
    && (o.job.job.succeeded >= 1 || o.job.job.complete || o.job.job.failed || o.job.job.failedPods > o.backoffLimit)
  }

  /** It ended well, and its mover said so. */
  predicate Delivered(o: Observation) {
    Finished(o) && (o.job.job.succeeded >= 1 || o.job.job.complete) && o.mover.Reported? && o.mover.ok
  }

  /** A container of it has run. */
  predicate HasRun(p: Pod) {
    || p.phase == PodRunning || p.phase == PodSucceeded || p.phase == PodFailed
    || exists c <- p.containers :: c.running || c.terminated || c.terminatedBefore
  }

  /** Its Job is half an hour old, unless set, and no pod of it has ever run. */
  predicate NeverRan(cfg: Config, o: Observation) {
    && o.job.JobFound? && !Finished(o)
    && o.job.job.createdAt.Some? && o.judged - o.job.job.createdAt.value > Bound(cfg.moverStart, 1800)
    && o.pods.Listed? && forall p <- o.pods.pods :: !HasRun(p)
  }

  /** What a failed volume says of its mover: what the kubelet said that killed it, what the mover said, or
      the two stock words. */
  predicate Blames(r: Reason, m: MoverRead) {
    match m
    case Killed(why) => r == MoverSaid(why)
    case Unreported(_) => r == MoverCrashed
    case Reported(_, _, _, _, error) => r == if error == "" then MoverJobFailed else MoverSaid(error)
  }

  /** The result of an upload is what its mover reported: a volume completes with exactly the report's
      snapshot and sizes and the node it ran on, and fails with what the report or the kubelet said. */
  lemma FinishedOutcome(cfg: Config, v: VolumeStatus, o: Observation)
    requires v.phase.Uploading? && Finished(o)
    ensures var s := Drive(cfg, v, o); var w := s.vol;
      && s.teardown
      && (Delivered(o) ==>
            && w == Left(v, o, Completed, Blank).(snapshotID := o.mover.snapshotID, sizeBytes := o.mover.sizeBytes,
                                                  addedBytes := o.mover.addedBytes, node := o.node)
            && s.effects == [])
      && (!Delivered(o) ==>
            && w == Left(v, o, Failed, w.reason).(node := o.node) && Blames(w.reason, o.mover)
            && s.effects == if o.mover.Reported? then [] else [QueuedUnlock])
  {
  }

  lemma UnfinishedOutcome(cfg: Config, v: VolumeStatus, o: Observation)
    requires v.phase.Uploading? && !Finished(o)
    ensures var s := Drive(cfg, v, o); var w := s.vol;
      && s.effects == []
      && (NeverRan(cfg, o) ==> w == Left(v, o, Failed, Overdue(MoverNotStarted, o.detail)))
      && (o.job.JobFound? && !NeverRan(cfg, o) ==> w == Stayed(v, o, v.reason))
      && (o.job.JobMissing? ==>
            w == if OuterDue(cfg, v, o) then Left(v, o, Failed, Overdue(AdvanceClock, JOB_MISSING)) else Stayed(v, o, v.reason))
      && (o.job.JobUnreadable? ==>
            w == if OuterDue(cfg, v, o) then Left(v, o, Failed, Overdue(AdvanceClock, o.job.cause))
                 else Stayed(v, o, RetryingAfter(o.job.cause)))
  {
    if o.job.JobFound? && o.pods.Listed? {
      assert (forall p <- o.pods.pods :: !HasRun(p)) <==> !AnyPodStarted(o.pods.pods) by {
        forall p: Pod ensures HasRun(p) <==> PodEverStarted(p) {}
      }
    }
  }

  /** A terminal volume is left alone. */
  lemma TerminalOutcome(cfg: Config, v: VolumeStatus, o: Observation)
    requires v.phase.IsTerminal()
    ensures Drive(cfg, v, o) == Step(v, false, None, [])
  {
  }
}
