/** One step of the per-PVC state machine as a function of the record, the answers the cluster gave
    and the readings of the clock, listing the writes it made on the way. The class in VolumeEngine
    performs the same step in place and is proved equal to this function. */
module VolumeStep {
  import opened Prelude
  import opened VolumeModel
  import MoverCensus

  /** The injectable bounds; zero or negative means the built-in one. */
  datatype Config = Config(moverStart: int, pendingResolve: int, advanceRetry: int) {
    function MoverStartBound(): int { if moverStart > 0 then moverStart else MOVER_START_DEADLINE }

    function PendingBound(): int { if pendingResolve > 0 then pendingResolve else PENDING_RESOLVE_DEADLINE }

    function AdvanceBound(): int { if advanceRetry > 0 then advanceRetry else ADVANCE_RETRY_DEADLINE }
  }

  // What the environment may answer to each call.
  datatype Read = Found | NotFound | Unreadable(cause: string)
  datatype Outcome = Done | Broke(cause: string)
  datatype Resolution = Resolved | Unsupported | Unresolved(cause: string)
  datatype Precheck = Passed | Refused | Inconclusive(cause: string)
  datatype Readiness = Ready | NotReady | ReadyUnknown(cause: string)
  datatype Progress = Unknown | Seen(startedAt: Option<int>, acknowledged: bool)
  datatype Census = Counted(n: nat) | Uncounted(cause: string)
  datatype Creation = Created | AlreadyExists | NotCreated(cause: string)
  datatype Job = Job(createdAt: Option<int>, succeeded: int, failedPods: int, complete: bool, failed: bool)
  datatype JobRead = JobFound(job: Job) | JobMissing | JobUnreadable(cause: string)
  datatype PodPhase = PodPending | PodRunning | PodSucceeded | PodFailed | PodUnknown
  datatype Container = Container(running: bool, terminated: bool, terminatedBefore: bool)
  datatype Pod = Pod(phase: PodPhase, containers: seq<Container>)
  datatype PodsRead = Listed(pods: seq<Pod>) | Unlisted

  /** What reading the finished mover's report gave. Unreported: no report could be had, whether the pods
      were listed and held none, or could not be listed. */
  datatype MoverRead =
    | Reported(ok: bool, snapshotID: string, sizeBytes: int, addedBytes: int, error: string)
    | Killed(reason: string)
    | Unreported(podsListed: bool)

  /** The labelled objects one exposure consists of. */
  datatype ExposureObject = OriginSnapshot | OriginContent | StaticContent | StaticSnapshot | ClonePVC

  /** Everything one pass reads. The four clock readings are taken in this order: on entry, for the
      per-object deadline, for the outer bound, for the phase stamp. */
  datatype Observation = Observation(
    entry: int, judged: int, outer: int, stamped: int,
    pvc: Read, resolution: Resolution, precheck: Precheck, exposed: Outcome,
    made: seq<ExposureObject>,
    ready: Readiness, progress: Progress,
    slot: Read, quiesceBefore: bool, limit: int, census: Census,
    creds: Outcome, creation: Creation, quiesceAfter: bool,
    job: JobRead, pods: PodsRead, backoffLimit: int, mover: MoverRead, node: string,
    detail: string)
  {
    predicate ClockMonotone() { entry <= judged <= outer <= stamped }

    /** Rebuilding the exposure: read the PVC, resolve its exposer, expose again. */
    function Reconstructed(): Outcome {
      match pvc
      case NotFound => Broke("source PVC not found")
      case Unreadable(c) => Broke(c)
      case Found =>
        match resolution
        case Unsupported => Broke("no CSI snapshot support")
        case Unresolved(c) => Broke(c)
        case Resolved => exposed
    }

    /** Whether the pass got as far as calling Expose. */
    predicate ReachedExpose() { pvc.Found? && resolution.Resolved? }
  }

  datatype Effect = Made(what: ExposureObject) | CreatedJob | DroppedJob | QueuedUnlock

  /** The record after the step, whether teardown of this PVC is due once the record is stored, the
      error the step returned, and the writes made. */
  datatype Step = Step(vol: VolumeStatus, teardown: bool, error: Option<string>, effects: seq<Effect>)

  function MadeAll(what: seq<ExposureObject>): seq<Effect> {
    seq(|what|, i requires 0 <= i < |what| => Made(what[i]))
  }

  function Parked(v: VolumeStatus, cause: string): VolumeStatus {
    v.(reason := Unresolvable(cause))
  }

  function Retrying(v: VolumeStatus, cause: string): VolumeStatus {
    if v.phase.IsWaiting() then Parked(v, cause)
    else v.(reason := RetryingAfter(cause))
  }

  function FailedWith(v: VolumeStatus, reason: Reason): VolumeStatus {
    v.(phase := Failed, reason := reason)
  }

  predicate BackstopDue(cfg: Config, v: VolumeStatus, now: int) {
    v.phaseEnteredAt.Some? && now - v.phaseEnteredAt.value > cfg.AdvanceBound()
  }

  /** A call failed: the outer bound's verdict if it is due, otherwise the error. */
  function BackstopOr(cfg: Config, v: VolumeStatus, now: int, cause: string, effects: seq<Effect>,
                      error: Option<string>): Step
  {
    if BackstopDue(cfg, v, now)
    then Step(FailedWith(v, Overdue(AdvanceClock, cause)), true, None, effects)
    else Step(v, false, error, effects)
  }

  function Stamp(v: VolumeStatus, entryPhase: VolumePhase, now: int): VolumeStatus {
    if v.phase == entryPhase && (v.phaseEnteredAt.Some? || !v.phase.InFlight()) then v
    else v.(phaseEnteredAt := Some(now))
  }

  function ClearStale(v: VolumeStatus, entryPhase: VolumePhase): VolumeStatus {
    if v.phase == entryPhase || v.reason.Blank? || v.phase.Failed? || v.phase.Skipped? then v
    else v.(reason := Blank)
  }

  function AdvancePending(cfg: Config, v: VolumeStatus, o: Observation): Step {
    if v.firstAttemptAt.Some? && o.entry - v.firstAttemptAt.value > cfg.PendingBound() then
      Step(FailedWith(v, if v.reason.Blank? then Overdue(PendingClock, "") else v.reason), false, None, [])
    else
      var w := if v.firstAttemptAt.None? then v.(firstAttemptAt := Some(o.entry)) else v;
      match o.pvc
      case NotFound => Step(FailedWith(w, SourceMissing), false, None, [])
      case Unreadable(c) => Step(Parked(w, c), false, None, [])
      case Found =>
        match o.resolution
        case Unsupported => Step(w.(phase := Skipped, reason := StorageUnsupported), false, None, [])
        case Unresolved(c) => Step(Parked(w, c), false, None, [])
        case Resolved =>
          match o.precheck
          case Inconclusive(c) => Step(Parked(w, c), false, None, [])
          case Refused => Step(FailedWith(w, PrecheckRefused), false, None, [])
          case Passed =>
            match o.exposed
            case Broke(c) => Step(Parked(w, c), false, None, MadeAll(o.made))
            case Done => Step(w.(phase := Snapshotting), false, None, MadeAll(o.made))
  }

  datatype SnapshotVerdict = Wait | Untouched | Unready

  function SnapshotDeadline(p: Progress, now: int): SnapshotVerdict {
    if p.Unknown? || p.startedAt.None? then Wait
    else if !p.acknowledged && now - p.startedAt.value > SNAPSHOT_PROGRESS_DEADLINE then Untouched
    else if p.acknowledged && now - p.startedAt.value > SNAPSHOT_READY_DEADLINE then Unready
    else Wait
  }

  datatype Gate = Open | Blocked | GateBroke(cause: string)

  function MoverSlot(o: Observation): Gate {
    match o.slot
    case Found => Open
    case Unreadable(c) => GateBroke(c)
    case NotFound =>
      if o.quiesceBefore then Blocked
      else if o.limit <= 0 then Open
      else match o.census
        case Uncounted(c) => GateBroke(c)
        case Counted(n) => if MoverCensus.CanStartMover(n, o.limit) then Open else Blocked
  }

  function AdvanceSnapshotting(cfg: Config, v: VolumeStatus, o: Observation): Step {
    var made := if o.ReachedExpose() then MadeAll(o.made) else [];
    match o.Reconstructed()
    case Broke(c) => BackstopOr(cfg, v, o.outer, c, made, Some(c))
    case Done =>
      match o.ready
      case Ready => StartMover(cfg, v, o, made)
      case NotReady => AwaitSnapshot(cfg, v, o, made)
      case ReadyUnknown(c) => AwaitSnapshot(cfg, Retrying(v, c), o, made)
  }

  const NEVER_READY := "the exposure never became ready and its origin snapshot could not be judged"

  function AwaitSnapshot(cfg: Config, v: VolumeStatus, o: Observation, made: seq<Effect>): Step {
    match SnapshotDeadline(o.progress, o.judged)
    case Untouched => Step(FailedWith(v, Overdue(SnapshotUntouched, "")), true, None, made)
    case Unready => Step(FailedWith(v, Overdue(SnapshotUnready, o.detail)), true, None, made)
    case Wait => BackstopOr(cfg, v, o.outer, NEVER_READY, made, None)
  }

  function StartMover(cfg: Config, v: VolumeStatus, o: Observation, made: seq<Effect>): Step {
    match MoverSlot(o)
    case GateBroke(c) => BackstopOr(cfg, v, o.outer, c, made, Some(c))
    case Blocked => Step(v, false, None, made)
    case Open =>
      match o.creds
      case Broke(c) => BackstopOr(cfg, v, o.outer, c, made, Some(c))
      case Done =>
        match o.creation
        case NotCreated(c) => BackstopOr(cfg, v, o.outer, c, made, Some(c))
        case AlreadyExists => Step(v.(phase := Uploading), false, None, made)
        case Created =>
          if o.quiesceAfter then Step(v, false, None, made + [CreatedJob, DroppedJob])
          else Step(v.(phase := Uploading), false, None, made + [CreatedJob])
  }

  predicate PodEverStarted(p: Pod) {
    p.phase.PodRunning? || p.phase.PodSucceeded? || p.phase.PodFailed?
    || exists c <- p.containers :: c.running || c.terminated || c.terminatedBefore
  }

  predicate AnyPodStarted(pods: seq<Pod>) { exists p <- pods :: PodEverStarted(p) }

  predicate MoverStalled(cfg: Config, job: Job, pods: PodsRead, now: int) {
    && job.createdAt.Some?
    && now - job.createdAt.value > cfg.MoverStartBound()
    && pods.Listed?
    && !AnyPodStarted(pods.pods)
  }

  predicate JobComplete(job: Job) { job.succeeded >= 1 || job.complete }

  predicate JobEnded(job: Job, backoffLimit: int) {
    JobComplete(job) || job.failed || job.failedPods > backoffLimit
  }

  function MoverFailureReason(m: MoverRead): Reason {
    match m
    case Killed(reason) => MoverSaid(reason)
    case Unreported(_) => MoverCrashed
    case Reported(_, _, _, _, error) => if error != "" then MoverSaid(error) else MoverJobFailed
  }

  const JOB_MISSING := "the mover Job does not exist"

  function AdvanceUploading(cfg: Config, v: VolumeStatus, o: Observation): Step {
    match o.job
    case JobMissing => BackstopOr(cfg, v, o.outer, JOB_MISSING, [], None)
    case JobUnreadable(c) => BackstopOr(cfg, v, o.outer, c, [], Some(c))
    case JobFound(job) =>
      if !JobEnded(job, o.backoffLimit) then
        if MoverStalled(cfg, job, o.pods, o.judged)
        then Step(FailedWith(v, Overdue(MoverNotStarted, o.detail)), true, None, [])
        else Step(v, false, None, [])
      else
        var w := v.(node := o.node);
        if JobComplete(job) && o.mover.Reported? && o.mover.ok then
          Step(w.(snapshotID := o.mover.snapshotID, sizeBytes := o.mover.sizeBytes,
                  addedBytes := o.mover.addedBytes, phase := Completed), true, None, [])
        else
          Step(FailedWith(w, MoverFailureReason(o.mover)), true, None,
               if o.mover.Reported? then [] else [QueuedUnlock])
  }

  function AdvancePhase(cfg: Config, v: VolumeStatus, o: Observation): Step {
    match v.phase
    case Unset => AdvancePending(cfg, v, o)
    case Pending => AdvancePending(cfg, v, o)
    case Snapshotting => AdvanceSnapshotting(cfg, v, o)
    case Uploading => AdvanceUploading(cfg, v, o)
    case _ => Step(v, false, None, [])
  }

  /** The step with its status hygiene: the phase clock, then the stale obstacle. */
  function AdvanceVolume(cfg: Config, v: VolumeStatus, o: Observation): Step {
    var s := AdvancePhase(cfg, v, o);
    var w := Stamp(s.vol, v.phase, o.stamped);
    s.(vol := if s.error.None? then ClearStale(w, v.phase) else w)
  }

  /** What the pass leaves on the volume: an error becomes a recorded reason. */
  function Drive(cfg: Config, v: VolumeStatus, o: Observation): Step {
    var s := AdvanceVolume(cfg, v, o);
    match s.error
    case None => s
    case Some(c) => Step(Retrying(s.vol, c), false, s.error, s.effects)
  }
}
