/** What the per-PVC state machine guarantees: over one step, and over any run of steps whatever
    the cluster and the clock answer. */
module VolumeLaws {
  import opened Prelude
  import opened VolumeModel
  import opened VolumeStep

  function Rank(p: VolumePhase): nat {
    match p
    case Unset => 0
    case Pending => 0
    case Snapshotting => 1
    case Uploading => 2
    case _ => 3
  }

  /** w is a possible later record of the volume v: phases only move forward, a terminal record
      never changes at all, and each clock is set once (the phase clock once per phase). */
  predicate Evolves(v: VolumeStatus, w: VolumeStatus) {
    && w.pvc == v.pvc
    && (v.phase.IsTerminal() ==> w == v)
    && Rank(v.phase) <= Rank(w.phase)
    && (w.phase.IsWaiting() ==> w.phase == v.phase)
    && (w.phase.Skipped? && v != w ==> v.phase.IsWaiting())
    && (v.firstAttemptAt.Some? ==> w.firstAttemptAt == v.firstAttemptAt)
    && (v.phaseEnteredAt.Some? && v.phase == w.phase ==> w.phaseEnteredAt == v.phaseEnteredAt)
  }

  lemma EvolvesTransitive(u: VolumeStatus, v: VolumeStatus, w: VolumeStatus)
    requires Evolves(u, v) && Evolves(v, w)
    ensures Evolves(u, w)
  {
  }

  /** The reason field as a second state: parked or empty while Pending, the retry note or empty
      while in flight, empty when Completed, a verdict when Failed or Skipped. */
  predicate ReasonFits(v: VolumeStatus) {
    match v.phase
    case Unset => v.reason.Blank? || v.reason.Unresolvable?
    case Pending => v.reason.Blank? || v.reason.Unresolvable?
    case Snapshotting => v.reason.Blank? || v.reason.RetryingAfter?
    case Uploading => v.reason.Blank? || v.reason.RetryingAfter?
    case Completed => v.reason.Blank?
    case _ => !v.reason.Blank?
  }

  /** One forward edge at most. */
  predicate OneEdge(p: VolumePhase, q: VolumePhase) {
    || q == p
    || (p.IsWaiting() && (q.Snapshotting? || q.Skipped? || q.Failed?))
    || (p.Snapshotting? && (q.Uploading? || q.Failed?))
    || (p.Uploading? && (q.Completed? || q.Failed?))
  }

  predicate LifecycleStep(v: VolumeStatus, w: VolumeStatus) {
    Evolves(v, w) && OneEdge(v.phase, w.phase) && (ReasonFits(v) ==> ReasonFits(w))
  }

  lemma WaitingStep(cfg: Config, v: VolumeStatus, o: Observation)
    requires v.phase.IsWaiting()
    ensures LifecycleStep(v, Drive(cfg, v, o).vol)
  {
    var s := AdvancePending(cfg, v, o);
    assert s.error.None? && s.vol.pvc == v.pvc && s.vol.phaseEnteredAt == v.phaseEnteredAt;
  }

  /** The shapes a Snapshotting step can leave. */
  lemma SnapshottingShape(cfg: Config, v: VolumeStatus, o: Observation)
    requires v.phase.Snapshotting?
    ensures var s := AdvanceSnapshotting(cfg, v, o);
      && s.vol == v.(phase := s.vol.phase, reason := s.vol.reason)
      && (s.vol.phase.Snapshotting? || s.vol.phase.Uploading? || (s.vol.phase.Failed? && s.vol.reason.Overdue?))
      && (s.error.Some? ==> s.vol == v)
      && (!s.vol.phase.Failed? ==> s.vol.reason == v.reason || s.vol.reason.RetryingAfter?)
      && (s.teardown <==> s.vol.phase.Failed?)
  {
    match o.Reconstructed() {
      case Broke(c) =>
      case Done =>
        if o.ready.Ready? { StartMoverShape(cfg, v, o); }
    }
  }

  lemma StartMoverShape(cfg: Config, v: VolumeStatus, o: Observation)
    requires v.phase.Snapshotting?
    ensures forall made :: var s := StartMover(cfg, v, o, made);
      && (s.vol == v || s.vol == v.(phase := Uploading)
          || (s.vol.phase.Failed? && s.vol.reason.Overdue? && s.vol == v.(phase := Failed, reason := s.vol.reason)))
      && (s.error.Some? ==> s.vol == v)
      && (s.teardown <==> s.vol.phase.Failed?)
  {
  }

  lemma SnapshottingStep(cfg: Config, v: VolumeStatus, o: Observation)
    requires v.phase.Snapshotting?
    ensures LifecycleStep(v, Drive(cfg, v, o).vol)
  {
    SnapshottingShape(cfg, v, o);
  }

  lemma UploadingStep(cfg: Config, v: VolumeStatus, o: Observation)
    requires v.phase.Uploading?
    ensures LifecycleStep(v, Drive(cfg, v, o).vol)
  {
    var s := AdvanceUploading(cfg, v, o);
    assert s.vol.phaseEnteredAt == v.phaseEnteredAt && s.vol.firstAttemptAt == v.firstAttemptAt && s.vol.pvc == v.pvc;
    assert s.vol.phase.Uploading? ==> s.vol == v;
    assert s.error.Some? ==> s.vol == v;
    assert s.vol.phase.Failed? ==> !s.vol.reason.Blank?;
  }

  /** One step, whatever is answered: at most one forward edge, and the reason still fits. */
  lemma StepKeepsLifecycle(cfg: Config, v: VolumeStatus, o: Observation)
    ensures LifecycleStep(v, Drive(cfg, v, o).vol)
  {
    match v.phase {
      case Unset => WaitingStep(cfg, v, o);
      case Pending => WaitingStep(cfg, v, o);
      case Snapshotting => SnapshottingStep(cfg, v, o);
      case Uploading => UploadingStep(cfg, v, o);
      case _ =>
    }
  }

  /** The record after a run of steps. */
  function After(cfg: Config, v: VolumeStatus, os: seq<Observation>): VolumeStatus {
    if os == [] then v
    else Drive(cfg, After(cfg, v, os[..|os| - 1]), os[|os| - 1]).vol
  }

  lemma AfterStep(cfg: Config, v: VolumeStatus, os: seq<Observation>, i: nat)
    requires i < |os|
    ensures After(cfg, v, os[..i + 1]) == Drive(cfg, After(cfg, v, os[..i]), os[i]).vol
  {
    assert os[..i + 1][..i] == os[..i];
  }

  lemma {:induction false} RunKeepsLifecycle(cfg: Config, v: VolumeStatus, os: seq<Observation>)
    ensures Evolves(v, After(cfg, v, os))
    ensures ReasonFits(v) ==> ReasonFits(After(cfg, v, os))
  {
    if os != [] {
      var front := os[..|os| - 1];
      RunKeepsLifecycle(cfg, v, front);
      StepKeepsLifecycle(cfg, After(cfg, v, front), os[|os| - 1]);
      EvolvesTransitive(v, After(cfg, v, front), After(cfg, v, os));
    }
  }

  // ---- A started upload is never ended by a clock ----

  /** The only three ways a step ends an upload badly. */
  predicate UploadEndsBadly(cfg: Config, v: VolumeStatus, o: Observation) {
    match o.job
    case JobFound(job) =>
      if JobEnded(job, o.backoffLimit) then !(JobComplete(job) && o.mover.Reported? && o.mover.ok)
      else job.createdAt.Some? && o.judged - job.createdAt.value > cfg.MoverStartBound()
           && o.pods.Listed? && forall p <- o.pods.pods :: !PodEverStarted(p)
    case _ => BackstopDue(cfg, v, o.outer)
  }

  lemma UploadFailsExactly(cfg: Config, v: VolumeStatus, o: Observation)
    requires v.phase.Uploading?
    ensures Drive(cfg, v, o).vol.phase.Failed? <==> UploadEndsBadly(cfg, v, o)
    ensures Drive(cfg, v, o).vol.phase.Completed? <==>
              o.job.JobFound? && JobComplete(o.job.job) && o.mover.Reported? && o.mover.ok
  {
  }

  lemma {:induction false} FirstTerminal(cfg: Config, v: VolumeStatus, os: seq<Observation>) returns (i: nat)
    requires v.phase.Uploading? && After(cfg, v, os).phase.Failed?
    ensures i < |os|
    ensures After(cfg, v, os[..i]).phase.Uploading? && UploadEndsBadly(cfg, After(cfg, v, os[..i]), os[i])
  {
    var front := os[..|os| - 1];
    if After(cfg, v, front).phase.Failed? {
      i := FirstTerminal(cfg, v, front);
      assert os[..i] == front[..i];
    } else {
      i := |os| - 1;
      RunKeepsLifecycle(cfg, v, front);
      UploadFailsExactly(cfg, After(cfg, v, front), os[i]);
    }
  }

  /** The mover was seen, unfinished, and a pod of it had started. */
  predicate SeenRunning(o: Observation) {
    o.job.JobFound? && !JobEnded(o.job.job, o.backoffLimit) && o.pods.Listed? && AnyPodStarted(o.pods.pods)
  }

  lemma RunningStep(cfg: Config, v: VolumeStatus, o: Observation)
    requires v.phase.Uploading? && SeenRunning(o)
    ensures Drive(cfg, v, o).vol == Stamp(v, Uploading, o.stamped)
  {
    assert AdvanceUploading(cfg, v, o) == Step(v, false, None, []);
  }

  /** However long it runs and whatever the clocks say, an upload that is seen running on every
      pass is still uploading, with its record untouched but for the clock of an upgraded volume. */
  lemma {:induction false} RunningUploadSurvives(cfg: Config, v: VolumeStatus, os: seq<Observation>)
    requires v.phase.Uploading?
    requires forall o <- os :: SeenRunning(o)
    ensures var w := After(cfg, v, os);
            w.phase.Uploading? && w == v.(phaseEnteredAt := w.phaseEnteredAt)
  {
    if os != [] {
      var front := os[..|os| - 1];
      assert forall o <- front :: o in os;
      RunningUploadSurvives(cfg, v, front);
      RunningStep(cfg, After(cfg, v, front), os[|os| - 1]);
    }
  }

  // ---- The ladder of deadlines ----

  /** What one step does to the phase clock. */
  predicate ClockStep(v: VolumeStatus, w: VolumeStatus, stamped: int) {
    && LifecycleStep(v, w)
    && (w.phase.InFlight() && (w.phase != v.phase || v.phaseEnteredAt.None?) ==> w.phaseEnteredAt == Some(stamped))
  }

  lemma StepKeepsClock(cfg: Config, v: VolumeStatus, o: Observation)
    ensures ClockStep(v, Drive(cfg, v, o).vol, o.stamped)
  {
    StepKeepsLifecycle(cfg, v, o);
  }

  predicate ClockTrace(vs: seq<VolumeStatus>, stamps: seq<int>) {
    |vs| == |stamps| + 1 && forall i :: 0 <= i < |stamps| ==> ClockStep(vs[i], vs[i + 1], stamps[i])
  }

  lemma {:induction false} ClockOfTrace(vs: seq<VolumeStatus>, stamps: seq<int>) returns (j: nat)
    requires ClockTrace(vs, stamps)
    requires var w := vs[|stamps|]; w.phase.InFlight() && (vs[0].phaseEnteredAt.None? || w.phase != vs[0].phase)
    requires |stamps| > 0
    ensures var w := vs[|stamps|];
      && j < |stamps| && w.phaseEnteredAt == Some(stamps[j])
      && (forall i :: j < i <= |stamps| ==> vs[i].phase == w.phase)
      && (vs[j].phase != w.phase || vs[j].phaseEnteredAt.None?)
  {
    var n := |stamps| - 1;
    assert ClockStep(vs[n], vs[n + 1], stamps[n]);
    if n > 0 && vs[n].phase == vs[n + 1].phase && vs[n].phaseEnteredAt.Some? {
      j := ClockOfTrace(vs[..n + 1], stamps[..n]);
    } else {
      j := n;
    }
  }

  /** The phase clock of an in-flight volume is the stamp of the step that brought it into its
      phase, or of the first step that touched it when it carried no clock before; and it has not
      moved since. */
  lemma PhaseClockIsEntry(cfg: Config, v: VolumeStatus, os: seq<Observation>) returns (j: nat)
    requires |os| > 0 && After(cfg, v, os).phase.InFlight()
    requires v.phaseEnteredAt.None? || After(cfg, v, os).phase != v.phase
    ensures j < |os|
    ensures After(cfg, v, os).phaseEnteredAt == Some(os[j].stamped)
    ensures forall i :: j < i <= |os| ==> After(cfg, v, os[..i]).phase == After(cfg, v, os).phase
    ensures After(cfg, v, os[..j]).phase != After(cfg, v, os).phase || After(cfg, v, os[..j]).phaseEnteredAt.None?
  {
    var vs := seq(|os| + 1, i requires 0 <= i <= |os| => After(cfg, v, os[..i]));
    var stamps := seq(|os|, i requires 0 <= i < |os| => os[i].stamped);
    forall i | 0 <= i < |os| ensures ClockStep(vs[i], vs[i + 1], stamps[i]) {
      AfterStep(cfg, v, os, i);
      StepKeepsClock(cfg, After(cfg, v, os[..i]), os[i]);
    }
    assert os[..|os|] == os && os[..0] == [];
    j := ClockOfTrace(vs, stamps);
    forall i | j < i <= |os| ensures After(cfg, v, os[..i]).phase == After(cfg, v, os).phase {
      assert vs[i].phase == vs[|os|].phase;
    }
  }

  /** The backstop can fire only on a clock that exists and is more than its bound in the past, and
      never on a readable mover Job, on a blocked gate or on a mover just started. */
  lemma BackstopNeedsItsPredicate(cfg: Config, v: VolumeStatus, o: Observation)
    requires v.phase.InFlight() && Drive(cfg, v, o).vol.phase.Failed?
    ensures v.phase.Snapshotting? ==>
              (o.Reconstructed().Done? && o.ready.Ready? ==>
                 BackstopDue(cfg, v, o.outer) && (MoverSlot(o).GateBroke? || o.creds.Broke? || o.creation.NotCreated?))
    ensures (v.phase.Snapshotting? && o.Reconstructed().Done? && !o.ready.Ready?
             && SnapshotDeadline(o.progress, o.judged).Wait?) ==> BackstopDue(cfg, v, o.outer)
    ensures v.phase.Snapshotting? && o.Reconstructed().Broke? ==> BackstopDue(cfg, v, o.outer)
    ensures v.phase.Uploading? && !o.job.JobFound? ==> BackstopDue(cfg, v, o.outer)
    ensures (BackstopDue(cfg, v, o.outer) && cfg.advanceRetry <= 0) ==> o.outer > v.phaseEnteredAt.value + ADVANCE_RETRY_DEADLINE
  {
  }

  /** A step took a volume in flight to the outer bound's verdict. */
  predicate EndedByBackstop(v: VolumeStatus, w: VolumeStatus) {
    v.phase.InFlight() && w.phase.Failed? && w.reason.Overdue? && w.reason.deadline.AdvanceClock?
  }

  /** The outer bound's verdict on a volume in flight needs its phase clock past the bound. */
  lemma BackstopVerdictNeedsTheClock(cfg: Config, v: VolumeStatus, o: Observation)
    requires EndedByBackstop(v, Drive(cfg, v, o).vol)
    ensures BackstopDue(cfg, v, o.outer)
  {
  }

  /** The ladder over whole runs: with the built-in bounds, in any run from a record without a phase clock
      (a fresh one, or one from before the clock existed), a step at which the outer bound ends a volume in
      flight comes more than four hours after the step that brought it into its phase, or first touched it
      there; and the volume stood in that phase all the while. */
  lemma BackstopComesFourHoursAfterEntry(cfg: Config, v: VolumeStatus, os: seq<Observation>, i: nat) returns (j: nat)
    requires cfg.advanceRetry <= 0 && v.phaseEnteredAt.None? && i < |os|
    ensures EndedByBackstop(After(cfg, v, os[..i]), After(cfg, v, os[..i + 1])) ==>
      && j < i && os[i].outer - os[j].stamped > ADVANCE_RETRY_DEADLINE
      && (forall k :: j < k <= i ==> After(cfg, v, os[..k]).phase == After(cfg, v, os[..i]).phase)
      && (After(cfg, v, os[..j]).phase != After(cfg, v, os[..i]).phase || After(cfg, v, os[..j]).phaseEnteredAt.None?)
  {
    if !EndedByBackstop(After(cfg, v, os[..i]), After(cfg, v, os[..i + 1])) { return 0; }
    var front := os[..i];
    AfterStep(cfg, v, os, i);
    BackstopVerdictNeedsTheClock(cfg, After(cfg, v, front), os[i]);
    assert os[..0] == [];
    j := PhaseClockIsEntry(cfg, v, front);
    forall k | j < k <= i ensures After(cfg, v, os[..k]).phase == After(cfg, v, front).phase {
      assert front[..k] == os[..k];
    }
    assert front[..j] == os[..j];
  }

  function SnapshotLimit(acknowledged: bool): int {
    if acknowledged then SNAPSHOT_READY_DEADLINE else SNAPSHOT_PROGRESS_DEADLINE
  }

  /** A pass in which the exposure is not ready and the origin snapshot can be read. */
  predicate Judgeable(v: VolumeStatus, o: Observation) {
    && v.phase.Snapshotting? && o.Reconstructed().Done? && !o.ready.Ready?
    && o.progress.Seen? && o.progress.startedAt.Some?
  }

  function SnapshotReason(o: Observation): Reason
    requires o.progress.Seen?
  {
    if o.progress.acknowledged then Overdue(SnapshotUnready, o.detail) else Overdue(SnapshotUntouched, "")
  }

  /** When the outer bound is due, the better diagnosis wins exactly if the snapshot had passed its
      own limit at the instant it was judged. */
  lemma SnapshotVerdictWinsExactly(cfg: Config, v: VolumeStatus, o: Observation)
    requires Judgeable(v, o) && BackstopDue(cfg, v, o.outer)
    ensures var w := Drive(cfg, v, o).vol;
            w.phase.Failed?
            && (w.reason == SnapshotReason(o) <==>
                o.judged - o.progress.startedAt.value > SnapshotLimit(o.progress.acknowledged))
  {
  }

  /** With the built-in bounds, a snapshot created at most two hours after the phase was entered is
      always judged on its own merits — up to the time the pass itself takes between its two
      readings of the clock. */
  lemma SnapshotVerdictBeatsBackstop(cfg: Config, v: VolumeStatus, o: Observation)
    requires Judgeable(v, o) && BackstopDue(cfg, v, o.outer) && cfg.advanceRetry <= 0
    requires o.progress.startedAt.value + (o.outer - o.judged) <= v.phaseEnteredAt.value + 2 * 60 * 60
    ensures Drive(cfg, v, o).vol.reason == SnapshotReason(o)
  {
    SnapshotVerdictWinsExactly(cfg, v, o);
  }

  /** Without that allowance the margin is gone: a snapshot created exactly two hours in, judged one
      second before the outer bound is read, loses to the weaker diagnosis. */
  lemma LadderRacesAtItsMargin() returns (cfg: Config, v: VolumeStatus, o: Observation)
    ensures o.ClockMonotone() && Judgeable(v, o) && cfg.advanceRetry == 0
    ensures v.phaseEnteredAt.Some? && o.progress.startedAt == Some(v.phaseEnteredAt.value + 2 * 60 * 60)
    ensures Drive(cfg, v, o).vol.phase.Failed? && Drive(cfg, v, o).vol.reason != SnapshotReason(o)
  {
    cfg := Config(0, 0, 0);
    v := Enumerated("data").(phase := Snapshotting, phaseEnteredAt := Some(0));
    o := Observation(14400, 14400, 14401, 14401, Found, Resolved, Passed, Done, [], NotReady,
                     Seen(Some(7200), true), NotFound, false, 0, Counted(0), Done, Created, false,
                     JobMissing, Unlisted, 0, Unreported(true), "", "");
    SnapshotVerdictWinsExactly(cfg, v, o);
  }

  // ---- What a step asks of the rest of the pass ----

  /** Teardown is requested exactly when work in flight has just ended. */
  lemma TeardownExactlyAtTheEnd(cfg: Config, v: VolumeStatus, o: Observation)
    ensures Drive(cfg, v, o).teardown <==> v.phase.InFlight() && Drive(cfg, v, o).vol.phase.IsTerminal()
  {
  }

  /** A volume enters Uploading holding a Job that either existed already, or was created through an
      open gate and re-checked afterwards. */
  lemma EntryToUploading(cfg: Config, v: VolumeStatus, o: Observation)
    requires !v.phase.Uploading? && Drive(cfg, v, o).vol.phase.Uploading?
    ensures v.phase.Snapshotting? && o.Reconstructed().Done? && o.ready.Ready? && o.creds.Done?
    ensures o.slot.Found? || (o.slot.NotFound? && !o.quiesceBefore)
    ensures o.creation.AlreadyExists? || (o.creation.Created? && !o.quiesceAfter)
  {
  }

  lemma OnlyObjects(made: seq<ExposureObject>)
    ensures forall e <- MadeAll(made) :: e.Made?
  {
  }

  /** A Job created over a pending lock removal is dropped, and the volume keeps its place. */
  lemma CreationIsRechecked(cfg: Config, v: VolumeStatus, o: Observation)
    requires v.phase.Snapshotting? && CreatedJob in AdvanceSnapshotting(cfg, v, o).effects
    ensures o.ready.Ready? && MoverSlot(o).Open? && o.creation.Created?
    ensures o.quiesceAfter <==> DroppedJob in AdvanceSnapshotting(cfg, v, o).effects
    ensures o.quiesceAfter <==> !AdvanceSnapshotting(cfg, v, o).vol.phase.Uploading?
  {
    OnlyObjects(o.made);
    var made := MadeAll(o.made);
    if o.quiesceAfter {
      assert (made + [CreatedJob, DroppedJob])[|made| + 1] == DroppedJob;
    }
  }

  /** The lock removal is queued exactly for a finished mover whose report could not be read. */
  lemma UnlockExactlyAfterUnreadableReport(cfg: Config, v: VolumeStatus, o: Observation)
    ensures QueuedUnlock in AdvancePhase(cfg, v, o).effects <==>
              v.phase.Uploading? && o.job.JobFound? && JobEnded(o.job.job, o.backoffLimit) && !o.mover.Reported?
  {
    OnlyObjects(o.made);
    if v.phase.Snapshotting? {
      var es := AdvanceSnapshotting(cfg, v, o).effects;
      var made := MadeAll(o.made);
      assert es == [] || es == made || es == made + [CreatedJob, DroppedJob] || es == made + [CreatedJob];
    }
  }

  /** So a failed listing of its pods counts as a hard kill: whatever a complete mover did, its volume is
      failed as crashed and its repository's lane is taken for a lock removal. */
  lemma UnlistedPodsCountAsAHardKill(cfg: Config, v: VolumeStatus, o: Observation)
    requires v.phase.Uploading? && o.job.JobFound? && JobComplete(o.job.job) && o.mover == Unreported(false)
    ensures var s := Drive(cfg, v, o);
      s.vol.phase.Failed? && s.vol.reason == MoverCrashed && s.teardown && QueuedUnlock in s.effects
  {
    assert AdvanceUploading(cfg, v, o).effects == [QueuedUnlock];
  }

  /** The volume's own clock has run out. */
  predicate AttemptExpired(cfg: Config, v: VolumeStatus, o: Observation) {
    v.firstAttemptAt.Some? && o.entry - v.firstAttemptAt.value > cfg.PendingBound()
  }

  /** A waiting volume fails only on its clock, on a missing source or on a refused pre-check; every
      other obstacle parks it, with the first attempt stamped, so that the clock is running. */
  lemma WaitingVolumeIsParkedOrJudged(cfg: Config, v: VolumeStatus, o: Observation)
    requires v.phase.IsWaiting()
    ensures var w := Drive(cfg, v, o).vol;
      && (w.phase.Failed? <==>
            (AttemptExpired(cfg, v, o) || o.pvc.NotFound? || (o.ReachedExpose() && o.precheck.Refused?)))
      && (w.phase.Skipped? <==> !AttemptExpired(cfg, v, o) && o.pvc.Found? && o.resolution.Unsupported?)
      && (w.phase.IsWaiting() ==> IsParked(w) && w.firstAttemptAt.Some? && w.phaseEnteredAt == v.phaseEnteredAt)
  {
  }
}
