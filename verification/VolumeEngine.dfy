/** The per-PVC state machine as the controller runs it: one mutable record per volume, updated in
    place by small writers, with early returns. Each method is proved to leave exactly the record
    that VolumeStep computes. */
module VolumeEngine {
  import opened Prelude
  import opened VolumeModel
  import opened VolumeStep

  class Volume {
    const pvc: string
    var phase: VolumePhase
    var reason: Reason
    var firstAttemptAt: Option<int>
    var phaseEnteredAt: Option<int>
    var snapshotID: string
    var sizeBytes: int
    var addedBytes: int
    var node: string

    constructor (pvc: string)
      ensures View() == Enumerated(pvc)
    {
      this.pvc := pvc;
      phase, reason := Pending, Blank;
      firstAttemptAt, phaseEnteredAt := None, None;
      snapshotID, sizeBytes, addedBytes, node := "", 0, 0, "";
    }

    function View(): VolumeStatus
      reads this
    {
      VolumeStatus(pvc, phase, reason, firstAttemptAt, phaseEnteredAt, snapshotID, sizeBytes, addedBytes, node)
    }

    method Park(cause: string)
      modifies this`reason
      ensures View() == Parked(old(View()), cause)
    {
      reason := Unresolvable(cause);
    }

    method RecordAdvanceFailure(cause: string)
      modifies this`reason
      ensures View() == Retrying(old(View()), cause)
    {
      if phase.IsWaiting() {
        Park(cause);
        return;
      }
      reason := RetryingAfter(cause);
    }

    method StampPhaseEntry(entryPhase: VolumePhase, now: int)
      modifies this`phaseEnteredAt
      ensures View() == Stamp(old(View()), entryPhase, now)
    {
      if phase == entryPhase {
        if phaseEnteredAt.Some? || !phase.InFlight() {
          return;
        }
      }
      phaseEnteredAt := Some(now);
    }

    method ClearStaleReason(entryPhase: VolumePhase)
      modifies this`reason
      ensures View() == ClearStale(old(View()), entryPhase)
    {
      if phase == entryPhase || reason.Blank? {
        return;
      }
      match phase {
        case Failed => return;
        case Skipped => return;
        case _ =>
      }
      reason := Blank;
    }

    method FailOnBackstop(cfg: Config, now: int, cause: string) returns (bounded: bool)
      modifies this`phase, this`reason
      ensures bounded <==> BackstopDue(cfg, old(View()), now)
      ensures View() == if bounded then FailedWith(old(View()), Overdue(AdvanceClock, cause))
                        else old(View())
    {
      if phaseEnteredAt.None? {
        return false;
      }
      if now - phaseEnteredAt.value <= cfg.AdvanceBound() {
        return false;
      }
      phase := Failed;
      reason := Overdue(AdvanceClock, cause);
      return true;
    }

    method StepPending(cfg: Config, o: Observation) returns (effects: seq<Effect>)
      modifies this
      ensures AdvancePending(cfg, old(View()), o) == Step(View(), false, None, effects)
    {
      effects := [];
      if firstAttemptAt.None? {
        firstAttemptAt := Some(o.entry);
      } else if o.entry - firstAttemptAt.value > cfg.PendingBound() {
        phase := Failed;
        if reason.Blank? {
          reason := Overdue(PendingClock, "");
        }
        return;
      }
      if o.pvc.NotFound? {
        phase, reason := Failed, SourceMissing;
        return;
      } else if o.pvc.Unreadable? {
        Park(o.pvc.cause);
        return;
      }
      if o.resolution.Unsupported? {
        phase, reason := Skipped, StorageUnsupported;
        return;
      } else if o.resolution.Unresolved? {
        Park(o.resolution.cause);
        return;
      }
      if o.precheck.Inconclusive? {
        Park(o.precheck.cause);
        return;
      } else if o.precheck.Refused? {
        phase, reason := Failed, PrecheckRefused;
        return;
      }
      effects := MadeAll(o.made);
      if o.exposed.Broke? {
        Park(o.exposed.cause);
        return;
      }
      phase := Snapshotting;
    }

    method StepSnapshotting(cfg: Config, o: Observation)
      returns (teardown: bool, error: Option<string>, effects: seq<Effect>)
      modifies this
      ensures AdvanceSnapshotting(cfg, old(View()), o) == Step(View(), teardown, error, effects)
    {
      teardown, error, effects := false, None, if o.ReachedExpose() then MadeAll(o.made) else [];
      var rebuilt := o.Reconstructed();
      if rebuilt.Broke? {
        teardown := FailOnBackstop(cfg, o.outer, rebuilt.cause);
        error := if teardown then None else Some(rebuilt.cause);
        return;
      }
      var ready := o.ready.Ready?;
      if o.ready.ReadyUnknown? {
        RecordAdvanceFailure(o.ready.cause);
        ready := false;
      }
      if !ready {
        match SnapshotDeadline(o.progress, o.judged) {
          case Untouched =>
            phase, reason, teardown := Failed, Overdue(SnapshotUntouched, ""), true;
            return;
          case Unready =>
            phase, reason, teardown := Failed, Overdue(SnapshotUnready, o.detail), true;
            return;
          case Wait =>
        }
        teardown := FailOnBackstop(cfg, o.outer, NEVER_READY);
        return;
      }
      var gate := MoverSlot(o);
      if gate.GateBroke? {
        teardown := FailOnBackstop(cfg, o.outer, gate.cause);
        error := if teardown then None else Some(gate.cause);
        return;
      } else if gate.Blocked? {
        return;
      }
      if o.creds.Broke? {
        teardown := FailOnBackstop(cfg, o.outer, o.creds.cause);
        error := if teardown then None else Some(o.creds.cause);
        return;
      }
      var created := false;
      if o.creation.NotCreated? {
        teardown := FailOnBackstop(cfg, o.outer, o.creation.cause);
        error := if teardown then None else Some(o.creation.cause);
        return;
      } else if o.creation.Created? {
        created := true;
        effects := effects + [CreatedJob];
      }
      if created && o.quiesceAfter {
        effects := effects + [DroppedJob];
        return;
      }
      phase := Uploading;
    }

    method StepUploading(cfg: Config, o: Observation)
      returns (teardown: bool, error: Option<string>, effects: seq<Effect>)
      modifies this
      ensures AdvanceUploading(cfg, old(View()), o) == Step(View(), teardown, error, effects)
    {
      teardown, error, effects := false, None, [];
      if o.job.JobMissing? {
        teardown := FailOnBackstop(cfg, o.outer, JOB_MISSING);
        return;
      } else if o.job.JobUnreadable? {
        teardown := FailOnBackstop(cfg, o.outer, o.job.cause);
        error := if teardown then None else Some(o.job.cause);
        return;
      }
      var job := o.job.job;
      var complete := JobComplete(job);
      var failed := job.failed || job.failedPods > o.backoffLimit;
      if !complete && !failed {
        var stalled := Stalled(cfg, job, o.pods, o.judged);
        if stalled {
          phase, reason, teardown := Failed, Overdue(MoverNotStarted, o.detail), true;
        }
        return;
      }
      node := o.node;
      if complete && o.mover.Reported? && o.mover.ok {
        snapshotID, sizeBytes, addedBytes := o.mover.snapshotID, o.mover.sizeBytes, o.mover.addedBytes;
        phase := Completed;
      } else {
        phase, reason := Failed, MoverFailureReason(o.mover);
        if !o.mover.Reported? {
          effects := [QueuedUnlock];
        }
      }
      teardown := true;
    }

    method Advance(cfg: Config, o: Observation)
      returns (teardown: bool, error: Option<string>, effects: seq<Effect>)
      modifies this
      ensures AdvanceVolume(cfg, old(View()), o) == Step(View(), teardown, error, effects)
    {
      var entryPhase := phase;
      teardown, error, effects := false, None, [];
      match phase {
        case Unset => effects := StepPending(cfg, o);
        case Pending => effects := StepPending(cfg, o);
        case Snapshotting => teardown, error, effects := StepSnapshotting(cfg, o);
        case Uploading => teardown, error, effects := StepUploading(cfg, o);
        case _ =>
      }
      StampPhaseEntry(entryPhase, o.stamped);
      if error.None? {
        ClearStaleReason(entryPhase);
      }
    }

    /** The pass's use of the step: an error is recorded, never propagated. */
    method DriveOnce(cfg: Config, o: Observation) returns (teardown: bool, effects: seq<Effect>)
      modifies this
      ensures var s := Drive(cfg, old(View()), o);
              View() == s.vol && teardown == s.teardown && effects == s.effects
    {
      var error: Option<string>;
      teardown, error, effects := Advance(cfg, o);
      if error.Some? {
        RecordAdvanceFailure(error.value);
        teardown := false;
      }
    }
  }

  method EverStarted(pods: seq<Pod>) returns (started: bool)
    ensures started <==> AnyPodStarted(pods)
  {
    for i := 0 to |pods|
      invariant forall k :: 0 <= k < i ==> !PodEverStarted(pods[k])
    {
      var pod := pods[i];
      if pod.phase.PodRunning? || pod.phase.PodSucceeded? || pod.phase.PodFailed? {
        assert pod in pods;
        return true;
      }
      for j := 0 to |pod.containers|
        invariant forall k :: 0 <= k < j ==>
          !(pod.containers[k].running || pod.containers[k].terminated || pod.containers[k].terminatedBefore)
      {
        var c := pod.containers[j];
        if c.running || c.terminated || c.terminatedBefore {
          assert c in pod.containers && pod in pods;
          return true;
        }
      }
    }
    return false;
  }

  method Stalled(cfg: Config, job: Job, pods: PodsRead, now: int) returns (stalled: bool)
    ensures stalled <==> MoverStalled(cfg, job, pods, now)
  {
    if job.createdAt.None? || now - job.createdAt.value <= cfg.MoverStartBound() {
      return false;
    }
    if pods.Unlisted? {
      return false;
    }
    var started := EverStarted(pods.pods);
    return !started;
  }
}
