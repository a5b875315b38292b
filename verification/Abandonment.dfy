/** How a schedule ends a Backup that blocks its next tick: the evidence it reads off the status, and
    the terminal record it writes over it. */
module Abandonment {
  import opened Prelude
  import opened VolumeModel
  import opened VolumeStep
  import opened VolumeEngine
  import opened BackupPass

  const ABANDONMENT_GRACE := 4 * 60 * 60

  // ---- The evidence ----

  /** Somebody is still working on the volume: it is in flight, queued, or inside its Pending budget. */
  predicate Busy(v: VolumeStatus, now: int) {
    match v.phase
    case Snapshotting => true
    case Uploading => true
    case Unset => v.firstAttemptAt.None? || now - v.firstAttemptAt.value <= PENDING_RESOLVE_DEADLINE
    case Pending => v.firstAttemptAt.None? || now - v.firstAttemptAt.value <= PENDING_RESOLVE_DEADLINE
    case _ => false
  }

  predicate SomeBusy(vols: seq<VolumeStatus>, now: int) { exists v <- vols :: Busy(v, now) }

  /** The newest of these instants; floor is the newer of the creation and the Ready condition's change. */
  function LastProgress(vols: seq<VolumeStatus>, floor: int): int {
    if vols == [] then floor
    else
      var latest := LastProgress(vols[..|vols| - 1], floor);
      var t := vols[|vols| - 1].firstAttemptAt;
      if t.Some? && t.value > latest then t.value else latest
  }

  /** Nothing is in flight, and nothing has been recorded for longer than the grace. */
  predicate Abandonable(vols: seq<VolumeStatus>, floor: int, now: int) {
    !SomeBusy(vols, now) && now - LastProgress(vols, floor) > ABANDONMENT_GRACE
  }

  method InFlight(b: BackupRecord, now: int) returns (busy: bool)
    ensures busy <==> SomeBusy(b.View().volumes, now)
    ensures busy <==> exists v <- b.View().volumes ::
      || v.phase.Snapshotting? || v.phase.Uploading?
      || ((v.phase.Pending? || v.phase.Unset?) && (v.firstAttemptAt.Some? ==> now - v.firstAttemptAt.value <= 3600))
  {
    ghost var vs := Views(b.volumes);
    for i := 0 to |b.volumes|
      invariant forall k :: 0 <= k < i ==> !Busy(vs[k], now)
    {
      if Busy(b.volumes[i].View(), now) {
        assert vs[i] in vs;
        return true;
      }
    }
    return false;
  }

  method LastProgressAt(b: BackupRecord, floor: int) returns (latest: int)
    ensures latest == LastProgress(b.View().volumes, floor)
  {
    ghost var vs := Views(b.volumes);
    latest := floor;
    for i := 0 to |b.volumes|
      invariant latest == LastProgress(vs[..i], floor)
    {
      assert vs[..i + 1][..i] == vs[..i] && vs[..i + 1][i] == vs[i];
      var t := b.volumes[i].firstAttemptAt;
      if t.Some? && t.value > latest { latest := t.value; }
    }
    assert vs[..|vs|] == vs;
  }

  method BackupAbandonment(b: BackupRecord, floor: int, now: int) returns (abandoned: bool)
    ensures abandoned <==> Abandonable(b.View().volumes, floor, now)
    ensures abandoned <==> !SomeBusy(b.View().volumes, now) && now - LastProgress(b.View().volumes, floor) > 14400
  {
    var busy := InFlight(b, now);
    if busy { return false; }
    var last := LastProgressAt(b, floor);
    return now - last > ABANDONMENT_GRACE;
  }

  /** It is the newest: no instant is later, and it is one of them. */
  lemma {:induction false} LastProgressIsNewest(vols: seq<VolumeStatus>, floor: int)
    ensures var last := LastProgress(vols, floor);
      && floor <= last && (forall v <- vols :: v.firstAttemptAt.Some? ==> v.firstAttemptAt.value <= last)
      && (last == floor || exists v <- vols :: v.firstAttemptAt == Some(last))
  {
    if vols != [] {
      var n := |vols| - 1;
      LastProgressIsNewest(vols[..n], floor);
      assert vols == vols[..n] + [vols[n]];
      assert forall v <- vols[..n] :: v in vols;
      assert vols[n] in vols;
    }
  }

  /** The Pending budget never decides: once the grace has run out, a run is abandoned exactly when every
      volume is terminal or waits and has been attempted. */
  lemma BudgetNeverDecides(vols: seq<VolumeStatus>, floor: int, now: int)
    requires now - LastProgress(vols, floor) > ABANDONMENT_GRACE
    ensures Abandonable(vols, floor, now) <==>
      forall v <- vols :: v.phase.IsTerminal() || (v.phase.IsWaiting() && v.firstAttemptAt.Some?)
  {
    LastProgressIsNewest(vols, floor);
    forall v | v in vols ensures !Busy(v, now) <==> v.phase.IsTerminal() || (v.phase.IsWaiting() && v.firstAttemptAt.Some?) {
      assert v.firstAttemptAt.Some? ==> v.firstAttemptAt.value <= LastProgress(vols, floor);
    }
  }

  /** The controller would have said the same: every volume such a verdict ends is one that its own next
      step fails, on the clock and whatever it is answered, as long as its Pending bound is no longer
      than the grace. */
  lemma ControllerAgrees(cfg: Config, vols: seq<VolumeStatus>, floor: int, now: int, v: VolumeStatus, o: Observation)
    requires Abandonable(vols, floor, now) && v in vols && !v.phase.IsTerminal()
    requires now <= o.entry && cfg.PendingBound() <= ABANDONMENT_GRACE
    ensures v.phase.IsWaiting() && Drive(cfg, v, o).vol.phase.Failed? && Drive(cfg, v, o).effects == []
  {
    LastProgressIsNewest(vols, floor);
    assert !Busy(v, now);
  }

  // ---- The kill ----

  /** A volume that was not terminal fails; what it was waiting for is kept behind the new reason. */
  function Ended(v: VolumeStatus): VolumeStatus {
    if v.phase.IsTerminal() then v else v.(phase := Failed, reason := Abandoned(Render(v.reason)))
  }

  function EndedAll(vols: seq<VolumeStatus>): seq<VolumeStatus> {
    seq(|vols|, i requires 0 <= i < |vols| => Ended(vols[i]))
  }

  function EndedPhase(vols: seq<VolumeStatus>): BackupPhase {
    if SomePhase(vols, Completed) then PartiallyFailedPhase else FailedPhase
  }

  function AbandonedAs(st: Status, stamped: int, completed: int): Status {
    var vols := EndedAll(st.volumes);
    Status(EndedPhase(vols), vols, StampOnce(st.backupTime, stamped), StampOnce(st.completionTime, completed))
  }

  method EndVolume(v: Volume)
    modifies v`phase, v`reason
    ensures v.View() == Ended(old(v.View()))
  {
    match v.phase {
      case Completed =>
      case Skipped =>
      case Failed =>
      case _ =>
        v.phase := Failed;
        v.reason := Abandoned(Render(v.reason));
    }
  }

  method AbandonedTerminalPhase(b: BackupRecord) returns (p: BackupPhase)
    ensures p == EndedPhase(Views(b.volumes))
  {
    ghost var vs := Views(b.volumes);
    for i := 0 to |b.volumes|
      invariant forall k :: 0 <= k < i ==> !vs[k].phase.Completed?
    {
      if b.volumes[i].phase.Completed? {
        assert vs[i] in vs;
        return PartiallyFailedPhase;
      }
    }
    return FailedPhase;
  }

  method EndVolumes(vs: seq<Volume>)
    requires NoAlias(vs)
    modifies vs
    ensures Views(vs) == EndedAll(old(Views(vs)))
  {
    ghost var was := Views(vs);
    for i := 0 to |vs|
      invariant forall k :: 0 <= k < i ==> vs[k].View() == Ended(was[k])
      invariant forall k :: i <= k < |vs| ==> vs[k].View() == was[k]
    {
      EndVolume(vs[i]);
    }
  }

  /** Everything the kill puts into the record before it writes it. */
  method TerminateAbandonedBackup(b: BackupRecord, stamped: int, completed: int)
    requires b.Valid()
    modifies b`phase, b`backupTime, b`completionTime, b.volumes
    ensures b.Valid() && b.View() == AbandonedAs(old(b.View()), stamped, completed)
  {
    EndVolumes(b.volumes);
    b.phase := AbandonedTerminalPhase(b);
    if b.backupTime.None? { b.backupTime := Some(stamped); }
    b.SetCompletionTime(completed);
  }

  lemma EndedReads(v: VolumeStatus)
    ensures if v.phase.IsTerminal() then Ended(v) == v
            else Ended(v).phase.Failed? && HasPrefix(Render(Ended(v).reason), ABANDONED)
  {
    if !v.phase.IsTerminal() { AbandonedToken(Render(v.reason)); }
  }

  lemma EndedKeepsCompleted(vols: seq<VolumeStatus>)
    ensures SomePhase(EndedAll(vols), Completed) <==> SomePhase(vols, Completed)
  {
    var ended := EndedAll(vols);
    if SomePhase(vols, Completed) {
      var i :| 0 <= i < |vols| && vols[i].phase == Completed;
      assert ended[i] in ended;
    }
    if SomePhase(ended, Completed) {
      var i :| 0 <= i < |ended| && ended[i].phase == Completed;
      assert vols[i] in vols;
    }
  }

  /** What survives the kill, and how it reads: a terminal volume is untouched, any other is Failed under a
      text that starts with the token, and the run is never a success; it is partly failed exactly when some
      volume had completed. */
  lemma KillKeepsResults(st: Status, stamped: int, completed: int)
    ensures var t := AbandonedAs(st, stamped, completed);
      && |t.volumes| == |st.volumes| && t.phase.IsTerminal() && !t.phase.Succeeded()
      && (t.phase.PartiallyFailedPhase? <==> SomePhase(st.volumes, Completed))
      && (forall i :: 0 <= i < |st.volumes| ==>
            if st.volumes[i].phase.IsTerminal() then t.volumes[i] == st.volumes[i]
            else t.volumes[i] == st.volumes[i].(phase := Failed, reason := Abandoned(Render(st.volumes[i].reason)))
                 && HasPrefix(Render(t.volumes[i].reason), ABANDONED))
      && t.backupTime == (if st.backupTime.Some? then st.backupTime else Some(stamped))
      && t.completionTime == (if st.completionTime.Some? then st.completionTime else Some(completed))
  {
    EndedKeepsCompleted(st.volumes);
    forall i | 0 <= i < |st.volumes|
      ensures var v := st.volumes[i];
        if v.phase.IsTerminal() then Ended(v) == v
        else Ended(v) == v.(phase := Failed, reason := Abandoned(Render(v.reason))) && HasPrefix(Render(Ended(v).reason), ABANDONED)
    {
      EndedReads(st.volumes[i]);
    }
  }
}
