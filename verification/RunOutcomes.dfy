/** What each step of the run system changes, and nothing else; and where its main runs lead: a teardown
    removes what it is for, a sweep ends in the marker, a deletion in the release. */
module RunOutcomes {
  import opened Prelude
  import opened VolumeModel
  import opened VolumeStep
  import opened VolumeLaws
  import opened BackupPass
  import opened Reconciliation
  import opened RunLaws
  import Names

  // ---- The status ----

  /** What the step stores over the status, if it stores one. */
  function Stores(w: World, a: Action): Option<Status> {
    match a
    case WriteOk => if w.proc.Writing? || w.proc.SideWriting? then Some(w.proc.write.to) else None
    case Land(x) => Some(x.to)
    case _ => None
  }

  lemma StatusChangesExactly(me: Identity, cfg: Config, w: World, a: Action)
    requires Enabled(me, cfg, w, a)
    ensures Do(me, cfg, w, a).status == if Stores(w, a).Some? then Stores(w, a).value else w.status
  {
    if a.Finalize? { FinalizeIsBeside(me, w, a.step); }
    else if Sweeps(a) { SweepKeepsStatus(me, w, a); }
    else if Drives(a) { DriveStores(me, cfg, w, a); }
  }

  lemma SweepKeepsStatus(me: Identity, w: World, a: Action)
    requires Sweeps(a) && CanSweep(me, w, a)
    ensures SweepStep(me, w, a).status == w.status
  {
    match a {
      case TearExposure(_) =>
      case DeleteJob(_) =>
      case Close(_) =>
      case BeginSweep =>
      case SweepExposure(_, _) =>
      case SweepJob(_) =>
      case EndSweep =>
      case List(_) =>
      case Mark(_) =>
    }
  }

  lemma DriveStores(me: Identity, cfg: Config, w: World, a: Action)
    requires Drives(a) && CanDrive(me, cfg, w, a)
    ensures DriveStep(me, cfg, w, a).status == if Stores(w, a).Some? then Stores(w, a).value else w.status
  {
  }

  // ---- The marker ----

  predicate Marks(a: Action) { a == Mark(true) || a == LandMark }

  lemma MarkerChangesExactly(me: Identity, cfg: Config, w: World, a: Action)
    requires Enabled(me, cfg, w, a)
    ensures Do(me, cfg, w, a).cleaned <==> w.cleaned || Marks(a)
  {
    if a.Finalize? { FinalizeIsBeside(me, w, a.step); }
    else if Sweeps(a) { MarkerInSweep(me, w, a); }
    else if Drives(a) { MarkerInDrive(me, cfg, w, a); }
  }

  lemma MarkerInSweep(me: Identity, w: World, a: Action)
    requires Sweeps(a) && CanSweep(me, w, a)
    ensures SweepStep(me, w, a).cleaned <==> w.cleaned || a == Mark(true)
  {
    match a {
      case TearExposure(_) =>
      case DeleteJob(_) =>
      case Close(_) =>
      case BeginSweep =>
      case SweepExposure(_, _) =>
      case SweepJob(_) =>
      case EndSweep =>
      case List(_) =>
      case Mark(_) =>
    }
  }

  lemma MarkerInDrive(me: Identity, cfg: Config, w: World, a: Action)
    requires Drives(a) && CanDrive(me, cfg, w, a)
    ensures DriveStep(me, cfg, w, a).cleaned == w.cleaned
  {
    match a {
      case Advance(_, _, _, _, _, _, _, _) =>
      case GateClosed =>
      case FreezeWindow(_, _) =>
      case AbortHooks(_, _, _) =>
      case WriteOk =>
      case WriteRejected =>
      case WriteAmbiguous =>
      case Reread(_) =>
    }
  }

  /** In every run the marker is stored exactly when some step of it stored it. */
  lemma {:induction false} MarkedExactly(me: Identity, cfg: Config, w: World, acts: seq<Action>)
    requires ValidRun(me, cfg, w, acts)
    ensures Exec(me, cfg, w, acts).cleaned <==> w.cleaned || exists a <- acts :: Marks(a)
    decreases |acts|
  {
    if acts != [] {
      MarkerChangesExactly(me, cfg, w, acts[0]);
      MarkedExactly(me, cfg, Do(me, cfg, w, acts[0]), acts[1..]);
      assert acts == [acts[0]] + acts[1..];
    }
  }

  // ---- The Jobs ----

  /** How many of its writes the pass got to. */
  function Limit(es: seq<Effect>, cut: Option<nat>): nat {
    if cut.Some? && cut.value < |es| then cut.value else |es|
  }

  /** The pass created a Job, and did not take it back. */
  predicate LeavesJob(cfg: Config, w: World, a: Action, pvc: string)
    requires a.Advance?
  {
    var d := PassWork(cfg, w.status, a.names, a.o);
    && pvc == DrivenPvc(d)
    && (exists i :: 0 <= i < Limit(d.effects, a.cut) && d.effects[i] == CreatedJob)
    && (a.undone ==> forall i :: 0 <= i < Limit(d.effects, a.cut) ==> d.effects[i] != DroppedJob)
  }

  predicate JobComes(cfg: Config, w: World, a: Action, pvc: string) { a.Advance? && LeavesJob(cfg, w, a, pvc) }

  /** A clean-up deleted it, or it vanished. */
  predicate JobGoes(w: World, a: Action, pvc: string) {
    match a
    case DeleteJob(deleted) => deleted && w.proc.TearingJob? && w.proc.pvc == pvc
    case SweepJob(deleted) =>
      deleted && w.proc.SweepingJob? && w.proc.i < |w.status.volumes| && w.status.volumes[w.proc.i].pvc == pvc
    case Finalize(DropFinalJob(gone)) =>
      gone && w.proc.Finalizing? && w.proc.at.stage.DroppingJob? && w.proc.at.stage.i < |w.proc.at.vols|
      && w.proc.at.vols[w.proc.at.stage.i].pvc == pvc
    case JobVanishes(n) => n == pvc
    case _ => false
  }

  /** The effects of a driven volume end in a Job's create, its drop after it, or neither. */
  lemma JobTail(cfg: Config, vols: seq<VolumeStatus>, o: Observation) returns (made: seq<Effect>)
    ensures CreatedJob !in made && DroppedJob !in made
    ensures var es := DriveVolumes(cfg, vols, o).effects;
      es == made || es == made + [CreatedJob] || es == made + [CreatedJob, DroppedJob]
  {
    PickDefersParked(vols);
    made := DriveVolumes(cfg, vols, o).effects;
    if Pick(vols).Some? {
      var v := vols[Pick(vols).value];
      OnlyObjects(o.made);
      if v.phase.Snapshotting? {
        var es := AdvanceSnapshotting(cfg, v, o).effects;
        assert es == [] || es == MadeAll(o.made) || es == MadeAll(o.made) + [CreatedJob, DroppedJob] || es == MadeAll(o.made) + [CreatedJob];
        made := if es == [] then [] else MadeAll(o.made);
      }
    }
  }

  lemma {:induction false} JobsUntouched(jobs: set<string>, pvc: string, es: seq<Effect>, undone: bool)
    requires CreatedJob !in es && DroppedJob !in es
    ensures JobsAfter(jobs, pvc, es, undone) == jobs
  {
    if es != [] {
      assert forall e <- es[..|es| - 1] :: e in es;
      JobsUntouched(jobs, pvc, es[..|es| - 1], undone);
    }
  }

  /** A prefix of such effects does to the Jobs what it contains. */
  lemma JobsOfPrefix(jobs: set<string>, pvc: string, made: seq<Effect>, es: seq<Effect>, k: nat, undone: bool)
    requires CreatedJob !in made && DroppedJob !in made
    requires es == made || es == made + [CreatedJob] || es == made + [CreatedJob, DroppedJob]
    requires k <= |es| && (CreatedJob in es ==> pvc !in jobs)
    ensures JobsAfter(jobs, pvc, es[..k], undone) ==
      if CreatedJob in es[..k] && !(undone && DroppedJob in es[..k]) then jobs + {pvc} else jobs
  {
    if k <= |made| {
      assert es[..k] == made[..k];
      JobsUntouched(jobs, pvc, made[..k], undone);
    } else {
      JobsUntouched(jobs, pvc, made, undone);
      var one := made + [CreatedJob];
      assert one[..|made|] == made;
      if k == |made| + 1 {
        assert es[..k] == one;
      } else {
        assert es[..k] == one + [DroppedJob] && (one + [DroppedJob])[..|one|] == one;
        if undone { assert jobs + {pvc} - {pvc} == jobs; }
      }
    }
  }

  lemma InPrefix(es: seq<Effect>, cut: Option<nat>, e: Effect)
    ensures Reached(es, cut) == es[..Limit(es, cut)]
    ensures e in Reached(es, cut) <==> exists i :: 0 <= i < Limit(es, cut) && es[i] == e
  {
    assert es[..|es|] == es;
  }

  lemma PassJobs(me: Identity, cfg: Config, w: World, a: Action, pvc: string)
    requires a.Advance? && Enabled(me, cfg, w, a)
    ensures pvc in Do(me, cfg, w, a).jobs <==> pvc in w.jobs || LeavesJob(cfg, w, a, pvc)
  {
    var d := PassWork(cfg, w.status, a.names, a.o);
    var made := JobTail(cfg, EnsureVolumes(w.status.volumes, a.names), a.o);
    ReachedJobs(w.jobs, DrivenPvc(d), made, d.effects, a.cut, a.undone);
    assert Do(me, cfg, w, a).jobs == JobsAfter(w.jobs, DrivenPvc(d), Reached(d.effects, a.cut), a.undone);
  }

  /** The Jobs after the effects a pass got to. */
  lemma ReachedJobs(jobs: set<string>, pvc: string, made: seq<Effect>, es: seq<Effect>, cut: Option<nat>, undone: bool)
    requires CreatedJob !in made && DroppedJob !in made
    requires es == made || es == made + [CreatedJob] || es == made + [CreatedJob, DroppedJob]
    requires CreatedJob in es ==> pvc !in jobs
    ensures JobsAfter(jobs, pvc, Reached(es, cut), undone) ==
      if (exists i :: 0 <= i < Limit(es, cut) && es[i] == CreatedJob)
         && !(undone && exists i :: 0 <= i < Limit(es, cut) && es[i] == DroppedJob)
      then jobs + {pvc} else jobs
  {
    InPrefix(es, cut, CreatedJob);
    InPrefix(es, cut, DroppedJob);
    JobsOfPrefix(jobs, pvc, made, es, Limit(es, cut), undone);
  }

  /** A Job comes by a pass that created it and did not take it back, and goes by a clean-up of its own
      volume or by vanishing. */
  lemma JobsChangeExactly(me: Identity, cfg: Config, w: World, a: Action, pvc: string)
    requires Enabled(me, cfg, w, a)
    ensures pvc in Do(me, cfg, w, a).jobs <==> (pvc in w.jobs && !JobGoes(w, a, pvc)) || JobComes(cfg, w, a, pvc)
  {
    if a.Advance? { PassJobs(me, cfg, w, a, pvc); }
    else if a.Finalize? { FinalJobs(me, w, a.step, pvc); }
    else if Sweeps(a) { SweepJobs(me, w, a, pvc); }
    else if Drives(a) { OthersKeepJobs(me, cfg, w, a); }
  }

  lemma FinalJobs(me: Identity, w: World, step: FinalStep, pvc: string)
    requires CanFinalize(me, w, step)
    ensures pvc in FinalizeStep(me, w, step).jobs <==> pvc in w.jobs && !JobGoes(w, Finalize(step), pvc)
  {
    match step {
      case Delete =>
      case Begin =>
      case Clean(_, _) =>
      case DropFinalJob(_) =>
      case End =>
      case Release(_) =>
    }
  }

  lemma SweepJobs(me: Identity, w: World, a: Action, pvc: string)
    requires Sweeps(a) && CanSweep(me, w, a)
    ensures pvc in SweepStep(me, w, a).jobs <==> pvc in w.jobs && !JobGoes(w, a, pvc)
  {
    match a {
      case TearExposure(_) =>
      case DeleteJob(_) =>
      case Close(_) =>
      case BeginSweep =>
      case SweepExposure(_, _) =>
      case SweepJob(_) =>
      case EndSweep =>
      case List(_) =>
      case Mark(_) =>
    }
  }

  // ---- The objects ----

  /** The pass made it, for the volume it drove and with this Backup's labels. */
  predicate ObjectComes(me: Identity, cfg: Config, w: World, a: Action, r: Residue) {
    || (a.Foreign? && r in a.added)
    || (a.Advance? &&
        var d := PassWork(cfg, w.status, a.names, a.o);
        r == Residue(r.what, "", Labels(me.namespace, me.name, me.run, DrivenPvc(d)))
        && exists i :: 0 <= i < Limit(d.effects, a.cut) && d.effects[i] == Made(r.what))
  }

  /** A clean-up removed it, or somebody else did; a clean-up passes over a Skipped volume. */
  predicate ObjectGoes(w: World, a: Action, r: Residue) {
    match a
    case Drain(drained) => r in drained
    case TearExposure(torn) => r in torn
    case SweepExposure(swept, _) =>
      r in swept && w.proc.Sweeping? && w.proc.i < |w.status.volumes| && !w.status.volumes[w.proc.i].phase.Skipped?
    case Finalize(Clean(removed, _)) =>
      r in removed && w.proc.Finalizing? && w.proc.at.stage.Cleaning? && w.proc.at.stage.i < |w.proc.at.vols|
      && !w.proc.at.vols[w.proc.at.stage.i].phase.Skipped?
    case _ => false
  }

  lemma ObjectsChangeExactly(me: Identity, cfg: Config, w: World, a: Action, r: Residue)
    requires Enabled(me, cfg, w, a)
    ensures r in Do(me, cfg, w, a).objects <==> (r in w.objects && !ObjectGoes(w, a, r)) || ObjectComes(me, cfg, w, a, r)
  {
    if a.Advance? { PassObjects(me, cfg, w, a, r); }
    else if a.Finalize? { FinalObjects(me, w, a.step, r); }
    else if Sweeps(a) { SweepObjects(me, w, a, r); }
    else if Drives(a) { DriveObjects(me, cfg, w, a); }
  }

  lemma PassObjects(me: Identity, cfg: Config, w: World, a: Action, r: Residue)
    requires a.Advance? && Enabled(me, cfg, w, a)
    ensures r in Do(me, cfg, w, a).objects <==> r in w.objects || ObjectComes(me, cfg, w, a, r)
  {
    var d := PassWork(cfg, w.status, a.names, a.o);
    InPrefix(d.effects, a.cut, Made(r.what));
    var pvc := DrivenPvc(d);
    var es := Reached(d.effects, a.cut);
    assert r in MadeObjects(me, pvc, es) <==> Made(r.what) in es && r == Residue(r.what, "", ExposureLabels(me, pvc));
  }

  lemma FinalObjects(me: Identity, w: World, step: FinalStep, r: Residue)
    requires CanFinalize(me, w, step)
    ensures r in FinalizeStep(me, w, step).objects <==> r in w.objects && !ObjectGoes(w, Finalize(step), r)
  {
    if step.Clean? {
      var at := w.proc.at;
      assert Cleaned(me, w, at, step.removed, step.ok).objects ==
        if at.vols[at.stage.i].phase.Skipped? then w.objects else w.objects - step.removed;
    }
  }

  lemma SweepObjects(me: Identity, w: World, a: Action, r: Residue)
    requires Sweeps(a) && CanSweep(me, w, a)
    ensures r in SweepStep(me, w, a).objects <==> r in w.objects && !ObjectGoes(w, a, r)
  {
    match a {
      case TearExposure(_) =>
      case DeleteJob(_) =>
      case Close(_) =>
      case BeginSweep =>
      case SweepExposure(_, _) =>
      case SweepJob(_) =>
      case EndSweep =>
      case List(_) =>
      case Mark(_) =>
    }
  }

  lemma DriveObjects(me: Identity, cfg: Config, w: World, a: Action)
    requires Drives(a) && CanDrive(me, cfg, w, a) && !a.Advance?
    ensures DriveStep(me, cfg, w, a).objects == w.objects
  {
  }

  // ---- The counters, the deletion, the version ----

  /** The controller's own write brings the Backup to a terminal phase for the first time. */
  predicate Counts(w: World, a: Action) {
    && a.WriteOk? && (w.proc.Writing? || w.proc.SideWriting?)
    && w.proc.write.to.phase.IsTerminal() && w.proc.write.from.backupTime.None?
  }

  predicate Forgets(w: World, a: Action) {
    && a == Close(true) && w.proc.Closing?
    && (w.proc.write.to.phase.CompletedPhase? || w.proc.write.to.phase.PartiallyCompletedPhase?)
  }

  lemma EffectsChangeExactly(me: Identity, cfg: Config, w: World, a: Action)
    requires Enabled(me, cfg, w, a)
    ensures var u := Do(me, cfg, w, a);
      && u.recorded == w.recorded + (if Counts(w, a) then 1 else 0)
      && u.forgets == w.forgets + (if Forgets(w, a) then 1 else 0)
      && (u.deleting <==> w.deleting || a == Finalize(Delete))
      && (u.released <==> w.released || a == Finalize(Release(true)))
      && (u.aborted <==> w.aborted || (Stores(w, a).Some? && (a.WriteOk? ==> w.proc.write.abort) && (a.Land? ==> a.landing.abort)))
  {
    if a.Finalize? { FinalEffects(me, w, a.step); }
    else if Sweeps(a) { SweepEffects(me, w, a); }
    else if Drives(a) { DriveEffects(me, cfg, w, a); }
  }

  lemma FinalEffects(me: Identity, w: World, step: FinalStep)
    requires CanFinalize(me, w, step)
    ensures var u := FinalizeStep(me, w, step);
      && u.recorded == w.recorded && u.forgets == w.forgets && u.aborted == w.aborted
      && (u.deleting <==> w.deleting || step.Delete?)
      && (u.released <==> w.released || step == Release(true))
  {
    if step.Clean? { var u := Cleaned(me, w, w.proc.at, step.removed, step.ok); assert u.recorded == w.recorded; }
  }

  lemma SweepEffects(me: Identity, w: World, a: Action)
    requires Sweeps(a) && CanSweep(me, w, a)
    ensures var u := SweepStep(me, w, a);
      && u.recorded == w.recorded && u.forgets == w.forgets + (if Forgets(w, a) then 1 else 0)
      && u.deleting == w.deleting && u.released == w.released && u.aborted == w.aborted
  {
    match a {
      case TearExposure(_) =>
      case DeleteJob(_) =>
      case Close(_) =>
      case BeginSweep =>
      case SweepExposure(_, _) =>
      case SweepJob(_) =>
      case EndSweep =>
      case List(_) =>
      case Mark(_) =>
    }
  }

  lemma DriveEffects(me: Identity, cfg: Config, w: World, a: Action)
    requires Drives(a) && CanDrive(me, cfg, w, a)
    ensures var u := DriveStep(me, cfg, w, a);
      && u.recorded == w.recorded + (if Counts(w, a) then 1 else 0)
      && u.forgets == w.forgets && u.deleting == w.deleting && u.released == w.released
      && (u.aborted <==> w.aborted || (a.WriteOk? && w.proc.write.abort))
  {
    match a {
      case Advance(_, _, _, _, _, _, _, _) =>
      case GateClosed =>
      case FreezeWindow(_, _) =>
      case AbortHooks(_, _, _) =>
      case WriteOk =>
      case WriteRejected =>
      case WriteAmbiguous =>
      case Reread(_) =>
    }
  }

  /** The steps that make a new version of the object. */
  predicate Bumps(w: World, a: Action) {
    || Stores(w, a).Some? || Marks(a) || a.Touch? || a == Finalize(Delete) || a == Finalize(Release(true))
  }

  lemma VersionChangesExactly(me: Identity, cfg: Config, w: World, a: Action)
    requires Enabled(me, cfg, w, a)
    ensures Do(me, cfg, w, a).rv == if Bumps(w, a) then w.rv + 1 else w.rv
  {
    if a.Finalize? { FinalVersion(me, w, a.step); }
    else if Sweeps(a) { SweepVersion(me, w, a); }
    else if Drives(a) { DriveVersion(me, cfg, w, a); }
  }

  lemma FinalVersion(me: Identity, w: World, step: FinalStep)
    requires CanFinalize(me, w, step)
    ensures FinalizeStep(me, w, step).rv == if step.Delete? || step == Release(true) then w.rv + 1 else w.rv
  {
  }

  lemma SweepVersion(me: Identity, w: World, a: Action)
    requires Sweeps(a) && CanSweep(me, w, a)
    ensures SweepStep(me, w, a).rv == if a == Mark(true) then w.rv + 1 else w.rv
  {
  }

  lemma DriveVersion(me: Identity, cfg: Config, w: World, a: Action)
    requires Drives(a) && CanDrive(me, cfg, w, a)
    ensures DriveStep(me, cfg, w, a).rv == if a.WriteOk? then w.rv + 1 else w.rv
  {
  }

  // ---- The pass itself ----

  /** Whatever others do, a pass under way stays where it is; a kill ends it, and so does the marker's write,
      however it went. */
  lemma OthersLeaveThePass(me: Identity, cfg: Config, w: World, a: Action)
    requires Enabled(me, cfg, w, a) && !Drives(a) && !a.Finalize?
    ensures !Sweeps(a) ==> Do(me, cfg, w, a).proc == if a.Kill? then Idle else w.proc
    ensures a.Mark? || a.Close? ==> Do(me, cfg, w, a).proc == Idle
  {
    if !Sweeps(a) {
      match a {
        case Land(_) =>
        case LandMark =>
        case Kill =>
        case Drain(_) =>
        case Foreign(_) =>
        case JobVanishes(_) =>
        case Touch =>
        case Abandon(_, _, _, _) =>
      }
    }
  }
}
