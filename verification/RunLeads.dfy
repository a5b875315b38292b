/** Where the runs of the system lead when the API server answers: every write that is due is made, the
    teardown removes what it is for, the sweep ends in the marker and the deletion in the release. */
module RunLeads {
  import opened Prelude
  import opened VolumeModel
  import opened VolumeStep
  import opened BackupPass
  import opened Reconciliation
  import Abandonment
  import Names

  // ---- Composing runs ----

  predicate Leads(me: Identity, cfg: Config, w: World, acts: seq<Action>, z: World) {
    ValidRun(me, cfg, w, acts) && Exec(me, cfg, w, acts) == z
  }

  lemma Here(me: Identity, cfg: Config, w: World)
    ensures Leads(me, cfg, w, [], w)
  {
  }

  lemma First(me: Identity, cfg: Config, w: World, a: Action, acts: seq<Action>, z: World)
    requires Enabled(me, cfg, w, a) && Leads(me, cfg, Do(me, cfg, w, a), acts, z)
    ensures Leads(me, cfg, w, [a] + acts, z)
  {
    assert ([a] + acts)[1..] == acts;
  }

  lemma One(me: Identity, cfg: Config, w: World, a: Action)
    requires Enabled(me, cfg, w, a)
    ensures Leads(me, cfg, w, [a], Do(me, cfg, w, a))
  {
    assert [a][1..] == [];
  }

  lemma {:induction false} Then(me: Identity, cfg: Config, w: World, a: seq<Action>, u: World, b: seq<Action>, z: World)
    requires Leads(me, cfg, w, a, u) && Leads(me, cfg, u, b, z)
    ensures Leads(me, cfg, w, a + b, z)
    decreases |a|
  {
    if a == [] {
      assert a + b == b;
    } else {
      assert (a + b)[0] == a[0] && (a + b)[1..] == a[1..] + b;
      Then(me, cfg, Do(me, cfg, w, a[0]), a[1..], u, b, z);
    }
  }

  // ---- What a pass is about to write ----

  /** A pass that is not cut off goes on to write, over the version it read: the known records, the new
      ones, and the one it drove as its step left it. */
  lemma PassWritesItsWork(me: Identity, cfg: Config, w: World, a: Action)
    requires a.Advance? && Enabled(me, cfg, w, a)
    ensures var u := Do(me, cfg, w, a);
      var es := EnsureVolumes(w.status.volumes, a.names);
      && (a.cut.Some? ==> u.proc == Idle)
      && (a.cut.None? ==>
            && u.proc.Writing? && u.proc.write.rv == w.rv && u.proc.write.from == w.status && !u.proc.write.abort
            && (Pick(es).None? ==>
                  u.proc.teardown.None?
                  && u.proc.write.to == Settle(w.status.(volumes := es), a.manifestsDone, a.releaseOwed, a.now, a.later))
            && (Pick(es).Some? ==>
                  var i := Pick(es).value;
                  && i < |es|
                  && u.proc.teardown == (if Drive(cfg, es[i], a.o).teardown then Some(es[i].pvc) else None)
                  && u.proc.write.to == Settle(w.status.(volumes := es[i := Drive(cfg, es[i], a.o).vol]),
                                               a.manifestsDone, a.releaseOwed, a.now, a.later)))
  {
    PickDefersParked(EnsureVolumes(w.status.volumes, a.names));
  }

  /** The other writers of a pass, and the schedule's. */
  lemma OtherWrites(me: Identity, cfg: Config, w: World, a: Action)
    requires Enabled(me, cfg, w, a)
    ensures a.GateClosed? || a.FreezeWindow? || a.AbortHooks? ==>
      var u := Do(me, cfg, w, a);
      && u.proc.SideWriting? && u.proc.write.rv == w.rv && u.proc.write.from == w.status
      && (a.GateClosed? ==> u.proc.write.to == w.status.(phase := PendingPhase) && !u.proc.write.abort)
      && (a.FreezeWindow? ==>
            && u.proc.write.to == w.status.(volumes := EnsureVolumes(w.status.volumes, a.windowNames),
                                             phase := u.proc.write.to.phase)
            && u.proc.write.to.phase == (if a.opens then HooksPhase else w.status.phase) && !u.proc.write.abort)
      && (a.AbortHooks? ==>
            && u.proc.write.to.phase.FailedPhase? && u.proc.write.abort
            && u.proc.write.to.volumes == EnsureVolumes(w.status.volumes, a.abortNames)
            && u.proc.write.to.backupTime.Some? && u.proc.write.to.completionTime.Some?)
  {
  }

  /** A write is in flight exactly while its caller gave it up, or the schedule made it, and it has not
      landed; so is the marker. */
  lemma InFlightExactly(me: Identity, cfg: Config, w: World, a: Action, x: Write)
    requires Enabled(me, cfg, w, a)
    ensures var u := Do(me, cfg, w, a);
      && (x in u.inflight <==>
            || (x in w.inflight && a != Land(x))
            || (a.WriteAmbiguous? && (w.proc.Writing? || w.proc.SideWriting?) && x == w.proc.write)
            || (a.Abandon? && x == Write(w.rv, w.status, Abandonment.AbandonedAs(w.status, a.stamped, a.completed), false)))
      && (u.markInflight <==> (w.markInflight && a != LandMark) || a == Mark(false))
  {
    if a.Finalize? { FinalKeepsFlight(me, w, a.step); }
    else if Sweeps(a) { SweepKeepsFlight(me, w, a); }
    else if Drives(a) { DriveKeepsFlight(me, cfg, w, a, x); }
  }

  lemma FinalKeepsFlight(me: Identity, w: World, step: FinalStep)
    requires CanFinalize(me, w, step)
    ensures FinalizeStep(me, w, step).inflight == w.inflight && FinalizeStep(me, w, step).markInflight == w.markInflight
  {
    if step.Clean? { assert Cleaned(me, w, w.proc.at, step.removed, step.ok).inflight == w.inflight; }
  }

  lemma SweepKeepsFlight(me: Identity, w: World, a: Action)
    requires Sweeps(a) && CanSweep(me, w, a)
    ensures SweepStep(me, w, a).inflight == w.inflight
    ensures SweepStep(me, w, a).markInflight <==> w.markInflight || a == Mark(false)
  {
    match a {
      case TearExposure(_) =>
      case DeleteJob(_) =>
      case Close(_) =>
      case BeginSweep =>
      case SweepExposure(_, _) =>
      case SweepJob(_) =>
      case EndSweep =>
      case List(_) =>
      case Mark(_) =>
    }
  }

  lemma DriveKeepsFlight(me: Identity, cfg: Config, w: World, a: Action, x: Write)
    requires Drives(a) && CanDrive(me, cfg, w, a)
    ensures var u := DriveStep(me, cfg, w, a);
      && u.markInflight == w.markInflight
      && (x in u.inflight <==> x in w.inflight || (a.WriteAmbiguous? && x == w.proc.write))
  {
    match a {
      case Advance(_, _, _, _, _, _, _, _) =>
      case GateClosed =>
      case FreezeWindow(_, _) =>
      case AbortHooks(_, _, _) =>
      case WriteOk =>
      case WriteRejected =>
      case WriteAmbiguous =>
      case Reread(_) =>
    }
  }

  // ---- A write and the teardown after it ----

  function Plus(n: nat, more: bool): nat { if more then n + 1 else n }

  function Without(jobs: set<string>, pvc: string, gone: bool): set<string> { if gone then jobs - {pvc} else jobs }

  /** The effects of a write that arrives first at a terminal phase. */
  function Counted(w: World, x: Write): nat { Plus(w.recorded, x.to.phase.IsTerminal() && x.from.backupTime.None?) }

  function Retained(w: World, x: Write, retention: bool): nat { Plus(w.forgets, retention && x.to.phase.Succeeded()) }

  /** A stored result takes the volume's exposure and then its Job with it, and the pass ends with retention
      where it is due. */
  lemma TeardownLeads(me: Identity, cfg: Config, w: World, x: Write, pvc: string, torn: set<Residue>, deleted: bool, retention: bool)
    requires w.proc == Writing(x, Some(pvc)) && x.rv == w.rv && forall r <- torn :: Derived(me, pvc, r)
    ensures Leads(me, cfg, w, [WriteOk] + ([TearExposure(torn)] + ([DeleteJob(deleted)] + [Close(retention)])),
                  w.(rv := w.rv + 1, status := x.to, aborted := w.aborted || x.abort, recorded := Counted(w, x),
                     objects := w.objects - torn, jobs := Without(w.jobs, pvc, deleted),
                     forgets := Retained(w, x, retention), proc := Idle))
  {
    var w1 := w.(rv := w.rv + 1, status := x.to, aborted := w.aborted || x.abort, recorded := Counted(w, x),
                 proc := TearingExposure(x, pvc));
    assert Do(me, cfg, w, WriteOk) == w1;
    TearingLeads(me, cfg, w1, x, pvc, torn, deleted, retention);
    First(me, cfg, w, WriteOk, [TearExposure(torn)] + ([DeleteJob(deleted)] + [Close(retention)]),
          w1.(objects := w1.objects - torn, jobs := Without(w1.jobs, pvc, deleted), forgets := Retained(w1, x, retention), proc := Idle));
  }

  lemma TearingLeads(me: Identity, cfg: Config, w: World, x: Write, pvc: string, torn: set<Residue>, deleted: bool, retention: bool)
    requires w.proc == TearingExposure(x, pvc) && forall r <- torn :: Derived(me, pvc, r)
    ensures Leads(me, cfg, w, [TearExposure(torn)] + ([DeleteJob(deleted)] + [Close(retention)]),
                  w.(objects := w.objects - torn, jobs := Without(w.jobs, pvc, deleted), forgets := Retained(w, x, retention), proc := Idle))
  {
    var w1 := w.(objects := w.objects - torn, proc := TearingJob(x, pvc));
    assert Do(me, cfg, w, TearExposure(torn)) == w1;
    DeletingLeads(me, cfg, w1, x, pvc, deleted, retention);
    First(me, cfg, w, TearExposure(torn), [DeleteJob(deleted)] + [Close(retention)],
          w1.(jobs := Without(w1.jobs, pvc, deleted), forgets := Retained(w1, x, retention), proc := Idle));
  }

  lemma DeletingLeads(me: Identity, cfg: Config, w: World, x: Write, pvc: string, deleted: bool, retention: bool)
    requires w.proc == TearingJob(x, pvc)
    ensures Leads(me, cfg, w, [DeleteJob(deleted)] + [Close(retention)],
                  w.(jobs := Without(w.jobs, pvc, deleted), forgets := Retained(w, x, retention), proc := Idle))
  {
    var w1 := w.(jobs := Without(w.jobs, pvc, deleted), proc := Closing(x));
    assert Do(me, cfg, w, DeleteJob(deleted)) == w1;
    One(me, cfg, w1, Close(retention));
    First(me, cfg, w, DeleteJob(deleted), [Close(retention)], Do(me, cfg, w1, Close(retention)));
  }

  /** A write without a teardown, and a side write. */
  lemma PlainWriteLeads(me: Identity, cfg: Config, w: World, x: Write, retention: bool)
    requires x.rv == w.rv
    ensures w.proc == Writing(x, None) ==>
      Leads(me, cfg, w, [WriteOk] + [Close(retention)],
            w.(rv := w.rv + 1, status := x.to, aborted := w.aborted || x.abort, recorded := Counted(w, x),
               forgets := Retained(w, x, retention), proc := Idle))
    ensures w.proc == SideWriting(x) ==>
      Leads(me, cfg, w, [WriteOk],
            w.(rv := w.rv + 1, status := x.to, aborted := w.aborted || x.abort, recorded := Counted(w, x), proc := Idle))
  {
    if w.proc == SideWriting(x) { One(me, cfg, w, WriteOk); }
    if w.proc == Writing(x, None) {
      var w1 := w.(rv := w.rv + 1, status := x.to, aborted := w.aborted || x.abort, recorded := Counted(w, x), proc := Closing(x));
      assert Do(me, cfg, w, WriteOk) == w1;
      One(me, cfg, w1, Close(retention));
      First(me, cfg, w, WriteOk, [Close(retention)], Do(me, cfg, w1, Close(retention)));
    }
  }

  /** A terminal write that errored and landed is found by the read after it, and the teardown goes on from
      there. */
  lemma LandedWriteLeads(me: Identity, cfg: Config, w: World, x: Write, teardown: Option<string>)
    requires w.proc == Writing(x, teardown) && x.rv == w.rv && x.to.phase.IsTerminal() && x !in w.inflight
    ensures Leads(me, cfg, w, [WriteAmbiguous] + ([Land(x)] + [Reread(true)]),
                  w.(rv := w.rv + 1, status := x.to, aborted := w.aborted || x.abort,
                     proc := if teardown.Some? then TearingExposure(x, teardown.value) else Closing(x)))
  {
    var w1 := w.(inflight := w.inflight + {x}, proc := Unsure(x, teardown));
    assert Do(me, cfg, w, WriteAmbiguous) == w1;
    assert w1.inflight - {x} == w.inflight;
    LandingLeads(me, cfg, w1, x, teardown);
    First(me, cfg, w, WriteAmbiguous, [Land(x)] + [Reread(true)],
          w1.(rv := w1.rv + 1, status := x.to, aborted := w1.aborted || x.abort, inflight := w1.inflight - {x},
              proc := if teardown.Some? then TearingExposure(x, teardown.value) else Closing(x)));
  }

  lemma LandingLeads(me: Identity, cfg: Config, w: World, x: Write, teardown: Option<string>)
    requires w.proc == Unsure(x, teardown) && x.rv == w.rv && x in w.inflight
    ensures Leads(me, cfg, w, [Land(x)] + [Reread(true)],
                  w.(rv := w.rv + 1, status := x.to, aborted := w.aborted || x.abort, inflight := w.inflight - {x},
                     proc := if teardown.Some? then TearingExposure(x, teardown.value) else Closing(x)))
  {
    var w1 := w.(rv := w.rv + 1, status := x.to, aborted := w.aborted || x.abort, inflight := w.inflight - {x});
    assert Do(me, cfg, w, Land(x)) == w1;
    One(me, cfg, w1, Reread(true));
    First(me, cfg, w, Land(x), [Reread(true)], Do(me, cfg, w1, Reread(true)));
  }

  /** One that is not found, because it did not land or the read failed, ends the pass with nothing torn
      down. */
  lemma LostWriteLeads(me: Identity, cfg: Config, w: World, x: Write, teardown: Option<string>, ok: bool)
    requires w.proc == Writing(x, teardown) && x.to.phase.IsTerminal() && w.status.phase != x.to.phase
    ensures Leads(me, cfg, w, [WriteAmbiguous] + [Reread(ok)], w.(inflight := w.inflight + {x}, proc := Idle))
  {
    var w1 := w.(inflight := w.inflight + {x}, proc := Unsure(x, teardown));
    assert Do(me, cfg, w, WriteAmbiguous) == w1;
    RereadLeads(me, cfg, w1, x, teardown, ok);
    First(me, cfg, w, WriteAmbiguous, [Reread(ok)], w1.(proc := Idle));
  }

  lemma RereadLeads(me: Identity, cfg: Config, w: World, x: Write, teardown: Option<string>, ok: bool)
    requires w.proc == Unsure(x, teardown) && w.status.phase != x.to.phase
    ensures Leads(me, cfg, w, [Reread(ok)], w.(proc := Idle))
  {
    One(me, cfg, w, Reread(ok));
  }

  /** So does a refused one. */
  lemma RefusedWriteLeads(me: Identity, cfg: Config, w: World)
    requires w.proc.Writing? || w.proc.SideWriting?
    ensures Leads(me, cfg, w, [WriteRejected], w.(proc := Idle))
  {
    One(me, cfg, w, WriteRejected);
  }

  /** A write of either kind may be stored exactly while nobody has written since, and may be refused or given
      up at any time; given up, a side write ends the pass and is left to land or not. */
  lemma EveryAnswerMayCome(me: Identity, cfg: Config, w: World)
    requires w.proc.Writing? || w.proc.SideWriting?
    ensures Enabled(me, cfg, w, WriteOk) <==> w.proc.write.rv == w.rv
    ensures Enabled(me, cfg, w, WriteRejected) && Enabled(me, cfg, w, WriteAmbiguous)
    ensures w.proc.SideWriting? ==>
      && Do(me, cfg, w, WriteAmbiguous) == w.(inflight := w.inflight + {w.proc.write}, proc := Idle)
      && Do(me, cfg, w, WriteRejected) == w.(proc := Idle)
  {
  }

  /** What is free to happen: a pass begins, or gives way to a gate, a window or a hook, on an idle, undeleted,
      unfinished Backup; a sweep on a finished, unmarked one; a deletion's pass on a deleted one. */
  lemma PassesMayBegin(me: Identity, cfg: Config, w: World, a: Action)
    ensures a.GateClosed? || a == FreezeWindow([], true) || a == AbortHooks([], 0, 0) ==>
      (Enabled(me, cfg, w, a) <==> w.proc.Idle? && !w.deleting && !w.status.phase.IsTerminal())
    ensures a.BeginSweep? ==>
      (Enabled(me, cfg, w, a) <==> w.proc.Idle? && !w.deleting && w.status.phase.IsTerminal() && !w.cleaned)
    ensures a == Finalize(Begin) ==> (Enabled(me, cfg, w, a) <==> w.proc.Idle? && w.deleting && !w.released)
  {
  }

  /** Kills, edits, deletions, drains and lost Jobs come at any time. */
  lemma OthersMayAct(me: Identity, cfg: Config, w: World, a: Action)
    ensures a.Kill? || a.Touch? || a.Drain? || a.JobVanishes? || a == Finalize(Delete) ==> Enabled(me, cfg, w, a)
  {
  }

  // ---- The sweep ----

  /** What is answered to the clean-up of each volume: what it removes, whether it succeeds, and whether the
      Job's delete goes through after it. */
  datatype SweepAnswer = SweepAnswer(torn: set<Residue>, ok: bool, jobGone: bool)

  predicate AnswersFit(me: Identity, vols: seq<VolumeStatus>, answers: seq<SweepAnswer>) {
    |answers| == |vols| && forall i :: 0 <= i < |vols| ==> forall r <- answers[i].torn :: Derived(me, vols[i].pvc, r)
  }

  /** The sweep from volume i on. */
  function SweepFrom(vols: seq<VolumeStatus>, answers: seq<SweepAnswer>, i: nat): seq<Action>
    requires |answers| == |vols| && i <= |vols|
    decreases |vols| - i
  {
    if i == |vols| then [EndSweep]
    else SweepOne(vols[i], answers[i]) + SweepFrom(vols, answers, i + 1)
  }

  /** What it leaves of the objects, of the Jobs, and whether all of it succeeded. */
  function ObjectsLeft(objects: set<Residue>, vols: seq<VolumeStatus>, answers: seq<SweepAnswer>, i: nat): set<Residue>
    requires |answers| == |vols| && i <= |vols|
    decreases |vols| - i
  {
    if i == |vols| then objects
    else ObjectsLeft(if vols[i].phase.Skipped? then objects else objects - answers[i].torn, vols, answers, i + 1)
  }

  function JobsLeft(jobs: set<string>, vols: seq<VolumeStatus>, answers: seq<SweepAnswer>, i: nat): set<string>
    requires |answers| == |vols| && i <= |vols|
    decreases |vols| - i
  {
    if i == |vols| then jobs
    else JobsLeft(if vols[i].phase.Skipped? || !answers[i].ok || !answers[i].jobGone then jobs else jobs - {vols[i].pvc},
                  vols, answers, i + 1)
  }

  predicate AllOk(vols: seq<VolumeStatus>, answers: seq<SweepAnswer>)
    requires |answers| == |vols|
  {
    forall i :: 0 <= i < |vols| ==> vols[i].phase.Skipped? || answers[i].ok
  }

  predicate AllOkFrom(vols: seq<VolumeStatus>, answers: seq<SweepAnswer>, i: nat)
    requires |answers| == |vols|
  {
    forall j :: i <= j < |vols| ==> vols[j].phase.Skipped? || answers[j].ok
  }

  /** The steps of one volume's clean-up, and the state after them. */
  function SweepOne(v: VolumeStatus, x: SweepAnswer): seq<Action> {
    if v.phase.Skipped? || !x.ok then [SweepExposure(x.torn, x.ok)] else [SweepExposure(x.torn, true), SweepJob(x.jobGone)]
  }

  function OneSwept(w: World, v: VolumeStatus, x: SweepAnswer, i: nat, clean: bool): World {
    w.(objects := if v.phase.Skipped? then w.objects else w.objects - x.torn,
       jobs := if v.phase.Skipped? || !x.ok || !x.jobGone then w.jobs else w.jobs - {v.pvc},
       proc := Sweeping(i + 1, clean && (v.phase.Skipped? || x.ok)))
  }

  lemma SweepExposureLeads(me: Identity, cfg: Config, w: World, x: SweepAnswer, i: nat, clean: bool)
    requires i < |w.status.volumes| && w.proc == Sweeping(i, clean) && forall r <- x.torn :: Derived(me, w.status.volumes[i].pvc, r)
    ensures var skipped := w.status.volumes[i].phase.Skipped?;
      Leads(me, cfg, w, [SweepExposure(x.torn, x.ok)],
            w.(objects := if skipped then w.objects else w.objects - x.torn,
               proc := if skipped then Sweeping(i + 1, clean) else if x.ok then SweepingJob(i, clean) else Sweeping(i + 1, false)))
  {
    One(me, cfg, w, SweepExposure(x.torn, x.ok));
  }

  lemma SweepJobLeads(me: Identity, cfg: Config, w: World, gone: bool, i: nat, clean: bool)
    requires i < |w.status.volumes| && w.proc == SweepingJob(i, clean)
    ensures Leads(me, cfg, w, [SweepJob(gone)],
                  w.(jobs := Without(w.jobs, w.status.volumes[i].pvc, gone), proc := Sweeping(i + 1, clean)))
  {
    One(me, cfg, w, SweepJob(gone));
  }

  lemma SweepOneLeads(me: Identity, cfg: Config, w: World, x: SweepAnswer, i: nat, clean: bool)
    requires i < |w.status.volumes| && w.proc == Sweeping(i, clean) && forall r <- x.torn :: Derived(me, w.status.volumes[i].pvc, r)
    ensures Leads(me, cfg, w, SweepOne(w.status.volumes[i], x), OneSwept(w, w.status.volumes[i], x, i, clean))
  {
    var v := w.status.volumes[i];
    SweepExposureLeads(me, cfg, w, x, i, clean);
    if !v.phase.Skipped? && x.ok {
      var w1 := w.(objects := w.objects - x.torn, proc := SweepingJob(i, clean));
      SweepJobLeads(me, cfg, w1, x.jobGone, i, clean);
      Then(me, cfg, w, [SweepExposure(x.torn, true)], w1, [SweepJob(x.jobGone)], OneSwept(w, v, x, i, clean));
      assert [SweepExposure(x.torn, true)] + [SweepJob(x.jobGone)] == SweepOne(v, x);
    }
  }

  /** The state after the sweep from volume i on. */
  function SweptFrom(w: World, answers: seq<SweepAnswer>, i: nat, clean: bool): World
    requires |answers| == |w.status.volumes| && i <= |answers|
  {
    var vols := w.status.volumes;
    w.(objects := ObjectsLeft(w.objects, vols, answers, i), jobs := JobsLeft(w.jobs, vols, answers, i),
       proc := if clean && AllOkFrom(vols, answers, i) then Verifying(0) else Idle)
  }

  lemma SweptNext(w: World, answers: seq<SweepAnswer>, i: nat, clean: bool)
    requires |answers| == |w.status.volumes| && i < |answers|
    ensures var v := w.status.volumes[i]; var x := answers[i];
      SweptFrom(w, answers, i, clean) ==
      SweptFrom(OneSwept(w, v, x, i, clean), answers, i + 1, clean && (v.phase.Skipped? || x.ok))
  {
    var v := w.status.volumes[i];
    assert AllOkFrom(w.status.volumes, answers, i) <==> (v.phase.Skipped? || answers[i].ok) && AllOkFrom(w.status.volumes, answers, i + 1);
  }

  lemma {:induction false} SweepFromLeads(me: Identity, cfg: Config, w: World, answers: seq<SweepAnswer>, i: nat, clean: bool)
    requires AnswersFit(me, w.status.volumes, answers) && i <= |w.status.volumes| && w.proc == Sweeping(i, clean)
    ensures Leads(me, cfg, w, SweepFrom(w.status.volumes, answers, i), SweptFrom(w, answers, i, clean))
    decreases |w.status.volumes| - i
  {
    var vols := w.status.volumes;
    if i == |vols| {
      One(me, cfg, w, EndSweep);
    } else {
      var u := OneSwept(w, vols[i], answers[i], i, clean);
      SweepOneLeads(me, cfg, w, answers[i], i, clean);
      SweepFromLeads(me, cfg, u, answers, i + 1, clean && (vols[i].phase.Skipped? || answers[i].ok));
      SweptNext(w, answers, i, clean);
      Then(me, cfg, w, SweepOne(vols[i], answers[i]), u, SweepFrom(vols, answers, i + 1), SweptFrom(w, answers, i, clean));
    }
  }

  /** An object the verification read counts as this Backup's: by its owner label, for want of one by its run
      label, and for want of both by the name of a PVC this Backup tracks. */
  predicate Attributed(me: Identity, vols: seq<VolumeStatus>, r: Residue) {
    && r.labels.namespace == me.namespace
    && (|| r.labels.owner == me.name != ""
        || (r.labels.owner == "" && r.labels.run == me.run != "")
        || (r.labels.owner == "" && r.labels.run == "" && r.labels.pvc != "" && exists v <- vols :: v.pvc == r.labels.pvc))
  }

  lemma AttributedIsSeen(me: Identity, w: World)
    requires me.name != "" && forall r <- w.objects :: !Attributed(me, w.status.volumes, r)
    ensures forall k: nat :: k < 4 ==> NoneSeen(me, w, k)
  {
    forall r | r in w.objects ensures !(r.labels.namespace == me.namespace && BelongsTo(me, w.status.volumes, r.labels)) {
      assert !Attributed(me, w.status.volumes, r);
    }
  }

  const LISTINGS := [List(Items)] + ([List(Items)] + ([List(Items)] + ([List(Items)] + [Mark(true)])))

  /** Four clean listings end in the marker. */
  lemma ListingsLead(me: Identity, cfg: Config, w: World)
    requires w.proc == Verifying(0) && forall k: nat :: k < 4 ==> NoneSeen(me, w, k)
    ensures Leads(me, cfg, w, LISTINGS, w.(cleaned := true, rv := w.rv + 1, proc := Idle))
  {
    assert NoneSeen(me, w, 0) && NoneSeen(me, w, 1) && NoneSeen(me, w, 2) && NoneSeen(me, w, 3);
    var w2 := w.(proc := Verifying(2));
    LastListingsLead(me, cfg, w2);
    ListingLeads(me, cfg, w, 0);
    ListingLeads(me, cfg, w.(proc := Verifying(1)), 1);
    var z := w.(cleaned := true, rv := w.rv + 1, proc := Idle);
    Then(me, cfg, w.(proc := Verifying(1)), [List(Items)], w2, [List(Items)] + ([List(Items)] + [Mark(true)]), z);
    Then(me, cfg, w, [List(Items)], w.(proc := Verifying(1)), [List(Items)] + ([List(Items)] + ([List(Items)] + [Mark(true)])), z);
  }

  lemma LastListingsLead(me: Identity, cfg: Config, w: World)
    requires w.proc == Verifying(2) && NoneSeen(me, w, 2) && NoneSeen(me, w, 3)
    ensures Leads(me, cfg, w, [List(Items)] + ([List(Items)] + [Mark(true)]), w.(cleaned := true, rv := w.rv + 1, proc := Idle))
  {
    ListingLeads(me, cfg, w, 2);
    ListingLeads(me, cfg, w.(proc := Verifying(3)), 3);
    var z := w.(cleaned := true, rv := w.rv + 1, proc := Idle);
    One(me, cfg, w.(proc := Marking), Mark(true));
    Then(me, cfg, w.(proc := Verifying(3)), [List(Items)], w.(proc := Marking), [Mark(true)], z);
    Then(me, cfg, w, [List(Items)], w.(proc := Verifying(3)), [List(Items)] + [Mark(true)], z);
  }

  lemma ListingLeads(me: Identity, cfg: Config, w: World, k: nat)
    requires k < 4 && w.proc == Verifying(k) && NoneSeen(me, w, k)
    ensures Leads(me, cfg, w, [List(Items)], w.(proc := if k == 3 then Marking else Verifying(k + 1)))
  {
    One(me, cfg, w, List(Items));
  }

  /** A listing that shows something attributed, or that fails, ends the sweep without the marker. */
  lemma SeenEndsTheSweep(me: Identity, cfg: Config, w: World, k: nat, r: Residue)
    requires k < 4 && w.proc == Verifying(k)
    requires r in w.objects && me.name != "" && Attributed(me, w.status.volumes, r) && ListingOf(r.what) == NthListing(k)
    ensures Leads(me, cfg, w, [List(Items)], w.(proc := Idle)) && Leads(me, cfg, w, [List(ListFailed)], w.(proc := Idle))
  {
    assert !NoneSeen(me, w, k);
    One(me, cfg, w, List(Items));
    One(me, cfg, w, List(ListFailed));
  }

  /** The whole sweep: from any idle pass over a terminal, unmarked Backup that is not being deleted, when
      every clean-up succeeds and nothing attributed to the Backup is left, it ends with the marker stored,
      every volume's objects and Jobs gone as answered, and nothing else changed. */
  lemma SweepEndsInTheMarker(me: Identity, cfg: Config, w: World, answers: seq<SweepAnswer>)
    requires me.name != "" && w.proc.Idle? && w.status.phase.IsTerminal() && !w.deleting && !w.cleaned
    requires AnswersFit(me, w.status.volumes, answers) && AllOk(w.status.volumes, answers)
    requires forall r <- ObjectsLeft(w.objects, w.status.volumes, answers, 0) :: !Attributed(me, w.status.volumes, r)
    ensures var vols := w.status.volumes;
      Leads(me, cfg, w, [BeginSweep] + (SweepFrom(vols, answers, 0) + LISTINGS),
            w.(objects := ObjectsLeft(w.objects, vols, answers, 0), jobs := JobsLeft(w.jobs, vols, answers, 0),
               cleaned := true, rv := w.rv + 1))
  {
    var vols := w.status.volumes;
    var w1 := w.(proc := Sweeping(0, true));
    assert Do(me, cfg, w, BeginSweep) == w1;
    SweepFromLeads(me, cfg, w1, answers, 0, true);
    assert AllOkFrom(vols, answers, 0);
    var w2 := w1.(objects := ObjectsLeft(w.objects, vols, answers, 0), jobs := JobsLeft(w.jobs, vols, answers, 0), proc := Verifying(0));
    AttributedIsSeen(me, w2);
    ListingsLead(me, cfg, w2);
    var z := w2.(cleaned := true, rv := w.rv + 1, proc := Idle);
    Then(me, cfg, w1, SweepFrom(vols, answers, 0), w2, LISTINGS, z);
    First(me, cfg, w, BeginSweep, SweepFrom(vols, answers, 0) + LISTINGS, z);
  }

  /** A clean-up that fails keeps the marker away: the sweep goes through every volume and ends. */
  lemma FailedCleanUpEndsTheSweep(me: Identity, cfg: Config, w: World, answers: seq<SweepAnswer>)
    requires w.proc.Idle? && w.status.phase.IsTerminal() && !w.deleting && !w.cleaned
    requires AnswersFit(me, w.status.volumes, answers) && !AllOk(w.status.volumes, answers)
    ensures var vols := w.status.volumes;
      Leads(me, cfg, w, [BeginSweep] + SweepFrom(vols, answers, 0),
            w.(objects := ObjectsLeft(w.objects, vols, answers, 0), jobs := JobsLeft(w.jobs, vols, answers, 0)))
  {
    var vols := w.status.volumes;
    var w1 := w.(proc := Sweeping(0, true));
    assert Do(me, cfg, w, BeginSweep) == w1;
    SweepFromLeads(me, cfg, w1, answers, 0, true);
    assert !AllOkFrom(vols, answers, 0);
    First(me, cfg, w, BeginSweep, SweepFrom(vols, answers, 0),
          w.(objects := ObjectsLeft(w.objects, vols, answers, 0), jobs := JobsLeft(w.jobs, vols, answers, 0)));
  }

  // ---- The deletion ----

  function FinalOne(v: VolumeStatus, x: SweepAnswer): seq<Action> {
    if v.phase.Skipped? || !x.ok then [Finalize(Clean(x.torn, x.ok))]
    else [Finalize(Clean(x.torn, true)), Finalize(DropFinalJob(x.jobGone))]
  }

  /** The pass of a deletion from volume i on, up to its end. */
  function FinalFrom(vols: seq<VolumeStatus>, answers: seq<SweepAnswer>, i: nat): seq<Action>
    requires |answers| == |vols| && i <= |vols|
    decreases |vols| - i
  {
    if i == |vols| then [Finalize(End)] else FinalOne(vols[i], answers[i]) + FinalFrom(vols, answers, i + 1)
  }

  /** The state of such a pass; what a successful clean-up left is remembered. */
  function OneFinal(me: Identity, w: World, at: FinalPoint, x: SweepAnswer, i: nat, clean: bool): World
    requires i < |at.vols|
  {
    var v := at.vols[i];
    var rest := if v.phase.Skipped? then w.objects else w.objects - x.torn;
    w.(objects := rest,
       jobs := if v.phase.Skipped? || !x.ok || !x.jobGone then w.jobs else w.jobs - {v.pvc},
       proc := Finalizing(at.(stage := Cleaning(i + 1, clean && (v.phase.Skipped? || x.ok)),
                              lingering := if v.phase.Skipped? || !x.ok then at.lingering
                                           else at.lingering + DerivedAmong(me, rest, v.pvc))))
  }

  lemma FinalCleanLeads(me: Identity, cfg: Config, w: World, at: FinalPoint, x: SweepAnswer, i: nat, clean: bool)
    requires w.proc == Finalizing(at) && at.stage == Cleaning(i, clean) && i < |at.vols|
    requires forall r <- x.torn :: Derived(me, at.vols[i].pvc, r)
    ensures var skipped := at.vols[i].phase.Skipped?; var rest := if skipped then w.objects else w.objects - x.torn;
      Leads(me, cfg, w, [Finalize(Clean(x.torn, x.ok))],
            w.(objects := rest,
               proc := Finalizing(at.(stage := if skipped then Cleaning(i + 1, clean)
                                               else if x.ok then DroppingJob(i, clean) else Cleaning(i + 1, false),
                                      lingering := if skipped || !x.ok then at.lingering
                                                   else at.lingering + DerivedAmong(me, rest, at.vols[i].pvc)))))
  {
    One(me, cfg, w, Finalize(Clean(x.torn, x.ok)));
  }

  lemma FinalJobLeads(me: Identity, cfg: Config, w: World, at: FinalPoint, gone: bool, i: nat, clean: bool)
    requires w.proc == Finalizing(at) && at.stage == DroppingJob(i, clean) && i < |at.vols|
    ensures Leads(me, cfg, w, [Finalize(DropFinalJob(gone))],
                  w.(jobs := Without(w.jobs, at.vols[i].pvc, gone), proc := Finalizing(at.(stage := Cleaning(i + 1, clean)))))
  {
    One(me, cfg, w, Finalize(DropFinalJob(gone)));
  }

  lemma FinalOneLeads(me: Identity, cfg: Config, w: World, at: FinalPoint, x: SweepAnswer, i: nat, clean: bool)
    requires w.proc == Finalizing(at) && at.stage == Cleaning(i, clean) && i < |at.vols|
    requires forall r <- x.torn :: Derived(me, at.vols[i].pvc, r)
    ensures Leads(me, cfg, w, FinalOne(at.vols[i], x), OneFinal(me, w, at, x, i, clean))
  {
    var v := at.vols[i];
    FinalCleanLeads(me, cfg, w, at, x, i, clean);
    if !v.phase.Skipped? && x.ok {
      var rest := w.objects - x.torn;
      var w1 := w.(objects := rest,
                   proc := Finalizing(at.(stage := DroppingJob(i, clean),
                                          lingering := at.lingering + DerivedAmong(me, rest, v.pvc))));
      FinalJobLeads(me, cfg, w1, w1.proc.at, x.jobGone, i, clean);
      Then(me, cfg, w, [Finalize(Clean(x.torn, true))], w1, [Finalize(DropFinalJob(x.jobGone))], OneFinal(me, w, at, x, i, clean));
      assert [Finalize(Clean(x.torn, true))] + [Finalize(DropFinalJob(x.jobGone))] == FinalOne(v, x);
    }
  }

  /** What a pass of a deletion from volume i on leaves: the objects and Jobs its answers leave, and the
      finalizer about to go exactly when no clean-up failed. */
  predicate FinalLeaves(w: World, at: FinalPoint, answers: seq<SweepAnswer>, i: nat, clean: bool, z: World)
    requires |answers| == |at.vols| && i <= |answers|
  {
    var all := clean && AllOkFrom(at.vols, answers, i);
    && z == w.(objects := ObjectsLeft(w.objects, at.vols, answers, i), jobs := JobsLeft(w.jobs, at.vols, answers, i), proc := z.proc)
    && (all ==> z.proc.Finalizing? && z.proc.at == at.(stage := Releasing, lingering := z.proc.at.lingering))
    && (!all ==> z.proc.Idle?)
  }

  lemma FinalNext(me: Identity, w: World, at: FinalPoint, answers: seq<SweepAnswer>, i: nat, clean: bool, z: World)
    requires |answers| == |at.vols| && i < |answers|
    requires var u := OneFinal(me, w, at, answers[i], i, clean);
      FinalLeaves(u, u.proc.at, answers, i + 1, clean && (at.vols[i].phase.Skipped? || answers[i].ok), z)
    ensures FinalLeaves(w, at, answers, i, clean, z)
  {
    var vols := at.vols;
    assert AllOkFrom(vols, answers, i) <==> (vols[i].phase.Skipped? || answers[i].ok) && AllOkFrom(vols, answers, i + 1);
  }

  lemma {:induction false} FinalFromLeads(me: Identity, cfg: Config, w: World, at: FinalPoint, answers: seq<SweepAnswer>,
                                          i: nat, clean: bool) returns (z: World)
    requires w.proc == Finalizing(at) && at.stage == Cleaning(i, clean) && i <= |at.vols| && AnswersFit(me, at.vols, answers)
    ensures Leads(me, cfg, w, FinalFrom(at.vols, answers, i), z) && FinalLeaves(w, at, answers, i, clean, z)
    decreases |at.vols| - i
  {
    var vols := at.vols;
    if i == |vols| {
      z := w.(proc := if clean then Finalizing(at.(stage := Releasing)) else Idle);
      One(me, cfg, w, Finalize(End));
    } else {
      var u := OneFinal(me, w, at, answers[i], i, clean);
      FinalOneLeads(me, cfg, w, at, answers[i], i, clean);
      z := FinalFromLeads(me, cfg, u, u.proc.at, answers, i + 1, clean && (vols[i].phase.Skipped? || answers[i].ok));
      FinalNext(me, w, at, answers, i, clean, z);
      Then(me, cfg, w, FinalOne(vols[i], answers[i]), u, FinalFrom(vols, answers, i + 1), z);
    }
  }

  /** A deletion whose clean-ups all answer success, and whose update goes through, releases the Backup, with
      every volume's objects and Jobs gone as answered; one failure, and it stays. */
  lemma DeletionEndsInTheRelease(me: Identity, cfg: Config, w: World, answers: seq<SweepAnswer>)
    requires w.proc.Idle? && w.deleting && !w.released && AnswersFit(me, w.status.volumes, answers)
    ensures var vols := w.status.volumes;
      var left := w.(objects := ObjectsLeft(w.objects, vols, answers, 0), jobs := JobsLeft(w.jobs, vols, answers, 0));
      && (AllOk(vols, answers) ==>
            Leads(me, cfg, w, [Finalize(Begin)] + (FinalFrom(vols, answers, 0) + [Finalize(Release(true))]),
                  left.(released := true, rv := w.rv + 1)))
      && (!AllOk(vols, answers) ==> Leads(me, cfg, w, [Finalize(Begin)] + FinalFrom(vols, answers, 0), left))
  {
    var vols := w.status.volumes;
    var at := FinalPoint(vols, w.rv, Cleaning(0, true), {});
    var w1 := w.(proc := Finalizing(at));
    assert Do(me, cfg, w, Finalize(Begin)) == w1;
    var z := FinalFromLeads(me, cfg, w1, at, answers, 0, true);
    assert AllOkFrom(vols, answers, 0) <==> AllOk(vols, answers);
    if AllOk(vols, answers) {
      ReleaseLeads(me, cfg, z);
      var z' := z.(released := true, rv := z.rv + 1, proc := Idle);
      Then(me, cfg, w1, FinalFrom(vols, answers, 0), z, [Finalize(Release(true))], z');
      First(me, cfg, w, Finalize(Begin), FinalFrom(vols, answers, 0) + [Finalize(Release(true))], z');
    } else {
      First(me, cfg, w, Finalize(Begin), FinalFrom(vols, answers, 0), z);
    }
  }

  lemma ReleaseLeads(me: Identity, cfg: Config, w: World)
    requires w.proc.Finalizing? && w.proc.at.stage.Releasing? && w.proc.at.seen == w.rv
    ensures Leads(me, cfg, w, [Finalize(Release(true))], w.(released := true, rv := w.rv + 1, proc := Idle))
  {
    One(me, cfg, w, Finalize(Release(true)));
  }
}
