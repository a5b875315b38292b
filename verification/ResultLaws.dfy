/** Where the results a Backup stores come from: a completed volume carries the report its mover gave, and
    retention never runs over a failed one. */
module ResultLaws {
  import opened Prelude
  import opened VolumeModel
  import opened VolumeStep
  import opened VolumeLaws
  import opened VolumeOutcomes
  import opened BackupPass
  import opened Abandonment
  import opened Reconciliation
  import opened RunLaws
  import Names

  /** The pass read a good report of v's mover, and v carries it: snapshot, sizes and node. */
  predicate Carries(o: Observation, v: VolumeStatus) {
    && o.job.JobFound? && (o.job.job.succeeded >= 1 || o.job.job.complete)
    && o.mover.Reported? && o.mover.ok
    && v.snapshotID == o.mover.snapshotID && v.sizeBytes == o.mover.sizeBytes && v.addedBytes == o.mover.addedBytes
    && v.node == o.node
  }

  /** The step is a pass that drove v's volume and read the report v carries. */
  predicate Read(cfg: Config, w: World, a: Action, v: VolumeStatus) {
    && a.Advance? && a.cut.None? && Carries(a.o, v)
    && DrivenPvc(PassWork(cfg, w.status, a.names, a.o)) == v.pvc
  }

  /** Some step of the run did. */
  predicate ReadIn(me: Identity, cfg: Config, w: World, acts: seq<Action>, v: VolumeStatus)
    requires ValidRun(me, cfg, w, acts)
    decreases |acts|
  {
    acts != [] && (Read(cfg, w, acts[0], v) || ReadIn(me, cfg, Do(me, cfg, w, acts[0]), acts[1..], v))
  }

  /** v is in the stored status, or in one that is about to be stored or may still land. */
  predicate InSight(w: World, v: VolumeStatus) {
    || v in w.status.volumes
    || (w.proc.Driving() && v in w.proc.write.to.volumes)
    || exists x <- w.inflight :: v in x.to.volumes
  }

  lemma WorkOfAPass(cfg: Config, st: Status, names: seq<string>, o: Observation, v: VolumeStatus)
    requires VolumesFit(st) && Names.Distinct(names)
    requires v.phase.Completed? && v in PassWork(cfg, st, names, o).volumes && v !in st.volumes
    ensures Carries(o, v) && DrivenPvc(PassWork(cfg, st, names, o)) == v.pvc
  {
    var es := EnsureVolumes(st.volumes, names);
    EnumerationFits(st.volumes, names);
    PickDefersParked(es);
    var d := DriveVolumes(cfg, es, o);
    var k :| 0 <= k < |d.volumes| && d.volumes[k] == v;
    if Pick(es) == Some(k) {
      StepKeepsLifecycle(cfg, es[k], o);
      DrivenToCompletion(cfg, es[k], o);
    }
  }

  lemma DrivenToCompletion(cfg: Config, v: VolumeStatus, o: Observation)
    requires !v.phase.IsTerminal() && Drive(cfg, v, o).vol.phase.Completed?
    ensures Carries(o, Drive(cfg, v, o).vol) && Drive(cfg, v, o).vol.pvc == v.pvc
  {
    StepKeepsLifecycle(cfg, v, o);
    if Finished(o) { FinishedOutcome(cfg, v, o); } else { UnfinishedOutcome(cfg, v, o); }
  }

  lemma AdvanceShows(me: Identity, cfg: Config, w: World, a: Action, v: VolumeStatus)
    requires Inv(me, w) && Enabled(me, cfg, w, a) && a.Advance? && v.phase.Completed? && InSight(Do(me, cfg, w, a), v)
    ensures InSight(w, v) || Read(cfg, w, a, v)
  {
    if a.cut.None? && v !in w.status.volumes && v in PassWork(cfg, w.status, a.names, a.o).volumes {
      WorkOfAPass(cfg, w.status, a.names, a.o, v);
    }
  }

  /** Enumerating shows no completed volume. */
  lemma EnumeratedShows(w: World, names: seq<string>, v: VolumeStatus)
    requires VolumesFit(w.status) && Names.Distinct(names) && v.phase.Completed?
    requires v in EnsureVolumes(w.status.volumes, names)
    ensures v in w.status.volumes
  {
    EnumerationFits(w.status.volumes, names);
    var es := EnsureVolumes(w.status.volumes, names);
    var k :| 0 <= k < |es| && es[k] == v;
    if k < |w.status.volumes| { assert es[k] == w.status.volumes[k]; }
  }

  lemma SideWriteShows(me: Identity, cfg: Config, w: World, a: Action, v: VolumeStatus)
    requires Inv(me, w) && Enabled(me, cfg, w, a) && (a.GateClosed? || a.FreezeWindow? || a.AbortHooks?)
    requires v.phase.Completed? && InSight(Do(me, cfg, w, a), v)
    ensures InSight(w, v)
  {
    if a.FreezeWindow? && v in EnsureVolumes(w.status.volumes, a.windowNames) { EnumeratedShows(w, a.windowNames, v); }
    if a.AbortHooks? && v in EnsureVolumes(w.status.volumes, a.abortNames) { EnumeratedShows(w, a.abortNames, v); }
  }

  lemma WriteShows(me: Identity, cfg: Config, w: World, a: Action, v: VolumeStatus)
    requires Enabled(me, cfg, w, a) && (a.WriteOk? || a.WriteRejected? || a.WriteAmbiguous? || a.Reread?)
    requires InSight(Do(me, cfg, w, a), v)
    ensures InSight(w, v)
  {
    match a {
      case WriteOk =>
      case WriteRejected =>
      case WriteAmbiguous =>
      case Reread(_) =>
    }
  }

  /** Nothing new to store, neither done nor about to be. */
  predicate NothingNew(w: World, u: World) {
    && u.status == w.status && u.inflight == w.inflight
    && (u.proc.Driving() ==> w.proc.Driving() && u.proc.write == w.proc.write)
  }

  lemma SweepBringsNothing(me: Identity, w: World, a: Action)
    requires Sweeps(a) && CanSweep(me, w, a)
    ensures NothingNew(w, SweepStep(me, w, a))
  {
    match a {
      case TearExposure(_) =>
      case DeleteJob(_) =>
      case Close(_) =>
      case BeginSweep =>
      case SweepExposure(_, _) =>
      case SweepJob(_) =>
      case EndSweep =>
      case List(_) =>
      case Mark(_) =>
    }
  }

  lemma SweepShows(me: Identity, w: World, a: Action, v: VolumeStatus)
    requires Sweeps(a) && CanSweep(me, w, a) && InSight(SweepStep(me, w, a), v)
    ensures InSight(w, v)
  {
    SweepBringsNothing(me, w, a);
  }

  lemma FinalizeShows(me: Identity, w: World, step: FinalStep, v: VolumeStatus)
    requires CanFinalize(me, w, step) && InSight(FinalizeStep(me, w, step), v)
    ensures InSight(w, v)
  {
    FinalizeIsBeside(me, w, step);
  }

  lemma AbandonShows(me: Identity, w: World, a: Action, v: VolumeStatus)
    requires a.Abandon? && CanHappen(me, w, a) && v.phase.Completed? && InSight(OtherStep(me, w, a), v)
    ensures InSight(w, v)
  {
    var t := AbandonedAs(w.status, a.stamped, a.completed);
    if v in t.volumes {
      var i :| 0 <= i < |t.volumes| && t.volumes[i] == v;
      assert t.volumes[i] == Ended(w.status.volumes[i]);
    }
  }

  lemma OthersShow(me: Identity, w: World, a: Action, v: VolumeStatus)
    requires !Drives(a) && !Sweeps(a) && !a.Finalize? && !a.Abandon? && CanHappen(me, w, a) && InSight(OtherStep(me, w, a), v)
    ensures InSight(w, v)
  {
    match a {
      case Land(_) =>
      case LandMark =>
      case Kill =>
      case Drain(_) =>
      case Foreign(_) =>
      case JobVanishes(_) =>
      case Touch =>
    }
  }

  /** A completed volume comes into sight only by a pass that read its report. */
  lemma StepShows(me: Identity, cfg: Config, w: World, a: Action, v: VolumeStatus)
    requires Inv(me, w) && Enabled(me, cfg, w, a) && v.phase.Completed? && InSight(Do(me, cfg, w, a), v)
    ensures InSight(w, v) || Read(cfg, w, a, v)
  {
    if a.Advance? { AdvanceShows(me, cfg, w, a, v); }
    else if a.GateClosed? || a.FreezeWindow? || a.AbortHooks? { SideWriteShows(me, cfg, w, a, v); }
    else if Drives(a) { WriteShows(me, cfg, w, a, v); }
    else if Sweeps(a) { SweepShows(me, w, a, v); }
    else if a.Finalize? { FinalizeShows(me, w, a.step, v); }
    else if a.Abandon? { AbandonShows(me, w, a, v); }
    else { OthersShow(me, w, a, v); }
  }

  lemma {:induction false} SightIsRead(me: Identity, cfg: Config, w: World, acts: seq<Action>, v: VolumeStatus)
    requires me.Valid() && Inv(me, w) && ValidRun(me, cfg, w, acts)
    requires v.phase.Completed? && InSight(Exec(me, cfg, w, acts), v)
    ensures InSight(w, v) || ReadIn(me, cfg, w, acts, v)
    decreases |acts|
  {
    if acts != [] {
      StepKeeps(me, cfg, w, acts[0]);
      SightIsRead(me, cfg, Do(me, cfg, w, acts[0]), acts[1..], v);
      if InSight(Do(me, cfg, w, acts[0]), v) { StepShows(me, cfg, w, acts[0], v); }
    }
  }

  /** In every run, a volume stored as Completed carries the snapshot, the sizes and the node of a good report
      that a pass over it read. */
  lemma CompletedCarriesItsReport(me: Identity, cfg: Config, w: World, acts: seq<Action>, v: VolumeStatus)
    requires me.Valid() && Initial(w) && ValidRun(me, cfg, w, acts)
    requires v in Exec(me, cfg, w, acts).status.volumes && v.phase.Completed?
    ensures ReadIn(me, cfg, w, acts, v)
  {
    InitialInv(me, w);
    SightIsRead(me, cfg, w, acts, v);
  }

  /** So what a removed Job said is not lost: in every run, the step that makes a Job disappear, other hands,
      the Backup's deletion and a hook abort apart, finds its volume's record stored, and a completed one
      with the report its mover gave. */
  lemma JobGoneReportStored(me: Identity, cfg: Config, w: World, acts: seq<Action>, a: Action, pvc: string)
    returns (v: VolumeStatus)
    requires me.Valid() && Initial(w) && ValidRun(me, cfg, w, acts)
    requires Enabled(me, cfg, Exec(me, cfg, w, acts), a) && !a.JobVanishes? && !a.Finalize?
    requires pvc in Exec(me, cfg, w, acts).jobs && pvc !in Do(me, cfg, Exec(me, cfg, w, acts), a).jobs
    requires !Exec(me, cfg, w, acts).aborted
    ensures v in Exec(me, cfg, w, acts).status.volumes && v.pvc == pvc && v.phase.IsTerminal()
    ensures v.phase.Completed? ==> ReadIn(me, cfg, w, acts, v)
  {
    NoResultLost(me, cfg, w, acts, a, pvc);
    v :| v in Exec(me, cfg, w, acts).status.volumes && v.pvc == pvc && v.phase.IsTerminal();
    if v.phase.Completed? { CompletedCarriesItsReport(me, cfg, w, acts, v); }
  }

  /** In every run, retention is enqueued only for a Backup none of whose stored volumes failed or is
      unfinished. */
  lemma RetentionSparesFailures(me: Identity, cfg: Config, w: World, acts: seq<Action>)
    requires me.Valid() && Initial(w) && ValidRun(me, cfg, w, acts)
    ensures var u := Exec(me, cfg, w, acts);
      u.forgets > 0 ==> forall v <- u.status.volumes :: v.phase.Completed? || v.phase.Skipped?
  {
    InitialInv(me, w);
    RunKeeps(me, cfg, w, acts);
  }
}
