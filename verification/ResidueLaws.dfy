/** What a Backup may leave behind: when a volume that was Skipped has an exposure, and when the
    finalizer goes over one. */
module ResidueLaws {
  import opened Prelude
  import opened VolumeModel
  import opened VolumeStep
  import opened VolumeLaws
  import opened BackupPass
  import opened Reconciliation
  import opened RunLaws
  import Names

  // ---- Who makes and who clears an object ----

  /** A pass of the run got as far as creating r. */
  predicate Makes(me: Identity, cfg: Config, w: World, a: Action, r: Residue)
    requires Enabled(me, cfg, w, a)
  {
    a.Advance? &&
    var d := PassWork(cfg, w.status, a.names, a.o);
    r in MadeObjects(me, DrivenPvc(d), Reached(d.effects, a.cut))
  }

  /** Cleared by another hand, or by a deletion's clean-up of a volume that was not Skipped when that
      pass read it. The inline teardown and the terminal sweep are not in this list. */
  predicate Clears(w: World, a: Action, r: Residue) {
    || (a.Drain? && r in a.drained)
    || (a.Finalize? && a.step.Clean? && r in a.step.removed && w.proc.Finalizing? && w.proc.at.stage.Cleaning?
        && w.proc.at.stage.i < |w.proc.at.vols| && !w.proc.at.vols[w.proc.at.stage.i].phase.Skipped?)
  }

  predicate NeverCleared(me: Identity, cfg: Config, w: World, acts: seq<Action>, r: Residue)
    requires ValidRun(me, cfg, w, acts)
    decreases |acts|
  {
    acts == [] || (!Clears(w, acts[0], r) && NeverCleared(me, cfg, Do(me, cfg, w, acts[0]), acts[1..], r))
  }

  /** Some pass of the run made r, and nothing has cleared it since. */
  predicate MadeAndLeft(me: Identity, cfg: Config, w: World, acts: seq<Action>, r: Residue)
    requires ValidRun(me, cfg, w, acts)
    decreases |acts|
  {
    acts != [] &&
    var u := Do(me, cfg, w, acts[0]);
    (Makes(me, cfg, w, acts[0], r) && NeverCleared(me, cfg, u, acts[1..], r)) || MadeAndLeft(me, cfg, u, acts[1..], r)
  }

  // ---- The operator's own teardown never touches a volume that ends up Skipped ----

  /** The stored record of this PVC will never be Skipped: it is past waiting, or the status is final. */
  predicate Engaged(st: Status, pvc: string) {
    exists v <- st.volumes :: v.pvc == pvc && !v.phase.Skipped? && (!v.phase.IsWaiting() || st.phase.IsTerminal())
  }

  lemma EngagedPersists(s: Status, t: Status, pvc: string)
    requires StatusEvolves(s, t) && Engaged(s, pvc)
    ensures Engaged(t, pvc)
  {
    var i :| 0 <= i < |s.volumes| && s.volumes[i].pvc == pvc && !s.volumes[i].phase.Skipped?
             && (!s.volumes[i].phase.IsWaiting() || s.phase.IsTerminal());
    assert Evolves(s.volumes[i], t.volumes[i]);
    assert t.volumes[i] in t.volumes;
  }

  predicate SkippedNow(st: Status, pvc: string) { exists v <- st.volumes :: v.pvc == pvc && v.phase.Skipped? }

  lemma SkippedIsNotEngaged(st: Status, pvc: string)
    requires UniquePvcs(st.volumes) && SkippedNow(st, pvc)
    ensures !Engaged(st, pvc)
  {
    var i :| 0 <= i < |st.volumes| && st.volumes[i].pvc == pvc && st.volumes[i].phase.Skipped?;
  }

  /** The volume whose teardown a pass has due was in flight when the pass read it. */
  predicate DueWasInFlight(x: Write, pvc: string) { exists v <- x.from.volumes :: v.pvc == pvc && v.phase.InFlight() }

  predicate DueInv(proc: Proc) {
    && ((proc.Writing? || proc.Unsure?) && proc.teardown.Some? ==> DueWasInFlight(proc.write, proc.teardown.value))
    && (proc.TearingExposure? || proc.TearingJob? ==> DueWasInFlight(proc.write, proc.pvc))
  }

  lemma PassDueWasInFlight(cfg: Config, st: Status, names: seq<string>, o: Observation)
    requires VolumesFit(st) && Names.Distinct(names)
    ensures var d := PassWork(cfg, st, names, o);
      d.teardown.Some? ==> exists v <- st.volumes :: v.pvc == d.teardown.value && v.phase.InFlight()
  {
    var es := EnsureVolumes(st.volumes, names);
    EnumerationFits(st.volumes, names);
    DriveFits(cfg, es, o);
    var d := DriveVolumes(cfg, es, o);
    if d.teardown.Some? {
      var i :| 0 <= i < |es| && es[i].pvc == d.teardown.value && es[i].phase.InFlight() && d.volumes[i].phase.IsTerminal();
      assert i < |st.volumes| && es[i] == st.volumes[i] && st.volumes[i] in st.volumes;
    }
  }

  lemma DueKeptByPass(me: Identity, cfg: Config, w: World, a: Action)
    requires VolumesFit(w.status) && a.Advance? && Enabled(me, cfg, w, a)
    ensures DueInv(Do(me, cfg, w, a).proc) || Do(me, cfg, w, a).proc == w.proc
  {
    PassDueWasInFlight(cfg, w.status, a.names, a.o);
  }

  lemma DueKeptByOthers(me: Identity, cfg: Config, w: World, a: Action)
    requires DueInv(w.proc) && Enabled(me, cfg, w, a) && !a.Advance? && !a.Finalize?
    ensures DueInv(Do(me, cfg, w, a).proc)
  {
    if a.WriteOk? { DueKeptByWrite(me, cfg, w, a); }
    else if a.Reread? { DueKeptByReread(me, cfg, w, a); }
    else if Drives(a) { DueKeptByDrives(me, cfg, w, a); }
    else if Sweeps(a) { DueKeptBySweeps(me, w, a); }
    else { DueKeptByRest(me, w, a); }
  }

  lemma DueKeptByWrite(me: Identity, cfg: Config, w: World, a: Action)
    requires DueInv(w.proc) && a.WriteOk? && Enabled(me, cfg, w, a)
    ensures DueInv(Do(me, cfg, w, a).proc)
  {
  }

  lemma DueKeptByReread(me: Identity, cfg: Config, w: World, a: Action)
    requires DueInv(w.proc) && a.Reread? && Enabled(me, cfg, w, a)
    ensures DueInv(Do(me, cfg, w, a).proc)
  {
  }

  lemma DueKeptByDrives(me: Identity, cfg: Config, w: World, a: Action)
    requires DueInv(w.proc) && Drives(a) && !a.Advance? && !a.WriteOk? && !a.Reread? && Enabled(me, cfg, w, a)
    ensures DueInv(Do(me, cfg, w, a).proc)
  {
    if a.WriteAmbiguous? {
      var p := Do(me, cfg, w, a).proc;
      assert p.Idle? || p == Unsure(w.proc.write, w.proc.teardown);
    }
  }

  lemma DueKeptBySweeps(me: Identity, w: World, a: Action)
    requires DueInv(w.proc) && Sweeps(a) && CanSweep(me, w, a)
    ensures DueInv(SweepStep(me, w, a).proc)
  {
    var p := SweepStep(me, w, a).proc;
    if a.TearExposure? { assert p == TearingJob(w.proc.write, w.proc.pvc); }
  }

  lemma DueKeptByRest(me: Identity, w: World, a: Action)
    requires DueInv(w.proc) && !Drives(a) && !Sweeps(a) && !a.Finalize? && CanHappen(me, w, a)
    ensures DueInv(OtherStep(me, w, a).proc)
  {
  }

  lemma DueKept(me: Identity, cfg: Config, w: World, a: Action)
    requires Inv(me, w) && DueInv(w.proc) && Enabled(me, cfg, w, a)
    ensures DueInv(Do(me, cfg, w, a).proc)
  {
    if a.Advance? { DueKeptByPass(me, cfg, w, a); }
    else if a.Finalize? { FinalizeIsBeside(me, w, a.step); }
    else { DueKeptByOthers(me, cfg, w, a); }
  }

  lemma DueIsEngaged(st: Status, x: Write, pvc: string)
    requires StatusEvolves(x.from, st) && DueWasInFlight(x, pvc)
    ensures Engaged(st, pvc)
  {
    assert Engaged(x.from, pvc);
    EngagedPersists(x.from, st, pvc);
  }

  lemma SweepIsEngaged(w: World, i: nat)
    requires i < |w.status.volumes| && w.status.phase.IsTerminal()
    ensures w.status.volumes[i].phase.Skipped? || Engaged(w.status, w.status.volumes[i].pvc)
  {
    assert w.status.volumes[i] in w.status.volumes;
  }

  /** What each of the steps that touch objects does to one object of a PVC that is not engaged. */
  lemma TearTouchesOthers(me: Identity, cfg: Config, w: World, a: Action, pvc: string, r: Residue)
    requires me.Valid() && Inv(me, w) && DueInv(w.proc) && a.TearExposure? && Enabled(me, cfg, w, a)
    requires Derived(me, pvc, r) && !Engaged(w.status, pvc)
    ensures r in Do(me, cfg, w, a).objects <==> r in w.objects
  {
    DueIsEngaged(w.status, w.proc.write, w.proc.pvc);
  }

  lemma SweepTouchesOthers(me: Identity, cfg: Config, w: World, a: Action, pvc: string, r: Residue)
    requires me.Valid() && Inv(me, w) && a.SweepExposure? && Enabled(me, cfg, w, a)
    requires Derived(me, pvc, r) && !Engaged(w.status, pvc)
    ensures r in Do(me, cfg, w, a).objects <==> r in w.objects
  {
    SweepIsEngaged(w, w.proc.i);
  }

  lemma CleanedObjects(me: Identity, w: World, at: FinalPoint, removed: set<Residue>, ok: bool)
    requires at.stage.Cleaning? && at.stage.i < |at.vols|
    ensures Cleaned(me, w, at, removed, ok).objects ==
      if at.vols[at.stage.i].phase.Skipped? then w.objects else w.objects - removed
  {
  }

  lemma FinalizeClears(me: Identity, w: World, step: FinalStep, r: Residue)
    requires CanFinalize(me, w, step)
    ensures r in FinalizeStep(me, w, step).objects <==> r in w.objects && !Clears(w, Finalize(step), r)
  {
    if step.Clean? { CleanedObjects(me, w, w.proc.at, step.removed, step.ok); }
  }

  lemma PassMakes(me: Identity, cfg: Config, w: World, a: Action, r: Residue)
    requires a.Advance? && Enabled(me, cfg, w, a)
    ensures r in Do(me, cfg, w, a).objects <==> r in w.objects || Makes(me, cfg, w, a, r)
  {
  }

  predicate TouchesObjects(a: Action) {
    a.TearExposure? || a.SweepExposure? || a.Finalize? || a.Advance? || a.Drain? || a.Foreign?
  }

  lemma DrivesTouchNone(me: Identity, cfg: Config, w: World, a: Action)
    requires Enabled(me, cfg, w, a) && Drives(a) && !TouchesObjects(a)
    ensures Do(me, cfg, w, a).objects == w.objects
  {
  }

  lemma SweepsTouchNone(me: Identity, w: World, a: Action)
    requires Sweeps(a) && CanSweep(me, w, a) && !TouchesObjects(a)
    ensures SweepStep(me, w, a).objects == w.objects
  {
  }

  lemma OthersTouchNone(me: Identity, cfg: Config, w: World, a: Action)
    requires Enabled(me, cfg, w, a) && !TouchesObjects(a)
    ensures Do(me, cfg, w, a).objects == w.objects
  {
    if Drives(a) { DrivesTouchNone(me, cfg, w, a); } else if Sweeps(a) { SweepsTouchNone(me, w, a); }
  }

  /** Only a pass makes such an object, and only another hand or a deletion clears it. */
  lemma ObjectStep(me: Identity, cfg: Config, w: World, a: Action, pvc: string, r: Residue)
    requires me.Valid() && Inv(me, w) && DueInv(w.proc) && Enabled(me, cfg, w, a)
    requires Derived(me, pvc, r) && !Engaged(w.status, pvc)
    ensures r in Do(me, cfg, w, a).objects <==> (r in w.objects && !Clears(w, a, r)) || Makes(me, cfg, w, a, r)
  {
    if a.TearExposure? { TearTouchesOthers(me, cfg, w, a, pvc, r); }
    else if a.SweepExposure? { SweepTouchesOthers(me, cfg, w, a, pvc, r); }
    else if a.Finalize? { FinalizeClears(me, w, a.step, r); }
    else if a.Advance? { PassMakes(me, cfg, w, a, r); }
    else if !TouchesObjects(a) { OthersTouchNone(me, cfg, w, a); }
  }

  lemma {:induction false} ObjectsOfASkippedVolume(me: Identity, cfg: Config, w: World, acts: seq<Action>, pvc: string, r: Residue)
    requires me.Valid() && Inv(me, w) && DueInv(w.proc) && ValidRun(me, cfg, w, acts)
    requires Derived(me, pvc, r) && SkippedNow(Exec(me, cfg, w, acts).status, pvc)
    ensures r in Exec(me, cfg, w, acts).objects <==>
              (r in w.objects && NeverCleared(me, cfg, w, acts, r)) || MadeAndLeft(me, cfg, w, acts, r)
    decreases |acts|
  {
    if acts != [] {
      var u := Do(me, cfg, w, acts[0]);
      RunKeeps(me, cfg, w, acts);
      SkippedIsNotEngaged(Exec(me, cfg, w, acts).status, pvc);
      if Engaged(w.status, pvc) { EngagedPersists(w.status, Exec(me, cfg, w, acts).status, pvc); }
      ObjectStep(me, cfg, w, acts[0], pvc, r);
      StepKeeps(me, cfg, w, acts[0]);
      DueKept(me, cfg, w, acts[0]);
      ObjectsOfASkippedVolume(me, cfg, u, acts[1..], pvc, r);
    }
  }

  /** In every run: a PVC whose stored volume is Skipped has an exposure object exactly when some pass of
      the run got as far as making one for it (or it was there before the run) and neither another hand
      nor a deletion has cleared it since. The operator's own teardown and sweep never do. */
  lemma SkippedVolumeIsExposedExactly(me: Identity, cfg: Config, w: World, acts: seq<Action>, pvc: string)
    requires me.Valid() && Initial(w) && ValidRun(me, cfg, w, acts)
    requires SkippedNow(Exec(me, cfg, w, acts).status, pvc)
    ensures (exists r <- Exec(me, cfg, w, acts).objects :: Derived(me, pvc, r)) <==>
            exists r: Residue :: Derived(me, pvc, r) &&
              ((r in w.objects && NeverCleared(me, cfg, w, acts, r)) || MadeAndLeft(me, cfg, w, acts, r))
  {
    InitialInv(me, w);
    forall r: Residue | Derived(me, pvc, r)
      ensures r in Exec(me, cfg, w, acts).objects <==>
                (r in w.objects && NeverCleared(me, cfg, w, acts, r)) || MadeAndLeft(me, cfg, w, acts, r)
    {
      ObjectsOfASkippedVolume(me, cfg, w, acts, pvc, r);
    }
  }

  /** A step that makes an object for a waiting volume leaves it waiting, parked, when Expose broke half
      way, and moves it on when Expose was done. */
  lemma MadeWhileWaiting(cfg: Config, v: VolumeStatus, o: Observation, what: ExposureObject)
    requires v.phase.IsWaiting() && Made(what) in Drive(cfg, v, o).effects
    ensures o.exposed.Broke? ==> IsParked(Drive(cfg, v, o).vol) && Drive(cfg, v, o).vol.phase.IsWaiting()
    ensures o.exposed.Done? ==> Drive(cfg, v, o).vol.phase.Snapshotting?
  {
  }

  /** What the pass was about to write when it had made its objects. */
  function PassWrite(cfg: Config, w: World, a: Action): Write
    requires a.Advance?
  {
    var d := PassWork(cfg, w.status, a.names, a.o);
    Write(w.rv, w.status, Settle(w.status.(volumes := d.volumes), a.manifestsDone, a.releaseOwed, a.now, a.later), false)
  }

  /** Some step of the run stores x: the write of the pass itself, or one that lands after it. */
  predicate StoredIn(me: Identity, cfg: Config, w: World, acts: seq<Action>, x: Write)
    requires ValidRun(me, cfg, w, acts)
    decreases |acts|
  {
    acts != [] &&
    ((acts[0].WriteOk? && w.proc.write == x) || acts[0] == Land(x) || StoredIn(me, cfg, Do(me, cfg, w, acts[0]), acts[1..], x))
  }

  lemma StoringStores(me: Identity, cfg: Config, w: World, a: Action, x: Write)
    requires Enabled(me, cfg, w, a) && ((a.WriteOk? && w.proc.write == x) || a == Land(x))
    ensures Do(me, cfg, w, a).status == x.to
  {
  }

  lemma {:induction false} StoredIsEngaged(me: Identity, cfg: Config, w: World, acts: seq<Action>, x: Write, pvc: string)
    requires me.Valid() && Inv(me, w) && ValidRun(me, cfg, w, acts)
    requires StoredIn(me, cfg, w, acts, x) && Engaged(x.to, pvc)
    ensures Engaged(Exec(me, cfg, w, acts).status, pvc)
    decreases |acts|
  {
    var u := Do(me, cfg, w, acts[0]);
    StepKeeps(me, cfg, w, acts[0]);
    if (acts[0].WriteOk? && w.proc.write == x) || acts[0] == Land(x) {
      StoringStores(me, cfg, w, acts[0], x);
      RunKeeps(me, cfg, u, acts[1..]);
      EngagedPersists(u.status, Exec(me, cfg, u, acts[1..]).status, pvc);
    } else {
      StoredIsEngaged(me, cfg, u, acts[1..], x, pvc);
    }
  }

  /** The volume a pass made an object for. */
  lemma MadeFor(cfg: Config, vols: seq<VolumeStatus>, o: Observation, what: ExposureObject) returns (i: nat)
    requires Made(what) in DriveVolumes(cfg, vols, o).effects
    ensures i < |vols| && DriveVolumes(cfg, vols, o).volumes == vols[i := Drive(cfg, vols[i], o).vol]
    ensures DrivenPvc(DriveVolumes(cfg, vols, o)) == vols[i].pvc && !vols[i].phase.IsTerminal()
    ensures Made(what) in Drive(cfg, vols[i], o).effects
  {
    PickDefersParked(vols);
    i := Pick(vols).value;
    StepKeepsLifecycle(cfg, vols[i], o);
  }

  /** It is in flight, or it waits; and if it waits and Expose was done, it is engaged in what the pass
      leaves. */
  lemma DrivingEngages(cfg: Config, vols: seq<VolumeStatus>, o: Observation, i: nat, what: ExposureObject, t: Status)
    requires i < |vols| && vols[i].phase.IsWaiting() && Made(what) in Drive(cfg, vols[i], o).effects
    requires t.volumes == vols[i := Drive(cfg, vols[i], o).vol]
    ensures o.exposed.Broke? || Engaged(t, vols[i].pvc)
  {
    MadeWhileWaiting(cfg, vols[i], o, what);
    StepKeepsLifecycle(cfg, vols[i], o);
    assert t.volumes[i] in t.volumes;
  }

  lemma MakesSomething(me: Identity, cfg: Config, w: World, a: Action, r: Residue) returns (what: ExposureObject)
    requires Enabled(me, cfg, w, a) && a.Advance? && Makes(me, cfg, w, a, r)
    ensures Made(what) in PassWork(cfg, w.status, a.names, a.o).effects
    ensures r.labels == ExposureLabels(me, DrivenPvc(PassWork(cfg, w.status, a.names, a.o)))
  {
    var d := PassWork(cfg, w.status, a.names, a.o);
    ReachedSubset(d.effects, a.cut);
    var e :| e in Reached(d.effects, a.cut) && e.Made? && r == Residue(e.what, "", ExposureLabels(me, DrivenPvc(d)));
    what := e.what;
  }

  lemma MakingEngages(me: Identity, cfg: Config, w: World, a: Action, pvc: string, r: Residue)
    requires VolumesFit(w.status) && Enabled(me, cfg, w, a) && a.Advance? && Makes(me, cfg, w, a, r) && Derived(me, pvc, r)
    ensures Engaged(w.status, pvc) || a.o.exposed.Broke? || Engaged(PassWrite(cfg, w, a).to, pvc)
  {
    var es := EnsureVolumes(w.status.volumes, a.names);
    EnumerationFits(w.status.volumes, a.names);
    var what := MakesSomething(me, cfg, w, a, r);
    var i := MadeFor(cfg, es, a.o, what);
    if es[i].phase.IsWaiting() {
      DrivingEngages(cfg, es, a.o, i, what, PassWrite(cfg, w, a).to);
    } else {
      assert i < |w.status.volumes| && es[i] == w.status.volumes[i] && es[i] in w.status.volumes;
    }
  }

  /** In every run: the pass that made an object of a PVC whose stored volume is Skipped in the end was cut
      off before its write, or its write was never stored, or its Expose broke half way. */
  lemma ExposureBehindASkip(me: Identity, cfg: Config, w: World, before: seq<Action>, a: Action, after: seq<Action>,
                            pvc: string, r: Residue)
    requires me.Valid() && Initial(w) && ValidRun(me, cfg, w, before)
    requires Enabled(me, cfg, Exec(me, cfg, w, before), a)
    requires ValidRun(me, cfg, Do(me, cfg, Exec(me, cfg, w, before), a), after)
    requires Makes(me, cfg, Exec(me, cfg, w, before), a, r) && Derived(me, pvc, r)
    requires SkippedNow(Exec(me, cfg, Do(me, cfg, Exec(me, cfg, w, before), a), after).status, pvc)
    ensures var u := Exec(me, cfg, w, before);
      || a.cut.Some?
      || !StoredIn(me, cfg, Do(me, cfg, u, a), after, PassWrite(cfg, u, a))
      || a.o.exposed.Broke?
  {
    InitialInv(me, w);
    RunKeeps(me, cfg, w, before);
    var u := Exec(me, cfg, w, before);
    var x := PassWrite(cfg, u, a);
    var t := Do(me, cfg, u, a);
    StepKeeps(me, cfg, u, a);
    RunKeeps(me, cfg, t, after);
    var z := Exec(me, cfg, t, after);
    SkippedIsNotEngaged(z.status, pvc);
    MakingEngages(me, cfg, u, a, pvc, r);
    if Engaged(u.status, pvc) {
      EngagedPersists(u.status, t.status, pvc);
      EngagedPersists(t.status, z.status, pvc);
    }
    if StoredIn(me, cfg, t, after, x) && Engaged(x.to, pvc) { StoredIsEngaged(me, cfg, t, after, x, pvc); }
  }

  // ---- What the finalizer goes over ----

  /** The sweep of a deletion tries this PVC: some record of it is not Skipped. */
  predicate Swept(vols: seq<VolumeStatus>, pvc: string) { exists v <- vols :: v.pvc == pvc && !v.phase.Skipped? }

  /** How many volumes a pass that has met no failure is done with. */
  function DoneWith(at: FinalPoint): nat {
    match at.stage
    case Cleaning(i, _) => i
    case DroppingJob(i, _) => i + 1
    case Releasing => |at.vols|
  }

  predicate NoFailure(at: FinalPoint) { at.stage.Releasing? || at.stage.clean }

  /** After a pass without failure, an object of a volume it is done with is one its clean-up left. */
  predicate Accounted(me: Identity, objects: set<Residue>, at: FinalPoint) {
    && DoneWith(at) <= |at.vols|
    && (NoFailure(at) ==>
          forall j, r :: (0 <= j < DoneWith(at) && r in objects && !at.vols[j].phase.Skipped? && Derived(me, at.vols[j].pvc, r))
            ==> r in at.lingering)
    && (forall r <- at.lingering :: exists j :: 0 <= j < |at.vols| && !at.vols[j].phase.Skipped? && Derived(me, at.vols[j].pvc, r))
  }

  predicate PointInv(me: Identity, w: World) {
    w.proc.Finalizing? ==>
      var at := w.proc.at;
      && at.seen <= w.rv && (at.seen == w.rv ==> at.vols == w.status.volumes)
      && Accounted(me, w.objects, at)
  }

  lemma CleanedKeepsAccount(me: Identity, w: World, at: FinalPoint, removed: set<Residue>, ok: bool)
    requires at.stage.Cleaning? && at.stage.i < |at.vols| && Accounted(me, w.objects, at)
    ensures var u := Cleaned(me, w, at, removed, ok); u.proc.Finalizing? && Accounted(me, u.objects, u.proc.at)
  {
    var u := Cleaned(me, w, at, removed, ok);
    var i := at.stage.i;
    if !at.vols[i].phase.Skipped? && ok {
      forall r | r in u.proc.at.lingering
        ensures exists j :: 0 <= j < |at.vols| && !at.vols[j].phase.Skipped? && Derived(me, at.vols[j].pvc, r)
      {
        if r !in at.lingering { assert Derived(me, at.vols[i].pvc, r); }
      }
    }
  }

  lemma FinalizeKeepsPoint(me: Identity, w: World, step: FinalStep)
    requires PointInv(me, w) && CanFinalize(me, w, step)
    ensures PointInv(me, FinalizeStep(me, w, step))
  {
    if step.Clean? {
      CleanedKeepsPoint(me, w, w.proc.at, step.removed, step.ok);
    } else if step.DropFinalJob? {
      var at := w.proc.at;
      MovedKeepsAccount(me, w.objects, at, at.(stage := Cleaning(at.stage.i + 1, at.stage.clean)));
    } else if step.End? && w.proc.at.stage.clean {
      MovedKeepsAccount(me, w.objects, w.proc.at, w.proc.at.(stage := Releasing));
    }
  }

  /** The point moved without anything more being done. */
  lemma MovedKeepsAccount(me: Identity, objects: set<Residue>, at: FinalPoint, to: FinalPoint)
    requires Accounted(me, objects, at) && to == at.(stage := to.stage) && DoneWith(to) == DoneWith(at)
    requires NoFailure(to) ==> NoFailure(at)
    ensures Accounted(me, objects, to)
  {
  }

  lemma CleanedKeepsPoint(me: Identity, w: World, at: FinalPoint, removed: set<Residue>, ok: bool)
    requires w.proc == Finalizing(at) && PointInv(me, w) && at.stage.Cleaning? && at.stage.i < |at.vols|
    ensures PointInv(me, Cleaned(me, w, at, removed, ok))
  {
    CleanedKeepsAccount(me, w, at, removed, ok);
  }

  lemma FewerObjectsKeepAccount(me: Identity, objects: set<Residue>, rest: set<Residue>, at: FinalPoint)
    requires Accounted(me, objects, at) && forall r <- rest :: r in objects || !Owned(me, r)
    ensures Accounted(me, rest, at)
  {
  }

  /** What the other steps leave alone while a deletion's pass is at some point. */
  lemma OthersBeside(me: Identity, cfg: Config, w: World, a: Action)
    requires Enabled(me, cfg, w, a) && !a.Finalize?
    ensures var u := Do(me, cfg, w, a);
      u.proc.Finalizing? ==>
        && w.proc == u.proc && u.rv >= w.rv && (u.rv == w.rv ==> u.status == w.status)
        && forall r <- u.objects :: r in w.objects || !Owned(me, r)
  {
    if Drives(a) { PassesDoNotFinalize(me, cfg, w, a); } else if Sweeps(a) { SweepsDoNotFinalize(me, w, a); }
  }

  lemma PassesDoNotFinalize(me: Identity, cfg: Config, w: World, a: Action)
    requires Enabled(me, cfg, w, a) && Drives(a)
    ensures !Do(me, cfg, w, a).proc.Finalizing?
  {
  }

  lemma SweepsDoNotFinalize(me: Identity, w: World, a: Action)
    requires Sweeps(a) && CanSweep(me, w, a)
    ensures !SweepStep(me, w, a).proc.Finalizing?
  {
  }

  lemma PointKept(me: Identity, cfg: Config, w: World, a: Action)
    requires PointInv(me, w) && Enabled(me, cfg, w, a)
    ensures PointInv(me, Do(me, cfg, w, a))
  {
    if a.Finalize? {
      FinalizeKeepsPoint(me, w, a.step);
    } else {
      OthersBeside(me, cfg, w, a);
      var u := Do(me, cfg, w, a);
      if u.proc.Finalizing? { FewerObjectsKeepAccount(me, w.objects, u.objects, w.proc.at); }
    }
  }

  lemma {:induction false} RunKeepsPoint(me: Identity, cfg: Config, w: World, acts: seq<Action>)
    requires PointInv(me, w) && ValidRun(me, cfg, w, acts)
    ensures PointInv(me, Exec(me, cfg, w, acts))
    decreases |acts|
  {
    if acts != [] {
      PointKept(me, cfg, w, acts[0]);
      RunKeepsPoint(me, cfg, Do(me, cfg, w, acts[0]), acts[1..]);
    }
  }

  /** In every run, the finalizer that is about to go goes over exactly two kinds of objects: those of a
      PVC whose stored record is Skipped or that has none, and those a clean-up of this pass answered
      success over and left. With neither about, nothing this Backup made remains. */
  lemma FinalizerGoesOverResidueExactly(me: Identity, cfg: Config, w: World, acts: seq<Action>)
    requires me.Valid() && Initial(w) && ValidRun(me, cfg, w, acts)
    ensures var u := Exec(me, cfg, w, acts);
      CanFinalize(me, u, Release(true)) ==>
      && (forall r <- u.objects :: Derived(me, r.labels.pvc, r) ==>
            (r in u.proc.at.lingering <==> Swept(u.status.volumes, r.labels.pvc)))
      && ((exists r <- u.objects :: Derived(me, r.labels.pvc, r)) <==>
            || (exists r <- u.objects :: Derived(me, r.labels.pvc, r) && !Swept(u.status.volumes, r.labels.pvc))
            || (exists r <- u.objects :: r in u.proc.at.lingering))
  {
    RunKeepsPoint(me, cfg, w, acts);
    var u := Exec(me, cfg, w, acts);
    if CanFinalize(me, u, Release(true)) { ReleasePoint(me, u); }
  }

  /** The same about the point of release itself. */
  lemma ReleasePoint(me: Identity, u: World)
    requires PointInv(me, u) && CanFinalize(me, u, Release(true))
    ensures (forall r <- u.objects :: Derived(me, r.labels.pvc, r) ==>
               (r in u.proc.at.lingering <==> Swept(u.status.volumes, r.labels.pvc)))
    ensures ((exists r <- u.objects :: Derived(me, r.labels.pvc, r)) <==>
               || (exists r <- u.objects :: Derived(me, r.labels.pvc, r) && !Swept(u.status.volumes, r.labels.pvc))
               || (exists r <- u.objects :: r in u.proc.at.lingering))
  {
    var at := u.proc.at;
    forall r | r in u.objects && Derived(me, r.labels.pvc, r)
      ensures r in at.lingering <==> Swept(u.status.volumes, r.labels.pvc)
    {
      if r in at.lingering {
        var j :| 0 <= j < |at.vols| && !at.vols[j].phase.Skipped? && Derived(me, at.vols[j].pvc, r);
        assert at.vols[j] in u.status.volumes;
      }
      if Swept(u.status.volumes, r.labels.pvc) {
        var j :| 0 <= j < |at.vols| && at.vols[j].pvc == r.labels.pvc && !at.vols[j].phase.Skipped?;
      }
    }
    if r :| r in u.objects && r in at.lingering {
      var j :| 0 <= j < |at.vols| && !at.vols[j].phase.Skipped? && Derived(me, at.vols[j].pvc, r);
      assert Derived(me, r.labels.pvc, r);
    }
  }
}
