/** The controller and the API server as a step system for one Backup. A pass is a sequence of API
    steps with a kill possible between any two; a status write may succeed, conflict, or error while
    the request stays in flight and lands later; the schedule may end the Backup as abandoned; other
    parties edit, drain and delete objects at any time. */
module Reconciliation {
  import opened Prelude
  import opened VolumeModel
  import opened VolumeStep
  import opened BackupPass
  import Abandonment
  import Names

  // ---- Exposure objects and whose they are ----

  /** The labels the sweep reads; an empty string is an absent label. */
  datatype Labels = Labels(namespace: string, owner: string, run: string, pvc: string)

  datatype Residue = Residue(what: ExposureObject, name: string, labels: Labels)

  /** The Backup's coordinates; run is empty on the namespace plane. */
  datatype Identity = Identity(namespace: string, name: string, run: string) {
    ghost predicate Valid() { namespace != "" && name != "" }
  }

  function ExposureLabels(me: Identity, pvc: string): Labels {
    Labels(me.namespace, me.name, me.run, pvc)
  }

  /** The attribution of a leftover the listing returned. */
  predicate BelongsTo(me: Identity, vols: seq<VolumeStatus>, l: Labels) {
    if l.owner != "" then l.owner == me.name
    else if l.run != "" then l.run == me.run
    else l.pvc != "" && Tracked(vols, l.pvc)
  }

  /** Carries this Backup's owner label. */
  predicate Owned(me: Identity, r: Residue) {
    r.labels.namespace == me.namespace && r.labels.owner == me.name
  }

  /** The four listings of the verification read. */
  datatype Listing = Contents | TenantSnapshots | OperatorSnapshots | Clones

  function ListingOf(what: ExposureObject): Listing {
    match what
    case OriginSnapshot => TenantSnapshots
    case OriginContent => Contents
    case StaticContent => Contents
    case StaticSnapshot => OperatorSnapshots
    case ClonePVC => Clones
  }

  function NthListing(k: nat): Listing
    requires k < 4
  {
    [Contents, TenantSnapshots, OperatorSnapshots, Clones][k]
  }

  /** What one listing shows this Backup, after selection and attribution. */
  ghost function Seen(me: Identity, vols: seq<VolumeStatus>, objects: set<Residue>, l: Listing): set<Residue> {
    set r | r in objects && ListingOf(r.what) == l && r.labels.namespace == me.namespace && BelongsTo(me, vols, r.labels)
  }

  // ---- State ----

  /** A status write the client gave up on: it lands only on the version it was based on. */
  datatype Write = Write(rv: nat, from: Status, to: Status, abort: bool)

  /** Where a pass over a Backup that is being deleted is: about to clean volume i's exposure, about to
      delete its Job, or about to drop the finalizer. It works on the volumes it read at its start, in
      the version it saw; lingering collects what a clean-up answered success over and left. */
  datatype FinalPoint = FinalPoint(vols: seq<VolumeStatus>, seen: nat, stage: FinalStage, lingering: set<Residue>)

  datatype FinalStage = Cleaning(i: nat, clean: bool) | DroppingJob(i: nat, clean: bool) | Releasing

  datatype Proc =
    | Idle
    | Writing(write: Write, teardown: Option<string>)
    | SideWriting(write: Write)
    | Unsure(write: Write, teardown: Option<string>)
    | TearingExposure(write: Write, pvc: string)
    | TearingJob(write: Write, pvc: string)
    | Closing(write: Write)
    | Sweeping(i: nat, clean: bool)
    | SweepingJob(i: nat, clean: bool)
    | Verifying(k: nat)
    | Marking
    | Finalizing(at: FinalPoint)
  {
    /** A pass that began on a non-terminal status. */
    predicate Driving() {
      Writing? || SideWriting? || Unsure? || TearingExposure? || TearingJob? || Closing?
    }

    /** A pass whose status result is durable. */
    predicate Durable() { TearingExposure? || TearingJob? || Closing? }
  }

  datatype World = World(
    rv: nat,
    status: Status,
    cleaned: bool,
    aborted: bool,
    jobs: set<string>,
    objects: set<Residue>,
    inflight: set<Write>,
    markInflight: bool,
    proc: Proc,
    recorded: nat,
    forgets: nat,
    deleting: bool,
    released: bool)

  predicate Initial(w: World) {
    && w.status == Status(NoPhase, [], None, None)
    && !w.cleaned && !w.aborted && w.inflight == {} && !w.markInflight && w.proc.Idle?
    && w.recorded == 0 && w.forgets == 0 && !w.deleting && !w.released
  }

  // ---- Actions ----

  datatype ListAnswer = Items | ListFailed | NoSuchKind

  datatype Action =
    | Advance(names: seq<string>, o: Observation, manifestsDone: bool, releaseOwed: bool, now: int, later: int,
              cut: Option<nat>, undone: bool)
    | GateClosed
    | FreezeWindow(windowNames: seq<string>, opens: bool)
    | AbortHooks(abortNames: seq<string>, abortNow: int, abortLater: int)
    | WriteOk
    | WriteRejected
    | WriteAmbiguous
    | Land(landing: Write)
    | Reread(readOk: bool)
    | TearExposure(torn: set<Residue>)
    | DeleteJob(deleted: bool)
    | Close(retention: bool)
    | BeginSweep
    | SweepExposure(swept: set<Residue>, sweptOk: bool)
    | SweepJob(jobDeleted: bool)
    | EndSweep
    | List(answer: ListAnswer)
    | Mark(ok: bool)
    | LandMark
    | Kill
    | Drain(drained: set<Residue>)
    | Foreign(added: set<Residue>)
    | JobVanishes(vanished: string)
    | Touch
    | Abandon(floor: int, judged: int, stamped: int, completed: int)
    | Finalize(step: FinalStep)

  /** The deletion of the Backup, and the steps of the pass that answers it. */
  datatype FinalStep =
    | Delete
    | Begin
    | Clean(removed: set<Residue>, ok: bool)
    | DropFinalJob(gone: bool)
    | End
    | Release(dropped: bool)

  function MadeObjects(me: Identity, pvc: string, es: seq<Effect>): set<Residue> {
    set e | e in es && e.Made? :: Residue(e.what, "", ExposureLabels(me, pvc))
  }

  function JobsAfter(jobs: set<string>, pvc: string, es: seq<Effect>, undone: bool): set<string> {
    if es == [] then jobs
    else
      var rest := JobsAfter(jobs, pvc, es[..|es| - 1], undone);
      match es[|es| - 1]
      case CreatedJob => rest + {pvc}
      case DroppedJob => if undone then rest - {pvc} else rest
      case _ => rest
  }

  /** The writes the pass got to before it was killed. */
  function Reached(es: seq<Effect>, cut: Option<nat>): seq<Effect> {
    match cut
    case None => es
    case Some(k) => if k <= |es| then es[..k] else es
  }

  function PassWork(cfg: Config, st: Status, names: seq<string>, o: Observation): Driven {
    DriveVolumes(cfg, EnsureVolumes(st.volumes, names), o)
  }

  /** The name of the volume the pass drove, if any. */
  function DrivenPvc(d: Driven): string {
    if d.picked.Some? && d.picked.value < |d.volumes| then d.volumes[d.picked.value].pvc else ""
  }

  predicate Derived(me: Identity, pvc: string, r: Residue) { r.labels == ExposureLabels(me, pvc) }

  predicate Recorded(st: Status, pvc: string) {
    exists v <- st.volumes :: v.pvc == pvc && v.phase.IsTerminal()
  }

  /** A pass may drive the Backup: it is not terminal and not being deleted. */
  predicate Drivable(w: World) { w.proc.Idle? && !w.deleting && !w.status.phase.IsTerminal() }

  /** The objects of one PVC among these. */
  function DerivedAmong(me: Identity, objects: set<Residue>, pvc: string): set<Residue> {
    set r <- objects | Derived(me, pvc, r)
  }

  function DropJob(w: World, pvc: string, deleted: bool): World {
    if deleted then w.(jobs := w.jobs - {pvc}) else w
  }

  predicate CanFinalize(me: Identity, w: World, step: FinalStep) {
    match step
    case Delete => true
    case Begin => w.proc.Idle? && w.deleting && !w.released
    case Clean(removed, _) =>
      && w.proc.Finalizing? && w.proc.at.stage.Cleaning? && w.proc.at.stage.i < |w.proc.at.vols|
      && forall r <- removed :: Derived(me, w.proc.at.vols[w.proc.at.stage.i].pvc, r)
    case DropFinalJob(_) =>
      w.proc.Finalizing? && w.proc.at.stage.DroppingJob? && w.proc.at.stage.i < |w.proc.at.vols|
    case End => w.proc.Finalizing? && w.proc.at.stage.Cleaning? && w.proc.at.stage.i >= |w.proc.at.vols|
    case Release(dropped) =>
      w.proc.Finalizing? && w.proc.at.stage.Releasing? && (dropped ==> w.proc.at.seen == w.rv)
  }

  /** The finalizer goes with an update of the version the pass saw; the object goes with it. */
  function FinalizeStep(me: Identity, w: World, step: FinalStep): World
    requires CanFinalize(me, w, step)
  {
    match step
    case Delete => w.(deleting := true, rv := w.rv + 1)
    case Begin => w.(proc := Finalizing(FinalPoint(w.status.volumes, w.rv, Cleaning(0, true), {})))
    case Clean(removed, ok) => Cleaned(me, w, w.proc.at, removed, ok)
    case DropFinalJob(gone) =>
      var at := w.proc.at;
      DropJob(w, at.vols[at.stage.i].pvc, gone).(proc := Finalizing(at.(stage := Cleaning(at.stage.i + 1, at.stage.clean))))
    case End => w.(proc := if w.proc.at.stage.clean then Finalizing(w.proc.at.(stage := Releasing)) else Idle)
    case Release(dropped) =>
      if dropped then w.(released := true, rv := w.rv + 1, proc := Idle) else w.(proc := Idle)
  }

  function Cleaned(me: Identity, w: World, at: FinalPoint, removed: set<Residue>, ok: bool): World
    requires at.stage.Cleaning? && at.stage.i < |at.vols|
  {
    var i := at.stage.i;
    if at.vols[i].phase.Skipped? then w.(proc := Finalizing(at.(stage := Cleaning(i + 1, at.stage.clean))))
    else if !ok then w.(objects := w.objects - removed, proc := Finalizing(at.(stage := Cleaning(i + 1, false))))
    else
      var rest := w.objects - removed;
      w.(objects := rest,
         proc := Finalizing(at.(stage := DroppingJob(i, at.stage.clean),
                                lingering := at.lingering + DerivedAmong(me, rest, at.vols[i].pvc))))
  }

  /** The steps of a pass on a status that is not terminal yet. */
  predicate Drives(a: Action) {
    a.Advance? || a.GateClosed? || a.FreezeWindow? || a.AbortHooks? || a.WriteOk? || a.WriteRejected? || a.WriteAmbiguous? || a.Reread?
  }

  /** The steps of the teardown after a durable write, and of the sweep. */
  predicate Sweeps(a: Action) {
    || a.TearExposure? || a.DeleteJob? || a.Close? || a.BeginSweep? || a.SweepExposure? || a.SweepJob? || a.EndSweep?
    || a.List? || a.Mark?
  }

  predicate CanDrive(me: Identity, cfg: Config, w: World, a: Action)
    requires Drives(a)
  {
    match a
    case Advance(names, o, _, _, _, _, _, _) =>
      && Drivable(w) && Names.Distinct(names)
      && (var d := PassWork(cfg, w.status, names, o); CreatedJob in d.effects ==> DrivenPvc(d) !in w.jobs)
    case GateClosed => Drivable(w)
    case FreezeWindow(names, _) => Drivable(w) && Names.Distinct(names)
    case AbortHooks(names, _, _) => Drivable(w) && Names.Distinct(names)
    case WriteOk => (w.proc.Writing? || w.proc.SideWriting?) && w.proc.write.rv == w.rv
    case WriteRejected => w.proc.Writing? || w.proc.SideWriting?
    case WriteAmbiguous => w.proc.Writing? || w.proc.SideWriting?
    case Reread(_) => w.proc.Unsure?
  }

  predicate CanSweep(me: Identity, w: World, a: Action)
    requires Sweeps(a)
  {
    match a
    case TearExposure(torn) => w.proc.TearingExposure? && forall r <- torn :: Derived(me, w.proc.pvc, r)
    case DeleteJob(_) => w.proc.TearingJob?
    case Close(_) => w.proc.Closing?
    case BeginSweep => w.proc.Idle? && !w.deleting && w.status.phase.IsTerminal() && !w.cleaned
    case SweepExposure(swept, _) =>
      && w.proc.Sweeping? && w.proc.i < |w.status.volumes|
      && forall r <- swept :: Derived(me, w.status.volumes[w.proc.i].pvc, r)
    case SweepJob(_) => w.proc.SweepingJob? && w.proc.i < |w.status.volumes|
    case EndSweep => w.proc.Sweeping? && w.proc.i >= |w.status.volumes|
    case List(answer) =>
      && w.proc.Verifying? && w.proc.k < 4
      && (answer.NoSuchKind? ==> w.proc.k < 3 && forall r <- w.objects :: ListingOf(r.what) != NthListing(w.proc.k))
    case Mark(_) => w.proc.Marking?
  }

  predicate CanHappen(me: Identity, w: World, a: Action)
    requires !Drives(a) && !Sweeps(a)
  {
    match a
    case Land(x) => x in w.inflight && x.rv == w.rv
    case LandMark => w.markInflight && !w.released
    case Foreign(added) => forall r <- added :: !Owned(me, r)
    case Finalize(step) => CanFinalize(me, w, step)
    case Kill => true
    case Drain(_) => true
    case JobVanishes(_) => true
    case Touch => true
    case Abandon(floor, judged, _, _) =>
      && !w.released && !w.status.phase.IsTerminal()
      && (me.run == "" ==> Abandonment.Abandonable(w.status.volumes, floor, judged))
  }

  predicate Enabled(me: Identity, cfg: Config, w: World, a: Action) {
    if Drives(a) then CanDrive(me, cfg, w, a)
    else if Sweeps(a) then CanSweep(me, w, a)
    else CanHappen(me, w, a)
  }

  function AfterDurable(x: Write, teardown: Option<string>): Proc {
    match teardown
    case Some(pvc) => TearingExposure(x, pvc)
    case None => Closing(x)
  }

  function Commit(w: World, x: Write): World {
    w.(rv := w.rv + 1, status := x.to, aborted := w.aborted || x.abort)
  }

  /** First arrival at a terminal phase: the durable marker was still unset when the pass read it. */
  predicate JustTerminal(x: Write) { x.to.phase.IsTerminal() && x.from.backupTime.None? }

  function DriveStep(me: Identity, cfg: Config, w: World, a: Action): World
    requires Drives(a) && CanDrive(me, cfg, w, a)
  {
    match a
    case Advance(names, o, manifestsDone, releaseOwed, now, later, cut, undone) =>
      var d := PassWork(cfg, w.status, names, o);
      var es := Reached(d.effects, cut);
      var pvc := DrivenPvc(d);
      var u := w.(objects := w.objects + MadeObjects(me, pvc, es), jobs := JobsAfter(w.jobs, pvc, es, undone));
      if cut.Some? then u
      else u.(proc := Writing(Write(w.rv, w.status,
                                    Settle(w.status.(volumes := d.volumes), manifestsDone, releaseOwed, now, later), false),
                              d.teardown))
    case GateClosed => w.(proc := SideWriting(Write(w.rv, w.status, w.status.(phase := PendingPhase), false)))
    case FreezeWindow(names, opens) =>
      w.(proc := SideWriting(Write(w.rv, w.status,
           w.status.(volumes := EnsureVolumes(w.status.volumes, names),
                     phase := if opens then HooksPhase else w.status.phase), false)))
    case AbortHooks(names, now, later) =>
      w.(proc := SideWriting(Write(w.rv, w.status,
           Aborted(w.status.(volumes := EnsureVolumes(w.status.volumes, names)), now, later), true)))
    case WriteOk =>
      var x := w.proc.write;
      var u := Commit(w, x).(recorded := if JustTerminal(x) then w.recorded + 1 else w.recorded);
      if w.proc.Writing? then u.(proc := AfterDurable(x, w.proc.teardown)) else u.(proc := Idle)
    case WriteRejected => w.(proc := Idle)
    case WriteAmbiguous =>
      var x := w.proc.write;
      w.(inflight := w.inflight + {x},
         proc := if w.proc.Writing? && x.to.phase.IsTerminal() then Unsure(x, w.proc.teardown) else Idle)
    case Reread(readOk) =>
      w.(proc := if readOk && w.status.phase == w.proc.write.to.phase
                 then AfterDurable(w.proc.write, w.proc.teardown) else Idle)
  }

  function SweepStep(me: Identity, w: World, a: Action): World
    requires Sweeps(a) && CanSweep(me, w, a)
  {
    match a
    case TearExposure(torn) => w.(objects := w.objects - torn, proc := TearingJob(w.proc.write, w.proc.pvc))
    case DeleteJob(deleted) => DropJob(w, w.proc.pvc, deleted).(proc := Closing(w.proc.write))
    case Close(retention) =>
      w.(forgets := if retention && w.proc.write.to.phase.Succeeded() then w.forgets + 1 else w.forgets, proc := Idle)
    case BeginSweep => w.(proc := Sweeping(0, true))
    case SweepExposure(swept, sweptOk) => SweptOne(w, w.proc.i, w.proc.clean, swept, sweptOk)
    case SweepJob(deleted) =>
      DropJob(w, w.status.volumes[w.proc.i].pvc, deleted).(proc := Sweeping(w.proc.i + 1, w.proc.clean))
    case EndSweep => w.(proc := if w.proc.clean then Verifying(0) else Idle)
    case List(answer) => w.(proc := AfterListing(me, w, w.proc.k, answer))
    case Mark(ok) => if ok then w.(cleaned := true, rv := w.rv + 1, proc := Idle) else w.(markInflight := true, proc := Idle)
  }

  /** The schedule's write is made of the version it judged: it lands at once, later, or never. On the
      cluster plane the run's children are listed again for it, and not judged again. */
  function AbandoningWrite(w: World, stamped: int, completed: int): Write {
    Write(w.rv, w.status, Abandonment.AbandonedAs(w.status, stamped, completed), false)
  }

  function OtherStep(me: Identity, w: World, a: Action): World
    requires !Drives(a) && !Sweeps(a) && CanHappen(me, w, a)
  {
    match a
    case Land(x) => Commit(w, x).(inflight := w.inflight - {x})
    case LandMark => w.(cleaned := true, rv := w.rv + 1, markInflight := false)
    case Kill => w.(proc := Idle)
    case Drain(drained) => w.(objects := w.objects - drained)
    case Foreign(added) => w.(objects := w.objects + added)
    case JobVanishes(pvc) => w.(jobs := w.jobs - {pvc})
    case Touch => w.(rv := w.rv + 1)
    case Abandon(_, _, stamped, completed) => w.(inflight := w.inflight + {AbandoningWrite(w, stamped, completed)})
    case Finalize(step) => FinalizeStep(me, w, step)
  }

  function Do(me: Identity, cfg: Config, w: World, a: Action): World
    requires Enabled(me, cfg, w, a)
  {
    if Drives(a) then DriveStep(me, cfg, w, a)
    else if Sweeps(a) then SweepStep(me, w, a)
    else OtherStep(me, w, a)
  }

  function SweptOne(w: World, i: nat, clean: bool, swept: set<Residue>, ok: bool): World
    requires i < |w.status.volumes|
  {
    if w.status.volumes[i].phase.Skipped? then w.(proc := Sweeping(i + 1, clean))
    else w.(objects := w.objects - swept, proc := if ok then SweepingJob(i, clean) else Sweeping(i + 1, false))
  }

  /** One listing of the verification read: anything seen, and anything unreadable, ends the sweep. */
  function AfterListing(me: Identity, w: World, k: nat, answer: ListAnswer): Proc
    requires k < 4
  {
    if answer.ListFailed? then Idle
    else if answer.Items? && !NoneSeen(me, w, k) then Idle
    else if k == 3 then Marking
    else Verifying(k + 1)
  }

  predicate NoneSeen(me: Identity, w: World, k: nat)
    requires k < 4
  {
    forall r <- w.objects ::
      !(ListingOf(r.what) == NthListing(k) && r.labels.namespace == me.namespace && BelongsTo(me, w.status.volumes, r.labels))
  }

  predicate ValidRun(me: Identity, cfg: Config, w: World, acts: seq<Action>)
    decreases |acts|
  {
    acts == [] || (Enabled(me, cfg, w, acts[0]) && ValidRun(me, cfg, Do(me, cfg, w, acts[0]), acts[1..]))
  }

  function Exec(me: Identity, cfg: Config, w: World, acts: seq<Action>): World
    requires ValidRun(me, cfg, w, acts)
    decreases |acts|
  {
    if acts == [] then w else Exec(me, cfg, Do(me, cfg, w, acts[0]), acts[1..])
  }
}
