/** Liveness of the volume queue: a measure that every pass strictly decreases unless the volume it
    picked is waiting for something the design waits for without a clock. */
module QueueProgress {
  import opened Prelude
  import opened VolumeModel
  import opened VolumeStep
  import opened VolumeLaws
  import opened BackupPass
  import Names

  /** The waits that no clock ends: a closed admission gate (or a Job just undone by it), and a
      readable unfinished mover Job whose pod has started or whose pods cannot be listed. */
  predicate Excused(v: VolumeStatus, o: Observation) {
    match v.phase
    case Snapshotting =>
      && o.Reconstructed().Done? && o.ready.Ready?
      && (MoverSlot(o).Blocked?
          || (MoverSlot(o).Open? && o.creds.Done? && o.creation.Created? && o.quiesceAfter))
    case Uploading =>
      && o.job.JobFound? && !JobEnded(o.job.job, o.backoffLimit)
      && (o.pods.Unlisted? || AnyPodStarted(o.pods.pods))
    case _ => false
  }

  /** A mover Job is created before its volume enters Uploading, and carries its creation time. */
  predicate JobDated(v: VolumeStatus, o: Observation) {
    v.phase.Uploading? && o.job.JobFound? ==>
      && o.job.job.createdAt.Some?
      && (v.phaseEnteredAt.Some? ==> o.job.job.createdAt.value <= v.phaseEnteredAt.value)
  }

  // ---- The measure ----

  /** How many passes, gap seconds apart, fit into x seconds. */
  function Slots(x: int, gap: int): nat
    requires gap > 0
  {
    if x < gap then 0 else 1 + Slots(x - gap, gap)
  }

  lemma {:induction false} SlotsMonotone(x: int, y: int, gap: int)
    requires gap > 0 && x <= y
    ensures Slots(x, gap) <= Slots(y, gap)
    decreases if y < 0 then 0 else y
  {
    if x >= gap { SlotsMonotone(x - gap, y - gap, gap); }
  }

  function UploadTop(cfg: Config, gap: int): nat
    requires gap > 0
  {
    Slots(cfg.AdvanceBound(), gap) + 2
  }

  function Left(start: Option<int>, bound: int, t: int, gap: int): nat
    requires gap > 0
  {
    match start
    case None => Slots(bound, gap) + 2
    case Some(s) => Slots(s + bound - t, gap) + 1
  }

  /** How many unexcused picks this volume can still absorb after time t. */
  function Weight(cfg: Config, gap: int, v: VolumeStatus, t: int): nat
    requires gap > 0
  {
    match v.phase
    case Uploading => Left(v.phaseEnteredAt, cfg.AdvanceBound(), t, gap)
    case Snapshotting => Left(v.phaseEnteredAt, cfg.AdvanceBound(), t, gap) + UploadTop(cfg, gap)
    case Unset => Left(v.firstAttemptAt, cfg.PendingBound(), t, gap) + 2 * UploadTop(cfg, gap)
    case Pending => Left(v.firstAttemptAt, cfg.PendingBound(), t, gap) + 2 * UploadTop(cfg, gap)
    case _ => 0
  }

  /** The weight of a volume nobody has tried: the worst one. */
  function FreshWeight(cfg: Config, gap: int): nat
    requires gap > 0
  {
    Slots(cfg.PendingBound(), gap) + 2 + 2 * UploadTop(cfg, gap)
  }

  lemma WeightFallsWithTime(cfg: Config, gap: int, v: VolumeStatus, t: int, t': int)
    requires gap > 0 && t <= t'
    ensures Weight(cfg, gap, v, t') <= Weight(cfg, gap, v, t)
  {
    if v.phaseEnteredAt.Some? {
      SlotsMonotone(v.phaseEnteredAt.value + cfg.AdvanceBound() - t', v.phaseEnteredAt.value + cfg.AdvanceBound() - t, gap);
    }
    if v.firstAttemptAt.Some? {
      SlotsMonotone(v.firstAttemptAt.value + cfg.PendingBound() - t', v.firstAttemptAt.value + cfg.PendingBound() - t, gap);
    }
  }

  /** One later reading uses up a slot, or the clock has run out. */
  lemma LeftDrops(start: Option<int>, bound: int, t: int, t': int, start': int, gap: int)
    requires gap > 0 && t + gap <= t'
    requires start.Some? ==> start' == start.value && t + gap <= start' + bound
    requires start.None? ==> start' <= t'
    ensures Left(Some(start'), bound, t', gap) < Left(start, bound, t, gap)
  {
    if start.Some? {
      SlotsMonotone(start' + bound - t', start' + bound - t - gap, gap);
    } else {
      SlotsMonotone(start' + bound - t', bound, gap);
    }
  }

  predicate Timed(o: Observation, t: int, gap: int) {
    o.ClockMonotone() && t + gap <= o.entry
  }

  lemma WaitingProgress(cfg: Config, gap: int, v: VolumeStatus, o: Observation, t: int)
    requires gap > 0 && Timed(o, t, gap) && v.phase.IsWaiting()
    ensures Weight(cfg, gap, Drive(cfg, v, o).vol, o.stamped) < Weight(cfg, gap, v, t)
  {
    WaitingVolumeIsParkedOrJudged(cfg, v, o);
    WaitingStep(cfg, v, o);
    StepKeepsClock(cfg, v, o);
    var w := Drive(cfg, v, o).vol;
    if w.phase.IsWaiting() {
      FirstAttemptStamped(cfg, v, o);
      LeftDrops(v.firstAttemptAt, cfg.PendingBound(), t, o.stamped, w.firstAttemptAt.value, gap);
    } else if w.phase.Snapshotting? {
      assert w.phaseEnteredAt == Some(o.stamped);
    }
  }

  lemma FirstAttemptStamped(cfg: Config, v: VolumeStatus, o: Observation)
    requires v.phase.IsWaiting() && Drive(cfg, v, o).vol.phase.IsWaiting()
    ensures var w := Drive(cfg, v, o).vol;
      && w.firstAttemptAt == Some(if v.firstAttemptAt.Some? then v.firstAttemptAt.value else o.entry)
      && (v.firstAttemptAt.Some? ==> o.entry <= v.firstAttemptAt.value + cfg.PendingBound())
  {
  }

  /** A Snapshotting volume that stays without an excuse has its outer bound still ahead. */
  lemma SnapshottingStays(cfg: Config, v: VolumeStatus, o: Observation)
    requires v.phase.Snapshotting? && Drive(cfg, v, o).vol.phase.Snapshotting? && !Excused(v, o)
    ensures !BackstopDue(cfg, v, o.outer)
  {
  }

  lemma SnapshottingProgress(cfg: Config, gap: int, v: VolumeStatus, o: Observation, t: int)
    requires gap > 0 && Timed(o, t, gap) && v.phase.Snapshotting? && !Excused(v, o)
    ensures Weight(cfg, gap, Drive(cfg, v, o).vol, o.stamped) < Weight(cfg, gap, v, t)
  {
    SnapshottingStep(cfg, v, o);
    StepKeepsClock(cfg, v, o);
    var w := Drive(cfg, v, o).vol;
    if w.phase.Snapshotting? {
      SnapshottingStays(cfg, v, o);
      LeftDrops(v.phaseEnteredAt, cfg.AdvanceBound(), t, o.stamped, w.phaseEnteredAt.value, gap);
    } else if w.phase.Uploading? {
      assert w.phaseEnteredAt == Some(o.stamped);
    }
  }

  lemma UploadingProgress(cfg: Config, gap: int, v: VolumeStatus, o: Observation, t: int)
    requires gap > 0 && Timed(o, t, gap) && v.phase.Uploading? && !Excused(v, o) && JobDated(v, o)
    requires cfg.MoverStartBound() <= cfg.AdvanceBound()
    ensures Weight(cfg, gap, Drive(cfg, v, o).vol, o.stamped) < Weight(cfg, gap, v, t)
  {
    UploadingStep(cfg, v, o);
    StepKeepsClock(cfg, v, o);
    UploadFailsExactly(cfg, v, o);
    var w := Drive(cfg, v, o).vol;
    if w.phase.Uploading? {
      LeftDrops(v.phaseEnteredAt, cfg.AdvanceBound(), t, o.stamped, w.phaseEnteredAt.value, gap);
    }
  }

  /** An unexcused pick makes progress, whatever is answered. */
  lemma PickedProgress(cfg: Config, gap: int, v: VolumeStatus, o: Observation, t: int)
    requires gap > 0 && Timed(o, t, gap) && !v.phase.IsTerminal() && JobDated(v, o)
    requires cfg.MoverStartBound() <= cfg.AdvanceBound()
    ensures Weight(cfg, gap, Drive(cfg, v, o).vol, o.stamped) + (if Excused(v, o) then 0 else 1) <= Weight(cfg, gap, v, t)
  {
    if Excused(v, o) {
      ExcusedStays(cfg, v, o);
      var w := Drive(cfg, v, o).vol;
      if v.phaseEnteredAt.Some? {
        WeightFallsWithTime(cfg, gap, v, t, o.stamped);
      }
    } else {
      match v.phase {
        case Snapshotting => SnapshottingProgress(cfg, gap, v, o, t);
        case Uploading => UploadingProgress(cfg, gap, v, o, t);
        case _ => WaitingProgress(cfg, gap, v, o, t);
      }
    }
  }

  lemma ExcusedStays(cfg: Config, v: VolumeStatus, o: Observation)
    requires Excused(v, o)
    ensures Drive(cfg, v, o).vol == Stamp(v, v.phase, o.stamped)
  {
    if v.phase.Uploading? {
      assert AdvanceUploading(cfg, v, o) == Step(v, false, None, []);
    } else {
      assert AdvanceSnapshotting(cfg, v, o).vol == v && AdvanceSnapshotting(cfg, v, o).error.None?;
    }
  }

  // ---- The whole queue ----

  function Total(cfg: Config, gap: int, vols: seq<VolumeStatus>, t: int): nat
    requires gap > 0
  {
    if vols == [] then 0 else Weight(cfg, gap, vols[0], t) + Total(cfg, gap, vols[1..], t)
  }

  lemma {:induction false} TotalAppend(cfg: Config, gap: int, a: seq<VolumeStatus>, b: seq<VolumeStatus>, t: int)
    requires gap > 0
    ensures Total(cfg, gap, a + b, t) == Total(cfg, gap, a, t) + Total(cfg, gap, b, t)
  {
    if a == [] {
      assert a + b == b;
    } else {
      assert (a + b)[1..] == a[1..] + b;
      TotalAppend(cfg, gap, a[1..], b, t);
    }
  }

  lemma {:induction false} TotalUpdate(cfg: Config, gap: int, vols: seq<VolumeStatus>, i: nat, w: VolumeStatus, t: int)
    requires gap > 0 && i < |vols|
    ensures Total(cfg, gap, vols[i := w], t) + Weight(cfg, gap, vols[i], t) == Total(cfg, gap, vols, t) + Weight(cfg, gap, w, t)
  {
    if i == 0 {
      assert vols[i := w][1..] == vols[1..];
    } else {
      assert vols[i := w][1..] == vols[1..][i - 1 := w];
      TotalUpdate(cfg, gap, vols[1..], i - 1, w, t);
    }
  }

  lemma {:induction false} TotalFallsWithTime(cfg: Config, gap: int, vols: seq<VolumeStatus>, t: int, t': int)
    requires gap > 0 && t <= t'
    ensures Total(cfg, gap, vols, t') <= Total(cfg, gap, vols, t)
  {
    if vols != [] {
      WeightFallsWithTime(cfg, gap, vols[0], t, t');
      TotalFallsWithTime(cfg, gap, vols[1..], t, t');
    }
  }

  lemma {:induction false} TotalFresh(cfg: Config, gap: int, names: seq<string>, t: int)
    requires gap > 0
    ensures Total(cfg, gap, EnumeratedAll(names), t) == |names| * FreshWeight(cfg, gap)
  {
    if names != [] {
      assert EnumeratedAll(names)[1..] == EnumeratedAll(names[1..]);
      TotalFresh(cfg, gap, names[1..], t);
    }
  }

  ghost function TrackedSet(vols: seq<VolumeStatus>): set<string> {
    set v | v in vols :: v.pvc
  }

  /** The measure: what the tracked volumes can still absorb, and a fresh weight for every PVC of the
      finite universe that is not tracked yet. */
  ghost function Measure(cfg: Config, gap: int, universe: set<string>, vols: seq<VolumeStatus>, t: int): nat
    requires gap > 0
  {
    Total(cfg, gap, vols, t) + |universe - TrackedSet(vols)| * FreshWeight(cfg, gap)
  }

  lemma {:induction false} SetOfDistinct(names: seq<string>)
    requires Names.Distinct(names)
    ensures |set n | n in names| == |names|
  {
    if names != [] {
      SetOfDistinct(names[1..]);
      assert (set n | n in names) == {names[0]} + set n | n in names[1..];
    }
  }

  lemma TrackedAfterEnumeration(vols: seq<VolumeStatus>, ms: seq<string>)
    ensures TrackedSet(vols + EnumeratedAll(ms)) == TrackedSet(vols) + set n | n in ms
  {
    var r := vols + EnumeratedAll(ms);
    forall n | n in ms ensures n in TrackedSet(r) {
      var k :| 0 <= k < |ms| && ms[k] == n;
      assert EnumeratedAll(ms)[k] in r;
    }
    forall n | n in TrackedSet(r) ensures n in TrackedSet(vols) || n in ms {
      var k :| 0 <= k < |r| && r[k].pvc == n;
      if k < |vols| { assert vols[k] in vols; } else { assert ms[k - |vols|] == n; }
    }
  }

  lemma UntrackedShrinks(universe: set<string>, vols: seq<VolumeStatus>, ms: seq<string>)
    requires Names.Distinct(ms)
    requires forall n <- ms :: n in universe && n !in TrackedSet(vols)
    ensures |universe - TrackedSet(vols)| == |universe - TrackedSet(vols + EnumeratedAll(ms))| + |ms|
  {
    SetOfDistinct(ms);
    var added := set n | n in ms;
    TrackedAfterEnumeration(vols, ms);
    var before, after := universe - TrackedSet(vols), universe - TrackedSet(vols + EnumeratedAll(ms));
    assert before == after + added && after !! added;
  }

  lemma MissingFacts(universe: set<string>, vols: seq<VolumeStatus>, names: seq<string>)
    requires Names.Distinct(names) && forall n <- names :: n in universe
    ensures var ms := Missing(vols, Names.Sort(names));
      Names.Distinct(ms) && forall n <- ms :: n in universe && n !in TrackedSet(vols)
  {
    Names.SortDistinct(names);
    var sorted := Names.Sort(names);
    MissingDistinct(vols, sorted);
    forall n | n in Missing(vols, sorted) ensures n in universe && n !in TrackedSet(vols) {
      MissingExactly(vols, sorted, n);
    }
  }

  /** Enumerating moves weight from the untracked side to the tracked side and creates none. */
  lemma EnumerationKeepsMeasure(cfg: Config, gap: int, universe: set<string>, vols: seq<VolumeStatus>,
                                names: seq<string>, t: int)
    requires gap > 0 && Names.Distinct(names) && forall n <- names :: n in universe
    ensures Measure(cfg, gap, universe, EnsureVolumes(vols, names), t) == Measure(cfg, gap, universe, vols, t)
  {
    var ms := Missing(vols, Names.Sort(names));
    MissingFacts(universe, vols, names);
    MovesWeight(cfg, gap, universe, vols, ms, t);
  }

  lemma MovesWeight(cfg: Config, gap: int, universe: set<string>, vols: seq<VolumeStatus>, ms: seq<string>, t: int)
    requires gap > 0 && Names.Distinct(ms)
    requires forall n <- ms :: n in universe && n !in TrackedSet(vols)
    ensures Measure(cfg, gap, universe, vols + EnumeratedAll(ms), t) == Measure(cfg, gap, universe, vols, t)
  {
    UntrackedShrinks(universe, vols, ms);
    TotalAppend(cfg, gap, vols, EnumeratedAll(ms), t);
    TotalFresh(cfg, gap, ms, t);
    Distribute(|universe - TrackedSet(vols + EnumeratedAll(ms))|, |ms|, FreshWeight(cfg, gap));
  }

  lemma Distribute(a: nat, b: nat, c: nat)
    ensures (a + b) * c == a * c + b * c
  {
  }

  // ---- Runs of passes ----

  datatype PassInput = PassInput(names: seq<string>, o: Observation)

  function Enumerate(vols: seq<VolumeStatus>, p: PassInput): seq<VolumeStatus> {
    EnsureVolumes(vols, p.names)
  }

  function Pass(cfg: Config, vols: seq<VolumeStatus>, p: PassInput): seq<VolumeStatus> {
    DriveVolumes(cfg, Enumerate(vols, p), p.o).volumes
  }

  predicate AllTerminal(vols: seq<VolumeStatus>) { forall v <- vols :: v.phase.IsTerminal() }

  /** The volume this pass picks, if any. */
  function Picked(vols: seq<VolumeStatus>, p: PassInput): Option<VolumeStatus> {
    match Pick(Enumerate(vols, p))
    case None => None
    case Some(i) => PickDefersParked(Enumerate(vols, p)); Some(Enumerate(vols, p)[i])
  }

  /** The environment's side of the bargain along a run that persists every pass: listings stay
      inside a finite universe of PVCs, passes are gap seconds apart on a monotone clock, and a
      mover Job carries a creation time no later than its volume's entry into Uploading. */
  predicate FairRun(cfg: Config, gap: int, universe: set<string>, vols: seq<VolumeStatus>, t: int, ps: seq<PassInput>)
    decreases |ps|
  {
    ps == [] ||
    (&& Names.Distinct(ps[0].names) && (forall n <- ps[0].names :: n in universe)
     && Timed(ps[0].o, t, gap)
     && (Picked(vols, ps[0]).Some? ==> JobDated(Picked(vols, ps[0]).value, ps[0].o))
     && FairRun(cfg, gap, universe, Pass(cfg, vols, ps[0]), ps[0].o.stamped, ps[1..]))
  }

  /** How many passes of the run were spent on an excused wait. */
  function ExcusedPasses(cfg: Config, vols: seq<VolumeStatus>, ps: seq<PassInput>): nat
    decreases |ps|
  {
    if ps == [] then 0
    else
      (if Picked(vols, ps[0]).Some? && Excused(Picked(vols, ps[0]).value, ps[0].o) then 1 else 0)
      + ExcusedPasses(cfg, Pass(cfg, vols, ps[0]), ps[1..])
  }

  /** Every pass of the run still found an unfinished volume. */
  predicate NeverDone(cfg: Config, vols: seq<VolumeStatus>, ps: seq<PassInput>)
    decreases |ps|
  {
    ps == [] || (Picked(vols, ps[0]).Some? && NeverDone(cfg, Pass(cfg, vols, ps[0]), ps[1..]))
  }

  lemma PassDecreases(cfg: Config, gap: int, universe: set<string>, vols: seq<VolumeStatus>, t: int, p: PassInput)
    requires gap > 0 && cfg.MoverStartBound() <= cfg.AdvanceBound()
    requires Names.Distinct(p.names) && (forall n <- p.names :: n in universe) && Timed(p.o, t, gap)
    requires Picked(vols, p).Some? && JobDated(Picked(vols, p).value, p.o)
    ensures Measure(cfg, gap, universe, Pass(cfg, vols, p), p.o.stamped)
            + (if Excused(Picked(vols, p).value, p.o) then 0 else 1) <= Measure(cfg, gap, universe, vols, t)
  {
    var es := Enumerate(vols, p);
    EnumerationKeepsMeasure(cfg, gap, universe, vols, p.names, t);
    PickDefersParked(es);
    var i := Pick(es).value;
    var w := Drive(cfg, es[i], p.o).vol;
    StepKeepsLifecycle(cfg, es[i], p.o);
    PickedProgress(cfg, gap, es[i], p.o, t);
    TotalUpdate(cfg, gap, es, i, w, p.o.stamped);
    RestFalls(cfg, gap, es, i, t, p.o.stamped);
    TrackedUpdate(es, i, w);
  }

  lemma {:induction false} RestFalls(cfg: Config, gap: int, vols: seq<VolumeStatus>, i: nat, t: int, t': int)
    requires gap > 0 && t <= t' && i < |vols|
    ensures Total(cfg, gap, vols, t') - Weight(cfg, gap, vols[i], t') <= Total(cfg, gap, vols, t) - Weight(cfg, gap, vols[i], t)
  {
    if i == 0 {
      TotalFallsWithTime(cfg, gap, vols[1..], t, t');
    } else {
      WeightFallsWithTime(cfg, gap, vols[0], t, t');
      RestFalls(cfg, gap, vols[1..], i - 1, t, t');
    }
  }

  lemma TrackedUpdate(vols: seq<VolumeStatus>, i: nat, w: VolumeStatus)
    requires i < |vols| && w.pvc == vols[i].pvc
    ensures TrackedSet(vols[i := w]) == TrackedSet(vols)
  {
    var us := vols[i := w];
    forall n | n in TrackedSet(vols) ensures n in TrackedSet(us) {
      var k :| 0 <= k < |vols| && vols[k].pvc == n;
      assert us[k] in us && us[k].pvc == n;
    }
    forall n | n in TrackedSet(us) ensures n in TrackedSet(vols) {
      var k :| 0 <= k < |us| && us[k].pvc == n;
      assert vols[k] in vols && vols[k].pvc == n;
    }
  }

  /** A run that never finishes is no longer than the measure it started with plus the passes the
      environment kept it waiting for. */
  lemma {:induction false} UnfinishedRunsAreShort(cfg: Config, gap: int, universe: set<string>, vols: seq<VolumeStatus>,
                                                  t: int, ps: seq<PassInput>)
    requires gap > 0 && cfg.MoverStartBound() <= cfg.AdvanceBound()
    requires FairRun(cfg, gap, universe, vols, t, ps) && NeverDone(cfg, vols, ps)
    ensures |ps| <= Measure(cfg, gap, universe, vols, t) + ExcusedPasses(cfg, vols, ps)
    decreases |ps|
  {
    if ps != [] {
      PassDecreases(cfg, gap, universe, vols, t, ps[0]);
      UnfinishedRunsAreShort(cfg, gap, universe, Pass(cfg, vols, ps[0]), ps[0].o.stamped, ps[1..]);
    }
  }

  function RunPasses(cfg: Config, vols: seq<VolumeStatus>, ps: seq<PassInput>): seq<VolumeStatus>
    decreases |ps|
  {
    if ps == [] then vols else RunPasses(cfg, Pass(cfg, vols, ps[0]), ps[1..])
  }

  lemma {:induction false} FirstDone(cfg: Config, vols: seq<VolumeStatus>, ps: seq<PassInput>) returns (k: nat)
    requires !NeverDone(cfg, vols, ps)
    ensures k < |ps| && AllTerminal(Enumerate(RunPasses(cfg, vols, ps[..k]), ps[k]))
    decreases |ps|
  {
    if Picked(vols, ps[0]).None? {
      k := 0;
      PickDefersParked(Enumerate(vols, ps[0]));
    } else {
      var j := FirstDone(cfg, Pass(cfg, vols, ps[0]), ps[1..]);
      k := j + 1;
      assert ps[..k][1..] == ps[1..][..j];
    }
  }

  /** Queue liveness: starting from nothing, over a finite universe of PVCs, any run longer than one
      fresh weight per PVC plus its excused passes reaches a pass that finds every volume terminal —
      whatever exposers, Jobs, pods and clocks answered. */
  lemma EveryVolumeEnds(cfg: Config, gap: int, universe: set<string>, t: int, ps: seq<PassInput>) returns (k: nat)
    requires gap > 0 && cfg.MoverStartBound() <= cfg.AdvanceBound()
    requires FairRun(cfg, gap, universe, [], t, ps)
    requires |ps| > |universe| * FreshWeight(cfg, gap) + ExcusedPasses(cfg, [], ps)
    ensures k < |ps| && AllTerminal(Enumerate(RunPasses(cfg, [], ps[..k]), ps[k]))
  {
    if NeverDone(cfg, [], ps) {
      NothingTracked(universe);
      UnfinishedRunsAreShort(cfg, gap, universe, [], t, ps);
      assert false;
    }
    k := FirstDone(cfg, [], ps);
  }

  lemma NothingTracked(universe: set<string>)
    ensures universe - TrackedSet([]) == universe
  {
  }

  /** With the built-in bounds and the five-second poll, one fresh volume absorbs at most 6486
      unexcused picks. */
  lemma BuiltInWeight()
    ensures FreshWeight(Config(0, 0, 0), 5) == 6486
  {
    SlotsOfFive(ADVANCE_RETRY_DEADLINE);
    SlotsOfFive(PENDING_RESOLVE_DEADLINE);
  }

  lemma {:induction false} SlotsOfFive(x: int)
    requires x >= 0
    ensures Slots(x, 5) == x / 5
    decreases x
  {
    if x >= 5 { SlotsOfFive(x - 5); }
  }
}
