/** Runs of one Backup of one PVC that leave an exposure behind. */
module ResidueRuns {
  import opened Prelude
  import opened VolumeModel
  import opened VolumeStep
  import opened BackupPass
  import opened Reconciliation
  import Names

  const SHOP := Identity("shop", "nightly", "")
  const BUILT_IN := Config(0, 0, 0)
  const BEFORE := World(0, Status(NoPhase, [], None, None), false, false, {}, {}, {}, false, Idle, 0, 0, false, false)
  const EXPOSES := Observation(0, 0, 0, 0, Found, Resolved, Passed, Done, [OriginSnapshot], NotReady, Unknown,
                               NotFound, false, 0, Counted(0), Done, Created, false, JobMissing, Unlisted, 0,
                               Unreported(true), "", "")
  const HALF := EXPOSES.(exposed := Broke("quota"))
  const CANNOT := EXPOSES.(resolution := Unsupported)
  const LEFT_BEHIND := Residue(OriginSnapshot, "", ExposureLabels(SHOP, "data"))

  /** One pass over the PVC; cut: it was killed after so many writes. */
  function PassOf(o: Observation, cut: Option<nat>): Action { Advance(["data"], o, true, false, 0, 0, cut, true) }

  // ---- Building runs ----

  predicate Runs(w: World, acts: seq<Action>, z: World) {
    ValidRun(SHOP, BUILT_IN, w, acts) && Exec(SHOP, BUILT_IN, w, acts) == z
  }

  lemma Then(w: World, acts: seq<Action>, u: World, a: Action)
    requires Runs(w, acts, u) && Enabled(SHOP, BUILT_IN, u, a)
    ensures Runs(w, acts + [a], Do(SHOP, BUILT_IN, u, a))
    decreases |acts|
  {
    if acts == [] {
      assert acts + [a] == [a] && [a][1..] == [];
    } else {
      assert (acts + [a])[1..] == acts[1..] + [a];
      Then(Do(SHOP, BUILT_IN, w, acts[0]), acts[1..], u, a);
    }
  }

  lemma Nothing(w: World)
    ensures Runs(w, [], w)
  {
  }

  // ---- The passes ----

  lemma OneVolume()
    ensures EnsureVolumes([], ["data"]) == [Enumerated("data")]
    ensures Pick([Enumerated("data")]) == Some(0)
  {
    assert Names.Sort(["data"]) == ["data"];
    assert Missing([], ["data"]) == ["data"];
  }

  /** What a first pass drives: the one volume, and the snapshot it makes. */
  lemma FirstPassWork(o: Observation)
    requires o == EXPOSES || o == HALF
    ensures var d := PassWork(BUILT_IN, BEFORE.status, ["data"], o);
      && d.effects == [Made(OriginSnapshot)] && DrivenPvc(d) == "data" && d.teardown.None?
      && d.volumes == [AdvanceVolume(BUILT_IN, Enumerated("data"), o).vol]
  {
    OneVolume();
    var d := PassWork(BUILT_IN, BEFORE.status, ["data"], o);
    assert MadeAll(o.made) == [Made(OriginSnapshot)];
    assert d.volumes == [Enumerated("data")][0 := d.volumes[0]];
  }

  /** A first pass over the PVC, killed after its one write or not: the snapshot is made, and a pass that
      lives goes on to write the volume down. */
  lemma FirstPass(o: Observation, cut: Option<nat>)
    requires (o == EXPOSES || o == HALF) && (cut == None || cut == Some(1))
    ensures Enabled(SHOP, BUILT_IN, BEFORE, PassOf(o, cut))
    ensures var u := Do(SHOP, BUILT_IN, BEFORE, PassOf(o, cut));
      && u == BEFORE.(objects := u.objects, proc := u.proc) && LEFT_BEHIND in u.objects
      && (cut.Some? ==> u.proc.Idle?)
      && (cut.None? ==> u.proc == Writing(FirstWrite(o), None))
  {
    FirstPassWork(o);
    var d := PassWork(BUILT_IN, BEFORE.status, ["data"], o);
    assert Reached(d.effects, cut) == d.effects;
    assert Made(OriginSnapshot) in d.effects;
    JobsUntouched(BEFORE.jobs);
  }

  /** What a first pass writes down. */
  function FirstWrite(o: Observation): Write {
    var vols := [AdvanceVolume(BUILT_IN, Enumerated("data"), o).vol];
    Write(0, BEFORE.status, Settle(BEFORE.status.(volumes := vols), true, false, 0, 0), false)
  }

  lemma FirstWriteIsOpen(o: Observation)
    requires o == EXPOSES || o == HALF
    ensures var t := FirstWrite(o).to;
      && t.volumes == [AdvanceVolume(BUILT_IN, Enumerated("data"), o).vol]
      && !t.phase.IsTerminal() && t.backupTime.None?
  {
    var v := AdvanceVolume(BUILT_IN, Enumerated("data"), o).vol;
    assert !v.phase.IsTerminal();
    assert v in [v];
    RollUpTerminalExactly([v]);
  }

  lemma JobsUntouched(jobs: set<string>)
    ensures JobsAfter(jobs, "data", [Made(OriginSnapshot)], true) == jobs
  {
    assert [Made(OriginSnapshot)][..0] == [];
  }

  /** The one volume is not known yet, or known and waiting. */
  predicate StillWaiting(vols: seq<VolumeStatus>) {
    vols == [] || (|vols| == 1 && vols[0].pvc == "data" && vols[0].phase.Pending? && vols[0].firstAttemptAt == Some(0))
  }

  lemma OneWaiting(vols: seq<VolumeStatus>)
    requires StillWaiting(vols)
    ensures var es := EnsureVolumes(vols, ["data"]);
      && |es| == 1 && es[0].pvc == "data" && es[0].phase.Pending? && Pick(es) == Some(0)
      && (es[0].firstAttemptAt.None? || es[0].firstAttemptAt == Some(0))
  {
    if vols == [] {
      OneVolume();
    } else {
      assert Names.Sort(["data"]) == ["data"];
      assert vols[0] in vols;
      assert Missing(vols, ["data"]) == [];
      assert EnsureVolumes(vols, ["data"]) == vols;
    }
  }

  /** A later pass over the one volume, still waiting, that finds its storage unsupported. */
  lemma SkippingWork(st: Status)
    requires StillWaiting(st.volumes)
    ensures var d := PassWork(BUILT_IN, st, ["data"], CANNOT);
      && d.effects == [] && d.teardown.None? && |d.volumes| == 1 && d.volumes[0].phase.Skipped?
      && d.volumes[0].pvc == "data"
  {
    OneWaiting(st.volumes);
  }

  lemma AllSkipped(vols: seq<VolumeStatus>)
    requires |vols| == 1 && vols[0].phase.Skipped?
    ensures RollUp(vols) == CompletedPhase
  {
  }

  /** The pass that skips the volume, its write, and the end of the pass. */
  lemma SkippingPass(w: World)
    requires w.proc.Idle? && !w.deleting && !w.status.phase.IsTerminal() && w.status.backupTime.None?
    requires StillWaiting(w.status.volumes)
    ensures Enabled(SHOP, BUILT_IN, w, PassOf(CANNOT, None))
    ensures var u := Do(SHOP, BUILT_IN, w, PassOf(CANNOT, None));
      && Enabled(SHOP, BUILT_IN, u, WriteOk)
      && (var v := Do(SHOP, BUILT_IN, u, WriteOk);
          && v.proc.Closing? && v.objects == w.objects && v.deleting == w.deleting && v.released == w.released
          && v.status.phase.CompletedPhase? && |v.status.volumes| == 1 && v.status.volumes[0].phase.Skipped?
          && v.status.volumes[0].pvc == "data")
  {
    SkippingWork(w.status);
    AllSkipped(PassWork(BUILT_IN, w.status, ["data"], CANNOT).volumes);
    assert JobsAfter(w.jobs, "data", [], true) == w.jobs;
  }

  /** The stored volume is Skipped and the snapshot is there. */
  predicate SkippedAndExposed(w: World) {
    && w.status.phase.CompletedPhase? && |w.status.volumes| == 1 && w.status.volumes[0].pvc == "data"
    && w.status.volumes[0].phase.Skipped? && LEFT_BEHIND in w.objects
  }

  lemma ThenSkip(acts: seq<Action>, w: World)
    requires Runs(BEFORE, acts, w) && LEFT_BEHIND in w.objects
    requires w.proc.Idle? && !w.deleting && !w.released && !w.status.phase.IsTerminal() && w.status.backupTime.None?
    requires StillWaiting(w.status.volumes)
    ensures var run := acts + [PassOf(CANNOT, None)] + [WriteOk] + [Close(false)];
      && ValidRun(SHOP, BUILT_IN, BEFORE, run)
      && (var z := Exec(SHOP, BUILT_IN, BEFORE, run); SkippedAndExposed(z) && z.proc.Idle? && !z.deleting && !z.released)
  {
    SkippingPass(w);
    var u := Do(SHOP, BUILT_IN, w, PassOf(CANNOT, None));
    var v := Do(SHOP, BUILT_IN, u, WriteOk);
    Then(BEFORE, acts, w, PassOf(CANNOT, None));
    Then(BEFORE, acts + [PassOf(CANNOT, None)], u, WriteOk);
    Then(BEFORE, acts + [PassOf(CANNOT, None)] + [WriteOk], v, Close(false));
  }

  /** Three ways to it: the pass that exposed the volume was killed before its write, its write was
      refused, or Expose broke half way and the volume was parked. */
  function Beginning(k: nat): seq<Action>
    requires k < 3
  {
    if k == 0 then [PassOf(EXPOSES, Some(1))]
    else if k == 1 then [PassOf(EXPOSES, None)] + [WriteRejected]
    else [PassOf(HALF, None)] + [WriteOk] + [Close(false)]
  }

  lemma KilledPass()
    ensures Runs(BEFORE, Beginning(0), Do(SHOP, BUILT_IN, BEFORE, PassOf(EXPOSES, Some(1))))
    ensures Enabled(SHOP, BUILT_IN, BEFORE, PassOf(EXPOSES, Some(1)))
  {
    FirstPass(EXPOSES, Some(1));
    Nothing(BEFORE);
    Then(BEFORE, [], BEFORE, PassOf(EXPOSES, Some(1)));
    assert [] + Beginning(0) == Beginning(0);
  }

  lemma SkippedVolumeMayBeExposed(k: nat)
    requires k < 3
    ensures Initial(BEFORE) && BEFORE.objects == {}
    ensures var run := Beginning(k) + [PassOf(CANNOT, None)] + [WriteOk] + [Close(false)];
      ValidRun(SHOP, BUILT_IN, BEFORE, run) && SkippedAndExposed(Exec(SHOP, BUILT_IN, BEFORE, run))
      && Exec(SHOP, BUILT_IN, BEFORE, run).proc.Idle? && !Exec(SHOP, BUILT_IN, BEFORE, run).released
  {
    Nothing(BEFORE);
    if k == 0 {
      KilledPass();
      FirstPass(EXPOSES, Some(1));
      ThenSkip(Beginning(0), Do(SHOP, BUILT_IN, BEFORE, PassOf(EXPOSES, Some(1))));
    } else if k == 1 {
      var a := PassOf(EXPOSES, None);
      FirstPass(EXPOSES, None);
      var u := Do(SHOP, BUILT_IN, BEFORE, a);
      Then(BEFORE, [], BEFORE, a);
      assert [] + [a] == [a];
      Then(BEFORE, [a], u, WriteRejected);
      ThenSkip(Beginning(1), Do(SHOP, BUILT_IN, u, WriteRejected));
    } else {
      HalfExposed();
    }
  }

  lemma HalfExposed()
    ensures var run := Beginning(2) + [PassOf(CANNOT, None)] + [WriteOk] + [Close(false)];
      ValidRun(SHOP, BUILT_IN, BEFORE, run) && SkippedAndExposed(Exec(SHOP, BUILT_IN, BEFORE, run))
      && Exec(SHOP, BUILT_IN, BEFORE, run).proc.Idle? && !Exec(SHOP, BUILT_IN, BEFORE, run).released
  {
    WrittenPass(HALF);
    FirstWriteIsOpen(HALF);
    HalfVolume();
    ThenSkip(Beginning(2), Exec(SHOP, BUILT_IN, BEFORE, Beginning(2)));
  }

  /** A first pass that was not disturbed. */
  lemma WrittenPass(o: Observation)
    requires o == EXPOSES || o == HALF
    ensures var run := [PassOf(o, None)] + [WriteOk] + [Close(false)];
      && ValidRun(SHOP, BUILT_IN, BEFORE, run)
      && (var z := Exec(SHOP, BUILT_IN, BEFORE, run);
          && z.proc.Idle? && !z.released && !z.deleting && LEFT_BEHIND in z.objects && z.status == FirstWrite(o).to)
  {
    var a := PassOf(o, None);
    FirstPass(o, None);
    Nothing(BEFORE);
    var u := Do(SHOP, BUILT_IN, BEFORE, a);
    Then(BEFORE, [], BEFORE, a);
    assert [] + [a] == [a];
    WrittenDown(u, o);
    var v := Do(SHOP, BUILT_IN, u, WriteOk);
    Then(BEFORE, [a], u, WriteOk);
    Then(BEFORE, [a] + [WriteOk], v, Close(false));
  }

  lemma WrittenDown(u: World, o: Observation)
    requires u.proc == Writing(FirstWrite(o), None) && u.rv == 0 && !u.deleting && !u.released
    ensures Enabled(SHOP, BUILT_IN, u, WriteOk)
    ensures var v := Do(SHOP, BUILT_IN, u, WriteOk);
      && Enabled(SHOP, BUILT_IN, v, Close(false))
      && (var z := Do(SHOP, BUILT_IN, v, Close(false));
          z.proc.Idle? && !z.released && !z.deleting && z.objects == u.objects && z.status == FirstWrite(o).to)
  {
  }

  lemma HalfVolume()
    ensures var v := AdvanceVolume(BUILT_IN, Enumerated("data"), HALF).vol;
      v.pvc == "data" && v.phase.Pending? && v.firstAttemptAt == Some(0)
  {
  }

  // ---- Deletions ----

  lemma Compose(w: World, a: seq<Action>, b: seq<Action>)
    requires ValidRun(SHOP, BUILT_IN, w, a) && ValidRun(SHOP, BUILT_IN, Exec(SHOP, BUILT_IN, w, a), b)
    ensures ValidRun(SHOP, BUILT_IN, w, a + b)
    ensures Exec(SHOP, BUILT_IN, w, a + b) == Exec(SHOP, BUILT_IN, Exec(SHOP, BUILT_IN, w, a), b)
    decreases |a|
  {
    if a == [] {
      assert a + b == b;
    } else {
      assert (a + b)[1..] == a[1..] + b;
      Compose(Do(SHOP, BUILT_IN, w, a[0]), a[1..], b);
    }
  }

  /** The clean-up of at most one volume: it answers success, and nothing goes. */
  function CleanUp(vols: seq<VolumeStatus>): seq<Action> {
    if vols == [] then []
    else if vols[0].phase.Skipped? then [Finalize(Clean({}, true))]
    else [Finalize(Clean({}, true))] + [Finalize(DropFinalJob(true))]
  }

  /** The Backup is deleted, and a pass cleans so and drops the finalizer. */
  function Deletion(vols: seq<VolumeStatus>): seq<Action> {
    BEGUN + CleanUp(vols) + [Finalize(End)] + [Finalize(Release(true))]
  }

  const BEGUN := [Finalize(Delete)] + [Finalize(Begin)]

  lemma Begun(w: World)
    requires w.proc.Idle? && !w.released
    ensures var u := Exec(SHOP, BUILT_IN, w, BEGUN);
      && ValidRun(SHOP, BUILT_IN, w, BEGUN)
      && u.proc == Finalizing(FinalPoint(w.status.volumes, w.rv + 1, Cleaning(0, true), {}))
      && u.rv == w.rv + 1 && u.objects == w.objects && !u.released
  {
    Nothing(w);
    var w1 := Do(SHOP, BUILT_IN, w, Finalize(Delete));
    Then(w, [], w, Finalize(Delete));
    assert [] + [Finalize(Delete)] == [Finalize(Delete)];
    Then(w, [Finalize(Delete)], w1, Finalize(Begin));
  }

  /** The one volume of a pass is cleaned: skipped, or answered with success and nothing gone. */
  lemma CleanedFirst(w: World, u: World)
    requires Runs(w, BEGUN, u) && u.proc.Finalizing? && |u.proc.at.vols| == 1
    requires u.proc.at == FinalPoint(u.proc.at.vols, u.rv, Cleaning(0, true), {}) && u.objects == w.objects
    ensures var vols := u.proc.at.vols; var run := BEGUN + CleanUp(vols);
      && ValidRun(SHOP, BUILT_IN, w, run)
      && (var z := Exec(SHOP, BUILT_IN, w, run);
          && z.proc.Finalizing? && z.proc.at.stage == Cleaning(1, true) && z.proc.at.vols == vols
          && z.proc.at.seen == z.rv && z.objects == w.objects)
  {
    var c := Finalize(Clean({}, true));
    var v := Do(SHOP, BUILT_IN, u, c);
    Then(w, BEGUN, u, c);
    if !u.proc.at.vols[0].phase.Skipped? {
      Then(w, BEGUN + [c], v, Finalize(DropFinalJob(true)));
      assert BEGUN + ([c] + [Finalize(DropFinalJob(true))]) == BEGUN + [c] + [Finalize(DropFinalJob(true))];
    }
  }

  lemma DeletionRuns(w: World)
    requires w.proc.Idle? && !w.released && |w.status.volumes| <= 1
    ensures ValidRun(SHOP, BUILT_IN, w, Deletion(w.status.volumes))
    ensures var z := Exec(SHOP, BUILT_IN, w, Deletion(w.status.volumes)); z.released && z.objects == w.objects
  {
    Begun(w);
    var vols := w.status.volumes;
    var u := Exec(SHOP, BUILT_IN, w, BEGUN);
    if vols == [] {
      assert BEGUN + CleanUp(vols) == BEGUN;
      EndOfPass(w, BEGUN, u);
    } else {
      CleanedFirst(w, u);
      EndOfPass(w, BEGUN + CleanUp(vols), Exec(SHOP, BUILT_IN, w, BEGUN + CleanUp(vols)));
    }
  }

  lemma EndOfPass(w: World, acts: seq<Action>, u: World)
    requires Runs(w, acts, u) && u.proc.Finalizing? && u.proc.at.stage == Cleaning(|u.proc.at.vols|, true)
    requires u.proc.at.seen == u.rv && u.objects == w.objects
    ensures ValidRun(SHOP, BUILT_IN, w, acts + [Finalize(End)] + [Finalize(Release(true))])
    ensures var z := Exec(SHOP, BUILT_IN, w, acts + [Finalize(End)] + [Finalize(Release(true))]);
      z.released && z.objects == w.objects
  {
    var v := Do(SHOP, BUILT_IN, u, Finalize(End));
    Then(w, acts, u, Finalize(End));
    Then(w, acts + [Finalize(End)], v, Finalize(Release(true)));
  }

  /** Three Backups about to be deleted: its volume Skipped, its first pass killed before the volume was
      ever stored, and its volume in flight. */
  function Life(k: nat): seq<Action>
    requires k < 3
  {
    if k == 0 then Beginning(0) + [PassOf(CANNOT, None)] + [WriteOk] + [Close(false)]
    else if k == 1 then Beginning(0)
    else [PassOf(EXPOSES, None)] + [WriteOk] + [Close(false)]
  }

  lemma LifeRuns(k: nat)
    requires k < 3
    ensures ValidRun(SHOP, BUILT_IN, BEFORE, Life(k))
    ensures var w := Exec(SHOP, BUILT_IN, BEFORE, Life(k));
      && w.proc.Idle? && !w.released && LEFT_BEHIND in w.objects && |w.status.volumes| <= 1
      && (k == 0 ==> w.status.volumes != [] && w.status.volumes[0].phase.Skipped?)
      && (k == 1 ==> w.status.volumes == [])
      && (k == 2 ==> w.status.volumes != [] && w.status.volumes[0].phase.Snapshotting?)
  {
    if k == 0 {
      SkippedVolumeMayBeExposed(0);
    } else if k == 1 {
      KilledPass();
      FirstPass(EXPOSES, Some(1));
    } else {
      InFlightRuns();
    }
  }

  lemma InFlightRuns()
    ensures ValidRun(SHOP, BUILT_IN, BEFORE, Life(2))
    ensures var w := Exec(SHOP, BUILT_IN, BEFORE, Life(2));
      && w.proc.Idle? && !w.released && LEFT_BEHIND in w.objects && |w.status.volumes| == 1
      && w.status.volumes[0].phase.Snapshotting?
  {
    WrittenPass(EXPOSES);
    FirstWriteIsOpen(EXPOSES);
  }

  /** Each of the three is released with the snapshot still there. */
  lemma FinalizerMayGoOverResidue(k: nat)
    requires k < 3
    ensures ValidRun(SHOP, BUILT_IN, BEFORE, Life(k))
    ensures var w := Exec(SHOP, BUILT_IN, BEFORE, Life(k));
      var run := Life(k) + Deletion(w.status.volumes);
      && ValidRun(SHOP, BUILT_IN, BEFORE, run)
      && (var z := Exec(SHOP, BUILT_IN, BEFORE, run); z.released && LEFT_BEHIND in z.objects && Owned(SHOP, LEFT_BEHIND))
  {
    LifeRuns(k);
    var w := Exec(SHOP, BUILT_IN, BEFORE, Life(k));
    DeletionRuns(w);
    Compose(BEFORE, Life(k), Deletion(w.status.volumes));
  }
}
