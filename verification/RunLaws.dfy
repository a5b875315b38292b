/** What holds in every run of Reconciliation. */
module RunLaws {
  import opened Prelude
  import opened VolumeModel
  import opened VolumeStep
  import opened VolumeLaws
  import opened BackupPass
  import opened PassOutcomes
  import opened Abandonment
  import opened Reconciliation
  import Names

  // ---- How the stored status may evolve ----

  /** t is a possible later status: a terminal status never changes at all, times are set once, and
      every known volume evolves in place while new ones are appended. */
  predicate StatusEvolves(s: Status, t: Status) {
    && (s.phase.IsTerminal() ==> t == s)
    && (s.backupTime.Some? ==> t.backupTime == s.backupTime)
    && (s.completionTime.Some? ==> t.completionTime == s.completionTime)
    && |s.volumes| <= |t.volumes|
    && forall i :: 0 <= i < |s.volumes| ==> Evolves(s.volumes[i], t.volumes[i])
  }

  lemma StatusEvolvesTransitive(s: Status, t: Status, u: Status)
    requires StatusEvolves(s, t) && StatusEvolves(t, u)
    ensures StatusEvolves(s, u)
  {
    forall i | 0 <= i < |s.volumes| ensures Evolves(s.volumes[i], u.volumes[i]) {
      EvolvesTransitive(s.volumes[i], t.volumes[i], u.volumes[i]);
    }
  }

  predicate VolumesFit(st: Status) {
    UniquePvcs(st.volumes) && forall v <- st.volumes :: ReasonFits(v)
  }

  /** The terminal marks agree, a terminal phase that came from the roll-up covers every volume, and a success
      covers no failed one. */
  predicate MarksFit(st: Status, aborted: bool) {
    && (st.phase.IsTerminal() <==> st.backupTime.Some?)
    && (st.phase.IsTerminal() <==> st.completionTime.Some?)
    && (st.phase.IsTerminal() ==> aborted || forall v <- st.volumes :: v.phase.IsTerminal())
    && (st.phase.Succeeded() ==> forall v <- st.volumes :: v.phase.Completed? || v.phase.Skipped?)
  }

  predicate StatusFits(st: Status, aborted: bool) { VolumesFit(st) && MarksFit(st, aborted) }

  /** A write is a step from the status it was based on. */
  predicate WriteFits(x: Write) {
    && !x.from.phase.IsTerminal()
    && StatusEvolves(x.from, x.to)
    && StatusFits(x.to, x.abort)
  }

  /** Optimistic concurrency: an old write is harmless, a current one is based on what is stored. */
  predicate WriteCurrent(rv: nat, st: Status, x: Write) {
    && WriteFits(x)
    && x.rv <= rv
    && (x.rv == rv ==> x.from == st)
    && StatusEvolves(x.from, st)
  }

  // ---- The invariant ----

  predicate StoreInv(rv: nat, st: Status, aborted: bool, inflight: set<Write>) {
    StatusFits(st, aborted) && forall x <- inflight :: WriteCurrent(rv, st, x)
  }

  predicate EffectsInv(st: Status, recorded: nat, forgets: nat) {
    && recorded <= 1 && (recorded > 0 ==> st.phase.IsTerminal())
    && forgets <= 1 && (forgets > 0 ==> st.phase.Succeeded())
  }

  /** The PVC whose teardown is due was known when the pass read the status, and holds a terminal
      result in what the pass writes. */
  predicate TeardownFits(x: Write, pvc: string) {
    (exists v <- x.from.volumes :: v.pvc == pvc) && Recorded(x.to, pvc)
  }

  predicate ProcInv(rv: nat, st: Status, aborted: bool, forgets: nat, proc: Proc) {
    && (proc.Driving() ==> WriteCurrent(rv, st, proc.write) && forgets == 0)
    && ((proc.Writing? || proc.Unsure?) && proc.teardown.Some? ==> TeardownFits(proc.write, proc.teardown.value))
    && (proc.Writing? || proc.Unsure? ==> !proc.write.abort)
    && (proc.Unsure? ==> proc.write.to.phase.IsTerminal())
    && (proc.Durable() && proc.write.to.phase.IsTerminal() ==> st.phase == proc.write.to.phase)
    && (proc.TearingExposure? || proc.TearingJob? ==> aborted || Recorded(st, proc.pvc))
    && (!proc.Idle? && !proc.Driving() && !proc.Finalizing? ==> st.phase.IsTerminal())
  }

  /** No object with this Backup's owner label in the first k listings. */
  predicate CleanUpTo(me: Identity, objects: set<Residue>, k: nat)
    requires k <= 4
  {
    forall r <- objects :: Owned(me, r) ==> forall j: nat :: j < k ==> ListingOf(r.what) != NthListing(j)
  }

  predicate Clean(me: Identity, objects: set<Residue>) { forall r <- objects :: !Owned(me, r) }

  predicate ResidueInv(me: Identity, st: Status, marked: bool, objects: set<Residue>, proc: Proc) {
    && (marked || proc.Marking? ==> st.phase.IsTerminal() && Clean(me, objects))
    && (proc.Verifying? ==> proc.k < 4 && CleanUpTo(me, objects, proc.k))
  }

  predicate Inv(me: Identity, w: World) {
    && StoreInv(w.rv, w.status, w.aborted, w.inflight)
    && EffectsInv(w.status, w.recorded, w.forgets)
    && ProcInv(w.rv, w.status, w.aborted, w.forgets, w.proc)
    && ResidueInv(me, w.status, w.cleaned || w.markInflight, w.objects, w.proc)
  }

  lemma InitialInv(me: Identity, w: World)
    requires Initial(w)
    ensures Inv(me, w)
  {
  }

  // ---- A pass computes a legitimate write ----

  lemma SettleFits(st: Status, manifestsDone: bool, releaseOwed: bool, now: int, later: int)
    requires VolumesFit(st) && !st.phase.IsTerminal() && st.backupTime.None? && st.completionTime.None?
    ensures var t := Settle(st, manifestsDone, releaseOwed, now, later);
      t.volumes == st.volumes && StatusFits(t, false)
  {
    RollUpTerminalExactly(st.volumes);
    SucceededExactly(st, manifestsDone, releaseOwed, now, later);
  }

  lemma DriveFits(cfg: Config, vols: seq<VolumeStatus>, o: Observation)
    requires UniquePvcs(vols) && forall v <- vols :: ReasonFits(v)
    ensures var d := DriveVolumes(cfg, vols, o);
      && |d.volumes| == |vols| && UniquePvcs(d.volumes) && (forall v <- d.volumes :: ReasonFits(v))
      && (forall i :: 0 <= i < |vols| ==> Evolves(vols[i], d.volumes[i]))
      && (d.teardown.Some? ==> exists i :: 0 <= i < |vols| && vols[i].pvc == d.teardown.value
                                 && vols[i].phase.InFlight() && d.volumes[i].phase.IsTerminal())
  {
    PickDefersParked(vols);
    if Pick(vols).Some? {
      var i := Pick(vols).value;
      StepKeepsLifecycle(cfg, vols[i], o);
      TeardownExactlyAtTheEnd(cfg, vols[i], o);
      forall v | v in DriveVolumes(cfg, vols, o).volumes ensures ReasonFits(v) {}
    }
  }

  lemma EnumerationFits(vols: seq<VolumeStatus>, names: seq<string>)
    requires UniquePvcs(vols) && Names.Distinct(names) && forall v <- vols :: ReasonFits(v)
    ensures var r := EnsureVolumes(vols, names);
      && vols <= r && UniquePvcs(r) && (forall v <- r :: ReasonFits(v))
      && (forall i :: |vols| <= i < |r| ==> r[i].phase.Pending?)
  {
    EnumerationAppends(vols, names);
    var r := EnsureVolumes(vols, names);
    forall v | v in r ensures ReasonFits(v) {
      var i :| 0 <= i < |r| && r[i] == v;
      if i < |vols| { assert r[i] == vols[i] && vols[i] in vols; }
    }
  }

  /** What a pass is about to write is one step on from what it read, and the PVC whose teardown it
      asks for was already known then and holds a terminal result now. */
  lemma PassFits(cfg: Config, st: Status, names: seq<string>, o: Observation,
                 manifestsDone: bool, releaseOwed: bool, now: int, later: int)
    requires StatusFits(st, false) && !st.phase.IsTerminal() && Names.Distinct(names)
    ensures var d := PassWork(cfg, st, names, o);
            var t := Settle(st.(volumes := d.volumes), manifestsDone, releaseOwed, now, later);
      && StatusFits(t, false) && StatusEvolves(st, t)
      && (d.teardown.Some? ==> Recorded(t, d.teardown.value) && exists v <- st.volumes :: v.pvc == d.teardown.value)
  {
    var es := EnsureVolumes(st.volumes, names);
    EnumerationFits(st.volumes, names);
    DriveFits(cfg, es, o);
    var d := DriveVolumes(cfg, es, o);
    SettleFits(st.(volumes := d.volumes), manifestsDone, releaseOwed, now, later);
    forall i | 0 <= i < |st.volumes| ensures Evolves(st.volumes[i], d.volumes[i]) {
      assert es[i] == st.volumes[i];
    }
    if d.teardown.Some? {
      var i :| 0 <= i < |es| && es[i].pvc == d.teardown.value && es[i].phase.InFlight() && d.volumes[i].phase.IsTerminal();
      assert i < |st.volumes| && es[i] == st.volumes[i] && st.volumes[i] in st.volumes;
      assert d.volumes[i] in d.volumes;
    }
  }

  lemma AbortFits(st: Status, names: seq<string>, now: int, later: int)
    requires StatusFits(st, false) && !st.phase.IsTerminal() && Names.Distinct(names)
    ensures var t := Aborted(st.(volumes := EnsureVolumes(st.volumes, names)), now, later);
      StatusFits(t, true) && StatusEvolves(st, t)
  {
    EnumerationFits(st.volumes, names);
  }

  // ---- Steps ----

  lemma RecordedPersists(s: Status, t: Status, pvc: string)
    requires StatusEvolves(s, t) && Recorded(s, pvc)
    ensures Recorded(t, pvc)
  {
    var i :| 0 <= i < |s.volumes| && s.volumes[i].pvc == pvc && s.volumes[i].phase.IsTerminal();
    assert t.volumes[i] in t.volumes;
  }

  /** A PVC known to the base of a write is recorded as terminal once a rolled-up terminal status is
      stored, whoever's write stored it. */
  lemma TerminalCoversKnown(w: World, x: Write, pvc: string)
    requires StatusFits(w.status, w.aborted) && StatusEvolves(x.from, w.status)
    requires w.status.phase.IsTerminal() && exists v <- x.from.volumes :: v.pvc == pvc
    ensures w.aborted || Recorded(w.status, pvc)
  {
    var i :| 0 <= i < |x.from.volumes| && x.from.volumes[i].pvc == pvc;
    assert w.status.volumes[i] in w.status.volumes;
  }

  /** Committing a current write keeps every other write current. */
  lemma CommitKeepsStore(w: World, x: Write)
    requires StoreInv(w.rv, w.status, w.aborted, w.inflight) && WriteCurrent(w.rv, w.status, x) && x.rv == w.rv
    ensures StoreInv(w.rv + 1, x.to, w.aborted || x.abort, w.inflight) && StatusEvolves(w.status, x.to)
    ensures forall y :: WriteCurrent(w.rv, w.status, y) ==> WriteCurrent(w.rv + 1, x.to, y)
  {
    forall y | WriteCurrent(w.rv, w.status, y) ensures WriteCurrent(w.rv + 1, x.to, y) {
      StatusEvolvesTransitive(y.from, w.status, x.to);
    }
  }

  lemma StatusEvolvesReflexive(s: Status)
    ensures StatusEvolves(s, s)
  {
  }

  lemma AdvanceKeeps(me: Identity, cfg: Config, w: World, a: Action)
    requires me.Valid() && Inv(me, w) && a.Advance? && Enabled(me, cfg, w, a)
    ensures Inv(me, Do(me, cfg, w, a)) && Do(me, cfg, w, a).status == w.status
  {
    StatusEvolvesReflexive(w.status);
    assert StatusFits(w.status, false);
    PassFits(cfg, w.status, a.names, a.o, a.manifestsDone, a.releaseOwed, a.now, a.later);
  }

  lemma GateKeeps(me: Identity, cfg: Config, w: World, a: Action)
    requires me.Valid() && Inv(me, w) && a.GateClosed? && Enabled(me, cfg, w, a)
    ensures Inv(me, Do(me, cfg, w, a)) && Do(me, cfg, w, a).status == w.status
  {
    StatusEvolvesReflexive(w.status);
  }

  lemma FreezeKeeps(me: Identity, cfg: Config, w: World, a: Action)
    requires me.Valid() && Inv(me, w) && a.FreezeWindow? && Enabled(me, cfg, w, a)
    ensures Inv(me, Do(me, cfg, w, a)) && Do(me, cfg, w, a).status == w.status
  {
    StatusEvolvesReflexive(w.status);
    EnumerationFits(w.status.volumes, a.windowNames);
  }

  lemma AbortKeeps(me: Identity, cfg: Config, w: World, a: Action)
    requires me.Valid() && Inv(me, w) && a.AbortHooks? && Enabled(me, cfg, w, a)
    ensures Inv(me, Do(me, cfg, w, a)) && Do(me, cfg, w, a).status == w.status
  {
    StatusEvolvesReflexive(w.status);
    AbortFits(w.status, a.abortNames, a.abortNow, a.abortLater);
  }

  lemma WriteOkKeeps(me: Identity, cfg: Config, w: World, a: Action)
    requires me.Valid() && Inv(me, w) && a.WriteOk? && Enabled(me, cfg, w, a)
    ensures Inv(me, Do(me, cfg, w, a)) && StatusEvolves(w.status, Do(me, cfg, w, a).status)
  {
    CommitKeepsStore(w, w.proc.write);
  }

  lemma WriteRejectedKeeps(me: Identity, cfg: Config, w: World, a: Action)
    requires me.Valid() && Inv(me, w) && a.WriteRejected? && Enabled(me, cfg, w, a)
    ensures Inv(me, Do(me, cfg, w, a)) && Do(me, cfg, w, a).status == w.status
  {
  }

  lemma WriteAmbiguousKeeps(me: Identity, cfg: Config, w: World, a: Action)
    requires me.Valid() && Inv(me, w) && a.WriteAmbiguous? && Enabled(me, cfg, w, a)
    ensures Inv(me, Do(me, cfg, w, a)) && Do(me, cfg, w, a).status == w.status
  {
  }

  lemma LandKeeps(me: Identity, w: World, a: Action)
    requires me.Valid() && Inv(me, w) && a.Land? && CanHappen(me, w, a)
    ensures Inv(me, OtherStep(me, w, a)) && StatusEvolves(w.status, OtherStep(me, w, a).status)
  {
    CommitKeepsStore(w, a.landing);
    if w.proc.TearingExposure? || w.proc.TearingJob? {
      if !w.aborted { RecordedPersists(w.status, a.landing.to, w.proc.pvc); }
    }
  }

  lemma RereadKeeps(me: Identity, cfg: Config, w: World, a: Action)
    requires me.Valid() && Inv(me, w) && a.Reread? && Enabled(me, cfg, w, a)
    ensures Inv(me, Do(me, cfg, w, a)) && Do(me, cfg, w, a).status == w.status
  {
    var p := Do(me, cfg, w, a).proc;
    if w.proc.teardown.Some? && w.status.phase.IsTerminal() {
      TerminalCoversKnown(w, w.proc.write, w.proc.teardown.value);
    }
    PassMovesOn(me, w, p);
    assert Do(me, cfg, w, a) == w.(proc := p);
  }

  /** Only the point of a driving pass moved. */
  lemma PassMovesOn(me: Identity, w: World, p: Proc)
    requires Inv(me, w) && (p.Idle? || p.Driving()) && ProcInv(w.rv, w.status, w.aborted, w.forgets, p)
    ensures Inv(me, w.(proc := p))
  {
  }

  lemma TearExposureKeeps(me: Identity, w: World, a: Action)
    requires me.Valid() && Inv(me, w) && a.TearExposure? && CanSweep(me, w, a)
    ensures Inv(me, SweepStep(me, w, a)) && SweepStep(me, w, a).status == w.status
  {
  }

  lemma DeleteJobKeeps(me: Identity, w: World, a: Action)
    requires me.Valid() && Inv(me, w) && a.DeleteJob? && CanSweep(me, w, a)
    ensures Inv(me, SweepStep(me, w, a)) && SweepStep(me, w, a).status == w.status
  {
  }

  lemma CloseKeeps(me: Identity, w: World, a: Action)
    requires me.Valid() && Inv(me, w) && a.Close? && CanSweep(me, w, a)
    ensures Inv(me, SweepStep(me, w, a)) && SweepStep(me, w, a).status == w.status
  {
  }

  lemma BeginSweepKeeps(me: Identity, w: World, a: Action)
    requires me.Valid() && Inv(me, w) && a.BeginSweep? && CanSweep(me, w, a)
    ensures Inv(me, SweepStep(me, w, a)) && SweepStep(me, w, a).status == w.status
  {
  }

  /** Nothing the invariant is about moved, but for the version, objects that went, and the point of a
      sweep or of a deletion's pass. */
  predicate Beside(w: World, u: World) {
    && u.status == w.status && u.aborted == w.aborted && u.inflight == w.inflight && u.rv >= w.rv
    && u.recorded == w.recorded && u.forgets == w.forgets && u.objects <= w.objects
    && u.cleaned == w.cleaned && u.markInflight == w.markInflight
    && (u.proc == w.proc || u.proc.Idle? || u.proc.Finalizing?
        || ((u.proc.Sweeping? || u.proc.SweepingJob?) && w.status.phase.IsTerminal()))
  }

  lemma BesideKeeps(me: Identity, w: World, u: World)
    requires Inv(me, w) && Beside(w, u)
    ensures Inv(me, u)
  {
  }

  lemma SweptOneIsBeside(w: World, i: nat, clean: bool, swept: set<Residue>, ok: bool)
    requires i < |w.status.volumes| && w.status.phase.IsTerminal()
    ensures Beside(w, SweptOne(w, i, clean, swept, ok))
  {
    var u := SweptOne(w, i, clean, swept, ok);
    if w.status.volumes[i].phase.Skipped? { assert u == w.(proc := Sweeping(i + 1, clean)); }
    else if ok { assert u == w.(objects := w.objects - swept, proc := SweepingJob(i, clean)); }
    else { assert u == w.(objects := w.objects - swept, proc := Sweeping(i + 1, false)); }
  }

  lemma SweepExposureKeeps(me: Identity, w: World, a: Action)
    requires me.Valid() && Inv(me, w) && a.SweepExposure? && CanSweep(me, w, a)
    ensures Inv(me, SweepStep(me, w, a)) && SweepStep(me, w, a).status == w.status
  {
    SweptOneIsBeside(w, w.proc.i, w.proc.clean, a.swept, a.sweptOk);
    BesideKeeps(me, w, SweptOne(w, w.proc.i, w.proc.clean, a.swept, a.sweptOk));
  }

  lemma SweepJobKeeps(me: Identity, w: World, a: Action)
    requires me.Valid() && Inv(me, w) && a.SweepJob? && CanSweep(me, w, a)
    ensures Inv(me, SweepStep(me, w, a)) && SweepStep(me, w, a).status == w.status
  {
  }

  lemma EndSweepKeeps(me: Identity, w: World, a: Action)
    requires me.Valid() && Inv(me, w) && a.EndSweep? && CanSweep(me, w, a)
    ensures Inv(me, SweepStep(me, w, a)) && SweepStep(me, w, a).status == w.status
  {
  }

  /** An object with the owner label in a listing is always attributed to this Backup. */
  lemma OwnedIsSeen(me: Identity, w: World, k: nat)
    requires me.Valid() && k < 4 && CleanUpTo(me, w.objects, k) && NoneSeen(me, w, k)
    ensures CleanUpTo(me, w.objects, k + 1)
  {
  }

  lemma AllListings(me: Identity, objects: set<Residue>)
    requires CleanUpTo(me, objects, 4)
    ensures Clean(me, objects)
  {
    forall r | r in objects ensures !Owned(me, r) {
      var j := ListingIndex(ListingOf(r.what));
      assert ListingOf(r.what) == NthListing(j);
    }
  }

  function ListingIndex(l: Listing): (j: nat)
    ensures j < 4 && NthListing(j) == l
  {
    match l
    case Contents => 0
    case TenantSnapshots => 1
    case OperatorSnapshots => 2
    case Clones => 3
  }

  lemma ListKeeps(me: Identity, w: World, a: Action)
    requires me.Valid() && Inv(me, w) && a.List? && CanSweep(me, w, a)
    ensures Inv(me, SweepStep(me, w, a)) && SweepStep(me, w, a).status == w.status
  {
    ListingIsClean(me, w, w.proc.k, a.answer);
    ProcOnly(me, w, AfterListing(me, w, w.proc.k, a.answer));
  }

  lemma ListingIsClean(me: Identity, w: World, k: nat, answer: ListAnswer)
    requires me.Valid() && k < 4 && CleanUpTo(me, w.objects, k)
    requires answer.NoSuchKind? ==> forall r <- w.objects :: ListingOf(r.what) != NthListing(k)
    ensures var p := AfterListing(me, w, k, answer);
      && (p.Marking? ==> Clean(me, w.objects))
      && (p.Verifying? ==> p.k < 4 && CleanUpTo(me, w.objects, p.k))
  {
    if answer.NoSuchKind? || (answer.Items? && NoneSeen(me, w, k)) {
      if answer.Items? { OwnedIsSeen(me, w, k); }
      assert CleanUpTo(me, w.objects, k + 1);
      if k == 3 { AllListings(me, w.objects); }
    }
  }

  /** Only the point of a sweep moved. */
  lemma ProcOnly(me: Identity, w: World, p: Proc)
    requires Inv(me, w) && w.status.phase.IsTerminal() && (p.Idle? || p.Marking? || p.Verifying?)
    requires (p.Marking? ==> Clean(me, w.objects)) && (p.Verifying? ==> p.k < 4 && CleanUpTo(me, w.objects, p.k))
    ensures Inv(me, w.(proc := p))
  {
  }

  lemma MarkKeeps(me: Identity, w: World, a: Action)
    requires me.Valid() && Inv(me, w) && a.Mark? && CanSweep(me, w, a)
    ensures Inv(me, SweepStep(me, w, a)) && SweepStep(me, w, a).status == w.status
  {
  }

  lemma LandMarkKeeps(me: Identity, w: World, a: Action)
    requires me.Valid() && Inv(me, w) && a.LandMark? && CanHappen(me, w, a)
    ensures Inv(me, OtherStep(me, w, a)) && OtherStep(me, w, a).status == w.status
  {
  }

  lemma KillKeeps(me: Identity, w: World, a: Action)
    requires me.Valid() && Inv(me, w) && a.Kill? && CanHappen(me, w, a)
    ensures Inv(me, OtherStep(me, w, a)) && OtherStep(me, w, a).status == w.status
  {
  }

  lemma DrainKeeps(me: Identity, w: World, a: Action)
    requires me.Valid() && Inv(me, w) && a.Drain? && CanHappen(me, w, a)
    ensures Inv(me, OtherStep(me, w, a)) && OtherStep(me, w, a).status == w.status
  {
  }

  lemma ForeignKeeps(me: Identity, w: World, a: Action)
    requires me.Valid() && Inv(me, w) && a.Foreign? && CanHappen(me, w, a)
    ensures Inv(me, OtherStep(me, w, a)) && OtherStep(me, w, a).status == w.status
  {
  }

  lemma JobVanishesKeeps(me: Identity, w: World, a: Action)
    requires me.Valid() && Inv(me, w) && a.JobVanishes? && CanHappen(me, w, a)
    ensures Inv(me, OtherStep(me, w, a)) && OtherStep(me, w, a).status == w.status
  {
  }

  lemma TouchKeeps(me: Identity, w: World, a: Action)
    requires me.Valid() && Inv(me, w) && a.Touch? && CanHappen(me, w, a)
    ensures Inv(me, OtherStep(me, w, a)) && OtherStep(me, w, a).status == w.status
  {
  }

  /** The schedule's write is one step on from the status it judged, like the controller's own. */
  lemma AbandonFits(st: Status, stamped: int, completed: int)
    requires StatusFits(st, false) && !st.phase.IsTerminal()
    ensures var t := AbandonedAs(st, stamped, completed); StatusFits(t, false) && StatusEvolves(st, t)
  {
    var t := AbandonedAs(st, stamped, completed);
    assert forall i :: 0 <= i < |t.volumes| ==> t.volumes[i] == Ended(st.volumes[i]);
    forall v | v in t.volumes ensures ReasonFits(v) && v.phase.IsTerminal() {
      var i :| 0 <= i < |t.volumes| && t.volumes[i] == v;
      assert st.volumes[i] in st.volumes;
    }
  }

  lemma AbandonKeeps(me: Identity, w: World, a: Action)
    requires me.Valid() && Inv(me, w) && a.Abandon? && CanHappen(me, w, a)
    ensures Inv(me, OtherStep(me, w, a)) && OtherStep(me, w, a).status == w.status
  {
    StatusEvolvesReflexive(w.status);
    assert StatusFits(w.status, false);
    AbandonFits(w.status, a.stamped, a.completed);
    assert WriteCurrent(w.rv, w.status, AbandoningWrite(w, a.stamped, a.completed));
  }

  lemma CleanedIsBeside(me: Identity, w: World, at: FinalPoint, removed: set<Residue>, ok: bool)
    requires at.stage.Cleaning? && at.stage.i < |at.vols|
    ensures Beside(w, Cleaned(me, w, at, removed, ok))
  {
  }

  lemma FinalizeIsBeside(me: Identity, w: World, step: FinalStep)
    requires CanFinalize(me, w, step)
    ensures Beside(w, FinalizeStep(me, w, step))
  {
    if step.Clean? { CleanedIsBeside(me, w, w.proc.at, step.removed, step.ok); }
  }

  lemma FinalizeKeeps(me: Identity, w: World, a: Action)
    requires me.Valid() && Inv(me, w) && a.Finalize? && CanHappen(me, w, a)
    ensures Inv(me, OtherStep(me, w, a)) && OtherStep(me, w, a).status == w.status
  {
    FinalizeIsBeside(me, w, a.step);
    BesideKeeps(me, w, FinalizeStep(me, w, a.step));
  }

  lemma DriveKeeps(me: Identity, cfg: Config, w: World, a: Action)
    requires me.Valid() && Inv(me, w) && Drives(a) && Enabled(me, cfg, w, a)
    ensures Inv(me, Do(me, cfg, w, a)) && StatusEvolves(w.status, Do(me, cfg, w, a).status)
  {
    match a {
      case Advance(_, _, _, _, _, _, _, _) => AdvanceKeeps(me, cfg, w, a);
      case GateClosed => GateKeeps(me, cfg, w, a);
      case FreezeWindow(_, _) => FreezeKeeps(me, cfg, w, a);
      case AbortHooks(_, _, _) => AbortKeeps(me, cfg, w, a);
      case WriteOk => WriteOkKeeps(me, cfg, w, a);
      case WriteRejected => WriteRejectedKeeps(me, cfg, w, a);
      case WriteAmbiguous => WriteAmbiguousKeeps(me, cfg, w, a);
      case Reread(_) => RereadKeeps(me, cfg, w, a);
    }
  }

  lemma SweepKeeps(me: Identity, w: World, a: Action)
    requires me.Valid() && Inv(me, w) && Sweeps(a) && CanSweep(me, w, a)
    ensures Inv(me, SweepStep(me, w, a)) && SweepStep(me, w, a).status == w.status
  {
    match a {
      case TearExposure(_) => TearExposureKeeps(me, w, a);
      case DeleteJob(_) => DeleteJobKeeps(me, w, a);
      case Close(_) => CloseKeeps(me, w, a);
      case BeginSweep => BeginSweepKeeps(me, w, a);
      case SweepExposure(_, _) => SweepExposureKeeps(me, w, a);
      case SweepJob(_) => SweepJobKeeps(me, w, a);
      case EndSweep => EndSweepKeeps(me, w, a);
      case List(_) => ListKeeps(me, w, a);
      case Mark(_) => MarkKeeps(me, w, a);
    }
  }

  lemma OthersKeep(me: Identity, w: World, a: Action)
    requires me.Valid() && Inv(me, w) && !Drives(a) && !Sweeps(a) && CanHappen(me, w, a)
    ensures Inv(me, OtherStep(me, w, a)) && StatusEvolves(w.status, OtherStep(me, w, a).status)
  {
    match a {
      case Land(_) => LandKeeps(me, w, a);
      case LandMark => LandMarkKeeps(me, w, a);
      case Kill => KillKeeps(me, w, a);
      case Drain(_) => DrainKeeps(me, w, a);
      case Foreign(_) => ForeignKeeps(me, w, a);
      case JobVanishes(_) => JobVanishesKeeps(me, w, a);
      case Touch => TouchKeeps(me, w, a);
      case Abandon(_, _, _, _) => AbandonKeeps(me, w, a);
      case Finalize(_) => FinalizeKeeps(me, w, a);
    }
  }

  lemma StepKeeps(me: Identity, cfg: Config, w: World, a: Action)
    requires me.Valid() && Inv(me, w) && Enabled(me, cfg, w, a)
    ensures Inv(me, Do(me, cfg, w, a)) && StatusEvolves(w.status, Do(me, cfg, w, a).status)
  {
    if Drives(a) {
      DriveKeeps(me, cfg, w, a);
    } else if Sweeps(a) {
      SweepKeeps(me, w, a);
    } else {
      OthersKeep(me, w, a);
    }
  }

  lemma {:induction false} RunKeeps(me: Identity, cfg: Config, w: World, acts: seq<Action>)
    requires me.Valid() && Inv(me, w) && ValidRun(me, cfg, w, acts)
    ensures Inv(me, Exec(me, cfg, w, acts)) && StatusEvolves(w.status, Exec(me, cfg, w, acts).status)
    decreases |acts|
  {
    if acts == [] {
      StatusEvolvesReflexive(w.status);
    } else {
      var u := Do(me, cfg, w, acts[0]);
      StepKeeps(me, cfg, w, acts[0]);
      RunKeeps(me, cfg, u, acts[1..]);
      StatusEvolvesTransitive(w.status, u.status, Exec(me, cfg, w, acts).status);
    }
  }

  // ---- The theorems ----

  lemma MarkerStaysOne(me: Identity, cfg: Config, w: World, a: Action)
    requires Enabled(me, cfg, w, a) && w.cleaned
    ensures Do(me, cfg, w, a).cleaned
  {
    if a.Finalize? { FinalizeIsBeside(me, w, a.step); }
    else if Sweeps(a) { MarkerStaysInSweep(me, w, a); }
  }

  lemma MarkerStaysInSweep(me: Identity, w: World, a: Action)
    requires Sweeps(a) && CanSweep(me, w, a) && w.cleaned
    ensures SweepStep(me, w, a).cleaned
  {
  }

  lemma {:induction false} MarkerStays(me: Identity, cfg: Config, w: World, acts: seq<Action>)
    requires ValidRun(me, cfg, w, acts) && w.cleaned
    ensures Exec(me, cfg, w, acts).cleaned
    decreases |acts|
  {
    if acts != [] {
      MarkerStaysOne(me, cfg, w, acts[0]);
      MarkerStays(me, cfg, Do(me, cfg, w, acts[0]), acts[1..]);
    }
  }

  /** Crash-only teardown. Once the exposures-cleaned marker is stored, no object carrying this
      Backup's owner label exists, then or after any further steps — kills, late writes, sibling runs
      and drains included. */
  lemma MarkerMeansNothingRemains(me: Identity, cfg: Config, w: World, acts: seq<Action>, more: seq<Action>)
    requires me.Valid() && Initial(w) && ValidRun(me, cfg, w, acts)
    requires ValidRun(me, cfg, Exec(me, cfg, w, acts), more)
    ensures var u := Exec(me, cfg, w, acts); var z := Exec(me, cfg, u, more);
      u.cleaned ==> z.cleaned && forall r <- z.objects :: !Owned(me, r)
  {
    var u := Exec(me, cfg, w, acts);
    InitialInv(me, w);
    RunKeeps(me, cfg, w, acts);
    RunKeeps(me, cfg, u, more);
    if u.cleaned { MarkerStays(me, cfg, u, more); }
  }

  lemma {:induction false} JobsOnlyDriven(jobs: set<string>, pvc: string, es: seq<Effect>, undone: bool)
    ensures forall n <- jobs :: n != pvc ==> n in JobsAfter(jobs, pvc, es, undone)
    ensures CreatedJob !in es && DroppedJob !in es ==> JobsAfter(jobs, pvc, es, undone) == jobs
  {
    if es != [] {
      assert forall e <- es[..|es| - 1] :: e in es;
      assert es[|es| - 1] in es;
      JobsOnlyDriven(jobs, pvc, es[..|es| - 1], undone);
    }
  }

  lemma DropFollowsCreate(cfg: Config, vols: seq<VolumeStatus>, o: Observation)
    ensures DroppedJob in DriveVolumes(cfg, vols, o).effects ==> CreatedJob in DriveVolumes(cfg, vols, o).effects
  {
    PickDefersParked(vols);
    if Pick(vols).Some? {
      var v := vols[Pick(vols).value];
      OnlyObjects(o.made);
      var made := MadeAll(o.made);
      if v.phase.Snapshotting? && DroppedJob in AdvanceSnapshotting(cfg, v, o).effects {
        assert AdvanceSnapshotting(cfg, v, o).effects == made + [CreatedJob, DroppedJob];
        assert (made + [CreatedJob, DroppedJob])[|made|] == CreatedJob;
      }
    }
  }

  lemma ReachedSubset(es: seq<Effect>, cut: Option<nat>)
    ensures forall e <- Reached(es, cut) :: e in es
  {
  }

  /** A pass drops no Job that was there when it began: an undo removes only what the pass created. */
  lemma PassKeepsJobs(me: Identity, cfg: Config, w: World, a: Action, pvc: string)
    requires a.Advance? && Enabled(me, cfg, w, a) && pvc in w.jobs
    ensures pvc in Do(me, cfg, w, a).jobs
  {
    var d := PassWork(cfg, w.status, a.names, a.o);
    DropFollowsCreate(cfg, EnsureVolumes(w.status.volumes, a.names), a.o);
    ReachedSubset(d.effects, a.cut);
    JobsOnlyDriven(w.jobs, DrivenPvc(d), Reached(d.effects, a.cut), a.undone);
  }

  lemma OthersKeepJobs(me: Identity, cfg: Config, w: World, a: Action)
    requires Enabled(me, cfg, w, a)
    requires !a.Advance? && !a.SweepJob? && !a.DeleteJob? && !a.JobVanishes? && !a.Finalize?
    ensures Do(me, cfg, w, a).jobs == w.jobs
  {
    if Sweeps(a) { SweepsKeepJobs(me, w, a); }
  }

  lemma SweepsKeepJobs(me: Identity, w: World, a: Action)
    requires Sweeps(a) && CanSweep(me, w, a) && !a.SweepJob? && !a.DeleteJob?
    ensures SweepStep(me, w, a).jobs == w.jobs
  {
  }

  lemma JobGoneIsRecorded(me: Identity, cfg: Config, w: World, a: Action, pvc: string)
    requires Inv(me, w) && Enabled(me, cfg, w, a) && !a.JobVanishes? && !a.Finalize?
    requires pvc in w.jobs && pvc !in Do(me, cfg, w, a).jobs
    ensures Recorded(w.status, pvc) || w.aborted
  {
    if a.Advance? { PassKeepsJobs(me, cfg, w, a, pvc); }
    else if a.SweepJob? { assert w.status.volumes[w.proc.i] in w.status.volumes; }
    else if !a.DeleteJob? { OthersKeepJobs(me, cfg, w, a); }
  }

  /** No result is lost. In every run, the step that makes an existing mover Job disappear is the
      work of others or of the Backup's own deletion, or finds its volume's terminal result already
      stored, or follows a stored hook abort. */
  lemma NoResultLost(me: Identity, cfg: Config, w: World, acts: seq<Action>, a: Action, pvc: string)
    requires me.Valid() && Initial(w) && ValidRun(me, cfg, w, acts)
    requires Enabled(me, cfg, Exec(me, cfg, w, acts), a) && !a.JobVanishes? && !a.Finalize?
    requires pvc in Exec(me, cfg, w, acts).jobs && pvc !in Do(me, cfg, Exec(me, cfg, w, acts), a).jobs
    ensures Recorded(Exec(me, cfg, w, acts).status, pvc) || Exec(me, cfg, w, acts).aborted
  {
    InitialInv(me, w);
    RunKeeps(me, cfg, w, acts);
    JobGoneIsRecorded(me, cfg, Exec(me, cfg, w, acts), a, pvc);
  }

  /** Terminal effects happen at most once, only on a stored terminal phase, and retention only on a
      stored success. */
  lemma TerminalEffectsAtMostOnce(me: Identity, cfg: Config, w: World, acts: seq<Action>)
    requires me.Valid() && Initial(w) && ValidRun(me, cfg, w, acts)
    ensures var u := Exec(me, cfg, w, acts);
      && u.recorded <= 1 && (u.recorded == 1 ==> u.status.phase.IsTerminal())
      && u.forgets <= 1 && (u.forgets == 1 ==> u.status.phase.Succeeded())
      && (u.status.phase.IsTerminal() <==> u.status.backupTime.Some? && u.status.completionTime.Some?)
  {
    InitialInv(me, w);
    RunKeeps(me, cfg, w, acts);
  }

  /** The stored status over a whole run: a terminal status is final, backupTime and completionTime
      never move, volumes are only appended and only move forward, one record per PVC, and every
      reason fits its phase. */
  lemma StoredStatusEvolves(me: Identity, cfg: Config, w: World, acts: seq<Action>, more: seq<Action>)
    requires me.Valid() && Initial(w) && ValidRun(me, cfg, w, acts)
    requires ValidRun(me, cfg, Exec(me, cfg, w, acts), more)
    ensures var u := Exec(me, cfg, w, acts);
            var z := Exec(me, cfg, u, more);
      && StatusEvolves(u.status, z.status)
      && VolumesFit(z.status)
      && (z.status.phase.IsTerminal() && !z.aborted ==> forall v <- z.status.volumes :: v.phase.IsTerminal())
  {
    InitialInv(me, w);
    RunKeeps(me, cfg, w, acts);
    RunKeeps(me, cfg, Exec(me, cfg, w, acts), more);
  }

  // ---- Attribution ----

  /** Labels this version stamps are attributed exactly to their owner. */
  lemma StampedLabelsAreExact(me: Identity, other: Identity, vols: seq<VolumeStatus>, pvc: string)
    requires me.Valid() && other.Valid() && other.namespace == me.namespace
    ensures BelongsTo(me, vols, ExposureLabels(other, pvc)) <==> other.name == me.name
  {
  }

  /** Another Backup's object, in the shape this version stamps. */
  ghost predicate StampedBySibling(me: Identity, l: Labels) {
    exists b: Identity, pvc: string ::
      b.Valid() && (b.name != me.name || b.namespace != me.namespace) && l == ExposureLabels(b, pvc)
  }

  /** Another Backup's object, in a shape from before the owner label: the run names a cluster-plane one,
      and a namespace-plane one carries its PVC alone. */
  ghost predicate OldShapeOfSibling(me: Identity, l: Labels) {
    exists b: Identity, pvc: string ::
      b.Valid() && (b.name != me.name || b.namespace != me.namespace) && l == Labels(b.namespace, "", b.run, pvc)
  }

  /** Whatever another Backup leaves behind, in any namespace, the verification read answers the
      same: a sibling's residue neither blocks the marker nor stands in for a clean read. */
  lemma SiblingsDoNotCount(me: Identity, w: World, theirs: set<Residue>, k: nat)
    requires me.Valid() && k < 4
    requires forall r <- theirs :: StampedBySibling(me, r.labels)
    ensures NoneSeen(me, w.(objects := w.objects + theirs), k) <==> NoneSeen(me, w, k)
  {
  }

  /** A sibling's leftover in an old shape does block, exactly when it is in this namespace and listing and
      carries this Backup's own run, or no run and a PVC this Backup tracks. */
  lemma OldSiblingsCountExactly(me: Identity, w: World, theirs: set<Residue>, k: nat)
    requires me.Valid() && k < 4
    requires forall r <- theirs :: OldShapeOfSibling(me, r.labels)
    ensures NoneSeen(me, w.(objects := w.objects + theirs), k) <==>
      && NoneSeen(me, w, k)
      && forall r <- theirs :: ListingOf(r.what) == NthListing(k) && r.labels.namespace == me.namespace ==>
           if r.labels.run != "" then r.labels.run != me.run
           else r.labels.pvc == "" || !Tracked(w.status.volumes, r.labels.pvc)
  {
  }

  /** For one: two Backups of one namespace and one PVC, and the older one's content from before the owner
      label. */
  lemma AnOldSiblingBlocks(me: Identity, other: Identity, w: World, pvc: string)
    requires me.Valid() && other.Valid() && other.namespace == me.namespace && other.name != me.name && other.run == ""
    requires pvc != "" && Tracked(w.status.volumes, pvc)
    ensures var theirs := Residue(OriginContent, "", Labels(other.namespace, "", "", pvc));
      OldShapeOfSibling(me, theirs.labels) && !NoneSeen(me, w.(objects := w.objects + {theirs}), 0)
  {
    var theirs := Residue(OriginContent, "", Labels(other.namespace, "", "", pvc));
    assert theirs.labels == Labels(other.namespace, "", other.run, pvc);
    assert theirs in w.objects + {theirs};
  }
}
