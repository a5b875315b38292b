/** One reconcile pass over a Backup's status: enumerate the PVCs, pick one volume, drive it, roll
    the phases up and settle the terminal marks. */
module BackupPass {
  import opened Prelude
  import opened VolumeModel
  import opened VolumeStep
  import opened VolumeEngine
  import opened VolumeLaws
  import Names

  datatype BackupPhase =
    | NoPhase | PendingPhase | HooksPhase | SnapshottingPhase | UploadingPhase
    | CompletedPhase | PartiallyCompletedPhase | PartiallyFailedPhase | FailedPhase
  {
    predicate IsTerminal() {
      CompletedPhase? || PartiallyCompletedPhase? || PartiallyFailedPhase? || FailedPhase?
    }

    /** The phases after which retention may run. */
    predicate Succeeded() { CompletedPhase? || PartiallyCompletedPhase? }
  }

  datatype Status = Status(
    phase: BackupPhase,
    volumes: seq<VolumeStatus>,
    backupTime: Option<int>,
    completionTime: Option<int>)

  // ---- Selection and enumeration ----

  datatype Pvc = Pvc(name: string, labels: map<string, string>)

  datatype Selector = Selector(matchLabels: map<string, string>, included: seq<string>, excluded: seq<string>)

  /** A shell glob against a name; None for a malformed pattern, which is skipped. */
  type Glob = (string, string) -> Option<bool>

  function LabelOf(labels: map<string, string>, key: string): string {
    if key in labels then labels[key] else ""
  }

  predicate AnyGlob(glob: Glob, name: string, globs: seq<string>) {
    exists g <- globs :: glob(g, name) == Some(true)
  }

  predicate Matches(glob: Glob, sel: Selector, p: Pvc) {
    && (forall k <- sel.matchLabels :: LabelOf(p.labels, k) == sel.matchLabels[k])
    && (sel.included != [] ==> AnyGlob(glob, p.name, sel.included))
    && !AnyGlob(glob, p.name, sel.excluded)
  }

  function Chosen<T, U>(p: T -> bool, f: T -> U, xs: seq<T>): seq<U> {
    if xs == [] then [] else Chosen(p, f, xs[..|xs| - 1]) + (if p(xs[|xs| - 1]) then [f(xs[|xs| - 1])] else [])
  }

  /** The names the selector picks from a listing, in its order. */
  function Selected(glob: Glob, sel: Selector, pvcs: seq<Pvc>): seq<string> {
    Chosen(p => Matches(glob, sel, p), (p: Pvc) => p.name, pvcs)
  }

  predicate Tracked(vols: seq<VolumeStatus>, name: string) {
    exists v <- vols :: v.pvc == name
  }

  function Missing(vols: seq<VolumeStatus>, names: seq<string>): seq<string> {
    if names == [] then []
    else (if Tracked(vols, names[0]) then [] else [names[0]]) + Missing(vols, names[1..])
  }

  /** The not yet tracked names, in the given order, as fresh Pending records. */
  function Fresh(vols: seq<VolumeStatus>, names: seq<string>): seq<VolumeStatus> {
    EnumeratedAll(Missing(vols, names))
  }

  function EnumeratedAll(names: seq<string>): seq<VolumeStatus> {
    seq(|names|, i requires 0 <= i < |names| => Enumerated(names[i]))
  }

  function EnsureVolumes(vols: seq<VolumeStatus>, names: seq<string>): seq<VolumeStatus> {
    vols + Fresh(vols, Names.Sort(names))
  }

  function PvcNames(vols: seq<VolumeStatus>): seq<string> {
    seq(|vols|, i requires 0 <= i < |vols| => vols[i].pvc)
  }

  /** No two records for one PVC. */
  predicate UniquePvcs(vols: seq<VolumeStatus>) {
    forall i, j :: 0 <= i < j < |vols| ==> vols[i].pvc != vols[j].pvc
  }

  lemma {:induction false} MissingNext(vols: seq<VolumeStatus>, names: seq<string>, n: string)
    ensures Missing(vols, names + [n]) == Missing(vols, names) + if Tracked(vols, n) then [] else [n]
  {
    if names != [] {
      assert (names + [n])[1..] == names[1..] + [n];
      MissingNext(vols, names[1..], n);
    }
  }

  lemma FreshNext(vols: seq<VolumeStatus>, names: seq<string>, i: nat)
    requires i < |names|
    ensures Fresh(vols, names[..i + 1]) ==
            Fresh(vols, names[..i]) + if Tracked(vols, names[i]) then [] else [Enumerated(names[i])]
  {
    assert names[..i + 1] == names[..i] + [names[i]];
    MissingNext(vols, names[..i], names[i]);
  }

  lemma {:induction false} MissingExactly(vols: seq<VolumeStatus>, names: seq<string>, n: string)
    ensures n in Missing(vols, names) <==> n in names && !Tracked(vols, n)
  {
    if names != [] { MissingExactly(vols, names[1..], n); }
  }

  lemma {:induction false} MissingSorted(vols: seq<VolumeStatus>, names: seq<string>)
    requires Names.Sorted(names)
    ensures Names.Sorted(Missing(vols, names))
  {
    if names != [] {
      MissingSorted(vols, names[1..]);
      forall x | x in Missing(vols, names[1..]) ensures Names.LessEq(names[0], x) {
        MissingExactly(vols, names[1..], x);
        var k :| 0 <= k < |names[1..]| && names[1..][k] == x;
        assert names[k + 1] == x;
      }
      Names.SortedCons(names[0], Missing(vols, names[1..]));
    }
  }

  lemma {:induction false} MissingDistinct(vols: seq<VolumeStatus>, names: seq<string>)
    requires Names.Distinct(names)
    ensures Names.Distinct(Missing(vols, names))
  {
    if names != [] {
      MissingDistinct(vols, names[1..]);
      MissingExactly(vols, names[1..], names[0]);
    }
  }

  /** Enumeration only appends: the known records are untouched, and what is added is one fresh
      Pending record for each selected PVC not yet known, in name order. */
  lemma EnumerationAppends(vols: seq<VolumeStatus>, names: seq<string>)
    requires UniquePvcs(vols) && Names.Distinct(names)
    ensures var r := EnsureVolumes(vols, names);
      && vols <= r && UniquePvcs(r)
      && (forall i :: |vols| <= i < |r| ==> r[i] == Enumerated(r[i].pvc) && r[i].pvc in names)
      && (forall n <- names :: Tracked(r, n))
      && Names.Sorted(PvcNames(r)[|vols|..])
  {
    Names.SortDistinct(names);
    var sorted := Names.Sort(names);
    var ms, f := Missing(vols, sorted), Fresh(vols, sorted);
    MissingSorted(vols, sorted);
    MissingDistinct(vols, sorted);
    var r := EnsureVolumes(vols, names);
    assert PvcNames(r)[|vols|..] == ms;
    forall n | n in names ensures Tracked(r, n) {
      MissingExactly(vols, sorted, n);
      if Tracked(vols, n) {
        var v :| v in vols && v.pvc == n;
        assert v in r;
      } else {
        var k :| 0 <= k < |ms| && ms[k] == n;
        assert f[k] in r;
      }
    }
    forall i | |vols| <= i < |r| ensures r[i] == Enumerated(r[i].pvc) && r[i].pvc in names && !Tracked(vols, r[i].pvc) {
      assert r[i].pvc == ms[i - |vols|];
      MissingExactly(vols, sorted, r[i].pvc);
    }
    forall i, j | 0 <= i < j < |r| ensures r[i].pvc != r[j].pvc {
      if i < |vols| <= j {
        assert r[i] in vols;
      } else if |vols| <= i {
        assert r[i].pvc == ms[i - |vols|] && r[j].pvc == ms[j - |vols|];
      }
    }
  }

  // ---- The queue discipline ----

  function First(vols: seq<VolumeStatus>, p: VolumeStatus -> bool): (i: Option<nat>)
    ensures i.Some? ==> i.value < |vols| && p(vols[i.value]) && forall k :: 0 <= k < i.value ==> !p(vols[k])
    ensures i.None? ==> forall v <- vols :: !p(v)
  {
    if vols == [] then None
    else if p(vols[0]) then Some(0)
    else match First(vols[1..], p)
      case None => None
      case Some(k) => assert forall j :: 0 < j <= k ==> vols[j] == vols[1..][j - 1]; Some(k + 1)
  }

  predicate Unfinished(v: VolumeStatus) { !v.phase.IsTerminal() }

  predicate Untried(v: VolumeStatus) { Unfinished(v) && !IsParked(v) }

  predicate ParkedOne(v: VolumeStatus) { Unfinished(v) && IsParked(v) }

  function Pick(vols: seq<VolumeStatus>): Option<nat> {
    match First(vols, Untried)
    case Some(i) => Some(i)
    case None => First(vols, ParkedOne)
  }

  /** A parked volume is never picked while a volume that is not parked remains. */
  lemma PickDefersParked(vols: seq<VolumeStatus>)
    ensures Pick(vols).None? <==> forall v <- vols :: v.phase.IsTerminal()
    ensures Pick(vols).Some? ==> Pick(vols).value < |vols| && Unfinished(vols[Pick(vols).value])
    ensures Pick(vols).Some? && IsParked(vols[Pick(vols).value]) ==> forall v <- vols :: Unfinished(v) ==> IsParked(v)
  {
    if First(vols, Untried).None? && First(vols, ParkedOne).None? {
      forall v | v in vols ensures v.phase.IsTerminal() { assert !Untried(v) && !ParkedOne(v); }
    }
    assert forall i :: 0 <= i < |vols| ==> vols[i] in vols;
    if First(vols, Untried).None? {
      forall v | v in vols && Unfinished(v) ensures IsParked(v) { assert !Untried(v); }
    }
  }

  // ---- The volume half of a pass ----

  datatype Driven = Driven(volumes: seq<VolumeStatus>, teardown: Option<string>, picked: Option<nat>, effects: seq<Effect>)

  function DriveVolumes(cfg: Config, vols: seq<VolumeStatus>, o: Observation): Driven {
    match Pick(vols)
    case None => Driven(vols, None, None, [])
    case Some(i) =>
      PickDefersParked(vols);
      var s := Drive(cfg, vols[i], o);
      Driven(vols[i := s.vol], if s.teardown then Some(vols[i].pvc) else None, Some(i), s.effects)
  }

  /** A pass moves at most the volume it picked, along one forward edge, and asks for the teardown of no
      other. */
  lemma PassMovesAtMostOne(cfg: Config, vols: seq<VolumeStatus>, o: Observation)
    ensures var d := DriveVolumes(cfg, vols, o);
      && |d.volumes| == |vols|
      && (forall i :: 0 <= i < |vols| && d.picked != Some(i) ==> d.volumes[i] == vols[i])
      && (forall i :: 0 <= i < |vols| ==> VolumeLaws.OneEdge(vols[i].phase, d.volumes[i].phase))
      && (d.teardown.Some? ==> d.picked.Some? && d.teardown.value == vols[d.picked.value].pvc
                               && d.volumes[d.picked.value].phase.IsTerminal())
  {
    if Pick(vols).Some? {
      var v := vols[Pick(vols).value];
      VolumeLaws.StepKeepsLifecycle(cfg, v, o);
      VolumeLaws.TeardownExactlyAtTheEnd(cfg, v, o);
    }
  }

  // ---- Roll-up and the terminal marks ----

  predicate SomePhase(vols: seq<VolumeStatus>, p: VolumePhase) { exists v <- vols :: v.phase == p }

  function RollUp(vols: seq<VolumeStatus>): BackupPhase {
    if SomePhase(vols, Uploading) then UploadingPhase
    else if SomePhase(vols, Snapshotting) then SnapshottingPhase
    else if SomePhase(vols, Pending) || SomePhase(vols, Unset) then PendingPhase
    else if !SomePhase(vols, Failed) then CompletedPhase
    else if SomePhase(vols, Completed) then PartiallyFailedPhase
    else FailedPhase
  }

  /** The roll-up is terminal exactly when every volume is. */
  lemma RollUpTerminalExactly(vols: seq<VolumeStatus>)
    ensures RollUp(vols).IsTerminal() <==> forall v <- vols :: v.phase.IsTerminal()
    ensures !RollUp(vols).PartiallyCompletedPhase?
  {
    if RollUp(vols).IsTerminal() {
      forall v | v in vols ensures v.phase.IsTerminal() {
        assert v.phase != Uploading && v.phase != Snapshotting && v.phase != Pending && v.phase != Unset;
      }
    }
  }

  /** The phase after the two hold-backs: a manifest half still running, a release still owed. */
  function HeldPhase(vols: seq<VolumeStatus>, manifestsDone: bool, releaseOwed: bool): BackupPhase {
    var p := RollUp(vols);
    if p.IsTerminal() && (!manifestsDone || releaseOwed) then UploadingPhase else p
  }

  function StampOnce(t: Option<int>, now: int): Option<int> {
    if t.Some? then t else Some(now)
  }

  /** What the single status writer puts into the record before it writes it. */
  function Settle(st: Status, manifestsDone: bool, releaseOwed: bool, now: int, later: int): Status {
    var p := HeldPhase(st.volumes, manifestsDone, releaseOwed);
    if p.IsTerminal() then
      Status(p, st.volumes, StampOnce(st.backupTime, now), StampOnce(st.completionTime, later))
    else st.(phase := p)
  }

  /** The record a failed pre-snapshot hook leaves. */
  function Aborted(st: Status, now: int, later: int): Status {
    Status(FailedPhase, st.volumes, StampOnce(st.backupTime, now), StampOnce(st.completionTime, later))
  }

  function Views(vs: seq<Volume>): seq<VolumeStatus>
    reads vs
  {
    seq(|vs|, i requires 0 <= i < |vs| reads vs => vs[i].View())
  }

  predicate NoAlias(vs: seq<Volume>) {
    forall i, j :: 0 <= i < j < |vs| ==> vs[i] != vs[j]
  }

  /** The status a pass works on: the volume records are shared objects the steps write through. */
  class BackupRecord {
    var phase: BackupPhase
    var volumes: seq<Volume>
    var backupTime: Option<int>
    var completionTime: Option<int>

    constructor ()
      ensures Valid() && fresh(volumes) && volumes == []
      ensures View() == Status(NoPhase, [], None, None)
    {
      phase, volumes, backupTime, completionTime := NoPhase, [], None, None;
    }

    ghost predicate Valid()
      reads this
    {
      NoAlias(volumes)
    }

    function View(): Status
      reads this, volumes
    {
      Status(phase, Views(volumes), backupTime, completionTime)
    }

    method Append(name: string)
      requires Valid()
      modifies this`volumes
      ensures Valid() && |volumes| == |old(volumes)| + 1 && old(volumes) == volumes[..|old(volumes)|]
      ensures fresh(volumes[|old(volumes)|])
      ensures Views(volumes) == old(Views(volumes)) + [Enumerated(name)]
    {
      var v := new Volume(name);
      volumes := volumes + [v];
    }

    /** The names the selector picks from a listing. */
    static method MatchedNames(glob: Glob, sel: Selector, pvcs: seq<Pvc>) returns (matched: seq<string>)
      ensures matched == Selected(glob, sel, pvcs)
    {
      matched := Choose(p => Matches(glob, sel, p), (p: Pvc) => p.name, pvcs);
    }

    static method Choose<T, U>(p: T -> bool, f: T -> U, xs: seq<T>) returns (r: seq<U>)
      ensures r == Chosen(p, f, xs)
    {
      r := [];
      for i := 0 to |xs|
        invariant r == Chosen(p, f, xs[..i])
      {
        assert xs[..i + 1][..i] == xs[..i];
        if p(xs[i]) {
          r := r + [f(xs[i])];
        }
      }
      assert xs[..|xs|] == xs;
    }

    /** Append a fresh record for each name that is not tracked. */
    method AppendMissing(names: seq<string>, tracked: set<string>)
      requires Valid()
      requires forall n :: n in tracked <==> Tracked(Views(volumes), n)
      modifies this`volumes
      ensures Valid() && |old(volumes)| <= |volumes| && old(volumes) == volumes[..|old(volumes)|]
      ensures forall k :: |old(volumes)| <= k < |volumes| ==> fresh(volumes[k])
      ensures Views(volumes) == old(Views(volumes)) + Fresh(old(Views(volumes)), names)
    {
      ghost var before := Views(volumes);
      ghost var n0 := |volumes|;
      for i := 0 to |names|
        invariant Valid() && |volumes| >= n0 && volumes[..n0] == old(volumes)
        invariant forall k :: n0 <= k < |volumes| ==> fresh(volumes[k])
        invariant Views(volumes) == before + Fresh(before, names[..i])
      {
        FreshNext(before, names, i);
        if names[i] !in tracked {
          ghost var was := volumes;
          Append(names[i]);
          assert volumes[..n0] == was[..n0];
        }
      }
      assert names[..|names|] == names;
    }

    method Enumerate(glob: Glob, sel: Selector, pvcs: seq<Pvc>)
      requires Valid()
      modifies this`volumes
      ensures Valid() && |old(volumes)| <= |volumes| && old(volumes) == volumes[..|old(volumes)|]
      ensures forall k :: |old(volumes)| <= k < |volumes| ==> fresh(volumes[k])
      ensures View() == old(View()).(volumes := EnsureVolumes(old(View()).volumes, Selected(glob, sel, pvcs)))
    {
      var matched := MatchedNames(glob, sel, pvcs);
      var tracked := TrackedNames();
      AppendMissing(Names.Sort(matched), tracked);
    }

    method TrackedNames() returns (tracked: set<string>)
      ensures forall n :: n in tracked <==> Tracked(Views(volumes), n)
    {
      tracked := {};
      ghost var vs := Views(volumes);
      for i := 0 to |volumes|
        invariant forall n :: n in tracked <==> Tracked(vs[..i], n)
      {
        assert vs[..i + 1] == vs[..i] + [vs[i]];
        forall n ensures Tracked(vs[..i + 1], n) <==> Tracked(vs[..i], n) || vs[i].pvc == n {
          if Tracked(vs[..i], n) {
            var v :| v in vs[..i] && v.pvc == n;
            assert v in vs[..i + 1];
          }
          if vs[i].pvc == n { assert vs[i] in vs[..i + 1]; }
        }
        tracked := tracked + {volumes[i].pvc};
      }
      assert vs[..|vs|] == vs;
    }

    method FirstNonTerminal() returns (idx: int)
      ensures idx < 0 ==> Pick(Views(volumes)).None?
      ensures idx >= 0 ==> Pick(Views(volumes)) == Some(idx)
    {
      ghost var vs := Views(volumes);
      var parked := -1;
      for i := 0 to |volumes|
        invariant forall k :: 0 <= k < i ==> !Untried(vs[k])
        invariant parked < 0 ==> forall k :: 0 <= k < i ==> !ParkedOne(vs[k])
        invariant parked >= 0 ==> parked < i && ParkedOne(vs[parked]) && forall k :: 0 <= k < parked ==> !ParkedOne(vs[k])
      {
        var v := volumes[i];
        if v.phase.IsTerminal() { continue; }
        if IsParked(v.View()) {
          if parked < 0 { parked := i; }
          continue;
        }
        FirstIs(vs, Untried, i);
        return i;
      }
      NoneFirst(vs, Untried);
      if parked >= 0 { FirstIs(vs, ParkedOne, parked); } else { NoneFirst(vs, ParkedOne); }
      return parked;
    }

    /** Drive one volume; what it leaves due is torn down only after the status is stored. */
    method DriveNext(cfg: Config, o: Observation) returns (teardown: Option<string>, effects: seq<Effect>)
      requires Valid()
      modifies volumes
      ensures Valid()
      ensures var d := DriveVolumes(cfg, old(View()).volumes, o);
              View() == old(View()).(volumes := d.volumes) && teardown == d.teardown && effects == d.effects
    {
      teardown, effects := None, [];
      var idx := FirstNonTerminal();
      if idx >= 0 {
        PickDefersParked(Views(volumes));
        ghost var before := Views(volumes);
        var due: bool;
        due, effects := volumes[idx].DriveOnce(cfg, o);
        if due { teardown := Some(volumes[idx].pvc); }
        assert Views(volumes) == before[idx := Drive(cfg, before[idx], o).vol];
      }
    }

    method TallyPhases() returns (anyUploading: bool, anySnapshotting: bool, anyPending: bool, c: nat, f: nat)
      ensures anyUploading <==> SomePhase(Views(volumes), Uploading)
      ensures anySnapshotting <==> SomePhase(Views(volumes), Snapshotting)
      ensures anyPending <==> SomePhase(Views(volumes), Pending) || SomePhase(Views(volumes), Unset)
      ensures c > 0 <==> SomePhase(Views(volumes), Completed)
      ensures f > 0 <==> SomePhase(Views(volumes), Failed)
    {
      ghost var vs := Views(volumes);
      c, f := 0, 0;
      anyUploading, anySnapshotting, anyPending := false, false, false;
      for i := 0 to |volumes|
        invariant anyUploading <==> SomePhase(vs[..i], Uploading)
        invariant anySnapshotting <==> SomePhase(vs[..i], Snapshotting)
        invariant anyPending <==> SomePhase(vs[..i], Pending) || SomePhase(vs[..i], Unset)
        invariant c > 0 <==> SomePhase(vs[..i], Completed)
        invariant f > 0 <==> SomePhase(vs[..i], Failed)
      {
        SomePhaseNext(vs, i);
        match volumes[i].phase {
          case Uploading => anyUploading := true;
          case Snapshotting => anySnapshotting := true;
          case Pending => anyPending := true;
          case Unset => anyPending := true;
          case Completed => c := c + 1;
          case Failed => f := f + 1;
          case Skipped =>
        }
      }
      assert vs[..|vs|] == vs;
    }

    method RollUpPhases() returns (p: BackupPhase)
      ensures p == RollUp(Views(volumes))
    {
      var anyUploading, anySnapshotting, anyPending, c, f := TallyPhases();
      if anyUploading || anySnapshotting || anyPending {
        if anyUploading { return UploadingPhase; }
        if anySnapshotting { return SnapshottingPhase; }
        return PendingPhase;
      }
      if |volumes| == 0 { return CompletedPhase; }
      if f == 0 { return CompletedPhase; }
      if c > 0 { return PartiallyFailedPhase; }
      return FailedPhase;
    }

    method SetCompletionTime(now: int)
      modifies this`completionTime
      ensures completionTime == StampOnce(old(completionTime), now)
    {
      if completionTime.Some? { return; }
      completionTime := Some(now);
    }

    /** Everything the status writer does before the write, and whether this is the first arrival at
        a terminal phase. */
    method PrepareWrite(manifestsDone: bool, releaseOwed: bool, now: int, later: int)
      returns (terminal: bool, justTerminal: bool)
      requires Valid()
      modifies this`phase, this`backupTime, this`completionTime
      ensures Valid() && View() == Settle(old(View()), manifestsDone, releaseOwed, now, later)
      ensures terminal <==> phase.IsTerminal()
      ensures justTerminal <==> terminal && old(backupTime).None?
    {
      var p := RollUpPhases();
      if p.IsTerminal() && (!manifestsDone || releaseOwed) {
        p := UploadingPhase;
      }
      phase := p;
      terminal := p.IsTerminal();
      justTerminal := terminal && backupTime.None?;
      if terminal {
        if backupTime.None? { backupTime := Some(now); }
        SetCompletionTime(later);
      }
    }

    method Abort(now: int, later: int) returns (justTerminal: bool)
      requires Valid()
      modifies this`phase, this`backupTime, this`completionTime
      ensures Valid() && View() == Aborted(old(View()), now, later)
      ensures justTerminal <==> old(backupTime).None?
    {
      phase := FailedPhase;
      justTerminal := backupTime.None?;
      if backupTime.None? { backupTime := Some(now); }
      SetCompletionTime(later);
    }
  }

  lemma {:induction false} FirstIs(vols: seq<VolumeStatus>, p: VolumeStatus -> bool, i: nat)
    requires i < |vols| && p(vols[i]) && forall k :: 0 <= k < i ==> !p(vols[k])
    ensures First(vols, p) == Some(i)
  {
    if i > 0 { FirstIs(vols[1..], p, i - 1); }
  }

  lemma NoneFirst(vols: seq<VolumeStatus>, p: VolumeStatus -> bool)
    requires forall k :: 0 <= k < |vols| ==> !p(vols[k])
    ensures First(vols, p) == None
  {
  }

  lemma SomePhaseNext(vs: seq<VolumeStatus>, i: nat)
    requires i < |vs|
    ensures forall p: VolumePhase :: SomePhase(vs[..i + 1], p) <==> SomePhase(vs[..i], p) || vs[i].phase == p
  {
    assert vs[..i + 1] == vs[..i] + [vs[i]];
    forall p: VolumePhase ensures SomePhase(vs[..i + 1], p) <==> SomePhase(vs[..i], p) || vs[i].phase == p {
      if SomePhase(vs[..i], p) {
        var v :| v in vs[..i] && v.phase == p;
        assert v in vs[..i + 1];
      }
      if vs[i].phase == p { assert vs[i] in vs[..i + 1]; }
    }
  }
}
