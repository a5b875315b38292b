/** What one pass leaves of a Backup's status, said over its volumes: which PVCs are selected, which
    volume is picked, what the phases roll up to, and what the writer stamps. */
module PassOutcomes {
  import opened Prelude
  import opened VolumeModel
  import opened BackupPass

  // ---- Selection ----

  /** Its labels are all there, it is in some include pattern if there are any, and in no exclude pattern. A
      malformed pattern matches nothing. */
  predicate Wanted(glob: Glob, sel: Selector, p: Pvc) {
    && (forall k <- sel.matchLabels :: if k in p.labels then p.labels[k] == sel.matchLabels[k] else sel.matchLabels[k] == "")
    && (sel.included == [] || exists g <- sel.included :: glob(g, p.name) == Some(true))
    && (forall g <- sel.excluded :: glob(g, p.name) != Some(true))
  }

  lemma {:induction false} ChosenExactly<T, U>(p: T -> bool, f: T -> U, xs: seq<T>, y: U)
    ensures y in Chosen(p, f, xs) <==> exists x <- xs :: p(x) && f(x) == y
  {
    if xs != [] {
      var n := |xs| - 1;
      ChosenExactly(p, f, xs[..n], y);
      assert xs == xs[..n] + [xs[n]];
      if x :| x in xs && p(x) && f(x) == y { assert x in xs[..n] || x == xs[n]; }
    }
  }

  /** A name is selected exactly when a PVC of that name is wanted. */
  lemma SelectedExactly(glob: Glob, sel: Selector, pvcs: seq<Pvc>, name: string)
    ensures name in Selected(glob, sel, pvcs) <==> exists p <- pvcs :: p.name == name && Wanted(glob, sel, p)
  {
    ChosenExactly(p => Matches(glob, sel, p), (p: Pvc) => p.name, pvcs, name);
    forall p: Pvc ensures Matches(glob, sel, p) <==> Wanted(glob, sel, p) {}
  }

  // ---- The pick ----

  predicate Parked(v: VolumeStatus) { (v.phase.Pending? || v.phase.Unset?) && v.reason.Unresolvable? }

  predicate Done(v: VolumeStatus) { v.phase.Completed? || v.phase.Skipped? || v.phase.Failed? }

  /** The first volume that is neither done nor parked; if there is none, the first that is not done. */
  lemma PickIsFirst(vols: seq<VolumeStatus>)
    ensures Pick(vols).None? <==> forall v <- vols :: Done(v)
    ensures Pick(vols).Some? ==>
      var i := Pick(vols).value;
      && i < |vols| && !Done(vols[i])
      && (!Parked(vols[i]) ==> forall k :: 0 <= k < i ==> Done(vols[k]) || Parked(vols[k]))
      && (Parked(vols[i]) ==> (forall k :: 0 <= k < i ==> Done(vols[k])) && forall v <- vols :: Done(v) || Parked(v))
  {
    PickDefersParked(vols);
    if First(vols, Untried).Some? {
      var i := First(vols, Untried).value;
      forall k | 0 <= k < i ensures Done(vols[k]) || Parked(vols[k]) { assert !Untried(vols[k]); }
    } else {
      forall v | v in vols ensures Done(v) || Parked(v) { assert !Untried(v); }
      if First(vols, ParkedOne).Some? {
        var i := First(vols, ParkedOne).value;
        forall k | 0 <= k < i ensures Done(vols[k]) { assert !ParkedOne(vols[k]) && vols[k] in vols; }
      }
    }
  }

  // ---- The roll-up ----

  /** What the volumes come to. Work under way shows as its furthest phase; once all are done, a failure is
      never a success, and a partial one takes a volume that completed. Skipped volumes count for nothing. */
  lemma RollUpExactly(vols: seq<VolumeStatus>)
    ensures var p := RollUp(vols);
      && (p.UploadingPhase? <==> exists v <- vols :: v.phase.Uploading?)
      && (p.SnapshottingPhase? <==>
            (exists v <- vols :: v.phase.Snapshotting?) && forall v <- vols :: !v.phase.Uploading?)
      && (p.PendingPhase? <==>
            && (exists v <- vols :: v.phase.Pending? || v.phase.Unset?)
            && forall v <- vols :: !v.phase.Uploading? && !v.phase.Snapshotting?)
      && (p.CompletedPhase? <==> forall v <- vols :: v.phase.Completed? || v.phase.Skipped?)
      && (p.PartiallyFailedPhase? <==>
            && (forall v <- vols :: Done(v))
            && (exists v <- vols :: v.phase.Failed?) && exists v <- vols :: v.phase.Completed?)
      && (p.FailedPhase? <==>
            && (forall v <- vols :: Done(v))
            && (exists v <- vols :: v.phase.Failed?) && forall v <- vols :: !v.phase.Completed?)
  {
    SomePhases(vols);
    RollUpTerminalExactly(vols);
    if forall v <- vols :: Done(v) {
      assert !SomePhase(vols, Uploading) && !SomePhase(vols, Snapshotting) && !SomePhase(vols, Pending) && !SomePhase(vols, Unset);
    }
  }

  lemma SomePhases(vols: seq<VolumeStatus>)
    ensures SomePhase(vols, Uploading) <==> exists v <- vols :: v.phase.Uploading?
    ensures SomePhase(vols, Snapshotting) <==> exists v <- vols :: v.phase.Snapshotting?
    ensures SomePhase(vols, Pending) || SomePhase(vols, Unset) <==> exists v <- vols :: v.phase.Pending? || v.phase.Unset?
    ensures SomePhase(vols, Failed) <==> exists v <- vols :: v.phase.Failed?
    ensures SomePhase(vols, Completed) <==> exists v <- vols :: v.phase.Completed?
  {
  }

  // ---- The write ----

  /** The writer puts the roll-up down as it is, unless it is terminal and the manifest half is still running
      or a release is owed: then the Backup still reads Uploading. Volumes are written as they are, and the
      two times are stamped with a terminal phase, each once. */
  lemma SettleExactly(st: Status, manifestsDone: bool, releaseOwed: bool, now: int, later: int)
    ensures var t := Settle(st, manifestsDone, releaseOwed, now, later);
      var held := (forall v <- st.volumes :: Done(v)) && (!manifestsDone || releaseOwed);
      && t.volumes == st.volumes
      && t.phase == (if held then UploadingPhase else RollUp(st.volumes))
      && (t.phase.IsTerminal() <==> (forall v <- st.volumes :: Done(v)) && manifestsDone && !releaseOwed)
      && t.backupTime == (if t.phase.IsTerminal() && st.backupTime.None? then Some(now) else st.backupTime)
      && t.completionTime == (if t.phase.IsTerminal() && st.completionTime.None? then Some(later) else st.completionTime)
  {
    RollUpTerminalExactly(st.volumes);
  }

  /** A failed pre-snapshot hook fails the Backup and leaves its volumes as they are. */
  lemma AbortedExactly(st: Status, now: int, later: int)
    ensures var t := Aborted(st, now, later);
      && t.phase.FailedPhase? && t.volumes == st.volumes
      && t.backupTime == (if st.backupTime.None? then Some(now) else st.backupTime)
      && t.completionTime == (if st.completionTime.None? then Some(later) else st.completionTime)
  {
  }

  /** A phase is a success exactly when nothing failed; for a rolled-up status that is Completed alone. */
  lemma SucceededExactly(st: Status, manifestsDone: bool, releaseOwed: bool, now: int, later: int)
    ensures Settle(st, manifestsDone, releaseOwed, now, later).phase.Succeeded() <==>
      (forall v <- st.volumes :: v.phase.Completed? || v.phase.Skipped?) && manifestsDone && !releaseOwed
  {
    RollUpExactly(st.volumes);
    SettleExactly(st, manifestsDone, releaseOwed, now, later);
    if forall v <- st.volumes :: v.phase.Completed? || v.phase.Skipped? { assert forall v <- st.volumes :: Done(v); }
  }
}
