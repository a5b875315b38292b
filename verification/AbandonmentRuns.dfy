/** Which volumes an abandonment may end, on the two planes. */
module AbandonmentRuns {
  import opened Prelude
  import opened VolumeStep
  import opened Abandonment
  import opened Reconciliation
  import opened RunLaws
  import opened ResidueRuns

  /** In every run of a Backup of the namespace plane, a volume that an abandoning write ends is, in the
      stored record if that write is ever stored, one that waits and was attempted more than the grace ago. */
  lemma NamespaceKillEndsOnlyWaiting(me: Identity, cfg: Config, w: World, acts: seq<Action>, a: Action)
    requires me.Valid() && me.run == "" && Initial(w) && ValidRun(me, cfg, w, acts)
    requires a.Abandon? && Enabled(me, cfg, Exec(me, cfg, w, acts), a)
    ensures var u := Exec(me, cfg, w, acts); var x := AbandoningWrite(u, a.stamped, a.completed);
      && x in Do(me, cfg, u, a).inflight && WriteFits(x)
      && (forall v <- u.status.volumes :: Ended(v) != v ==>
            v.phase.IsWaiting() && v.firstAttemptAt.Some? && a.judged - v.firstAttemptAt.value > ABANDONMENT_GRACE)
  {
    InitialInv(me, w);
    RunKeeps(me, cfg, w, acts);
    var u := Exec(me, cfg, w, acts);
    StepKeeps(me, cfg, u, a);
    LastProgressIsNewest(u.status.volumes, a.floor);
    BudgetNeverDecides(u.status.volumes, a.floor, a.judged);
    var x := AbandoningWrite(u, a.stamped, a.completed);
    assert x in Do(me, cfg, u, a).inflight;
  }

  /** What a first pass over a PVC writes down has it in flight. */
  lemma InFlightAfterOnePass(stamped: int, completed: int)
    ensures var t := FirstWrite(EXPOSES).to;
      && |t.volumes| == 1 && t.volumes[0].phase.Snapshotting? && !t.phase.IsTerminal()
      && AbandonedAs(t, stamped, completed).volumes[0].phase.Failed?
  {
    FirstWriteIsOpen(EXPOSES);
    var t := FirstWrite(EXPOSES).to;
    assert t.volumes[0].phase.Snapshotting?;
    assert AbandonedAs(t, stamped, completed).volumes[0] == Ended(t.volumes[0]);
  }

  /** A run of the cluster plane lists its children again before it ends them: a child that had listed no
      volume when the run was judged may have one in flight by then, and it is failed all the same. */
  lemma RelistedChildMayBeInFlight(floor: int, judged: int, stamped: int, completed: int)
    requires judged - floor > ABANDONMENT_GRACE
    ensures Abandonable(BEFORE.status.volumes, floor, judged)
    ensures Enabled(SHOP, BUILT_IN, BEFORE, PassOf(EXPOSES, None))
    ensures var p := Do(SHOP, BUILT_IN, BEFORE, PassOf(EXPOSES, None)).proc;
      && p.Writing? && |p.write.to.volumes| == 1
      && p.write.to.volumes[0].phase.Snapshotting? && !p.write.to.phase.IsTerminal()
      && AbandonedAs(p.write.to, stamped, completed).volumes[0].phase.Failed?
  {
    FirstPass(EXPOSES, None);
    InFlightAfterOnePass(stamped, completed);
  }
}
