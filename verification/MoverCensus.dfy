/** The census of data-mover Jobs (internal/concurrency, and the listing around it). */
module MoverCensus {

  datatype Condition = Condition(isTrue: bool, isComplete: bool, isFailed: bool)

  /** perPVC: the Job carries the per-PVC label, so it is a data mover and not a maintenance Job. */
  datatype MoverJob = MoverJob(perPVC: bool, deleting: bool, conditions: seq<Condition>)

  predicate JobTerminal(j: MoverJob) {
    exists c <- j.conditions :: c.isTrue && (c.isComplete || c.isFailed)
  }

  predicate HoldsSlot(j: MoverJob) { !JobTerminal(j) }

  /** A Job the drain waits for: a per-PVC mover, not terminal, not being deleted. */
  predicate LiveMover(j: MoverJob) { j.perPVC && !j.deleting && HoldsSlot(j) }

  ghost function Positions(jobs: seq<MoverJob>, p: MoverJob -> bool): set<int> {
    set i | 0 <= i < |jobs| && p(jobs[i])
  }

  method TerminalScan(j: MoverJob) returns (terminal: bool)
    ensures terminal <==> JobTerminal(j)
    ensures terminal <==> exists c <- j.conditions :: c.isTrue && (c.isComplete || c.isFailed)
  {
    for i := 0 to |j.conditions|
      invariant forall k :: 0 <= k < i ==> !(j.conditions[k].isTrue && (j.conditions[k].isComplete || j.conditions[k].isFailed))
    {
      var c := j.conditions[i];
      if !c.isTrue { continue; }
      if c.isComplete || c.isFailed {
        assert c in j.conditions;
        return true;
      }
    }
    return false;
  }

  /** Counts the Jobs that occupy a slot: one for each position, so a Job listed twice counts twice. */
  method RunningMoverJobs(jobs: seq<MoverJob>) returns (running: nat)
    ensures running == |Positions(jobs, HoldsSlot)|
    ensures running == |Positions(jobs, (j: MoverJob) => forall c <- j.conditions :: c.isTrue ==> !c.isComplete && !c.isFailed)|
  {
    running := 0;
    ghost var seen: set<int> := {};
    for i := 0 to |jobs|
      invariant seen == set k | 0 <= k < i && HoldsSlot(jobs[k])
      invariant running == |seen|
    {
      var terminal := TerminalScan(jobs[i]);
      if !terminal {
        running := running + 1;
        seen := seen + {i};
      }
    }
    assert seen == Positions(jobs, HoldsSlot);
    assert seen == Positions(jobs, (j: MoverJob) => forall c <- j.conditions :: c.isTrue ==> !c.isComplete && !c.isFailed);
  }

  function Select(jobs: seq<MoverJob>, p: MoverJob -> bool): (r: seq<MoverJob>)
    ensures forall j <- r :: p(j)
  {
    if jobs == [] then []
    else (if p(jobs[0]) then [jobs[0]] else []) + Select(jobs[1..], p)
  }

  lemma {:induction false} SelectKeepsAll(jobs: seq<MoverJob>, p: MoverJob -> bool, i: nat)
    requires i < |jobs| && p(jobs[i])
    ensures jobs[i] in Select(jobs, p)
  {
    if i > 0 { SelectKeepsAll(jobs[1..], p, i - 1); }
  }

  /** The drain's census: list, keep the per-PVC movers, drop the ones being deleted, count. */
  method ActiveMoverCount(jobs: seq<MoverJob>) returns (n: nat)
    ensures n == 0 <==> forall j <- jobs :: !LiveMover(j)
    ensures n == 0 <==> forall j <- jobs ::
      !j.perPVC || j.deleting || exists c <- j.conditions :: c.isTrue && (c.isComplete || c.isFailed)
  {
    var movers := Select(jobs, (j: MoverJob) => j.perPVC);
    var live := Select(movers, (j: MoverJob) => !j.deleting);
    n := RunningMoverJobs(live);
    if i :| 0 <= i < |jobs| && LiveMover(jobs[i]) {
      SelectKeepsAll(jobs, (j: MoverJob) => j.perPVC, i);
      var k :| 0 <= k < |movers| && movers[k] == jobs[i];
      SelectKeepsAll(movers, (j: MoverJob) => !j.deleting, k);
      var m :| 0 <= m < |live| && live[m] == jobs[i];
      assert m in Positions(live, HoldsSlot);
    }
    assert forall j <- jobs :: !LiveMover(j) <==>
      !j.perPVC || j.deleting || exists c <- j.conditions :: c.isTrue && (c.isComplete || c.isFailed);
    if n > 0 {
      ghost var m :| m in Positions(live, HoldsSlot);
      SelectSound(movers, (j: MoverJob) => !j.deleting, live[m]);
      SelectSound(jobs, (j: MoverJob) => j.perPVC, live[m]);
      assert LiveMover(live[m]);
    }
  }

  lemma {:induction false} SelectSound(jobs: seq<MoverJob>, p: MoverJob -> bool, j: MoverJob)
    requires j in Select(jobs, p)
    ensures j in jobs && p(j)
  {
    if jobs != [] && !(p(jobs[0]) && j == jobs[0]) { SelectSound(jobs[1..], p, j); }
  }

  /** Go's int32 conversion of a count. */
  function ToInt32(n: int): int {
    var m := n % 0x1_0000_0000;
    if m < 0x8000_0000 then m else m - 0x1_0000_0000
  }

  function CanStartMover(running: nat, limit: int): bool {
    limit <= 0 || ToInt32(running) < limit
  }

  /** A gate that is open says no more than that: with a limit set, it keeps to the cap exactly while the
      count fits 31 bits, or happens to wrap to a number between the limit and 2^31. */
  lemma CapIsExact(running: nat, limit: int)
    requires 0 < limit < 0x8000_0000
    ensures (CanStartMover(running, limit) ==> running < limit) <==>
      running < 0x8000_0000 || limit <= running % 0x1_0000_0000 < 0x8000_0000
    ensures running < 0x8000_0000 ==> (CanStartMover(running, limit) <==> running < limit)
    ensures CanStartMover(0x8000_0000, limit)
  {
    if running < 0x1_0000_0000 { assert running % 0x1_0000_0000 == running; }
  }
}
