/** The steps of the mover mutex are those of the models beside it: a volume's pass takes its Gate,
    Create and Recheck, a repository's queue its Enqueue, StartOp and ends, and a drain its CensusZero. */
module MutexLinks {
  import opened Prelude
  import Mutex = MoverMutex
  import Queue = RepoQueue
  import Maintenance
  import opened VolumeModel
  import opened VolumeStep

  // ---- The pass of a volume ----

  /** The gate's answers in a pass, read in this world. */
  predicate GateReads(w: Mutex.World, m: Mutex.Mover, o: Observation) {
    && !o.slot.Unreadable?
    && (o.slot.Found? <==> m.job.Some? && m.job.value.visible)
    && o.quiesceBefore == Mutex.QuiescenceRequired(w, m.repo)
  }

  /** An open gate is a passed Gate step, and nothing but the cap holds a passed one back. */
  lemma GateIsTheGateStep(w: Mutex.World, m: Mutex.Mover, o: Observation)
    requires m.pass.NoPass? && GateReads(w, m, o)
    ensures MoverSlot(o).Open? ==> Mutex.Admitted(w, m) == m.(pass := Mutex.PastGate)
    ensures Mutex.Admitted(w, m).pass.PastGate? && (o.limit <= 0 || o.slot.Found?) ==> MoverSlot(o).Open?
    ensures !Mutex.Admitted(w, m).pass.PastGate? ==> MoverSlot(o).Blocked?
  {
  }

  /** The create's answer in a pass, and the step's. An error may hide a Job that was created. */
  predicate Answers(c: Creation, answer: Mutex.CreateAnswer) {
    match c
    case Created => answer.Made?
    case AlreadyExists => answer.Exists?
    case NotCreated(_) => answer.Refused? || answer.Ambiguous?
  }

  /** The mover after the pass: its create, and its re-check in a later world if it made the Job. */
  function AfterPass(later: Mutex.World, m: Mutex.Mover, answer: Mutex.CreateAnswer): Mutex.Mover {
    var made := Mutex.Created(m, answer);
    if answer.Made? then Mutex.Rechecked(later, made) else made
  }

  /** Past the gate, the pass moves the volume on, creates and takes back exactly as the steps do. */
  lemma StartMoverIsTheSteps(later: Mutex.World, m: Mutex.Mover, answer: Mutex.CreateAnswer, cfg: Config, v: VolumeStatus,
                             o: Observation)
    requires v.phase.Snapshotting? && !m.uploading && m.pass.PastGate?
    requires MoverSlot(o).Open? && o.creds.Done? && Answers(o.creation, answer)
    requires o.quiesceAfter == Mutex.QuiescenceRequired(later, m.repo)
    ensures var s := StartMover(cfg, v, o, []); var n := AfterPass(later, m, answer);
      && (s.vol.phase.Uploading? <==> n.uploading)
      && (CreatedJob in s.effects <==> answer.Made?)
      && (DroppedJob in s.effects <==> n.pass.Undoing?)
      && (n.pass.NoPass? || n.pass.Undoing?)
  {
    var s := StartMover(cfg, v, o, []);
    if s.effects != [] && !o.quiesceAfter {
      assert s.effects == [CreatedJob];
    } else if s.effects != [] {
      assert s.effects == [CreatedJob, DroppedJob];
    }
  }

  // ---- The repository's queue ----

  /** Handles the consumer has taken and not accounted for. */
  function InHand(c: Queue.Consumer): nat { Queue.Blocking(c.Held()) + Queue.Blocking(c.Owed()) }

  /** The queue of one repository as a lane; past says that the operation in hand is past its drain. */
  function LaneOfShop(s: Queue.Shop, past: bool): Mutex.Lane {
    Mutex.Lane(Queue.Blocking(s.lane.queue),
               if InHand(s.consumer) == 0 then Mutex.Free else if past then Mutex.Executing else Mutex.Draining)
  }

  /** The counter the admission gate reads is positive exactly while the lane requires quiescence. */
  lemma GateReadsTheLane(run: seq<Queue.Step>, w: Mutex.World, r: string, past: bool)
    requires Queue.ValidSteps(Queue.OpenShop, run)
    requires Mutex.LaneOf(w, r) == LaneOfShop(Queue.After(Queue.OpenShop, run), past)
    ensures Mutex.QuiescenceRequired(w, r) <==> Queue.After(Queue.OpenShop, run).lane.moverBlocking > 0
  {
    Queue.ShopKept(Queue.OpenShop, run);
  }

  /** The lane's step that a step of the queue is, if it is one. */
  function LaneStep(s: Queue.Shop, a: Queue.Step, r: string, past: bool): Option<Mutex.Action>
    requires Queue.CanStep(s, a)
  {
    match a
    case Append => if Queue.BlocksMovers(s.producer.h.kind) then Some(Mutex.Enqueue(r)) else None
    case TryPop =>
      if s.lane.queue != [] && Queue.BlocksMovers(s.lane.queue[0].kind) then Some(Mutex.StartOp(r)) else None
    case Account =>
      if !Queue.BlocksMovers(s.consumer.h.kind) then None
      else Some(if past then Mutex.OpEnds(r) else Mutex.DrainGivesUp(r))
    case _ => None
  }

  /** What the step does to the lane. An operation taken from the queue has its drain ahead of it. */
  predicate Matches(s: Queue.Shop, a: Queue.Step, w: Mutex.World, r: string, past: bool)
    requires Queue.CanStep(s, a)
  {
    var step := LaneStep(s, a, r, past);
    var after := LaneOfShop(Queue.Next(s, a), past && !a.TryPop?);
    if step.None? then after == Mutex.LaneOf(w, r)
    else Mutex.Enabled(w, step.value) && Mutex.LaneOf(Mutex.Do(w, step.value), r) == after
  }

  lemma AppendMatches(s: Queue.Shop, w: Mutex.World, r: string, past: bool)
    requires Queue.CanStep(s, Queue.Append) && Mutex.LaneOf(w, r) == LaneOfShop(s, past)
    ensures Matches(s, Queue.Append, w, r, past)
  {
    Queue.BlockingOne(s.producer.h);
    Queue.BlockingSplits(s.lane.queue, [s.producer.h]);
  }

  lemma PopMatches(s: Queue.Shop, w: Mutex.World, r: string, past: bool)
    requires Queue.CanStep(s, Queue.TryPop) && Mutex.LaneOf(w, r) == LaneOfShop(s, past)
    ensures Matches(s, Queue.TryPop, w, r, past)
  {
    if s.lane.queue != [] {
      Queue.BlockingHead(s.lane.queue);
      Queue.BlockingOne(s.lane.queue[0]);
    }
  }

  /** Until the queue is shut down, every step of it is a step of its lane or leaves the lane alone. */
  lemma QueueStepsAreLaneSteps(s: Queue.Shop, a: Queue.Step, w: Mutex.World, r: string, past: bool)
    requires Queue.CanStep(s, a) && !Queue.Next(s, a).consumer.Leaving()
    requires Mutex.LaneOf(w, r) == LaneOfShop(s, past)
    ensures Matches(s, a, w, r, past)
  {
    match a {
      case Append => AppendMatches(s, w, r, past);
      case TryPop => PopMatches(s, w, r, past);
      case Account => Queue.BlockingOne(s.consumer.h);
      case _ =>
    }
  }

  // ---- The drain ----

  /** What the census counts. */
  ghost function CountedMovers(w: Mutex.World): set<string> { set n | n in w.movers && Mutex.Counted(w.movers[n]) }

  /** The worlds the drain's censuses were taken in. */
  ghost predicate Reads(worlds: seq<Mutex.World>, turns: seq<Maintenance.DrainTurn>) {
    |worlds| == |turns| &&
    forall k :: 0 <= k < |turns| ==>
      (turns[k].census.Ok? ==> turns[k].census.value == |CountedMovers(worlds[k])|)
  }

  lemma NoneCountedIsZero(w: Mutex.World)
    ensures |CountedMovers(w)| == 0 <==> Mutex.NoneCounted(w)
  {
    if |CountedMovers(w)| > 0 {
      var n :| n in CountedMovers(w);
    }
    if n :| n in w.movers && Mutex.Counted(w.movers[n]) { assert n in CountedMovers(w); }
  }

  /** A drain passes exactly when one of its censuses succeeds in a world where CensusZero is enabled, after
      nothing but busy ones. */
  lemma DrainIsTheCensusStep(worlds: seq<Mutex.World>, turns: seq<Maintenance.DrainTurn>, r: string)
    requires Reads(worlds, turns)
    requires forall w <- worlds :: Mutex.LaneOf(w, r).head.Draining?
    ensures Maintenance.Drain(turns).Quiet? <==>
      exists k :: 0 <= k < |turns| && turns[k].census.Ok? && Mutex.Enabled(worlds[k], Mutex.CensusZero(r))
                  && forall j :: 0 <= j < k ==> Maintenance.Waits(turns[j])
  {
    Maintenance.DrainedExactlyOnZero(turns);
    forall w ensures |CountedMovers(w)| == 0 <==> Mutex.NoneCounted(w) { NoneCountedIsZero(w); }
  }
}
