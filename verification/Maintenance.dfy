/** Repository maintenance operations: drain, create, wait, clean up. The loops poll an environment
    they do not control, so each runs against a transcript of what the environment answered; the
    methods are proved against functions on transcripts, and the promises are lemmas about those.
    Times are seconds. A transcript that ends early means the loop is still waiting. */
module Maintenance {
  import opened Prelude
  import Queue = RepoQueue

  datatype MoverOp = Init | Forget | Prune | Check | Unlock

  /** The drain side's list of the operations that need mover quiescence. */
  predicate BlocksMovers(op: MoverOp) { op == Unlock || op == Prune }

  /** What the source submits together: a queue kind and the operations run under it. An erasure runs
      a forget and a prune under one prune. */
  predicate Submitted(kind: Queue.OpKind, ops: seq<MoverOp>) {
    || (kind == Queue.Forget && ops == [Forget])
    || (kind == Queue.Unlock && ops == [Unlock])
    || (kind == Queue.Prune && (ops == [Prune] || ops == [Forget, Prune]))
    || (kind == Queue.Check && ops == [Check])
  }

  /** The two halves of the mutex agree: admission is shut for a submission exactly when one of its
      operations waits for the drain. */
  lemma BothHalvesAgree(kind: Queue.OpKind, ops: seq<MoverOp>)
    requires Submitted(kind, ops)
    ensures Queue.BlocksMovers(kind) <==> exists op <- ops :: BlocksMovers(op)
    ensures Queue.BlocksMovers(kind) <==> Unlock in ops || Prune in ops
    ensures forall op :: BlocksMovers(op) <==> op == Unlock || op == Prune
  {
    if kind == Queue.Prune { assert ops[|ops| - 1] == Prune && Prune in ops; }
    if kind == Queue.Unlock { assert ops[0] == Unlock && Unlock in ops; }
  }

  const POLL := 2
  const GRACE := 60
  const SHORT_DEADLINE := 600
  const LONG_DEADLINE := 14400
  const DRAIN_DEADLINE := 1800
  const BACKOFF_LIMIT := 1

  function OpDeadline(op: MoverOp): int { if op == Prune || op == Check then LONG_DEADLINE else SHORT_DEADLINE }

  /** When the drain's context ends: its own cap inside the operation's. */
  function DrainEnds(op: MoverOp, opStart: int, drainStart: int): int {
    var opEnds := opStart + OpDeadline(op);
    if drainStart + DRAIN_DEADLINE < opEnds then drainStart + DRAIN_DEADLINE else opEnds
  }

  /** Which way a select between the context and the ticker went. */
  datatype Arm = Tick | Done

  // ---- The drain ----

  /** One turn of the drain loop: the census, taken at a time, and how the wait after it ended. */
  datatype DrainTurn = DrainTurn(at: int, census: Result<nat>, arm: Arm)

  datatype DrainOutcome = Quiet | CensusFailed | DrainTimedOut(inFlight: nat) | StillDraining

  function Drain(turns: seq<DrainTurn>): DrainOutcome {
    if turns == [] then StillDraining
    else match turns[0].census
      case Err(_) => CensusFailed
      case Ok(n) =>
        if n == 0 then Quiet
        else if turns[0].arm.Done? then DrainTimedOut(n)
        else Drain(turns[1..])
  }

  method WaitForMoverQuiescence(turns: seq<DrainTurn>) returns (o: DrainOutcome)
    ensures o == Drain(turns)
  {
    var i := 0;
    while i < |turns|
      invariant 0 <= i <= |turns|
      invariant Drain(turns) == Drain(turns[i..])
    {
      match turns[i].census {
        case Err(_) => return CensusFailed;
        case Ok(n) =>
          if n == 0 { return Quiet; }
          if turns[i].arm.Done? { return DrainTimedOut(n); }
      }
      i := i + 1;
    }
    return StillDraining;
  }

  /** A turn after which the loop looks again. */
  predicate Waits(t: DrainTurn) { t.census.Ok? && t.census.value > 0 && t.arm.Tick? }

  /** Where the drain stops, if the transcript reaches it. */
  lemma {:induction false} DrainStopsAt(turns: seq<DrainTurn>) returns (k: nat)
    ensures k <= |turns| && forall j :: 0 <= j < k ==> Waits(turns[j])
    ensures Drain(turns).StillDraining? <==> k == |turns|
    ensures k < |turns| ==> !Waits(turns[k]) && Drain(turns) == Drain([turns[k]])
  {
    if turns == [] || !Waits(turns[0]) {
      k := 0;
      if turns != [] { assert [turns[0]][0] == turns[0]; }
    } else {
      k := DrainStopsAt(turns[1..]);
      k := k + 1;
    }
  }

  /** The operation goes past its drain exactly when a census read zero after nothing but busy ones. */
  lemma DrainedExactlyOnZero(turns: seq<DrainTurn>)
    ensures Drain(turns).Quiet? <==>
      exists k :: 0 <= k < |turns| && turns[k].census == Ok(0) && forall j :: 0 <= j < k ==> Waits(turns[j])
  {
    var k := DrainStopsAt(turns);
    if m :| 0 <= m < |turns| && turns[m].census == Ok(0) && forall j :: 0 <= j < m ==> Waits(turns[j]) {
      assert m == k;
    }
  }

  /** How it ends, at the first turn that is not merely busy: past, on a census of zero; failed, on a census
      that failed; and timed out with the count it last saw. */
  lemma DrainIsDecidedByTheFirstStop(turns: seq<DrainTurn>) returns (k: nat)
    ensures k <= |turns| && forall j :: 0 <= j < k ==> turns[j].census.Ok? && turns[j].census.value > 0 && turns[j].arm.Tick?
    ensures k == |turns| ==> Drain(turns) == StillDraining
    ensures k < |turns| ==>
      && (turns[k].census.Err? ==> Drain(turns) == CensusFailed)
      && (turns[k].census.Ok? && turns[k].census.value == 0 ==> Drain(turns) == Quiet)
      && (turns[k].census.Ok? && turns[k].census.value > 0 ==>
            turns[k].arm.Done? && Drain(turns) == DrainTimedOut(turns[k].census.value))
  {
    k := DrainStopsAt(turns);
  }

  /** The clock and the scheduler: the k-th tick is received no earlier than k periods in; and once the
      context has ended the wait takes its arm, which is an assumption about the select, since with both
      arms ready it may take either. */
  predicate Timed(turns: seq<DrainTurn>, start: int, ends: int) {
    forall k :: 0 <= k < |turns| ==> turns[k].at >= start + POLL * k && (turns[k].at >= ends ==> turns[k].arm.Done?)
  }

  /** The drain is bounded by its own cap: whatever the operation's deadline, the loop has ended after
      at most 901 looks, and a turn past thirty minutes is its last. */
  lemma DrainEndsByItsOwnCap(op: MoverOp, opStart: int, start: int, turns: seq<DrainTurn>)
    requires Timed(turns, start, DrainEnds(op, opStart, start))
    ensures |turns| > DRAIN_DEADLINE / POLL ==> !Drain(turns).StillDraining?
    ensures forall k :: 0 <= k < |turns| && turns[k].at >= start + DRAIN_DEADLINE ==> !Waits(turns[k])
    ensures DrainEnds(op, opStart, start) <= start + DRAIN_DEADLINE
    ensures op == Prune && start <= opStart + 12600 ==> DrainEnds(op, opStart, start) == start + 1800
    ensures op == Unlock && start >= opStart ==> DrainEnds(op, opStart, start) == opStart + 600
    ensures OpDeadline(op) == (match op case Prune => 4 * 60 * 60 case Check => 4 * 60 * 60 case _ => 10 * 60)
  {
    var k := DrainStopsAt(turns);
    if |turns| > DRAIN_DEADLINE / POLL {
      assert turns[900].at >= start + DRAIN_DEADLINE;
      assert !Waits(turns[900]);
    }
  }

  // ---- Creating the Job ----

  /** What is under the deterministic name at one instant. */
  datatype Slot = Empty | Live(id: nat) | Dying(id: nat)

  /** One turn of the create loop: what the name held at the Create and, a moment later, at the Get;
      whether either call failed for another reason. */
  datatype CreateTurn = CreateTurn(atCreate: Slot, createFails: bool, atGet: Slot, getFails: bool, arm: Arm)

  datatype Claim = Owned | Adopted(id: nat) | CreateFailed | InspectFailed | GraveTimedOut | StillCreating

  function CreateJob(turns: seq<CreateTurn>): Claim {
    if turns == [] then StillCreating
    else
      var t := turns[0];
      if t.createFails then CreateFailed
      else if t.atCreate.Empty? then Owned
      else if t.getFails then InspectFailed
      else match t.atGet
        case Empty => CreateJob(turns[1..])
        case Live(id) => Adopted(id)
        case Dying(_) => if t.arm.Done? then GraveTimedOut else CreateJob(turns[1..])
  }

  method CreateMaintenanceJob(turns: seq<CreateTurn>) returns (c: Claim)
    ensures c == CreateJob(turns)
  {
    var i := 0;
    while i < |turns|
      invariant 0 <= i <= |turns|
      invariant CreateJob(turns) == CreateJob(turns[i..])
    {
      var t := turns[i];
      i := i + 1;
      if t.createFails { return CreateFailed; }
      if t.atCreate.Empty? { return Owned; }
      if t.getFails { return InspectFailed; }
      match t.atGet {
        case Empty => continue;
        case Live(id) => return Adopted(id);
        case Dying(_) =>
      }
      if t.arm.Done? { return GraveTimedOut; }
    }
    return StillCreating;
  }

  /** A turn that met a grave, or a name that emptied under it, and tries again. */
  predicate Retries(t: CreateTurn) {
    !t.createFails && !t.atCreate.Empty? && !t.getFails && (t.atGet.Empty? || (t.atGet.Dying? && t.arm.Tick?))
  }

  predicate Takes(t: CreateTurn) {
    !t.createFails && (t.atCreate.Empty? || (!t.getFails && t.atGet.Live?))
  }

  lemma {:induction false} CreateStopsAt(turns: seq<CreateTurn>) returns (k: nat)
    ensures k <= |turns| && forall j :: 0 <= j < k ==> Retries(turns[j])
    ensures CreateJob(turns).StillCreating? <==> k == |turns|
    ensures k < |turns| ==> !Retries(turns[k]) && CreateJob(turns) == CreateJob([turns[k]])
  {
    if turns == [] || !Retries(turns[0]) {
      k := 0;
      if turns != [] { assert [turns[0]][0] == turns[0]; }
    } else {
      k := CreateStopsAt(turns[1..]);
      k := k + 1;
    }
  }

  /** The create succeeds exactly when, after waiting out nothing but graves, the name was free at the
      create (the Job is its own) or held a Job that the read saw live (the one it adopts). A
      terminating Job is never taken, whatever happens to the name between two calls. */
  lemma ClaimIsOwnOrSeenLive(turns: seq<CreateTurn>)
    ensures (CreateJob(turns).Owned? || CreateJob(turns).Adopted?) <==>
      exists k :: 0 <= k < |turns| && Takes(turns[k]) && forall j :: 0 <= j < k ==> Retries(turns[j])
    ensures CreateJob(turns).Owned? ==>
      exists k :: 0 <= k < |turns| && Takes(turns[k]) && turns[k].atCreate == Empty
    ensures CreateJob(turns).Adopted? ==>
      exists k :: 0 <= k < |turns| && Takes(turns[k]) && turns[k].atGet == Live(CreateJob(turns).id)
  {
    var k := CreateStopsAt(turns);
    if m :| 0 <= m < |turns| && Takes(turns[m]) && forall j :: 0 <= j < m ==> Retries(turns[j]) {
      assert m == k;
    }
    if CreateJob(turns).Owned? || CreateJob(turns).Adopted? { assert Takes(turns[k]); }
  }

  /** How the create ends, at the first turn that does not meet a grave or a name just emptied. */
  lemma CreateIsDecidedByTheFirstStop(turns: seq<CreateTurn>) returns (k: nat)
    ensures k <= |turns|
    ensures forall j :: 0 <= j < k ==>
      && !turns[j].createFails && turns[j].atCreate != Empty && !turns[j].getFails
      && (turns[j].atGet == Empty || (turns[j].atGet.Dying? && turns[j].arm.Tick?))
    ensures k == |turns| ==> CreateJob(turns) == StillCreating
    ensures k < |turns| ==>
      var t := turns[k];
      && (t.createFails ==> CreateJob(turns) == CreateFailed)
      && (!t.createFails && t.atCreate == Empty ==> CreateJob(turns) == Owned)
      && (!t.createFails && t.atCreate != Empty && t.getFails ==> CreateJob(turns) == InspectFailed)
      && (!t.createFails && t.atCreate != Empty && !t.getFails ==>
            && t.atGet != Empty
            && (t.atGet.Live? ==> CreateJob(turns) == Adopted(t.atGet.id))
            && (t.atGet.Dying? ==> t.arm.Done? && CreateJob(turns) == GraveTimedOut))
  {
    k := CreateStopsAt(turns);
  }

  // ---- Waiting for the Job ----

  datatype Sight = Absent | ReadFailed | Job(succeeded: nat, failed: nat, isComplete: bool, isFailed: bool)

  predicate Completed(s: Sight) { s.Job? && (s.succeeded >= 1 || s.isComplete) }

  predicate Broken(s: Sight) { s.Job? && !Completed(s) && (s.isFailed || s.failed > BACKOFF_LIMIT) }

  /** One turn of the wait: what the read saw, the two clock readings an absence takes, and how the
      wait after it ended. */
  datatype WaitTurn = WaitTurn(sight: Sight, now: int, later: int, arm: Arm)

  datatype WaitOutcome = Succeeded | JobFailed | Unreadable | GoneTooLong(elapsed: int) | TimedOut | StillWaiting

  function Since(missing: Option<int>, t: WaitTurn): int { if missing.Some? then missing.value else t.now }

  function Await(turns: seq<WaitTurn>, missing: Option<int>): WaitOutcome
    decreases |turns|
  {
    if turns == [] then StillWaiting
    else
      var t := turns[0];
      if t.sight.ReadFailed? then Unreadable
      else if t.sight.Absent? then
        var since := Since(missing, t);
        if t.later - since > GRACE then GoneTooLong(t.later - since)
        else if t.arm.Done? then TimedOut
        else Await(turns[1..], Some(since))
      else if Completed(t.sight) then Succeeded
      else if Broken(t.sight) then JobFailed
      else if t.arm.Done? then TimedOut
      else Await(turns[1..], None)
  }

  method WaitForMaintenanceJob(turns: seq<WaitTurn>) returns (o: WaitOutcome)
    ensures o == Await(turns, None)
  {
    var missingSince: Option<int> := None;
    var i := 0;
    while i < |turns|
      invariant 0 <= i <= |turns|
      invariant Await(turns, None) == Await(turns[i..], missingSince)
    {
      var t := turns[i];
      i := i + 1;
      if t.sight.Absent? {
        if missingSince.None? { missingSince := Some(t.now); }
        var elapsed := t.later - missingSince.value;
        if elapsed > GRACE { return GoneTooLong(elapsed); }
        if t.arm.Done? { return TimedOut; }
        continue;
      }
      if t.sight.ReadFailed? { return Unreadable; }
      missingSince := None;
      if t.sight.succeeded >= 1 || t.sight.isComplete { return Succeeded; }
      if t.sight.isFailed || t.sight.failed > BACKOFF_LIMIT { return JobFailed; }
      if t.arm.Done? { return TimedOut; }
    }
    return StillWaiting;
  }

  /** The first turn of the unbroken absence that turn k is part of. */
  function AbsentSince(turns: seq<WaitTurn>, k: nat): (a: nat)
    requires k < |turns| && turns[k].sight.Absent?
    ensures a <= k && forall j :: a <= j <= k ==> turns[j].sight.Absent?
    ensures a > 0 ==> !turns[a - 1].sight.Absent?
  {
    if k == 0 || !turns[k - 1].sight.Absent? then k else AbsentSince(turns, k - 1)
  }

  /** How long nothing has been seen by turn k. */
  function AbsentFor(turns: seq<WaitTurn>, k: nat): int
    requires k < |turns| && turns[k].sight.Absent?
  {
    turns[k].later - turns[AbsentSince(turns, k)].now
  }

  predicate Overdue(turns: seq<WaitTurn>, k: nat)
    requires k < |turns|
  {
    turns[k].sight.Absent? && AbsentFor(turns, k) > GRACE
  }

  /** Turn k gives the loop no reason to stop. */
  predicate Continues(turns: seq<WaitTurn>, k: nat)
    requires k < |turns|
  {
    var t := turns[k];
    t.arm.Tick? && !t.sight.ReadFailed? && !Completed(t.sight) && !Broken(t.sight) && !Overdue(turns, k)
  }

  /** The first turn that gives the loop a reason to stop. */
  predicate FirstStop(turns: seq<WaitTurn>, k: nat)
    requires k < |turns|
  {
    !Continues(turns, k) && forall j :: 0 <= j < k ==> Continues(turns, j)
  }

  /** What the loop has in missingSince when it comes to turn k. */
  function Carried(turns: seq<WaitTurn>, k: nat): Option<int>
    requires k <= |turns|
  {
    if k == 0 || !turns[k - 1].sight.Absent? then None else Some(turns[AbsentSince(turns, k - 1)].now)
  }

  /** Nothing decides turn k but the end of the context. */
  predicate OutOfTime(turns: seq<WaitTurn>, k: nat)
    requires k < |turns|
  {
    var s := turns[k].sight;
    !s.ReadFailed? && !Completed(s) && !Broken(s) && !Overdue(turns, k) && turns[k].arm.Done?
  }

  predicate IsVerdict(turns: seq<WaitTurn>, k: nat, o: WaitOutcome)
    requires k < |turns|
  {
    var s := turns[k].sight;
    && (o.Unreadable? <==> s.ReadFailed?)
    && (o.Succeeded? <==> Completed(s))
    && (o.JobFailed? <==> Broken(s))
    && (o.GoneTooLong? <==> Overdue(turns, k))
    && (o.GoneTooLong? ==> o.elapsed == AbsentFor(turns, k))
    && (o.TimedOut? <==> OutOfTime(turns, k))
    && !o.StillWaiting?
  }

  lemma {:induction false} AwaitStopsAt(turns: seq<WaitTurn>, k: nat) returns (m: nat)
    requires k <= |turns|
    ensures k <= m <= |turns| && forall j :: k <= j < m ==> Continues(turns, j)
    ensures var o := Await(turns[k..], Carried(turns, k));
      && (m == |turns| ==> o.StillWaiting?)
      && (m < |turns| ==> !Continues(turns, m) && IsVerdict(turns, m, o))
    decreases |turns| - k
  {
    m := k;
    if k < |turns| {
      assert turns[k..][1..] == turns[k + 1..];
      if turns[k].sight.Absent? {
        assert Since(Carried(turns, k), turns[k]) == turns[AbsentSince(turns, k)].now;
      }
      if Continues(turns, k) { m := AwaitStopsAt(turns, k + 1); }
    }
  }

  /** The wait ends at the first turn with a reason to stop, and that turn alone decides how: it
      succeeds exactly on an observed completion, and reports the Job gone exactly on an absence
      longer than the grace, counted from the last sighting. */
  lemma WaitIsDecidedByTheFirstStop(turns: seq<WaitTurn>)
    ensures var o := Await(turns, None);
      && (o.Succeeded? <==> exists k: nat :: k < |turns| && FirstStop(turns, k) && Completed(turns[k].sight))
      && (o.JobFailed? <==> exists k: nat :: k < |turns| && FirstStop(turns, k) && Broken(turns[k].sight))
      && (o.GoneTooLong? <==> exists k: nat :: k < |turns| && FirstStop(turns, k) && Overdue(turns, k))
      && (o.Unreadable? <==> exists k: nat :: k < |turns| && FirstStop(turns, k) && turns[k].sight.ReadFailed?)
      && (o.TimedOut? <==> exists k: nat :: k < |turns| && FirstStop(turns, k) && OutOfTime(turns, k))
      && (o.GoneTooLong? ==> exists k: nat :: k < |turns| && FirstStop(turns, k) && Overdue(turns, k) && o.elapsed == AbsentFor(turns, k))
      && (o.StillWaiting? <==> forall k: nat :: k < |turns| ==> Continues(turns, k))
  {
    assert turns[0..] == turns;
    var m := AwaitStopsAt(turns, 0);
    if m < |turns| { assert FirstStop(turns, m); }
    forall k: nat | k < |turns| && FirstStop(turns, k) ensures k == m { }
  }

  /** What the sightings of a Job say: it is done with one success or its Complete condition, and broken with its
      Failed condition or a second failed pod. */
  lemma SightsExactly(s: Sight)
    ensures Completed(s) <==> s.Job? && (s.succeeded >= 1 || s.isComplete)
    ensures Broken(s) <==> s.Job? && s.succeeded == 0 && !s.isComplete && (s.isFailed || s.failed >= 2)
  {
  }

  /** Any sighting starts the count again: with a Job seen at least once in every grace period, the
      wait never reports it gone. */
  lemma SightingsResetTheGrace(turns: seq<WaitTurn>)
    requires forall a: nat, k: nat :: a <= k < |turns| && turns[k].later - turns[a].now > GRACE ==>
      exists j :: a <= j <= k && !turns[j].sight.Absent?
    ensures !Await(turns, None).GoneTooLong?
  {
    WaitIsDecidedByTheFirstStop(turns);
    forall k: nat | k < |turns| ensures !Overdue(turns, k) {
      if turns[k].sight.Absent? {
        var a := AbsentSince(turns, k);
        assert forall j :: a <= j <= k ==> turns[j].sight.Absent?;
      }
    }
  }

  // ---- The whole operation ----

  datatype Event = DrainedToZero | SecretMade | JobClaimed | CleanedUp

  /** Everything the environment answers one operation. */
  datatype Answers = Answers(drain: seq<DrainTurn>, secretOk: bool, create: seq<CreateTurn>, wait: seq<WaitTurn>)

  /** The operation got past its drain, if it has one. */
  predicate PastDrain(op: MoverOp, env: Answers) { op == Unlock || op == Prune ==> Drain(env.drain).Quiet? }

  predicate Claims(env: Answers) { CreateJob(env.create).Owned? || CreateJob(env.create).Adopted? }

  /** What one operation did, in order, and whether it succeeded. Each step runs exactly when the one before it
      succeeded, and the clean-up always runs last. */
  method RunRepoMaintenance(op: MoverOp, env: Answers) returns (ok: bool, did: seq<Event>)
    ensures ok <==> PastDrain(op, env) && env.secretOk && Claims(env) && Await(env.wait, None).Succeeded?
    ensures did ==
      (if (op == Unlock || op == Prune) && Drain(env.drain).Quiet? then [DrainedToZero] else [])
      + (if PastDrain(op, env) && env.secretOk then [SecretMade] else [])
      + (if PastDrain(op, env) && env.secretOk && Claims(env) then [JobClaimed] else [])
      + [CleanedUp]
  {
    ok, did := RunSteps(op, env);
    did := did + [CleanedUp];
  }

  method RunSteps(op: MoverOp, env: Answers) returns (ok: bool, did: seq<Event>)
    ensures ok <==> PastDrain(op, env) && env.secretOk && Claims(env) && Await(env.wait, None).Succeeded?
    ensures did ==
      (if (op == Unlock || op == Prune) && Drain(env.drain).Quiet? then [DrainedToZero] else [])
      + (if PastDrain(op, env) && env.secretOk then [SecretMade] else [])
      + (if PastDrain(op, env) && env.secretOk && Claims(env) then [JobClaimed] else [])
  {
    did := [];
    if BlocksMovers(op) {
      var drained := WaitForMoverQuiescence(env.drain);
      if !drained.Quiet? { return false, did; }
      did := did + [DrainedToZero];
    }
    if !env.secretOk { return false, did; }
    did := did + [SecretMade];
    var claim := CreateMaintenanceJob(env.create);
    if !(claim.Owned? || claim.Adopted?) { return false, did; }
    did := did + [JobClaimed];
    var outcome := WaitForMaintenanceJob(env.wait);
    return outcome.Succeeded?, did;
  }
}
