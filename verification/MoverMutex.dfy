/** The repository mutex between data movers and the operations that remove repository locks: the
    movers' admission gate, create and re-check, and the operations' enqueue, drain and execution, as
    one step system over any number of movers and repositories. Every step is one API call or one
    queue event, and any pass or the whole operator may die between two of them. The movers here are
    those of Backups; a restore's mover is in the same census, but passes its gate once and is never
    re-checked, so nothing below speaks of it. */
module MoverMutex {
  import opened Prelude

  /** An unfinished mover Job that is not being deleted. visible: the cached listing shows it.
      abandoned: the pass that created it ended without finishing its re-check. */
  datatype Job = Job(visible: bool, checked: bool, abandoned: bool)

  datatype Pass = NoPass | PastGate | JustCreated | Undoing

  datatype Mover = Mover(repo: string, job: Option<Job>, uploading: bool, pass: Pass) {
    predicate Active() { job.Some? }
  }

  datatype Head = Free | Draining | Executing

  /** One repository's blocking operations: how many are queued, and the one the consumer holds. */
  datatype Lane = Lane(waiting: nat, head: Head)

  /** loose: repositories where an operation's Job still executes although the operator that started
      it has died. */
  datatype World = World(movers: map<string, Mover>, lanes: map<string, Lane>, loose: set<string>)

  function LaneOf(w: World, r: string): Lane { if r in w.lanes then w.lanes[r] else Lane(0, Free) }

  /** The queue's signal: a blocking operation is pending or in flight. */
  predicate QuiescenceRequired(w: World, r: string) {
    LaneOf(w, r).waiting > 0 || !LaneOf(w, r).head.Free?
  }

  /** What the drain's census counts, on every repository. A Job whose re-check finished is in it. */
  predicate Counted(m: Mover) { m.job.Some? && (m.job.value.visible || m.job.value.checked) }

  predicate NoneCounted(w: World) { forall n <- w.movers :: !Counted(w.movers[n]) }

  datatype CreateAnswer = Made | Exists | Refused | Ambiguous

  datatype Action =
    | Gate(name: string)
    | Create(name: string, answer: CreateAnswer)
    | Recheck(name: string)
    | Undo(name: string, deleted: bool)
    | PassDies(name: string)
    | BecomeVisible(name: string)
    | JobEnds(name: string)
    | Enqueue(r: string)
    | StartOp(r: string)
    | CensusZero(r: string)
    | DrainGivesUp(r: string)
    | OpEnds(r: string)
    | OperatorDies
    | LooseOpEnds(r: string)

  predicate Enabled(w: World, a: Action) {
    match a
    case Gate(n) => n in w.movers && w.movers[n].pass.NoPass? && !w.movers[n].uploading
    case Create(n, answer) =>
      n in w.movers && w.movers[n].pass.PastGate? && (answer.Made? || answer.Ambiguous? ==> w.movers[n].job.None?)
    case Recheck(n) => n in w.movers && w.movers[n].pass.JustCreated?
    case Undo(n, _) => n in w.movers && w.movers[n].pass.Undoing?
    case PassDies(n) => n in w.movers
    case BecomeVisible(n) => n in w.movers
    case JobEnds(n) => n in w.movers
    case Enqueue(_) => true
    case StartOp(r) => LaneOf(w, r).waiting > 0 && LaneOf(w, r).head.Free?
    case CensusZero(r) => LaneOf(w, r).head.Draining? && NoneCounted(w)
    case DrainGivesUp(r) => LaneOf(w, r).head.Draining?
    case OpEnds(r) => LaneOf(w, r).head.Executing?
    case OperatorDies => true
    case LooseOpEnds(r) => r in w.loose
  }

  /** A pass that ends here leaves a Job it created without its re-check. */
  function Dropped(m: Mover): Mover {
    if m.job.Some? && (m.pass.JustCreated? || m.pass.Undoing?)
    then m.(pass := NoPass, job := Some(m.job.value.(abandoned := true)))
    else m.(pass := NoPass)
  }

  function Admitted(w: World, m: Mover): Mover {
    if m.job.Some? && m.job.value.visible then m.(pass := PastGate)
    else if QuiescenceRequired(w, m.repo) then m
    else m.(pass := PastGate)
  }

  function Created(m: Mover, answer: CreateAnswer): Mover {
    match answer
    case Made => m.(job := Some(Job(false, false, false)), pass := JustCreated)
    case Exists => m.(uploading := true, pass := NoPass)
    case Refused => m.(pass := NoPass)
    case Ambiguous => m.(job := Some(Job(false, false, true)), pass := NoPass)
  }

  function Rechecked(w: World, m: Mover): Mover {
    if QuiescenceRequired(w, m.repo) then m.(pass := Undoing)
    else m.(uploading := true, pass := NoPass, job := if m.job.Some? then Some(m.job.value.(checked := true)) else None)
  }

  function Undone(m: Mover, deleted: bool): Mover {
    if deleted then m.(job := None, pass := NoPass) else Dropped(m)
  }

  function Shown(m: Mover): Mover {
    if m.job.Some? then m.(job := Some(m.job.value.(visible := true))) else m
  }

  function WithMover(w: World, n: string, m: Mover): World { w.(movers := w.movers[n := m]) }

  function WithLane(w: World, r: string, l: Lane): World { w.(lanes := w.lanes[r := l]) }

  function Do(w: World, a: Action): World
    requires Enabled(w, a)
  {
    match a
    case Gate(n) => WithMover(w, n, Admitted(w, w.movers[n]))
    case Create(n, answer) => WithMover(w, n, Created(w.movers[n], answer))
    case Recheck(n) => WithMover(w, n, Rechecked(w, w.movers[n]))
    case Undo(n, deleted) => WithMover(w, n, Undone(w.movers[n], deleted))
    case PassDies(n) => WithMover(w, n, Dropped(w.movers[n]))
    case BecomeVisible(n) => WithMover(w, n, Shown(w.movers[n]))
    case JobEnds(n) => WithMover(w, n, w.movers[n].(job := None))
    case Enqueue(r) => WithLane(w, r, LaneOf(w, r).(waiting := LaneOf(w, r).waiting + 1))
    case StartOp(r) => WithLane(w, r, Lane(LaneOf(w, r).waiting - 1, Draining))
    case CensusZero(r) => WithLane(w, r, LaneOf(w, r).(head := Executing))
    case DrainGivesUp(r) => WithLane(w, r, LaneOf(w, r).(head := Free))
    case OpEnds(r) => WithLane(w, r, LaneOf(w, r).(head := Free))
    case OperatorDies =>
      World(map n | n in w.movers :: Dropped(w.movers[n]), map[],
            w.loose + set r | r in w.lanes && w.lanes[r].head.Executing?)
    case LooseOpEnds(r) => w.(loose := w.loose - {r})
  }

  predicate ValidRun(w: World, acts: seq<Action>)
    decreases |acts|
  {
    acts == [] || (Enabled(w, acts[0]) && ValidRun(Do(w, acts[0]), acts[1..]))
  }

  function Exec(w: World, acts: seq<Action>): World
    requires ValidRun(w, acts)
    decreases |acts|
  {
    if acts == [] then w else Exec(Do(w, acts[0]), acts[1..])
  }

  // ---- What a step changes ----

  /** The gate lets the pass of this mover through: its Job is there to adopt, or nothing is required of its
      repository. */
  predicate Passes(w: World, a: Action, n: string) {
    && a == Gate(n) && n in w.movers
    && ((w.movers[n].job.Some? && w.movers[n].job.value.visible) || !QuiescenceRequired(w, w.movers[n].repo))
  }

  predicate CreatesJob(a: Action, n: string) { a == Create(n, Made) || a == Create(n, Ambiguous) }

  /** Its re-check passes, or it finds its Job to adopt: the volume moves on. */
  predicate MovesOn(w: World, a: Action, n: string) {
    || a == Create(n, Exists)
    || (a == Recheck(n) && n in w.movers && !QuiescenceRequired(w, w.movers[n].repo))
  }

  /** One mover over one step: its Job comes by a create and goes by its end or a deleting undo, and its volume
      moves on by an adoption or a re-check. */
  lemma MoverChangesExactly(w: World, a: Action, n: string)
    requires MutexInv(w) && Enabled(w, a) && n in w.movers
    ensures var u := Do(w, a);
      && n in u.movers && u.movers[n].repo == w.movers[n].repo
      && (u.movers[n].Active() <==> CreatesJob(a, n) || (w.movers[n].Active() && a != JobEnds(n) && a != Undo(n, true)))
      && (u.movers[n].uploading <==> w.movers[n].uploading || MovesOn(w, a, n))
  {
    assert MoverInv(w.movers[n]);
    match a {
      case Gate(_) =>
      case Create(_, _) =>
      case Recheck(_) =>
      case Undo(_, _) =>
      case PassDies(_) =>
      case BecomeVisible(_) =>
      case JobEnds(_) =>
      case Enqueue(_) =>
      case StartOp(_) =>
      case CensusZero(_) =>
      case DrainGivesUp(_) =>
      case OpEnds(_) =>
      case OperatorDies =>
      case LooseOpEnds(_) =>
    }
  }

  /** Its pass starts at the gate, goes on by a create that made its Job and by a re-check that must undo it, and
      ends in every other way. */
  lemma PassChangesExactly(w: World, a: Action, n: string)
    requires MutexInv(w) && Enabled(w, a) && n in w.movers
    ensures var u := Do(w, a);
      && n in u.movers
      && (u.movers[n].pass.PastGate? <==>
            Passes(w, a, n) || (w.movers[n].pass.PastGate? && !(a.Create? && a.name == n) && a != PassDies(n) && a != OperatorDies))
      && (u.movers[n].pass.JustCreated? <==>
            || a == Create(n, Made)
            || (w.movers[n].pass.JustCreated? && a != Recheck(n) && a != PassDies(n) && a != OperatorDies))
      && (u.movers[n].pass.Undoing? <==>
            || (a == Recheck(n) && QuiescenceRequired(w, w.movers[n].repo))
            || (w.movers[n].pass.Undoing? && !(a.Undo? && a.name == n) && a != PassDies(n) && a != OperatorDies))
  {
    assert MoverInv(w.movers[n]);
    match a {
      case Gate(_) =>
      case Create(_, _) =>
      case Recheck(_) =>
      case Undo(_, _) =>
      case PassDies(_) =>
      case BecomeVisible(_) =>
      case JobEnds(_) =>
      case Enqueue(_) =>
      case StartOp(_) =>
      case CensusZero(_) =>
      case DrainGivesUp(_) =>
      case OpEnds(_) =>
      case OperatorDies =>
      case LooseOpEnds(_) =>
    }
  }

  /** And the marks on its Job: shown by the listing, and re-checked. */
  lemma JobMarksChangeExactly(w: World, a: Action, n: string)
    requires MutexInv(w) && Enabled(w, a) && n in w.movers && Do(w, a).movers[n].Active()
    ensures var j := Do(w, a).movers[n].job.value;
      if CreatesJob(a, n) then !j.visible && !j.checked
      else
        && w.movers[n].Active()
        && (j.visible <==> w.movers[n].job.value.visible || a == BecomeVisible(n))
        && (j.checked <==> w.movers[n].job.value.checked || (a == Recheck(n) && MovesOn(w, a, n)))
  {
    ShownExactly(w, a, n);
    ReCheckedExactly(w, a, n);
  }

  lemma ShownExactly(w: World, a: Action, n: string)
    requires MutexInv(w) && Enabled(w, a) && n in w.movers && Do(w, a).movers[n].Active()
    ensures CreatesJob(a, n) || w.movers[n].Active()
    ensures Do(w, a).movers[n].job.value.visible <==>
      !CreatesJob(a, n) && (w.movers[n].job.value.visible || a == BecomeVisible(n))
  {
    assert MoverInv(w.movers[n]);
    match a {
      case Gate(_) =>
      case Create(_, _) =>
      case Recheck(_) =>
      case Undo(_, _) =>
      case PassDies(_) =>
      case BecomeVisible(_) =>
      case JobEnds(_) =>
      case Enqueue(_) =>
      case StartOp(_) =>
      case CensusZero(_) =>
      case DrainGivesUp(_) =>
      case OpEnds(_) =>
      case OperatorDies =>
      case LooseOpEnds(_) =>
    }
  }

  lemma ReCheckedExactly(w: World, a: Action, n: string)
    requires MutexInv(w) && Enabled(w, a) && n in w.movers && Do(w, a).movers[n].Active()
    ensures CreatesJob(a, n) || w.movers[n].Active()
    ensures Do(w, a).movers[n].job.value.checked <==>
      !CreatesJob(a, n) && (w.movers[n].job.value.checked || (a == Recheck(n) && MovesOn(w, a, n)))
  {
    assert MoverInv(w.movers[n]);
    match a {
      case Gate(_) =>
      case Create(_, _) =>
      case Recheck(_) =>
      case Undo(_, _) =>
      case PassDies(_) =>
      case BecomeVisible(_) =>
      case JobEnds(_) =>
      case Enqueue(_) =>
      case StartOp(_) =>
      case CensusZero(_) =>
      case DrainGivesUp(_) =>
      case OpEnds(_) =>
      case OperatorDies =>
      case LooseOpEnds(_) =>
    }
  }

  /** A Job is left behind by an ambiguous create, or by its pass. */
  lemma JobIsLeftBehindExactly(w: World, a: Action, n: string)
    requires MutexInv(w) && Enabled(w, a) && n in w.movers && Do(w, a).movers[n].Active()
    ensures Do(w, a).movers[n].job.value.abandoned <==>
      if CreatesJob(a, n) then a == Create(n, Ambiguous)
      else w.movers[n].Active() && (w.movers[n].job.value.abandoned || LeavesBehind(w, a, n))
  {
    assert MoverInv(w.movers[n]);
    if a.PassDies? || a.OperatorDies? || a.Undo? { DroppingLeavesBehind(w, a, n); }
  }

  lemma DroppingLeavesBehind(w: World, a: Action, n: string)
    requires Enabled(w, a) && n in w.movers && Do(w, a).movers[n].Active() && (a.PassDies? || a.OperatorDies? || a.Undo?)
    ensures w.movers[n].Active()
    ensures Do(w, a).movers[n].job.value.abandoned <==> w.movers[n].job.value.abandoned || LeavesBehind(w, a, n)
  {
    match a {
      case PassDies(_) =>
      case OperatorDies =>
      case Undo(_, _) =>
    }
  }

  /** The pass that made the Job ends without its re-check done: it or the operator dies, or its undo fails. */
  predicate LeavesBehind(w: World, a: Action, n: string) {
    && n in w.movers && (w.movers[n].pass.JustCreated? || w.movers[n].pass.Undoing?)
    && (a == PassDies(n) || a == OperatorDies || a == Undo(n, false))
  }

  /** One repository's operations over one step: queued by an enqueue, taken by a start, past the drain on an
      empty census, and gone at the end; and all forgotten with the operator. */
  lemma LaneChangesExactly(w: World, a: Action, r: string)
    requires Enabled(w, a)
    ensures var l := LaneOf(w, r); var m := LaneOf(Do(w, a), r);
      if a == OperatorDies then m == Lane(0, Free)
      else
        && m.waiting == (if a == Enqueue(r) then l.waiting + 1 else if a == StartOp(r) then l.waiting - 1 else l.waiting)
        && (m.head.Draining? <==> a == StartOp(r) || (l.head.Draining? && a != CensusZero(r) && a != DrainGivesUp(r)))
        && (m.head.Executing? <==> a == CensusZero(r) || (l.head.Executing? && a != OpEnds(r)))
    ensures r in Do(w, a).loose <==>
      (r in w.loose && a != LooseOpEnds(r)) || (a == OperatorDies && LaneOf(w, r).head.Executing?)
  {
  }

  /** No Job and no operation yet. */
  predicate Initial(w: World) {
    w.lanes == map[] && w.loose == {} && forall n <- w.movers :: w.movers[n].job.None? && w.movers[n].pass.NoPass?
  }

  // ---- The invariant ----

  /** A Job that is not re-checked belongs to the pass that made it, or was abandoned by it, and not
      both; a re-checked one has moved its volume on. */
  predicate MoverInv(m: Mover) {
    && (m.Active() && !m.job.value.checked ==> m.job.value.abandoned || m.pass.JustCreated? || m.pass.Undoing?)
    && (m.Active() && m.job.value.abandoned ==> !m.job.value.checked && !m.pass.JustCreated? && !m.pass.Undoing?)
    && (m.Active() && m.job.value.checked ==> m.uploading)
    && (m.uploading ==> m.pass.NoPass?)
  }

  /** The exclusion for one mover: while an operation executes on its repository, an active Job has
      not passed its re-check. */
  predicate Excluded(m: Mover, l: Lane) { l.head.Executing? && m.Active() ==> !m.job.value.checked }

  predicate MutexInv(w: World) {
    forall n <- w.movers :: MoverInv(w.movers[n]) && Excluded(w.movers[n], LaneOf(w, w.movers[n].repo))
  }

  /** A mover's own steps keep its part of the invariant against any lane. */
  lemma MoverStepKeeps(w: World, n: string, m: Mover)
    requires n in w.movers && MutexInv(w)
    requires m.repo == w.movers[n].repo && MoverInv(m) && Excluded(m, LaneOf(w, m.repo))
    ensures MutexInv(WithMover(w, n, m))
  {
    var w' := WithMover(w, n, m);
    forall k | k in w'.movers
      ensures MoverInv(w'.movers[k]) && Excluded(w'.movers[k], LaneOf(w', w'.movers[k].repo))
    {
      if k != n { assert w'.movers[k] == w.movers[k]; }
    }
  }

  lemma LaneStepKeeps(w: World, r: string, l: Lane)
    requires MutexInv(w)
    requires l.head.Executing? ==> LaneOf(w, r).head.Executing? || NoneCounted(w)
    ensures MutexInv(WithLane(w, r, l))
  {
    var w' := WithLane(w, r, l);
    forall k | k in w'.movers
      ensures MoverInv(w'.movers[k]) && Excluded(w'.movers[k], LaneOf(w', w'.movers[k].repo))
    {
      var m := w.movers[k];
      assert Excluded(m, LaneOf(w, m.repo));
      if m.repo == r && l.head.Executing? && m.Active() && !LaneOf(w, r).head.Executing? {
        assert !Counted(m);
      }
    }
  }

  lemma StepKeepsMutex(w: World, a: Action)
    requires MutexInv(w) && Enabled(w, a)
    ensures MutexInv(Do(w, a))
  {
    match a {
      case Gate(n) => MoverStepKeeps(w, n, Admitted(w, w.movers[n]));
      case Create(n, answer) => MoverStepKeeps(w, n, Created(w.movers[n], answer));
      case Recheck(n) => MoverStepKeeps(w, n, Rechecked(w, w.movers[n]));
      case Undo(n, deleted) => MoverStepKeeps(w, n, Undone(w.movers[n], deleted));
      case PassDies(n) => MoverStepKeeps(w, n, Dropped(w.movers[n]));
      case BecomeVisible(n) => MoverStepKeeps(w, n, Shown(w.movers[n]));
      case JobEnds(n) => MoverStepKeeps(w, n, w.movers[n].(job := None));
      case Enqueue(r) => LaneStepKeeps(w, r, LaneOf(w, r).(waiting := LaneOf(w, r).waiting + 1));
      case StartOp(r) => LaneStepKeeps(w, r, Lane(LaneOf(w, r).waiting - 1, Draining));
      case CensusZero(r) => LaneStepKeeps(w, r, LaneOf(w, r).(head := Executing));
      case DrainGivesUp(r) => LaneStepKeeps(w, r, LaneOf(w, r).(head := Free));
      case OpEnds(r) => LaneStepKeeps(w, r, LaneOf(w, r).(head := Free));
      case OperatorDies =>
      case LooseOpEnds(_) =>
    }
  }

  lemma {:induction false} RunKeepsMutex(w: World, acts: seq<Action>)
    requires MutexInv(w) && ValidRun(w, acts)
    ensures MutexInv(Exec(w, acts))
    decreases |acts|
  {
    if acts != [] {
      StepKeepsMutex(w, acts[0]);
      RunKeepsMutex(Do(w, acts[0]), acts[1..]);
    }
  }

  // ---- The theorems ----

  /** Mutual exclusion, for any number of movers and repositories and every interleaving: while an
      operation executes past its drain on a repository, no mover there is active whose re-check
      passed, and a volume that is Uploading with an active Job holds an abandoned one. */
  lemma ReCheckedMoversAreExcluded(w: World, acts: seq<Action>, n: string)
    requires Initial(w) && ValidRun(w, acts) && n in Exec(w, acts).movers
    ensures var u := Exec(w, acts); var m := u.movers[n];
      LaneOf(u, m.repo).head.Executing? && m.Active() ==>
        !m.job.value.checked && (m.uploading ==> m.job.value.abandoned)
  {
    RunKeepsMutex(w, acts);
    var u := Exec(w, acts);
    assert MoverInv(u.movers[n]) && Excluded(u.movers[n], LaneOf(u, u.movers[n].repo));
  }

  /** The steps that leave a Job behind without its re-check: a failed undo, an ambiguous create, and
      a death between create and re-check. */
  predicate Abandons(w: World, a: Action) {
    match a
    case Create(_, answer) => answer.Ambiguous?
    case Undo(_, deleted) => !deleted
    case PassDies(n) => n in w.movers && (w.movers[n].pass.JustCreated? || w.movers[n].pass.Undoing?)
    case OperatorDies => exists n <- w.movers :: w.movers[n].pass.JustCreated? || w.movers[n].pass.Undoing?
    case _ => false
  }

  predicate NeverAbandons(w: World, acts: seq<Action>)
    requires ValidRun(w, acts)
    decreases |acts|
  {
    acts == [] || (!Abandons(w, acts[0]) && NeverAbandons(Do(w, acts[0]), acts[1..]))
  }

  predicate NoneAbandoned(w: World) { forall n <- w.movers :: w.movers[n].Active() ==> !w.movers[n].job.value.abandoned }

  lemma {:induction false} RunStaysUnabandoned(w: World, acts: seq<Action>)
    requires NoneAbandoned(w) && ValidRun(w, acts) && NeverAbandons(w, acts)
    ensures NoneAbandoned(Exec(w, acts))
    decreases |acts|
  {
    if acts != [] { RunStaysUnabandoned(Do(w, acts[0]), acts[1..]); }
  }

  /** Without those steps the exclusion covers every Job, adopted ones too: the only active Jobs on a
      repository whose operation executes belong to passes that must still undo them. */
  lemma AdmittedMoversUndoOrWereCounted(w: World, acts: seq<Action>, n: string)
    requires Initial(w) && ValidRun(w, acts) && NeverAbandons(w, acts) && n in Exec(w, acts).movers
    ensures var u := Exec(w, acts); var m := u.movers[n];
      LaneOf(u, m.repo).head.Executing? && m.Active() ==>
        && !m.uploading
        && (m.pass.Undoing? || (m.pass.JustCreated? && Rechecked(u, m).pass.Undoing?))
  {
    RunKeepsMutex(w, acts);
    RunStaysUnabandoned(w, acts);
    var u := Exec(w, acts);
    assert MoverInv(u.movers[n]) && Excluded(u.movers[n], LaneOf(u, u.movers[n].repo));
  }

  // ---- Each abandoning step does break the exclusion ----

  const Alone := World(map["m" := Mover("r", None, false, NoPass)], map[], {})

  /** The mover is past the gate, and an operation executes: its drain saw no Job. */
  function Caught(m: Mover): World { World(map["m" := m], map["r" := Lane(0, Executing)], {}) }

  const Lead := [Gate("m"), Enqueue("r"), StartOp("r"), CensusZero("r")]

  const Adopt := [BecomeVisible("m"), Gate("m"), Create("m", Exists)]

  lemma ExecAppend(w: World, a: seq<Action>, b: seq<Action>)
    requires ValidRun(w, a) && ValidRun(Exec(w, a), b)
    ensures ValidRun(w, a + b) && Exec(w, a + b) == Exec(Exec(w, a), b)
    decreases |a|
  {
    if a == [] {
      assert a + b == b;
    } else {
      assert (a + b)[1..] == a[1..] + b;
      ExecAppend(Do(w, a[0]), a[1..], b);
    }
  }

  lemma ExecOne(w: World, a: Action)
    requires Enabled(w, a)
    ensures ValidRun(w, [a]) && Exec(w, [a]) == Do(w, a)
  {
    assert [a][1..] == [];
  }

  lemma ExecTwo(w: World, a: Action, b: Action)
    requires Enabled(w, a) && Enabled(Do(w, a), b)
    ensures ValidRun(w, [a, b]) && Exec(w, [a, b]) == Do(Do(w, a), b)
  {
    ExecOne(w, a);
    ExecOne(Do(w, a), b);
    ExecAppend(w, [a], [b]);
    assert [a] + [b] == [a, b];
  }

  lemma LeadRuns()
    ensures ValidRun(Alone, Lead) && Exec(Alone, Lead) == Caught(Mover("r", None, false, PastGate))
  {
    var m := Mover("r", None, false, PastGate);
    var w1 := Do(Alone, Gate("m"));
    assert w1 == World(map["m" := m], map[], {});
    var w2 := Do(w1, Enqueue("r"));
    assert w2 == World(map["m" := m], map["r" := Lane(1, Free)], {});
    var w3 := Do(w2, StartOp("r"));
    assert w3 == World(map["m" := m], map["r" := Lane(0, Draining)], {});
    assert Do(w3, CensusZero("r")) == Caught(m);
    ExecTwo(Alone, Gate("m"), Enqueue("r"));
    ExecTwo(w2, StartOp("r"), CensusZero("r"));
    ExecAppend(Alone, [Gate("m"), Enqueue("r")], [StartOp("r"), CensusZero("r")]);
    assert [Gate("m"), Enqueue("r")] + [StartOp("r"), CensusZero("r")] == Lead;
  }

  /** An abandoned Job is adopted, without a re-check, by the next pass that sees it. */
  lemma AdoptRuns(v: bool)
    ensures var w := Caught(Mover("r", Some(Job(v, false, true)), false, NoPass));
      ValidRun(w, Adopt) && Exec(w, Adopt) == Caught(Mover("r", Some(Job(true, false, true)), true, NoPass))
  {
    var w := Caught(Mover("r", Some(Job(v, false, true)), false, NoPass));
    var w1 := Do(w, BecomeVisible("m"));
    assert w1 == Caught(Mover("r", Some(Job(true, false, true)), false, NoPass));
    var w2 := Do(w1, Gate("m"));
    assert w2 == Caught(Mover("r", Some(Job(true, false, true)), false, PastGate));
    assert Do(w2, Create("m", Exists)) == Caught(Mover("r", Some(Job(true, false, true)), true, NoPass));
    ExecTwo(w, BecomeVisible("m"), Gate("m"));
    ExecOne(w2, Create("m", Exists));
    ExecAppend(w, [BecomeVisible("m"), Gate("m")], [Create("m", Exists)]);
    assert [BecomeVisible("m"), Gate("m")] + [Create("m", Exists)] == Adopt;
  }

  /** The three ways a pass that was past the gate loses its new Job. */
  function LosingTail(k: nat): seq<Action>
    requires k < 3
  {
    if k == 0 then [Create("m", Ambiguous)]
    else if k == 1 then [Create("m", Made), PassDies("m")]
    else [Create("m", Made), Recheck("m")] + [Undo("m", false)]
  }

  lemma LosingTailRuns(k: nat)
    requires k < 3
    ensures var w := Caught(Mover("r", None, false, PastGate));
      ValidRun(w, LosingTail(k)) && Exec(w, LosingTail(k)) == Caught(Mover("r", Some(Job(false, false, true)), false, NoPass))
  {
    var w := Caught(Mover("r", None, false, PastGate));
    var lost := Caught(Mover("r", Some(Job(false, false, true)), false, NoPass));
    if k == 0 {
      assert Do(w, Create("m", Ambiguous)) == lost;
      ExecOne(w, Create("m", Ambiguous));
    } else {
      var w1 := Do(w, Create("m", Made));
      assert w1 == Caught(Mover("r", Some(Job(false, false, false)), false, JustCreated));
      if k == 1 {
        assert Do(w1, PassDies("m")) == lost;
        ExecTwo(w, Create("m", Made), PassDies("m"));
      } else {
        var w2 := Do(w1, Recheck("m"));
        assert w2 == Caught(Mover("r", Some(Job(false, false, false)), false, Undoing));
        assert Do(w2, Undo("m", false)) == lost;
        ExecTwo(w, Create("m", Made), Recheck("m"));
        ExecOne(w2, Undo("m", false));
        ExecAppend(w, [Create("m", Made), Recheck("m")], [Undo("m", false)]);
      }
    }
  }

  /** Every one of the three leads to an uploading mover active beside an executing operation. */
  lemma AbandonedJobsBreakTheExclusion(k: nat)
    requires k < 3
    ensures Initial(Alone) && ValidRun(Alone, Lead + LosingTail(k) + Adopt)
    ensures var u := Exec(Alone, Lead + LosingTail(k) + Adopt);
      && LaneOf(u, "r").head.Executing?
      && "m" in u.movers && u.movers["m"].repo == "r" && u.movers["m"].Active() && u.movers["m"].uploading
  {
    LeadRuns();
    LosingTailRuns(k);
    AdoptRuns(false);
    ExecAppend(Alone, Lead, LosingTail(k));
    ExecAppend(Alone, Lead + LosingTail(k), Adopt);
  }

  /** The queue is in memory: when the operator dies its operations' Jobs go on, no gate remembers
      them, and a mover can be admitted, created and re-checked beside one. */
  lemma OperatorDeathBreaksTheExclusion()
    ensures var acts := [Enqueue("r"), StartOp("r")] + [CensusZero("r"), OperatorDies]
                        + ([Gate("m"), Create("m", Made)] + [Recheck("m")]);
      && ValidRun(Alone, acts)
      && (var u := Exec(Alone, acts); "r" in u.loose && "m" in u.movers && u.movers["m"].repo == "r"
                                      && u.movers["m"].Active() && u.movers["m"].job.value.checked)
  {
    var m := Mover("r", None, false, NoPass);
    var w1 := Do(Alone, Enqueue("r"));
    assert w1 == World(map["m" := m], map["r" := Lane(1, Free)], {});
    var w2 := Do(w1, StartOp("r"));
    assert w2 == World(map["m" := m], map["r" := Lane(0, Draining)], {});
    var w3 := Do(w2, CensusZero("r"));
    assert w3 == Caught(m);
    var w4 := Do(w3, OperatorDies);
    assert w4 == World(map["m" := m], map[], {"r"});
    ExecTwo(Alone, Enqueue("r"), StartOp("r"));
    ExecTwo(w2, CensusZero("r"), OperatorDies);
    ExecAppend(Alone, [Enqueue("r"), StartOp("r")], [CensusZero("r"), OperatorDies]);
    AdmittedBesideALooseOne(w4);
    ExecAppend(Alone, [Enqueue("r"), StartOp("r")] + [CensusZero("r"), OperatorDies],
               [Gate("m"), Create("m", Made)] + [Recheck("m")]);
  }

  lemma AdmittedBesideALooseOne(w: World)
    requires w == World(map["m" := Mover("r", None, false, NoPass)], map[], {"r"})
    ensures var acts := [Gate("m"), Create("m", Made)] + [Recheck("m")];
      ValidRun(w, acts) && Exec(w, acts) == World(map["m" := Mover("r", Some(Job(false, true, false)), true, NoPass)], map[], {"r"})
  {
    var m := w.movers["m"];
    var w1 := Do(w, Gate("m"));
    assert w1 == World(map["m" := m.(pass := PastGate)], map[], {"r"});
    var w2 := Do(w1, Create("m", Made));
    assert w2 == World(map["m" := Mover("r", Some(Job(false, false, false)), false, JustCreated)], map[], {"r"});
    var w3 := Do(w2, Recheck("m"));
    assert w3 == World(map["m" := Mover("r", Some(Job(false, true, false)), true, NoPass)], map[], {"r"});
    ExecTwo(w, Gate("m"), Create("m", Made));
    ExecOne(w2, Recheck("m"));
    ExecAppend(w, [Gate("m"), Create("m", Made)], [Recheck("m")]);
  }

  // ---- Drain progress ----

  /** The movers at work on r: active, with the volume moved on to Uploading. */
  ghost function AtWork(w: World, r: string): set<string> {
    set n | n in w.movers && w.movers[n].repo == r && w.movers[n].Active() && w.movers[n].uploading
  }

  /** Of those, the ones whose re-check passed. */
  ghost function ReChecked(w: World, r: string): set<string> {
    set n | n in w.movers && w.movers[n].repo == r && w.movers[n].Active() && w.movers[n].job.value.checked
  }

  /** No re-check passes while quiescence is required, abandoned Jobs or not. */
  lemma NoneJoinsWhileRequired(w: World, a: Action, r: string)
    requires Enabled(w, a) && QuiescenceRequired(w, r)
    ensures ReChecked(Do(w, a), r) <= ReChecked(w, r)
  {
  }

  /** The step adopts, without a re-check, an active Job of r that an earlier pass abandoned. */
  predicate Adopts(w: World, a: Action, r: string) {
    && a.Create? && a.answer.Exists? && a.name in w.movers
    && w.movers[a.name].repo == r && w.movers[a.name].Active() && w.movers[a.name].job.value.abandoned
  }

  /** While a blocking operation is pending or running on r, a mover joins those at work there exactly by
      the adoption of an abandoned Job. */
  lemma JoinsExactlyByAdoption(w: World, a: Action, r: string, n: string)
    requires MutexInv(w) && Enabled(w, a) && QuiescenceRequired(w, r)
    ensures n in AtWork(Do(w, a), r) && n !in AtWork(w, r) <==> Adopts(w, a, r) && a.name == n
  {
    if n in w.movers { assert MoverInv(w.movers[n]); }
  }

  predicate RequiredThroughout(w: World, acts: seq<Action>, r: string)
    requires ValidRun(w, acts)
    decreases |acts|
  {
    QuiescenceRequired(w, r) && (acts == [] || RequiredThroughout(Do(w, acts[0]), acts[1..], r))
  }

  predicate AdoptsIn(w: World, acts: seq<Action>, r: string, n: string)
    requires ValidRun(w, acts)
    decreases |acts|
  {
    acts != [] && ((Adopts(w, acts[0], r) && acts[0].name == n) || AdoptsIn(Do(w, acts[0]), acts[1..], r, n))
  }

  lemma {:induction false} JoinedByAdoption(w: World, acts: seq<Action>, r: string, n: string)
    requires MutexInv(w) && ValidRun(w, acts) && RequiredThroughout(w, acts, r)
    requires n in AtWork(Exec(w, acts), r) && n !in AtWork(w, r)
    ensures AdoptsIn(w, acts, r, n)
    decreases |acts|
  {
    if acts != [] {
      var u := Do(w, acts[0]);
      StepKeepsMutex(w, acts[0]);
      JoinsExactlyByAdoption(w, acts[0], r, n);
      if n !in AtWork(u, r) { JoinedByAdoption(u, acts[1..], r, n); }
    }
  }

  /** Over any stretch of a run during which quiescence is required on r, the movers at work there only
      become fewer, but for adoptions of abandoned Jobs; where no pass abandons one, they only become
      fewer. */
  lemma DrainNeverGrows(w: World, before: seq<Action>, acts: seq<Action>, r: string)
    requires Initial(w) && ValidRun(w, before) && ValidRun(Exec(w, before), acts)
    requires RequiredThroughout(Exec(w, before), acts, r)
    ensures var u := Exec(w, before);
      && (forall n :: n in AtWork(Exec(u, acts), r) && n !in AtWork(u, r) ==> AdoptsIn(u, acts, r, n))
      && (NeverAbandons(w, before) && NeverAbandons(u, acts) ==> AtWork(Exec(u, acts), r) <= AtWork(u, r))
  {
    RunKeepsMutex(w, before);
    var u := Exec(w, before);
    forall n | n in AtWork(Exec(u, acts), r) && n !in AtWork(u, r) ensures AdoptsIn(u, acts, r, n) {
      JoinedByAdoption(u, acts, r, n);
    }
    if NeverAbandons(w, before) && NeverAbandons(u, acts) {
      RunStaysUnabandoned(w, before);
      forall n ensures !AdoptsIn(u, acts, r, n) { NothingToAdopt(u, acts, r, n); }
    }
  }

  lemma {:induction false} NothingToAdopt(w: World, acts: seq<Action>, r: string, n: string)
    requires NoneAbandoned(w) && ValidRun(w, acts) && NeverAbandons(w, acts)
    ensures !AdoptsIn(w, acts, r, n)
    decreases |acts|
  {
    if acts != [] {
      assert [acts[0]][1..] == [];
      RunStaysUnabandoned(w, [acts[0]]);
      NothingToAdopt(Do(w, acts[0]), acts[1..], r, n);
    }
  }

  // ---- The exclusion, exactly ----

  /** n uploads on r under a Job its pass abandoned. */
  predicate Held(w: World, r: string, n: string) {
    n in w.movers && w.movers[n].repo == r && w.movers[n].Active() && w.movers[n].uploading && w.movers[n].job.value.abandoned
  }

  lemma HeldExactly(w: World, a: Action, r: string, n: string)
    requires MutexInv(w) && Enabled(w, a)
    ensures Held(Do(w, a), r, n) <==> (Held(w, r, n) && a != JobEnds(n)) || (Adopts(w, a, r) && a.name == n)
  {
    if n in w.movers { assert MoverInv(w.movers[n]); }
  }

  /** Some step of the run adopts n's abandoned Job on r, and that Job does not end after it. */
  predicate AdoptedForGood(w: World, acts: seq<Action>, r: string, n: string)
    requires ValidRun(w, acts)
    decreases |acts|
  {
    acts != [] &&
    ((Adopts(w, acts[0], r) && acts[0].name == n && JobEnds(n) !in acts[1..])
     || AdoptedForGood(Do(w, acts[0]), acts[1..], r, n))
  }

  lemma {:induction false} HeldFrom(w: World, acts: seq<Action>, r: string, n: string)
    requires MutexInv(w) && ValidRun(w, acts)
    ensures Held(Exec(w, acts), r, n) <==> (Held(w, r, n) && JobEnds(n) !in acts) || AdoptedForGood(w, acts, r, n)
    decreases |acts|
  {
    if acts != [] {
      StepKeepsMutex(w, acts[0]);
      HeldExactly(w, acts[0], r, n);
      HeldFrom(Do(w, acts[0]), acts[1..], r, n);
      assert acts == [acts[0]] + acts[1..];
    }
  }

  /** In every run, a mover uploads under an active Job beside an executing operation exactly when some
      step of the run adopted its abandoned Job, and that Job has not ended since. */
  lemma ExclusionBreaksExactlyByAdoption(w: World, acts: seq<Action>, r: string, n: string)
    requires Initial(w) && ValidRun(w, acts) && LaneOf(Exec(w, acts), r).head.Executing?
    ensures n in AtWork(Exec(w, acts), r) <==> AdoptedForGood(w, acts, r, n)
  {
    RunKeepsMutex(w, acts);
    HeldFrom(w, acts, r, n);
    if n in Exec(w, acts).movers { ReCheckedMoversAreExcluded(w, acts, n); }
  }

  // ---- The census the drain waits on ----

  predicate CountedNow(w: World, n: string) { n in w.movers && Counted(w.movers[n]) }

  /** A Job joins the census exactly when the listing comes to show it, or when its re-check passes, which
      takes a repository without a blocking operation. */
  lemma JoinsTheCensusExactly(w: World, a: Action, n: string)
    requires Enabled(w, a)
    ensures CountedNow(Do(w, a), n) && !CountedNow(w, n) <==>
      && n in w.movers && w.movers[n].Active() && !Counted(w.movers[n])
      && (a == BecomeVisible(n) || (a == Recheck(n) && !QuiescenceRequired(w, w.movers[n].repo)))
  {
  }

  /** So while r drains, the Jobs that can still join the census are exactly the active ones it does not
      show yet: Jobs of other repositories, and on r itself Jobs whose pass must now undo them and Jobs
      an earlier pass abandoned, adopted ones among them. */
  lemma WhoCanJoinTheCensus(w: World, acts: seq<Action>, r: string, n: string)
    requires Initial(w) && ValidRun(w, acts) && LaneOf(Exec(w, acts), r).head.Draining?
    ensures var u := Exec(w, acts);
      && ((exists a :: Enabled(u, a) && CountedNow(Do(u, a), n) && !CountedNow(u, n)) <==>
            n in u.movers && u.movers[n].Active() && !Counted(u.movers[n]))
      && (n in u.movers && u.movers[n].Active() && !Counted(u.movers[n]) ==>
            var m := u.movers[n];
            || m.repo != r
            || m.job.value.abandoned
            || m.pass.Undoing?
            || (m.pass.JustCreated? && Rechecked(u, m).pass.Undoing?))
  {
    RunKeepsMutex(w, acts);
    var u := Exec(w, acts);
    if n in u.movers && u.movers[n].Active() && !Counted(u.movers[n]) {
      assert MoverInv(u.movers[n]);
      assert Enabled(u, BecomeVisible(n));
      JoinsTheCensusExactly(u, BecomeVisible(n), n);
    }
    if a :| Enabled(u, a) && CountedNow(Do(u, a), n) && !CountedNow(u, n) {
      JoinsTheCensusExactly(u, a, n);
    }
  }

  /** On the drained repository itself: a pass admitted before the enqueue creates its Job during the
      drain, and the census comes to show it. */
  lemma OwnRepositoryCanHoldTheDrainOpen()
    ensures var acts := [Gate("m"), Enqueue("r")] + [StartOp("r"), Create("m", Made)] + [BecomeVisible("m")];
      && NoneCounted(Alone) && ValidRun(Alone, acts) && NeverAbandons(Alone, acts)
      && (var u := Exec(Alone, acts); LaneOf(u, "r").head.Draining? && CountedNow(u, "m") && u.movers["m"].repo == "r"
                                      && !Enabled(u, CensusZero("r")))
  {
    var m := Mover("r", None, false, PastGate);
    var w1 := Do(Alone, Gate("m"));
    assert w1 == World(map["m" := m], map[], {});
    var w2 := Do(w1, Enqueue("r"));
    assert w2 == World(map["m" := m], map["r" := Lane(1, Free)], {});
    ExecTwo(Alone, Gate("m"), Enqueue("r"));
    ShowsDuringTheDrain(w2);
    ExecAppend(Alone, [Gate("m"), Enqueue("r")], [StartOp("r"), Create("m", Made)] + [BecomeVisible("m")]);
    assert [Gate("m"), Enqueue("r")] + ([StartOp("r"), Create("m", Made)] + [BecomeVisible("m")])
        == [Gate("m"), Enqueue("r")] + [StartOp("r"), Create("m", Made)] + [BecomeVisible("m")];
    Peaceful(Alone, [Gate("m"), Enqueue("r")] + [StartOp("r"), Create("m", Made)] + [BecomeVisible("m")]);
  }

  lemma ShowsDuringTheDrain(w: World)
    requires w == World(map["m" := Mover("r", None, false, PastGate)], map["r" := Lane(1, Free)], {})
    ensures var acts := [StartOp("r"), Create("m", Made)] + [BecomeVisible("m")];
      && ValidRun(w, acts)
      && Exec(w, acts) == World(map["m" := Mover("r", Some(Job(true, false, false)), false, JustCreated)],
                                map["r" := Lane(0, Draining)], {})
  {
    var w1 := Do(w, StartOp("r"));
    assert w1 == World(w.movers, map["r" := Lane(0, Draining)], {});
    var w2 := Do(w1, Create("m", Made));
    assert w2 == World(map["m" := Mover("r", Some(Job(false, false, false)), false, JustCreated)], w1.lanes, {});
    var w3 := Do(w2, BecomeVisible("m"));
    assert w3 == World(map["m" := Mover("r", Some(Job(true, false, false)), false, JustCreated)], w1.lanes, {});
    ExecTwo(w, StartOp("r"), Create("m", Made));
    ExecOne(w2, BecomeVisible("m"));
    ExecAppend(w, [StartOp("r"), Create("m", Made)], [BecomeVisible("m")]);
  }

  /** A run of such steps abandons nothing. */
  lemma Peaceful(w: World, acts: seq<Action>)
    requires ValidRun(w, acts)
    requires forall a <- acts :: a.Gate? || a.Enqueue? || a.StartOp? || a.BecomeVisible? || (a.Create? && a.answer.Made?)
    ensures NeverAbandons(w, acts)
    decreases |acts|
  {
    if acts != [] {
      assert acts[0] in acts && forall a <- acts[1..] :: a in acts;
      Peaceful(Do(w, acts[0]), acts[1..]);
    }
  }

  /** The census counts every repository, and the gate closes only one: another repository's mover is
      admitted, created and re-checked while the drain is waiting. */
  lemma AnotherRepositoryHoldsTheDrainOpen(r: string)
    requires r != "other"
    ensures var w := World(map["m" := Mover("other", None, false, NoPass)], map[], {});
      var acts := [Enqueue(r), StartOp(r)] + ([Gate("m"), Create("m", Made)] + [Recheck("m")]);
      && Initial(w) && ValidRun(w, acts)
      && (var u := Exec(w, acts); LaneOf(u, r).head.Draining? && CountedNow(u, "m") && u.movers["m"].repo == "other"
                                  && !Enabled(u, CensusZero(r)))
  {
    var m := Mover("other", None, false, NoPass);
    var w := World(map["m" := m], map[], {});
    var w1 := Do(w, Enqueue(r));
    assert w1 == World(w.movers, map[r := Lane(1, Free)], {});
    var w2 := Do(w1, StartOp(r));
    assert w2 == World(w.movers, map[r := Lane(0, Draining)], {});
    ExecTwo(w, Enqueue(r), StartOp(r));
    AnotherIsAdmitted(w2, r);
    ExecAppend(w, [Enqueue(r), StartOp(r)], [Gate("m"), Create("m", Made)] + [Recheck("m")]);
  }

  lemma AnotherIsAdmitted(w: World, r: string)
    requires r != "other" && w == World(map["m" := Mover("other", None, false, NoPass)], map[r := Lane(0, Draining)], {})
    ensures var acts := [Gate("m"), Create("m", Made)] + [Recheck("m")];
      && ValidRun(w, acts)
      && Exec(w, acts) == World(map["m" := Mover("other", Some(Job(false, true, false)), true, NoPass)], w.lanes, {})
  {
    var m := w.movers["m"];
    var w1 := Do(w, Gate("m"));
    assert w1 == World(map["m" := m.(pass := PastGate)], w.lanes, {});
    var w2 := Do(w1, Create("m", Made));
    assert w2 == World(map["m" := Mover("other", Some(Job(false, false, false)), false, JustCreated)], w.lanes, {});
    var w3 := Do(w2, Recheck("m"));
    assert w3 == World(map["m" := Mover("other", Some(Job(false, true, false)), true, NoPass)], w.lanes, {});
    ExecTwo(w, Gate("m"), Create("m", Made));
    ExecOne(w2, Recheck("m"));
    ExecAppend(w, [Gate("m"), Create("m", Made)], [Recheck("m")]);
  }

  // ---- Operations that outlive their operator ----

  /** At some step of the run the operator dies while r's operation executes, and the Job it leaves is not
      seen to end. */
  predicate Outlives(w: World, acts: seq<Action>, r: string)
    requires ValidRun(w, acts)
    decreases |acts|
  {
    acts != [] &&
    ((acts[0].OperatorDies? && LaneOf(w, r).head.Executing? && LooseOpEnds(r) !in acts[1..])
     || Outlives(Do(w, acts[0]), acts[1..], r))
  }

  lemma {:induction false} LooseFrom(w: World, acts: seq<Action>, r: string)
    requires ValidRun(w, acts)
    ensures r in Exec(w, acts).loose <==> (r in w.loose && LooseOpEnds(r) !in acts) || Outlives(w, acts, r)
    decreases |acts|
  {
    if acts != [] {
      LooseFrom(Do(w, acts[0]), acts[1..], r);
      assert acts == [acts[0]] + acts[1..];
    }
  }

  /** An operation executes that the queue has forgotten exactly when its operator died during it. So while
      the operator lives, every executing operation is one the exclusion covers. */
  lemma OnlyTheDeadAreForgotten(w: World, acts: seq<Action>, r: string)
    requires Initial(w) && ValidRun(w, acts)
    ensures r in Exec(w, acts).loose <==> Outlives(w, acts, r)
    ensures OperatorDies !in acts ==> r !in Exec(w, acts).loose
  {
    LooseFrom(w, acts, r);
    if OperatorDies !in acts { NobodyOutlives(w, acts, r); }
  }

  lemma {:induction false} NobodyOutlives(w: World, acts: seq<Action>, r: string)
    requires ValidRun(w, acts) && OperatorDies !in acts
    ensures !Outlives(w, acts, r)
    decreases |acts|
  {
    if acts != [] {
      assert acts[0] in acts && forall a <- acts[1..] :: a in acts;
      NobodyOutlives(Do(w, acts[0]), acts[1..], r);
    }
  }
}
