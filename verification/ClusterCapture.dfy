/** The cluster-manifest capture of a run: a transient cluster-wide grant, then the Job that needs it,
    then the verdict, and only then the teardown, grant first. The schedule that owns the run may end it as
    abandoned, and then takes grant and Job away before it writes. The methods of Capture are the passes;
    the step system adds a kill between any two of their API calls, calls that error after they
    committed, and the reaper that collects leftover grants. */
module ClusterCapture {
  import opened Prelude

  datatype Verdict = Captured(partially: bool) | CaptureFailed

  /** Ended: the Job is terminal and its pod said this. */
  datatype Job = Running | Ended(said: Verdict)

  datatype Proc =
    | Idle
    | Binding
    | Creating
    | RollingBack
    | Writing(v: Verdict)
    | TearingGrant
    | TearingJob

  /** The schedule's pass over an unfinished run. seen: the verdict in the copy of the run it listed. */
  datatype Killer =
    | Away
    | Listed(seen: Option<Verdict>)
    | Decided(seen: Option<Verdict>)
    | GrantDropped(seen: Option<Verdict>)
    | JobDropped(seen: Option<Verdict>)

  /** grant: whether the grant, if there is one, is older than the reaper's minimum age. reaping: the
      reaper has decided to delete the grant and has not done so yet. ended: the schedule's terminal
      status is stored. */
  datatype World = World(verdict: Option<Verdict>, grant: Option<bool>, job: Option<Job>, reaping: bool, proc: Proc,
                         killer: Killer, ended: bool)

  const Fresh := World(None, None, None, false, Idle, Away, false)

  datatype Answer = Done | Exists | Refused | Lost

  datatype Action =
    | Look(readable: bool)
    | Bind(bound: Answer)
    | Create(created: Answer)
    | RollBack(undone: bool)
    | Write(written: Answer)
    | TearGrant(grantGone: bool)
    | TearJob(jobGone: bool)
    | Kill
    | JobEnds(said: Verdict)
    | JobVanishes
    | GrantAges
    | ReaperLooks
    | ReaperDeletes
    | AbandonLists
    | AbandonDecides
    | AbandonDropGrant(taken: bool)
    | AbandonDropJob(taken: bool)
    | AbandonWrite(stored: bool)
    | AbandonDies

  predicate TakesGrant(a: Action) { a.ReaperDeletes? || a == AbandonDropGrant(true) }

  predicate Enabled(w: World, a: Action) {
    match a
    case Look(_) => w.proc.Idle?
    case Bind(b) => w.proc.Binding? && (b.Exists? <==> w.grant.Some? && !b.Refused?)
    case Create(c) => w.proc.Creating? && (c.Exists? ==> w.job.Some?) && (c.Done? || c.Lost? ==> w.job.None?)
    case RollBack(_) => w.proc.RollingBack?
    case Write(x) => w.proc.Writing? && !x.Exists? && (w.ended ==> x.Refused?)
    case TearGrant(_) => w.proc.TearingGrant?
    case TearJob(_) => w.proc.TearingJob?
    case Kill => true
    case JobEnds(_) => w.job == Some(Running)
    case JobVanishes => w.job.Some? && w.job.value.Ended?
    case GrantAges => w.grant.Some?
    case ReaperLooks => w.grant == Some(true) && w.job != Some(Running)
    case ReaperDeletes => w.reaping
    case AbandonLists => w.killer.Away? && !w.ended
    case AbandonDecides => w.killer.Listed? && w.job != Some(Running)
    case AbandonDropGrant(_) => w.killer.Decided?
    case AbandonDropJob(_) => w.killer.GrantDropped?
    case AbandonWrite(stored) => w.killer.JobDropped? && (stored ==> !w.ended && w.verdict == w.killer.seen)
    case AbandonDies => !w.killer.Away?
  }

  /** What a pass does first: nothing once the run is ended or a verdict is stored, start a capture when there is no Job,
      wait while it runs, and read what an ended one said. */
  function Looked(w: World, readable: bool): Proc {
    if w.ended || w.verdict.Some? then Idle
    else match w.job
      case None => Binding
      case Some(Running) => Idle
      case Some(Ended(v)) => Writing(if readable then v else CaptureFailed)
  }

  function Do(w: World, a: Action): World
    requires Enabled(w, a)
  {
    match a
    case Look(readable) => w.(proc := Looked(w, readable))
    case Bind(b) =>
      (match b
       case Done => w.(grant := Some(false), proc := Creating)
       case Exists => w.(proc := Creating)
       case Refused => w.(proc := Idle)
       case Lost => w.(grant := Some(false), proc := Idle))
    case Create(c) =>
      (match c
       case Done => w.(job := Some(Running), proc := Idle)
       case Exists => w.(proc := Idle)
       case Refused => w.(proc := RollingBack)
       case Lost => w.(job := Some(Running), proc := RollingBack))
    case RollBack(undone) => w.(grant := if undone then None else w.grant, proc := Idle)
    case Write(x) =>
      (match x
       case Done => w.(verdict := Some(w.proc.v), proc := TearingGrant)
       case Lost => w.(verdict := Some(w.proc.v), proc := Idle)
       case _ => w.(proc := Idle))
    case TearGrant(gone) => w.(grant := if gone then None else w.grant, proc := TearingJob)
    case TearJob(gone) => w.(job := if gone then None else w.job, proc := Idle)
    case Kill => w.(proc := Idle)
    case JobEnds(said) => w.(job := Some(Ended(said)))
    case JobVanishes => w.(job := None)
    case GrantAges => w.(grant := Some(true))
    case ReaperLooks => w.(reaping := true)
    case ReaperDeletes => w.(grant := None, reaping := false)
    case AbandonLists => w.(killer := Listed(w.verdict))
    case AbandonDecides => w.(killer := Decided(w.killer.seen))
    case AbandonDropGrant(gone) =>
      if gone then w.(grant := None, killer := GrantDropped(w.killer.seen)) else w.(killer := Away)
    case AbandonDropJob(gone) => w.(job := if gone then None else w.job, killer := JobDropped(w.killer.seen))
    case AbandonWrite(stored) => w.(ended := w.ended || stored, killer := Away)
    case AbandonDies => w.(killer := Away)
  }

  predicate ValidRun(w: World, acts: seq<Action>)
    decreases |acts|
  {
    acts == [] || (Enabled(w, acts[0]) && ValidRun(Do(w, acts[0]), acts[1..]))
  }

  function Exec(w: World, acts: seq<Action>): World
    requires ValidRun(w, acts)
    decreases |acts|
  {
    if acts == [] then w else Exec(Do(w, acts[0]), acts[1..])
  }

  // ---- The passes, as the source writes them ----

  /** What the API server answers in one uninterrupted pass. */
  datatype Env = Env(readable: bool, bound: Answer, created: Answer, undone: bool)

  /** What starting the capture does to the stored state, in one uninterrupted pass. */
  ghost function Started(w: World, env: Env): World
    requires w.proc.Binding? && w.job.None? && Enabled(w, Bind(env.bound)) && !env.created.Exists?
  {
    var bound := Do(w, Bind(env.bound));
    if bound.proc.Idle? then bound
    else
      var tried := Do(bound, Create(env.created));
      if tried.proc.Idle? then tried else Do(tried, RollBack(env.undone))
  }

  /** The writes of a pass, in the order it makes them. */
  datatype Call = MakeGrant | MakeJob | DropGrant | DropJob

  class Capture {
    var verdict: Option<Verdict>
    var grant: Option<bool>
    var job: Option<Job>
    var ended: bool

    /** The stored state, with the pass at this point. */
    ghost function At(proc: Proc): World
      reads this
    {
      World(verdict, grant, job, false, proc, Away, ended)
    }

    /** The stored state, with the schedule's pass at this point. */
    ghost function Under(killer: Killer): World
      reads this
    {
      World(verdict, grant, job, false, Idle, killer, ended)
    }

    /** Grant, then Job; a Job create that errors takes the grant back. */
    method StartClusterManifestsJob(env: Env) returns (ok: bool, calls: seq<Call>)
      requires Enabled(At(Binding), Bind(env.bound))
      requires job.None? && !env.created.Exists?
      modifies this`grant, this`job
      ensures ok <==> !env.bound.Refused? && !env.bound.Lost? && env.created.Done?
      ensures At(Idle) == Started(old(At(Binding)), env)
      ensures calls != [] && calls[0] == MakeGrant
      ensures MakeJob in calls <==> !env.bound.Refused? && !env.bound.Lost?
      ensures MakeJob in calls ==> calls[1] == MakeJob && (ok <==> |calls| == 2) && (!ok ==> calls == [MakeGrant, MakeJob, DropGrant])
    {
      calls := [MakeGrant];
      if !env.bound.Refused? && !env.bound.Exists? { grant := Some(false); }
      if env.bound.Refused? || env.bound.Lost? { return false, calls; }
      calls := calls + [MakeJob];
      if !env.created.Refused? { job := Some(Running); }
      if !env.created.Done? {
        calls := calls + [DropGrant];
        if env.undone { grant := None; }
        return false, calls;
      }
      return true, calls;
    }

    /** One pass up to its status write; said is the verdict to persist, if this pass reached one. */
    method AdvanceClusterManifests(env: Env) returns (done: bool, said: Option<Verdict>)
      requires !ended && Enabled(At(Binding), Bind(env.bound)) && !env.created.Exists?
      modifies this`grant, this`job
      ensures done <==> old(verdict).Some? || (old(job).Some? && old(job).value.Ended?)
      ensures said == (if old(verdict).None? && old(job).Some? && old(job).value.Ended?
                       then Some(if env.readable then old(job).value.said else CaptureFailed) else None)
      ensures At(Idle) == if old(verdict).None? && old(job).None? then Started(old(At(Binding)), env) else old(At(Idle))
      ensures Looked(old(At(Idle)), env.readable) ==
        if said.Some? then Writing(said.value) else if old(verdict).None? && old(job).None? then Binding else Idle
    {
      if verdict.Some? { return true, None; }
      match job {
        case None =>
          var _, _ := StartClusterManifestsJob(env);
          return false, None;
        case Some(Running) => return false, None;
        case Some(Ended(v)) => return true, Some(if env.readable then v else CaptureFailed);
      }
    }

    /** After the verdict is stored: the grant first, then the Job. */
    method TeardownClusterManifests(grantGone: bool, jobGone: bool) returns (calls: seq<Call>)
      requires verdict.Some?
      modifies this`grant, this`job
      ensures At(Idle) == Do(Do(old(At(TearingGrant)), TearGrant(grantGone)), TearJob(jobGone))
      ensures calls == [DropGrant, DropJob]
    {
      calls := [DropGrant, DropJob];
      if grantGone { grant := None; }
      if jobGone { job := None; }
    }

    /** Ending the run as abandoned: the grant, which must go, then the Job, then the terminal status. */
    method TerminateAbandonedRun(grantGone: bool, jobGone: bool, stored: bool) returns (ok: bool, calls: seq<Call>)
      requires !ended
      modifies this`grant, this`job, this`ended
      ensures ok <==> grantGone && stored
      ensures calls == if grantGone then [DropGrant, DropJob] else [DropGrant]
      ensures var seen := old(verdict);
        && (!grantGone ==> Under(Away) == Do(old(Under(Decided(seen))), AbandonDropGrant(false)))
        && (grantGone ==>
              Under(Away) == Do(Do(Do(old(Under(Decided(seen))), AbandonDropGrant(true)), AbandonDropJob(jobGone)),
                                AbandonWrite(stored)))
    {
      calls := [DropGrant];
      if !grantGone { return false, calls; }
      grant := None;
      calls := calls + [DropJob];
      if jobGone { job := None; }
      if !stored { return false, calls; }
      ended := true;
      return true, calls;
    }
  }

  // ---- What a step changes ----

  /** A create, or a bind, that reached the API server. */
  predicate Commits(a: Action) { a.Create? && (a.created.Done? || a.created.Lost?) }

  predicate Binds(a: Action) { a.Bind? && (a.bound.Done? || a.bound.Lost?) }

  /** A step of the pass, rather than of the cluster, the reaper or the schedule. */
  predicate OfThePass(a: Action) {
    a.Look? || a.Bind? || a.Create? || a.RollBack? || a.Write? || a.TearGrant? || a.TearJob? || a.Kill?
  }

  /** Grant, Job, verdict and end come and go by these steps alone, and after each of its steps a pass goes on
      to one: to the create once it has a grant, to the rollback after a create that errored, and from the
      stored verdict to the grant and then the Job. */
  lemma StepChangesExactly(w: World, a: Action)
    requires Enabled(w, a)
    ensures var u := Do(w, a);
      && (u.grant.Some? <==> Binds(a) || (w.grant.Some? && !TakesGrant(a) && a != RollBack(true) && a != TearGrant(true)))
      && (u.job.Some? <==> Commits(a) || (w.job.Some? && !a.JobVanishes? && a != AbandonDropJob(true) && a != TearJob(true)))
      && (Commits(a) ==> u.job == Some(Running))
      && u.verdict == (if a == Write(Done) || a == Write(Lost) then Some(w.proc.v) else w.verdict)
      && (u.ended <==> w.ended || a == AbandonWrite(true))
      && (!OfThePass(a) ==> u.proc == w.proc)
      && (OfThePass(a) && !a.Look? ==>
            u.proc == if a == Bind(Done) || a == Bind(Exists) then Creating
                      else if a == Create(Refused) || a == Create(Lost) then RollingBack
                      else if a == Write(Done) then TearingGrant
                      else if a.TearGrant? then TearingJob
                      else Idle)
  {
  }

  // ---- No verdict is lost ----

  predicate TeardownInv(w: World) { w.proc.TearingGrant? || w.proc.TearingJob? ==> w.verdict.Some? }

  lemma {:induction false} RunKeepsTeardown(w: World, acts: seq<Action>)
    requires TeardownInv(w) && ValidRun(w, acts)
    ensures TeardownInv(Exec(w, acts))
    decreases |acts|
  {
    if acts != [] { RunKeepsTeardown(Do(w, acts[0]), acts[1..]); }
  }

  /** In every run the passes tear down only over a stored verdict, and a stored verdict is never written
      again. A grant or a Job goes with no verdict stored exactly by a rollback, the reaper or the
      abandonment, and by the cluster or the abandonment. */
  lemma VerdictBeforeTeardown(acts: seq<Action>, a: Action)
    requires ValidRun(Fresh, acts) && Enabled(Exec(Fresh, acts), a)
    ensures var w := Exec(Fresh, acts);
      && (a.TearGrant? || a.TearJob? ==> w.verdict.Some?)
      && (w.verdict.Some? ==> Do(w, a).verdict == w.verdict)
      && (w.verdict.None? && w.grant.Some? ==>
            (Do(w, a).grant.None? <==> TakesGrant(a) || a == RollBack(true)))
      && (w.verdict.None? && w.job.Some? ==>
            (Do(w, a).job.None? <==> a.JobVanishes? || a == AbandonDropJob(true)))
  {
    RunKeepsTeardown(Fresh, acts);
    WritesOnce(Fresh, acts);
  }

  predicate WriteInv(w: World) { w.proc.Writing? ==> w.verdict.None? }

  lemma {:induction false} WritesOnce(w: World, acts: seq<Action>)
    requires WriteInv(w) && ValidRun(w, acts)
    ensures WriteInv(Exec(w, acts))
    decreases |acts|
  {
    if acts != [] { WritesOnce(Do(w, acts[0]), acts[1..]); }
  }

  // ---- The verdict is what the Job said ----

  lemma ExecInit(w: World, acts: seq<Action>)
    requires ValidRun(w, acts) && acts != []
    ensures var n := |acts| - 1;
      && ValidRun(w, acts[..n]) && Enabled(Exec(w, acts[..n]), acts[n])
      && Exec(w, acts) == Do(Exec(w, acts[..n]), acts[n])
    decreases |acts|
  {
    var n := |acts| - 1;
    if n == 0 {
      assert acts[..0] == [] && acts[1..] == [];
    } else {
      ExecInit(Do(w, acts[0]), acts[1..]);
      assert acts[1..][..n - 1] == acts[..n][1..];
    }
  }

  /** What the last Job to end in the run said. */
  function LastSaid(acts: seq<Action>): Option<Verdict> {
    if acts == [] then None
    else if acts[|acts| - 1].JobEnds? then Some(acts[|acts| - 1].said)
    else LastSaid(acts[..|acts| - 1])
  }

  /** Some pass of the run looked at a Job that had said this: x is that if its report could be read, and a
      failure otherwise. */
  predicate ReadOff(acts: seq<Action>, x: Verdict) {
    exists i :: 0 <= i < |acts| && acts[i].Look? && LastSaid(acts[..i]).Some?
                && x == if acts[i].readable then LastSaid(acts[..i]).value else CaptureFailed
  }

  lemma ReadOffStays(acts: seq<Action>, a: Action, x: Verdict)
    requires ReadOff(acts, x)
    ensures ReadOff(acts + [a], x)
  {
    var i :| 0 <= i < |acts| && acts[i].Look? && LastSaid(acts[..i]).Some?
             && x == if acts[i].readable then LastSaid(acts[..i]).value else CaptureFailed;
    assert (acts + [a])[..i] == acts[..i] && (acts + [a])[i] == acts[i];
  }

  predicate SaidInv(w: World, acts: seq<Action>) {
    && (w.job.Some? && w.job.value.Ended? ==> LastSaid(acts) == Some(w.job.value.said))
    && (w.proc.Writing? ==> ReadOff(acts, w.proc.v))
    && (w.verdict.Some? ==> ReadOff(acts, w.verdict.value))
  }

  lemma StepKeepsSaid(w: World, acts: seq<Action>, a: Action)
    requires SaidInv(w, acts) && Enabled(w, a)
    ensures SaidInv(Do(w, a), acts + [a])
  {
    var more := acts + [a];
    assert more[..|acts|] == acts && more[|acts|] == a;
    if w.proc.Writing? { ReadOffStays(acts, a, w.proc.v); }
    if w.verdict.Some? { ReadOffStays(acts, a, w.verdict.value); }
    var u := Do(w, a);
    if a.Look? && u.proc.Writing? {
      assert more[|acts|].Look? && LastSaid(more[..|acts|]) == Some(w.job.value.said);
      assert u.proc.v == if a.readable then w.job.value.said else CaptureFailed;
    }
  }

  lemma {:induction false} RunKeepsSaid(acts: seq<Action>)
    requires ValidRun(Fresh, acts)
    ensures SaidInv(Exec(Fresh, acts), acts)
  {
    if acts != [] {
      var n := |acts| - 1;
      ExecInit(Fresh, acts);
      RunKeepsSaid(acts[..n]);
      StepKeepsSaid(Exec(Fresh, acts[..n]), acts[..n], acts[n]);
      assert acts[..n] + [acts[n]] == acts;
    }
  }

  lemma {:induction false} SaidByAnEnd(acts: seq<Action>)
    requires LastSaid(acts).Some?
    ensures JobEnds(LastSaid(acts).value) in acts
  {
    var n := |acts| - 1;
    assert acts[n] in acts;
    if !acts[n].JobEnds? {
      SaidByAnEnd(acts[..n]);
      assert forall a <- acts[..n] :: a in acts;
    }
  }

  /** In every run, a stored verdict was read off the last Job that had ended by then: it is what that Job said
      if its report could be read, and a failure if not. So a capture is stored as taken, whole or in part,
      only if a Job ended with exactly that. */
  lemma VerdictIsWhatTheJobSaid(acts: seq<Action>)
    requires ValidRun(Fresh, acts) && Exec(Fresh, acts).verdict.Some?
    ensures var x := Exec(Fresh, acts).verdict.value;
      && ReadOff(acts, x)
      && (x.Captured? ==> JobEnds(x) in acts)
  {
    RunKeepsSaid(acts);
    var x := Exec(Fresh, acts).verdict.value;
    var i :| 0 <= i < |acts| && acts[i].Look? && LastSaid(acts[..i]).Some?
             && x == if acts[i].readable then LastSaid(acts[..i]).value else CaptureFailed;
    SaidByAnEnd(acts[..i]);
    assert forall a <- acts[..i] :: a in acts;
  }

  // ---- The grant covers the Job, exactly when ----

  /** A delete of the reaper's or of an abandonment landed since the last bind of the run. */
  predicate TakenSinceBind(acts: seq<Action>) {
    if acts == [] then false
    else
      var a := acts[|acts| - 1];
      if TakesGrant(a) then true else if a.Bind? then false else TakenSinceBind(acts[..|acts| - 1])
  }

  /** A rollback went through since the last create of the run. */
  predicate RolledBackSinceCreate(acts: seq<Action>) {
    if acts == [] then false
    else
      var a := acts[|acts| - 1];
      if a.RollBack? && a.undone then true else if a.Create? then false else RolledBackSinceCreate(acts[..|acts| - 1])
  }

  /** How the last create of the run was answered. */
  function LastCreate(acts: seq<Action>): Answer {
    if acts == [] then Refused
    else if acts[|acts| - 1].Create? then acts[|acts| - 1].created
    else LastCreate(acts[..|acts| - 1])
  }

  /** What the world shows of the run so far. */
  predicate BareInv(w: World, taken: bool, rolledBack: bool, last: Answer) {
    && (w.job == Some(Running) ==>
          && (w.proc.Idle? || w.proc.RollingBack?)
          && (w.grant.None? <==> taken || rolledBack)
          && (w.proc.RollingBack? || rolledBack ==> last.Lost?))
    && (w.proc.Binding? || w.proc.Creating? ==> w.job.None?)
    && (w.proc.Creating? ==> (w.grant.None? <==> taken))
  }

  lemma {:induction false} RunKeepsBare(acts: seq<Action>)
    requires ValidRun(Fresh, acts)
    ensures BareInv(Exec(Fresh, acts), TakenSinceBind(acts), RolledBackSinceCreate(acts), LastCreate(acts))
  {
    if acts != [] {
      var n := |acts| - 1;
      ExecInit(Fresh, acts);
      RunKeepsBare(acts[..n]);
    }
  }

  /** In every run: a running capture Job is without its grant exactly when a delete of the reaper's or of an
      abandonment landed after the pass bound the grant it was created under, or its create was lost and the
      rollback went through. The Job is never created twice at once, and while a pass is about to create it
      the grant is missing only through such a delete. */
  lemma JobIsBareExactly(acts: seq<Action>)
    requires ValidRun(Fresh, acts)
    ensures var w := Exec(Fresh, acts);
      && (w.job == Some(Running) ==>
            (w.grant.None? <==> TakenSinceBind(acts) || (LastCreate(acts).Lost? && RolledBackSinceCreate(acts))))
      && (w.proc.Creating? ==> w.job.None? && (w.grant.None? <==> TakenSinceBind(acts)))
  {
    RunKeepsBare(acts);
  }

  predicate NoLostCreate(acts: seq<Action>) { forall a <- acts :: !(a.Create? && a.created.Lost?) }

  predicate NoneTaken(acts: seq<Action>) { forall a <- acts :: !TakesGrant(a) }

  lemma {:induction false} CalmRun(acts: seq<Action>)
    ensures NoneTaken(acts) ==> !TakenSinceBind(acts)
    ensures NoLostCreate(acts) ==> !LastCreate(acts).Lost?
  {
    if acts != [] {
      var n := |acts| - 1;
      assert acts[n] in acts && forall a <- acts[..n] :: a in acts;
      CalmRun(acts[..n]);
    }
  }

  /** So without lost creates and deletes of the reaper's or of an abandonment a capture Job never runs
      without its grant, whatever is killed, refused or retried. */
  lemma GrantCoversEveryRunningJob(acts: seq<Action>)
    requires ValidRun(Fresh, acts) && NoLostCreate(acts) && NoneTaken(acts)
    ensures var w := Exec(Fresh, acts);
      && (w.job == Some(Running) ==> w.grant.Some?)
      && (w.proc.Creating? ==> w.grant.Some? && w.job.None?)
  {
    JobIsBareExactly(acts);
    CalmRun(acts);
  }

  // ---- What an unstored capture leaves ----

  predicate EverCreated(acts: seq<Action>) { exists a <- acts :: Commits(a) }

  /** The Job created last was taken away by the cluster or by an abandonment. */
  predicate TakenSinceCreate(acts: seq<Action>) {
    if acts == [] then false
    else
      var a := acts[|acts| - 1];
      if Commits(a) then false
      else a.JobVanishes? || a == AbandonDropJob(true) || TakenSinceCreate(acts[..|acts| - 1])
  }

  predicate RecordInv(w: World, created: bool, taken: bool) {
    TeardownInv(w) && (w.verdict.None? && created ==> (w.job.Some? <==> !taken))
  }

  lemma {:induction false} RunKeepsRecord(acts: seq<Action>)
    requires ValidRun(Fresh, acts)
    ensures RecordInv(Exec(Fresh, acts), EverCreated(acts), TakenSinceCreate(acts))
  {
    if acts != [] {
      var n := |acts| - 1;
      ExecInit(Fresh, acts);
      RunKeepsRecord(acts[..n]);
      assert acts == acts[..n] + [acts[n]];
      assert EverCreated(acts) <==> EverCreated(acts[..n]) || Commits(acts[n]);
    }
  }

  /** In every run: a capture whose Job was created and whose verdict is not stored has its Job still there,
      running or ended, unless the cluster or an abandonment took it away; so only those two can lose what
      an ended Job said. */
  lemma UnstoredCaptureKeepsItsJobExactly(acts: seq<Action>)
    requires ValidRun(Fresh, acts) && EverCreated(acts)
    ensures var w := Exec(Fresh, acts); w.verdict.None? ==> (w.job.Some? <==> !TakenSinceCreate(acts))
  {
    RunKeepsRecord(acts);
  }

  /** A bind landed after the last grant an abandonment took away. */
  predicate BoundSinceDrop(acts: seq<Action>) {
    if acts == [] then false
    else
      var a := acts[|acts| - 1];
      if a == AbandonDropGrant(true) then false
      else (a.Bind? && (a.bound.Done? || a.bound.Lost?)) || BoundSinceDrop(acts[..|acts| - 1])
  }

  /** In every run: a grant that stands after an abandonment took one away was bound after that, by a pass
      already on its way. */
  lemma {:induction false} StandingGrantWasBoundSince(acts: seq<Action>)
    requires ValidRun(Fresh, acts)
    ensures Exec(Fresh, acts).grant.Some? ==> BoundSinceDrop(acts)
  {
    if acts != [] {
      var n := |acts| - 1;
      ExecInit(Fresh, acts);
      StandingGrantWasBoundSince(acts[..n]);
    }
  }

  lemma ExecOne(w: World, a: Action)
    requires Enabled(w, a)
    ensures ValidRun(w, [a]) && Exec(w, [a]) == Do(w, a)
  {
    assert [a][1..] == [];
  }

  lemma ExecThen(w: World, acts: seq<Action>, a: Action)
    requires ValidRun(w, acts) && Enabled(Exec(w, acts), a)
    ensures ValidRun(w, acts + [a]) && Exec(w, acts + [a]) == Do(Exec(w, acts), a)
    decreases |acts|
  {
    if acts == [] {
      assert acts + [a] == [a];
      ExecOne(w, a);
    } else {
      assert (acts + [a])[1..] == acts[1..] + [a];
      ExecThen(Do(w, acts[0]), acts[1..], a);
    }
  }

  /** A capture nobody disturbs: whatever the Job says and whether it can be read, the verdict is stored, and
      then the grant and the Job are gone. */
  lemma CalmCaptureLeavesItsVerdict(said: Verdict, readable: bool)
    ensures var acts := [Look(true)] + [Bind(Done)] + [Create(Done)] + [JobEnds(said)] + [Look(readable)] + [Write(Done)]
                        + [TearGrant(true)] + [TearJob(true)];
      && ValidRun(Fresh, acts)
      && Exec(Fresh, acts) == Fresh.(verdict := Some(if readable then said else CaptureFailed))
  {
    ExecOne(Fresh, Look(true));
    ExecThen(Fresh, [Look(true)], Bind(Done));
    ExecThen(Fresh, [Look(true)] + [Bind(Done)], Create(Done));
    var a0 := [Look(true)] + [Bind(Done)] + [Create(Done)];
    assert Exec(Fresh, a0) == Fresh.(grant := Some(false), job := Some(Running));
    ExecThen(Fresh, a0, JobEnds(said));
    ExecThen(Fresh, a0 + [JobEnds(said)], Look(readable));
    var a1 := a0 + [JobEnds(said)] + [Look(readable)];
    var v := if readable then said else CaptureFailed;
    assert Exec(Fresh, a1) == Fresh.(grant := Some(false), job := Some(Ended(said)), proc := Writing(v));
    ExecThen(Fresh, a1, Write(Done));
    ExecThen(Fresh, a1 + [Write(Done)], TearGrant(true));
    ExecThen(Fresh, a1 + [Write(Done)] + [TearGrant(true)], TearJob(true));
  }

  /** A create that committed and errored: the rollback takes the grant from the Job it made. */
  lemma LostCreateLeavesTheJobBare()
    ensures var acts := [Look(true), Bind(Done), Create(Lost), RollBack(true)];
      ValidRun(Fresh, acts) && Exec(Fresh, acts) == World(None, None, Some(Running), false, Idle, Away, false)
  {
    ExecOne(Fresh, Look(true));
    ExecThen(Fresh, [Look(true)], Bind(Done));
    assert [Look(true)] + [Bind(Done)] == [Look(true), Bind(Done)];
    ExecThen(Fresh, [Look(true), Bind(Done)], Create(Lost));
    assert [Look(true), Bind(Done)] + [Create(Lost)] == [Look(true), Bind(Done), Create(Lost)];
    ExecThen(Fresh, [Look(true), Bind(Done), Create(Lost)], RollBack(true));
    assert [Look(true), Bind(Done), Create(Lost)] + [RollBack(true)] == [Look(true), Bind(Done), Create(Lost), RollBack(true)];
  }

  /** A pass killed between its grant and its Job leaves a grant that ages. */
  lemma KilledPassLeavesAGrant()
    ensures var acts := [Look(true), Bind(Done), Kill, GrantAges];
      ValidRun(Fresh, acts) && Exec(Fresh, acts) == World(None, Some(true), None, false, Idle, Away, false)
  {
    ExecOne(Fresh, Look(true));
    ExecThen(Fresh, [Look(true)], Bind(Done));
    assert [Look(true)] + [Bind(Done)] == [Look(true), Bind(Done)];
    ExecThen(Fresh, [Look(true), Bind(Done)], Kill);
    assert [Look(true), Bind(Done)] + [Kill] == [Look(true), Bind(Done), Kill];
    ExecThen(Fresh, [Look(true), Bind(Done), Kill], GrantAges);
    assert [Look(true), Bind(Done), Kill] + [GrantAges] == [Look(true), Bind(Done), Kill, GrantAges];
  }

  /** Then the reaper decides on it, a new pass adopts it and creates its Job, and the delete lands. */
  lemma LateReapLeavesTheJobBare()
    ensures var acts := [Look(true), Bind(Done), Kill, GrantAges] + [ReaperLooks] + [Look(true)] + [Bind(Exists)]
                        + [Create(Done)] + [ReaperDeletes];
      ValidRun(Fresh, acts) && Exec(Fresh, acts) == World(None, None, Some(Running), false, Idle, Away, false)
  {
    KilledPassLeavesAGrant();
    var a0 := [Look(true), Bind(Done), Kill, GrantAges];
    ExecThen(Fresh, a0, ReaperLooks);
    ExecThen(Fresh, a0 + [ReaperLooks], Look(true));
    ExecThen(Fresh, a0 + [ReaperLooks] + [Look(true)], Bind(Exists));
    ExecThen(Fresh, a0 + [ReaperLooks] + [Look(true)] + [Bind(Exists)], Create(Done));
    ExecThen(Fresh, a0 + [ReaperLooks] + [Look(true)] + [Bind(Exists)] + [Create(Done)], ReaperDeletes);
  }

  const DecidesOnNothing := [Look(true)] + [AbandonLists] + [AbandonDecides]

  /** A pass has found no Job, and so has the schedule. */
  lemma DecisionOnNothing()
    ensures ValidRun(Fresh, DecidesOnNothing)
    ensures Exec(Fresh, DecidesOnNothing) == World(None, None, None, false, Binding, Decided(None), false)
  {
    ExecOne(Fresh, Look(true));
    ExecThen(Fresh, [Look(true)], AbandonLists);
    ExecThen(Fresh, [Look(true)] + [AbandonLists], AbandonDecides);
  }

  /** The schedule decides on a run without a Job, a pass that was on its way binds and creates, and the
      grant's delete lands on its running Job. If the operator dies there, the Job stays so. */
  lemma AbandonmentLeavesTheJobBare()
    ensures var acts := DecidesOnNothing + [Bind(Done)] + [Create(Done)] + [AbandonDropGrant(true)] + [AbandonDies];
      ValidRun(Fresh, acts) && Exec(Fresh, acts) == World(None, None, Some(Running), false, Idle, Away, false)
  {
    DecisionOnNothing();
    var a0 := DecidesOnNothing;
    ExecThen(Fresh, a0, Bind(Done));
    ExecThen(Fresh, a0 + [Bind(Done)], Create(Done));
    assert Exec(Fresh, a0 + [Bind(Done)] + [Create(Done)]) == World(None, Some(false), Some(Running), false, Idle, Decided(None), false);
    ExecThen(Fresh, a0 + [Bind(Done)] + [Create(Done)], AbandonDropGrant(true));
    ExecThen(Fresh, a0 + [Bind(Done)] + [Create(Done)] + [AbandonDropGrant(true)], AbandonDies);
  }

  const EndsAsAbandoned := [AbandonDropGrant(true)] + [AbandonDropJob(true)] + [AbandonWrite(true)]

  /** The rest of an abandonment, from any state it decided on. */
  lemma AbandonmentEnds(w: World, acts: seq<Action>)
    requires ValidRun(w, acts)
    requires var d := Exec(w, acts); d.killer == Decided(d.verdict) && !d.ended
    ensures ValidRun(w, acts + EndsAsAbandoned)
    ensures var d := Exec(w, acts);
      Exec(w, acts + EndsAsAbandoned) == d.(grant := None, job := None, killer := Away, ended := true)
  {
    ExecThen(w, acts, AbandonDropGrant(true));
    ExecThen(w, acts + [AbandonDropGrant(true)], AbandonDropJob(true));
    ExecThen(w, acts + [AbandonDropGrant(true)] + [AbandonDropJob(true)], AbandonWrite(true));
    assert acts + EndsAsAbandoned == acts + [AbandonDropGrant(true)] + [AbandonDropJob(true)] + [AbandonWrite(true)];
  }

  /** A capture that ended well just before the schedule looked: its grant and Job go, the run ends, and
      no verdict is stored. */
  lemma AbandonmentLosesAVerdict()
    ensures var acts := [Look(true)] + [Bind(Done)] + [Create(Done)] + [JobEnds(Captured(false))]
                        + [AbandonLists] + [AbandonDecides] + EndsAsAbandoned;
      ValidRun(Fresh, acts) && Exec(Fresh, acts) == World(None, None, None, false, Idle, Away, true)
  {
    ExecOne(Fresh, Look(true));
    ExecThen(Fresh, [Look(true)], Bind(Done));
    ExecThen(Fresh, [Look(true)] + [Bind(Done)], Create(Done));
    var a0 := [Look(true)] + [Bind(Done)] + [Create(Done)];
    assert Exec(Fresh, a0) == Fresh.(grant := Some(false), job := Some(Running));
    ExecThen(Fresh, a0, JobEnds(Captured(false)));
    ExecThen(Fresh, a0 + [JobEnds(Captured(false))], AbandonLists);
    ExecThen(Fresh, a0 + [JobEnds(Captured(false))] + [AbandonLists], AbandonDecides);
    AbandonmentEnds(Fresh, a0 + [JobEnds(Captured(false))] + [AbandonLists] + [AbandonDecides]);
  }

  /** A pass that was on its way past the whole abandonment: the run is ended, and its capture starts under a
      fresh grant all the same. */
  lemma EndedRunMayStillCapture()
    ensures var acts := DecidesOnNothing + EndsAsAbandoned + [Bind(Done)] + [Create(Done)];
      ValidRun(Fresh, acts) && Exec(Fresh, acts) == World(None, Some(false), Some(Running), false, Idle, Away, true)
  {
    DecisionOnNothing();
    AbandonmentEnds(Fresh, DecidesOnNothing);
    ExecThen(Fresh, DecidesOnNothing + EndsAsAbandoned, Bind(Done));
    ExecThen(Fresh, DecidesOnNothing + EndsAsAbandoned + [Bind(Done)], Create(Done));
  }
}
