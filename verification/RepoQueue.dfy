/** The per-repository exclusive work queue: one lane per repository, one consumer per lane, and the
    counter the mover admission gate reads. The worker is a class with the source's fields; its
    locked sections are the methods, each proved against a function on lanes, and the interleavings
    of producer, consumer and shutdown are a step system over those functions. */
module RepoQueue {

  datatype OpKind = Init | Forget | Prune | Check | Erase | Unlock | Sync

  /** The kinds that need mover quiescence, as the queue's admission side names them. */
  predicate BlocksMovers(kind: OpKind) { kind == Unlock || kind == Prune }

  datatype Handle = Handle(id: nat, kind: OpKind)

  /** How many of these handles hold the movers back. */
  function Blocking(hs: seq<Handle>): nat {
    if hs == [] then 0
    else Blocking(hs[..|hs| - 1]) + (if BlocksMovers(hs[|hs| - 1].kind) then 1 else 0)
  }

  lemma {:induction false} BlockingSplits(a: seq<Handle>, b: seq<Handle>)
    ensures Blocking(a + b) == Blocking(a) + Blocking(b)
    decreases |b|
  {
    if b == [] {
      assert a + b == a;
    } else {
      assert (a + b)[..|a + b| - 1] == a + b[..|b| - 1];
      BlockingSplits(a, b[..|b| - 1]);
    }
  }

  lemma {:induction false} BlockingPositive(hs: seq<Handle>)
    ensures Blocking(hs) > 0 <==> exists h <- hs :: BlocksMovers(h.kind)
    decreases |hs|
  {
    if hs != [] {
      var n := |hs| - 1;
      BlockingPositive(hs[..n]);
      assert hs == hs[..n] + [hs[n]];
      if BlocksMovers(hs[n].kind) { assert hs[n] in hs; }
    }
  }

  // ---- The worker's state ----

  datatype Lane = Lane(queue: seq<Handle>, moverBlocking: int)

  function Contribution(h: Handle): nat { if BlocksMovers(h.kind) then 1 else 0 }

  function Pushed(l: Lane, h: Handle): Lane { Lane(l.queue + [h], l.moverBlocking + Contribution(h)) }

  function Accounted(l: Lane, h: Handle): Lane { l.(moverBlocking := l.moverBlocking - Contribution(h)) }

  class Worker {
    var queue: seq<Handle>
    var moverBlocking: int

    constructor ()
      ensures Value() == Lane([], 0)
    {
      queue := [];
      moverBlocking := 0;
    }

    ghost function Value(): Lane
      reads this
    {
      Lane(queue, moverBlocking)
    }

    method Enqueue(h: Handle)
      modifies this
      ensures Value() == Pushed(old(Value()), h)
    {
      queue := queue + [h];
      if BlocksMovers(h.kind) {
        moverBlocking := moverBlocking + 1;
      }
    }

    /** Called once for every handle, whichever way it was resolved. */
    method AfterResolve(h: Handle)
      modifies this
      ensures Value() == Accounted(old(Value()), h)
    {
      if !BlocksMovers(h.kind) { return; }
      moverBlocking := moverBlocking - 1;
    }

    /** The gate's reading: with a counter that counts the open handles, it is true exactly while one
        of them blocks movers. */
    method MoverBlockingActive(ghost open: seq<Handle>) returns (active: bool)
      requires moverBlocking == Blocking(open)
      ensures active <==> exists h <- open :: BlocksMovers(h.kind)
    {
      active := moverBlocking > 0;
      BlockingPositive(open);
    }

    /** Takes the head; the counter is untouched, so the handle stays counted while it runs. */
    method Pop() returns (h: Handle, ok: bool)
      modifies this
      ensures ok <==> old(queue) != []
      ensures ok ==> old(queue) == [h] + queue && moverBlocking == old(moverBlocking)
      ensures !ok ==> Value() == old(Value())
    {
      if |queue| == 0 { return Handle(0, Init), false; }
      h := queue[0];
      queue := queue[1..];
      ok := true;
    }

    method Drain() returns (rest: seq<Handle>)
      modifies this
      ensures rest == old(queue) && Value() == old(Value()).(queue := [])
    {
      rest := queue;
      queue := [];
    }
  }

  // ---- Producers, consumer and shutdown, interleaved ----

  /** Where the lane's one consumer is. */
  datatype Consumer =
    | AtTop
    | Popping
    | Asleep
    | Holding(h: Handle)
    | Executing(h: Handle)
    | Accounting(h: Handle)
    | LastAccounting(h: Handle)
    | Emptying
    | Cancelling(rest: seq<Handle>)
    | CancelAccounting(h: Handle, rest: seq<Handle>)
    | Gone
  {
    /** Handles taken from the queue and not resolved yet. */
    function Held(): seq<Handle> {
      match this
      case Holding(h) => [h]
      case Executing(h) => [h]
      case Cancelling(rest) => rest
      case CancelAccounting(_, rest) => rest
      case _ => []
    }

    /** Handles resolved and still counted. */
    function Owed(): seq<Handle> {
      match this
      case Accounting(h) => [h]
      case LastAccounting(h) => [h]
      case CancelAccounting(h, _) => [h]
      case _ => []
    }

    predicate Leaving() { LastAccounting? || Emptying? || Cancelling? || CancelAccounting? || Gone? }
  }

  /** A producer inside the manager lock, past the check for shutdown. */
  datatype Producer = Outside | Inside(h: Handle)

  datatype Shop = Shop(lane: Lane, consumer: Consumer, producer: Producer, stopped: bool, cancelled: bool,
                       accepted: seq<Handle>, resolved: seq<Handle>, ran: seq<Handle>)

  const OpenShop := Shop(Lane([], 0), AtTop, Outside, false, false, [], [], [])

  datatype Step =
    | CheckIn(h: Handle)
    | Append
    | Stop
    | StopCancels
    | ParentCancels
    | Poll
    | TryPop
    | Wake
    | Recheck
    | Finish
    | Account
    | TakeAll
    | CancelNext

  predicate CanStep(s: Shop, a: Step) {
    match a
    case CheckIn(_) => s.producer.Outside?
    case Append => s.producer.Inside?
    case Stop => s.producer.Outside?
    case StopCancels => s.stopped
    case ParentCancels => true
    case Poll => s.consumer.AtTop?
    case TryPop => s.consumer.Popping?
    case Wake => s.consumer.Asleep?
    case Recheck => s.consumer.Holding?
    case Finish => s.consumer.Executing?
    case Account => s.consumer.Accounting? || s.consumer.LastAccounting? || s.consumer.CancelAccounting?
    case TakeAll => s.consumer.Emptying?
    case CancelNext => s.consumer.Cancelling?
  }

  function Next(s: Shop, a: Step): Shop
    requires CanStep(s, a)
  {
    match a
    // Enqueue refuses with ErrStopped once either flag is up; otherwise it goes on holding the lock.
    case CheckIn(h) => if s.stopped || s.cancelled then s else s.(producer := Inside(h))
    case Append =>
      s.(lane := Pushed(s.lane, s.producer.h), producer := Outside, accepted := s.accepted + [s.producer.h])
    case Stop => s.(stopped := true)
    case StopCancels => s.(cancelled := true)
    case ParentCancels => s.(cancelled := true)
    case Poll => s.(consumer := if s.cancelled then Emptying else Popping)
    case TryPop =>
      if s.lane.queue == [] then s.(consumer := Asleep)
      else s.(lane := s.lane.(queue := s.lane.queue[1..]), consumer := Holding(s.lane.queue[0]))
    case Wake => s.(consumer := if s.cancelled then Emptying else AtTop)
    case Recheck =>
      var h := s.consumer.h;
      if s.cancelled then s.(resolved := s.resolved + [h], consumer := LastAccounting(h))
      else s.(ran := s.ran + [h], consumer := Executing(h))
    case Finish => s.(resolved := s.resolved + [s.consumer.h], consumer := Accounting(s.consumer.h))
    case Account =>
      s.(lane := Accounted(s.lane, s.consumer.h),
         consumer := if s.consumer.Accounting? then AtTop
                     else if s.consumer.LastAccounting? then Emptying
                     else Cancelling(s.consumer.rest))
    case TakeAll => s.(lane := s.lane.(queue := []), consumer := Cancelling(s.lane.queue))
    case CancelNext =>
      if s.consumer.rest == [] then s.(consumer := Gone)
      else s.(resolved := s.resolved + [s.consumer.rest[0]],
              consumer := CancelAccounting(s.consumer.rest[0], s.consumer.rest[1..]))
  }

  predicate ValidSteps(s: Shop, run: seq<Step>)
    decreases |run|
  {
    run == [] || (CanStep(s, run[0]) && ValidSteps(Next(s, run[0]), run[1..]))
  }

  function After(s: Shop, run: seq<Step>): Shop
    requires ValidSteps(s, run)
    decreases |run|
  {
    if run == [] then s else After(Next(s, run[0]), run[1..])
  }

  // ---- What every interleaving keeps ----

  /** Every accepted handle is, in order, resolved, held by the consumer, or queued. */
  predicate Ledger(s: Shop) { s.accepted == s.resolved + s.consumer.Held() + s.lane.queue }

  predicate CounterExact(s: Shop) {
    s.lane.moverBlocking == Blocking(s.consumer.Owed()) + Blocking(s.consumer.Held()) + Blocking(s.lane.queue)
  }

  /** What ran is a prefix of what was accepted; before shutdown it is all that was resolved. */
  predicate RanInOrder(s: Shop) {
    && s.ran <= s.accepted
    && (!s.consumer.Leaving() ==> s.ran == s.resolved + (if s.consumer.Executing? then s.consumer.Held() else []))
    && (s.consumer.Leaving() ==> s.cancelled && s.ran <= s.resolved)
  }

  predicate ShopInv(s: Shop) { Ledger(s) && CounterExact(s) && RanInOrder(s) }

  lemma BlockingOne(h: Handle)
    ensures Blocking([h]) == Contribution(h) && Blocking([]) == 0
  {
    assert [h][..0] == [];
  }

  lemma BlockingHead(hs: seq<Handle>)
    requires hs != []
    ensures Blocking(hs) == Blocking([hs[0]]) + Blocking(hs[1..])
  {
    assert hs == [hs[0]] + hs[1..];
    BlockingSplits([hs[0]], hs[1..]);
  }

  lemma LedgerKept(s: Shop, a: Step)
    requires Ledger(s) && CanStep(s, a)
    ensures Ledger(Next(s, a))
  {
    var q := s.lane.queue;
    match a {
      case Append => assert s.resolved + s.consumer.Held() + q + [s.producer.h] == s.resolved + s.consumer.Held() + (q + [s.producer.h]);
      case TryPop => if q != [] { assert s.resolved + [] + q == s.resolved + [q[0]] + q[1..]; }
      case Recheck =>
      case Finish =>
      case TakeAll => assert s.resolved + [] + q == s.resolved + q + [];
      case CancelNext =>
        var rest := s.consumer.rest;
        if rest != [] { assert s.resolved + rest + q == s.resolved + [rest[0]] + rest[1..] + q; }
      case CheckIn(_) =>
      case Stop =>
      case StopCancels =>
      case ParentCancels =>
      case Poll =>
      case Wake =>
      case Account =>
    }
  }

  lemma CounterKeptByPop(s: Shop)
    requires CounterExact(s) && s.consumer.Popping?
    ensures CounterExact(Next(s, TryPop))
  {
    var q := s.lane.queue;
    if q != [] {
      BlockingHead(q);
      BlockingOne(q[0]);
      var t := Next(s, TryPop);
      assert t.consumer.Held() == [q[0]] && t.consumer.Owed() == [] && t.lane.queue == q[1..];
    }
  }

  lemma CounterKeptByCancel(s: Shop)
    requires CounterExact(s) && s.consumer.Cancelling?
    ensures CounterExact(Next(s, CancelNext))
  {
    var rest := s.consumer.rest;
    if rest != [] {
      BlockingHead(rest);
      BlockingOne(rest[0]);
      var t := Next(s, CancelNext);
      assert t.consumer.Held() == rest[1..] && t.consumer.Owed() == [rest[0]];
    }
  }

  lemma CounterKeptByAccount(s: Shop)
    requires CounterExact(s) && CanStep(s, Account)
    ensures CounterExact(Next(s, Account))
  {
    BlockingOne(s.consumer.h);
    var t := Next(s, Account);
    assert s.consumer.Owed() == [s.consumer.h] && t.consumer.Owed() == [];
    assert t.consumer.Held() == s.consumer.Held();
  }

  lemma CounterKeptByAppend(s: Shop)
    requires CounterExact(s) && s.producer.Inside?
    ensures CounterExact(Next(s, Append))
  {
    BlockingSplits(s.lane.queue, [s.producer.h]);
    BlockingOne(s.producer.h);
  }

  /** Resolving a handle moves it from held to owed. */
  lemma CounterKeptByResolve(s: Shop, a: Step)
    requires CounterExact(s) && CanStep(s, a) && (a.Recheck? || a.Finish?)
    ensures CounterExact(Next(s, a))
  {
    BlockingOne(s.consumer.h);
    var t := Next(s, a);
    assert s.consumer.Held() == [s.consumer.h] && s.consumer.Owed() == [];
    assert t.consumer.Held() + t.consumer.Owed() == [s.consumer.h];
  }

  lemma CounterKept(s: Shop, a: Step)
    requires CounterExact(s) && CanStep(s, a)
    ensures CounterExact(Next(s, a))
  {
    match a {
      case Append => CounterKeptByAppend(s);
      case TryPop => CounterKeptByPop(s);
      case Recheck => CounterKeptByResolve(s, a);
      case Finish => CounterKeptByResolve(s, a);
      case Account => CounterKeptByAccount(s);
      case CancelNext => CounterKeptByCancel(s);
      case TakeAll =>
        var t := Next(s, TakeAll);
        assert t.consumer.Held() == s.lane.queue && t.lane.queue == [] && s.consumer.Held() == [];
      case CheckIn(_) =>
      case Stop =>
      case StopCancels =>
      case ParentCancels =>
      case Poll =>
      case Wake =>
    }
  }

  lemma OrderKept(s: Shop, a: Step)
    requires Ledger(s) && RanInOrder(s) && CanStep(s, a)
    ensures RanInOrder(Next(s, a))
  {
  }

  lemma {:induction false} ShopKept(s: Shop, run: seq<Step>)
    requires ShopInv(s) && ValidSteps(s, run)
    ensures ShopInv(After(s, run))
    decreases |run|
  {
    if run != [] {
      LedgerKept(s, run[0]);
      CounterKept(s, run[0]);
      OrderKept(s, run[0]);
      ShopKept(Next(s, run[0]), run[1..]);
    }
  }

  predicate QuiescenceRequired(s: Shop) { s.lane.moverBlocking > 0 }

  /** Accepted and not resolved. */
  predicate Open(s: Shop, h: Handle) { h in s.consumer.Held() || h in s.lane.queue }

  /** In every interleaving the gate is closed exactly while a blocking operation is queued, running
      or just resolved: it never opens between enqueue and resolution, and never stays shut after. */
  lemma QuiescenceSpansTheOperation(run: seq<Step>)
    requires ValidSteps(OpenShop, run)
    ensures var s := After(OpenShop, run);
      QuiescenceRequired(s) <==>
        exists h :: (Open(s, h) || h in s.consumer.Owed()) && BlocksMovers(h.kind)
  {
    ShopKept(OpenShop, run);
    var s := After(OpenShop, run);
    BlockingPositive(s.consumer.Owed());
    BlockingPositive(s.consumer.Held());
    BlockingPositive(s.lane.queue);
  }

  /** First in, first out, one at a time: the operations that ran are the first ones accepted, in
      order, and only the last of them may be unresolved. */
  lemma OneAtATimeInOrder(run: seq<Step>)
    requires ValidSteps(OpenShop, run)
    ensures var s := After(OpenShop, run);
      && s.ran <= s.accepted
      && s.resolved <= s.accepted
      && (s.consumer.Executing? ==> s.ran == s.resolved + [s.consumer.h])
      && (!s.consumer.Executing? ==> s.ran <= s.resolved)
  {
    ShopKept(OpenShop, run);
  }

  /** Shutdown through Stop, which takes the lock before it cancels. */
  predicate ByStop(run: seq<Step>) { ParentCancels !in run }

  /** When only Stop cancels, no producer is past the check once the cancellation is up. */
  predicate StopOrder(s: Shop) {
    && (s.cancelled ==> s.stopped)
    && (s.stopped ==> s.producer.Outside?)
    && (s.consumer.Leaving() ==> s.cancelled)
    && (s.consumer.Cancelling? || s.consumer.CancelAccounting? || s.consumer.Gone? ==> s.lane.queue == [])
  }

  lemma {:induction false} StopOrderKept(s: Shop, run: seq<Step>)
    requires StopOrder(s) && ValidSteps(s, run) && ByStop(run)
    ensures StopOrder(After(s, run))
    decreases |run|
  {
    if run != [] {
      assert run[0] in run;
      assert forall a <- run[1..] :: a in run;
      StopOrderKept(Next(s, run[0]), run[1..]);
    }
  }

  /** After a Stop, once the consumer is gone every accepted handle has been resolved, each once and
      in order, and the gate is open. */
  lemma StopResolvesEverything(run: seq<Step>)
    requires ValidSteps(OpenShop, run) && ByStop(run)
    ensures var s := After(OpenShop, run);
      s.consumer.Gone? ==> s.resolved == s.accepted && !QuiescenceRequired(s)
  {
    ShopKept(OpenShop, run);
    StopOrderKept(OpenShop, run);
  }

  /** No producer appended after the consumer took the queue for the last time. */
  predicate NoLateAppend(run: seq<Step>) {
    forall i, j :: 0 <= i < j < |run| && run[i].TakeAll? ==> !run[j].Append?
  }

  /** Past its last take, the consumer leaves the queue to whoever appends late. */
  predicate LastTaken(c: Consumer) { c.Cancelling? || c.CancelAccounting? || c.Gone? }

  predicate LateInv(s: Shop, run: seq<Step>) {
    && (LastTaken(s.consumer) <==> TakeAll in run)
    && (LastTaken(s.consumer) ==> (s.lane.queue == [] <==> NoLateAppend(run)))
  }

  lemma AfterInit(s: Shop, run: seq<Step>)
    requires ValidSteps(s, run) && run != []
    ensures var n := |run| - 1;
      && ValidSteps(s, run[..n]) && CanStep(After(s, run[..n]), run[n])
      && After(s, run) == Next(After(s, run[..n]), run[n])
    decreases |run|
  {
    var n := |run| - 1;
    if n == 0 {
      assert run[..0] == [] && run[1..] == [];
    } else {
      AfterInit(Next(s, run[0]), run[1..]);
      assert run[1..][..n - 1] == run[..n][1..];
    }
  }

  /** One more step: a first take makes nothing late, and an append after one does. */
  lemma LateByOne(run: seq<Step>, a: Step)
    ensures TakeAll in run + [a] <==> TakeAll in run || a == TakeAll
    ensures TakeAll !in run ==> NoLateAppend(run + [a])
    ensures TakeAll in run ==> (NoLateAppend(run + [a]) <==> NoLateAppend(run) && !a.Append?)
  {
    var more := run + [a];
    assert more[|run|] == a && forall i :: 0 <= i < |run| ==> more[i] == run[i];
    if TakeAll in run {
      var i :| 0 <= i < |run| && run[i] == TakeAll;
      if NoLateAppend(more) {
        forall k, j | 0 <= k < j < |run| && run[k].TakeAll? ensures !run[j].Append? { assert more[k] == run[k] && more[j] == run[j]; }
        assert more[i].TakeAll?;
      }
    }
  }

  lemma LateKept(s: Shop, run: seq<Step>, a: Step)
    requires LateInv(s, run) && CanStep(s, a)
    ensures LateInv(Next(s, a), run + [a])
  {
    LateByOne(run, a);
  }

  lemma {:induction false} RunKeepsLate(run: seq<Step>)
    requires ValidSteps(OpenShop, run)
    ensures LateInv(After(OpenShop, run), run)
  {
    if run != [] {
      var n := |run| - 1;
      AfterInit(OpenShop, run);
      RunKeepsLate(run[..n]);
      LateKept(After(OpenShop, run[..n]), run[..n], run[n]);
      assert run[..n] + [run[n]] == run;
    }
  }

  /** Whoever shut it down: once the consumer is gone, every accepted handle has been resolved exactly when
      no producer appended after the consumer's last take; what is left unresolved is what they appended. */
  lemma ResolvesEverythingExactly(run: seq<Step>)
    requires ValidSteps(OpenShop, run) && After(OpenShop, run).consumer.Gone?
    ensures var s := After(OpenShop, run);
      && s.accepted == s.resolved + s.lane.queue
      && (s.resolved == s.accepted <==> NoLateAppend(run))
      && (QuiescenceRequired(s) <==> exists h <- s.lane.queue :: BlocksMovers(h.kind))
  {
    ShopKept(OpenShop, run);
    RunKeepsLate(run);
    BlockingPositive(After(OpenShop, run).lane.queue);
  }

  /** The other way to shut down does not have that property: when the parent context is cancelled
      while a producer is between its check and its append, the consumer leaves first and the handle
      is accepted and never resolved. */
  lemma ParentCancelMayStrand(h: Handle)
    ensures var run := [Poll, TryPop, CheckIn(h), ParentCancels, Wake, TakeAll, CancelNext, Append];
      && ValidSteps(OpenShop, run)
      && (var s := After(OpenShop, run); s.consumer.Gone? && h in s.accepted && h !in s.resolved)
  {
    var s3 := Next(Next(Next(OpenShop, Poll), TryPop), CheckIn(h));
    var tail := [ParentCancels, Wake, TakeAll, CancelNext, Append];
    StrandFrom(s3, h);
    Prepend(Next(Next(OpenShop, Poll), TryPop), CheckIn(h), tail);
    Prepend(Next(OpenShop, Poll), TryPop, [CheckIn(h)] + tail);
    Prepend(OpenShop, Poll, [TryPop] + ([CheckIn(h)] + tail));
    assert [Poll] + ([TryPop] + ([CheckIn(h)] + tail)) ==
           [Poll, TryPop, CheckIn(h), ParentCancels, Wake, TakeAll, CancelNext, Append];
  }

  lemma Prepend(s: Shop, a: Step, run: seq<Step>)
    requires CanStep(s, a) && ValidSteps(Next(s, a), run)
    ensures ValidSteps(s, [a] + run) && After(s, [a] + run) == After(Next(s, a), run)
  {
    assert ([a] + run)[1..] == run;
  }

  /** The race itself: an empty lane whose consumer sleeps, and a producer past the check. */
  lemma StrandFrom(s: Shop, h: Handle)
    requires s.consumer.Asleep? && s.producer == Inside(h) && s.lane.queue == [] && s.resolved == [] && s.accepted == []
    ensures var run := [ParentCancels, Wake, TakeAll, CancelNext, Append];
      && ValidSteps(s, run)
      && (var t := After(s, run); t.consumer.Gone? && h in t.accepted && h !in t.resolved)
  {
    var s1 := Next(s, ParentCancels);
    var s2 := Next(s1, Wake);
    var s3 := Next(s2, TakeAll);
    var s4 := Next(s3, CancelNext);
    assert s4.consumer.Gone? && s4.producer == Inside(h) && s4.resolved == [] && s4.accepted == [];
    var s5 := Next(s4, Append);
    assert After(s5, []) == s5;
    Prepend(s4, Append, []);
    Prepend(s3, CancelNext, [Append]);
    Prepend(s2, TakeAll, [CancelNext] + [Append]);
    Prepend(s1, Wake, [TakeAll] + ([CancelNext] + [Append]));
    Prepend(s, ParentCancels, [Wake] + ([TakeAll] + ([CancelNext] + [Append])));
    assert [ParentCancels] + ([Wake] + ([TakeAll] + ([CancelNext] + [Append]))) ==
           [ParentCancels, Wake, TakeAll, CancelNext, Append];
    assert [Append] + [] == [Append];
  }

  // ---- The queue is worked off ----

  lemma {:induction false} Appended(s: Shop, a: seq<Step>, b: seq<Step>)
    requires ValidSteps(s, a) && ValidSteps(After(s, a), b)
    ensures ValidSteps(s, a + b) && After(s, a + b) == After(After(s, a), b)
    decreases |a|
  {
    if a == [] {
      assert a + b == b;
    } else {
      assert (a + b)[0] == a[0] && (a + b)[1..] == a[1..] + b;
      Appended(Next(s, a[0]), a[1..], b);
    }
  }

  const TURN := [Poll] + ([TryPop] + ([Recheck] + ([Finish] + [Account])))

  /** The lane without its first operations. */
  function WorkedOff(s: Shop, done: seq<Handle>, rest: seq<Handle>): Shop {
    s.(lane := Lane(rest, s.lane.moverBlocking - Blocking(done)), resolved := s.resolved + done, ran := s.ran + done)
  }

  /** One turn of a consumer that nobody cancels runs the head of the queue and resolves it. */
  lemma TurnRunsTheHead(s: Shop)
    requires s.consumer.AtTop? && !s.cancelled && s.lane.queue != []
    ensures ValidSteps(s, TURN) && After(s, TURN) == WorkedOff(s, [s.lane.queue[0]], s.lane.queue[1..])
  {
    var h := s.lane.queue[0];
    BlockingOne(h);
    var s1 := Next(s, Poll);
    var s2 := Next(s1, TryPop);
    var s3 := Next(s2, Recheck);
    var s4 := Next(s3, Finish);
    assert s4 == s.(lane := s.lane.(queue := s.lane.queue[1..]), consumer := Accounting(h),
                    resolved := s.resolved + [h], ran := s.ran + [h]);
    assert Next(s4, Account) == WorkedOff(s, [h], s.lane.queue[1..]);
    Prepend(s4, Account, []);
    assert [Account] + [] == [Account];
    Prepend(s3, Finish, [Account]);
    Prepend(s2, Recheck, [Finish] + [Account]);
    Prepend(s1, TryPop, [Recheck] + ([Finish] + [Account]));
    Prepend(s, Poll, [TryPop] + ([Recheck] + ([Finish] + [Account])));
  }

  function Turns(n: nat): seq<Step> { if n == 0 then [] else TURN + Turns(n - 1) }

  lemma {:induction false} TurnsRunTheQueue(s: Shop)
    requires s.consumer.AtTop? && !s.cancelled
    ensures ValidSteps(s, Turns(|s.lane.queue|)) && After(s, Turns(|s.lane.queue|)) == WorkedOff(s, s.lane.queue, [])
    decreases |s.lane.queue|
  {
    var q := s.lane.queue;
    if q == [] {
      assert s.resolved + [] == s.resolved && s.ran + [] == s.ran;
    } else {
      TurnRunsTheHead(s);
      var u := WorkedOff(s, [q[0]], q[1..]);
      TurnsRunTheQueue(u);
      Appended(s, TURN, Turns(|q| - 1));
      WorkedOffTwice(s, q);
    }
  }

  lemma WorkedOffTwice(s: Shop, q: seq<Handle>)
    requires q != []
    ensures WorkedOff(WorkedOff(s, [q[0]], q[1..]), q[1..], []) == WorkedOff(s, q, [])
  {
    BlockingHead(q);
    assert [q[0]] + q[1..] == q;
    assert s.resolved + [q[0]] + q[1..] == s.resolved + q && s.ran + [q[0]] + q[1..] == s.ran + q;
  }

  /** From any state an uncancelled run can be in at the top of its loop, the consumer gets to run and resolve
      every accepted operation, each once and in order, and then the gate is open. A sleeping one gets to the
      top by its wake-up, and an idle one goes to sleep. */
  lemma EveryAcceptedRuns(run: seq<Step>)
    requires ValidSteps(OpenShop, run)
    requires var s := After(OpenShop, run); s.consumer.AtTop? && !s.cancelled
    ensures var s := After(OpenShop, run); var more := Turns(|s.lane.queue|);
      && ValidSteps(s, more)
      && (var t := After(s, more); t.resolved == t.accepted == t.ran == s.accepted && t.lane == Lane([], 0) && t.consumer.AtTop?)
  {
    var s := After(OpenShop, run);
    ShopKept(OpenShop, run);
    TurnsRunTheQueue(s);
    assert s.consumer.Held() == [] && s.consumer.Owed() == [] && Blocking([]) == 0;
  }

  /** A consumer with nothing to do sleeps, and a wake-up brings it back to the top, or to the emptying once
      the context is cancelled. */
  lemma IdleSleepsAndWakes(s: Shop)
    requires CanStep(s, Wake) || (s.consumer.AtTop? && !s.cancelled && s.lane.queue == [])
    ensures s.consumer.AtTop? ==>
      ValidSteps(s, [Poll] + [TryPop]) && After(s, [Poll] + [TryPop]) == s.(consumer := Asleep)
    ensures s.consumer.Asleep? ==> Next(s, Wake) == s.(consumer := if s.cancelled then Emptying else AtTop)
  {
    if s.consumer.AtTop? {
      Prepend(Next(s, Poll), TryPop, []);
      assert [TryPop] + [] == [TryPop];
      Prepend(s, Poll, [TryPop]);
    }
  }

  /** The end of a cancelled consumer: what it still holds is resolved one by one, and then it is gone. */
  function Cancellations(n: nat): seq<Step> { if n == 0 then [CancelNext] else [CancelNext] + ([Account] + Cancellations(n - 1)) }

  lemma {:induction false} CancellingResolves(s: Shop)
    requires s.consumer.Cancelling?
    ensures var rest := s.consumer.rest; var run := Cancellations(|rest|);
      && ValidSteps(s, run)
      && After(s, run) == s.(consumer := Gone, resolved := s.resolved + rest,
                             lane := s.lane.(moverBlocking := s.lane.moverBlocking - Blocking(rest)))
    decreases |s.consumer.rest|
  {
    var rest := s.consumer.rest;
    if rest == [] {
      Prepend(s, CancelNext, []);
      assert [CancelNext] + [] == [CancelNext] && s.resolved + [] == s.resolved;
    } else {
      var h := rest[0];
      BlockingOne(h);
      BlockingHead(rest);
      var s1 := Next(s, CancelNext);
      var s2 := Next(s1, Account);
      assert s2 == s.(consumer := Cancelling(rest[1..]), resolved := s.resolved + [h],
                      lane := s.lane.(moverBlocking := s.lane.moverBlocking - Blocking([h])));
      CancellingResolves(s2);
      Prepend(s1, Account, Cancellations(|rest| - 1));
      Prepend(s, CancelNext, [Account] + Cancellations(|rest| - 1));
      assert s.resolved + [h] + rest[1..] == s.resolved + rest;
    }
  }

  /** Once cancelled, the consumer resolves the whole queue without running any of it, and is gone. */
  lemma CancelledEmptiesTheQueue(s: Shop)
    requires s.consumer.AtTop? && s.cancelled
    ensures var run := [Poll] + ([TakeAll] + Cancellations(|s.lane.queue|));
      && ValidSteps(s, run)
      && After(s, run) == s.(consumer := Gone, resolved := s.resolved + s.lane.queue,
                             lane := Lane([], s.lane.moverBlocking - Blocking(s.lane.queue)))
  {
    var q := s.lane.queue;
    var s1 := Next(s, Poll);
    var s2 := Next(s1, TakeAll);
    assert s2 == s.(consumer := Cancelling(q), lane := s.lane.(queue := []));
    CancellingResolves(s2);
    Prepend(s1, TakeAll, Cancellations(|q|));
    Prepend(s, Poll, [TakeAll] + Cancellations(|q|));
  }

  /** An operation is taken in exactly while nobody has stopped or cancelled the queue, and one popped just
      before a cancellation is resolved without being run. */
  lemma AcceptedExactlyWhileOpen(s: Shop, h: Handle)
    requires s.producer.Outside?
    ensures var t := Next(s, CheckIn(h));
      && (s.stopped || s.cancelled ==> t == s)
      && (!s.stopped && !s.cancelled ==>
            var u := Next(t, Append);
            u.accepted == s.accepted + [h] && u.lane.queue == s.lane.queue + [h] && u.producer.Outside?)
    ensures s.consumer.Holding? && s.cancelled ==>
      Next(s, Recheck).ran == s.ran && Next(s, Recheck).resolved == s.resolved + [s.consumer.h]
  {
  }

  /** A step of the consumer. */
  predicate IsConsumers(a: Step) {
    a.Poll? || a.TryPop? || a.Wake? || a.Recheck? || a.Finish? || a.Account? || a.TakeAll? || a.CancelNext?
  }

  /** The consumer is gone, or has exactly one step to take; a producer past the check can always append. */
  lemma ConsumerIsNeverStuck(s: Shop)
    ensures s.consumer.Gone? <==> forall a :: IsConsumers(a) ==> !CanStep(s, a)
    ensures forall a, b :: IsConsumers(a) && IsConsumers(b) && CanStep(s, a) && CanStep(s, b) ==> a == b
    ensures s.producer.Inside? ==> CanStep(s, Append)
  {
    match s.consumer {
      case AtTop => assert CanStep(s, Poll);
      case Popping => assert CanStep(s, TryPop);
      case Asleep => assert CanStep(s, Wake);
      case Holding(_) => assert CanStep(s, Recheck);
      case Executing(_) => assert CanStep(s, Finish);
      case Accounting(_) => assert CanStep(s, Account);
      case LastAccounting(_) => assert CanStep(s, Account);
      case Emptying => assert CanStep(s, TakeAll);
      case Cancelling(_) => assert CanStep(s, CancelNext);
      case CancelAccounting(_, _) => assert CanStep(s, Account);
      case Gone =>
    }
  }
}
