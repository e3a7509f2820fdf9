/** What every reachable state of the kernel keeps. */
module KernelInv {
  import opened Options
  import opened Kernel

  /** The queue a thread whose innermost routine is `f` sleeps on. */
  function WaitsOn(f: Frame): Option<Queue> {
    if f.done then None else
    match f.call
    case P(s, _) => Some(SemQueue(s))
    case Acquire(l, _) => Some(LockQueue(l))
    case Wait(c, _, Asleep) => Some(CondQueue(c))
    case _ => None
  }

  /** Points at which a thread can be off the processor. */
  predicate Suspended(f: Frame) {
    match f.call
    case P(_, slept) => slept && !f.done
    case Acquire(_, slept) => slept && !f.done
    case Wait(_, _, stage) => stage == Asleep && !f.done
    case Yield => f.done
    case Begin => true
    case Finish => true
    case _ => false
  }

  /** Only Wait calls another routine, and inner calls find interrupts off. */
  predicate Shape(st: seq<Frame>) {
    && |st| <= 2
    && (forall i | 0 <= i < |st| :: st[i].call.Begin? ==> |st| == 1 && st[i].done)
    && (forall i | 0 <= i < |st| :: st[i].call.Wait? && st[i].done ==> st[i].call.stage == Reacquiring)
    && (|st| == 2 ==>
          && st[1].saved == Off && !st[0].done && st[0].call.Wait?
          && match st[0].call.stage
             case Queueing => st[1].call == Release(st[0].call.l)
             case Reacquiring => st[1].call.Acquire? && st[1].call.l == st[0].call.l
             case _ => false)
  }

  /** Who owns the lock at each point of a routine. */
  ghost predicate Ownership(k: K, t: Tid, f: Frame) {
    match f.call
    case Acquire(l, _) => l in k.locks && (Owner(k, l, t) <==> f.done)
    case Release(l) => l in k.locks && (Owner(k, l, t) <==> !f.done)
    case Wait(_, l, stage) => l in k.locks && (Owner(k, l, t) <==> stage == Releasing || stage == Reacquiring)
    case Signal(_, l) => Owner(k, l, t)
    case Broadcast(_, l) => Owner(k, l, t)
    case _ => true
  }

  ghost predicate ThreadOk(k: K, t: Tid)
    requires t in k.threads
  {
    var th := k.threads[t];
    && Shape(th.stack)
    && (th.status == Running <==> t == k.current && !k.sleeping)
    && (th.status == Ready <==> t in k.ready)
    && (th.status != Running ==> th.stack != [] && Suspended(Top(th)))
    && (th.status == JustCreated ==> Top(th).call.Begin?)
    && (th.status == Blocked ==>
          if Top(th).call.Finish? then !Top(th).done
          else WaitsOn(Top(th)).Some? && t in Q(k, WaitsOn(Top(th)).value))
    && (th.stack != [] ==> Ownership(k, t, Top(th)))
    && (th.stack != [] && Top(th).call.P? ==> Top(th).call.s in k.sems)
    && (th.stack != [] && Top(th).call.V? ==> Top(th).call.s in k.sems)
    && (th.stack != [] && Top(th).call.Fork? && !Top(th).done ==>
          Top(th).call.child in k.threads && k.threads[Top(th).call.child].status == JustCreated)
    && (th.stack != [] && Top(th).call.Finish? ==> !Top(th).done)
    && (forall l :: l in th.held <==> Owner(k, l, t))
  }

  ghost predicate ThreadsOk(k: K) {
    forall t | t in k.threads :: ThreadOk(k, t)
  }

  /** Everyone on a wait queue is blocked on that queue, once. */
  ghost predicate QueuesOk(k: K) {
    && (forall q, t | t in Q(k, q) ::
          t in k.threads && k.threads[t].status == Blocked && k.threads[t].stack != []
          && WaitsOn(Top(k.threads[t])) == Some(q))
    && (forall q, i, j | 0 <= i < j < |Q(k, q)| :: Q(k, q)[i] != Q(k, q)[j])
  }

  ghost predicate SchedulerOk(k: K) {
    && CurrentOk(k)
    && (forall t | t in k.ready :: t in k.threads && k.ready[t] == 1)
    && (k.sleeping || Cur(k).stack != [] ==> k.level == Off)
    && (k.carcass.Some? ==> Gone(k, k.carcass.value))
    && (forall t | t in k.destroyed :: Gone(k, t))
    && (k.carcass.Some? ==> k.carcass.value !in k.destroyed)
    && (k.current !in k.destroyed)
    && (k.carcass == Some(k.current) ==> k.sleeping)
  }

  /** A thread that has finished: blocked for good, on no queue. */
  ghost predicate Gone(k: K, t: Tid) {
    t in k.threads && k.threads[t].status == Blocked && k.threads[t].stack != [] && Top(k.threads[t]).call.Finish?
  }

  ghost predicate LocksOk(k: K) {
    forall l | l in k.locks ::
      && (k.locks[l].available <==> k.locks[l].owner == None)
      && (k.locks[l].owner.Some? ==> k.locks[l].owner.value in k.threads)
  }

  /** Woken from `q` by a V or a Release, and not yet past its re-test. */
  predicate Woken(th: Thread, q: Queue) {
    && th.stack != [] && th.status != Blocked
    && WaitsOn(Top(th)) == Some(q)
    && match Top(th).call case P(_, slept) => slept case Acquire(_, slept) => slept case _ => false
  }

  function WokenSet(k: K, q: Queue): set<Tid> {
    set t | t in k.threads && Woken(k.threads[t], q)
  }

  /** A free lock with waiters has a woken one on its way. */
  ghost predicate LockWakeup(k: K, l: LockId)
    requires l in k.locks
  {
    k.locks[l].available && Q(k, LockQueue(l)) != [] ==> WokenSet(k, LockQueue(l)) != {}
  }

  /** A semaphore is never negative, and a positive value with waiters is
      covered by woken threads that have not yet re-tested. */
  ghost predicate SemOk(k: K, s: SemId)
    requires s in k.sems
  {
    && k.sems[s] >= 0
    && (Q(k, SemQueue(s)) != [] ==> k.sems[s] <= |WokenSet(k, SemQueue(s))|)
  }

  ghost predicate LockWakeups(k: K) {
    forall l | l in k.locks :: LockWakeup(k, l)
  }

  ghost predicate SemsOk(k: K) {
    forall s | s in k.sems :: SemOk(k, s)
  }

  ghost predicate Inv(k: K) {
    SchedulerOk(k) && ThreadsOk(k) && QueuesOk(k) && LocksOk(k) && LockWakeups(k) && SemsOk(k)
  }

  lemma InitInv(k: K)
    requires Init(k)
    ensures Inv(k)
  {
  }

  /** A thread stays as it is when nothing about it changes. */
  lemma KeepThread(k: K, k': K, t: Tid)
    requires t in k.threads && t in k'.threads && k'.threads[t] == k.threads[t] && ThreadOk(k, t)
    requires (t == k'.current && !k'.sleeping) <==> (t == k.current && !k.sleeping)
    requires t in k'.ready <==> t in k.ready
    requires forall q | t in Q(k, q) :: t in Q(k', q)
    requires forall l :: Owner(k', l, t) <==> Owner(k, l, t)
    requires k.locks.Keys <= k'.locks.Keys && k.sems.Keys <= k'.sems.Keys
    requires t == k.current && !k.sleeping ==>
               forall c | c in k.threads && k.threads[c].status == JustCreated ::
                 c in k'.threads && k'.threads[c].status == JustCreated
    ensures ThreadOk(k', t)
  {
  }

  /** Wake-up accounting depends only on the queues, the woken threads, the
      values and the locks. */
  lemma SameWakeups(k: K, k': K)
    requires LockWakeups(k) && SemsOk(k)
    requires k'.threads.Keys == k.threads.Keys
    requires forall t, q | t in k.threads :: Woken(k'.threads[t], q) <==> Woken(k.threads[t], q)
    requires k'.sems == k.sems && k'.locks == k.locks && k'.queues == k.queues
    ensures LockWakeups(k') && SemsOk(k')
  {
    forall q
      ensures WokenSet(k', q) == WokenSet(k, q) && Q(k', q) == Q(k, q)
    {
    }
  }

  /** `k'` differs from `k` in the running thread's stack and the level only. */
  ghost predicate Local(k: K, k': K) {
    && CurrentOk(k) && CurrentOk(k') && !k.sleeping
    && k' == SetCur(k, Cur(k')).(level := k'.level)
    && Cur(k').status == Cur(k).status && Cur(k').held == Cur(k).held
    && (Cur(k').stack != [] ==> k'.level == Off)
  }

  lemma LocalThreads(k: K, k': K)
    requires ThreadsOk(k) && Local(k, k') && ThreadOk(k', k'.current)
    ensures ThreadsOk(k')
  {
    hide WaitsOn, Suspended, Shape, Ownership;
    assert forall q :: Q(k', q) == Q(k, q);
    forall t | t in k'.threads
      ensures ThreadOk(k', t)
    {
      if t != k.current { KeepThread(k, k', t); }
    }
  }

  lemma LocalQueues(k: K, k': K)
    requires SchedulerOk(k) && QueuesOk(k) && LocksOk(k) && Local(k, k') && Cur(k).status == Running
    ensures SchedulerOk(k') && QueuesOk(k') && LocksOk(k')
  {
    hide WaitsOn;
    assert forall q :: Q(k', q) == Q(k, q);
  }

  /** A step of the running thread that touches only its own stack and the
      level keeps everything, if it keeps that thread's own part. */
  lemma LocalStep(k: K, k': K)
    requires Inv(k) && LocalOk(k, k')
    ensures Inv(k')
  {
    assert ThreadOk(k, k.current);
    LocalThreads(k, k');
    LocalQueues(k, k');
    hide Woken, ThreadOk, QueuesOk, SchedulerOk, LocksOk, SemsOk, LockWakeups;
    SameWakeups(k, k');
  }

  /** What the invariant says of the thread on the processor. */
  ghost predicate CurrentFacts(k: K) {
    && CurrentOk(k) && !k.sleeping
    && ThreadOk(k, k.current)
    && (Cur(k).stack != [] ==> k.level == Off)
  }

  lemma CurrentFactsHold(k: K)
    requires Inv(k) && !k.sleeping
    ensures CurrentFacts(k)
  {
    hide ThreadOk, QueuesOk, LocksOk, SemsOk, LockWakeups;
  }

  /** A local step that keeps the running thread's own part. */
  ghost predicate LocalOk(k: K, k': K) {
    && Local(k, k') && ThreadOk(k', k'.current)
    && forall q :: Woken(Cur(k'), q) <==> Woken(Cur(k), q)
  }

  lemma EnterLocal(k: K, c: Call)
    requires CurrentFacts(k) && Cur(k).stack == [] && LegalCall(k, c)
    ensures LocalOk(k, Push(k, c))
  {
    var k' := Push(k, c);
    assert Cur(k').stack == [Frame(c, k.level, false)];
  }

  lemma LeaveLocal(k: K)
    requires CurrentFacts(k) && Enabled(k, Leave)
    ensures LocalOk(k, Apply(k, Leave))
  {
    var k' := Apply(k, Leave);
    var st := Cur(k).stack;
    if |st| == 2 {
      assert Cur(k').stack == [st[0]];
    } else {
      assert Cur(k').stack == [];
    }
  }

  /** Routines whose last action is not an Acquire or a Release. */
  ghost predicate EndsQuietly(c: Call) {
    c.V? || c.Signal? || c.Broadcast? || c.Yield? || c.Fork? || (c.Wait? && c.stage == Reacquiring)
  }

  lemma DoneLocal(k: K)
    requires CurrentFacts(k) && InRoutine(k) && !Top(Cur(k)).done && EndsQuietly(Top(Cur(k)).call)
    ensures LocalOk(k, Done(k))
  {
    var k' := Done(k);
    assert Top(Cur(k')) == Top(Cur(k)).(done := true);
    assert |Cur(k').stack| == |Cur(k).stack| == 1;
  }

  lemma WaitCallLocal(k: K, c: CondId, l: LockId, stage: WaitStage)
    requires CurrentFacts(k) && InRoutine(k) && Top(Cur(k)).call == Wait(c, l, stage) && !Top(Cur(k)).done
    requires stage == Releasing || stage == Asleep
    ensures LocalOk(k, WaitBody(k, c, l, stage))
  {
    var k' := WaitBody(k, c, l, stage);
    var f := Top(Cur(k));
    var inner := if stage == Releasing then Release(l) else Acquire(l, false);
    var next := if stage == Releasing then Queueing else Reacquiring;
    assert Cur(k').stack == [f.(call := Wait(c, l, next)), Frame(inner, Off, false)];
  }

  // ---------- Waking ----------

  /** `k'` is `k` with the first thread of `q` made ready. */
  ghost predicate Wakes(k: K, k': K, q: Queue) {
    && Q(k, q) != []
    && var h := Q(k, q)[0];
    && h in k.threads
    && k.threads[h].status == Blocked && k.threads[h].stack != [] && WaitsOn(Top(k.threads[h])) == Some(q)
    && k' == ReadyToRun(k.(queues := k.queues[q := Q(k, q)[1..]]), h)
  }

  lemma WakeOneWakes(k: K, q: Queue)
    requires QueuesOk(k)
    ensures QueueKnown(k, q)
    ensures WakeOne(k, q) == k || Wakes(k, WakeOne(k, q), q)
    ensures WakeOne(k, q) == k <==> Q(k, q) == []
  {
    hide WaitsOn;
    if Q(k, q) != [] {
      assert Q(k, q)[0] in Q(k, q);
      assert WakeOne(k, q).ready[Q(k, q)[0]] == k.ready[Q(k, q)[0]] + 1;
    }
  }

  lemma WakeThreads(k: K, k': K, q: Queue)
    requires ThreadsOk(k) && Wakes(k, k', q)
    ensures ThreadsOk(k')
  {
    hide Suspended, Shape, Ownership;
    var h := Q(k, q)[0];
    forall t | t in k'.threads
      ensures ThreadOk(k', t)
    {
      assert ThreadOk(k, t);
      if t == h {
        WokenThreadOk(k, k', t);
      } else {
        KeepThread(k, k', t);
      }
    }
  }

  lemma WokenThreadOk(k: K, k': K, t: Tid)
    requires t in k.threads && t in k'.threads && ThreadOk(k, t) && k.threads[t].status == Blocked
    requires k'.threads[t] == k.threads[t].(status := Ready)
    requires t in k'.ready && k'.current == k.current && k'.sleeping == k.sleeping
    requires k'.locks == k.locks && k'.sems == k.sems
    ensures ThreadOk(k', t)
  {
    assert forall l :: Owner(k', l, t) <==> Owner(k, l, t);
  }

  lemma WakeQueues(k: K, k': K, q: Queue)
    requires QueuesOk(k) && Wakes(k, k', q)
    ensures QueuesOk(k')
  {
    hide WaitsOn;
    var h := Q(k, q)[0];
    forall r
      ensures Q(k', r) == if r == q then Q(k, q)[1..] else Q(k, r)
    {
    }
    forall r, t | t in Q(k', r)
      ensures t in Q(k, r) && t != h
    {
      assert t in Q(k, r);
    }
  }

  lemma WakeScheduler(k: K, k': K, q: Queue)
    requires SchedulerOk(k) && ThreadsOk(k) && LocksOk(k) && Wakes(k, k', q)
    ensures SchedulerOk(k') && LocksOk(k')
  {
    var t := Q(k, q)[0];
    hide ThreadOk, ThreadsOk, Gone, WaitsOn;
    WakenedFacts(k, k', q);
    WakeGone(k, k', q);
    assert k'.threads.Keys == k.threads.Keys;
    assert Cur(k').stack == Cur(k).stack;
    forall u | u in k'.ready
      ensures u in k'.threads && k'.ready[u] == 1
    {
      assert u == t || u in k.ready;
    }
  }

  lemma WakenedFacts(k: K, k': K, q: Queue)
    requires ThreadsOk(k) && Wakes(k, k', q)
    ensures Q(k, q)[0] !in k.ready && !Gone(k, Q(k, q)[0])
  {
    hide Shape, Ownership, Suspended;
    assert ThreadOk(k, Q(k, q)[0]);
  }

  lemma WakeGone(k: K, k': K, q: Queue)
    requires Wakes(k, k', q) && !Gone(k, Q(k, q)[0])
    ensures forall u | Gone(k, u) :: Gone(k', u)
  {
    hide WaitsOn;
  }

  lemma WakeAccounts(k: K, k': K, q: Queue)
    requires ThreadsOk(k) && Wakes(k, k', q)
    ensures forall r :: WokenSet(k', r) == if r == q && !q.CondQueue? then WokenSet(k, r) + {Q(k, q)[0]} else WokenSet(k, r)
    ensures Q(k, q)[0] !in WokenSet(k, q)
  {
    hide Shape, Ownership;
    assert ThreadOk(k, Q(k, q)[0]);
  }

  lemma SubsetCard<T>(a: set<T>, b: set<T>)
    requires a <= b
    ensures |a| <= |b|
  {
    assert b == a + (b - a);
  }

  lemma WakeSems(k: K, k': K, q: Queue)
    requires SemsOk(k) && ThreadsOk(k) && Wakes(k, k', q)
    ensures SemsOk(k')
  {
    WakeAccounts(k, k', q);
    hide ThreadsOk, WokenSet, WaitsOn;
    forall s | s in k'.sems
      ensures SemOk(k', s)
    {
      assert SemOk(k, s);
      SubsetCard(WokenSet(k, SemQueue(s)), WokenSet(k', SemQueue(s)));
    }
  }

  lemma WakeLocks(k: K, k': K, q: Queue, l: LockId)
    requires ThreadsOk(k) && Wakes(k, k', q) && l in k.locks
    requires LockWakeup(k, l) || q == LockQueue(l)
    ensures LockWakeup(k', l)
  {
    WakeAccounts(k, k', q);
    hide ThreadsOk, WokenSet, WaitsOn;
    if q == LockQueue(l) {
      assert Q(k, q)[0] in WokenSet(k', q);
    }
  }

  lemma WakeKeeps(k: K, k': K, q: Queue)
    requires Inv(k) && Wakes(k, k', q)
    ensures Inv(k')
  {
    hide ThreadsOk, SchedulerOk, QueuesOk, LocksOk, LockWakeup, SemsOk, WaitsOn;
    WakeThreads(k, k', q);
    WakeQueues(k, k', q);
    WakeScheduler(k, k', q);
    WakeSems(k, k', q);
    forall l | l in k'.locks
      ensures LockWakeup(k', l)
    {
      WakeLocks(k, k', q, l);
    }
  }

  /** Semaphore::V, from a routine or from an interrupt handler. */
  lemma PerformVKeeps(k: K, s: SemId)
    requires Inv(k) && s in k.sems
    ensures QueueKnown(k, SemQueue(s)) && Inv(PerformV(k, s))
  {
    hide ThreadsOk, SchedulerOk, QueuesOk, LocksOk, LockWakeups, SemsOk, WokenSet;
    var q := SemQueue(s);
    WakeOneWakes(k, q);
    var k1 := WakeOne(k, q);
    if k1 != k {
      WakeKeeps(k, k1, q);
      WakeAccounts(k, k1, q);
    }
    AddV(k, k1, PerformV(k, s), s);
  }

  lemma AddV(k: K, k1: K, k': K, s: SemId)
    requires Inv(k1) && s in k.sems && k.sems == k1.sems
    requires k' == k1.(sems := k.sems[s := k.sems[s] + 1])
    requires SemsOk(k)
    requires k1 == k ==> Q(k, SemQueue(s)) == []
    requires k1 != k ==> Q(k, SemQueue(s)) != []
                         && |WokenSet(k1, SemQueue(s))| == |WokenSet(k, SemQueue(s))| + 1
    ensures Inv(k')
  {
    hide ThreadsOk, SchedulerOk, QueuesOk, LocksOk, Woken;
    NewSems(k1, k');
    forall q
      ensures Q(k', q) == Q(k1, q) && WokenSet(k', q) == WokenSet(k1, q)
    {
    }
    hide WokenSet;
    assert SemOk(k, s);
    forall r | r in k'.sems
      ensures SemOk(k', r)
    {
      assert SemOk(k1, r);
    }
    forall l | l in k'.locks
      ensures LockWakeup(k', l)
    {
      assert LockWakeup(k1, l);
    }
  }

  /** Semaphore values matter to nothing but the accounting. */
  lemma NewSems(k: K, k': K)
    requires SchedulerOk(k) && ThreadsOk(k) && QueuesOk(k) && LocksOk(k)
    requires k' == k.(sems := k'.sems) && k.sems.Keys <= k'.sems.Keys
    ensures SchedulerOk(k') && ThreadsOk(k') && QueuesOk(k') && LocksOk(k')
  {
    NewSemsThreads(k, k');
    NewSemsQueues(k, k');
    hide ThreadOk, ThreadsOk, QueuesOk, Q;
  }

  lemma NewSemsQueues(k: K, k': K)
    requires QueuesOk(k) && k' == k.(sems := k'.sems)
    ensures QueuesOk(k')
  {
    hide WaitsOn;
    assert forall q :: Q(k', q) == Q(k, q);
  }

  lemma NewSemsThreads(k: K, k': K)
    requires ThreadsOk(k) && k' == k.(sems := k'.sems) && k.sems.Keys <= k'.sems.Keys
    ensures ThreadsOk(k')
  {
    hide WaitsOn, Suspended, Shape, Ownership;
    assert forall q :: Q(k', q) == Q(k, q);
    forall t | t in k'.threads
      ensures ThreadOk(k', t)
    {
      KeepThread(k, k', t);
    }
  }

  // ---------- Sleeping ----------

  /** The running thread queues itself on `q` and goes to sleep; its innermost
      routine becomes `f`. */
  ghost predicate Sleeps(k: K, k': K, q: Queue, f: Frame) {
    && CurrentFacts(k) && Cur(k).stack != []
    && WaitsOn(f) == Some(q) && Suspended(f)
    && (WaitsOn(Top(Cur(k))) == None || WaitsOn(Top(Cur(k))) == Some(q))
    && Shape(WithTop(Cur(k), f).stack)
    && Ownership(k, k.current, f)
    && (f.call.P? ==> f.call.s in k.sems)
    && k' == SleepOn(k, q, f)
  }

  lemma SleepThreads(k: K, k': K, q: Queue, f: Frame)
    requires ThreadsOk(k) && Sleeps(k, k', q, f)
    ensures ThreadsOk(k')
  {
    hide Shape;
    forall t | t in k'.threads
      ensures ThreadOk(k', t)
    {
      assert ThreadOk(k, t);
      if t == k.current {
        assert Top(k'.threads[t]) == f;
        assert Q(k', q)[|Q(k, q)|] == t;
        assert forall l :: Owner(k', l, t) <==> Owner(k, l, t);
      } else {
        KeepThread(k, k', t);
      }
    }
  }

  lemma SleepQueues(k: K, k': K, q: Queue, f: Frame)
    requires QueuesOk(k) && SchedulerOk(k) && LocksOk(k) && Sleeps(k, k', q, f)
    ensures QueuesOk(k') && SchedulerOk(k') && LocksOk(k')
  {
    hide Shape, Ownership, Suspended;
    var t := k.current;
    assert Top(k'.threads[t]) == f;
    forall r
      ensures Q(k', r) == if r == q then Q(k, q) + [t] else Q(k, r)
      ensures t !in Q(k, r)
    {
    }
  }

  lemma SleepAccounts(k: K, k': K, q: Queue, f: Frame)
    requires Sleeps(k, k', q, f)
    ensures forall r :: WokenSet(k', r) == if r == q then WokenSet(k, r) - {k.current} else WokenSet(k, r)
  {
    hide Shape, Ownership, Suspended, ThreadOk;
    assert forall r :: k.current in WokenSet(k, r) ==> r == q;
  }

  lemma SleepKeeps(k: K, k': K, q: Queue, f: Frame)
    requires Inv(k) && Sleeps(k, k', q, f)
    requires q.SemQueue? ==> q.s in k.sems && k.sems[q.s] == 0
    requires q.LockQueue? ==> q.l in k.locks && !k.locks[q.l].available
    ensures Inv(k')
  {
    hide ThreadsOk, QueuesOk, LocksOk, SchedulerOk, WokenSet, Shape, Ownership, Suspended, WaitsOn, ThreadOk;
    SleepThreads(k, k', q, f);
    SleepQueues(k, k', q, f);
    SleepAccounts(k, k', q, f);
    forall s | s in k'.sems
      ensures SemOk(k', s)
    {
      assert SemOk(k, s);
    }
    forall l | l in k'.locks
      ensures LockWakeup(k', l)
    {
      assert LockWakeup(k, l);
    }
  }

  // ---------- The synchronization routines ----------

  /** A step of the running thread that may also change locks and values, but
      no queue and nobody else's ownership. */
  ghost predicate Acts(k: K, k': K) {
    && CurrentFacts(k) && CurrentOk(k')
    && k' == SetCur(k, Cur(k')).(locks := k'.locks, sems := k'.sems)
    && Cur(k').status == Running && Cur(k').stack != [] && Cur(k).stack != []
    && ThreadOk(k', k'.current)
    && k'.locks.Keys == k.locks.Keys && k'.sems.Keys == k.sems.Keys
    && (forall t, l | t != k.current :: Owner(k', l, t) <==> Owner(k, l, t))
  }

  lemma ActThreads(k: K, k': K)
    requires ThreadsOk(k) && Acts(k, k')
    ensures ThreadsOk(k')
  {
    hide WaitsOn, Suspended, Shape, Ownership;
    assert forall q :: Q(k', q) == Q(k, q);
    forall t | t in k'.threads
      ensures ThreadOk(k', t)
    {
      if t != k.current { KeepThread(k, k', t); }
    }
  }

  lemma ActQueues(k: K, k': K)
    requires SchedulerOk(k) && QueuesOk(k) && Acts(k, k')
    ensures SchedulerOk(k') && QueuesOk(k')
  {
    hide WaitsOn, Suspended, Shape, Ownership;
    assert forall q :: Q(k', q) == Q(k, q);
  }

  lemma ActAccounts(k: K, k': K, q: Queue)
    requires Acts(k, k')
    requires WaitsOn(Top(Cur(k))) == None || WaitsOn(Top(Cur(k))) == Some(q)
    requires WaitsOn(Top(Cur(k'))) == None
    ensures forall r :: WokenSet(k', r) == if r == q then WokenSet(k, r) - {k.current} else WokenSet(k, r)
    ensures forall r :: Q(k', r) == Q(k, r)
  {
    hide Suspended, Shape, Ownership, ThreadOk;
    assert forall r :: k.current in WokenSet(k, r) ==> r == q;
  }

  /** Semaphore::P finds a positive value. */
  lemma PTakes(k: K, s: SemId)
    requires Inv(k) && CurrentFacts(k) && InRoutine(k) && s in k.sems && k.sems[s] != 0
    requires Top(Cur(k)).call.P? && Top(Cur(k)).call.s == s && !Top(Cur(k)).done
    ensures Inv(PBody(k, s))
  {
    hide ThreadsOk, QueuesOk, LocksOk, SchedulerOk, WokenSet;
    var k' := PBody(k, s);
    PActs(k, s);
    ActThreads(k, k');
    ActQueues(k, k');
    ActAccounts(k, k', SemQueue(s));
    LocksKept(k, k');
    hide Acts, CurrentFacts;
    forall r | r in k'.sems
      ensures SemOk(k', r)
    {
      assert SemOk(k, r);
    }
    forall l | l in k'.locks
      ensures LockWakeup(k', l)
    {
      assert LockWakeup(k, l);
    }
  }

  lemma PActs(k: K, s: SemId)
    requires CurrentFacts(k) && InRoutine(k) && s in k.sems && k.sems[s] != 0
    requires Top(Cur(k)).call.P? && Top(Cur(k)).call.s == s && !Top(Cur(k)).done
    ensures Acts(k, PBody(k, s)) && WaitsOn(Top(Cur(PBody(k, s)))) == None
  {
    var k' := PBody(k, s);
    assert Top(Cur(k')) == Top(Cur(k)).(done := true);
    assert forall t, l :: Owner(k', l, t) <==> Owner(k, l, t);
  }

  lemma LocksKept(k: K, k': K)
    requires LocksOk(k) && k'.locks == k.locks && k'.threads.Keys == k.threads.Keys
    ensures LocksOk(k')
  {
  }

  /** Lock::Acquire finds the lock available. */
  lemma AcquireTakes(k: K, l: LockId)
    requires Inv(k) && CurrentFacts(k) && InRoutine(k) && l in k.locks && k.locks[l].available
    requires Top(Cur(k)).call.Acquire? && Top(Cur(k)).call.l == l && !Top(Cur(k)).done
    ensures Inv(AcquireBody(k, l))
  {
    hide ThreadsOk, QueuesOk, SchedulerOk, WokenSet;
    var k' := AcquireBody(k, l);
    AcquireActs(k, l);
    ActThreads(k, k');
    ActQueues(k, k');
    ActAccounts(k, k', LockQueue(l));
    hide Acts, CurrentFacts;
    forall r | r in k'.sems
      ensures SemOk(k', r)
    {
      assert SemOk(k, r);
    }
    forall m | m in k'.locks
      ensures LockWakeup(k', m)
    {
      assert LockWakeup(k, m);
    }
  }

  lemma AcquireActs(k: K, l: LockId)
    requires CurrentFacts(k) && InRoutine(k) && LocksOk(k) && l in k.locks && k.locks[l].available
    requires Top(Cur(k)).call.Acquire? && Top(Cur(k)).call.l == l && !Top(Cur(k)).done
    ensures Acts(k, AcquireBody(k, l)) && WaitsOn(Top(Cur(AcquireBody(k, l)))) == None
  {
    var k' := AcquireBody(k, l);
    assert Top(Cur(k')) == Top(Cur(k)).(done := true);
    forall t, m
      ensures Owner(k', m, t) <==> if m == l then t == k.current else Owner(k, m, t)
    {
    }
  }

  /** Lock::Release by the owner: hand the lock back, then wake one waiter. */
  lemma ReleaseActs(k: K, l: LockId)
    requires CurrentFacts(k) && InRoutine(k) && l in k.locks
    requires Top(Cur(k)).call == Release(l) && !Top(Cur(k)).done
    ensures var k1 := SetCur(k, WithTop(Cur(k), Top(Cur(k)).(done := true)).(held := Cur(k).held - {l}))
                      .(locks := k.locks[l := Lock(true, None)]);
            Acts(k, k1) && WaitsOn(Top(Cur(k1))) == None
    ensures WaitsOn(Top(Cur(k))) == None
  {
    var k1 := SetCur(k, WithTop(Cur(k), Top(Cur(k)).(done := true)).(held := Cur(k).held - {l}))
              .(locks := k.locks[l := Lock(true, None)]);
    assert Top(Cur(k1)) == Top(Cur(k)).(done := true);
    forall t, m
      ensures Owner(k1, m, t) <==> m != l && Owner(k, m, t)
    {
    }
    assert Owner(k, l, k.current);
  }

  lemma ReleaseKeeps(k: K, l: LockId)
    requires Inv(k) && CurrentFacts(k) && InRoutine(k) && l in k.locks
    requires Top(Cur(k)).call == Release(l) && !Top(Cur(k)).done
    ensures QueueKnown(k, LockQueue(l)) && Inv(ReleaseBody(k, l))
  {
    hide ThreadsOk, QueuesOk, SchedulerOk, WokenSet, SemOk, ThreadOk, WaitsOn;
    var q := LockQueue(l);
    var k1 := SetCur(k, WithTop(Cur(k), Top(Cur(k)).(done := true)).(held := Cur(k).held - {l}))
              .(locks := k.locks[l := Lock(true, None)]);
    ReleaseActs(k, l);
    ActThreads(k, k1);
    ActQueues(k, k1);
    ActAccounts(k, k1, q);
    WakeOneWakes(k, q);
    WakeOneWakes(k1, q);
    var k' := WakeOne(k1, q);
    assert k' == ReleaseBody(k, l);
    ReleaseAccounts(k, k1, l);
    if k' != k1 {
      WakeThreads(k1, k', q);
      WakeQueues(k1, k', q);
      WakeScheduler(k1, k', q);
      WakeSems(k1, k', q);
      forall m | m in k'.locks
        ensures LockWakeup(k', m)
      {
        WakeLocks(k1, k', q, m);
      }
    }
  }

  /** After handing the lock back only that lock's wake-up is still owed. */
  lemma ReleaseAccounts(k: K, k1: K, l: LockId)
    requires SemsOk(k) && LockWakeups(k) && LocksOk(k) && l in k.locks
    requires k1.sems == k.sems && k1.locks == k.locks[l := Lock(true, None)] && k1.threads.Keys == k.threads.Keys
    requires forall r :: Q(k1, r) == Q(k, r)
    requires forall r :: WokenSet(k1, r) == if r == LockQueue(l) then WokenSet(k, r) - {k.current} else WokenSet(k, r)
    ensures SemsOk(k1) && LocksOk(k1)
    ensures forall m | m in k1.locks && m != l :: LockWakeup(k1, m)
    ensures Q(k1, LockQueue(l)) == [] ==> LockWakeup(k1, l)
  {
    hide WokenSet;
    forall s | s in k1.sems
      ensures SemOk(k1, s)
    {
      assert SemOk(k, s);
    }
    forall m | m in k1.locks && m != l
      ensures LockWakeup(k1, m)
    {
      assert LockWakeup(k, m);
    }
  }

  // ---------- Threads and the scheduler ----------

  lemma QueuesKept(k: K, k': K)
    requires QueuesOk(k) && k'.queues == k.queues
    requires forall t | t in k.threads && k.threads[t].status == Blocked ::
               t in k'.threads && k'.threads[t] == k.threads[t]
    ensures QueuesOk(k')
  {
    hide WaitsOn;
    assert forall q :: Q(k', q) == Q(k, q);
  }

  /** Locks are untouched and no thread disappears. */
  lemma LocksStay(k: K, k': K)
    requires LocksOk(k) && k'.locks == k.locks && k.threads.Keys <= k'.threads.Keys
    ensures LocksOk(k')
  {
  }

  /** Thread::Fork readies a thread that has never run. */
  lemma ForkKeeps(k: K, t: Tid)
    requires Inv(k) && CurrentFacts(k) && t in k.threads && k.threads[t].status == JustCreated
    requires Cur(k).stack != [] && Top(Cur(k)).done
    ensures Inv(ReadyToRun(k, t))
  {
    hide LockWakeups, SemsOk, QueuesOk, LocksOk, SchedulerOk, ThreadsOk, ThreadOk;
    var k' := ReadyToRun(k, t);
    ForkThreads(k, t);
    ForkScheduler(k, t);
    QueuesKept(k, k');
    LocksStay(k, k');
    ForkWakeups(k, t);
  }

  lemma ForkScheduler(k: K, t: Tid)
    requires SchedulerOk(k) && ThreadsOk(k) && t in k.threads && k.threads[t].status == JustCreated
    ensures SchedulerOk(ReadyToRun(k, t))
  {
    hide Shape, Ownership, Suspended, WaitsOn;
    assert ThreadOk(k, t);
  }

  lemma ForkThreads(k: K, t: Tid)
    requires ThreadsOk(k) && CurrentFacts(k) && t in k.threads && k.threads[t].status == JustCreated
    requires Cur(k).stack != [] && Top(Cur(k)).done
    ensures ThreadsOk(ReadyToRun(k, t))
  {
    hide WaitsOn, Suspended, Shape, Ownership;
    var k' := ReadyToRun(k, t);
    forall u | u in k'.threads
      ensures ThreadOk(k', u)
    {
      assert ThreadOk(k, u);
      if u == k.current {
        CurrentKept(k, k');
      } else if u == t {
        ForkedOk(k, k', t);
      } else {
        KeepThread(k, k', u);
      }
    }
  }

  /** The running thread is kept even if a created thread becomes ready, once
      it is past its Fork. */
  lemma CurrentKept(k: K, k': K)
    requires CurrentFacts(k) && Cur(k).stack != [] && Top(Cur(k)).done
    requires k'.current == k.current && !k'.sleeping && CurrentOk(k') && Cur(k') == Cur(k)
    requires k'.locks == k.locks && k'.sems == k.sems && k'.current !in k'.ready
    ensures ThreadOk(k', k'.current)
  {
    assert forall l :: Owner(k', l, k.current) <==> Owner(k, l, k.current);
  }

  lemma ForkedOk(k: K, k': K, t: Tid)
    requires t in k.threads && t in k'.threads && ThreadOk(k, t) && k.threads[t].status == JustCreated
    requires k'.threads[t] == k.threads[t].(status := Ready)
    requires t in k'.ready && k'.current == k.current && k'.sleeping == k.sleeping && k'.locks == k.locks
    ensures ThreadOk(k', t)
  {
    assert forall l :: Owner(k', l, t) <==> Owner(k, l, t);
  }

  lemma ForkWakeups(k: K, t: Tid)
    requires LockWakeups(k) && SemsOk(k) && t in k.threads && k.threads[t].status != Blocked
    ensures LockWakeups(ReadyToRun(k, t)) && SemsOk(ReadyToRun(k, t))
  {
    SameWakeups(k, ReadyToRun(k, t));
  }

  /** Thread::Finish: the thread sleeps on no queue and is to be destroyed. */
  lemma FinishKeeps(k: K)
    requires Inv(k) && CurrentFacts(k) && InRoutine(k) && Top(Cur(k)).call.Finish?
    ensures Inv(SetCur(k, Cur(k).(status := Blocked)).(carcass := Some(k.current), sleeping := true))
  {
    var k' := SetCur(k, Cur(k).(status := Blocked)).(carcass := Some(k.current), sleeping := true);
    assert Cur(k).status == Running;
    hide LockWakeups, SemsOk, QueuesOk, LocksOk, SchedulerOk, ThreadsOk, ThreadOk;
    FinishThreads(k, k');
    FinishScheduler(k, k');
    QueuesKept(k, k');
    LocksStay(k, k');
    SameWakeups(k, k');
  }

  lemma FinishScheduler(k: K, k': K)
    requires SchedulerOk(k) && CurrentFacts(k) && InRoutine(k) && Top(Cur(k)).call.Finish?
    requires k' == SetCur(k, Cur(k).(status := Blocked)).(carcass := Some(k.current), sleeping := true)
    ensures SchedulerOk(k')
  {
    hide Shape, Ownership, Suspended, WaitsOn;
  }

  lemma FinishThreads(k: K, k': K)
    requires ThreadsOk(k) && CurrentFacts(k) && InRoutine(k) && Top(Cur(k)).call.Finish?
    requires k' == SetCur(k, Cur(k).(status := Blocked)).(carcass := Some(k.current), sleeping := true)
    ensures ThreadsOk(k')
  {
    FinishedOk(k, k');
    hide ThreadOk;
    forall u | u in k'.threads
      ensures ThreadOk(k', u)
    {
      assert ThreadOk(k, u);
      if u != k.current {
        KeepThread(k, k', u);
      }
    }
  }

  lemma FinishedOk(k: K, k': K)
    requires CurrentFacts(k) && InRoutine(k) && Top(Cur(k)).call.Finish?
    requires k' == SetCur(k, Cur(k).(status := Blocked)).(carcass := Some(k.current), sleeping := true)
    ensures ThreadOk(k', k.current)
  {
    hide Shape;
    assert forall l :: Owner(k', l, k.current) <==> Owner(k, l, k.current);
  }

  /** `next` gets the processor; whoever had it is already accounted for. */
  ghost predicate Switches(k: K, k': K, next: Tid) {
    && k.sleeping && next in k.threads && next in k.ready
    && k' == Run(k.(ready := k.ready - multiset{next}), next)
  }

  lemma SwitchThreads(k: K, k': K, next: Tid)
    requires SchedulerOk(k) && ThreadsOk(k) && Switches(k, k', next)
    ensures ThreadsOk(k')
  {
    hide WaitsOn, Suspended, Shape, Ownership, Gone;
    assert forall q :: Q(k', q) == Q(k, q);
    forall t | t in k'.threads
      ensures ThreadOk(k', t)
    {
      assert ThreadOk(k, t);
      if t == next {
        DispatchedOk(k, k', t);
      } else {
        KeepThread(k, k', t);
      }
    }
  }

  lemma DispatchedOk(k: K, k': K, t: Tid)
    requires t in k.threads && t in k'.threads && ThreadOk(k, t) && k.threads[t].status == Ready
    requires k'.threads[t] == k.threads[t].(status := Running)
    requires t !in k'.ready && k'.current == t && !k'.sleeping && k'.locks == k.locks && k'.sems == k.sems
    ensures ThreadOk(k', t)
  {
    assert forall l :: Owner(k', l, t) <==> Owner(k, l, t);
  }

  lemma SwitchScheduler(k: K, k': K, next: Tid)
    requires SchedulerOk(k) && Switches(k, k', next) && ThreadOk(k, next)
    ensures SchedulerOk(k')
  {
    hide WaitsOn, Shape, Ownership;
  }

  lemma SwitchKeeps(k: K, k': K, next: Tid)
    requires Inv(k) && Switches(k, k', next)
    ensures Inv(k')
  {
    assert ThreadOk(k, next);
    assert k.threads[next].status == Ready;
    hide LockWakeups, SemsOk, QueuesOk, LocksOk, SchedulerOk, ThreadsOk, ThreadOk;
    SwitchThreads(k, k', next);
    SwitchScheduler(k, k', next);
    QueuesKept(k, k');
    LocksStay(k, k');
    SameWakeups(k, k');
  }

  /** Thread::Yield with someone else ready: the same as going on the ready
      list, falling asleep, and being switched away from. */
  lemma YieldKeeps(k: K, next: Tid)
    requires Inv(k) && Enabled(k, YieldTo(next))
    ensures Inv(Apply(k, YieldTo(next)))
  {
    hide ThreadsOk, QueuesOk, SchedulerOk, LocksOk, SemsOk, LockWakeups;
    CurrentFactsHold(k);
    DoneLocal(k);
    LocalStep(k, Done(k));
    CurrentFactsHold(Done(k));
    var k1 := ReadyToRun(Done(k), k.current).(sleeping := true);
    AsideKeeps(Done(k), k1);
    YieldSwitches(k, k1, next);
    SwitchKeeps(k1, Apply(k, YieldTo(next)), next);
  }

  lemma YieldSwitches(k: K, k1: K, next: Tid)
    requires Inv(k) && Enabled(k, YieldTo(next)) && k1 == ReadyToRun(Done(k), k.current).(sleeping := true)
    ensures Switches(k1, Apply(k, YieldTo(next)), next)
  {
    hide QueuesOk, LocksOk, SemsOk, LockWakeups, WaitsOn, Shape, Suspended, Ownership;
    assert ThreadOk(k, k.current);
    assert k.current !in k.ready;
    assert k.ready - multiset{next} + multiset{k.current} == k.ready + multiset{k.current} - multiset{next};
  }

  /** The yielding thread, past its work, is put on the ready list. */
  lemma AsideKeeps(k: K, k': K)
    requires Inv(k) && CurrentFacts(k) && Cur(k).stack != [] && Top(Cur(k)).call.Yield? && Top(Cur(k)).done
    requires k' == ReadyToRun(k, k.current).(sleeping := true)
    ensures Inv(k')
  {
    assert Cur(k).status == Running;
    hide LockWakeups, SemsOk, QueuesOk, LocksOk, SchedulerOk, ThreadsOk, ThreadOk, Shape, Ownership, Suspended;
    AsideThreads(k, k');
    AsideScheduler(k, k');
    QueuesKept(k, k');
    LocksStay(k, k');
    SameWakeups(k, k');
  }

  lemma AsideScheduler(k: K, k': K)
    requires SchedulerOk(k) && CurrentFacts(k) && Cur(k).stack != [] && Top(Cur(k)).call.Yield?
    requires k' == ReadyToRun(k, k.current).(sleeping := true)
    ensures SchedulerOk(k')
  {
    hide Shape, Ownership, Suspended, WaitsOn;
  }

  lemma AsideThreads(k: K, k': K)
    requires ThreadsOk(k) && CurrentFacts(k) && Cur(k).stack != [] && Top(Cur(k)).call.Yield? && Top(Cur(k)).done
    requires k' == ReadyToRun(k, k.current).(sleeping := true)
    ensures ThreadsOk(k')
  {
    hide Shape;
    forall u | u in k'.threads
      ensures ThreadOk(k', u)
    {
      assert ThreadOk(k, u);
      if u == k.current {
        assert forall l :: Owner(k', l, u) <==> Owner(k, l, u);
      } else {
        KeepThread(k, k', u);
      }
    }
  }

  lemma CreateKeeps(k: K, t: Tid, priority: int)
    requires Inv(k) && Enabled(k, Create(t, priority))
    ensures Inv(Apply(k, Create(t, priority)))
  {
    hide LockWakeups, SemsOk, QueuesOk, LocksOk, SchedulerOk, ThreadsOk, ThreadOk;
    var k' := Apply(k, Create(t, priority));
    assert k' == k.(threads := k.threads[t := Thread(JustCreated, priority, [Frame(Begin, On, true)], {})]);
    CreateThreads(k, k', t);
    CreateScheduler(k, k', t);
    QueuesKept(k, k');
    LocksStay(k, k');
    CreateWakeups(k, k', t);
  }

  lemma CreateScheduler(k: K, k': K, t: Tid)
    requires SchedulerOk(k) && t !in k.threads
    requires exists priority :: k' == k.(threads := k.threads[t := Thread(JustCreated, priority, [Frame(Begin, On, true)], {})])
    ensures SchedulerOk(k')
  {
  }

  lemma CreateThreads(k: K, k': K, t: Tid)
    requires SchedulerOk(k) && ThreadsOk(k) && LocksOk(k) && !k.sleeping && t !in k.threads
    requires exists priority :: k' == k.(threads := k.threads[t := Thread(JustCreated, priority, [Frame(Begin, On, true)], {})])
    ensures ThreadsOk(k')
  {
    forall u | u in k'.threads
      ensures ThreadOk(k', u)
    {
      if u != t { KeepThread(k, k', u); }
    }
  }

  lemma CreateWakeups(k: K, k': K, t: Tid)
    requires LockWakeups(k) && SemsOk(k) && t !in k.threads
    requires exists priority :: k' == k.(threads := k.threads[t := Thread(JustCreated, priority, [Frame(Begin, On, true)], {})])
    ensures LockWakeups(k') && SemsOk(k')
  {
    forall q
      ensures WokenSet(k', q) == WokenSet(k, q) && Q(k', q) == Q(k, q)
    {
      assert !Woken(k'.threads[t], q);
    }
    hide WokenSet;
    forall s | s in k'.sems
      ensures SemOk(k', s)
    {
      assert SemOk(k, s);
    }
    forall l | l in k'.locks
      ensures LockWakeup(k', l)
    {
      assert LockWakeup(k, l);
    }
  }
}
