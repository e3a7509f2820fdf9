/** Safety of the kernel over whole runs. */
module KernelRuns {
  import opened Options
  import opened Kernel
  import opened KernelInv

  lemma PBodyKeeps(k: K, s: SemId)
    requires Inv(k) && BodyEnabled(k) && Top(Cur(k)).call.P? && Top(Cur(k)).call.s == s
    ensures Inv(PBody(k, s))
  {
    CurrentFactsHold(k);
    if k.sems[s] == 0 {
      PSleeps(k, s);
      hide Inv, Sleeps;
      SleepKeeps(k, PBody(k, s), SemQueue(s), Top(Cur(k)).(call := P(s, true)));
    } else {
      hide Inv;
      PTakes(k, s);
    }
  }

  lemma PSleeps(k: K, s: SemId)
    requires CurrentFacts(k) && InRoutine(k) && s in k.sems && k.sems[s] == 0
    requires Top(Cur(k)).call.P? && Top(Cur(k)).call.s == s && !Top(Cur(k)).done
    ensures Sleeps(k, PBody(k, s), SemQueue(s), Top(Cur(k)).(call := P(s, true)))
  {
  }

  lemma AcquireBodyKeeps(k: K, l: LockId)
    requires Inv(k) && BodyEnabled(k) && Top(Cur(k)).call.Acquire? && Top(Cur(k)).call.l == l
    ensures Inv(AcquireBody(k, l))
  {
    CurrentFactsHold(k);
    if !k.locks[l].available {
      AcquireSleeps(k, l);
      hide Inv, Sleeps;
      SleepKeeps(k, AcquireBody(k, l), LockQueue(l), Top(Cur(k)).(call := Acquire(l, true)));
    } else {
      hide Inv;
      AcquireTakes(k, l);
    }
  }

  lemma AcquireSleeps(k: K, l: LockId)
    requires CurrentFacts(k) && InRoutine(k) && l in k.locks && !k.locks[l].available
    requires Top(Cur(k)).call.Acquire? && Top(Cur(k)).call.l == l && !Top(Cur(k)).done
    ensures Sleeps(k, AcquireBody(k, l), LockQueue(l), Top(Cur(k)).(call := Acquire(l, true)))
  {
  }

  lemma WaitBodyKeeps(k: K, c: CondId, l: LockId, stage: WaitStage)
    requires Inv(k) && BodyEnabled(k) && Top(Cur(k)).call == Wait(c, l, stage)
    ensures Inv(WaitBody(k, c, l, stage))
  {
    CurrentFactsHold(k);
    hide Inv;
    match stage {
      case Queueing =>
        WaitSleeps(k, c, l);
        SleepKeeps(k, WaitBody(k, c, l, stage), CondQueue(c), Top(Cur(k)).(call := Wait(c, l, Asleep)));
      case Reacquiring =>
        DoneLocal(k);
        LocalStep(k, Done(k));
      case _ =>
        WaitCallLocal(k, c, l, stage);
        LocalStep(k, WaitBody(k, c, l, stage));
    }
  }

  lemma WaitSleeps(k: K, c: CondId, l: LockId)
    requires CurrentFacts(k) && InRoutine(k) && Top(Cur(k)).call == Wait(c, l, Queueing) && !Top(Cur(k)).done
    ensures Sleeps(k, WaitBody(k, c, l, Queueing), CondQueue(c), Top(Cur(k)).(call := Wait(c, l, Asleep)))
  {
  }

  lemma QuietBodyKeeps(k: K)
    requires Inv(k) && BodyEnabled(k) && EndsQuietly(Top(Cur(k)).call)
    ensures Inv(Done(k)) && CurrentFacts(Done(k))
  {
    CurrentFactsHold(k);
    hide Inv;
    DoneLocal(k);
    LocalStep(k, Done(k));
    CurrentFactsHold(Done(k));
  }

  lemma WakeOneKeeps(k: K, q: Queue)
    requires Inv(k)
    ensures QueueKnown(k, q) && Inv(WakeOne(k, q))
  {
    WakeOneWakes(k, q);
    hide Inv, Wakes;
    if Q(k, q) != [] { WakeKeeps(k, WakeOne(k, q), q); }
  }

  lemma SynchBodyKeeps(k: K)
    requires Inv(k) && BodyEnabled(k)
    requires var c := Top(Cur(k)).call; c.P? || c.Acquire? || c.Release? || c.Wait? || c.Finish?
    ensures Inv(DoBody(k))
  {
    CurrentFactsHold(k);
    hide Inv, CurrentFacts, PBody, AcquireBody, ReleaseBody, WaitBody;
    match Top(Cur(k)).call {
      case P(s, _) => PBodyKeeps(k, s);
      case Acquire(l, _) => AcquireBodyKeeps(k, l);
      case Release(l) => ReleaseKeeps(k, l);
      case Wait(c, l, stage) => WaitBodyKeeps(k, c, l, stage);
      case Finish => FinishKeeps(k);
    }
  }

  lemma WakingBodyKeeps(k: K)
    requires Inv(k) && BodyEnabled(k)
    requires var c := Top(Cur(k)).call; c.V? || c.Signal? || c.Broadcast?
    ensures Inv(DoBody(k))
  {
    hide Inv, CurrentFacts, WakeOne, PerformV;
    QuietBodyKeeps(k);
    match Top(Cur(k)).call {
      case V(s) => PerformVKeeps(Done(k), s);
      case Signal(c, _) => WakeOneKeeps(Done(k), CondQueue(c));
      case Broadcast(c, _) => WakeOneKeeps(k, CondQueue(c));
    }
  }

  lemma ForkBodyKeeps(k: K, t: Tid)
    requires Inv(k) && BodyEnabled(k) && Top(Cur(k)).call == Fork(t)
    ensures Inv(DoBody(k))
  {
    CurrentFactsHold(k);
    assert t in k.threads && k.threads[t].status == JustCreated;
    QuietBodyKeeps(k);
    hide Inv, CurrentFacts;
    ForkKeeps(Done(k), t);
  }

  lemma BodyKeeps(k: K)
    requires Inv(k) && BodyEnabled(k)
    ensures Inv(DoBody(k))
  {
    hide Inv;
    match Top(Cur(k)).call {
      case V(s) => WakingBodyKeeps(k);
      case Signal(c, _) => WakingBodyKeeps(k);
      case Broadcast(c, _) => WakingBodyKeeps(k);
      case Yield => QuietBodyKeeps(k);
      case Fork(t) => ForkBodyKeeps(k, t);
      case _ =>
        hide DoBody;
        SynchBodyKeeps(k);
    }
  }

  /** Every step of every thread and every interrupt keeps the invariant. */
  lemma StepKeeps(k: K, step: Step)
    requires Inv(k) && Enabled(k, step)
    ensures Inv(Apply(k, step))
  {
    if !k.sleeping { CurrentFactsHold(k); }
    SleepingFacts(k, step);
    hide Inv;
    match step {
      case Enter(c) =>
        EnterLocal(k, c);
        LocalStep(k, Push(k, c));
      case Body => BodyKeeps(k);
      case YieldTo(next) => YieldKeeps(k, next);
      case Leave =>
        LeaveLocal(k);
        LocalStep(k, Apply(k, Leave));
      case Preempt =>
        EnterLocal(k, Yield);
        LocalStep(k, Push(k, Yield));
      case SetLevel(now) =>
        SetLevelLocal(k, now);
        LocalStep(k, k.(level := now));
      case Tick(s) => PerformVKeeps(k, s);
      case Idle(s) => PerformVKeeps(k, s);
      case Dispatch(next) => SwitchKeeps(k, Apply(k, step), next);
      case Create(t, priority) => CreateKeeps(k, t, priority);
    }
  }

  lemma SetLevelLocal(k: K, now: Level)
    requires CurrentFacts(k) && Cur(k).stack == []
    ensures LocalOk(k, k.(level := now))
  {
    var k' := k.(level := now);
    assert k'.threads == k.threads[k.current := Cur(k)];
    assert forall l :: Owner(k', l, k.current) <==> Owner(k, l, k.current);
    assert forall q :: Q(k', q) == Q(k, q);
  }

  lemma SleepingFacts(k: K, step: Step)
    requires Inv(k) && Enabled(k, step)
    ensures step.Dispatch? ==> Switches(k, Apply(k, step), step.next)
    ensures step.Preempt? ==> Cur(k).stack == []
  {
    hide ThreadOk, QueuesOk, LocksOk, SemsOk, LockWakeups;
  }

  // ---------- Runs ----------

  /** A run: every state comes from the one before by an enabled step. */
  ghost predicate IsRun(ks: seq<K>, steps: seq<Step>) {
    && |ks| == |steps| + 1
    && forall i | 0 <= i < |steps| :: Enabled(ks[i], steps[i]) && ks[i + 1] == Apply(ks[i], steps[i])
  }

  /** Every state of every run from the initial state satisfies Inv. */
  lemma {:induction false} RunsKeep(ks: seq<K>, steps: seq<Step>)
    requires IsRun(ks, steps) && Init(ks[0])
    ensures forall i | 0 <= i < |ks| :: Inv(ks[i])
    decreases |steps|
  {
    hide Inv, Enabled, Init;
    if steps == [] {
      InitInv(ks[0]);
    } else {
      var n := |steps| - 1;
      RunsKeep(ks[..n + 1], steps[..n]);
      assert Inv(ks[..n + 1][n]);
      StepKeeps(ks[n], steps[n]);
    }
  }

  // ---------- Semaphores conserve ----------

  /** The step completes a V, or a P, on semaphore `s`. */
  predicate CompletesV(k: K, step: Step, s: SemId) {
    match step
    case Tick(r) => r == s
    case Idle(r) => r == s
    case Body => BodyEnabled(k) && Top(Cur(k)).call == V(s)
    case _ => false
  }

  predicate CompletesP(k: K, step: Step, s: SemId) {
    step.Body? && BodyEnabled(k) && Top(Cur(k)).call.P? && Top(Cur(k)).call.s == s && k.sems[s] != 0
  }

  /** How many of the first `n` steps complete a V (or a P) on `s`. */
  ghost function Vs(ks: seq<K>, steps: seq<Step>, n: nat, s: SemId): nat
    requires n <= |steps| <= |ks|
  {
    if n == 0 then 0 else Vs(ks, steps, n - 1, s) + if CompletesV(ks[n - 1], steps[n - 1], s) then 1 else 0
  }

  ghost function Ps(ks: seq<K>, steps: seq<Step>, n: nat, s: SemId): nat
    requires n <= |steps| <= |ks|
  {
    if n == 0 then 0 else Ps(ks, steps, n - 1, s) + if CompletesP(ks[n - 1], steps[n - 1], s) then 1 else 0
  }

  lemma StepValue(k: K, step: Step, s: SemId)
    requires Enabled(k, step) && s in k.sems
    ensures s in Apply(k, step).sems
    ensures Apply(k, step).sems[s] ==
            k.sems[s] + (if CompletesV(k, step, s) then 1 else 0) - if CompletesP(k, step, s) then 1 else 0
  {
    if step.Body? { BodyValue(k, s); }
    hide DoBody, BodyEnabled;
  }

  lemma BodyValue(k: K, s: SemId)
    requires BodyEnabled(k) && s in k.sems
    ensures s in DoBody(k).sems
    ensures DoBody(k).sems[s] ==
            k.sems[s] + (if CompletesV(k, Body, s) then 1 else 0) - if CompletesP(k, Body, s) then 1 else 0
  {
  }

  /** In every run the value is the initial value plus the Vs minus the Ps
      completed so far. */
  lemma {:induction false} SemaphoreConserves(ks: seq<K>, steps: seq<Step>, n: nat, s: SemId)
    requires IsRun(ks, steps) && n <= |steps| && s in ks[0].sems
    ensures s in ks[n].sems
    ensures ks[n].sems[s] == ks[0].sems[s] + Vs(ks, steps, n, s) - Ps(ks, steps, n, s)
  {
    hide Enabled, Apply, CompletesV, CompletesP;
    if n > 0 {
      SemaphoreConserves(ks, steps, n - 1, s);
      assert Enabled(ks[n - 1], steps[n - 1]) && ks[n - 1 + 1] == Apply(ks[n - 1], steps[n - 1]);
      StepValue(ks[n - 1], steps[n - 1], s);
    }
  }

  /** No wake-up is lost: in every run, if anyone is queued then the value is
      at most the number of threads woken by a V and not yet past their
      re-test, however many others barge in. */
  lemma NoLostWakeup(ks: seq<K>, steps: seq<Step>, i: nat, s: SemId)
    requires IsRun(ks, steps) && Init(ks[0]) && i < |ks| && s in ks[i].sems
    ensures 0 <= ks[i].sems[s]
    ensures Q(ks[i], SemQueue(s)) != [] ==> ks[i].sems[s] <= |WokenSet(ks[i], SemQueue(s))|
    ensures forall t | t in WokenSet(ks[i], SemQueue(s)) ::
              t !in Q(ks[i], SemQueue(s)) && (t in ks[i].ready || t == ks[i].current)
  {
    hide Enabled, Init, WaitsOn, Shape, Ownership;
    RunsKeep(ks, steps);
    var k := ks[i];
    assert SemOk(k, s);
    hide IsRun, LockWakeups, LocksOk;
    forall t | t in WokenSet(k, SemQueue(s))
      ensures t !in Q(k, SemQueue(s)) && (t in k.ready || t == k.current)
    {
      assert ThreadOk(k, t);
    }
  }

  // ---------- Threads are in exactly one place ----------

  ghost predicate OnProcessor(k: K, t: Tid) {
    t == k.current && !k.sleeping
  }

  ghost predicate Queued(k: K, t: Tid) {
    exists q :: t in Q(k, q)
  }

  /** Every thread is not started, running, ready, on a wait queue, or
      finished: exactly one of these, once, as its status says. This covers
      the thread in the loop of Sleep, which is on a queue or, if an interrupt
      woke it while the machine idled, ready. */
  ghost predicate PlacedOnce(k: K, t: Tid)
    requires t in k.threads
  {
    && (k.threads[t].status == JustCreated ==> !OnProcessor(k, t) && t !in k.ready && !Queued(k, t) && !Gone(k, t))
    && (OnProcessor(k, t) <==> k.threads[t].status == Running)
    && k.ready[t] == (if k.threads[t].status == Ready then 1 else 0)
    && (Queued(k, t) <==> k.threads[t].status == Blocked && !Gone(k, t))
    && (forall q, r | t in Q(k, q) && t in Q(k, r) :: q == r)
    && (forall q, i, j | 0 <= i < |Q(k, q)| && 0 <= j < |Q(k, q)| && Q(k, q)[i] == t == Q(k, q)[j] :: i == j)
  }

  lemma ThreadsArePlaced(k: K, t: Tid)
    requires Inv(k) && t in k.threads
    ensures PlacedOnce(k, t)
  {
    PlaceOfStatus(k, t);
    OnceOnQueues(k, t);
    hide Inv, WaitsOn, Q;
  }

  lemma PlaceOfStatus(k: K, t: Tid)
    requires SchedulerOk(k) && ThreadsOk(k) && t in k.threads
    ensures OnProcessor(k, t) <==> k.threads[t].status == Running
    ensures k.ready[t] == if k.threads[t].status == Ready then 1 else 0
    ensures k.threads[t].status == JustCreated ==> !Gone(k, t)
    ensures k.threads[t].status == Blocked && !Gone(k, t) ==> Queued(k, t)
  {
    hide Shape, Ownership, Suspended, WaitsOn, Q;
    assert ThreadOk(k, t);
    hide ThreadsOk;
    if k.threads[t].status == Blocked && !Gone(k, t) {
      assert t in Q(k, WaitsOn(Top(k.threads[t])).value);
    }
  }

  lemma OnceOnQueues(k: K, t: Tid)
    requires QueuesOk(k) && t in k.threads
    ensures Queued(k, t) ==> k.threads[t].status == Blocked && !Gone(k, t)
    ensures forall q, r | t in Q(k, q) && t in Q(k, r) :: q == r
    ensures forall q, i, j | 0 <= i < |Q(k, q)| && 0 <= j < |Q(k, q)| && Q(k, q)[i] == t == Q(k, q)[j] :: i == j
  {
    hide Q;
    forall q, i, j | 0 <= i < |Q(k, q)| && 0 <= j < |Q(k, q)| && Q(k, q)[i] == t == Q(k, q)[j]
      ensures i == j
    {
    }
  }

  /** A destroyed thread does not run, is not ready, and is on no queue. */
  ghost predicate IsAway(k: K, t: Tid) {
    t != k.current && t !in k.ready && !Queued(k, t)
  }

  lemma DestroyedAreAway(k: K, t: Tid)
    requires Inv(k) && t in k.destroyed
    ensures IsAway(k, t)
  {
    ThreadsArePlaced(k, t);
    hide QueuesOk, LocksOk, SemsOk, LockWakeups, ThreadsOk;
  }

  /** The ASSERT in ~Thread: the carcass is never the thread switched to. */
  lemma CarcassIsNotCurrent(k: K, step: Step)
    requires Inv(k) && Enabled(k, step) && k.carcass.Some? && Apply(k, step).carcass == None
    ensures k.carcass.value != Apply(k, step).current && k.carcass.value in Apply(k, step).destroyed
  {
    StepKeeps(k, step);
    SwitchReaps(k, step);
    hide ThreadsOk, QueuesOk, LocksOk, SemsOk, LockWakeups, Enabled;
  }

  /** Nobody is destroyed, a carcass stays, and the processor does not change
      hands. */
  ghost predicate NobodyReaped(k: K, k': K) {
    k'.destroyed == k.destroyed && (k.carcass.Some? ==> k'.carcass.Some?) && k'.current == k.current
  }

  lemma BodyReapsNobody(k: K)
    requires BodyEnabled(k)
    ensures NobodyReaped(k, DoBody(k))
  {
    if IsWaking(Top(Cur(k)).call) {
      WakingReapsNobody(k);
    } else {
      OtherReapsNobody(k);
    }
  }

  predicate IsWaking(c: Call) {
    c.V? || c.Release? || c.Signal? || c.Broadcast?
  }

  lemma WakingReapsNobody(k: K)
    requires BodyEnabled(k) && IsWaking(Top(Cur(k)).call)
    ensures NobodyReaped(k, DoBody(k))
  {
  }

  lemma OtherReapsNobody(k: K)
    requires BodyEnabled(k) && !IsWaking(Top(Cur(k)).call)
    ensures NobodyReaped(k, DoBody(k))
  {
  }

  lemma SwitchReaps(k: K, step: Step)
    requires Enabled(k, step) && k.carcass.Some? && Apply(k, step).carcass == None
    ensures k.carcass.value in Apply(k, step).destroyed
  {
    if step.Body? { BodyReapsNobody(k); }
    hide DoBody;
  }

  // ---------- Locks ----------

  /** At most one thread is between Acquire and Release of a lock, and the lock
      is available exactly when nobody is. */
  ghost predicate Exclusive(k: K, l: LockId)
    requires l in k.locks
  {
    && (forall t, u | t in k.threads && u in k.threads && l in k.threads[t].held && l in k.threads[u].held :: t == u)
    && (k.locks[l].available <==> forall t | t in k.threads :: l !in k.threads[t].held)
  }

  lemma LocksAreExclusive(k: K, l: LockId)
    requires Inv(k) && l in k.locks
    ensures Exclusive(k, l)
  {
    hide QueuesOk, SchedulerOk, SemsOk, LockWakeups, Shape, Ownership, Suspended, WaitsOn;
    forall t | t in k.threads
      ensures l in k.threads[t].held <==> Owner(k, l, t)
    {
      assert ThreadOk(k, t);
    }
    hide ThreadsOk;
    if !k.locks[l].available {
      var t := k.locks[l].owner.value;
      assert l in k.threads[t].held;
    }
  }

  /** In every run a free lock with waiters has a woken one that is about to
      test the lock again. */
  lemma FreeLockHasWoken(ks: seq<K>, steps: seq<Step>, i: nat, l: LockId)
    requires IsRun(ks, steps) && Init(ks[0]) && i < |ks| && l in ks[i].locks
    requires ks[i].locks[l].available && Q(ks[i], LockQueue(l)) != []
    ensures exists t :: t in ks[i].threads && Woken(ks[i].threads[t], LockQueue(l))
                        && (t in ks[i].ready || t == ks[i].current)
  {
    hide Enabled, Init, WaitsOn, Shape, Ownership;
    RunsKeep(ks, steps);
    var k := ks[i];
    assert LockWakeup(k, l);
    var t :| t in WokenSet(k, LockQueue(l));
    assert ThreadOk(k, t);
  }

  // ---------- Condition::Wait is atomic ----------

  /** Thread `t` is inside Wait(c): it has begun to give up the lock and is not
      yet on the condition's queue. */
  ghost predicate InWaitWindow(k: K, t: Tid, c: CondId) {
    && t in k.threads && k.threads[t].stack != []
    && k.threads[t].stack[0].call.Wait? && k.threads[t].stack[0].call.c == c
    && k.threads[t].stack[0].call.stage == Queueing
  }

  /** While a thread is in that window it is running with interrupts off. */
  lemma WindowIsProtected(k: K, t: Tid, c: CondId)
    requires Inv(k) && InWaitWindow(k, t, c)
    ensures t == k.current && !k.sleeping && k.level == Off
  {
    hide QueuesOk, LocksOk, SemsOk, LockWakeups, Ownership, WaitsOn;
    assert ThreadOk(k, t);
  }

  /** So whatever step comes next, the window ends with the thread on the queue
      or goes on with the queue as it was. */
  lemma WindowEnds(k: K, step: Step, t: Tid, c: CondId)
    requires Inv(k) && InWaitWindow(k, t, c) && Enabled(k, step)
    ensures var k' := Apply(k, step);
            if InWaitWindow(k', t, c) then Q(k', CondQueue(c)) == Q(k, CondQueue(c))
            else Q(k', CondQueue(c)) == Q(k, CondQueue(c)) + [t] && k'.sleeping && k'.current == t
  {
    WindowIsProtected(k, t, c);
    WindowFrames(k, t, c);
    hide Inv, ThreadOk;
    WindowStep(k, step, t, c);
  }

  lemma WindowFrames(k: K, t: Tid, c: CondId)
    requires Inv(k) && InWaitWindow(k, t, c)
    ensures var st := k.threads[t].stack;
            !st[0].done && (|st| == 1 || (|st| == 2 && st[1].call == Release(st[0].call.l)))
  {
    hide QueuesOk, LocksOk, SemsOk, LockWakeups, Ownership, WaitsOn;
    assert ThreadOk(k, t);
  }

  lemma WindowStep(k: K, step: Step, t: Tid, c: CondId)
    requires InWaitWindow(k, t, c) && Enabled(k, step)
    requires t == k.current && !k.sleeping && k.level == Off
    requires var st := k.threads[t].stack;
             !st[0].done && (|st| == 1 || (|st| == 2 && st[1].call == Release(st[0].call.l)))
    ensures var k' := Apply(k, step);
            if InWaitWindow(k', t, c) then Q(k', CondQueue(c)) == Q(k, CondQueue(c))
            else Q(k', CondQueue(c)) == Q(k, CondQueue(c)) + [t] && k'.sleeping && k'.current == t
  {
    var k' := Apply(k, step);
    var st, st' := k.threads[t].stack, k'.threads[t].stack;
    if step.Create? {
      assert st' == st && k'.queues == k.queues;
    } else if |st| == 1 {
      assert step.Body?;
      assert st' == [st[0].(call := Wait(c, st[0].call.l, Asleep))];
      assert Q(k', CondQueue(c)) == Q(k, CondQueue(c)) + [t];
    } else if step.Body? {
      assert st'[0] == st[0];
      assert Q(k', CondQueue(c)) == Q(k, CondQueue(c));
    } else {
      assert step.Leave?;
      assert st' == [st[0]];
      assert Q(k', CondQueue(c)) == Q(k, CondQueue(c));
    }
  }

  /** In every run, from the moment a thread in Wait begins to give up the lock,
      interrupts stay off and it stays the running thread, no Signal or
      Broadcast reaches the condition's queue, and the first state outside the
      window has it asleep at the end of that queue. */
  lemma {:induction false} WaitIsAtomic(ks: seq<K>, steps: seq<Step>, i: nat, j: nat, t: Tid, c: CondId)
    requires IsRun(ks, steps) && Init(ks[0]) && i <= j < |ks|
    requires InWaitWindow(ks[i], t, c) && forall n | i <= n < j :: InWaitWindow(ks[n], t, c)
    ensures forall n | i <= n < j ::
              ks[n].current == t && ks[n].level == Off && Q(ks[n], CondQueue(c)) == Q(ks[i], CondQueue(c))
    ensures if InWaitWindow(ks[j], t, c) then Q(ks[j], CondQueue(c)) == Q(ks[i], CondQueue(c))
            else Q(ks[j], CondQueue(c)) == Q(ks[i], CondQueue(c)) + [t] && ks[j].sleeping && ks[j].current == t
    decreases j
  {
    hide Inv, Enabled, Init, Apply, InWaitWindow, Q;
    RunsKeep(ks, steps);
    if i < j {
      WaitIsAtomic(ks, steps, i, j - 1, t, c);
      WindowIsProtected(ks[j - 1], t, c);
      assert Enabled(ks[j - 1], steps[j - 1]) && ks[j - 1 + 1] == Apply(ks[j - 1], steps[j - 1]);
      WindowEnds(ks[j - 1], steps[j - 1], t, c);
    }
  }

  // ---------- Signal and Broadcast ----------

  /** The running thread is on no queue, in every reachable state. */
  lemma CurrentIsNotQueued(k: K, q: Queue)
    requires Inv(k) && !k.sleeping
    ensures k.current !in Q(k, q)
  {
    hide LocksOk, SemsOk, LockWakeups, Shape, Ownership, Suspended, WaitsOn;
    assert ThreadOk(k, k.current);
  }

  /** Wait queues are first in, first out: a step takes at most the head off a
      queue, making it ready, or puts the current thread, now blocked, at its
      end.  Nobody is overtaken. */
  ghost predicate FifoStep(k: K, k': K, q: Queue) {
    || Q(k', q) == Q(k, q)
    || (Q(k, q) != [] && Q(k', q) == Q(k, q)[1..] && k'.ready == k.ready + multiset{Q(k, q)[0]})
    || (Q(k', q) == Q(k, q) + [k.current] && k'.ready == k.ready && k'.sleeping)
  }

  lemma QueuesAreFifo(k: K, step: Step, q: Queue)
    requires Enabled(k, step)
    ensures FifoStep(k, Apply(k, step), q)
  {
    if step.Body? {
      BodyIsFifo(k, q);
    }
    hide BodyEnabled, DoBody, MayRunNext;
  }

  lemma BodyIsFifo(k: K, q: Queue)
    requires BodyEnabled(k)
    ensures FifoStep(k, DoBody(k), q)
  {
    match Top(Cur(k)).call
    case V(_) => VIsFifo(k, q);
    case Release(_) => ReleaseIsFifo(k, q);
    case Signal(_, _) => CondIsFifo(k, q);
    case Broadcast(_, _) => CondIsFifo(k, q);
    case _ => OtherBodyIsFifo(k, q);
  }

  lemma VIsFifo(k: K, q: Queue)
    requires BodyEnabled(k) && Top(Cur(k)).call.V?
    ensures FifoStep(k, DoBody(k), q)
  {
    WakeIsFifo(Done(k), SemQueue(Top(Cur(k)).call.s), q);
  }

  lemma ReleaseIsFifo(k: K, q: Queue)
    requires BodyEnabled(k) && Top(Cur(k)).call.Release?
    ensures FifoStep(k, DoBody(k), q)
  {
    var l := Top(Cur(k)).call.l;
    WakeIsFifo(SetCur(k, WithTop(Cur(k), Top(Cur(k)).(done := true)).(held := Cur(k).held - {l})), LockQueue(l), q);
  }

  lemma CondIsFifo(k: K, q: Queue)
    requires BodyEnabled(k) && (Top(Cur(k)).call.Signal? || Top(Cur(k)).call.Broadcast?)
    ensures FifoStep(k, DoBody(k), q)
  {
    var c := Top(Cur(k)).call.c;
    WakeIsFifo(if Top(Cur(k)).call.Signal? then Done(k) else k, CondQueue(c), q);
  }

  lemma OtherBodyIsFifo(k: K, q: Queue)
    requires BodyEnabled(k)
    requires var c := Top(Cur(k)).call; !c.V? && !c.Release? && !c.Signal? && !c.Broadcast?
    ensures FifoStep(k, DoBody(k), q)
  {
  }

  lemma WakeIsFifo(k: K, r: Queue, q: Queue)
    requires QueueKnown(k, r)
    ensures FifoStep(k, WakeOne(k, r), q)
  {
  }

  /** In every run a Signal is made by the owner of the lock, and with waiters it
      makes exactly the longest waiting one ready: that thread was asleep in a
      Wait on the condition, and no other thread changes place. */
  lemma SignalWakesOne(ks: seq<K>, steps: seq<Step>, i: nat, c: CondId, l: LockId)
    requires IsRun(ks, steps) && Init(ks[0]) && i < |steps| && steps[i] == Body
    requires BodyEnabled(ks[i]) && Top(Cur(ks[i])).call == Signal(c, l)
    ensures Owner(ks[i], l, ks[i].current)
    ensures var k, k', q := ks[i], ks[i + 1], Q(ks[i], CondQueue(c));
            if q == [] then k'.ready == k.ready && forall r :: Q(k', r) == Q(k, r)
            else WakesWaiter(k, k', c, q[0])
  {
    hide Inv, Init, Enabled, Apply, BodyEnabled, WakesWaiter, Q;
    RunsKeep(ks, steps);
    var k := ks[i];
    assert Enabled(k, steps[i]) && ks[i + 1] == Apply(k, steps[i]);
    SignalBody(k, c, l);
  }

  lemma SignalBody(k: K, c: CondId, l: LockId)
    requires Inv(k) && BodyEnabled(k) && Top(Cur(k)).call == Signal(c, l) && Enabled(k, Body)
    ensures Owner(k, l, k.current)
    ensures var k', q := Apply(k, Body), Q(k, CondQueue(c));
            if q == [] then k'.ready == k.ready && forall r :: Q(k', r) == Q(k, r)
            else WakesWaiter(k, k', c, q[0])
  {
    hide Inv, WakesWaiter;
    if Q(k, CondQueue(c)) != [] {
      SleepsInWait(k, c, Q(k, CondQueue(c))[0]);
      SignalMoves(k, c, l, Q(k, CondQueue(c))[0]);
    }
  }

  lemma SignalMoves(k: K, c: CondId, l: LockId, h: Tid)
    requires BodyEnabled(k) && Top(Cur(k)).call == Signal(c, l)
    requires Q(k, CondQueue(c)) != [] && h == Q(k, CondQueue(c))[0] && h in k.threads && h != k.current
    requires k.threads[h].stack != [] && k.threads[h].status == Blocked
    requires k.threads[h].stack[0].call.Wait? && k.threads[h].stack[0].call.c == c
    ensures WakesWaiter(k, DoBody(k), c, h)
  {
    assert Q(k, CondQueue(c)) == [h] + Q(k, CondQueue(c))[1..];
  }

  /** `h`, and nobody else, goes from the condition's queue to the ready list. */
  ghost predicate WakesWaiter(k: K, k': K, c: CondId, h: Tid) {
    && h in k.threads && h in k'.threads && h != k.current
    && k.threads[h].stack != [] && k.threads[h].stack[0].call.Wait? && k.threads[h].stack[0].call.c == c
    && k.threads[h].status == Blocked && k'.threads[h] == k.threads[h].(status := Ready)
    && k'.ready == k.ready + multiset{h}
    && Q(k, CondQueue(c)) == [h] + Q(k', CondQueue(c))
    && (forall r | r != CondQueue(c) :: Q(k', r) == Q(k, r))
    && (forall u | u in k.threads && u != h :: u in k'.threads && k'.threads[u].status == k.threads[u].status)
  }

  /** Whoever is on a queue sleeps there. */
  lemma QueuedSleeps(k: K, q: Queue, t: Tid)
    requires Inv(k) && t in Q(k, q)
    ensures t in k.threads && k.threads[t].status == Blocked && k.threads[t].stack != []
    ensures Shape(k.threads[t].stack) && WaitsOn(Top(k.threads[t])) == Some(q)
    ensures !k.sleeping ==> t != k.current
  {
    hide SchedulerOk, LocksOk, LockWakeups, SemsOk, Ownership, Suspended, Shape, WaitsOn;
    assert ThreadOk(k, t);
  }

  lemma SleepsInWait(k: K, c: CondId, h: Tid)
    requires Inv(k) && !k.sleeping && h in Q(k, CondQueue(c))
    ensures h in k.threads && h != k.current && k.threads[h].status == Blocked && k.threads[h].stack != []
    ensures k.threads[h].stack[0].call.Wait? && k.threads[h].stack[0].call.c == c
  {
    hide Inv;
    QueuedSleeps(k, CondQueue(c), h);
  }

  /** The state after n rounds of the innermost routine. */
  ghost function Rounds(k: K, n: nat): K
    decreases n
  {
    if n == 0 || !BodyEnabled(k) then k else Rounds(DoBody(k), n - 1)
  }

  /** A Broadcast goes on until the condition's queue is empty, and makes every
      thread that was on it ready. */
  lemma {:induction false} BroadcastWakesAll(k: K, c: CondId, l: LockId, k': K)
    requires BodyEnabled(k) && Top(Cur(k)).call == Broadcast(c, l) && k.current !in Q(k, CondQueue(c))
    requires k' == Rounds(k, |Q(k, CondQueue(c))| + 1)
    ensures InRoutine(k') && Top(Cur(k')).done
    ensures Q(k', CondQueue(c)) == [] && k'.ready == k.ready + multiset(Q(k, CondQueue(c)))
    decreases |Q(k, CondQueue(c))|
  {
    var q := Q(k, CondQueue(c));
    var k1 := DoBody(k);
    if q == [] {
      BroadcastEnds(k, c, l, k1);
      hide DoBody, BodyEnabled;
      assert Rounds(k1, 0) == k1;
    } else {
      BroadcastRound(k, c, l, k1);
      hide DoBody, BodyEnabled;
      BroadcastWakesAll(k1, c, l, k');
      assert q == [q[0]] + q[1..];
    }
  }

  lemma BroadcastEnds(k: K, c: CondId, l: LockId, k1: K)
    requires BodyEnabled(k) && Top(Cur(k)).call == Broadcast(c, l) && Q(k, CondQueue(c)) == [] && k1 == DoBody(k)
    ensures InRoutine(k1) && Top(Cur(k1)).done && Q(k1, CondQueue(c)) == [] && k1.ready == k.ready
  {
  }

  lemma BroadcastRound(k: K, c: CondId, l: LockId, k1: K)
    requires BodyEnabled(k) && Top(Cur(k)).call == Broadcast(c, l) && k1 == DoBody(k)
    requires Q(k, CondQueue(c)) != [] && k.current !in Q(k, CondQueue(c))
    ensures BodyEnabled(k1) && k1.current == k.current && Top(Cur(k1)).call == Broadcast(c, l)
    ensures Q(k1, CondQueue(c)) == Q(k, CondQueue(c))[1..]
    ensures k1.ready == k.ready + multiset{Q(k, CondQueue(c))[0]}
  {
  }

  // ---------- Nothing gets stuck on an ASSERT ----------

  lemma {:induction false} LeastOf(p: map<Tid, Thread>, s: set<Tid>) returns (m: Tid)
    requires s != {} && s <= p.Keys
    ensures m in s && forall t | t in s :: p[m].priority <= p[t].priority
    decreases s
  {
    var x :| x in s;
    var rest := s - {x};
    m := x;
    if rest != {} {
      var n := LeastOf(p, rest);
      if p[n].priority < p[x].priority { m := n; }
    }
    forall t | t in s
      ensures p[m].priority <= p[t].priority
    {
      assert t == x || t in rest;
    }
  }

  /** A routine in progress can always go on: none of the ASSERTs in Acquire,
      Release, Wait, Signal or Broadcast fails, and a Yield or a Sleep with
      ready threads has one to switch to. */
  ghost predicate CanGoOn(k: K) {
    && CurrentOk(k)
    && (!k.sleeping && Cur(k).stack != [] && !Top(Cur(k)).done ==>
          Enabled(k, Body) || exists next :: Enabled(k, YieldTo(next)))
    && (k.sleeping && k.ready != multiset{} ==> exists next :: Enabled(k, Dispatch(next)))
  }

  lemma NothingIsStuck(k: K)
    requires Inv(k)
    ensures CanGoOn(k)
  {
    if k.ready != multiset{} {
      var x :| x in k.ready;
      var s := set t | t in k.ready;
      assert x in s;
      var m := LeastOf(k.threads, s);
      assert MayRunNext(k, m);
      if k.sleeping {
        assert Enabled(k, Dispatch(m));
      } else if Cur(k).stack != [] && Top(Cur(k)).call == Yield && !Top(Cur(k)).done {
        assert Enabled(k, YieldTo(m));
      }
    }
    if !k.sleeping && Cur(k).stack != [] && !Top(Cur(k)).done && !Top(Cur(k)).call.Yield? {
      assert ThreadOk(k, k.current);
      BodyCanRun(k);
    }
  }

  lemma BodyCanRun(k: K)
    requires Inv(k) && !k.sleeping && Cur(k).stack != [] && !Top(Cur(k)).done && !Top(Cur(k)).call.Yield?
    ensures BodyEnabled(k)
  {
    CurrentFactsHold(k);
    QueuesKnown(k);
    hide Inv, WaitsOn, Suspended, QueueKnown, Shape, Ownership, BodyEnabled;
    BodyRuns(k);
  }

  lemma BodyRuns(k: K)
    requires InRoutine(k) && !Top(Cur(k)).done && !Top(Cur(k)).call.Yield? && !Top(Cur(k)).call.Begin?
    requires Ownership(k, k.current, Top(Cur(k))) && forall q :: QueueKnown(k, q)
    requires Top(Cur(k)).call.P? || Top(Cur(k)).call.V? ==> Top(Cur(k)).call.s in k.sems
    requires Top(Cur(k)).call.Fork? ==> Top(Cur(k)).call.child in k.threads
    ensures BodyEnabled(k)
  {
    hide QueueKnown;
  }

  lemma QueuesKnown(k: K)
    requires QueuesOk(k)
    ensures forall q :: QueueKnown(k, q)
  {
  }

  // ---------- Safety over whole runs ----------

  /** In every state of every run every thread is in exactly one place ... */
  lemma PlacedOnceInRuns(ks: seq<K>, steps: seq<Step>, i: nat, t: Tid)
    requires IsRun(ks, steps) && Init(ks[0]) && i < |ks| && t in ks[i].threads
    ensures PlacedOnce(ks[i], t)
  {
    hide Inv, PlacedOnce, Init, Enabled;
    RunsKeep(ks, steps);
    ThreadsArePlaced(ks[i], t);
  }

  /** ... a thread, once destroyed, is out of the way for good ... */
  lemma {:induction false} DestroyedStaysAway(ks: seq<K>, steps: seq<Step>, i: nat, j: nat, t: Tid)
    requires IsRun(ks, steps) && Init(ks[0]) && i <= j < |ks| && t in ks[i].destroyed
    ensures t in ks[j].destroyed && IsAway(ks[j], t)
    decreases j
  {
    hide Inv, IsAway, Init, Enabled, Apply;
    RunsKeep(ks, steps);
    if i < j {
      DestroyedStaysAway(ks, steps, i, j - 1, t);
      assert Enabled(ks[j - 1], steps[j - 1]) && ks[j - 1 + 1] == Apply(ks[j - 1], steps[j - 1]);
      DestroyedGrows(ks[j - 1], steps[j - 1]);
    }
    DestroyedAreAway(ks[j], t);
  }

  lemma DestroyedGrows(k: K, step: Step)
    requires Enabled(k, step)
    ensures k.destroyed <= Apply(k, step).destroyed
  {
    if step.Body? { BodyReapsNobody(k); }
    hide DoBody, BodyEnabled;
  }

  /** ... locks exclude ... */
  lemma MutualExclusion(ks: seq<K>, steps: seq<Step>, i: nat, l: LockId)
    requires IsRun(ks, steps) && Init(ks[0]) && i < |ks| && l in ks[i].locks
    ensures Exclusive(ks[i], l)
  {
    hide Inv, Exclusive, Init, Enabled;
    RunsKeep(ks, steps);
    LocksAreExclusive(ks[i], l);
  }

  /** ... and no routine is stuck on an ASSERT. */
  lemma NeverStuck(ks: seq<K>, steps: seq<Step>, i: nat)
    requires IsRun(ks, steps) && Init(ks[0]) && i < |ks|
    ensures CanGoOn(ks[i])
  {
    hide Inv, CanGoOn, Init, Enabled;
    RunsKeep(ks, steps);
    NothingIsStuck(ks[i]);
  }
}
