/** The thread kernel as a transition system: Thread, Scheduler, Semaphore,
    Lock and Condition (threads/thread.cc, scheduler.cc, synch.cc) on one
    processor with interrupts.

    A step is one stretch of kernel code between two calls or returns, so a
    routine is entered (SetLevel(IntOff)), does its work, and is left again
    (SetLevel of the saved level) in separate steps, and nested calls nest.
    The timer may preempt the running thread, and a device interrupt may
    perform a V, whenever interrupts are on; nothing else makes a routine
    atomic. */
module Kernel {
  import opened Options

  type Tid = nat
  type SemId = nat
  type LockId = nat
  type CondId = nat

  datatype Level = Off | On
  datatype Status = JustCreated | Running | Ready | Blocked

  /** Where Condition::Wait has got to: about to release the lock, about to
      queue itself, asleep (or woken and not yet resumed), reacquiring. */
  datatype WaitStage = Releasing | Queueing | Asleep | Reacquiring

  /** A kernel routine in progress. `slept`: it has slept at least once. */
  datatype Call =
    | P(s: SemId, slept: bool)
    | V(s: SemId)
    | Acquire(l: LockId, slept: bool)
    | Release(l: LockId)
    | Wait(c: CondId, l: LockId, stage: WaitStage)
    | Signal(c: CondId, l: LockId)
    | Broadcast(c: CondId, l: LockId)
    | Yield
    | Fork(child: Tid)
    | Finish
    | Begin

  /** A routine, the level it must restore, and whether its work is done. */
  datatype Frame = Frame(call: Call, saved: Level, done: bool)

  datatype Queue = SemQueue(s: SemId) | LockQueue(l: LockId) | CondQueue(c: CondId)

  /** `stack` is the routines the thread is in, innermost last; `held` is the
      locks it has acquired and not released (history, used by no step). */
  datatype Thread = Thread(status: Status, priority: int, stack: seq<Frame>, held: set<LockId>)

  datatype Lock = Lock(available: bool, owner: Option<Tid>)

  datatype K = K(
    level: Level,
    current: Tid,
    sleeping: bool,              // the current thread is in the loop of Thread::Sleep
    threads: map<Tid, Thread>,
    ready: multiset<Tid>,        // the priority queue of the scheduler
    queues: map<Queue, seq<Tid>>,
    sems: map<SemId, int>,       // the semaphores' values
    locks: map<LockId, Lock>,
    carcass: Option<Tid>,        // threadToBeDestroyed
    destroyed: set<Tid>)

  function Q(k: K, q: Queue): seq<Tid> {
    if q in k.queues then k.queues[q] else []
  }

  function Top(th: Thread): Frame
    requires th.stack != []
  {
    th.stack[|th.stack| - 1]
  }

  function WithTop(th: Thread, f: Frame): Thread
    requires th.stack != []
  {
    th.(stack := th.stack[|th.stack| - 1 := f])
  }

  predicate CurrentOk(k: K) {
    k.current in k.threads
  }

  function Cur(k: K): Thread
    requires CurrentOk(k)
  {
    k.threads[k.current]
  }

  function SetCur(k: K, th: Thread): K {
    k.(threads := k.threads[k.current := th])
  }

  /** Scheduler::ReadyToRun. */
  function ReadyToRun(k: K, t: Tid): K
    requires t in k.threads
  {
    k.(threads := k.threads[t := k.threads[t].(status := Ready)], ready := k.ready + multiset{t})
  }

  /** Take the first thread off a wait queue, if any, and make it ready. */
  function WakeOne(k: K, q: Queue): K
    requires forall t | t in Q(k, q) :: t in k.threads
  {
    if Q(k, q) == [] then k
    else ReadyToRun(k.(queues := k.queues[q := Q(k, q)[1..]]), Q(k, q)[0])
  }

  /** queue->Append(currentThread), then the first line of Thread::Sleep. */
  function SleepOn(k: K, q: Queue, f: Frame): K
    requires CurrentOk(k) && Cur(k).stack != []
  {
    SetCur(k, WithTop(Cur(k), f).(status := Blocked))
    .(queues := k.queues[q := Q(k, q) + [k.current]], sleeping := true)
  }

  /** Scheduler::Run, up to and including the code after SWITCH, which a
      thread that has never run does not go through. */
  function Run(k: K, next: Tid): K
    requires next in k.threads
  {
    var reaps := k.carcass.Some? && k.threads[next].stack != [] && !Top(k.threads[next]).call.Begin?;
    k.(current := next, sleeping := false,
       threads := k.threads[next := k.threads[next].(status := Running)],
       carcass := if reaps then None else k.carcass,
       destroyed := if reaps then k.destroyed + {k.carcass.value} else k.destroyed)
  }

  /** Scheduler::FindNextToRun may return any thread of least priority. */
  predicate MayRunNext(k: K, next: Tid) {
    && next in k.ready && next in k.threads
    && forall t | t in k.ready && t in k.threads :: k.threads[next].priority <= k.threads[t].priority
  }

  predicate Owner(k: K, l: LockId, t: Tid) {
    l in k.locks && k.locks[l].owner == Some(t)
  }

  datatype Step =
    | Enter(call: Call)        // user code of the current thread calls a routine
    | Body                     // the innermost routine of the current thread works
    | YieldTo(next: Tid)       // Yield, when another thread is ready
    | Leave                    // the innermost routine restores the level and returns
    | Preempt                  // timer interrupt: the current thread yields
    | SetLevel(now: Level)     // user code changes the level itself
    | Tick(s: SemId)           // a device interrupt performs a V
    | Idle(s: SemId)           // the same, while the current thread idles in Sleep; several may fire in one Idle
    | Dispatch(next: Tid)      // Sleep found a thread to run
    | Create(t: Tid, priority: int)

  /** What callers must guarantee: the ASSERTs at the head of the routines, and
      the convention that the owner releases. */
  predicate LegalCall(k: K, c: Call) {
    match c
    case P(s, slept) => s in k.sems && !slept
    case V(s) => s in k.sems
    case Acquire(l, slept) => l in k.locks && !slept && !Owner(k, l, k.current)
    case Release(l) => Owner(k, l, k.current)
    case Wait(_, l, stage) => stage == Releasing && Owner(k, l, k.current)
    case Signal(_, l) => Owner(k, l, k.current)
    case Broadcast(_, l) => Owner(k, l, k.current)
    case Yield => true
    case Fork(t) => t in k.threads && k.threads[t].status == JustCreated
    case Finish => true
    case Begin => false
  }

  predicate InRoutine(k: K) {
    CurrentOk(k) && !k.sleeping && Cur(k).stack != []
  }

  predicate QueueKnown(k: K, q: Queue) {
    forall t | t in Q(k, q) :: t in k.threads
  }

  /** A routine works only if the ASSERT at its head holds. */
  predicate BodyEnabled(k: K) {
    && InRoutine(k) && !Top(Cur(k)).done
    && match Top(Cur(k)).call
       case P(s, _) => s in k.sems
       case V(s) => s in k.sems && QueueKnown(k, SemQueue(s))
       case Acquire(l, _) => l in k.locks && !Owner(k, l, k.current)
       case Release(l) =>
         l in k.locks && (!k.locks[l].available || Owner(k, l, k.current)) && QueueKnown(k, LockQueue(l))
       case Wait(_, l, stage) => stage == Releasing ==> Owner(k, l, k.current)
       case Signal(c, l) => Owner(k, l, k.current) && QueueKnown(k, CondQueue(c))
       case Broadcast(c, l) => Owner(k, l, k.current) && QueueKnown(k, CondQueue(c))
       case Yield => k.ready == multiset{}
       case Fork(t) => t in k.threads
       case Begin => false
       case _ => true
  }

  predicate Enabled(k: K, step: Step) {
    match step
    case Enter(c) => CurrentOk(k) && !k.sleeping && Cur(k).stack == [] && LegalCall(k, c)
    case Body => BodyEnabled(k)
    case YieldTo(next) =>
      InRoutine(k) && !Top(Cur(k)).done && Top(Cur(k)).call.Yield? && MayRunNext(k, next)
    case Leave => InRoutine(k) && Top(Cur(k)).done
    case Preempt => CurrentOk(k) && !k.sleeping && k.level == On
    case SetLevel(_) => CurrentOk(k) && !k.sleeping && Cur(k).stack == []
    case Tick(s) => !k.sleeping && k.level == On && s in k.sems && QueueKnown(k, SemQueue(s))
    case Idle(s) => k.sleeping && s in k.sems && QueueKnown(k, SemQueue(s))
    case Dispatch(next) => k.sleeping && MayRunNext(k, next)
    case Create(t, _) => CurrentOk(k) && !k.sleeping && t !in k.threads
  }

  function Push(k: K, c: Call): K
    requires CurrentOk(k)
  {
    SetCur(k, Cur(k).(stack := Cur(k).stack + [Frame(c, k.level, false)])).(level := Off)
  }

  /** Semaphore::V between its two SetLevels. */
  function PerformV(k: K, s: SemId): K
    requires s in k.sems && QueueKnown(k, SemQueue(s))
  {
    var k1 := WakeOne(k, SemQueue(s));
    k1.(sems := k.sems[s := k.sems[s] + 1])
  }

  function Done(k: K): K
    requires InRoutine(k)
  {
    SetCur(k, WithTop(Cur(k), Top(Cur(k)).(done := true)))
  }

  function PBody(k: K, s: SemId): K
    requires InRoutine(k) && s in k.sems
  {
    var f := Top(Cur(k));
    if k.sems[s] == 0 then SleepOn(k, SemQueue(s), f.(call := P(s, true)))
    else Done(k).(sems := k.sems[s := k.sems[s] - 1])
  }

  function AcquireBody(k: K, l: LockId): K
    requires InRoutine(k) && l in k.locks
  {
    var f := Top(Cur(k));
    if !k.locks[l].available then SleepOn(k, LockQueue(l), f.(call := Acquire(l, true)))
    else
      SetCur(k, WithTop(Cur(k), f.(done := true)).(held := Cur(k).held + {l}))
      .(locks := k.locks[l := Lock(false, Some(k.current))])
  }

  function ReleaseBody(k: K, l: LockId): K
    requires InRoutine(k) && l in k.locks && QueueKnown(k, LockQueue(l))
  {
    var f := Top(Cur(k));
    var k1 := SetCur(k, WithTop(Cur(k), f.(done := true)).(held := Cur(k).held - {l}));
    WakeOne(k1, LockQueue(l)).(locks := k.locks[l := Lock(true, None)])
  }

  function WaitBody(k: K, c: CondId, l: LockId, stage: WaitStage): K
    requires InRoutine(k)
  {
    var f := Top(Cur(k));
    match stage
    case Releasing => Push(SetCur(k, WithTop(Cur(k), f.(call := Wait(c, l, Queueing)))), Release(l))
    case Queueing => SleepOn(k, CondQueue(c), f.(call := Wait(c, l, Asleep)))
    case Asleep => Push(SetCur(k, WithTop(Cur(k), f.(call := Wait(c, l, Reacquiring)))), Acquire(l, false))
    case Reacquiring => Done(k)
  }

  function DoBody(k: K): K
    requires BodyEnabled(k)
  {
    match Top(Cur(k)).call
    case P(s, _) => PBody(k, s)
    case V(s) => PerformV(Done(k), s)
    case Acquire(l, _) => AcquireBody(k, l)
    case Release(l) => ReleaseBody(k, l)
    case Wait(c, l, stage) => WaitBody(k, c, l, stage)
    case Signal(c, _) => WakeOne(Done(k), CondQueue(c))
    case Broadcast(c, _) => if Q(k, CondQueue(c)) == [] then Done(k) else WakeOne(k, CondQueue(c))
    case Yield => Done(k)
    case Fork(t) => ReadyToRun(Done(k), t)
    case Finish => SetCur(k, Cur(k).(status := Blocked)).(carcass := Some(k.current), sleeping := true)
  }

  function Apply(k: K, step: Step): K
    requires Enabled(k, step)
  {
    match step
    case Enter(c) => Push(k, c)
    case Body => DoBody(k)
    case YieldTo(next) =>
      var k1 := Done(k).(ready := k.ready - multiset{next});
      Run(ReadyToRun(k1, k.current), next)
    case Leave =>
      var n := |Cur(k).stack| - 1;
      SetCur(k, Cur(k).(stack := Cur(k).stack[..n])).(level := Cur(k).stack[n].saved)
    case Preempt => Push(k, Yield)
    case SetLevel(now) => k.(level := now)
    case Tick(s) => PerformV(k, s)
    case Idle(s) => PerformV(k, s)
    case Dispatch(next) => Run(k.(ready := k.ready - multiset{next}), next)
    case Create(t, priority) =>
      k.(threads := k.threads[t := Thread(JustCreated, priority, [Frame(Begin, On, true)], {})])
  }

  /** The state Initialize leaves behind: one thread, nothing queued. */
  predicate Init(k: K) {
    && k.level == On && !k.sleeping
    && k.threads.Keys == {k.current}
    && k.threads[k.current].status == Running
    && k.threads[k.current].stack == [] && k.threads[k.current].held == {}
    && k.ready == multiset{} && k.queues == map[]
    && (forall s | s in k.sems :: k.sems[s] >= 0)
    && (forall l | l in k.locks :: k.locks[l] == Lock(true, None))
    && k.carcass == None && k.destroyed == {}
  }
}
