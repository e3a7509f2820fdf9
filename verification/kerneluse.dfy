/** Code that runs on the kernel's threads and keeps some locks, semaphores and
    conditions to itself.  Whatever the rest of the system does - other threads'
    routines, preemption, scheduling, device interrupts - leaves these alone. */
module KernelUse {
  import opened Options
  import opened Kernel
  import opened KernelInv
  import opened KernelRuns

  datatype Use = Use(locks: set<LockId>, sems: set<SemId>, conds: set<CondId>)

  /** The routine uses one of them. */
  predicate Mentions(call: Call, u: Use) {
    match call
    case P(s, _) => s in u.sems
    case V(s) => s in u.sems
    case Acquire(x, _) => x in u.locks
    case Release(x) => x in u.locks
    case Wait(y, x, _) => x in u.locks || y in u.conds
    case Signal(y, x) => x in u.locks || y in u.conds
    case Broadcast(y, x) => x in u.locks || y in u.conds
    case _ => false
  }

  /** The routine uses nothing else. */
  predicate OwnCall(call: Call, u: Use) {
    match call
    case P(s, _) => s in u.sems
    case V(s) => s in u.sems
    case Acquire(x, _) => x in u.locks
    case Release(x) => x in u.locks
    case Wait(y, x, _) => x in u.locks && y in u.conds
    case Signal(y, x) => x in u.locks && y in u.conds
    case Broadcast(y, x) => x in u.locks && y in u.conds
    case _ => false
  }

  predicate UsedQueue(q: Queue, u: Use) {
    match q
    case SemQueue(s) => s in u.sems
    case LockQueue(l) => l in u.locks
    case CondQueue(c) => c in u.conds
  }

  predicate Unrelated(st: seq<Frame>, u: Use) {
    forall i | 0 <= i < |st| :: !Mentions(st[i].call, u)
  }

  /** In no routine, unless preempted. */
  predicate AtUser(st: seq<Frame>) {
    st == [] || (|st| == 1 && st[0].call.Yield?)
  }

  /** A thread in the code is at it, or in a routine it called from there. */
  predicate InsiderOk(st: seq<Frame>, u: Use) {
    AtUser(st) || forall i | 0 <= i < |st| :: OwnCall(st[i].call, u)
  }

  /** `inside` are the threads in the code; no other uses what it uses. */
  ghost predicate Related(k: K, u: Use, inside: set<Tid>) {
    && (forall t | t in inside :: t in k.threads && InsiderOk(k.threads[t].stack, u))
    && (forall t | t in k.threads && t !in inside :: Unrelated(k.threads[t].stack, u))
  }

  /** A change of a thread that its code does not notice. */
  predicate Alike(th: Thread, th': Thread) {
    || (th'.stack == th.stack && (th'.status == Blocked <==> th.status == Blocked))
    || (AtUser(th.stack) && AtUser(th'.stack))
  }

  ghost predicate ThreadsUntouched(k: K, k': K, u: Use, inside: set<Tid>) {
    && (forall t | t in inside :: t in k.threads && t in k'.threads && Alike(k.threads[t], k'.threads[t]))
    && (forall t | t in k'.threads && t !in inside :: Unrelated(k'.threads[t].stack, u))
  }

  ghost predicate PartsUntouched(k: K, k': K, u: Use) {
    && (forall l | l in u.locks && l in k.locks :: l in k'.locks && k'.locks[l] == k.locks[l])
    && (forall s | s in u.sems && s in k.sems :: s in k'.sems && k'.sems[s] == k.sems[s])
    && (forall q | UsedQueue(q, u) :: Q(k', q) == Q(k, q))
  }

  ghost predicate Untouched(k: K, k': K, u: Use, inside: set<Tid>) {
    ThreadsUntouched(k, k', u, inside) && PartsUntouched(k, k', u)
  }

  /** The current thread is off the processor, or about to be. */
  ghost predicate Between(k: K) {
    && CurrentOk(k) && Cur(k).stack != [] && Shape(Cur(k).stack)
    && (Suspended(Top(Cur(k))) || Top(Cur(k)).call.Yield?)
  }

  /** The kernel went on, and the code cannot tell. */
  ghost predicate Foreign(k: K, k': K, u: Use, inside: set<Tid>) {
    && Untouched(k, k', u, inside)
    && (k'.current == k.current || (Between(k) && Between(k')))
  }

  /** The step is the code's: a call, a routine it called, or a device interrupt
      it waits for. */
  predicate Concerns(k: K, step: Step, u: Use, inside: set<Tid>)
    requires Enabled(k, step)
  {
    match step
    case Enter(call) => k.current in inside || Mentions(call, u)
    case Body => k.current in inside && !Top(Cur(k)).call.Yield?
    case Leave => k.current in inside && !Top(Cur(k)).call.Yield?
    case Tick(s) => s in u.sems
    case Idle(s) => s in u.sems
    case _ => false
  }

  // ---------- Changes that leave things alone ----------

  lemma UntouchedThrough(k: K, k1: K, k2: K, u: Use, inside: set<Tid>)
    requires Untouched(k, k1, u, inside) && Untouched(k1, k2, u, inside)
    ensures Untouched(k, k2, u, inside)
  {
    hide Unrelated, Q, AtUser;
  }

  lemma UntouchedRelated(k: K, k': K, u: Use, inside: set<Tid>)
    requires Related(k, u, inside) && Untouched(k, k', u, inside)
    ensures Related(k', u, inside)
  {
    hide Unrelated, PartsUntouched;
    forall t | t in inside
      ensures t in k'.threads && InsiderOk(k'.threads[t].stack, u)
    {
      assert InsiderOk(k.threads[t].stack, u);
    }
  }

  /** Only the current thread changes. */
  ghost predicate OnlyCurrent(k: K, k': K) {
    CurrentOk(k) && k'.current in k'.threads && k'.current == k.current && k'.threads == k.threads[k.current := Cur(k')]
  }

  lemma CurrentUntouched(k: K, k': K, u: Use, inside: set<Tid>)
    requires Related(k, u, inside) && OnlyCurrent(k, k') && PartsUntouched(k, k', u)
    requires if k.current in inside then Alike(Cur(k), Cur(k')) else Unrelated(Cur(k').stack, u)
    ensures Untouched(k, k', u, inside)
  {
    hide Unrelated, PartsUntouched, InsiderOk;
  }

  /** No thread changes. */
  lemma PartsOnly(k: K, k': K, u: Use, inside: set<Tid>)
    requires Related(k, u, inside) && k'.threads == k.threads && PartsUntouched(k, k', u)
    ensures Untouched(k, k', u, inside)
  {
    hide Unrelated, PartsUntouched, InsiderOk, AtUser;
  }

  /** One thread changes, in its status, and does not wake or fall asleep. */
  lemma StatusUntouched(k: K, k': K, u: Use, inside: set<Tid>, t: Tid, status: Status)
    requires Related(k, u, inside) && t in k.threads && k'.threads == k.threads[t := k.threads[t].(status := status)]
    requires PartsUntouched(k, k', u)
    requires t !in inside || (k.threads[t].status == Blocked <==> status == Blocked)
    ensures Untouched(k, k', u, inside)
  {
    hide Unrelated, PartsUntouched, InsiderOk, AtUser;
  }

  // ---------- Waking a thread on another queue ----------

  ghost predicate HeadWaits(k: K, q: Queue)
    requires Q(k, q) != []
  {
    var h := Q(k, q)[0];
    h in k.threads && k.threads[h].stack != [] && WaitsOn(Top(k.threads[h])) == Some(q)
  }

  lemma HeadsWait(k: K, q: Queue)
    requires Inv(k) && Q(k, q) != []
    ensures HeadWaits(k, q)
  {
    hide SchedulerOk, ThreadsOk, LocksOk, SemsOk, LockWakeups, WaitsOn;
    assert Q(k, q)[0] in Q(k, q);
  }

  lemma InsiderWaitsOnOwn(th: Thread, u: Use, q: Queue)
    requires InsiderOk(th.stack, u) && th.stack != [] && WaitsOn(Top(th)) == Some(q)
    ensures UsedQueue(q, u)
  {
  }

  lemma WakeUntouched(k: K, u: Use, inside: set<Tid>, q: Queue)
    requires Related(k, u, inside) && !UsedQueue(q, u) && QueueKnown(k, q) && (Q(k, q) != [] ==> HeadWaits(k, q))
    ensures Untouched(k, WakeOne(k, q), u, inside)
  {
    var k' := WakeOne(k, q);
    assert PartsUntouched(k, k', u) by { hide Related, UsedQueue; }
    hide Unrelated, PartsUntouched, WaitsOn, InsiderOk;
    if Q(k, q) == [] {
      PartsOnly(k, k', u, inside);
    } else {
      var h := Q(k, q)[0];
      if h in inside { InsiderWaitsOnOwn(k.threads[h], u, q); }
      StatusUntouched(k, k', u, inside, h, Ready);
    }
  }

  // ---------- Routines of other threads ----------

  /** A thread outside works in one of its routines. */
  ghost predicate Outsider(k: K, u: Use, inside: set<Tid>) {
    Related(k, u, inside) && BodyEnabled(k) && k.current !in inside
  }

  /** Its own part changes, and nothing the code uses. */
  ghost predicate LocalChange(k: K, k': K, u: Use) {
    OnlyCurrent(k, k') && PartsUntouched(k, k', u) && Unrelated(Cur(k').stack, u)
  }

  lemma LocalUntouched(k: K, k': K, u: Use, inside: set<Tid>)
    requires Outsider(k, u, inside) && LocalChange(k, k', u)
    ensures Untouched(k, k', u, inside)
  {
    hide BodyEnabled, Unrelated, PartsUntouched, OnlyCurrent, Related;
    CurrentUntouched(k, k', u, inside);
  }

  lemma OutsiderUnrelated(k: K, u: Use, inside: set<Tid>)
    requires Outsider(k, u, inside)
    ensures InRoutine(k) && Unrelated(Cur(k).stack, u) && !Mentions(Top(Cur(k)).call, u)
  {
    assert InRoutine(k);
    hide BodyEnabled, InsiderOk;
  }

  lemma TopUnrelated(st: seq<Frame>, f: Frame, u: Use)
    requires st != [] && Unrelated(st, u) && !Mentions(f.call, u)
    ensures Unrelated(st[|st| - 1 := f], u)
  {
  }

  lemma DoneLocal(k: K, u: Use)
    requires InRoutine(k) && Unrelated(Cur(k).stack, u) && !Mentions(Top(Cur(k)).call, u)
    ensures LocalChange(k, Done(k), u)
  {
    TopUnrelated(Cur(k).stack, Top(Cur(k)).(done := true), u);
    hide Unrelated, UsedQueue;
  }

  lemma PLocal(k: K, u: Use)
    requires BodyEnabled(k) && Top(Cur(k)).call.P?
    requires Unrelated(Cur(k).stack, u) && !Mentions(Top(Cur(k)).call, u)
    ensures LocalChange(k, DoBody(k), u)
  {
    TopUnrelated(Cur(k).stack, Top(Cur(k)).(done := true), u);
    TopUnrelated(Cur(k).stack, Top(Cur(k)).(call := P(Top(Cur(k)).call.s, true)), u);
    hide Unrelated;
  }

  lemma AcquireLocal(k: K, u: Use)
    requires BodyEnabled(k) && Top(Cur(k)).call.Acquire?
    requires Unrelated(Cur(k).stack, u) && !Mentions(Top(Cur(k)).call, u)
    ensures LocalChange(k, DoBody(k), u)
  {
    TopUnrelated(Cur(k).stack, Top(Cur(k)).(done := true), u);
    TopUnrelated(Cur(k).stack, Top(Cur(k)).(call := Acquire(Top(Cur(k)).call.l, true)), u);
    hide Unrelated;
  }

  lemma WaitLocal(k: K, u: Use)
    requires BodyEnabled(k) && Top(Cur(k)).call.Wait?
    requires Unrelated(Cur(k).stack, u) && !Mentions(Top(Cur(k)).call, u)
    ensures LocalChange(k, DoBody(k), u)
  {
    var c, l := Top(Cur(k)).call.c, Top(Cur(k)).call.l;
    var st, f := Cur(k).stack, Top(Cur(k));
    if f.call.stage == Releasing {
      TopUnrelated(st, f.(call := Wait(c, l, Queueing)), u);
      PushUnrelated(st[|st| - 1 := f.(call := Wait(c, l, Queueing))], Frame(Release(l), k.level, false), u);
    } else if f.call.stage == Queueing {
      TopUnrelated(st, f.(call := Wait(c, l, Asleep)), u);
    } else if f.call.stage == Asleep {
      TopUnrelated(st, f.(call := Wait(c, l, Reacquiring)), u);
      PushUnrelated(st[|st| - 1 := f.(call := Wait(c, l, Reacquiring))], Frame(Acquire(l, false), k.level, false), u);
    } else {
      TopUnrelated(st, f.(done := true), u);
    }
    hide Unrelated;
  }

  lemma PushUnrelated(st: seq<Frame>, f: Frame, u: Use)
    requires Unrelated(st, u) && !Mentions(f.call, u)
    ensures Unrelated(st + [f], u)
  {
  }

  lemma FinishLocal(k: K, u: Use)
    requires BodyEnabled(k) && Top(Cur(k)).call.Finish?
    requires Unrelated(Cur(k).stack, u)
    ensures LocalChange(k, DoBody(k), u)
  {
    hide Unrelated, UsedQueue;
  }

  /** Who waits at the head of a queue still does when the current thread has
      changed its own part. */
  lemma HeadStaysWaiting(k: K, k1: K, q: Queue)
    requires Inv(k) && !k.sleeping && OnlyCurrent(k, k1) && Q(k1, q) == Q(k, q)
    ensures QueueKnown(k, q) ==> QueueKnown(k1, q)
    ensures Q(k1, q) != [] ==> HeadWaits(k1, q)
  {
    CurrentIsNotQueued(k, q);
    if Q(k, q) != [] { HeadsWait(k, q); }
    hide Inv, WaitsOn;
  }

  /** A routine that changes its own part, then wakes the head of a queue, then
      changes parts that are not the code's. */
  lemma ThenWakes(k: K, k1: K, q: Queue, k': K, u: Use, inside: set<Tid>)
    requires Inv(k) && Outsider(k, u, inside) && LocalChange(k, k1, u) && Q(k1, q) == Q(k, q)
    requires !UsedQueue(q, u) && QueueKnown(k, q) && QueueKnown(k1, q)
    requires k'.threads == WakeOne(k1, q).threads && PartsUntouched(WakeOne(k1, q), k', u)
    ensures Untouched(k, k', u, inside)
  {
    assert !k.sleeping;
    hide Inv, BodyEnabled, Unrelated, PartsUntouched, Related, WakeOne;
    HeadStaysWaiting(k, k1, q);
    LocalUntouched(k, k1, u, inside);
    UntouchedRelated(k, k1, u, inside);
    WakeUntouched(k1, u, inside, q);
    UntouchedThrough(k, k1, WakeOne(k1, q), u, inside);
    UntouchedRelated(k, WakeOne(k1, q), u, inside);
    PartsOnly(WakeOne(k1, q), k', u, inside);
    UntouchedThrough(k, WakeOne(k1, q), k', u, inside);
  }

  /** What a routine that wakes does, in three parts. */
  ghost predicate InThreeParts(k: K, k1: K, q: Queue, k': K, u: Use) {
    && LocalChange(k, k1, u) && Q(k1, q) == Q(k, q) && !UsedQueue(q, u) && QueueKnown(k, q) && QueueKnown(k1, q)
    && k'.threads == WakeOne(k1, q).threads && PartsUntouched(WakeOne(k1, q), k', u)
  }

  lemma WakingUntouched(k: K, k1: K, q: Queue, u: Use, inside: set<Tid>)
    requires Inv(k) && Outsider(k, u, inside) && InThreeParts(k, k1, q, DoBody(k), u)
    ensures Untouched(k, DoBody(k), u, inside)
  {
    assert BodyEnabled(k);
    hide Inv, Outsider, LocalChange, Untouched, PartsUntouched, DoBody, WakeOne;
    ThenWakes(k, k1, q, DoBody(k), u, inside);
  }

  lemma VInParts(k: K, u: Use)
    requires BodyEnabled(k) && Top(Cur(k)).call.V? && Unrelated(Cur(k).stack, u) && !Mentions(Top(Cur(k)).call, u)
    ensures InThreeParts(k, Done(k), SemQueue(Top(Cur(k)).call.s), DoBody(k), u)
  {
    DoneLocal(k, u);
    hide LocalChange, Unrelated;
  }

  lemma ReleaseInParts(k: K, u: Use, k1: K)
    requires BodyEnabled(k) && Top(Cur(k)).call.Release? && Unrelated(Cur(k).stack, u) && !Mentions(Top(Cur(k)).call, u)
    requires k1 == SetCur(k, WithTop(Cur(k), Top(Cur(k)).(done := true)).(held := Cur(k).held - {Top(Cur(k)).call.l}))
    ensures InThreeParts(k, k1, LockQueue(Top(Cur(k)).call.l), DoBody(k), u)
  {
    TopUnrelated(Cur(k).stack, Top(Cur(k)).(done := true), u);
    hide Unrelated;
  }

  lemma VUntouched(k: K, u: Use, inside: set<Tid>)
    requires Inv(k) && Outsider(k, u, inside) && Top(Cur(k)).call.V?
    ensures Untouched(k, DoBody(k), u, inside)
  {
    OutsiderUnrelated(k, u, inside);
    assert BodyEnabled(k);
    hide Inv, Outsider, InThreeParts, Untouched, DoBody, Mentions;
    VInParts(k, u);
    WakingUntouched(k, Done(k), SemQueue(Top(Cur(k)).call.s), u, inside);
  }

  lemma ReleaseUntouched(k: K, u: Use, inside: set<Tid>)
    requires Inv(k) && Outsider(k, u, inside) && Top(Cur(k)).call.Release?
    ensures Untouched(k, DoBody(k), u, inside)
  {
    OutsiderUnrelated(k, u, inside);
    assert BodyEnabled(k);
    hide Inv, Outsider, InThreeParts, Untouched, DoBody, Mentions;
    var k1 := SetCur(k, WithTop(Cur(k), Top(Cur(k)).(done := true)).(held := Cur(k).held - {Top(Cur(k)).call.l}));
    ReleaseInParts(k, u, k1);
    WakingUntouched(k, k1, LockQueue(Top(Cur(k)).call.l), u, inside);
  }

  lemma SignalInParts(k: K, u: Use)
    requires BodyEnabled(k) && Top(Cur(k)).call.Signal? && Unrelated(Cur(k).stack, u) && !Mentions(Top(Cur(k)).call, u)
    ensures InThreeParts(k, Done(k), CondQueue(Top(Cur(k)).call.c), DoBody(k), u)
  {
    DoneLocal(k, u);
    hide LocalChange, Unrelated;
  }

  lemma SignalUntouched(k: K, u: Use, inside: set<Tid>)
    requires Inv(k) && Outsider(k, u, inside) && Top(Cur(k)).call.Signal?
    ensures Untouched(k, DoBody(k), u, inside)
  {
    OutsiderUnrelated(k, u, inside);
    assert BodyEnabled(k);
    hide Inv, Outsider, InThreeParts, Untouched, DoBody, Mentions;
    SignalInParts(k, u);
    WakingUntouched(k, Done(k), CondQueue(Top(Cur(k)).call.c), u, inside);
  }

  lemma BroadcastUntouched(k: K, u: Use, inside: set<Tid>)
    requires Inv(k) && Outsider(k, u, inside) && Top(Cur(k)).call.Broadcast?
    ensures Untouched(k, DoBody(k), u, inside)
  {
    var q := CondQueue(Top(Cur(k)).call.c);
    OutsiderUnrelated(k, u, inside);
    assert BodyEnabled(k) && Related(k, u, inside) && QueueKnown(k, q) && !UsedQueue(q, u);
    hide Inv, Outsider, Untouched, Mentions, Related;
    if Q(k, q) == [] {
      DoneLocal(k, u);
      hide LocalChange, Unrelated;
      LocalUntouched(k, Done(k), u, inside);
    } else {
      HeadsWait(k, q);
      hide HeadWaits;
      WakeUntouched(k, u, inside, q);
    }
  }

  lemma ForkInParts(k: K, u: Use)
    requires BodyEnabled(k) && Top(Cur(k)).call.Fork?
    ensures var t, k1, k' := Top(Cur(k)).call.child, Done(k), DoBody(k);
            t in k1.threads && k'.threads == k1.threads[t := k1.threads[t].(status := Ready)] && PartsUntouched(k1, k', u)
  {
    hide UsedQueue;
  }

  lemma ForkUntouched(k: K, u: Use, inside: set<Tid>)
    requires Inv(k) && Outsider(k, u, inside) && Top(Cur(k)).call.Fork?
    ensures Untouched(k, DoBody(k), u, inside)
  {
    var t := Top(Cur(k)).call.child;
    OutsiderUnrelated(k, u, inside);
    assert BodyEnabled(k) && Related(k, u, inside);
    hide Inv, Outsider, Untouched, Mentions, Related, BodyEnabled, PartsUntouched, LocalChange, Unrelated;
    ForkFacts(k);
    ForkInParts(k, u);
    DoneLocal(k, u);
    LocalUntouched(k, Done(k), u, inside);
    UntouchedRelated(k, Done(k), u, inside);
    StatusUntouched(Done(k), DoBody(k), u, inside, t, Ready);
    UntouchedThrough(k, Done(k), DoBody(k), u, inside);
  }

  lemma ForkFacts(k: K)
    requires Inv(k) && BodyEnabled(k) && Top(Cur(k)).call.Fork?
    ensures var t := Top(Cur(k)).call.child;
            t in k.threads && k.threads[t].status != Blocked && Cur(k).status != Blocked
  {
    CurrentFactsHold(k);
    hide Inv;
  }

  /** No routine of a thread outside is noticed. */
  lemma OutsiderBody(k: K, u: Use, inside: set<Tid>)
    requires Inv(k) && Outsider(k, u, inside)
    ensures Untouched(k, DoBody(k), u, inside)
  {
    OutsiderUnrelated(k, u, inside);
    match Top(Cur(k)).call
    case V(_) => VUntouched(k, u, inside);
    case Release(_) => ReleaseUntouched(k, u, inside);
    case Signal(_, _) => SignalUntouched(k, u, inside);
    case Broadcast(_, _) => BroadcastUntouched(k, u, inside);
    case Fork(_) => ForkUntouched(k, u, inside);
    case _ => QuietBody(k, u, inside);
  }

  lemma QuietBody(k: K, u: Use, inside: set<Tid>)
    requires Outsider(k, u, inside)
    requires var c := Top(Cur(k)).call; !c.V? && !c.Release? && !c.Signal? && !c.Broadcast? && !c.Fork?
    ensures Untouched(k, DoBody(k), u, inside)
  {
    OutsiderUnrelated(k, u, inside);
    QuietLocal(k, u);
    hide BodyEnabled, DoBody, Related, LocalChange;
    LocalUntouched(k, DoBody(k), u, inside);
  }

  lemma QuietLocal(k: K, u: Use)
    requires BodyEnabled(k) && Unrelated(Cur(k).stack, u) && !Mentions(Top(Cur(k)).call, u)
    requires var c := Top(Cur(k)).call; !c.V? && !c.Release? && !c.Signal? && !c.Broadcast? && !c.Fork?
    ensures LocalChange(k, DoBody(k), u)
  {
    hide LocalChange, Unrelated, Mentions;
    match Top(Cur(k)).call
    case P(_, _) => PLocal(k, u);
    case Acquire(_, _) => AcquireLocal(k, u);
    case Wait(_, _, _) => WaitLocal(k, u);
    case Finish => FinishLocal(k, u);
    case Yield => DoneLocal(k, u);
  }

  // ---------- Every step that is not the code's ----------

  /** A thread is preempted, returns or yields without a switch: it is not in the
      code's routines before or after. */
  lemma EnterUntouched(k: K, call: Call, u: Use, inside: set<Tid>)
    requires Related(k, u, inside) && CurrentOk(k) && Cur(k).stack == [] && !Mentions(call, u)
    requires k.current !in inside || call.Yield?
    ensures Untouched(k, Push(k, call), u, inside)
  {
    var k' := Push(k, call);
    assert Cur(k').stack == [Frame(call, k.level, false)];
    assert PartsUntouched(k, k', u) by { hide UsedQueue; }
    hide Related, PartsUntouched;
    CurrentUntouched(k, k', u, inside);
  }

  /** The kernel state after a Leave. */
  function Left(k: K): K
    requires InRoutine(k)
  {
    var n := |Cur(k).stack| - 1;
    SetCur(k, Cur(k).(stack := Cur(k).stack[..n])).(level := Cur(k).stack[n].saved)
  }

  /** At the top of an insider's stack Yield is alone. */
  lemma InsiderYields(st: seq<Frame>, u: Use)
    requires InsiderOk(st, u) && st != [] && st[|st| - 1].call.Yield?
    ensures AtUser(st)
  {
  }

  lemma LeaveUntouched(k: K, u: Use, inside: set<Tid>)
    requires Related(k, u, inside) && InRoutine(k) && (k.current !in inside || Top(Cur(k)).call.Yield?)
    ensures Untouched(k, Left(k), u, inside)
  {
    var k' := Left(k);
    if k.current in inside {
      InsiderYields(Cur(k).stack, u);
      assert Cur(k').stack == [];
    }
    assert PartsUntouched(k, k', u) by { hide UsedQueue, Related; }
    assert k.current !in inside ==> Unrelated(Cur(k').stack, u);
    hide Related, PartsUntouched, Unrelated;
    CurrentUntouched(k, k', u, inside);
  }

  lemma YieldBodyUntouched(k: K, u: Use, inside: set<Tid>)
    requires Related(k, u, inside) && InRoutine(k) && Top(Cur(k)).call.Yield? && k.current in inside
    ensures Untouched(k, Done(k), u, inside)
  {
    InsiderYields(Cur(k).stack, u);
    assert PartsUntouched(k, Done(k), u) by { hide UsedQueue, Related; }
    hide Related, PartsUntouched;
    CurrentUntouched(k, Done(k), u, inside);
  }

  lemma VParts(k: K, s: SemId, u: Use)
    requires s in k.sems && s !in u.sems && QueueKnown(k, SemQueue(s))
    ensures var k1, k' := WakeOne(k, SemQueue(s)), PerformV(k, s);
            k'.threads == k1.threads && PartsUntouched(k1, k', u)
  {
  }

  lemma InterruptUntouched(k: K, s: SemId, u: Use, inside: set<Tid>)
    requires Inv(k) && Related(k, u, inside) && s in k.sems && s !in u.sems && QueueKnown(k, SemQueue(s))
    ensures Untouched(k, PerformV(k, s), u, inside)
  {
    hide Inv, Related, HeadWaits, Untouched, PerformV, WakeOne, PartsUntouched;
    var k1 := WakeOne(k, SemQueue(s));
    if Q(k, SemQueue(s)) != [] { HeadsWait(k, SemQueue(s)); }
    WakeUntouched(k, u, inside, SemQueue(s));
    UntouchedRelated(k, k1, u, inside);
    VParts(k, s, u);
    PartsOnly(k1, PerformV(k, s), u, inside);
    UntouchedThrough(k, k1, PerformV(k, s), u, inside);
  }

  lemma CreateUntouched(k: K, t: Tid, priority: int, u: Use, inside: set<Tid>)
    requires Related(k, u, inside) && t !in k.threads && Enabled(k, Create(t, priority))
    ensures Untouched(k, Apply(k, Create(t, priority)), u, inside)
  {
    var k' := Apply(k, Create(t, priority));
    assert k'.threads[t].stack == [Frame(Begin, On, true)];
    hide InsiderOk, AtUser, UsedQueue;
  }

  /** A ready thread gets the processor. */
  lemma RunUntouched(k: K, next: Tid, u: Use, inside: set<Tid>)
    requires Related(k, u, inside) && next in k.threads && k.threads[next].status == Ready
    ensures Untouched(k, Run(k, next), u, inside)
  {
    assert PartsUntouched(k, Run(k, next), u) by { hide UsedQueue, Related; }
    hide Related, PartsUntouched;
    StatusUntouched(k, Run(k, next), u, inside, next, Running);
  }

  lemma ReadyIsBetween(k: K, next: Tid, k': K)
    requires Inv(k) && MayRunNext(k, next) && CurrentOk(k') && k'.current == next
    requires k'.threads[next].stack == k.threads[next].stack
    ensures k.threads[next].status == Ready && Between(k')
  {
    hide QueuesOk, LocksOk, SemsOk, LockWakeups, Ownership, Suspended, Shape, WaitsOn;
    assert ThreadOk(k, next);
  }

  lemma SleeperIsBetween(k: K)
    requires Inv(k) && k.sleeping
    ensures Between(k)
  {
    hide QueuesOk, LocksOk, SemsOk, LockWakeups, Ownership, Suspended, Shape, WaitsOn;
    assert ThreadOk(k, k.current);
  }

  lemma YielderIsBetween(k: K)
    requires Inv(k) && InRoutine(k) && Top(Cur(k)).call.Yield?
    ensures Between(k) && Cur(k).status == Running
  {
    CurrentFactsHold(k);
    hide Inv, Suspended, Shape, Ownership, WaitsOn;
  }

  lemma DispatchForeign(k: K, next: Tid, u: Use, inside: set<Tid>)
    requires Inv(k) && Related(k, u, inside) && k.sleeping && MayRunNext(k, next)
    ensures Foreign(k, Run(k.(ready := k.ready - multiset{next}), next), u, inside)
  {
    var k1 := k.(ready := k.ready - multiset{next});
    hide Inv, Related, Between;
    SleeperIsBetween(k);
    ReadyIsBetween(k, next, Run(k1, next));
    assert PartsUntouched(k, k1, u) by { hide UsedQueue; }
    hide PartsUntouched;
    PartsOnly(k, k1, u, inside);
    UntouchedRelated(k, k1, u, inside);
    RunUntouched(k1, next, u, inside);
    UntouchedThrough(k, k1, Run(k1, next), u, inside);
  }

  /** The yielding thread goes on the ready list. */
  function Aside(k: K, next: Tid): K
    requires InRoutine(k)
  {
    ReadyToRun(Done(k).(ready := k.ready - multiset{next}), k.current)
  }

  lemma AsideUntouched(k: K, next: Tid, u: Use, inside: set<Tid>)
    requires Related(k, u, inside) && InRoutine(k) && Top(Cur(k)).call.Yield? && Cur(k).status == Running
    ensures Untouched(k, Aside(k, next), u, inside)
  {
    var k' := Aside(k, next);
    if k.current in inside { InsiderYields(Cur(k).stack, u); }
    assert Cur(k').stack == Cur(k).stack[|Cur(k).stack| - 1 := Top(Cur(k)).(done := true)];
    assert k.current !in inside ==> Unrelated(Cur(k').stack, u);
    assert PartsUntouched(k, k', u) by { hide UsedQueue, Related, Unrelated; }
    hide Related, PartsUntouched, Unrelated;
    CurrentUntouched(k, k', u, inside);
  }

  lemma YieldToForeign(k: K, next: Tid, u: Use, inside: set<Tid>)
    requires Inv(k) && Related(k, u, inside) && InRoutine(k) && Top(Cur(k)).call.Yield? && MayRunNext(k, next)
    ensures Foreign(k, Run(Aside(k, next), next), u, inside)
  {
    var k1 := Aside(k, next);
    YielderIsBetween(k);
    NextIsOther(k, next);
    hide Inv, Related, Between;
    ReadyIsBetween(k, next, Run(k1, next));
    AsideUntouched(k, next, u, inside);
    hide Untouched;
    UntouchedRelated(k, k1, u, inside);
    RunUntouched(k1, next, u, inside);
    UntouchedThrough(k, k1, Run(k1, next), u, inside);
  }

  lemma NextIsOther(k: K, next: Tid)
    requires Inv(k) && !k.sleeping && MayRunNext(k, next)
    ensures next != k.current
  {
    hide QueuesOk, LocksOk, SemsOk, LockWakeups, Ownership, Suspended, Shape, WaitsOn;
    assert ThreadOk(k, next);
  }

  lemma PreemptFacts(k: K)
    requires Inv(k) && k.level == On && !k.sleeping
    ensures CurrentOk(k) && Cur(k).stack == []
  {
    hide ThreadsOk, QueuesOk, LocksOk, LockWakeups, SemsOk;
  }

  lemma SameCurrent(k: K, step: Step)
    requires Enabled(k, step) && !step.Dispatch? && !step.YieldTo?
    ensures Apply(k, step).current == k.current
  {
    if step.Body? { BodyReapsNobody(k); }
    hide BodyEnabled, DoBody;
  }

  /** The frame theorem of the kernel: a step that is not the code's leaves what
      it uses, and where its threads are, as they were. */
  lemma OtherStep(k: K, step: Step, u: Use, inside: set<Tid>)
    requires Inv(k) && Related(k, u, inside) && Enabled(k, step) && !Concerns(k, step, u, inside)
    ensures Foreign(k, Apply(k, step), u, inside) && Related(Apply(k, step), u, inside)
  {
    OtherStepForeign(k, step, u, inside);
    hide Related, Inv, Enabled, Apply, Untouched;
    UntouchedRelated(k, Apply(k, step), u, inside);
  }

  lemma OtherStepForeign(k: K, step: Step, u: Use, inside: set<Tid>)
    requires Inv(k) && Related(k, u, inside) && Enabled(k, step) && !Concerns(k, step, u, inside)
    ensures Foreign(k, Apply(k, step), u, inside)
  {
    hide Inv, Related, Untouched, DoBody, BodyEnabled, Between, Run, PerformV;
    if step.Preempt? { PreemptFacts(k); }
    if !step.Dispatch? && !step.YieldTo? { SameCurrent(k, step); }
    match step
    case Enter(call) => EnterUntouched(k, call, u, inside);
    case Body => BodyUntouched(k, u, inside);
    case YieldTo(next) => YieldToForeign(k, next, u, inside);
    case Leave => LeaveUntouched(k, u, inside);
    case Preempt => EnterUntouched(k, Yield, u, inside);
    case SetLevel(now) => LevelUntouched(k, now, u, inside);
    case Tick(s) => InterruptUntouched(k, s, u, inside);
    case Idle(s) => InterruptUntouched(k, s, u, inside);
    case Dispatch(next) => DispatchForeign(k, next, u, inside);
    case Create(t, priority) => CreateUntouched(k, t, priority, u, inside);
  }

  lemma LevelUntouched(k: K, now: Level, u: Use, inside: set<Tid>)
    requires Related(k, u, inside)
    ensures Untouched(k, k.(level := now), u, inside)
  {
    assert PartsUntouched(k, k.(level := now), u) by { hide UsedQueue, Related; }
    hide Related, PartsUntouched;
    PartsOnly(k, k.(level := now), u, inside);
  }

  lemma YieldBodyIsDone(k: K)
    requires BodyEnabled(k)
    ensures InRoutine(k) && (Top(Cur(k)).call.Yield? ==> DoBody(k) == Done(k))
  {
  }

  lemma BodyUntouched(k: K, u: Use, inside: set<Tid>)
    requires Inv(k) && Related(k, u, inside) && BodyEnabled(k) && (k.current in inside ==> Top(Cur(k)).call.Yield?)
    ensures Untouched(k, DoBody(k), u, inside)
  {
    YieldBodyIsDone(k);
    hide Inv, Related, Untouched, DoBody, BodyEnabled;
    if k.current in inside {
      YieldBodyUntouched(k, u, inside);
    } else {
      OutsiderBody(k, u, inside);
    }
  }

  // ---------- What the code's own routines find ----------

  function StackOf(k: K, t: Tid): seq<Frame> {
    if t in k.threads then k.threads[t].stack else []
  }

  lemma StackShape(k: K, t: Tid)
    requires Inv(k) && t in k.threads
    ensures Shape(k.threads[t].stack)
  {
    hide Shape, Ownership, Suspended, WaitsOn;
    assert ThreadOk(k, t);
  }

  /** The first thread of a queue is asleep on it. */
  ghost predicate HeadOk(k: K, q: Queue)
    requires Q(k, q) != []
  {
    var h := Q(k, q)[0];
    && h in k.threads && (!k.sleeping ==> h != k.current)
    && Shape(k.threads[h].stack) && k.threads[h].stack != []
    && k.threads[h].status == Blocked && WaitsOn(Top(k.threads[h])) == Some(q)
  }

  ghost predicate HeadsOk(k: K) {
    forall q | Q(k, q) != [] :: HeadOk(k, q)
  }

  lemma HeadsHold(k: K)
    requires Inv(k)
    ensures HeadsOk(k)
  {
    forall q | Q(k, q) != []
      ensures HeadOk(k, q)
    {
      HeadHolds(k, q);
    }
  }

  lemma HeadHolds(k: K, q: Queue)
    requires Inv(k) && Q(k, q) != []
    ensures HeadOk(k, q)
  {
    hide Inv, Shape, WaitsOn;
    QueuedSleeps(k, q, Q(k, q)[0]);
  }

  /** Release up to waking the first waiter. */
  function Freed(k: K, l: LockId): K
    requires InRoutine(k)
  {
    SetCur(k, WithTop(Cur(k), Top(Cur(k)).(done := true)).(held := Cur(k).held - {l}))
    .(locks := k.locks[l := Lock(true, None)])
  }

  lemma ReleaseFreesThenWakes(k: K, l: LockId)
    requires InRoutine(k) && l in k.locks && QueueKnown(k, LockQueue(l))
    ensures QueueKnown(Freed(k, l), LockQueue(l)) && ReleaseBody(k, l) == WakeOne(Freed(k, l), LockQueue(l))
  {
  }

  /** Making a semaphore keeps the invariant. */
  lemma NewSemaphore(k: K, s: SemId)
    requires Inv(k) && s !in k.sems
    ensures Inv(k.(sems := k.sems[s := 0]))
  {
    var k' := k.(sems := k.sems[s := 0]);
    hide Gone, ThreadOk, SemOk, LockWakeup;
    forall t | t in k.threads
      ensures ThreadOk(k', t)
    {
      NewSemThread(k, s, t);
    }
    forall x | x in k'.sems
      ensures SemOk(k', x)
    {
      NewSemSem(k, s, x);
    }
    forall l | l in k.locks
      ensures LockWakeup(k', l)
    {
      NewSemLock(k, s, l);
    }
    NewSemRest(k, s);
    hide SchedulerOk, QueuesOk, LocksOk;
  }

  lemma NewSemRest(k: K, s: SemId)
    requires SchedulerOk(k) && QueuesOk(k) && LocksOk(k)
    ensures var k' := k.(sems := k.sems[s := 0]); SchedulerOk(k') && QueuesOk(k') && LocksOk(k')
  {
    var k' := k.(sems := k.sems[s := 0]);
    hide WaitsOn;
    forall q, t | t in Q(k', q)
      ensures t in k'.threads && k'.threads[t].status == Blocked && k'.threads[t].stack != []
              && WaitsOn(Top(k'.threads[t])) == Some(q)
    {
      assert t in Q(k, q);
    }
    forall q, i, j | 0 <= i < j < |Q(k', q)|
      ensures Q(k', q)[i] != Q(k', q)[j]
    {
      assert Q(k, q)[i] != Q(k, q)[j];
    }
  }

  lemma NewSemThread(k: K, s: SemId, t: Tid)
    requires t in k.threads && ThreadOk(k, t)
    ensures ThreadOk(k.(sems := k.sems[s := 0]), t)
  {
    hide Shape, Suspended, WaitsOn;
  }

  lemma NewSemSem(k: K, s: SemId, x: SemId)
    requires x == s || (x in k.sems && SemOk(k, x))
    ensures SemOk(k.(sems := k.sems[s := 0]), x)
  {
    assert WokenSet(k.(sems := k.sems[s := 0]), SemQueue(x)) == WokenSet(k, SemQueue(x)) by { hide Woken; }
    hide WokenSet;
  }

  lemma NewSemLock(k: K, s: SemId, l: LockId)
    requires l in k.locks && LockWakeup(k, l)
    ensures LockWakeup(k.(sems := k.sems[s := 0]), l)
  {
    assert WokenSet(k.(sems := k.sems[s := 0]), LockQueue(l)) == WokenSet(k, LockQueue(l)) by { hide Woken; }
    hide WokenSet;
  }
}
