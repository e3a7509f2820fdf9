/** The kernel routines SynchList calls, at work: each is one step of SynchLists, or
    none. */
module MonitorCalls {
  import opened Options
  import opened Kernel
  import KernelInv
  import opened KernelUse
  import S = SynchLists
  import opened Monitors
  import opened MonitorUnseen

  // ---------- SynchList's calls of kernel routines ----------

  /** The current thread is in a routine that is not SynchList's. */
  predicate Foreigner<T>(m: M<T>)
    requires InRoutine(m.k)
  {
    m.k.current !in InsideOf(m) || Top(Cur(m.k)).call.Yield?
  }

  /** What the invariants say about the current thread and the heads of queues. */
  ghost predicate Facts<T>(m: M<T>) {
    && PointsOk(m) && WaitersOk(m) && m.l in m.k.locks && InRoutine(m.k)
    && HeadsOk(m.k)
  }

  lemma FactsHold<T>(m: M<T>)
    requires KernelInv.Inv(m.k) && PointsOk(m) && WaitersOk(m) && m.l in m.k.locks && InRoutine(m.k)
    ensures Facts(m)
  {
    HeadsHold(m.k);
    hide KernelInv.Inv, PointsOk, WaitersOk, HeadsOk;
  }

  /** Waiters other than `t`, and `t` itself, found the list empty. */
  lemma WaitersAfter<T>(m: M<T>, m': M<T>, t: Tid)
    requires WaitersOk(m) && m'.list == m.list && t in m.at && m'.at == m.at
    requires t in m.k.threads && t in m'.k.threads && m'.k.threads == m.k.threads[t := m'.k.threads[t]]
    requires var st := m'.k.threads[t].stack;
             m.at[t].InWait? && st != [] && st[0].call.Wait? && st[0].call.stage != Reacquiring && PcOf(m', t).Testing?
             ==> m.list == []
    ensures WaitersOk(m')
  {
    hide PcAt;
  }

  /** The current thread is in a routine that SynchList called. */
  ghost predicate OwnCall<T>(m: M<T>) {
    Facts(m) && OwnFrames(m)
  }

  lemma OwnCallHolds<T>(m: M<T>)
    requires KernelInv.Inv(m.k) && PointsOk(m) && WaitersOk(m) && m.l in m.k.locks && InRoutine(m.k) && !Foreigner(m)
    ensures OwnCall(m)
  {
    FactsHold(m);
    KernelInv.CurrentFactsHold(m.k);
    hide KernelInv.Inv, WaitersOk, HeadOk, KernelInv.Shape;
    assert PointOk(m.at[m.k.current], StackOf(m.k, m.k.current), m.l, m.c);
  }

  /** Returning from it is not seen. */
  lemma OwnLeaveUnseen<T>(m: M<T>)
    requires OwnCall(m) && Top(Cur(m.k)).done
    ensures Unseen(m, Left(m.k))
  {
    var t, m' := m.k.current, m.(k := Left(m.k));
    hide HeadOk, PointsOk, WaitersOk, Unrelated;
    OwnLeavePc(m);
    OthersStay(m, m', t);
    PcMoves(m, m', t);
    PointsStay(m, m', t);
    WaitersAfter(m, m', t);
    hide Facts, PcOf, PcAt, InWindow;
    assert Meaning(m').pc == Meaning(m).pc;
  }

  /** What a thread's point and stack say in a routine SynchList called. */
  ghost predicate OwnFrames<T>(m: M<T>) {
    && InRoutine(m.k) && m.k.current in m.at && !Foreigner(m) && Cur(m.k).status == Running
    && KernelInv.Shape(Cur(m.k).stack) && PointOk(m.at[m.k.current], Cur(m.k).stack, m.l, m.c)
  }

  lemma OwnLeavePc<T>(m: M<T>)
    requires OwnFrames(m) && Top(Cur(m.k)).done
    ensures var m' := m.(k := Left(m.k));
            && PcOf(m', m.k.current) == PcOf(m, m.k.current)
            && PointOk(m.at[m.k.current], Cur(m'.k).stack, m.l, m.c)
            && (InWindow(m) <==> InWindow(m'))
            && (var st := Cur(m'.k).stack;
                m.at[m.k.current].InWait? && st != [] && st[0].call.Wait? && st[0].call.stage != Reacquiring ==>
                !PcOf(m', m.k.current).Testing?)
  {
    var st, st' := Cur(m.k).stack, Cur(Left(m.k)).stack;
    assert |st| == 1 ==> st' == [];
    if |st| == 2 {
      assert m.at[m.k.current].InWait?;
      assert st' == [st[0]] && st[1].done;
    }
  }

  /** The waiting condition of the current thread, after a change. */
  ghost predicate CurWaiterOk<T>(m: M<T>, k': K)
    requires m.k.current in m.at && m.k.current in k'.threads
  {
    var st := k'.threads[m.k.current].stack;
    (m.at[m.k.current].InWait? && st != [] && st[0].call.Wait? && st[0].call.stage != Reacquiring
     && PcOf(m.(k := k'), m.k.current).Testing?) ==> m.list == []
  }

  /** The current thread alone changes; its point stays in order. */
  ghost predicate OwnChange<T>(m: M<T>, k': K) {
    && OwnFrames(m) && m.l in m.k.locks && m.l in k'.locks
    && k'.current == m.k.current && k'.current in k'.threads && k'.threads == m.k.threads[m.k.current := Cur(k')]
    && PointOk(m.at[m.k.current], Cur(k').stack, m.l, m.c) && CurWaiterOk(m, k')
  }

  lemma OwnChanges<T>(m: M<T>, k': K)
    requires OwnChange(m, k') && PointsOk(m) && WaitersOk(m)
    ensures var m' := m.(k := k');
            && Meaning(m').pc == Meaning(m).pc[m.k.current := PcOf(m', m.k.current)]
            && PointsOk(m') && WaitersOk(m')
  {
    var m' := m.(k := k');
    hide PcAt, PointsOk, WaitersOk, PointOk, Meaning, KernelInv.Shape, Foreigner;
    OthersStay(m, m', m.k.current);
    PcMoves(m, m', m.k.current);
    PointsStay(m, m', m.k.current);
    WaitersAfter(m, m', m.k.current);
  }

  /** The step is the one SynchLists takes. */
  ghost predicate Goes<T>(m: M<T>, k': K) {
    && m.l in m.k.locks && m.l in k'.locks
    && S.Enabled(Meaning(m), S.Go(m.k.current)) && Meaning(m.(k := k')) == S.Apply(Meaning(m), S.Go(m.k.current))
    && PointsOk(m.(k := k')) && WaitersOk(m.(k := k'))
  }

  // Acquire, called by Append or Remove, or by Wait on the way back

  /** The current thread is about to test the lock. */
  ghost predicate Acquiring<T>(m: M<T>, op: S.Op<T>, s: bool) {
    && OwnFrames(m) && Top(Cur(m.k)).call.Acquire? && Top(Cur(m.k)).call.l == m.l && !Top(Cur(m.k)).done
    && PcOf(m, m.k.current) == S.Acquiring(op, s)
  }

  lemma AcquireLocal<T>(m: M<T>, op: S.Op<T>, s: bool)
    requires Acquiring(m, op, s) && m.l in m.k.locks
    ensures var k' := AcquireBody(m.k, m.l);
            && OwnChange(m, k') && !InWindow(m) && !InWindow(m.(k := k'))
            && PcOf(m.(k := k'), m.k.current) ==
               if !m.k.locks[m.l].available then S.LockQueued(op, s)
               else if op.Append? then S.ReadToAppend(op.x) else S.Testing(s)
  {
  }

  lemma AcquireGoes<T>(m: M<T>, op: S.Op<T>, s: bool)
    requires Acquiring(m, op, s) && m.l in m.k.locks && PointsOk(m) && WaitersOk(m)
    ensures Goes(m, AcquireBody(m.k, m.l))
  {
    var k' := AcquireBody(m.k, m.l);
    AcquireLocal(m, op, s);
    OwnChanges(m, k');
    hide PcOf, InWindow, PointsOk, WaitersOk, OwnChange, OwnFrames;
    assert m.k.current in Meaning(m).pc && Meaning(m).pc[m.k.current] == S.Acquiring(op, s);
  }

  // Waking the head of the lock's or the condition's queue

  lemma HeadWakes<T>(m: M<T>, q: Queue, h: Tid)
    requires PointsOk(m) && WaitersOk(m) && m.l in m.k.locks && QueueKnown(m.k, q)
    requires Q(m.k, q) != [] && h == Q(m.k, q)[0] && h in m.at
    requires !PcAt(m.at[h], m.k.threads[h].(status := Ready)).Testing?
    ensures var m' := m.(k := WakeOne(m.k, q));
            && Meaning(m').pc == Meaning(m).pc[h := PcAt(m.at[h], m.k.threads[h].(status := Ready))]
            && PointsOk(m') && WaitersOk(m') && (InWindow(m') <==> InWindow(m))
  {
    var k' := WakeOne(m.k, q);
    var m' := m.(k := k');
    assert k'.threads == m.k.threads[h := m.k.threads[h].(status := Ready)];
    assert InWindow(m') <==> InWindow(m) by { hide PcAt, PointsOk, WaitersOk; }
    hide PcAt, PointsOk, WaitersOk, InWindow, Meaning;
    assert PointOk(m.at[h], StackOf(m.k, h), m.l, m.c) by { HeadPoint(m, h); }
    OthersStay(m, m', h);
    PcMoves(m, m', h);
    PointsStay(m, m', h);
    WaitersAfter(m, m', h);
  }

  lemma HeadPoint<T>(m: M<T>, h: Tid)
    requires PointsOk(m) && h in m.at
    ensures PointOk(m.at[h], StackOf(m.k, h), m.l, m.c)
  {
  }

  /** Who waits for the lock is in SynchList, and goes back to test it. */
  lemma LockHead<T>(m: M<T>, h: Tid)
    requires PointsOk(m) && h in m.k.threads && m.k.threads[h].stack != [] && m.k.threads[h].status == Blocked
    requires KernelInv.Shape(m.k.threads[h].stack)
    requires KernelInv.WaitsOn(Top(m.k.threads[h])) == Some(LockQueue(m.l))
    ensures h in m.at && PcOf(m, h).LockQueued?
    ensures PcAt(m.at[h], m.k.threads[h].(status := Ready)) == S.Acquiring(PcOf(m, h).op, PcOf(m, h).signalled)
  {
    if h in m.at { assert PointOk(m.at[h], StackOf(m.k, h), m.l, m.c); }
  }

  /** Who waits for the condition is in SynchList's Wait. */
  lemma CondHead<T>(m: M<T>, h: Tid)
    requires PointsOk(m) && h in m.k.threads && m.k.threads[h].stack != [] && m.k.threads[h].status == Blocked
    requires KernelInv.Shape(m.k.threads[h].stack)
    requires KernelInv.WaitsOn(Top(m.k.threads[h])) == Some(CondQueue(m.c))
    ensures h in m.at && PcOf(m, h) == S.CondQueued
    ensures PcAt(m.at[h], m.k.threads[h].(status := Ready)) == S.Acquiring(S.Remove, true)
  {
    if h in m.at { assert PointOk(m.at[h], StackOf(m.k, h), m.l, m.c); }
  }

  // Release, called at the end or by Wait

  /** The current thread is about to release the lock. */
  ghost predicate ReleasesNow<T>(m: M<T>) {
    && OwnFrames(m) && m.l in m.k.locks && Top(Cur(m.k)).call == Release(m.l) && !Top(Cur(m.k)).done
    && (m.at[m.k.current].InRelease? || (m.at[m.k.current].InWait? && |Cur(m.k).stack| == 2))
  }

  lemma FreedLocal<T>(m: M<T>)
    requires ReleasesNow(m)
    ensures var m1 := m.(k := Freed(m.k, m.l));
            && OwnChange(m, m1.k) && !InWindow(m)
            && if m.at[m.k.current].InRelease? then
                 PcOf(m, m.k.current) == S.Releasing && PcOf(m1, m.k.current) == S.Outside && !InWindow(m1)
               else PcOf(m, m.k.current).Testing? && PcOf(m1, m.k.current) == S.CondQueued && InWindow(m1)
  {
  }

  lemma FreedMeans<T>(m: M<T>)
    requires ReleasesNow(m) && PointsOk(m) && WaitersOk(m)
    ensures var m1 := m.(k := Freed(m.k, m.l));
            && PointsOk(m1) && WaitersOk(m1)
            && Meaning(m1) == S.At(Meaning(m), m.k.current, PcOf(m1, m.k.current))
                              .(available := true, owner := None,
                                condQueue := Meaning(m).condQueue
                                             + if m.at[m.k.current].InWait? then [m.k.current] else [])
  {
    FreedLocal(m);
    OwnChanges(m, Freed(m.k, m.l));
    assert Freed(m.k, m.l).queues == m.k.queues;
    hide PcOf, InWindow, PointsOk, WaitersOk, OwnChange, OwnFrames;
  }

  /** And then the first waiter, if any, tests again. */
  lemma UnlockWakes<T>(m: M<T>, h: Tid)
    requires PointsOk(m) && WaitersOk(m) && m.l in m.k.locks && QueueKnown(m.k, LockQueue(m.l))
    requires Q(m.k, LockQueue(m.l)) != [] && h == Q(m.k, LockQueue(m.l))[0] && HeadOk(m.k, LockQueue(m.l))
    ensures var m' := m.(k := WakeOne(m.k, LockQueue(m.l)));
            && h in m.at && PcOf(m, h).LockQueued? && PointsOk(m') && WaitersOk(m')
            && Meaning(m') == Meaning(m).(pc := Meaning(m).pc[h := S.Acquiring(PcOf(m, h).op, PcOf(m, h).signalled)],
                                          lockQueue := Q(m.k, LockQueue(m.l))[1..])
  {
    var q := LockQueue(m.l);
    LockHead(m, h);
    HeadWakes(m, q, h);
    hide PcOf, PcAt, InWindow, PointsOk, WaitersOk, KernelInv.Shape, KernelInv.WaitsOn;
    assert WakeOne(m.k, q).queues == m.k.queues[q := Q(m.k, q)[1..]];
  }

  /** What SynchLists makes of a release, with the thread left at `p`. */
  function AfterUnlock<T>(a: S.L<T>, t: Tid, p: S.Pc<T>, queued: bool): S.L<T> {
    S.At(S.Unlocked(a), t, p).(condQueue := a.condQueue + if queued then [t] else [])
  }

  lemma FreedHead<T>(m: M<T>, h: Tid)
    requires ReleasesNow(m) && Facts(m) && Q(m.k, LockQueue(m.l)) != [] && h == Q(m.k, LockQueue(m.l))[0]
    ensures HeadOk(Freed(m.k, m.l), LockQueue(m.l)) && h != m.k.current
    ensures h in m.at ==> PcOf(m.(k := Freed(m.k, m.l)), h) == PcOf(m, h)
  {
    hide PcAt, PointsOk, WaitersOk, OwnFrames, KernelInv.Shape, KernelInv.WaitsOn;
    assert HeadOk(m.k, LockQueue(m.l));
  }

  /** Waking the first waiter before or after the thread moves is the same. */
  lemma UnlockCommutes<T>(a: S.L<T>, a1: S.L<T>, t: Tid, p: S.Pc<T>, queued: bool, h: Tid, op: S.Op<T>, s: bool)
    requires a.lockQueue != [] && h == a.lockQueue[0] != t && h in a.pc && a.pc[h] == S.LockQueued(op, s)
    requires a1 == S.At(a, t, p).(available := true, owner := None, condQueue := a.condQueue + if queued then [t] else [])
    ensures a1.(pc := a1.pc[h := S.Acquiring(op, s)], lockQueue := a.lockQueue[1..]) == AfterUnlock(a, t, p, queued)
  {
    assert a.pc[t := p][h := S.Acquiring(op, s)] == a.pc[h := S.Acquiring(op, s)][t := p];
  }

  lemma ReleaseMeans<T>(m: M<T>)
    requires ReleasesNow(m) && Facts(m) && QueueKnown(m.k, LockQueue(m.l))
    ensures var m' := m.(k := ReleaseBody(m.k, m.l));
            && PointsOk(m') && WaitersOk(m')
            && Meaning(m') == AfterUnlock(Meaning(m), m.k.current, PcOf(m.(k := Freed(m.k, m.l)), m.k.current),
                                          m.at[m.k.current].InWait?)
  {
    var t, q := m.k.current, LockQueue(m.l);
    var m1 := m.(k := Freed(m.k, m.l));
    FreedMeans(m);
    ReleaseFreesThenWakes(m.k, m.l);
    assert Q(m1.k, q) == Q(m.k, q) by { hide Facts, ReleasesNow; }
    if Q(m.k, q) == [] {
      hide Facts, HeadOk, PcOf, InWindow, PointsOk, WaitersOk, OwnFrames, Freed;
    } else {
      var h := Q(m.k, q)[0];
      FreedHead(m, h);
      hide Facts, HeadOk, PcOf, InWindow, PointsOk, WaitersOk, OwnFrames, Freed;
      UnlockWakes(m1, h);
      UnlockCommutes(Meaning(m), Meaning(m1), t, PcOf(m1, t), m.at[t].InWait?, h, PcOf(m, h).op, PcOf(m, h).signalled);
    }
  }

  lemma UnlockApplies<T>(a: S.L<T>, t: Tid, p: S.Pc<T>, queued: bool)
    requires t in a.pc
    requires if queued then a.pc[t].Testing? && a.list == [] && p == S.CondQueued
             else a.pc[t] == S.Releasing && p == S.Outside
    ensures S.Enabled(a, S.Go(t)) && S.Apply(a, S.Go(t)) == AfterUnlock(a, t, p, queued)
  {
  }

  lemma ReleaseGoes<T>(m: M<T>)
    requires ReleasesNow(m) && Facts(m) && QueueKnown(m.k, LockQueue(m.l))
    ensures Goes(m, ReleaseBody(m.k, m.l))
  {
    assert m.l in m.k.locks && m.k.current in m.at && WaitersOk(m);
    assert m.l in ReleaseBody(m.k, m.l).locks;
    MeaningAt(m, m.k.current);
    hide Facts, PcOf, InWindow, PointsOk, WaitersOk, OwnFrames, OwnChange, Freed, ReleaseBody, Meaning, AfterUnlock;
    ReleaseMeans(m);
    FreedLocal(m);
    if m.at[m.k.current].InWait? { WaiterFoundEmpty(m); }
    UnlockApplies(Meaning(m), m.k.current, PcOf(m.(k := Freed(m.k, m.l)), m.k.current), m.at[m.k.current].InWait?);
  }

  lemma MeaningAt<T>(m: M<T>, t: Tid)
    requires m.l in m.k.locks && t in m.at
    ensures t in Meaning(m).pc && Meaning(m).pc[t] == PcOf(m, t) && Meaning(m).list == m.list
  {
  }

  lemma WaiterFoundEmpty<T>(m: M<T>)
    requires ReleasesNow(m) && WaitersOk(m) && m.at[m.k.current].InWait?
    ensures m.list == []
  {
    FreedLocal(m);
    hide PcOf, InWindow, OwnChange, Freed;
    assert StackOf(m.k, m.k.current)[0].call.stage == Queueing;
  }

  // Signal

  ghost predicate SignalsNow<T>(m: M<T>) {
    && OwnFrames(m) && m.l in m.k.locks && m.at[m.k.current].InSignal? && Top(Cur(m.k)).call == Signal(m.c, m.l)
    && !Top(Cur(m.k)).done
  }

  lemma SignalLocal<T>(m: M<T>)
    requires SignalsNow(m)
    ensures var m1 := m.(k := Done(m.k));
            && OwnChange(m, m1.k) && !InWindow(m) && !InWindow(m1)
            && PcOf(m, m.k.current) == S.Signalling && PcOf(m1, m.k.current) == S.Releasing
  {
  }

  lemma SignalDone<T>(m: M<T>)
    requires SignalsNow(m) && PointsOk(m) && WaitersOk(m)
    ensures var m1 := m.(k := Done(m.k));
            PointsOk(m1) && WaitersOk(m1) && Meaning(m1) == S.At(Meaning(m), m.k.current, S.Releasing)
  {
    SignalLocal(m);
    OwnChanges(m, Done(m.k));
    assert Done(m.k).queues == m.k.queues && Done(m.k).locks == m.k.locks;
    hide PcOf, InWindow, PointsOk, WaitersOk, OwnChange, OwnFrames;
  }

  lemma SignalHead<T>(m: M<T>, h: Tid)
    requires SignalsNow(m) && Facts(m) && Q(m.k, CondQueue(m.c)) != [] && h == Q(m.k, CondQueue(m.c))[0]
    ensures HeadOk(Done(m.k), CondQueue(m.c)) && h != m.k.current
  {
    hide PcAt, PointsOk, WaitersOk, OwnFrames, KernelInv.Shape, KernelInv.WaitsOn;
    assert HeadOk(m.k, CondQueue(m.c));
  }

  lemma SignalWakes<T>(m: M<T>, h: Tid)
    requires PointsOk(m) && WaitersOk(m) && m.l in m.k.locks && QueueKnown(m.k, CondQueue(m.c)) && !InWindow(m)
    requires Q(m.k, CondQueue(m.c)) != [] && h == Q(m.k, CondQueue(m.c))[0] && HeadOk(m.k, CondQueue(m.c))
    ensures var m' := m.(k := WakeOne(m.k, CondQueue(m.c)));
            && PointsOk(m') && WaitersOk(m')
            && Meaning(m') == Meaning(m).(pc := Meaning(m).pc[h := S.Acquiring(S.Remove, true)],
                                          condQueue := Q(m.k, CondQueue(m.c))[1..])
  {
    var q := CondQueue(m.c);
    CondHead(m, h);
    HeadWakes(m, q, h);
    hide PcOf, PcAt, InWindow, PointsOk, WaitersOk, KernelInv.Shape, KernelInv.WaitsOn;
    assert WakeOne(m.k, q).queues == m.k.queues[q := Q(m.k, q)[1..]];
  }

  lemma SignalCommutes<T>(a: S.L<T>, t: Tid, h: Tid)
    requires a.condQueue != [] && h == a.condQueue[0] != t
    ensures var a1 := S.At(a, t, S.Releasing);
            a1.(pc := a1.pc[h := S.Acquiring(S.Remove, true)], condQueue := a.condQueue[1..])
            == S.At(S.Signalled(a), t, S.Releasing)
  {
    assert a.pc[t := S.Releasing][h := S.Acquiring(S.Remove, true)] == a.pc[h := S.Acquiring(S.Remove, true)][t := S.Releasing];
  }

  lemma SignalGoes<T>(m: M<T>)
    requires SignalsNow(m) && Facts(m) && QueueKnown(m.k, CondQueue(m.c))
    ensures QueueKnown(Done(m.k), CondQueue(m.c)) && Goes(m, WakeOne(Done(m.k), CondQueue(m.c)))
  {
    var t, q := m.k.current, CondQueue(m.c);
    var m1 := m.(k := Done(m.k));
    SignalLocal(m);
    SignalDone(m);
    assert Q(m1.k, q) == Q(m.k, q) && QueueKnown(m1.k, q) by { hide Facts, SignalsNow; }
    assert t in Meaning(m).pc && Meaning(m).pc[t] == S.Signalling;
    assert Meaning(m).condQueue == Q(m.k, q);
    if Q(m.k, q) == [] {
      hide Facts, HeadOk, PcOf, InWindow, PointsOk, WaitersOk, OwnFrames, OwnChange, Done;
    } else {
      var h := Q(m.k, q)[0];
      SignalHead(m, h);
      hide Facts, HeadOk, PcOf, InWindow, PointsOk, WaitersOk, OwnFrames, OwnChange, Done;
      SignalWakes(m1, h);
      SignalCommutes(Meaning(m), t, h);
    }
  }

  // Wait, apart from the calls it makes

  /** Wait itself is at work. */
  ghost predicate WaitsNow<T>(m: M<T>) {
    && OwnFrames(m) && m.l in m.k.locks && m.at[m.k.current].InWait? && |Cur(m.k).stack| == 1
    && Top(Cur(m.k)).call.Wait? && !Top(Cur(m.k)).done
  }

  /** What WaitBody leaves alone, and the thread's place. */
  ghost predicate WaitKeeps<T>(m: M<T>, k': K) {
    && OwnChange(m, k') && PcOf(m.(k := k'), m.k.current) == PcOf(m, m.k.current)
    && Q(k', LockQueue(m.l)) == Q(m.k, LockQueue(m.l)) && k'.locks == m.k.locks
    && !InWindow(m.(k := k'))
    && Q(k', CondQueue(m.c)) == Q(m.k, CondQueue(m.c)) + if InWindow(m) then [m.k.current] else []
  }

  lemma WaitReleases<T>(m: M<T>)
    requires WaitsNow(m) && Top(Cur(m.k)).call.stage == Releasing && (PcOf(m, m.k.current).Testing? ==> m.list == [])
    ensures WaitKeeps(m, WaitBody(m.k, m.c, m.l, Releasing))
  {
  }

  lemma WaitQueues<T>(m: M<T>)
    requires WaitsNow(m) && Top(Cur(m.k)).call.stage == Queueing
    ensures WaitKeeps(m, WaitBody(m.k, m.c, m.l, Queueing))
  {
  }

  lemma WaitReacquires<T>(m: M<T>)
    requires WaitsNow(m) && Top(Cur(m.k)).call.stage == Asleep
    ensures WaitKeeps(m, WaitBody(m.k, m.c, m.l, Asleep))
  {
  }

  lemma WaitEnds<T>(m: M<T>)
    requires WaitsNow(m) && Top(Cur(m.k)).call.stage == Reacquiring
    ensures WaitKeeps(m, WaitBody(m.k, m.c, m.l, Reacquiring))
  {
  }

  lemma WaitLocal<T>(m: M<T>, k': K)
    requires WaitsNow(m) && WaitersOk(m)
    requires k' == WaitBody(m.k, m.c, m.l, Top(Cur(m.k)).call.stage)
    ensures WaitKeeps(m, k')
  {
    assert StackOf(m.k, m.k.current) == Cur(m.k).stack;
    hide WaitBody, WaitKeeps, PcOf, OwnFrames;
    match Top(Cur(m.k)).call.stage
    case Releasing => WaitReleases(m);
    case Queueing => WaitQueues(m);
    case Asleep => WaitReacquires(m);
    case Reacquiring => WaitEnds(m);
  }

  lemma WaitUnseen<T>(m: M<T>, k': K)
    requires WaitsNow(m) && PointsOk(m) && WaitersOk(m)
    requires k' == WaitBody(m.k, m.c, m.l, Top(Cur(m.k)).call.stage)
    ensures Unseen(m, k')
  {
    WaitLocal(m, k');
    assert m.l in m.k.locks && m.k.current in m.at;
    hide PcOf, InWindow, PointsOk, WaitersOk, OwnChange, OwnFrames, WaitBody;
    OwnChanges(m, k');
    assert Meaning(m.(k := k')).pc == Meaning(m).pc;
  }

  /** A routine SynchList called works: seen, or not, as Seen says. */
  lemma OwnBody<T>(m: M<T>)
    requires Facts(m) && OwnFrames(m) && BodyEnabled(m.k)
    ensures if SeenBody(m.at[m.k.current], Cur(m.k).stack) then Goes(m, DoBody(m.k)) else Unseen(m, DoBody(m.k))
  {
    OwnBodyKind(m);
    assert PointsOk(m) && WaitersOk(m) && m.l in m.k.locks;
    hide Facts, OwnFrames, PointsOk, WaitersOk, Goes, Unseen, PcOf;
    match m.at[m.k.current]
    case InAcquire(op) => AcquireGoes(m, op, false);
    case InSignal => SignalGoes(m);
    case InRelease => ReleaseGoes(m);
    case InWait(_) =>
      if |Cur(m.k).stack| == 1 {
        WaitUnseen(m, DoBody(m.k));
      } else if Top(Cur(m.k)).call.Release? {
        ReleaseGoes(m);
      } else {
        AcquireGoes(m, S.Remove, true);
      }
    case _ =>
  }

  lemma OwnBodyKind<T>(m: M<T>)
    requires m.l in m.k.locks && OwnFrames(m) && BodyEnabled(m.k)
    ensures match m.at[m.k.current]
            case InAcquire(op) =>
              Cur(m.k).stack[0].call.Acquire? && Acquiring(m, op, false) && DoBody(m.k) == AcquireBody(m.k, m.l)
            case InSignal =>
              && Cur(m.k).stack[0].call.Signal? && SignalsNow(m) && QueueKnown(m.k, CondQueue(m.c))
              && QueueKnown(Done(m.k), CondQueue(m.c)) && DoBody(m.k) == WakeOne(Done(m.k), CondQueue(m.c))
            case InRelease =>
              && Cur(m.k).stack[0].call.Release? && ReleasesNow(m) && QueueKnown(m.k, LockQueue(m.l))
              && DoBody(m.k) == ReleaseBody(m.k, m.l)
            case InWait(_) =>
              && Cur(m.k).stack[0].call.Wait? && |Cur(m.k).stack| <= 2
              && (if |Cur(m.k).stack| == 1 then
                    WaitsNow(m) && DoBody(m.k) == WaitBody(m.k, m.c, m.l, Top(Cur(m.k)).call.stage)
                  else if Top(Cur(m.k)).call.Release? then
                    ReleasesNow(m) && QueueKnown(m.k, LockQueue(m.l)) && DoBody(m.k) == ReleaseBody(m.k, m.l)
                  else Acquiring(m, S.Remove, true) && DoBody(m.k) == AcquireBody(m.k, m.l))
            case _ => false
  {
  }
}
