/** Every run of SynchDisk on the kernel is a run of SynchDisks. */
module DiskMonitorRuns {
  import opened Options
  import opened Kernel
  import KernelInv
  import KernelRuns
  import opened KernelUse
  import S = SynchDisks
  import opened DiskMonitors

  // ---------- Waking the first thread of the lock's or the semaphore's queue ----------

  predicate OwnQueue<T>(m: M<T>, q: Queue) {
    q == LockQueue(m.l) || q == SemQueue(m.s)
  }

  /** Who waits there is in SynchDisk, and goes back to test. */
  lemma HeadIsIn<T>(m: M<T>, q: Queue)
    requires PointsOk(m) && OwnQueue(m, q) && Q(m.k, q) != [] && HeadOk(m.k, q)
    ensures var h := Q(m.k, q)[0];
            && h in m.at && PointOk(m.at[h], m.k.threads[h].stack, m.l, m.s)
            && (if q.LockQueue? then PcOf(m, h).LockQueued? else PcOf(m, h).SemQueued?)
            && PcAt(m.at[h], m.k.threads[h].(status := Ready)) ==
               if q.LockQueue? then S.Acquiring(PcOf(m, h).r) else S.Waiting(PcOf(m, h).r)
  {
    var h := Q(m.k, q)[0];
    var st := m.k.threads[h].stack;
    assert st[|st| - 1] == Top(m.k.threads[h]);
    if h in m.at { assert PointOk(m.at[h], StackOf(m.k, h), m.l, m.s); }
  }

  lemma HeadWakes<T>(m: M<T>, q: Queue)
    requires Known(m) && PointsOk(m) && OwnQueue(m, q) && QueueKnown(m.k, q) && (Q(m.k, q) != [] ==> HeadOk(m.k, q))
    ensures Q(m.k, q) == [] || (Q(m.k, q)[0] in Pcs(m) && !Pcs(m)[Q(m.k, q)[0]].Outside?)
    ensures var m' := m.(k := WakeOne(m.k, q)); PointsOk(m') && Pcs(m') == S.Wake(Pcs(m), Q(m.k, q))
  {
    var m' := m.(k := WakeOne(m.k, q));
    if Q(m.k, q) != [] {
      var h := Q(m.k, q)[0];
      HeadIsIn(m, q);
      assert m'.k.threads == m.k.threads[h := m.k.threads[h].(status := Ready)];
      hide PcAt, PointsOk, PointOk, HeadOk;
      OneMoves(m, m', h);
    } else {
      assert m' == m;
    }
  }

  // ---------- The routines SynchDisk calls, at work ----------

  /** The current thread is in a routine that SynchDisk called. */
  ghost predicate OwnRoutine<T>(m: M<T>) {
    && InRoutine(m.k) && m.k.current in m.at && Cur(m.k).status == Running
    && PointOk(m.at[m.k.current], Cur(m.k).stack, m.l, m.s)
    && !m.at[m.k.current].Elsewhere? && !Top(Cur(m.k)).call.Yield?
  }

  lemma OwnRoutineHolds<T>(m: M<T>)
    requires MInv(m) && InRoutine(m.k) && m.k.current in InsideOf(m) && !Top(Cur(m.k)).call.Yield?
    ensures OwnRoutine(m)
  {
    KernelInv.CurrentFactsHold(m.k);
    hide KernelInv.Inv;
    assert PointOk(m.at[m.k.current], StackOf(m.k, m.k.current), m.l, m.s);
  }

  lemma AcquireMeans<T>(m: M<T>)
    requires Known(m) && PointsOk(m) && OwnRoutine(m) && m.at[m.k.current].InAcquire? && !Top(Cur(m.k)).done
    ensures Means(m, Some(S.TryLock(m.k.current)), m.(k := AcquireBody(m.k, m.l)))
  {
    var m', t := m.(k := AcquireBody(m.k, m.l)), m.k.current;
    var r := m.at[t].r;
    assert PcOf(m, t) == S.Acquiring(r);
    assert PcOf(m', t) == if m.k.locks[m.l].available then S.Locked(r) else S.LockQueued(r);
    assert OneChanges(m, m', t);
    hide PointsOk, PcOf, OneChanges, OwnRoutine;
    OneMoves(m, m', t);
  }

  lemma PMeans<T>(m: M<T>)
    requires Known(m) && PointsOk(m) && OwnRoutine(m) && m.at[m.k.current].InP? && !Top(Cur(m.k)).done
    ensures Means(m, Some(S.TryP(m.k.current)), m.(k := PBody(m.k, m.s)))
  {
    var m', t := m.(k := PBody(m.k, m.s)), m.k.current;
    var r := m.at[t].r;
    assert PcOf(m, t) == S.Waiting(r);
    assert PcOf(m', t) == if m.k.sems[m.s] == 0 then S.SemQueued(r) else S.Served(r);
    assert OneChanges(m, m', t);
    hide PointsOk, PcOf, OneChanges, OwnRoutine;
    OneMoves(m, m', t);
  }

  /** Release, up to waking the first waiter. */
  lemma FreedMoves<T>(m: M<T>)
    requires Known(m) && PointsOk(m) && OwnRoutine(m) && m.at[m.k.current].InRelease? && !Top(Cur(m.k)).done
    ensures var m1 := m.(k := Freed(m.k, m.l));
            && PointsOk(m1) && PcOf(m, m.k.current).Served? && Pcs(m1) == Pcs(m)[m.k.current := S.Outside]
  {
    var m1 := m.(k := Freed(m.k, m.l));
    assert PcOf(m1, m.k.current) == S.Outside;
    assert OneChanges(m, m1, m.k.current);
    hide PointsOk, PcOf, OneChanges;
    OneMoves(m, m1, m.k.current);
  }

  lemma ReleaseMoves<T>(m: M<T>)
    requires Known(m) && PointsOk(m) && OwnRoutine(m) && m.at[m.k.current].InRelease? && !Top(Cur(m.k)).done
    requires HeadsOk(m.k) && QueueKnown(m.k, LockQueue(m.l))
    ensures var m', q := m.(k := ReleaseBody(m.k, m.l)), Q(m.k, LockQueue(m.l));
            && PointsOk(m') && (q == [] || (q[0] in Pcs(m) && !Pcs(m)[q[0]].Outside?))
            && Pcs(m)[m.k.current].Served? && Pcs(m') == S.Wake(Pcs(m), q)[m.k.current := S.Outside]
  {
    var t, q := m.k.current, LockQueue(m.l);
    var m1 := m.(k := Freed(m.k, m.l));
    FreedMoves(m);
    ReleaseFreesThenWakes(m.k, m.l);
    FreedHead(m.k, m.l);
    assert Pcs(m)[t] == PcOf(m, t);
    hide PointsOk, HeadOk, HeadsOk, OwnRoutine, PcOf, Pcs, Freed, WakeOne;
    HeadWakes(m, q);
    HeadWakes(m1, q);
    WakeCommutes(Pcs(m), Q(m.k, q), t);
  }

  lemma ReleaseMeans<T>(m: M<T>)
    requires Known(m) && PointsOk(m) && OwnRoutine(m) && m.at[m.k.current].InRelease? && !Top(Cur(m.k)).done
    requires HeadsOk(m.k) && QueueKnown(m.k, LockQueue(m.l))
    ensures Means(m, Some(S.Unlock(m.k.current)), m.(k := ReleaseBody(m.k, m.l)))
  {
    assert m.k.current in Pcs(m) by { hide PointsOk, HeadsOk, PcOf; }
    hide PointsOk, HeadsOk, S.Wake, Pcs, OwnRoutine, ReleaseBody, Q;
    ReleaseMoves(m);
    ReleaseParts(m.k, m.l, m.s);
  }

  lemma ReleaseParts(k: K, l: LockId, s: SemId)
    requires InRoutine(k) && l in k.locks && QueueKnown(k, LockQueue(l))
    ensures var k' := ReleaseBody(k, l);
            && k'.locks == k.locks[l := Lock(true, None)] && k'.sems == k.sems
            && Q(k', LockQueue(l)) == S.Rest(Q(k, LockQueue(l))) && Q(k', SemQueue(s)) == Q(k, SemQueue(s))
  {
  }

  lemma FreedHead(k: K, l: LockId)
    requires InRoutine(k) && l in k.locks && HeadsOk(k)
    ensures Q(Freed(k, l), LockQueue(l)) == Q(k, LockQueue(l))
    ensures var q := Q(k, LockQueue(l));
            q != [] ==> HeadOk(k, LockQueue(l)) && HeadOk(Freed(k, l), LockQueue(l)) && q[0] != k.current
  {
    hide KernelInv.Shape, KernelInv.WaitsOn;
    if Q(k, LockQueue(l)) != [] { assert HeadOk(k, LockQueue(l)); }
  }

  /** Waking the first waiter before or after the thread moves is the same. */
  lemma WakeCommutes<T>(pc: map<Tid, S.Pc<T>>, q: seq<Tid>, t: Tid)
    requires q == [] || (q[0] in pc && !pc[q[0]].Outside? && q[0] != t)
    ensures S.Wake(pc[t := S.Outside], q) == S.Wake(pc, q)[t := S.Outside]
  {
  }

  /** Returning from a routine is not seen. */
  lemma LeaveMeans<T>(m: M<T>)
    requires Known(m) && PointsOk(m) && OwnRoutine(m) && Top(Cur(m.k)).done
    ensures Means(m, None, m.(k := Left(m.k)))
  {
    var m', t := m.(k := Left(m.k)), m.k.current;
    assert Cur(m'.k).stack == [];
    assert PcOf(m', t) == PcOf(m, t);
    assert OneChanges(m, m', t);
    hide PointsOk, PcOf, OneChanges, OwnRoutine;
    OneMoves(m, m', t);
    assert Pcs(m') == Pcs(m);
  }

  lemma BodyMeans<T>(m: M<T>)
    requires MInv(m) && BodyEnabled(m.k) && OwnRoutine(m)
    ensures Means(m, SeenBody(m.at[m.k.current], Cur(m.k).stack, m.k.current), m.(k := DoBody(m.k)))
  {
    HeadsHold(m.k);
    OwnBodyKind(m);
    hide KernelInv.Inv, PointsOk, OwnRoutine, HeadsOk, Means, AcquireBody, PBody, ReleaseBody;
    match m.at[m.k.current]
    case InAcquire(_) => AcquireMeans(m);
    case InP(_) => PMeans(m);
    case InRelease(_) => ReleaseMeans(m);
    case _ =>
  }

  lemma OwnBodyKind<T>(m: M<T>)
    requires BodyEnabled(m.k) && OwnRoutine(m) && Known(m)
    ensures match m.at[m.k.current]
            case InAcquire(_) =>
              Cur(m.k).stack[0].call.Acquire? && !Top(Cur(m.k)).done && DoBody(m.k) == AcquireBody(m.k, m.l)
            case InP(_) => Cur(m.k).stack[0].call.P? && !Top(Cur(m.k)).done && DoBody(m.k) == PBody(m.k, m.s)
            case InRelease(_) =>
              && Cur(m.k).stack[0].call.Release? && !Top(Cur(m.k)).done && QueueKnown(m.k, LockQueue(m.l))
              && DoBody(m.k) == ReleaseBody(m.k, m.l)
            case _ => false
  {
  }

  lemma InterruptMoves<T>(m: M<T>, m': M<T>)
    requires MInv(m) && QueueKnown(m.k, SemQueue(m.s))
    requires m'.k == PerformV(m.k, m.s) && m'.l == m.l && m'.s == m.s && m'.at == m.at
    ensures var q := Q(m.k, SemQueue(m.s));
            && PointsOk(m') && (q == [] || (q[0] in Pcs(m) && !Pcs(m)[q[0]].Outside?))
            && Pcs(m') == S.Wake(Pcs(m), q)
  {
    var q := SemQueue(m.s);
    HeadsHold(m.k);
    hide KernelInv.Inv, PointsOk, HeadOk, Pcs, S.Wake;
    HeadWakes(m, q);
    SameThreads(m.(k := WakeOne(m.k, q)), m');
  }

  /** The disk interrupt is the step SynchDisks takes. */
  lemma InterruptMeans<T>(m: M<T>, i: nat)
    requires MInv(m) && MEnabled(m, Interrupt(i))
    ensures Means(m, Some(S.Interrupt(i)), MApply(m, Interrupt(i)))
  {
    assert Known(m) by { hide KernelInv.Inv, PointsOk, MEnabled; }
    hide MApply, MEnabled, MInv, PointsOk, Pcs, S.Wake, PerformV, Q;
    InterruptParts(m, i);
    InterruptMoves(m, MApply(m, Interrupt(i)));
  }

  lemma InterruptParts<T>(m: M<T>, i: nat)
    requires Known(m) && MEnabled(m, Interrupt(i))
    ensures i < |m.io.interrupts| && QueueKnown(m.k, SemQueue(m.s))
    ensures var m' := MApply(m, Interrupt(i));
            && m' == m.(k := PerformV(m.k, m.s), io := Happened(m.io, i))
            && m'.k.locks == m.k.locks && m'.k.sems == m.k.sems[m.s := m.k.sems[m.s] + 1]
            && Q(m'.k, LockQueue(m.l)) == Q(m.k, LockQueue(m.l))
            && Q(m'.k, SemQueue(m.s)) == S.Rest(Q(m.k, SemQueue(m.s)))
  {
  }

  lemma SameThreads<T>(m: M<T>, m': M<T>)
    requires m'.l == m.l && m'.s == m.s && m'.at == m.at && m'.k.threads == m.k.threads && PointsOk(m)
    ensures PointsOk(m') && Pcs(m') == Pcs(m)
  {
    hide PcAt, PointOk, Unrelated;
    assert forall t | t in m.at :: PcOf(m', t) == PcOf(m, t);
  }

  // ---------- Every step, and every run ----------

  lemma OthersBodyUnseen<T>(m: M<T>)
    requires PointsOk(m) && InRoutine(m.k) && m.k.current in m.at
    requires m.k.current !in InsideOf(m) || Top(Cur(m.k)).call.Yield?
    ensures SeenBody(m.at[m.k.current], Cur(m.k).stack, m.k.current) == None
  {
    assert PointOk(m.at[m.k.current], StackOf(m.k, m.k.current), m.l, m.s);
  }

  lemma KernMeans<T>(m: M<T>, s: Step)
    requires MInv(m) && MEnabled(m, Kern(s)) && !s.Enter?
    ensures Means(m, Seen(m, Kern(s)), MApply(m, Kern(s)))
  {
    hide KernelInv.Inv, PointsOk, Means, SeenBody, DoBody;
    if Concerns(m.k, s, UseOf(m), InsideOf(m)) {
      OwnRoutineHolds(m);
      if s.Body? { BodyMeans(m); } else { LeaveMeans(m); }
    } else {
      if s.Body? && m.k.current in m.at { OthersBodyUnseen(m); }
      hide Apply, Enabled;
      StepUnseen(m, s);
    }
  }

  lemma EnterMeans<T>(m: M<T>, call: Call)
    requires MInv(m) && MEnabled(m, Kern(Enter(call)))
    ensures Means(m, None, MApply(m, Kern(Enter(call))))
  {
    hide KernelInv.Inv, PointsOk, Means, Meaning, LegalCall;
    if m.k.current in m.at {
      var m1 := m.(at := m.at[m.k.current := Elsewhere]);
      LeavesDisk(m, m1);
      NoneParts(m, m1);
      StepUnseen(m1, Enter(call));
      NoneThrough(m, m1, MApply(m, Kern(Enter(call))));
    } else {
      StepUnseen(m, Enter(call));
    }
  }

  lemma NoneParts<T>(m: M<T>, m1: M<T>)
    requires Means(m, None, m1)
    ensures Known(m1) && PointsOk(m1)
  {
    hide PointsOk, Meaning;
  }

  lemma NoneThrough<T>(m: M<T>, m1: M<T>, m2: M<T>)
    requires Means(m, None, m1) && Means(m1, None, m2)
    ensures Means(m, None, m2)
  {
    hide PointsOk, Meaning;
  }

  /** Every step of the kernel and of SynchDisk's code means a step of
      SynchDisks, or none. */
  lemma StepMeans<T>(m: M<T>, step: MStep<T>)
    requires MInv(m) && MEnabled(m, step)
    ensures Means(m, Seen(m, step), MApply(m, step))
  {
    hide KernelInv.Inv, PointsOk, Means, MApply, Enabled, SeenBody;
    if step.Start? || step.Continue? { KernelInv.CurrentFactsHold(m.k); }
    match step
    case Start(r) => StartMeans(m, r);
    case Continue =>
      if m.at[m.k.current].InAcquire? { IssueMeans(m); } else { CallMeans(m); }
    case Interrupt(i) => InterruptMeans(m, i);
    case Kern(s) =>
      if s.Enter? { EnterMeans(m, s.call); } else { KernMeans(m, s); }
  }

  /** The kernel's part is a step of the kernel, or nothing. */
  lemma KernelPart<T>(m: M<T>, step: MStep<T>)
    requires KernelInv.Inv(m.k) && MEnabled(m, step)
    ensures KernelInv.Inv(MApply(m, step).k)
  {
    hide KernelInv.Inv;
    match step
    case Start(_) =>
      hide Enabled;
      KernelRuns.StepKeeps(m.k, Enter(Acquire(m.l, false)));
    case Continue =>
      if m.at[m.k.current].ToP? {
        KernelRuns.StepKeeps(m.k, Enter(P(m.s, false)));
      } else if m.at[m.k.current].InP? {
        KernelRuns.StepKeeps(m.k, Enter(Release(m.l)));
      }
    case Interrupt(_) =>
      hide Enabled;
      KernelRuns.StepKeeps(m.k, Fires(m));
    case Kern(s) =>
      hide Enabled;
      KernelRuns.StepKeeps(m.k, s);
  }

  lemma StepKeepsMInv<T>(m: M<T>, step: MStep<T>)
    requires MInv(m) && MEnabled(m, step)
    ensures MInv(MApply(m, step)) && Means(m, Seen(m, step), MApply(m, step))
  {
    StepMeans(m, step);
    hide KernelInv.Inv, PointsOk, Meaning, MEnabled, MApply, Seen;
    KernelPart(m, step);
  }

  ghost predicate MRun<T>(ms: seq<M<T>>, steps: seq<MStep<T>>) {
    && |ms| == |steps| + 1
    && forall i | 0 <= i < |steps| :: MEnabled(ms[i], steps[i]) && ms[i + 1] == MApply(ms[i], steps[i])
  }

  lemma {:induction false} RunsKeepMInv<T>(ms: seq<M<T>>, steps: seq<MStep<T>>, n: nat)
    requires MRun(ms, steps) && MInit(ms[0]) && n <= |steps|
    ensures MInv(ms[n])
  {
    hide MInv, MEnabled, MApply, MInit, Means;
    if n == 0 {
      InitMeans(ms[0]);
    } else {
      RunsKeepMInv(ms, steps, n - 1);
      assert ms[n - 1 + 1] == MApply(ms[n - 1], steps[n - 1]);
      StepKeepsMInv(ms[n - 1], steps[n - 1]);
    }
  }

  /** A run of SynchDisks from its start to the state `d`. */
  ghost predicate RunTo<T>(ds: seq<S.D<T>>, ss: seq<S.Step<T>>, d: S.D<T>) {
    S.IsRun(ds, ss) && S.Init(ds[0]) && ds[|ds| - 1] == d
  }

  /** SynchDisk on the kernel refines SynchDisks: every run of kernel threads,
      read through Meaning, is a run of SynchDisks. */
  lemma {:induction false} KernelRunsAreRuns<T>(ms: seq<M<T>>, steps: seq<MStep<T>>, n: nat)
      returns (ds: seq<S.D<T>>, ss: seq<S.Step<T>>)
    requires MRun(ms, steps) && MInit(ms[0]) && n <= |steps|
    ensures Known(ms[n]) && RunTo(ds, ss, Meaning(ms[n])) && ds[0].image == ms[0].io.image
  {
    assert |ms| == |steps| + 1;
    hide MInv, MEnabled, MApply, MInit, Meaning, Means, Seen, MRun, RunTo;
    if n == 0 {
      RunStarts(ms[0]);
      ds, ss := [Meaning(ms[0])], [];
    } else {
      ds, ss := KernelRunsAreRuns(ms, steps, n - 1);
      StepOf(ms, steps, n - 1);
      ds, ss := OneMore(ms[n - 1], Seen(ms[n - 1], steps[n - 1]), ms[n], ds, ss);
    }
  }

  lemma StepOf<T>(ms: seq<M<T>>, steps: seq<MStep<T>>, i: nat)
    requires MRun(ms, steps) && MInit(ms[0]) && i < |steps|
    ensures MEnabled(ms[i], steps[i]) && Means(ms[i], Seen(ms[i], steps[i]), ms[i + 1])
  {
    hide MInv, MEnabled, MApply, MInit, Means, Seen;
    RunsKeepMInv(ms, steps, i);
    StepKeepsMInv(ms[i], steps[i]);
  }

  lemma RunStarts<T>(m: M<T>)
    requires MInit(m)
    ensures Known(m) && RunTo([Meaning(m)], [], Meaning(m)) && Meaning(m).image == m.io.image
  {
    hide MInv, S.Init, Pcs;
    InitMeans(m);
  }

  lemma OneMore<T>(m: M<T>, seen: Option<S.Step<T>>, m': M<T>, ds: seq<S.D<T>>, ss: seq<S.Step<T>>)
      returns (ds': seq<S.D<T>>, ss': seq<S.Step<T>>)
    requires Means(m, seen, m') && RunTo(ds, ss, Meaning(m))
    ensures Known(m') && RunTo(ds', ss', Meaning(m')) && ds'[0] == ds[0]
  {
    hide Meaning, S.Enabled, S.Apply, PointsOk, S.Init;
    ds', ss' := ds, ss;
    match seen
    case None =>
    case Some(s) => ds', ss' := ds + [S.Apply(Meaning(m), s)], ss + [s];
  }

  lemma RunKeepsInv<T>(ms: seq<M<T>>, steps: seq<MStep<T>>, n: nat)
    requires MRun(ms, steps) && MInit(ms[0]) && n <= |steps|
    ensures Known(ms[n]) && S.Inv(Meaning(ms[n]), ms[0].io.image)
  {
    hide MRun, MInit, Meaning, S.Init, S.Inv, S.Enabled, S.Apply;
    var ds, ss := KernelRunsAreRuns(ms, steps, n);
    S.RunsKeep(ds, ss);
    assert S.Inv(ds[|ds| - 1], ds[0].image);
  }

  /** The ASSERTs are met: SynchDisk's code can always go on, the disk is idle
      when a request is issued, and the releaser holds the lock. */
  lemma CodeGoesOn<T>(ms: seq<M<T>>, steps: seq<MStep<T>>, n: nat)
    requires MRun(ms, steps) && MInit(ms[0]) && n <= |steps| && InCode(ms[n]) && !Quiet(ms[n].at[ms[n].k.current])
    ensures MEnabled(ms[n], Continue)
  {
    RunKeepsInv(ms, steps, n);
    assert |ms| == |steps| + 1;
    hide MRun, MInit, S.Inv;
    var m, t := ms[n], ms[n].k.current;
    var d := Meaning(m);
    assert t in d.pc && d.pc[t] == PcOf(m, t);
    if m.at[t].InAcquire? {
      S.OneRequestAtATime(d, ms[0].io.image, t);
    } else if m.at[t].InP? {
      HolderOwns(d, ms[0].io.image, t);
    }
  }

  lemma HolderOwns<T>(d: S.D<T>, start: seq<T>, t: Tid)
    requires S.Inv(d, start) && t in d.pc && d.pc[t].Served?
    ensures d.owner == Some(t)
  {
  }

  /** So on the kernel, too, a thread gets past P only after the interrupt of its
      own request ... */
  lemma KernelPassesAfterOwnInterrupt<T>(ms: seq<M<T>>, steps: seq<MStep<T>>, n: nat, t: Tid)
    requires MRun(ms, steps) && MInit(ms[0]) && n < |steps|
    requires MEnabled(ms[n], steps[n]) && Seen(ms[n], steps[n]) == Some(S.TryP(t))
    ensures t in ms[n + 1].at && (PcOf(ms[n + 1], t).Served? <==> ms[n].io.interrupts == [])
    ensures ms[n].io.interrupts != [] ==> ms[n].io.interrupts == [t]
  {
    RunKeepsInv(ms, steps, n);
    StepOf(ms, steps, n);
    assert |ms| == |steps| + 1;
    hide MRun, MInit, MEnabled, Seen, S.Inv, PcOf, PointsOk;
    S.PassesAfterOwnInterrupt(Meaning(ms[n]), ms[0].io.image, t);
    assert t in Meaning(ms[n + 1]).pc;
  }

  /** ... and the calls are atomic reads and writes of a sector array, as
      SynchDisks says: when the lock is released, the call has made exactly one
      transfer since it began, a read has what the transfers before it left in
      the sector, and the disk holds the effect of all of them. */
  lemma KernelCallsAreAtomic<T>(ms: seq<M<T>>, steps: seq<MStep<T>>, n: nat, t: Tid)
    requires MRun(ms, steps) && MInit(ms[0]) && n < |steps|
    requires MEnabled(ms[n], steps[n]) && Seen(ms[n], steps[n]) == Some(S.Unlock(t))
    ensures t in ms[n].at && ms[n].at[t].InRelease?
    ensures var io, r, start := ms[n].io, ms[n].at[t].r, ms[0].io.image;
            && t in io.transfer && t in io.began && t in io.buffer && io.buffer[t].Some?
            && io.began[t] <= io.transfer[t] < |io.log|
            && io.log[io.transfer[t]] == S.Event(t, r, io.buffer[t].value)
            && (forall j | io.began[t] <= j < |io.log| && io.log[j].t == t :: j == io.transfer[t])
            && r.sector < |start|
            && (r.Read? ==> io.buffer[t].value == S.Replay(start, io.log[..io.transfer[t]])[r.sector])
            && (r.Write? ==> io.buffer[t].value == r.data)
            && io.image == S.Replay(start, io.log)
  {
    assert |ms| == |steps| + 1;
    var m := ms[n];
    hide MRun, MInit, MEnabled, Seen, Pcs, PointsOk, RunTo, S.Enabled, S.Apply, S.Replay;
    var ds, ss := KernelRunsAreRuns(ms, steps, n);
    StepOf(ms, steps, n);
    UnlockPoint(m, steps[n], t);
    UnlockIsAtomic(ds, ss, Meaning(m), t);
  }

  lemma UnlockIsAtomic<T>(ds: seq<S.D<T>>, ss: seq<S.Step<T>>, d: S.D<T>, t: Tid)
    requires RunTo(ds, ss, d) && S.Enabled(d, S.Unlock(t))
    ensures var r, start := d.pc[t].r, ds[0].image;
            && t in d.at && t in d.began && t in d.buffer && d.buffer[t].Some?
            && d.began[t] <= d.at[t] < |d.log|
            && d.log[d.at[t]] == S.Event(t, r, d.buffer[t].value)
            && (forall j | d.began[t] <= j < |d.log| && d.log[j].t == t :: j == d.at[t])
            && r.sector < |start|
            && (r.Read? ==> d.buffer[t].value == S.Replay(start, d.log[..d.at[t]])[r.sector])
            && (r.Write? ==> d.buffer[t].value == r.data)
            && d.image == S.Replay(start, d.log)
  {
    var ds', ss' := ds + [S.Apply(d, S.Unlock(t))], ss + [S.Unlock(t)];
    assert S.IsRun(ds', ss') by { hide S.Enabled, S.Apply, S.Init; }
    hide S.IsRun, S.Enabled, S.Apply, S.Init;
    S.CallsAreAtomic(ds', ss', |ss|, t);
  }

  lemma UnlockPoint<T>(m: M<T>, step: MStep<T>, t: Tid)
    requires Known(m) && MEnabled(m, step) && Seen(m, step) == Some(S.Unlock(t)) && S.Enabled(Meaning(m), S.Unlock(t))
    ensures t in m.at && m.at[t].InRelease? && t in Meaning(m).pc && Meaning(m).pc[t] == S.Served(m.at[t].r)
  {
    hide Enabled;
  }
}
