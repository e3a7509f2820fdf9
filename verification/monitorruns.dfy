/** Every run of SynchList on the kernel is a run of SynchLists. */
module MonitorRuns {
  import opened Options
  import opened Kernel
  import KernelInv
  import KernelRuns
  import opened KernelUse
  import S = SynchLists
  import opened Monitors
  import opened MonitorUnseen
  import opened MonitorCalls

  // ---------- Every step, and every run ----------

  lemma OwnBodySimulated<T>(m: M<T>)
    requires KernelInv.Inv(m.k) && PointsOk(m) && WaitersOk(m) && m.l in m.k.locks && BodyEnabled(m.k)
    requires InRoutine(m.k) && !Foreigner(m)
    ensures m.k.current in m.at
    ensures if SeenBody(m.at[m.k.current], Cur(m.k).stack) then Goes(m, DoBody(m.k)) else Unseen(m, DoBody(m.k))
  {
    hide KernelInv.Inv, PointsOk, WaitersOk, Goes, Unseen, DoBody, BodyEnabled, SeenBody;
    OwnCallHolds(m);
    OwnBody(m);
  }

  lemma OwnLeaveSimulated<T>(m: M<T>)
    requires KernelInv.Inv(m.k) && PointsOk(m) && WaitersOk(m) && m.l in m.k.locks
    requires InRoutine(m.k) && Top(Cur(m.k)).done && !Foreigner(m)
    ensures Unseen(m, Left(m.k))
  {
    hide KernelInv.Inv, PointsOk, WaitersOk, Unseen, Left;
    OwnCallHolds(m);
    OwnLeaveUnseen(m);
  }

  lemma ForeignerNotSeen<T>(m: M<T>)
    requires KernelInv.Inv(m.k) && InRoutine(m.k) && Foreigner(m) && m.k.current in m.at && PointsOk(m)
    ensures !SeenBody(m.at[m.k.current], Cur(m.k).stack)
  {
    assert PointOk(m.at[m.k.current], StackOf(m.k, m.k.current), m.l, m.c);
    hide KernelInv.Inv, PointsOk, PointOk, Unrelated;
    StackShape(m.k, m.k.current);
    NotSeen(m.at[m.k.current], Cur(m.k).stack, m.l, m.c);
  }

  lemma NotSeen<T>(p: Point<T>, st: seq<Frame>, l: LockId, c: CondId)
    requires PointOk(p, st, l, c) && st != [] && KernelInv.Shape(st)
    requires p.Elsewhere? || st[|st| - 1].call.Yield?
    ensures !SeenBody(p, st)
  {
    hide Unrelated;
  }

  /** What a kernel step other than a call means. */
  lemma KernelStepSimulated<T>(m: M<T>, s: Step)
    requires KernelInv.Inv(m.k) && PointsOk(m) && WaitersOk(m) && m.l in m.k.locks
    requires Enabled(m.k, s) && !s.Enter?
    ensures var k' := Apply(m.k, s);
            if s.Body? && m.k.current in m.at && SeenBody(m.at[m.k.current], Cur(m.k).stack) then Goes(m, k')
            else Unseen(m, k')
  {
    hide KernelInv.Inv, PointsOk, WaitersOk, Goes, Unseen, DoBody, SeenBody;
    if Concerns(m.k, s, UseOf(m), InsideOf(m)) {
      if s.Body? {
        OwnBodySimulated(m);
      } else {
        OwnLeaveSimulated(m);
      }
    } else {
      if s.Body? && m.k.current in m.at { ForeignerNotSeen(m); }
      hide Apply, Enabled;
      StepUnseen(m, s);
    }
  }

  /** The parts of the invariant that are about SynchList's use of the kernel,
      and the simulation. */
  ghost predicate Faithful<T>(m: M<T>, step: MStep<T>, m': M<T>)
    requires MEnabled(m, step)
  {
    && m.l in m.k.locks && m'.l in m'.k.locks
    && Simulated(m, step, m') && PointsOk(m') && WaitersOk(m')
  }

  lemma KernSimulated<T>(m: M<T>, s: Step)
    requires KernelInv.Inv(m.k) && PointsOk(m) && WaitersOk(m) && m.l in m.k.locks && MEnabled(m, Kern(s)) && !s.Enter?
    ensures Faithful(m, Kern(s), MApply(m, Kern(s)))
  {
    hide KernelInv.Inv, PointsOk, WaitersOk, Apply, Meaning;
    KernelStepSimulated(m, s);
    assert MApply(m, Kern(s)) == m.(k := Apply(m.k, s));
    hide Enabled;
  }

  lemma CallSimulated<T>(m: M<T>, call: Call)
    requires KernelInv.Inv(m.k) && PointsOk(m) && WaitersOk(m) && m.l in m.k.locks && MEnabled(m, Kern(Enter(call)))
    ensures Faithful(m, Kern(Enter(call)), MApply(m, Kern(Enter(call))))
  {
    hide KernelInv.Inv, PointsOk, WaitersOk, Meaning, LegalCall;
    if m.k.current in m.at {
      var m1 := m.(at := m.at[m.k.current := Elsewhere]);
      LeavesList(m, m1);
      StepUnseen(m1, Enter(call));
      assert MApply(m, Kern(Enter(call))) == m1.(k := Push(m.k, call));
    } else {
      StepUnseen(m, Enter(call));
      assert MApply(m, Kern(Enter(call))) == m.(k := Push(m.k, call));
    }
  }

  lemma StartStep<T>(m: M<T>, op: S.Op<T>)
    requires MInv(m) && MEnabled(m, Start(op))
    ensures Faithful(m, Start(op), MApply(m, Start(op)))
  {
    var m' := MApply(m, Start(op));
    KernelInv.CurrentFactsHold(m.k);
    assert Cur(m.k).status == Running;
    hide KernelInv.Inv, PointsOk, WaitersOk, Meaning, Enabled, S.Inv, KernelInv.ThreadOk;
    StartSimulated(m, op, m');
    WaitersStay(m, m', m.k.current);
  }

  lemma ContinueStep<T>(m: M<T>, m': M<T>)
    requires MInv(m) && MEnabled(m, Continue) && m' == MApply(m, Continue)
    ensures Faithful(m, Continue, m')
  {
    hide MInv, MEnabled, MApply, PointsOk, Meaning, WaitersOk, Simulated;
    PartsOf(m);
    ContinueLock(m, m');
    ContinueSimulated(m, m');
    ContinueWaiters(m, m');
  }

  lemma PartsOf<T>(m: M<T>)
    requires MInv(m)
    ensures m.l in m.k.locks && KernelInv.Inv(m.k) && PointsOk(m) && WaitersOk(m)
  {
    hide KernelInv.Inv, PointsOk, WaitersOk, Meaning, S.Inv;
  }

  lemma ContinueLock<T>(m: M<T>, m': M<T>)
    requires m.l in m.k.locks && MEnabled(m, Continue) && m' == MApply(m, Continue)
    ensures m'.l in m'.k.locks
  {
    hide Enabled;
  }

  /** A list changes only while nobody else holds the lock. */
  lemma ContinueWaiters<T>(m: M<T>, m': M<T>)
    requires MInv(m) && MEnabled(m, Continue) && m' == MApply(m, Continue)
    ensures WaitersOk(m')
  {
    hide MInv, Enabled, PointsOk, Meaning, WaitersOk;
    PartsOf(m);
    ContinueMoves(m, m');
    var t := m.k.current;
    if m'.list == m.list {
      ContinueWaits(m, m');
      hide MApply, MEnabled, NextPoint, NextCall;
      WaitersStay(m, m', t);
    } else {
      ContinueChanges(m, m');
      hide MApply, MEnabled, NextPoint, NextCall;
      OnlyHolder(m, t);
      OthersStay(m, m', t);
      hide PcOf;
      NoWaiters(m', t);
    }
  }

  /** Whoever goes to wait found the list empty. */
  lemma ContinueWaits<T>(m: M<T>, m': M<T>)
    requires m.l in m.k.locks && MEnabled(m, Continue) && m' == MApply(m, Continue)
    ensures m'.at[m.k.current].InWait? ==> m.list == []
  {
    hide Enabled;
  }

  /** Whoever changes the list holds the lock. */
  lemma ContinueChanges<T>(m: M<T>, m': M<T>)
    requires m.l in m.k.locks && MEnabled(m, Continue) && m' == MApply(m, Continue) && m'.list != m.list
    ensures S.InSection(PcOf(m, m.k.current)) && !m'.at[m.k.current].InWait?
  {
    hide Enabled;
  }

  lemma NoWaiters<T>(m: M<T>, t: Tid)
    requires t in m.at && !m.at[t].InWait? && forall u | u in m.at && u != t :: !PcOf(m, u).Testing?
    ensures WaitersOk(m)
  {
    hide PcOf;
  }

  lemma OnlyHolder<T>(m: M<T>, t: Tid)
    requires MInv(m) && t in m.at && S.InSection(PcOf(m, t))
    ensures forall u | u in m.at && u != t :: !PcOf(m, u).Testing?
  {
    hide KernelInv.Inv, PointsOk, WaitersOk, PcOf, S.QueueInv, S.FifoInv, S.SignalInv;
    forall u | u in m.at && u != t
      ensures !PcOf(m, u).Testing?
    {
      MeaningAt(m, u);
      MeaningAt(m, t);
    }
  }

  /** Every step of the kernel and of SynchList's code means a step of
      SynchLists, or none. */
  lemma StepFaithful<T>(m: M<T>, step: MStep<T>)
    requires MInv(m) && MEnabled(m, step)
    ensures Faithful(m, step, MApply(m, step))
  {
    PartsOf(m);
    hide MInv, KernelInv.Inv, PointsOk, WaitersOk, Faithful, MEnabled, MApply;
    match step
    case Start(op) => StartStep(m, op);
    case Continue => ContinueStep(m, MApply(m, Continue));
    case Kern(s) =>
      if s.Enter? {
        CallSimulated(m, s.call);
      } else {
        KernSimulated(m, s);
      }
  }

  /** The kernel's part is a step of the kernel, or nothing. */
  lemma KernelPart<T>(m: M<T>, step: MStep<T>)
    requires KernelInv.Inv(m.k) && MEnabled(m, step)
    ensures KernelInv.Inv(MApply(m, step).k)
  {
    hide KernelInv.Inv;
    match step
    case Start(_) =>
      hide Enabled;
      KernelRuns.StepKeeps(m.k, Enter(Acquire(m.l, false)));
    case Continue =>
      if NextCall(m).Some? {
        hide Enabled;
        KernelRuns.StepKeeps(m.k, Enter(NextCall(m).value));
      }
    case Kern(s) =>
      hide Enabled;
      KernelRuns.StepKeeps(m.k, s);
  }

  lemma StepKeepsMInv<T>(m: M<T>, step: MStep<T>)
    requires MInv(m) && MEnabled(m, step)
    ensures MInv(MApply(m, step)) && Simulated(m, step, MApply(m, step))
  {
    hide KernelInv.Inv, PointsOk, WaitersOk, Meaning, MEnabled, MApply, S.Inv, S.Enabled, S.Apply;
    StepFaithful(m, step);
    KernelPart(m, step);
    match Seen(m, step)
    case None =>
    case Some(s) => S.StepKeeps(Meaning(m), s);
  }

  ghost predicate MRun<T>(ms: seq<M<T>>, steps: seq<MStep<T>>) {
    && |ms| == |steps| + 1
    && forall i | 0 <= i < |steps| :: MEnabled(ms[i], steps[i]) && ms[i + 1] == MApply(ms[i], steps[i])
  }

  lemma {:induction false} RunsKeepMInv<T>(ms: seq<M<T>>, steps: seq<MStep<T>>, n: nat)
    requires MRun(ms, steps) && MInit(ms[0]) && n <= |steps|
    ensures MInv(ms[n])
  {
    hide MInv, MEnabled, MApply, MInit;
    if n == 0 {
      InitMeans(ms[0]);
    } else {
      RunsKeepMInv(ms, steps, n - 1);
      assert ms[n - 1 + 1] == MApply(ms[n - 1], steps[n - 1]);
      StepKeepsMInv(ms[n - 1], steps[n - 1]);
    }
  }

  /** A run of SynchLists from its start to the state `a`. */
  ghost predicate RunTo<T>(ls: seq<S.L<T>>, ss: seq<S.Step<T>>, a: S.L<T>) {
    S.IsRun(ls, ss) && S.Init(ls[0]) && ls[|ls| - 1] == a
  }

  /** SynchList on the kernel refines SynchLists: every run of kernel threads,
      read through Meaning, is a run of SynchLists. */
  lemma {:induction false} KernelRunsAreRuns<T>(ms: seq<M<T>>, steps: seq<MStep<T>>, n: nat)
      returns (ls: seq<S.L<T>>, ss: seq<S.Step<T>>)
    requires MRun(ms, steps) && MInit(ms[0]) && n <= |steps|
    ensures ms[n].l in ms[n].k.locks && RunTo(ls, ss, Meaning(ms[n]))
  {
    assert |ms| == |steps| + 1;
    hide MInit, Meaning, MRun, RunTo, Steps;
    if n == 0 {
      RunStarts(ms[0]);
      ls, ss := [Meaning(ms[0])], [];
    } else {
      ls, ss := KernelRunsAreRuns(ms, steps, n - 1);
      StepOf(ms, steps, n - 1);
      ls, ss := OneMore(ms[n - 1], steps[n - 1], ms[n], ls, ss);
    }
  }

  ghost predicate Steps<T>(m: M<T>, step: MStep<T>, m': M<T>) {
    m.l in m.k.locks && m'.l in m'.k.locks && MEnabled(m, step) && Simulated(m, step, m')
  }

  lemma StepOf<T>(ms: seq<M<T>>, steps: seq<MStep<T>>, i: nat)
    requires MRun(ms, steps) && MInit(ms[0]) && i < |steps|
    ensures Steps(ms[i], steps[i], ms[i + 1])
  {
    hide MInv, MEnabled, MApply, MInit, Simulated;
    RunsKeepMInv(ms, steps, i);
    PartsOf(ms[i]);
    StepKeepsMInv(ms[i], steps[i]);
    PartsOf(ms[i + 1]);
  }

  lemma OneMore<T>(m: M<T>, step: MStep<T>, m': M<T>, ls: seq<S.L<T>>, ss: seq<S.Step<T>>)
      returns (ls': seq<S.L<T>>, ss': seq<S.Step<T>>)
    requires Steps(m, step, m') && RunTo(ls, ss, Meaning(m))
    ensures m'.l in m'.k.locks && RunTo(ls', ss', Meaning(m'))
  {
    hide MEnabled, Seen, Meaning, S.Enabled, S.Apply, RunTo;
    ls', ss' := ls, ss;
    match Seen(m, step)
    case None =>
    case Some(s) =>
      RunGrows(ls, ss, Meaning(m), s);
      ls', ss' := ls + [S.Apply(Meaning(m), s)], ss + [s];
  }

  lemma RunStarts<T>(m: M<T>)
    requires MInit(m)
    ensures m.l in m.k.locks && RunTo([Meaning(m)], [], Meaning(m))
  {
    assert m.l in m.k.locks;
    hide MInv, Meaning, MInit, S.Init;
    InitMeans(m);
  }

  lemma RunGrows<T>(ls: seq<S.L<T>>, ss: seq<S.Step<T>>, a: S.L<T>, s: S.Step<T>)
    requires RunTo(ls, ss, a) && S.Enabled(a, s)
    ensures RunTo(ls + [S.Apply(a, s)], ss + [s], S.Apply(a, s))
  {
    hide S.Apply, S.Enabled, S.Init;
  }

  /** So on the kernel, too, the list is first in, first out ... */
  lemma KernelFirstInFirstOut<T>(ms: seq<M<T>>, steps: seq<MStep<T>>, n: nat)
    requires MRun(ms, steps) && MInit(ms[0]) && n <= |steps|
    ensures ms[n].removed + ms[n].list == ms[n].appended
  {
    var ls, ss := KernelRunsAreRuns(ms, steps, n);
    S.FirstInFirstOut(ls, ss, |ls| - 1);
  }

  /** ... and with the lock free and a consumer asleep on the condition there are
      at most as many items as threads woken from it that have not retried. */
  lemma KernelNoLostSignal<T>(ms: seq<M<T>>, steps: seq<MStep<T>>, n: nat)
    requires MRun(ms, steps) && MInit(ms[0]) && n <= |steps|
    requires ms[n].l in ms[n].k.locks && ms[n].k.locks[ms[n].l].available && Q(ms[n].k, CondQueue(ms[n].c)) != []
    ensures |ms[n].list| <= |set t | t in ms[n].at && S.Pending(PcOf(ms[n], t))|
  {
    var ls, ss := KernelRunsAreRuns(ms, steps, n);
    var a := Meaning(ms[n]);
    S.NoLostSignal(ls, ss, |ls| - 1);
    hide PcOf, MInit, MRun, S.Pending;
    assert S.PendingSet(a) == set t | t in ms[n].at && S.Pending(PcOf(ms[n], t));
  }

  /** The ASSERTs of the kernel routines are met: SynchList signals, waits and
      releases only with the lock, never acquires it twice, and never takes an
      item from an empty list. */
  lemma CallsAreLegal<T>(m: M<T>)
    requires MInv(m) && InCode(m)
    ensures if Quiet(m.at[m.k.current]) then forall op :: MEnabled(m, Start(op)) else MEnabled(m, Continue)
  {
    hide MInv, Meaning, PcOf, MEnabled;
    var t := m.k.current;
    OwnerSeen(m, t);
    if m.at[t].HasTaken? { ItemIsThere(m, t); }
    LegalHere(m);
  }

  lemma LegalHere<T>(m: M<T>)
    requires InCode(m) && m.l in m.k.locks && (Owner(m.k, m.l, m.k.current) <==> S.InSection(PcOf(m, m.k.current)))
    requires m.at[m.k.current].HasTaken? ==> m.at[m.k.current].was != []
    ensures if Quiet(m.at[m.k.current]) then forall op :: MEnabled(m, Start(op)) else MEnabled(m, Continue)
  {
  }

  lemma OwnerSeen<T>(m: M<T>, t: Tid)
    requires MInv(m) && t in m.at
    ensures m.l in m.k.locks && (Owner(m.k, m.l, t) <==> S.InSection(PcOf(m, t)))
  {
    MeaningAt(m, t);
    hide KernelInv.Inv, PointsOk, WaitersOk, PcOf, S.QueueInv, S.FifoInv, S.SignalInv, S.InSection;
    assert Meaning(m).owner == m.k.locks[m.l].owner;
  }

  lemma ItemIsThere<T>(m: M<T>, t: Tid)
    requires MInv(m) && t in m.at && m.at[t].HasTaken? && t in m.k.threads
    ensures m.at[t].was != []
  {
    hide KernelInv.Inv, PointsOk, WaitersOk, S.QueueInv, S.LockInv, S.SignalInv, S.FifoInv, Meaning, PcOf;
    MeaningAt(m, t);
    HasTakenPc(m, t);
    TakenIsThere(Meaning(m), t);
  }

  lemma HasTakenPc<T>(m: M<T>, t: Tid)
    requires t in m.at && m.at[t].HasTaken? && t in m.k.threads
    ensures PcOf(m, t) == S.WriteRemove(m.at[t].was, m.at[t].signalled)
  {
  }

  lemma TakenIsThere<T>(a: S.L<T>, t: Tid)
    requires S.FifoInv(a) && t in a.pc && a.pc[t].WriteRemove?
    ensures a.pc[t].was != []
  {
  }
}
