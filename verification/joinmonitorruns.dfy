/** Every run of Exec, Exit and Join on the kernel is a run of Joins. */
module JoinMonitorRuns {
  import opened Options
  import opened Kernel
  import KernelInv
  import KernelRuns
  import opened KernelUse
  import J = Joins
  import opened JoinMonitors

  // ---------- Threads and records enter ----------

  lemma RootMeans(m: M, t: Tid)
    requires PartsOk(m) && MEnabled(m, Root(t))
    ensures Means(m, Some(J.Root(t)), MApply(m, Root(t)))
  {
    var m' := MApply(m, Root(t));
    RootPoints(m, m', t);
    assert PhaseAt(Elsewhere, StackOf(m.k, t)) == J.Live;
    hide PointsOk, PhaseAt, StackOf;
    assert Records(m') == Records(m);
    assert Phases(m') == Phases(m)[t := J.Live];
  }

  lemma RootPoints(m: M, m': M, t: Tid)
    requires PointsOk(m) && t in m.k.threads && t !in m.at && m'.k == m.k && m'.records == m.records
    requires m'.at == m.at[t := Elsewhere] && m'.parentRecord == m.parentRecord[t := -1]
    ensures PointsOk(m')
  {
    hide Unrelated, SemsOf, AtUser;
    forall u | u in m.at
      ensures PointOk(m', u)
    {
      assert PointOk(m, u);
    }
  }

  /** No routine in progress uses a semaphore that does not exist. */
  lemma FreshUnused(k: K, t: Tid, sem: SemId)
    requires KernelInv.Inv(k) && t in k.threads && sem !in k.sems
    ensures Unrelated(k.threads[t].stack, Use({}, {sem}, {}))
  {
    UsesExist(k, t);
    hide KernelInv.Inv;
    UnusedIn(k.threads[t].stack, sem);
  }

  lemma UnusedIn(st: seq<Frame>, sem: SemId)
    requires KernelInv.Shape(st)
    requires st != [] && (st[|st| - 1].call.P? || st[|st| - 1].call.V?) ==> st[|st| - 1].call.s != sem
    ensures Unrelated(st, Use({}, {sem}, {}))
  {
  }

  lemma UsesExist(k: K, t: Tid)
    requires KernelInv.Inv(k) && t in k.threads
    ensures var st := k.threads[t].stack;
            KernelInv.Shape(st) && (st != [] && (Top(k.threads[t]).call.P? || Top(k.threads[t]).call.V?) ==>
                                    Top(k.threads[t]).call.s in k.sems)
  {
    hide KernelInv.SchedulerOk, KernelInv.QueuesOk, KernelInv.LocksOk, KernelInv.LockWakeups, KernelInv.SemsOk,
      KernelInv.Ownership, KernelInv.Suspended, KernelInv.Shape, KernelInv.WaitsOn;
    assert KernelInv.ThreadOk(k, t);
  }

  lemma UnrelatedGrows(st: seq<Frame>, records: seq<Rec>, rec: Rec)
    requires Unrelated(st, Use({}, SemsOf(records), {})) && Unrelated(st, Use({}, {rec.sem}, {}))
    ensures Unrelated(st, Use({}, SemsOf(records + [rec]), {}))
  {
    assert SemsOf(records + [rec]) == SemsOf(records) + {rec.sem} by {
      assert forall id | 0 <= id < |records| :: (records + [rec])[id] == records[id];
      assert (records + [rec])[|records|] == rec;
    }
    hide SemsOf;
  }

  /** A thread that used no record's semaphore does not use the new one. */
  lemma StaysUnrelated(m: M, t: Tid, rec: Rec)
    requires KernelInv.Inv(m.k) && rec.sem !in m.k.sems && Unrelated(StackOf(m.k, t), UseOf(m))
    ensures Unrelated(StackOf(m.k, t), Use({}, SemsOf(m.records + [rec]), {}))
  {
    if t in m.k.threads { FreshUnused(m.k, t, rec.sem); }
    hide KernelInv.Inv, SemsOf;
    UnrelatedGrows(StackOf(m.k, t), m.records, rec);
  }

  /** What Exec changes for other threads: there is one more record. */
  ghost predicate RecordAdded(m: M, m': M, rec: Rec) {
    && m'.records == m.records + [rec] && rec.sem !in m.k.sems
    && rec.child !in m.at && rec.child !in m.k.threads
    && (forall t | t in m.parentRecord && t != rec.child :: t in m'.parentRecord && m'.parentRecord[t] == m.parentRecord[t])
    && (forall t | t != rec.child :: StackOf(m'.k, t) == StackOf(m.k, t))
  }

  lemma PointAfterExec(m: M, m': M, rec: Rec, t: Tid)
    requires KernelInv.Inv(m.k) && RecordAdded(m, m', rec) && t in m.at && t in m'.at && m'.at[t] == m.at[t] && PointOk(m, t)
    ensures PointOk(m', t)
  {
    if Outside(m.at[t]) {
      hide KernelInv.Inv, SemsOf, Unrelated;
      StaysUnrelated(m, t, rec);
    } else {
      hide KernelInv.Inv, SemsOf, Unrelated, AtUser;
    }
  }

  lemma ExecParts(m: M, child: Tid, priority: int, sem: SemId, loads: bool)
    requires PartsOk(m) && MEnabled(m, Exec(child, priority, sem, loads))
    ensures var m' := MApply(m, Exec(child, priority, sem, loads));
            && RecordAdded(m, m', Rec(m.k.current, child, sem))
            && m'.at == m.at[m.k.current := if loads then ToFork(child) else Elsewhere]
                            [child := if loads then Elsewhere else Gone]
            && m'.k.threads.Keys == m.k.threads.Keys + {child}
            && StackOf(m'.k, m.k.current) == [] && StackOf(m'.k, child) == [Frame(Begin, On, true)]
            && CurrentOk(m.k) && StackOf(m.k, m.k.current) == [] && m.k.current in m.at && Quiet(m.at[m.k.current])
            && m'.k.sems == m.k.sems[sem := 0]
            && m'.parentRecord == m.parentRecord[child := |m.records|] && m'.log == m.log
            && m.k.current in m.rings
            && m'.rings == m.rings[m.k.current := m.rings[m.k.current] + [|m.records|]][child := []]
  {
    hide PartsOk;
  }

  /** The current thread is at Fork or back in user code, and the child is new. */
  lemma ExecOwnPoints(m: M, m': M, t: Tid, child: Tid, loads: bool)
    requires m'.at == m.at[t := if loads then ToFork(child) else Elsewhere][child := if loads then Elsewhere else Gone]
    requires StackOf(m'.k, t) == [] && StackOf(m'.k, child) == [Frame(Begin, On, true)]
    ensures t in m'.at && child in m'.at && PointOk(m', child) && PointOk(m', t)
  {
    hide SemsOf;
  }

  lemma ExecPoints(m: M, m': M, child: Tid, priority: int, sem: SemId, loads: bool)
    requires KernelInv.Inv(m.k) && PointsOk(m) && RecordAdded(m, m', Rec(m.k.current, child, sem))
    requires m'.at == m.at[m.k.current := if loads then ToFork(child) else Elsewhere]
                          [child := if loads then Elsewhere else Gone]
    requires CurrentOk(m.k) && m'.k.threads.Keys == m.k.threads.Keys + {child}
    requires StackOf(m'.k, m.k.current) == [] && StackOf(m'.k, child) == [Frame(Begin, On, true)]
    ensures PointsOk(m')
  {
    var rec := Rec(m.k.current, child, sem);
    hide KernelInv.Inv, SemsOf, RecordAdded, PointOk, Unrelated, StackOf;
    ExecOwnPoints(m, m', m.k.current, child, loads);
    forall t | t in m'.at && t != child && t != m.k.current
      ensures PointOk(m', t)
    {
      PointAfterExec(m, m', rec, t);
    }
    forall t | t in m'.k.threads && t !in m'.at
      ensures Unrelated(m'.k.threads[t].stack, UseOf(m'))
    {
      OutsiderAfterExec(m, m', rec, t);
    }
  }

  lemma OutsiderAfterExec(m: M, m': M, rec: Rec, t: Tid)
    requires KernelInv.Inv(m.k) && RecordAdded(m, m', rec) && t in m'.k.threads && t != rec.child
    requires t in m.k.threads && Unrelated(m.k.threads[t].stack, UseOf(m))
    ensures Unrelated(m'.k.threads[t].stack, UseOf(m'))
  {
    hide KernelInv.Inv, SemsOf, Unrelated;
    StaysUnrelated(m, t, rec);
    assert StackOf(m'.k, t) == StackOf(m.k, t);
  }

  /** The child's phase and record, and nothing else for the others. */
  lemma ExecPhases(m: M, m': M, child: Tid, sem: SemId, loads: bool)
    requires RecordAdded(m, m', Rec(m.k.current, child, sem)) && m.k.current in m.at && Quiet(m.at[m.k.current])
    requires m'.at == m.at[m.k.current := if loads then ToFork(child) else Elsewhere]
                          [child := if loads then Elsewhere else Gone]
    requires StackOf(m.k, m.k.current) == []
    ensures Phases(m') == Phases(m)[child := if loads then J.Live else J.Finished]
    ensures Phases(m)[m.k.current] == J.Live && child !in Phases(m)
  {
    hide StackOf;
  }

  lemma ExecRecords(m: M, m': M, rec: Rec)
    requires Known(m) && SemsDiffer(m.records) && RecordAdded(m, m', rec) && m'.k.sems == m.k.sems[rec.sem := 0]
    ensures Known(m') && SemsDiffer(m'.records) && Records(m') == Records(m) + [J.Record(rec.parent, rec.child, 0)]
  {
    hide StackOf;
    forall id | 0 <= id < |m'.records|
      ensures m'.records[id].sem in m'.k.sems
      ensures id < |m.records| ==> m'.records[id] == m.records[id] && m.records[id].sem != rec.sem
    {
      if id < |m.records| { assert m.records[id].sem in m.k.sems; }
    }
  }

  lemma ExecMeans(m: M, child: Tid, priority: int, sem: SemId, loads: bool)
    requires KernelInv.Inv(m.k) && PartsOk(m) && MEnabled(m, Exec(child, priority, sem, loads))
    ensures Means(m, Some(J.Exec(m.k.current, child, loads)), MApply(m, Exec(child, priority, sem, loads)))
  {
    hide KernelInv.Inv, MApply, MEnabled, RecordAdded, PointsOk, Records, Phases, SemsOf, StackOf, Known, SemsDiffer;
    var m', rec := MApply(m, Exec(child, priority, sem, loads)), Rec(m.k.current, child, sem);
    ExecParts(m, child, priority, sem, loads);
    ExecPoints(m, m', child, priority, sem, loads);
    ExecPhases(m, m', child, sem, loads);
    ExecRecords(m, m', rec);
    RecordsLength(m);
  }

  lemma RecordsLength(m: M)
    requires Known(m)
    ensures |Records(m)| == |m.records|
  {
  }

  // ---------- The routines the system calls call, at work ----------

  /** The current thread is in a P or a V called here. */
  ghost predicate OwnRoutine(m: M) {
    && InRoutine(m.k) && m.k.current in m.at && PointOk(m, m.k.current)
    && !Outside(m.at[m.k.current]) && !Top(Cur(m.k)).call.Yield?
  }

  lemma OwnRoutineHolds(m: M)
    requires PartsOk(m) && InRoutine(m.k) && m.k.current in InsideOf(m) && !Top(Cur(m.k)).call.Yield?
    ensures OwnRoutine(m)
  {
    hide PointOk;
  }

  /** Returning from it is not seen. */
  lemma LeaveMeans(m: M)
    requires PartsOk(m) && OwnRoutine(m) && Top(Cur(m.k)).done
    ensures Means(m, None, m.(k := Left(m.k)))
  {
    var m', t := m.(k := Left(m.k)), m.k.current;
    assert Cur(m'.k).stack == [];
    assert OneChanges(m, m', t);
    assert PhaseAt(m.at[t], Cur(m'.k).stack) == PhaseAt(m.at[t], Cur(m.k).stack);
    PhaseOf(m, t);
    hide PointsOk, PhaseAt, OneChanges, OwnRoutine, Phases;
    OneMoves(m, m', t);
    assert Phases(m') == Phases(m) && Records(m') == Records(m);
  }

  /** One semaphore changes, and with it one record. */
  lemma RecordChanges(m: M, m': M, id: nat)
    requires Known(m) && SemsDiffer(m.records) && m'.records == m.records && id < |m.records|
    requires m.records[id].sem in m'.k.sems && m'.k.sems == m.k.sems[m.records[id].sem := m'.k.sems[m.records[id].sem]]
    ensures Known(m') && |Records(m)| == |m.records|
    ensures Records(m)[id].sem == m.k.sems[m.records[id].sem]
    ensures Records(m') == Records(m)[id := Records(m)[id].(sem := m'.k.sems[m.records[id].sem])]
  {
    assert forall j | 0 <= j < |m.records| && j != id :: m.records[j].sem != m.records[id].sem;
  }

  /** Join goes to sleep: not seen. */
  lemma SleepMeans(m: M)
    requires PartsOk(m) && OwnRoutine(m) && m.at[m.k.current].InJoin? && !Top(Cur(m.k)).done
    requires var s := m.records[m.at[m.k.current].id].sem; m.k.sems[s] == 0
    ensures Means(m, None, m.(k := PBody(m.k, m.records[m.at[m.k.current].id].sem)))
  {
    var t := m.k.current;
    var m' := m.(k := PBody(m.k, m.records[m.at[t].id].sem));
    assert OneChanges(m, m', t);
    assert PhaseAt(m.at[t], Cur(m'.k).stack) == PhaseAt(m.at[t], Cur(m.k).stack);
    PhaseOf(m, t);
    hide PointsOk, PhaseAt, OneChanges, OwnRoutine, Phases;
    OneMoves(m, m', t);
    assert Phases(m') == Phases(m) && Records(m') == Records(m);
  }

  /** P lets the thread past: Join returns. */
  lemma ReturnMeans(m: M, m': M)
    requires PartsOk(m) && OwnRoutine(m) && m.at[m.k.current].InJoin? && !Top(Cur(m.k)).done
    requires var s := m.records[m.at[m.k.current].id].sem;
             && m.k.sems[s] > 0
             && m' == m.(k := PBody(m.k, s), log := m.log + [J.Joined(m.at[m.k.current].id)])
    ensures Means(m, Some(J.JoinReturns(m.k.current)), m')
  {
    var t := m.k.current;
    var id := m.at[t].id;
    assert OneChanges(m, m', t);
    assert PhaseAt(m.at[t], Cur(m.k).stack) == J.Joining(id) && PhaseAt(m.at[t], Cur(m'.k).stack) == J.Live;
    PhaseOf(m, t);
    assert id < |m.records| && m'.k.sems == m.k.sems[m.records[id].sem := m.k.sems[m.records[id].sem] - 1];
    hide PointsOk, PhaseAt, OneChanges, OwnRoutine, Phases, PBody, Records;
    OneMoves(m, m', t);
    RecordChanges(m, m', id);
  }

  /** Stacks and points stay; only who is asleep changes. */
  lemma SameStacks(m: M, m': M)
    requires m'.at == m.at && m'.records == m.records && m'.parentRecord == m.parentRecord
    requires m'.k.threads.Keys == m.k.threads.Keys && forall t | t in m.k.threads :: m'.k.threads[t].stack == m.k.threads[t].stack
    requires PointsOk(m)
    ensures PointsOk(m') && Phases(m') == Phases(m)
  {
    hide PhaseAt, Unrelated;
    forall t | t in m.at
      ensures PointOk(m', t) && StackOf(m'.k, t) == StackOf(m.k, t)
    {
      assert PointOk(m, t);
    }
    hide PointOk;
  }

  lemma WakingKeepsStacks(k: K, s: SemId)
    requires s in k.sems && QueueKnown(k, SemQueue(s))
    ensures var k' := PerformV(k, s);
            && k'.threads.Keys == k.threads.Keys && k'.sems == k.sems[s := k.sems[s] + 1]
            && forall t | t in k.threads :: k'.threads[t].stack == k.threads[t].stack
  {
  }

  /** V is done: the parent is notified. */
  lemma NotifyMeans(m: M, m': M)
    requires PartsOk(m) && OwnRoutine(m) && m.at[m.k.current].InNotify? && !Top(Cur(m.k)).done
    requires var s := m.records[m.at[m.k.current].id].sem;
             && QueueKnown(Done(m.k), SemQueue(s))
             && m' == m.(k := PerformV(Done(m.k), s), log := m.log + [J.Told(m.at[m.k.current].id)])
    ensures Means(m, Some(J.Notify(m.k.current)), m')
  {
    var t := m.k.current;
    var id := m.at[t].id;
    var m1 := m.(k := Done(m.k));
    assert OneChanges(m, m1, t);
    assert PhaseAt(m.at[t], Cur(m.k).stack) == J.Live && PhaseAt(m.at[t], Cur(m1.k).stack) == J.Notified;
    PhaseOf(m, t);
    assert id < |m.records| && t in m.parentRecord && m.parentRecord[t] == id && m1.k.sems == m.k.sems;
    hide PointsOk, PhaseAt, OneChanges, OwnRoutine, Phases, PerformV, Done, Records, QueueKnown;
    OneMoves(m, m1, t);
    WakingKeepsStacks(m1.k, m.records[id].sem);
    SameStacks(m1, m');
    RecordChanges(m, m', id);
  }

  lemma OwnBodyKind(m: M)
    requires Known(m) && OwnRoutine(m) && BodyEnabled(m.k)
    ensures var p := m.at[m.k.current];
            && !Top(Cur(m.k)).done
            && match p
               case InJoin(id) =>
                 var s := m.records[id].sem;
                 && DoBody(m.k) == PBody(m.k, s)
                 && SeenBody(m) == (if m.k.sems[s] == 0 then None else Some(J.JoinReturns(m.k.current)))
                 && Events(m) == if m.k.sems[s] == 0 then [] else [J.Joined(id)]
               case InNotify(id) =>
                 var s := m.records[id].sem;
                 && QueueKnown(Done(m.k), SemQueue(s)) && DoBody(m.k) == PerformV(Done(m.k), s)
                 && SeenBody(m) == Some(J.Notify(m.k.current)) && Events(m) == [J.Told(id)]
               case _ => false
  {
    hide Known;
    assert Known(m);
  }

  lemma SemNotNegative(k: K, s: SemId)
    requires KernelInv.Inv(k) && s in k.sems
    ensures k.sems[s] >= 0
  {
    hide KernelInv.ThreadsOk, KernelInv.QueuesOk, KernelInv.SchedulerOk, KernelInv.LocksOk, KernelInv.LockWakeups,
      KernelInv.WokenSet;
    assert KernelInv.SemOk(k, s);
  }

  lemma OwnBodyMeans(m: M, m': M)
    requires KernelInv.Inv(m.k) && PartsOk(m) && OwnRoutine(m) && BodyEnabled(m.k)
    requires m' == m.(k := DoBody(m.k), log := m.log + Events(m))
    ensures Means(m, SeenBody(m), m')
  {
    var p := m.at[m.k.current];
    OwnBodyKind(m);
    if p.InJoin? { SemNotNegative(m.k, m.records[p.id].sem); }
    hide KernelInv.Inv, PartsOk, OwnRoutine, Means, BodyEnabled, DoBody, PBody, PerformV, SeenBody, Events, Done;
    match p
    case InJoin(id) =>
      if m.k.sems[m.records[id].sem] == 0 {
        assert m' == m.(k := DoBody(m.k));
        SleepMeans(m);
      } else {
        ReturnMeans(m, m');
      }
    case InNotify(id) => NotifyMeans(m, m');
    case _ =>
  }

  // ---------- Every step, and every run ----------

  lemma OthersBodyUnseen(m: M)
    requires PartsOk(m) && InRoutine(m.k)
    requires m.k.current !in InsideOf(m) || Top(Cur(m.k)).call.Yield?
    ensures SeenBody(m) == None && Events(m) == []
  {
    if m.k.current in m.at { assert PointOk(m, m.k.current); }
  }

  lemma KernMeans(m: M, s: Step)
    requires KernelInv.Inv(m.k) && PartsOk(m) && MEnabled(m, Kern(s)) && !s.Enter?
    ensures Means(m, Seen(m, Kern(s)), MApply(m, Kern(s)))
  {
    hide KernelInv.Inv, PointsOk, Means, SeenBody, Events, DoBody, J.Shaped;
    if Concerns(m.k, s, UseOf(m), InsideOf(m)) {
      OwnRoutineHolds(m);
      if s.Body? { OwnBodyMeans(m, MApply(m, Kern(s))); } else { LeaveMeans(m); }
    } else {
      if s.Body? { OthersBodyUnseen(m); }
      assert MApply(m, Kern(s)) == m.(k := Apply(m.k, s));
      hide Apply, Enabled;
      StepUnseen(m, s);
    }
  }

  lemma EnterMeans(m: M, call: Call)
    requires KernelInv.Inv(m.k) && PartsOk(m) && MEnabled(m, Kern(Enter(call)))
    ensures Means(m, None, MApply(m, Kern(Enter(call))))
  {
    hide KernelInv.Inv, PointsOk, Means, Meaning, LegalCall, J.Shaped;
    if m.k.current in m.at {
      var m1 := m.(at := m.at[m.k.current := Elsewhere]);
      LeavesCall(m, m1) by { InCodeHolds(m); }
      NoneParts(m, m1);
      StepUnseen(m1, Enter(call));
      NoneThrough(m, m1, MApply(m, Kern(Enter(call))));
    } else {
      StepUnseen(m, Enter(call));
    }
  }

  lemma InCodeHolds(m: M)
    requires PartsOk(m) && CurrentOk(m.k) && !m.k.sleeping && Cur(m.k).stack == [] && m.k.current in m.at
    ensures InCode(m)
  {
    PhaseOf(m, m.k.current);
    hide PointsOk, Phases;
  }

  lemma NoneParts(m: M, m1: M)
    requires Means(m, None, m1)
    ensures Known(m1) && SemsDiffer(m1.records) && PointsOk(m1)
  {
    hide PointsOk, Meaning;
  }

  lemma NoneThrough(m: M, m1: M, m2: M)
    requires Means(m, None, m1) && Means(m1, None, m2)
    ensures Means(m, None, m2)
  {
    hide PointsOk, Meaning;
  }

  /** Every step of the kernel and of the system calls' code means a step of
      Joins, or none. */
  lemma StepMeans(m: M, step: MStep)
    requires KernelInv.Inv(m.k) && PartsOk(m) && MEnabled(m, step)
    ensures Means(m, Seen(m, step), MApply(m, step))
  {
    hide KernelInv.Inv, PartsOk, Means, MApply, MEnabled, SeenBody, Events;
    match step
    case Kern(s) =>
      if s.Enter? { EnterMeans(m, s.call); } else { KernMeans(m, s); }
    case Root(t) => RootMeans(m, t);
    case Exec(child, priority, sem, loads) => ExecMeans(m, child, priority, sem, loads);
    case Join(cid) => JoinMeans(m, cid);
    case Exit => ExitMeans(m);
    case End => EndMeans(m);
  }

  /** The kernel's part is a step of the kernel, the making of a semaphore, or
      nothing. */
  lemma KernelPart(m: M, step: MStep)
    requires KernelInv.Inv(m.k) && MEnabled(m, step)
    ensures KernelInv.Inv(MApply(m, step).k)
  {
    hide KernelInv.Inv, LegalCall;
    match step
    case Kern(s) =>
      hide Enabled;
      KernelRuns.StepKeeps(m.k, s);
    case Root(_) =>
    case Exec(child, priority, sem, _) =>
      KernelRuns.StepKeeps(m.k, Create(child, priority));
      NewSemaphore(Apply(m.k, Create(child, priority)), sem);
    case Join(cid) =>
      if IsChild(m, m.k.current, cid) { KernelRuns.StepKeeps(m.k, Enter(P(m.records[cid].sem, false))); }
    case Exit =>
      if HasRecord(m, m.k.current) {
        KernelRuns.StepKeeps(m.k, Enter(V(m.records[m.parentRecord[m.k.current]].sem)));
      }
    case End => KernelRuns.StepKeeps(m.k, Enter(Finish));
  }

  lemma StepKeepsMInv(m: M, step: MStep)
    requires MInv(m) && MEnabled(m, step)
    ensures MInv(MApply(m, step)) && Means(m, Seen(m, step), MApply(m, step))
  {
    hide KernelInv.Inv, PointsOk, Known, SemsDiffer, Meaning, MEnabled, MApply, Seen, J.Inv, J.Shaped, J.Enabled, J.Apply;
    StepMeans(m, step);
    KernelPart(m, step);
    match Seen(m, step)
    case None =>
    case Some(s) =>
      J.StepKeeps(Meaning(m), s);
      InvShaped(Meaning(MApply(m, step)));
  }

  lemma InvShaped(w: J.World)
    requires J.Inv(w)
    ensures J.Shaped(w)
  {
    hide J.RingsOk, J.ParentsExist, J.JoinersOk, J.SemsOk, J.LogOk;
  }

  ghost predicate MRun(ms: seq<M>, steps: seq<MStep>) {
    && |ms| == |steps| + 1
    && forall i | 0 <= i < |steps| :: MEnabled(ms[i], steps[i]) && ms[i + 1] == MApply(ms[i], steps[i])
  }

  lemma {:induction false} RunsKeepMInv(ms: seq<M>, steps: seq<MStep>, n: nat)
    requires MRun(ms, steps) && MInit(ms[0]) && n <= |steps|
    ensures MInv(ms[n])
  {
    hide MInv, MEnabled, MApply, MInit, Means, Seen;
    if n == 0 {
      InitMeans(ms[0]);
    } else {
      RunsKeepMInv(ms, steps, n - 1);
      assert ms[n - 1 + 1] == MApply(ms[n - 1], steps[n - 1]);
      StepKeepsMInv(ms[n - 1], steps[n - 1]);
    }
  }

  lemma StepOf(ms: seq<M>, steps: seq<MStep>, i: nat)
    requires MRun(ms, steps) && MInit(ms[0]) && i < |steps|
    ensures MEnabled(ms[i], steps[i]) && Means(ms[i], Seen(ms[i], steps[i]), ms[i + 1])
  {
    hide MInv, MEnabled, MApply, MInit, Means, Seen;
    RunsKeepMInv(ms, steps, i);
    StepKeepsMInv(ms[i], steps[i]);
  }

  /** A run of Joins to the world `w`. */
  predicate RunTo(ws: seq<J.World>, ss: seq<J.Step>, w: J.World) {
    J.IsRun(ws, ss) && ws[|ss|] == w
  }

  /** Exec, Exit and Join on the kernel refine Joins: every run of kernel
      threads, read through Meaning, is a run of Joins. */
  lemma {:induction false} KernelRunsAreRuns(ms: seq<M>, steps: seq<MStep>, n: nat)
      returns (ws: seq<J.World>, ss: seq<J.Step>)
    requires MRun(ms, steps) && MInit(ms[0]) && n <= |steps|
    ensures Known(ms[n]) && RunTo(ws, ss, Meaning(ms[n]))
  {
    assert |ms| == |steps| + 1;
    hide MInv, MEnabled, MApply, MInit, Meaning, Means, Seen, MRun, RunTo, Known;
    if n == 0 {
      RunStarts(ms[0]);
      ws, ss := [Meaning(ms[0])], [];
    } else {
      ws, ss := KernelRunsAreRuns(ms, steps, n - 1);
      StepOf(ms, steps, n - 1);
      ws, ss := OneMore(ms[n - 1], Seen(ms[n - 1], steps[n - 1]), ms[n], ws, ss);
    }
  }

  lemma RunStarts(m: M)
    requires MInit(m)
    ensures Known(m) && RunTo([Meaning(m)], [], Meaning(m))
  {
    hide MInv;
    InitMeans(m);
  }

  lemma OneMore(m: M, seen: Option<J.Step>, m': M, ws: seq<J.World>, ss: seq<J.Step>)
      returns (ws': seq<J.World>, ss': seq<J.Step>)
    requires Means(m, seen, m') && RunTo(ws, ss, Meaning(m))
    ensures Known(m') && RunTo(ws', ss', Meaning(m'))
  {
    hide Meaning, J.Enabled, J.Apply, PointsOk, Known, SemsDiffer;
    ws', ss' := ws, ss;
    match seen
    case None =>
    case Some(s) => ws', ss' := ws + [J.Apply(Meaning(m), s)], ss + [s];
  }

  /** So on the kernel, too, P lets a Join past only for the parent, after the
      child's notification, and once ... */
  lemma KernelJoinFollowsNotification(ms: seq<M>, steps: seq<MStep>, n: nat, t: Tid)
    requires MRun(ms, steps) && MInit(ms[0]) && n < |steps|
    requires MEnabled(ms[n], steps[n]) && Seen(ms[n], steps[n]) == Some(J.JoinReturns(t))
    ensures t in ms[n].at && ms[n].at[t].InJoin?
    ensures var m, id := ms[n], ms[n].at[t].id;
            && id < |m.records| && m.records[id].parent == t && m.records[id].child in m.at
            && (var p := PhaseAt(m.at[m.records[id].child], StackOf(m.k, m.records[id].child));
                p == J.Notified || p == J.Finished)
            && J.Told(id) in m.log && J.Joined(id) !in m.log
  {
    assert |ms| == |steps| + 1;
    hide MRun, MInit, MEnabled, Seen, Meaning, PointsOk, PhaseAt, RunTo, J.Enabled, J.Apply;
    var m := ms[n];
    var ws, ss := KernelRunsAreRuns(ms, steps, n);
    StepOf(ms, steps, n);
    ReturnPoint(m, steps[n], t);
    ReturnFollows(ws, ss, Meaning(m), t);
    PartsOfMeaning(m);
  }

  lemma ReturnFollows(ws: seq<J.World>, ss: seq<J.Step>, w: J.World, t: Tid)
    requires RunTo(ws, ss, w) && J.Enabled(w, J.JoinReturns(t))
    ensures t in w.phases && w.phases[t].Joining?
    ensures var id := w.phases[t].id;
            && id < |w.records| && w.records[id].parent == t && w.records[id].child in w.phases
            && (w.phases[w.records[id].child] == J.Notified || w.phases[w.records[id].child] == J.Finished)
            && J.Told(id) in w.log && J.Joined(id) !in w.log
  {
    var ws', ss' := ws + [J.Apply(w, J.JoinReturns(t))], ss + [J.JoinReturns(t)];
    assert J.IsRun(ws', ss') by { hide J.Enabled, J.Apply; }
    hide J.IsRun, J.Enabled, J.Apply;
    J.JoinFollowsNotification(ws', ss', |ss|);
  }

  lemma PartsOfMeaning(m: M)
    requires Known(m)
    ensures var w := Meaning(m);
            && |w.records| == |m.records| && w.log == m.log
            && (forall id | 0 <= id < |m.records| ::
                  w.records[id].parent == m.records[id].parent && w.records[id].child == m.records[id].child)
            && forall t | t in w.phases :: t in m.at && w.phases[t] == PhaseAt(m.at[t], StackOf(m.k, t))
  {
  }

  lemma ReturnPoint(m: M, step: MStep, t: Tid)
    requires Known(m) && MEnabled(m, step) && Seen(m, step) == Some(J.JoinReturns(t))
    requires J.Enabled(Meaning(m), J.JoinReturns(t))
    ensures t in m.at && m.at[t].InJoin? && Meaning(m).phases[t] == J.Joining(m.at[t].id)
  {
    hide Enabled;
  }

  /** ... and over a whole run no child notifies twice and none is joined twice. */
  lemma KernelEachChildIsJoinedOnce(ms: seq<M>, steps: seq<MStep>, n: nat)
    requires MRun(ms, steps) && MInit(ms[0]) && n <= |steps|
    ensures var log := ms[n].log;
            && (forall i, j | 0 <= i < j < |log| :: log[i] != log[j])
            && (forall j | 0 <= j < |log| && log[j].Joined? :: exists i | 0 <= i < j :: log[i] == J.Told(log[j].id))
  {
    var ws, ss := KernelRunsAreRuns(ms, steps, n);
    J.EachChildIsJoinedOnce(ws, ss, |ss|);
  }

  /** The calls of P and V are legal: Join, Exit and Finish can always be made
      from user code, and Exit can always be completed. */
  lemma CallsAreLegal(ms: seq<M>, steps: seq<MStep>, n: nat, cid: int)
    requires MRun(ms, steps) && MInit(ms[0]) && n <= |steps| && InCode(ms[n])
    ensures Quiet(ms[n].at[ms[n].k.current]) ==> MEnabled(ms[n], Join(cid)) && MEnabled(ms[n], Exit)
    ensures ms[n].at[ms[n].k.current].InNotify? || ms[n].at[ms[n].k.current].ToFinish? ==> MEnabled(ms[n], End)
  {
    assert |ms| == |steps| + 1;
    hide MRun, MInit, MInv, MEnabled, Known;
    RunsKeepMInv(ms, steps, n);
    IdsExist(ms[n], cid);
    LegalHere(ms[n], cid);
  }

  lemma LegalHere(m: M, cid: int)
    requires InCode(m) && Known(m)
    requires IsChild(m, m.k.current, cid) ==> cid < |m.records|
    requires m.parentRecord[m.k.current] < |m.records|
    ensures Quiet(m.at[m.k.current]) ==> MEnabled(m, Join(cid)) && MEnabled(m, Exit)
    ensures m.at[m.k.current].InNotify? || m.at[m.k.current].ToFinish? ==> MEnabled(m, End)
  {
  }

  lemma IdsExist(m: M, cid: int)
    requires MInv(m) && m.k.current in m.at
    ensures Known(m) && m.k.current in m.rings && m.k.current in m.parentRecord
    ensures IsChild(m, m.k.current, cid) ==> cid < |m.records|
    ensures m.parentRecord[m.k.current] < |m.records|
  {
    PhaseOf(m, m.k.current);
    RecordsLength(m);
    hide KernelInv.Inv, PointsOk, Phases, Records, J.LogOk, J.SemsOk;
    assert J.RingOk(m.rings[m.k.current], Records(m), m.k.current);
    assert cid in m.rings[m.k.current] ==> J.ParentIs(Records(m), cid, m.k.current);
  }
}
