/** Exec, Exit and Join as kernel threads run them: threads are the kernel's, a
    child record's semaphore is a kernel semaphore, Join calls P, notifyParent
    calls V, and Exec creates and forks a thread.  Every run of that is a run of
    the Joins module. */
module JoinMonitors {
  import opened Options
  import opened Kernel
  import KernelInv
  import opened KernelUse
  import J = Joins

  /** How far a thread has got in the system calls.  A point that names a kernel
      routine is kept until the code after the call goes on. */
  datatype Point =
    | Elsewhere
    | ToFork(child: Tid)     // in Exec, with the child created
    | InJoin(id: J.Id)       // in Join, at P or past it
    | InNotify(id: J.Id)     // in notifyParent, at V or past it
    | ToFinish               // notifyParent is done, and there was no record
    | Gone                   // in Finish, or never started

  /** A ChildThread record with its semaphore. */
  datatype Rec = Rec(parent: Tid, child: Tid, sem: SemId)

  datatype M = M(
    k: K,
    at: map<Tid, Point>,
    parentRecord: map<Tid, int>, rings: map<Tid, seq<J.Id>>, records: seq<Rec>,
    log: seq<J.Event>)

  datatype MStep =
    | Kern(step: Step)       // any kernel step that is not one of the others
    | Root(t: Tid)           // a thread without a parent enters
    | Exec(child: Tid, priority: int, sem: SemId, loads: bool)
    | Join(cid: int)
    | Exit                   // up to the call of V in notifyParent
    | End                    // the call of Finish

  function SemsOf(records: seq<Rec>): set<SemId> {
    set id | 0 <= id < |records| :: records[id].sem
  }

  function UseOf(m: M): Use {
    Use({}, SemsOf(m.records), {})
  }

  predicate Outside(p: Point) {
    p.Elsewhere? || p.Gone?
  }

  function InsideOf(m: M): set<Tid> {
    set t | t in m.at && !Outside(m.at[t])
  }

  predicate Quiet(p: Point) {
    p.Elsewhere? || p.InJoin?
  }

  /** The current thread is running user code or a system call's own code. */
  predicate InCode(m: M) {
    && CurrentOk(m.k) && !m.k.sleeping && Cur(m.k).stack == []
    && m.k.current in m.at && m.k.current in m.rings && m.k.current in m.parentRecord
  }

  predicate MayCall(p: Point, call: Call) {
    !call.Finish? && (Quiet(p) || (p.ToFork? && call == Fork(p.child)))
  }

  predicate IsChild(m: M, t: Tid, cid: int)
    requires t in m.rings
  {
    cid >= 0 && cid in m.rings[t]
  }

  /** The record Exit notifies. */
  predicate HasRecord(m: M, t: Tid)
    requires t in m.parentRecord
  {
    m.parentRecord[t] >= 0
  }

  predicate MEnabled(m: M, step: MStep) {
    match step
    case Kern(s) =>
      && Enabled(m.k, s)
      && (s.Enter? ==> !Mentions(s.call, UseOf(m)) && (m.k.current in m.at ==> MayCall(m.at[m.k.current], s.call)))
      && (s.Tick? || s.Idle? ==> s.s !in UseOf(m).sems)
    case Root(t) => t in m.k.threads && t !in m.at
    case Exec(child, priority, sem, _) =>
      && InCode(m) && Quiet(m.at[m.k.current]) && child !in m.at
      && Enabled(m.k, Create(child, priority)) && sem !in m.k.sems
    case Join(cid) =>
      && InCode(m) && Quiet(m.at[m.k.current])
      && (IsChild(m, m.k.current, cid) ==>
            cid < |m.records| && Enabled(m.k, Enter(P(m.records[cid].sem, false))))
    case Exit =>
      && InCode(m) && Quiet(m.at[m.k.current])
      && (HasRecord(m, m.k.current) ==>
            && m.parentRecord[m.k.current] < |m.records|
            && Enabled(m.k, Enter(V(m.records[m.parentRecord[m.k.current]].sem))))
    case End =>
      && InCode(m) && (Quiet(m.at[m.k.current]) || m.at[m.k.current].InNotify? || m.at[m.k.current].ToFinish?)
      && Enabled(m.k, Enter(Finish))
  }

  function Moved(m: M, p: Point): M {
    m.(at := m.at[m.k.current := p])
  }

  /** The new thread, with its record in the ring of its parent. */
  function Created(m: M, child: Tid, priority: int, sem: SemId): K
    requires Enabled(m.k, Create(child, priority))
  {
    var k1 := Apply(m.k, Create(child, priority));
    k1.(sems := k1.sems[sem := 0])
  }

  /** What the history records of a routine's work. */
  function Events(m: M): seq<J.Event>
    requires InRoutine(m.k)
  {
    if SeenBody(m).None? then []
    else if m.at[m.k.current].InJoin? then [J.Joined(m.at[m.k.current].id)]
    else [J.Told(m.at[m.k.current].id)]
  }

  function MApply(m: M, step: MStep): M
    requires MEnabled(m, step)
  {
    match step
    case Kern(s) =>
      var m1 := m.(k := Apply(m.k, s));
      if s.Enter? && m.k.current in m.at then m1.(at := m.at[m.k.current := Elsewhere])
      else if s.Body? then m1.(log := m.log + Events(m))
      else m1
    case Root(t) =>
      m.(at := m.at[t := Elsewhere], parentRecord := m.parentRecord[t := -1], rings := m.rings[t := []])
    case Exec(child, priority, sem, loads) =>
      var t, id := m.k.current, |m.records|;
      m.(k := Created(m, child, priority, sem),
         at := m.at[t := if loads then ToFork(child) else Elsewhere][child := if loads then Elsewhere else Gone],
         parentRecord := m.parentRecord[child := id],
         rings := m.rings[t := m.rings[t] + [id]][child := []],
         records := m.records + [Rec(t, child, sem)])
    case Join(cid) =>
      if IsChild(m, m.k.current, cid) then Moved(m, InJoin(cid)).(k := Push(m.k, P(m.records[cid].sem, false)))
      else m
    case Exit =>
      if HasRecord(m, m.k.current) then
        var id := m.parentRecord[m.k.current];
        Moved(m, InNotify(id)).(k := Push(m.k, V(m.records[id].sem)))
      else Moved(m, ToFinish)
    case End => Moved(m, Gone).(k := Push(m.k, Finish))
  }

  /* What a state of the kernel means for Joins. */

  function PhaseAt(p: Point, st: seq<Frame>): J.Phase {
    match p
    case Elsewhere => J.Live
    case ToFork(_) => J.Live
    case InJoin(id) => if st != [] && st[0].call.P? && !st[0].done then J.Joining(id) else J.Live
    case InNotify(_) => if st != [] && st[0].call.V? && !st[0].done then J.Live else J.Notified
    case ToFinish => J.Notified
    case Gone => J.Finished
  }

  function Phases(m: M): map<Tid, J.Phase> {
    map t | t in m.at :: PhaseAt(m.at[t], StackOf(m.k, t))
  }

  predicate Known(m: M) {
    forall id | 0 <= id < |m.records| :: m.records[id].sem in m.k.sems
  }

  function Records(m: M): seq<J.Record>
    requires Known(m)
  {
    seq(|m.records|, id requires 0 <= id < |m.records| =>
      J.Record(m.records[id].parent, m.records[id].child, m.k.sems[m.records[id].sem]))
  }

  function Meaning(m: M): J.World
    requires Known(m)
  {
    J.World(Phases(m), m.parentRecord, m.rings, Records(m), m.log)
  }

  predicate PointOk(m: M, t: Tid)
    requires t in m.at
  {
    var st := StackOf(m.k, t);
    match m.at[t]
    case Elsewhere => Unrelated(st, UseOf(m))
    case Gone => Unrelated(st, UseOf(m))
    case ToFork(_) => AtUser(st)
    case ToFinish => AtUser(st)
    case InJoin(id) =>
      && id < |m.records|
      && (AtUser(st) || (|st| == 1 && st[0].call.P? && st[0].call.s == m.records[id].sem))
    case InNotify(id) =>
      && id < |m.records| && t in m.parentRecord && m.parentRecord[t] == id
      && (AtUser(st) || (|st| == 1 && st[0].call == V(m.records[id].sem)))
  }

  ghost predicate PointsOk(m: M) {
    && (forall t | t in m.at :: PointOk(m, t))
    && (forall t | t in m.at && t !in m.k.threads :: Outside(m.at[t]))
    && (forall t | t in m.k.threads && t !in m.at :: Unrelated(m.k.threads[t].stack, UseOf(m)))
  }

  predicate SemsDiffer(records: seq<Rec>) {
    forall i, j | 0 <= i < j < |records| :: records[i].sem != records[j].sem
  }

  ghost predicate PartsOk(m: M) {
    Known(m) && SemsDiffer(m.records) && PointsOk(m) && J.Shaped(Meaning(m))
  }

  ghost predicate MInv(m: M) {
    KernelInv.Inv(m.k) && PartsOk(m) && J.Inv(Meaning(m))
  }

  predicate MInit(m: M) {
    Init(m.k) && m.at == map[] && m.parentRecord == map[] && m.rings == map[] && m.records == [] && m.log == []
  }

  lemma InitMeans(m: M)
    requires MInit(m)
    ensures MInv(m) && Meaning(m) == J.Init
  {
    KernelInv.InitInv(m.k);
  }

  /** What Joins sees of a step: a step of its own, or nothing. */
  function Seen(m: M, step: MStep): Option<J.Step>
    requires MEnabled(m, step)
  {
    var t := m.k.current;
    match step
    case Kern(s) => if s.Body? then SeenBody(m) else None
    case Root(t) => Some(J.Root(t))
    case Exec(child, _, _, loads) => Some(J.Exec(t, child, loads))
    case Join(cid) => Some(J.Join(t, cid))
    case Exit => if HasRecord(m, t) then None else Some(J.Notify(t))
    case End => Some(J.Finish(t))
  }

  /** P past its test is Join's return, V is the notification. */
  function SeenBody(m: M): (seen: Option<J.Step>)
    requires InRoutine(m.k)
    ensures seen.Some? ==> m.k.current in m.at && (m.at[m.k.current].InJoin? || m.at[m.k.current].InNotify?)
  {
    var t := m.k.current;
    var f := Cur(m.k).stack[0];
    if t !in m.at then None
    else if m.at[t].InJoin? && f.call.P? && f.call.s in m.k.sems && m.k.sems[f.call.s] != 0 then Some(J.JoinReturns(t))
    else if m.at[t].InNotify? && f.call.V? then Some(J.Notify(t))
    else None
  }

  /** `m'` is where the step takes `m`, as Joins sees it. */
  ghost predicate Means(m: M, seen: Option<J.Step>, m': M) {
    && Known(m) && Known(m') && SemsDiffer(m'.records) && PointsOk(m')
    && match seen
       case None => Meaning(m') == Meaning(m)
       case Some(s) => J.Enabled(Meaning(m), s) && Meaning(m') == J.Apply(Meaning(m), s)
  }

  // ---------- One thread changes ----------

  /** Only the entries of thread `t` in the two maps of threads change. */
  ghost predicate OneChanges(m: M, m': M, t: Tid) {
    && m'.records == m.records && m'.parentRecord == m.parentRecord && m'.rings == m.rings
    && t in m.at && t in m'.at && m'.at == m.at[t := m'.at[t]]
    && t in m.k.threads && t in m'.k.threads && m'.k.threads == m.k.threads[t := m'.k.threads[t]]
    && PointOk(m', t)
  }

  lemma OneMoves(m: M, m': M, t: Tid)
    requires PointsOk(m) && OneChanges(m, m', t)
    ensures PointsOk(m') && Phases(m') == Phases(m)[t := PhaseAt(m'.at[t], m'.k.threads[t].stack)]
  {
    hide PhaseAt, Unrelated;
    forall u | u in m.at && u != t
      ensures PointOk(m', u) && StackOf(m'.k, u) == StackOf(m.k, u)
    {
      assert PointOk(m, u);
    }
    hide PointOk;
  }

  lemma PhaseOf(m: M, t: Tid)
    requires t in m.at
    ensures t in Phases(m) && Phases(m)[t] == PhaseAt(m.at[t], StackOf(m.k, t))
  {
  }

  // ---------- The code of the system calls ----------

  lemma JoinMeans(m: M, cid: int)
    requires PartsOk(m) && MEnabled(m, Join(cid))
    ensures Means(m, Some(J.Join(m.k.current, cid)), MApply(m, Join(cid)))
  {
    var m', t := MApply(m, Join(cid)), m.k.current;
    PhaseOf(m, t);
    hide PointsOk, Phases, Enabled;
    if IsChild(m, t, cid) {
      OneMoves(m, m', t);
      assert Records(m') == Records(m);
    }
  }

  /** notifyParent calls V, and nothing is seen yet. */
  lemma ExitCalls(m: M)
    requires PartsOk(m) && MEnabled(m, Exit) && HasRecord(m, m.k.current)
    ensures Means(m, None, MApply(m, Exit))
  {
    var m', t := MApply(m, Exit), m.k.current;
    PhaseOf(m, t);
    hide PointsOk, Phases, Enabled, J.Shaped;
    OneMoves(m, m', t);
    assert Phases(m') == Phases(m) && Records(m') == Records(m);
  }

  /** There is nobody to notify. */
  lemma ExitNotes(m: M)
    requires PartsOk(m) && MEnabled(m, Exit) && !HasRecord(m, m.k.current)
    ensures Means(m, Some(J.Notify(m.k.current)), MApply(m, Exit))
  {
    var m', t := MApply(m, Exit), m.k.current;
    PhaseOf(m, t);
    hide PointsOk, Phases;
    OneMoves(m, m', t);
    assert Records(m') == Records(m);
  }

  lemma ExitMeans(m: M)
    requires PartsOk(m) && MEnabled(m, Exit)
    ensures Means(m, Seen(m, Exit), MApply(m, Exit))
  {
    hide PartsOk, Means, MApply, Enabled;
    if HasRecord(m, m.k.current) { ExitCalls(m); } else { ExitNotes(m); }
  }

  lemma EndMeans(m: M)
    requires PartsOk(m) && MEnabled(m, End)
    ensures Means(m, Some(J.Finish(m.k.current)), MApply(m, End))
  {
    var m', t := MApply(m, End), m.k.current;
    PhaseOf(m, t);
    hide PointsOk, Phases, Enabled;
    OneMoves(m, m', t);
    assert Records(m') == Records(m);
  }

  /** Going on to user code or to Fork is not seen. */
  lemma LeavesCall(m: M, m': M)
    requires InCode(m) && Known(m) && SemsDiffer(m.records) && PointsOk(m)
    requires Quiet(m.at[m.k.current]) || m.at[m.k.current].ToFork?
    requires m' == m.(at := m.at[m.k.current := Elsewhere])
    ensures Means(m, None, m')
  {
    var t := m.k.current;
    PhaseOf(m, t);
    hide PointsOk, Phases;
    OneMoves(m, m', t);
    assert Phases(m') == Phases(m) && Records(m') == Records(m);
  }

  // ---------- What the system calls do not see ----------

  lemma OwnSem(records: seq<Rec>, id: nat)
    requires id < |records|
    ensures records[id].sem in SemsOf(records)
  {
  }

  lemma InsidePoint(m: M, t: Tid)
    requires t in m.at && PointOk(m, t) && !Outside(m.at[t])
    ensures InsiderOk(StackOf(m.k, t), UseOf(m))
  {
    if m.at[t].InJoin? || m.at[t].InNotify? { OwnSem(m.records, m.at[t].id); }
    hide SemsOf;
  }

  lemma RelatedHolds(m: M)
    requires PointsOk(m)
    ensures Related(m.k, UseOf(m), InsideOf(m))
  {
    hide Unrelated, UseOf, InsiderOk;
    forall t | t in InsideOf(m)
      ensures t in m.k.threads && InsiderOk(m.k.threads[t].stack, UseOf(m))
    {
      InsidePoint(m, t);
    }
    forall t | t in m.k.threads && t !in InsideOf(m)
      ensures Unrelated(m.k.threads[t].stack, UseOf(m))
    {
      if t in m.at { assert PointOk(m, t); }
    }
  }

  lemma AlikePhase(p: Point, th: Thread, th': Thread)
    requires Alike(th, th')
    ensures PhaseAt(p, th'.stack) == PhaseAt(p, th.stack)
  {
  }

  lemma ForeignThread(m: M, k': K, t: Tid)
    requires PointsOk(m) && t in m.at && ThreadsUntouched(m.k, k', UseOf(m), InsideOf(m))
    ensures PhaseAt(m.at[t], StackOf(k', t)) == PhaseAt(m.at[t], StackOf(m.k, t))
    ensures PointOk(m.(k := k'), t) && (t !in k'.threads ==> Outside(m.at[t]))
  {
    assert PointOk(m, t);
    if Outside(m.at[t]) {
      hide PointsOk, Alike, SemsOf;
      hide Unrelated;
    } else {
      assert t in InsideOf(m);
      hide PointsOk, Unrelated, UseOf, PhaseAt;
      AlikePhase(m.at[t], m.k.threads[t], k'.threads[t]);
    }
  }

  lemma ForeignMeans(m: M, k': K)
    requires Known(m) && SemsDiffer(m.records) && PointsOk(m) && Foreign(m.k, k', UseOf(m), InsideOf(m))
    ensures Means(m, None, m.(k := k'))
  {
    var m' := m.(k := k');
    forall id | 0 <= id < |m.records|
      ensures m.records[id].sem in k'.sems && k'.sems[m.records[id].sem] == m.k.sems[m.records[id].sem]
    {
      OwnSem(m.records, id);
    }
    assert Known(m') && Records(m') == Records(m);
    hide PhaseAt, Between, Unrelated, PointOk, SemsOf, Records, PartsUntouched;
    forall t | t in m.at
      ensures PhaseAt(m.at[t], StackOf(k', t)) == PhaseAt(m.at[t], StackOf(m.k, t))
      ensures PointOk(m', t) && (t !in k'.threads ==> Outside(m.at[t]))
    {
      ForeignThread(m, k', t);
    }
    assert Phases(m') == Phases(m);
  }

  /** A step of the kernel that is not theirs is not seen. */
  lemma StepUnseen(m: M, s: Step)
    requires KernelInv.Inv(m.k) && Known(m) && SemsDiffer(m.records) && PointsOk(m)
    requires Enabled(m.k, s) && !Concerns(m.k, s, UseOf(m), InsideOf(m))
    ensures Means(m, None, m.(k := Apply(m.k, s)))
  {
    hide KernelInv.Inv, PointsOk, Means, Related, Enabled, Apply, Foreign;
    RelatedHolds(m);
    OtherStep(m.k, s, UseOf(m), InsideOf(m));
    ForeignMeans(m, Apply(m.k, s));
  }
}
