/** SynchList as kernel threads run it: the calls of Acquire, Wait, Signal and
    Release are the kernel's, with its sleeping, preemption, scheduling and
    interrupts, and every run of that is a run of the SynchLists module. */
module Monitors {
  import opened Options
  import opened Kernel
  import KernelInv
  import opened KernelUse
  import S = SynchLists

  /** How far a thread has got in SynchList's own code.  A point that names a
      kernel routine is kept until the code after the call goes on. */
  datatype Point<T> =
    | Elsewhere
    | InAcquire(op: S.Op<T>)
    | HasRead(x: T, was: seq<T>)
    | ToSignal
    | InSignal
    | InWait(signalled: bool)
    | ToTake(signalled: bool)
    | HasTaken(was: seq<T>, signalled: bool)
    | ToRelease
    | InRelease

  /** The kernel, the threads that use the list, and the list with its lock and
      its condition. */
  datatype M<T> = M(
    k: K, l: LockId, c: CondId,
    at: map<Tid, Point<T>>,
    list: seq<T>, appended: seq<T>, removed: seq<T>)

  datatype MStep<T> =
    | Kern(step: Step)         // any kernel step but a call from SynchList
    | Start(op: S.Op<T>)       // the current thread calls Append or Remove
    | Continue                 // the current thread goes on in SynchList's code

  /** What SynchList keeps to itself, and who is in its code. */
  function UseOf<T>(m: M<T>): Use {
    Use({m.l}, {}, {m.c})
  }

  function InsideOf<T>(m: M<T>): set<Tid> {
    set t | t in m.at && !m.at[t].Elsewhere?
  }

  /** The current thread is running SynchList's own code. */
  predicate InCode<T>(m: M<T>) {
    CurrentOk(m.k) && !m.k.sleeping && Cur(m.k).stack == [] && m.k.current in m.at
  }

  predicate Quiet<T>(p: Point<T>) {
    p.Elsewhere? || p.InRelease?
  }

  /** The routine the current thread calls next, if it calls one. */
  function NextCall<T>(m: M<T>): Option<Call>
    requires m.k.current in m.at
  {
    match m.at[m.k.current]
    case ToSignal => Some(Signal(m.c, m.l))
    case InSignal => Some(Release(m.l))
    case ToRelease => Some(Release(m.l))
    case InWait(_) => if m.list == [] then Some(Wait(m.c, m.l, Releasing)) else None
    case InAcquire(op) => if op.Remove? && m.list == [] then Some(Wait(m.c, m.l, Releasing)) else None
    case _ => None
  }

  predicate MEnabled<T>(m: M<T>, step: MStep<T>) {
    match step
    case Kern(s) =>
      && Enabled(m.k, s)
      && (s.Enter? ==> !Mentions(s.call, UseOf(m)) && (m.k.current in m.at ==> Quiet(m.at[m.k.current])))
    case Start(op) => InCode(m) && Quiet(m.at[m.k.current]) && Enabled(m.k, Enter(Acquire(m.l, false)))
    case Continue =>
      && InCode(m) && !Quiet(m.at[m.k.current])
      && (NextCall(m).Some? ==> Enabled(m.k, Enter(NextCall(m).value)))
      && (m.at[m.k.current].HasTaken? ==> m.at[m.k.current].was != [])     // ASSERT(item != NULL)
  }

  function Moved<T>(m: M<T>, p: Point<T>): M<T> {
    m.(at := m.at[m.k.current := p])
  }

  function MApply<T>(m: M<T>, step: MStep<T>): M<T>
    requires MEnabled(m, step)
  {
    match step
    case Kern(s) =>
      var m1 := m.(k := Apply(m.k, s));
      if s.Enter? && m.k.current in m.at then m1.(at := m.at[m.k.current := Elsewhere]) else m1
    case Start(op) => Moved(m, InAcquire(op)).(k := Push(m.k, Acquire(m.l, false)))
    case Continue =>
      match m.at[m.k.current]
      case InAcquire(op) => if op.Append? then Moved(m, HasRead(op.x, m.list)) else Tested(m, false)
      case HasRead(x, was) => Moved(m, ToSignal).(list := was + [x], appended := m.appended + [x])
      case ToSignal => Moved(m, InSignal).(k := Push(m.k, Signal(m.c, m.l)))
      case InSignal => Moved(m, InRelease).(k := Push(m.k, Release(m.l)))
      case InWait(_) => Tested(m, true)
      case ToTake(s) => Moved(m, HasTaken(m.list, s))
      case HasTaken(was, _) => Moved(m, ToRelease).(list := was[1..], removed := m.removed + [was[0]])
      case ToRelease => Moved(m, InRelease).(k := Push(m.k, Release(m.l)))
  }

  /** The while of Remove. */
  function Tested<T>(m: M<T>, s: bool): M<T>
    requires CurrentOk(m.k)
  {
    if m.list == [] then Moved(m, InWait(s)).(k := Push(m.k, Wait(m.c, m.l, Releasing)))
    else Moved(m, ToTake(s))
  }

  /* What a state of the kernel means for SynchList. */

  predicate Inside(st: seq<Frame>, i: nat) {
    i < |st| && !st[i].done
  }

  function Acquires<T>(op: S.Op<T>, s: bool, th: Thread): S.Pc<T> {
    if th.status == Blocked then S.LockQueued(op, s) else S.Acquiring(op, s)
  }

  function WaitPc<T>(th: Thread, s: bool): S.Pc<T>
    requires th.stack != [] && th.stack[0].call.Wait?
  {
    match th.stack[0].call.stage
    case Releasing => S.Testing(s)
    case Queueing => if Inside(th.stack, 1) then S.Testing(s) else S.CondQueued
    case Asleep => if th.status == Blocked then S.CondQueued else S.Acquiring(S.Remove, true)
    case Reacquiring => if Inside(th.stack, 1) then Acquires(S.Remove, true, th) else S.Testing(true)
  }

  function PcAt<T>(p: Point<T>, th: Thread): S.Pc<T> {
    var st := th.stack;
    match p
    case Elsewhere => S.Outside
    case InAcquire(op) =>
      if st != [] && st[0].call.Acquire? && !st[0].done then Acquires(op, false, th)
      else if op.Append? then S.ReadToAppend(op.x) else S.Testing(false)
    case HasRead(x, was) => S.WriteAppend(x, was)
    case ToSignal => S.Signalling
    case InSignal => if st != [] && st[0].call.Signal? && !st[0].done then S.Signalling else S.Releasing
    case InWait(s) => if st != [] && st[0].call.Wait? then WaitPc(th, s) else S.Testing(true)
    case ToTake(s) => S.ReadToRemove(s)
    case HasTaken(was, s) => S.WriteRemove(was, s)
    case ToRelease => S.Releasing
    case InRelease => if st != [] && st[0].call.Release? && !st[0].done then S.Releasing else S.Outside
  }

  function PcOf<T>(m: M<T>, t: Tid): S.Pc<T>
    requires t in m.at
  {
    if t in m.k.threads then PcAt(m.at[t], m.k.threads[t]) else S.Outside
  }

  /** The current thread has released the lock in Wait and is about to queue. */
  predicate InWindow<T>(m: M<T>) {
    && m.k.current in m.at && m.at[m.k.current].InWait? && m.k.current in m.k.threads
    && var st := m.k.threads[m.k.current].stack;
       st != [] && st[0].call.Wait? && st[0].call.stage == Queueing && !Inside(st, 1)
  }

  function Meaning<T>(m: M<T>): S.L<T>
    requires m.l in m.k.locks
  {
    S.L(map t | t in m.at :: PcOf(m, t),
        m.k.locks[m.l].available, m.k.locks[m.l].owner, Q(m.k, LockQueue(m.l)),
        Q(m.k, CondQueue(m.c)) + if InWindow(m) then [m.k.current] else [],
        m.list, m.appended, m.removed)
  }

  predicate PointOk<T>(p: Point<T>, st: seq<Frame>, l: LockId, c: CondId) {
    match p
    case Elsewhere => Unrelated(st, Use({l}, {}, {c}))
    case InAcquire(_) => AtUser(st) || (|st| == 1 && st[0].call.Acquire? && st[0].call.l == l)
    case InSignal => AtUser(st) || (|st| == 1 && st[0].call == Signal(c, l))
    case InRelease => AtUser(st) || (|st| == 1 && st[0].call == Release(l))
    case InWait(_) => AtUser(st) || (st != [] && st[0].call.Wait? && st[0].call.l == l && st[0].call.c == c)
    case _ => AtUser(st)
  }

  ghost predicate PointsOk<T>(m: M<T>) {
    && (forall t | t in m.at :: PointOk(m.at[t], StackOf(m.k, t), m.l, m.c))
    && (forall t | t in m.at && t !in m.k.threads :: m.at[t].Elsewhere?)
    && (forall t | t in m.k.threads && t !in m.at :: Unrelated(m.k.threads[t].stack, UseOf(m)))
  }

  /** A thread that found the list empty and still holds the lock. */
  ghost predicate WaitersOk<T>(m: M<T>) {
    forall t | t in m.at && m.at[t].InWait? && StackOf(m.k, t) != [] && StackOf(m.k, t)[0].call.Wait?
               && PcOf(m, t).Testing? && StackOf(m.k, t)[0].call.stage != Reacquiring :: m.list == []
  }

  ghost predicate MInv<T>(m: M<T>) {
    && KernelInv.Inv(m.k) && m.l in m.k.locks
    && PointsOk(m) && WaitersOk(m)
    && S.Inv(Meaning(m))
  }

  predicate MInit<T>(m: M<T>) {
    && Init(m.k) && m.l in m.k.locks
    && (forall t | t in m.at :: m.at[t].Elsewhere?)
    && m.list == [] && m.appended == [] && m.removed == []
  }

  lemma InitMeans<T>(m: M<T>)
    requires MInit(m)
    ensures MInv(m) && S.Init(Meaning(m))
  {
    KernelInv.InitInv(m.k);
    S.InitInv(Meaning(m));
  }

  /** What SynchLists sees of a step: a step of its own, or nothing. */
  function Seen<T>(m: M<T>, step: MStep<T>): Option<S.Step<T>>
    requires MEnabled(m, step)
  {
    var t := m.k.current;
    match step
    case Start(op) => Some(S.Call(t, op))
    case Continue => if NextCall(m).Some? then None else Some(S.Go(t))
    case Kern(s) =>
      if s.Body? && t in m.at && SeenBody(m.at[t], Cur(m.k).stack) then Some(S.Go(t)) else None
  }

  /** The innermost routine is SynchList's Acquire, Signal or Release. */
  predicate SeenBody<T>(p: Point<T>, st: seq<Frame>)
    requires st != []
  {
    match p
    case InAcquire(_) => st[0].call.Acquire?
    case InSignal => st[0].call.Signal?
    case InRelease => st[0].call.Release?
    case InWait(_) => st[0].call.Wait? && |st| == 2
    case _ => false
  }

  ghost predicate Simulated<T>(m: M<T>, step: MStep<T>, m': M<T>)
    requires MEnabled(m, step) && m.l in m.k.locks && m'.l in m'.k.locks
  {
    match Seen(m, step)
    case None => Meaning(m') == Meaning(m)
    case Some(s) => S.Enabled(Meaning(m), s) && Meaning(m') == S.Apply(Meaning(m), s)
  }

  /** All but one thread are where they were. */
  ghost predicate OnlyMoves<T>(m: M<T>, m': M<T>, t: Tid) {
    && m'.l == m.l && m'.c == m.c && m.l in m.k.locks && m.l in m'.k.locks
    && t in m.at && m'.at.Keys == m.at.Keys
    && forall u | u in m.at && u != t :: PcOf(m', u) == PcOf(m, u)
  }

  lemma PcMoves<T>(m: M<T>, m': M<T>, t: Tid)
    requires OnlyMoves(m, m', t)
    ensures Meaning(m').pc == Meaning(m).pc[t := PcOf(m', t)]
  {
    hide PcOf, InWindow;
  }

  /** Only the entry of thread `t` in the two maps of threads changes. */
  lemma OthersStay<T>(m: M<T>, m': M<T>, t: Tid)
    requires m'.l == m.l && m'.c == m.c && m.l in m.k.locks && m.l in m'.k.locks
    requires t in m.at && t in m'.at && m'.at == m.at[t := m'.at[t]]
    requires t in m.k.threads && t in m'.k.threads && m'.k.threads == m.k.threads[t := m'.k.threads[t]]
    ensures OnlyMoves(m, m', t)
  {
    hide PcAt;
  }

  lemma PointsStay<T>(m: M<T>, m': M<T>, t: Tid)
    requires PointsOk(m) && m'.l == m.l && m'.c == m.c && t in m.at && t in m'.at && m'.at == m.at[t := m'.at[t]]
    requires t in m.k.threads && t in m'.k.threads && m'.k.threads == m.k.threads[t := m'.k.threads[t]]
    requires PointOk(m'.at[t], m'.k.threads[t].stack, m.l, m.c)
    ensures PointsOk(m')
  {
    hide PointOk, Unrelated;
  }

  // ---------- SynchList's own code ----------

  /** The current thread moves on in its code and may call a routine. */
  ghost predicate CodeMove<T>(m: M<T>, m': M<T>, p: Point<T>, call: Option<Call>) {
    && InCode(m) && m.l in m.k.locks
    && m'.l == m.l && m'.c == m.c && m'.at == m.at[m.k.current := p]
    && m'.k == if call.Some? then Push(m.k, call.value) else m.k
  }

  lemma CodeMoves<T>(m: M<T>, m': M<T>, p: Point<T>, call: Option<Call>)
    requires CodeMove(m, m', p, call)
    requires call.Some? ==> !(call.value.Wait? && call.value.stage == Queueing)
    ensures var a, a' := Meaning(m), Meaning(m');
            && m.k.current in a.pc && a.pc[m.k.current] == PcOf(m, m.k.current)
            && a'.pc == a.pc[m.k.current := PcOf(m', m.k.current)]
            && a'.available == a.available && a'.owner == a.owner
            && a'.lockQueue == a.lockQueue && a'.condQueue == a.condQueue
            && a.list == m.list && a.appended == m.appended && a.removed == m.removed
            && a'.list == m'.list && a'.appended == m'.appended && a'.removed == m'.removed
  {
    OthersStay(m, m', m.k.current);
    PcMoves(m, m', m.k.current);
    hide PcOf;
    assert !InWindow(m) && !InWindow(m');
  }

  lemma StartSimulated<T>(m: M<T>, op: S.Op<T>, m': M<T>)
    requires m.l in m.k.locks && MEnabled(m, Start(op)) && m' == MApply(m, Start(op)) && PointsOk(m)
    requires Cur(m.k).status == Running
    ensures Simulated(m, Start(op), m') && PointsOk(m')
  {
    hide Enabled, PointsOk;
    CodeMoves(m, m', InAcquire(op), Some(Acquire(m.l, false)));
    PointsStay(m, m', m.k.current);
    hide Meaning;
    assert PcOf(m, m.k.current) == S.Outside;
  }

  /** The point a thread goes to next in its code. */
  function NextPoint<T>(m: M<T>): Point<T>
    requires m.k.current in m.at
  {
    match m.at[m.k.current]
    case InAcquire(op) =>
      if op.Append? then HasRead(op.x, m.list) else if m.list == [] then InWait(false) else ToTake(false)
    case HasRead(_, _) => ToSignal
    case ToSignal => InSignal
    case InSignal => InRelease
    case InWait(_) => if m.list == [] then InWait(true) else ToTake(true)
    case ToTake(s) => HasTaken(m.list, s)
    case HasTaken(_, _) => ToRelease
    case ToRelease => InRelease
    case other => other
  }

  lemma ContinueMoves<T>(m: M<T>, m': M<T>)
    requires m.l in m.k.locks && MEnabled(m, Continue) && m' == MApply(m, Continue)
    ensures CodeMove(m, m', NextPoint(m), NextCall(m))
  {
    hide Enabled;
  }

  lemma ContinuePoint<T>(m: M<T>)
    requires InCode(m) && !Quiet(m.at[m.k.current])
    ensures var st := if NextCall(m).Some? then [Frame(NextCall(m).value, m.k.level, false)] else [];
            PointOk(NextPoint(m), st, m.l, m.c)
  {
  }

  /** A call is not seen: the thread is where it was, inside the routine. */
  lemma ContinueCalls<T>(m: M<T>, m': M<T>)
    requires InCode(m) && CodeMove(m, m', NextPoint(m), NextCall(m)) && !Quiet(m.at[m.k.current]) && NextCall(m).Some?
    ensures PcOf(m', m.k.current) == PcOf(m, m.k.current)
  {
  }

  lemma ContinueGoes<T>(m: M<T>, m': M<T>, a: S.L<T>, a': S.L<T>)
    requires InCode(m) && CodeMove(m, m', NextPoint(m), NextCall(m)) && !Quiet(m.at[m.k.current]) && NextCall(m).None?
    requires m.at[m.k.current].HasTaken? ==> m.at[m.k.current].was != []
    requires MEnabled(m, Continue) && m' == MApply(m, Continue)
    requires m.k.current in a.pc && a.pc[m.k.current] == PcOf(m, m.k.current)
    requires a.list == m.list && a.appended == m.appended && a.removed == m.removed
    requires a' == a.(pc := a.pc[m.k.current := PcOf(m', m.k.current)], list := m'.list,
                      appended := m'.appended, removed := m'.removed)
    ensures S.Enabled(a, S.Go(m.k.current)) && a' == S.Apply(a, S.Go(m.k.current))
  {
    hide PointsOk;
  }

  lemma ContinueSimulated<T>(m: M<T>, m': M<T>)
    requires m.l in m.k.locks && MEnabled(m, Continue) && m' == MApply(m, Continue) && PointsOk(m)
    ensures Simulated(m, Continue, m') && PointsOk(m')
  {
    ContinueMoves(m, m');
    hide Enabled, PointsOk, PcOf, NextPoint, NextCall, PointOk, MApply;
    ContinuePoint(m);
    PointsStay(m, m', m.k.current);
    CodeMoves(m, m', NextPoint(m), NextCall(m));
    if NextCall(m).Some? {
      ContinueCalls(m, m');
    } else {
      ContinueGoes(m, m', Meaning(m), Meaning(m'));
    }
    hide Meaning;
  }
}
