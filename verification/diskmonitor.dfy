/** SynchDisk as kernel threads run it: the calls of Acquire, P and Release are
    the kernel's, and the disk interrupt is the device interrupt that performs
    the V.  Every run of that is a run of the SynchDisks module. */
module DiskMonitors {
  import opened Options
  import opened Kernel
  import KernelInv
  import opened KernelUse
  import S = SynchDisks

  /** How far a thread has got in ReadSector or WriteSector.  A point that names
      a kernel routine is kept until the code after the call goes on. */
  datatype Point<T> =
    | Elsewhere
    | InAcquire(r: S.Request<T>)
    | ToP(r: S.Request<T>)
    | InP(r: S.Request<T>)
    | InRelease(r: S.Request<T>)

  /** The disk, the callers' buffers and the history, as in SynchDisks. */
  datatype Device<T> = Device(
    buffer: map<Tid, Option<T>>, active: bool, interrupts: seq<Tid>, image: seq<T>,
    log: seq<S.Event<T>>, began: map<Tid, nat>, transfer: map<Tid, nat>)

  /** The kernel, the threads that use the disk, and SynchDisk's lock and
      semaphore. */
  datatype M<T> = M(k: K, l: LockId, s: SemId, at: map<Tid, Point<T>>, io: Device<T>)

  datatype MStep<T> =
    | Kern(step: Step)             // any kernel step that is not one of the others
    | Start(r: S.Request<T>)       // the current thread calls ReadSector or WriteSector
    | Continue                     // the current thread goes on in SynchDisk's code
    | Interrupt(i: nat)            // a scheduled disk interrupt happens

  function UseOf<T>(m: M<T>): Use {
    Use({m.l}, {m.s}, {})
  }

  function InsideOf<T>(m: M<T>): set<Tid> {
    set t | t in m.at && !m.at[t].Elsewhere?
  }

  /** The current thread is running SynchDisk's own code. */
  predicate InCode<T>(m: M<T>) {
    CurrentOk(m.k) && !m.k.sleeping && Cur(m.k).stack == [] && m.k.current in m.at
  }

  predicate Quiet<T>(p: Point<T>) {
    p.Elsewhere? || p.InRelease?
  }

  /** ReadRequest and WriteRequest ASSERT an idle disk and a sector of it. */
  predicate CanIssue<T>(io: Device<T>, t: Tid, r: S.Request<T>) {
    && !io.active && r.sector < |io.image|
    && t in io.buffer && (r.Write? ==> io.buffer[t].Some?)
  }

  function Issued<T>(io: Device<T>, t: Tid, r: S.Request<T>): Device<T>
    requires CanIssue(io, t, r)
  {
    var data := if r.Read? then io.image[r.sector] else io.buffer[t].value;
    io.(buffer := io.buffer[t := Some(data)], image := io.image[r.sector := data],
        active := true, interrupts := io.interrupts + [t],
        log := io.log + [S.Event(t, r, data)], transfer := io.transfer[t := |io.log|])
  }

  function Began<T>(io: Device<T>, t: Tid, r: S.Request<T>): Device<T> {
    io.(buffer := io.buffer[t := if r.Write? then Some(r.data) else None], began := io.began[t := |io.log|])
  }

  function Happened<T>(io: Device<T>, i: nat): Device<T>
    requires i < |io.interrupts|
  {
    io.(interrupts := io.interrupts[..i] + io.interrupts[i + 1..], active := false)
  }

  /** The kernel's side of a disk interrupt: its handler performs the V. */
  function Fires<T>(m: M<T>): Step {
    if m.k.sleeping then Idle(m.s) else Tick(m.s)
  }

  predicate MEnabled<T>(m: M<T>, step: MStep<T>) {
    match step
    case Kern(s) =>
      && Enabled(m.k, s)
      && (s.Enter? ==> !Mentions(s.call, UseOf(m)) && (m.k.current in m.at ==> Quiet(m.at[m.k.current])))
      && (s.Tick? || s.Idle? ==> s.s != m.s)
    case Start(r) =>
      InCode(m) && Quiet(m.at[m.k.current]) && r.sector < |m.io.image| && Enabled(m.k, Enter(Acquire(m.l, false)))
    case Continue =>
      && InCode(m)
      && (match m.at[m.k.current]
          case InAcquire(r) => CanIssue(m.io, m.k.current, r)
          case ToP(_) => Enabled(m.k, Enter(P(m.s, false)))
          case InP(_) => Enabled(m.k, Enter(Release(m.l)))
          case _ => false)
    case Interrupt(i) => i < |m.io.interrupts| && Enabled(m.k, Fires(m))
  }

  function Moved<T>(m: M<T>, p: Point<T>): M<T> {
    m.(at := m.at[m.k.current := p])
  }

  function MApply<T>(m: M<T>, step: MStep<T>): M<T>
    requires MEnabled(m, step)
  {
    match step
    case Kern(s) =>
      var m1 := m.(k := Apply(m.k, s));
      if s.Enter? && m.k.current in m.at then m1.(at := m.at[m.k.current := Elsewhere]) else m1
    case Start(r) => Moved(m, InAcquire(r)).(k := Push(m.k, Acquire(m.l, false)), io := Began(m.io, m.k.current, r))
    case Continue =>
      (match m.at[m.k.current]
       case InAcquire(r) => Moved(m, ToP(r)).(io := Issued(m.io, m.k.current, r))
       case ToP(r) => Moved(m, InP(r)).(k := Push(m.k, P(m.s, false)))
       case InP(r) => Moved(m, InRelease(r)).(k := Push(m.k, Release(m.l))))
    case Interrupt(i) => m.(k := Apply(m.k, Fires(m)), io := Happened(m.io, i))
  }

  /* What a state of the kernel means for SynchDisk. */

  function PcAt<T>(p: Point<T>, th: Thread): S.Pc<T> {
    var st := th.stack;
    match p
    case Elsewhere => S.Outside
    case InAcquire(r) =>
      if st != [] && st[0].call.Acquire? && !st[0].done then
        if th.status == Blocked then S.LockQueued(r) else S.Acquiring(r)
      else S.Locked(r)
    case ToP(r) => S.Waiting(r)
    case InP(r) =>
      if st != [] && st[0].call.P? && !st[0].done then
        if th.status == Blocked then S.SemQueued(r) else S.Waiting(r)
      else S.Served(r)
    case InRelease(r) => if st != [] && st[0].call.Release? && !st[0].done then S.Served(r) else S.Outside
  }

  function PcOf<T>(m: M<T>, t: Tid): S.Pc<T>
    requires t in m.at
  {
    if t in m.k.threads then PcAt(m.at[t], m.k.threads[t]) else S.Outside
  }

  function Pcs<T>(m: M<T>): map<Tid, S.Pc<T>> {
    map t | t in m.at :: PcOf(m, t)
  }

  predicate Known<T>(m: M<T>) {
    m.l in m.k.locks && m.s in m.k.sems
  }

  function Meaning<T>(m: M<T>): S.D<T>
    requires Known(m)
  {
    S.D(Pcs(m), m.io.buffer,
        m.k.locks[m.l].available, m.k.locks[m.l].owner, Q(m.k, LockQueue(m.l)),
        m.k.sems[m.s], Q(m.k, SemQueue(m.s)),
        m.io.active, m.io.interrupts, m.io.image, m.io.log, m.io.began, m.io.transfer)
  }

  predicate PointOk<T>(p: Point<T>, st: seq<Frame>, l: LockId, s: SemId) {
    match p
    case Elsewhere => Unrelated(st, Use({l}, {s}, {}))
    case InAcquire(_) => AtUser(st) || (|st| == 1 && st[0].call.Acquire? && st[0].call.l == l)
    case ToP(_) => AtUser(st)
    case InP(_) => AtUser(st) || (|st| == 1 && st[0].call.P? && st[0].call.s == s)
    case InRelease(_) => AtUser(st) || (|st| == 1 && st[0].call == Release(l))
  }

  ghost predicate PointsOk<T>(m: M<T>) {
    && (forall t | t in m.at :: PointOk(m.at[t], StackOf(m.k, t), m.l, m.s))
    && (forall t | t in m.at && t !in m.k.threads :: m.at[t].Elsewhere?)
    && (forall t | t in m.k.threads && t !in m.at :: Unrelated(m.k.threads[t].stack, UseOf(m)))
  }

  ghost predicate MInv<T>(m: M<T>) {
    KernelInv.Inv(m.k) && Known(m) && PointsOk(m)
  }

  predicate MInit<T>(m: M<T>) {
    && Init(m.k) && Known(m) && m.k.sems[m.s] == 0
    && (forall t | t in m.at :: m.at[t].Elsewhere?)
    && !m.io.active && m.io.interrupts == [] && m.io.log == []
  }

  lemma InitMeans<T>(m: M<T>)
    requires MInit(m)
    ensures MInv(m) && S.Init(Meaning(m))
  {
    KernelInv.InitInv(m.k);
  }

  /** What SynchDisks sees of a step: a step of its own, or nothing. */
  function Seen<T>(m: M<T>, step: MStep<T>): Option<S.Step<T>>
    requires MEnabled(m, step)
  {
    var t := m.k.current;
    match step
    case Start(r) => Some(S.Call(t, r))
    case Continue => if m.at[t].InAcquire? then Some(S.Issue(t)) else None
    case Interrupt(i) => Some(S.Interrupt(i))
    case Kern(s) => if s.Body? && t in m.at then SeenBody(m.at[t], Cur(m.k).stack, t) else None
  }

  function SeenBody<T>(p: Point<T>, st: seq<Frame>, t: Tid): Option<S.Step<T>>
    requires st != []
  {
    match p
    case InAcquire(_) => if st[0].call.Acquire? then Some(S.TryLock(t)) else None
    case InP(_) => if st[0].call.P? then Some(S.TryP(t)) else None
    case InRelease(_) => if st[0].call.Release? then Some(S.Unlock(t)) else None
    case _ => None
  }

  /** `m'` is where the step takes `m`, as SynchDisks sees it. */
  ghost predicate Means<T>(m: M<T>, seen: Option<S.Step<T>>, m': M<T>) {
    && Known(m) && Known(m') && PointsOk(m')
    && match seen
       case None => Meaning(m') == Meaning(m)
       case Some(s) => S.Enabled(Meaning(m), s) && Meaning(m') == S.Apply(Meaning(m), s)
  }

  // ---------- One thread changes ----------

  /** Only the entries of thread `t` in the two maps of threads change. */
  ghost predicate OneChanges<T>(m: M<T>, m': M<T>, t: Tid) {
    && m'.l == m.l && m'.s == m.s
    && t in m.at && t in m'.at && m'.at == m.at[t := m'.at[t]]
    && t in m.k.threads && t in m'.k.threads && m'.k.threads == m.k.threads[t := m'.k.threads[t]]
    && PointOk(m'.at[t], m'.k.threads[t].stack, m.l, m.s)
  }

  lemma OneMoves<T>(m: M<T>, m': M<T>, t: Tid)
    requires PointsOk(m) && OneChanges(m, m', t)
    ensures PointsOk(m') && Pcs(m') == Pcs(m)[t := PcOf(m', t)]
  {
    hide PcAt, PointOk, Unrelated;
    assert PointsOk(m') by { hide PcOf; }
    OthersStay(m, m', t);
    hide PcOf, PointsOk, StackOf;
  }

  lemma OthersStay<T>(m: M<T>, m': M<T>, t: Tid)
    requires OneChanges(m, m', t)
    ensures forall u | u in m.at && u != t :: PcOf(m', u) == PcOf(m, u)
  {
    hide PcAt, PointOk;
  }

  // ---------- SynchDisk's own code ----------

  lemma StartMeans<T>(m: M<T>, r: S.Request<T>)
    requires Known(m) && PointsOk(m) && MEnabled(m, Start(r)) && Cur(m.k).status == Running
    ensures Means(m, Some(S.Call(m.k.current, r)), MApply(m, Start(r)))
  {
    var m' := MApply(m, Start(r));
    assert PcOf(m, m.k.current) == S.Outside && PcOf(m', m.k.current) == S.Acquiring(r);
    hide PointsOk, PcOf, Enabled;
    OneMoves(m, m', m.k.current);
  }

  lemma IssueMeans<T>(m: M<T>)
    requires Known(m) && PointsOk(m) && MEnabled(m, Continue) && m.at[m.k.current].InAcquire?
    ensures Means(m, Some(S.Issue(m.k.current)), MApply(m, Continue))
  {
    var m', t := MApply(m, Continue), m.k.current;
    assert PcOf(m, t) == S.Locked(m.at[t].r) && PcOf(m', t) == S.Waiting(m.at[t].r);
    hide PointsOk, PcOf;
    OneMoves(m, m', t);
  }

  /** A call is not seen: the thread is where it was, inside the routine. */
  lemma CallMeans<T>(m: M<T>)
    requires Known(m) && PointsOk(m) && MEnabled(m, Continue) && !m.at[m.k.current].InAcquire? && Cur(m.k).status == Running
    ensures Means(m, None, MApply(m, Continue))
  {
    var m', t := MApply(m, Continue), m.k.current;
    assert PcOf(m', t) == PcOf(m, t);
    hide PointsOk, PcOf, Enabled;
    OneMoves(m, m', t);
    assert Pcs(m') == Pcs(m);
  }

  /** Leaving SynchDisk for good is not seen: it was outside already. */
  lemma LeavesDisk<T>(m: M<T>, m': M<T>)
    requires InCode(m) && Known(m) && PointsOk(m) && Quiet(m.at[m.k.current])
    requires m' == m.(at := m.at[m.k.current := Elsewhere])
    ensures Means(m, None, m')
  {
    var t := m.k.current;
    assert PcOf(m', t) == PcOf(m, t);
    hide PointsOk, PcOf;
    OneMoves(m, m', t);
    assert Pcs(m') == Pcs(m);
  }

  // ---------- What SynchDisk does not see ----------

  lemma RelatedHolds<T>(m: M<T>)
    requires PointsOk(m)
    ensures Related(m.k, UseOf(m), InsideOf(m))
  {
    var u := UseOf(m);
    hide Unrelated;
    forall t | t in InsideOf(m)
      ensures t in m.k.threads && InsiderOk(m.k.threads[t].stack, u)
    {
      assert PointOk(m.at[t], StackOf(m.k, t), m.l, m.s);
    }
    forall t | t in m.k.threads && t !in InsideOf(m)
      ensures Unrelated(m.k.threads[t].stack, u)
    {
      if t in m.at { assert PointOk(m.at[t], StackOf(m.k, t), m.l, m.s); }
    }
  }

  lemma AlikePc<T>(p: Point<T>, th: Thread, th': Thread)
    requires Alike(th, th')
    ensures PcAt(p, th') == PcAt(p, th)
  {
  }

  lemma AlikePoint<T>(p: Point<T>, th: Thread, th': Thread, l: LockId, s: SemId)
    requires Alike(th, th') && !p.Elsewhere? && PointOk(p, th.stack, l, s)
    ensures PointOk(p, th'.stack, l, s)
  {
  }

  lemma ForeignThread<T>(m: M<T>, k': K, t: Tid)
    requires PointsOk(m) && t in m.at && ThreadsUntouched(m.k, k', UseOf(m), InsideOf(m))
    ensures PcOf(m.(k := k'), t) == PcOf(m, t)
    ensures PointOk(m.at[t], StackOf(k', t), m.l, m.s) && (t !in k'.threads ==> m.at[t].Elsewhere?)
  {
    assert PointOk(m.at[t], StackOf(m.k, t), m.l, m.s);
    hide PointsOk, Unrelated;
    if m.at[t].Elsewhere? {
      hide Alike;
    } else {
      assert t in InsideOf(m);
      hide PcAt, PointOk, Alike;
      AlikePc(m.at[t], m.k.threads[t], k'.threads[t]);
      AlikePoint(m.at[t], m.k.threads[t], k'.threads[t], m.l, m.s);
    }
  }

  lemma ForeignMeans<T>(m: M<T>, k': K)
    requires Known(m) && PointsOk(m) && Foreign(m.k, k', UseOf(m), InsideOf(m))
    ensures Means(m, None, m.(k := k'))
  {
    var m' := m.(k := k');
    assert UsedQueue(LockQueue(m.l), UseOf(m)) && UsedQueue(SemQueue(m.s), UseOf(m));
    hide PcOf, Between, Unrelated, PointOk;
    forall t | t in m.at
      ensures PcOf(m', t) == PcOf(m, t)
      ensures PointOk(m.at[t], StackOf(k', t), m.l, m.s) && (t !in k'.threads ==> m.at[t].Elsewhere?)
    {
      ForeignThread(m, k', t);
    }
    assert Pcs(m') == Pcs(m);
  }

  /** A step of the kernel that is not SynchDisk's is not seen. */
  lemma StepUnseen<T>(m: M<T>, s: Step)
    requires MInv(m) && Enabled(m.k, s) && !Concerns(m.k, s, UseOf(m), InsideOf(m))
    ensures Means(m, None, m.(k := Apply(m.k, s)))
  {
    hide KernelInv.Inv, PointsOk, Means, Related, Enabled, Apply, Foreign;
    RelatedHolds(m);
    OtherStep(m.k, s, UseOf(m), InsideOf(m));
    ForeignMeans(m, Apply(m.k, s));
  }
}
