/** SynchDisk over the asynchronous Disk (filesys/synchdisk.cc and the request
    and interrupt paths of machine/disk.cc), with any number of threads.

    Each step is one stretch that runs with interrupts off (one test of the
    lock or semaphore loop, a release, a V) or one device action; the steps of
    different threads and the disk interrupt interleave freely. */
module SynchDisks {
  import opened Options

  type Tid = nat

  /** `T` is the contents of a sector. */
  datatype Request<T> = Read(sector: nat) | Write(sector: nat, data: T)

  /** Where a thread is in ReadSector or WriteSector. */
  datatype Pc<T> =
    | Outside
    | Acquiring(r: Request<T>)    // about to test the lock, for the first time or again
    | LockQueued(r: Request<T>)   // asleep in lock->Acquire
    | Locked(r: Request<T>)       // about to issue the request
    | Waiting(r: Request<T>)      // request issued; about to test the semaphore
    | SemQueued(r: Request<T>)    // asleep in semaphore->P
    | Served(r: Request<T>)       // P done; about to release the lock

  /** A transfer performed by the disk: `data` is what was read or written. */
  datatype Event<T> = Event(t: Tid, r: Request<T>, data: T)

  /** `log`, `began` and `at` are history: the transfers so far, how many there
      were when a thread's call began, and which one is its own. */
  datatype D<T> = D(
    pc: map<Tid, Pc<T>>,
    buffer: map<Tid, Option<T>>,  // the caller's data buffer, None until filled
    available: bool, owner: Option<Tid>, lockQueue: seq<Tid>,
    value: int, semQueue: seq<Tid>,
    active: bool,
    interrupts: seq<Tid>,         // scheduled disk interrupts, by requester
    image: seq<T>,
    log: seq<Event<T>>, began: map<Tid, nat>, at: map<Tid, nat>)

  datatype Step<T> =
    | Call(t: Tid, r: Request<T>)
    | TryLock(t: Tid)
    | Issue(t: Tid)
    | TryP(t: Tid)
    | Interrupt(i: nat)
    | Unlock(t: Tid)

  predicate Enabled<T>(d: D<T>, step: Step<T>) {
    match step
    case Call(t, r) => t in d.pc && d.pc[t].Outside? && r.sector < |d.image|
    case TryLock(t) => t in d.pc && d.pc[t].Acquiring?
    case Issue(t) =>
      // ReadRequest and WriteRequest ASSERT that the disk is idle
      t in d.pc && d.pc[t].Locked? && !d.active && d.pc[t].r.sector < |d.image| && t in d.buffer
      && (d.pc[t].r.Write? ==> d.buffer[t].Some?)
    case TryP(t) => t in d.pc && d.pc[t].Waiting?
    case Interrupt(i) => i < |d.interrupts| && QueueOk(d, d.semQueue)
    case Unlock(t) => t in d.pc && d.pc[t].Served? && QueueOk(d, d.lockQueue)
  }

  predicate QueueOk<T>(d: D<T>, q: seq<Tid>) {
    q == [] || (q[0] in d.pc && !d.pc[q[0]].Outside?)
  }

  /** The first of a queue goes back to test again. */
  function Wake<T>(pc: map<Tid, Pc<T>>, q: seq<Tid>): map<Tid, Pc<T>>
    requires q == [] || (q[0] in pc && !pc[q[0]].Outside?)
  {
    if q == [] then pc
    else if pc[q[0]].LockQueued? then pc[q[0] := Acquiring(pc[q[0]].r)]
    else if pc[q[0]].SemQueued? then pc[q[0] := Waiting(pc[q[0]].r)]
    else pc
  }

  function Rest(q: seq<Tid>): seq<Tid> {
    if q == [] then [] else q[1..]
  }

  /** The data that moves when `t` issues its request. */
  function Transferred<T>(d: D<T>, t: Tid): T
    requires Enabled(d, Issue(t))
  {
    if d.pc[t].r.Read? then d.image[d.pc[t].r.sector] else d.buffer[t].value
  }

  function Apply<T>(d: D<T>, step: Step<T>): D<T>
    requires Enabled(d, step)
  {
    match step
    case Call(t, r) =>
      d.(pc := d.pc[t := Acquiring(r)],
         buffer := d.buffer[t := if r.Write? then Some(r.data) else None],
         began := d.began[t := |d.log|])
    case TryLock(t) =>
      if d.available then d.(pc := d.pc[t := Locked(d.pc[t].r)], available := false, owner := Some(t))
      else d.(pc := d.pc[t := LockQueued(d.pc[t].r)], lockQueue := d.lockQueue + [t])
    case Issue(t) =>
      var r := d.pc[t].r;
      var data := Transferred(d, t);
      d.(pc := d.pc[t := Waiting(r)],
         buffer := d.buffer[t := Some(data)],
         image := d.image[r.sector := data],
         active := true, interrupts := d.interrupts + [t],
         log := d.log + [Event(t, r, data)], at := d.at[t := |d.log|])
    case TryP(t) =>
      if d.value == 0 then d.(pc := d.pc[t := SemQueued(d.pc[t].r)], semQueue := d.semQueue + [t])
      else d.(pc := d.pc[t := Served(d.pc[t].r)], value := d.value - 1)
    case Interrupt(i) =>
      d.(interrupts := d.interrupts[..i] + d.interrupts[i + 1..], active := false,
         pc := Wake(d.pc, d.semQueue), semQueue := Rest(d.semQueue), value := d.value + 1)
    case Unlock(t) =>
      d.(pc := Wake(d.pc, d.lockQueue)[t := Outside], lockQueue := Rest(d.lockQueue), available := true, owner := None)
  }

  predicate Init<T>(d: D<T>) {
    && (forall t | t in d.pc :: d.pc[t].Outside?)
    && d.available && d.owner == None && d.lockQueue == []
    && d.value == 0 && d.semQueue == []
    && !d.active && d.interrupts == [] && d.log == []
  }

  // ---------- The invariant ----------

  predicate InSection<T>(p: Pc<T>) {
    p.Locked? || p.Waiting? || p.SemQueued? || p.Served?
  }

  ghost predicate LockInv<T>(d: D<T>) {
    && (d.available <==> d.owner == None)
    && (d.owner.Some? ==> d.owner.value in d.pc)
    && (forall t | t in d.pc :: InSection(d.pc[t]) <==> d.owner == Some(t))
    && (forall t | t in d.lockQueue :: t in d.pc && d.pc[t].LockQueued?)
    && (forall t | t in d.pc && d.pc[t].LockQueued? :: t in d.lockQueue)
    && (forall i, j | 0 <= i < j < |d.lockQueue| :: d.lockQueue[i] != d.lockQueue[j])
  }

  /** Exactly one of "interrupt to come" and "semaphore raised" holds from the
      moment the holder issues its request until it gets past P. */
  ghost predicate DeviceInv<T>(d: D<T>)
    requires d.owner.Some? ==> d.owner.value in d.pc
  {
    && d.active == (d.interrupts != [])
    && 0 <= d.value <= 1
    && match d.owner
       case None => !d.active && d.interrupts == [] && d.value == 0 && d.semQueue == []
       case Some(h) =>
         match d.pc[h]
         case Waiting(_) =>
           d.semQueue == [] && ((d.interrupts == [h] && d.value == 0) || (d.interrupts == [] && d.value == 1))
         case SemQueued(_) => d.semQueue == [h] && d.interrupts == [h] && d.value == 0
         case _ => d.interrupts == [] && d.value == 0 && d.semQueue == []
  }

  ghost function Replay<T>(start: seq<T>, log: seq<Event<T>>): (image: seq<T>)
    ensures |image| == |start|
  {
    if log == [] then start
    else
      var before := Replay(start, log[..|log| - 1]);
      var e := log[|log| - 1];
      if e.r.Write? && e.r.sector < |start| then before[e.r.sector := e.data] else before
  }

  /** The transfers are those of an array of sectors: reads return the last
      data written, and writes store what the caller passed. */
  ghost predicate EventOk<T>(start: seq<T>, log: seq<Event<T>>, i: nat)
    requires i < |log|
  {
    var e := log[i];
    e.r.sector < |start| && match e.r
    case Read(s) => e.data == Replay(start, log[..i])[s]
    case Write(_, data) => e.data == data
  }

  ghost predicate HistoryInv<T>(d: D<T>, start: seq<T>) {
    && d.image == Replay(start, d.log)
    && (forall i | 0 <= i < |d.log| :: EventOk(start, d.log, i))
    && (forall t | t in d.pc && !d.pc[t].Outside? :: CallInv(d, t))
  }

  predicate Issued<T>(p: Pc<T>) {
    p.Waiting? || p.SemQueued? || p.Served?
  }

  /** A call in progress: its buffer, and its own transfer, the only one it has
      made, once performed. */
  ghost predicate CallInv<T>(d: D<T>, t: Tid)
    requires t in d.pc && !d.pc[t].Outside?
  {
    var r := d.pc[t].r;
    && r.sector < |d.image| && t in d.buffer && t in d.began && d.began[t] <= |d.log|
    && (r.Write? ==> d.buffer[t] == Some(r.data))
    && (Issued(d.pc[t]) ==>
          t in d.at && d.began[t] <= d.at[t] < |d.log| && d.buffer[t].Some? && d.log[d.at[t]] == Event(t, r, d.buffer[t].value))
    && forall j | d.began[t] <= j < |d.log| && d.log[j].t == t :: Issued(d.pc[t]) && t in d.at && j == d.at[t]
  }

  ghost predicate Inv<T>(d: D<T>, start: seq<T>) {
    LockInv(d) && DeviceInv(d) && HistoryInv(d, start)
  }

  lemma InitInv<T>(d: D<T>)
    requires Init(d)
    ensures Inv(d, d.image)
  {
  }

  lemma LockKept<T>(d: D<T>, step: Step<T>)
    requires LockInv(d) && DeviceInv(d) && Enabled(d, step)
    ensures LockInv(Apply(d, step))
  {
    match step {
      case Interrupt(i) =>
        if d.semQueue != [] { assert d.semQueue == [d.owner.value]; }
      case Unlock(t) => UnlockKeepsLock(d, t);
      case _ =>
    }
  }

  lemma UnlockKeepsLock<T>(d: D<T>, t: Tid)
    requires LockInv(d) && Enabled(d, Unlock(t))
    ensures LockInv(Apply(d, Unlock(t)))
  {
    if d.lockQueue != [] { assert d.lockQueue[0] in d.lockQueue; }
  }

  lemma DeviceKept<T>(d: D<T>, step: Step<T>)
    requires LockInv(d) && DeviceInv(d) && Enabled(d, step)
    ensures DeviceInv(Apply(d, step))
  {
    match step {
      case Interrupt(i) => assert d.interrupts == [d.owner.value];
      case Unlock(t) =>
        if d.lockQueue != [] { assert d.lockQueue[0] in d.lockQueue; }
      case _ =>
    }
  }

  lemma ReplayOne<T>(start: seq<T>, log: seq<Event<T>>, e: Event<T>)
    ensures Replay(start, log + [e]) ==
            var before := Replay(start, log);
            if e.r.Write? && e.r.sector < |start| then before[e.r.sector := e.data] else before
  {
    assert (log + [e])[..|log|] == log;
  }

  lemma LogKept<T>(d: D<T>, start: seq<T>, t: Tid)
    requires HistoryInv(d, start) && Enabled(d, Issue(t))
    ensures var d' := Apply(d, Issue(t));
            d'.image == Replay(start, d'.log) && forall i | 0 <= i < |d'.log| :: EventOk(start, d'.log, i)
  {
    var d' := Apply(d, Issue(t));
    var e := d'.log[|d.log|];
    ReplayOne(start, d.log, e);
    assert CallInv(d, t);
    hide Replay;
    forall i | 0 <= i < |d'.log|
      ensures EventOk(start, d'.log, i)
    {
      assert d'.log[..i] == d.log[..i];
      if i < |d.log| { assert EventOk(start, d.log, i); } else { assert d.log[..i] == d.log; }
    }
  }

  /** A call is kept by any step that leaves its buffer and history alone and
      does not take it back to before its transfer. */
  lemma CallKept<T>(d: D<T>, d': D<T>, t: Tid)
    requires t in d.pc && t in d'.pc && !d.pc[t].Outside? && !d'.pc[t].Outside? && CallInv(d, t)
    requires d'.pc[t].r == d.pc[t].r
    requires Issued(d'.pc[t]) == Issued(d.pc[t])
    requires t in d'.buffer && d'.buffer[t] == d.buffer[t] && t in d'.began && d'.began[t] == d.began[t]
    requires t in d.at ==> t in d'.at && d'.at[t] == d.at[t]
    requires d.log <= d'.log && |d'.image| == |d.image|
    requires forall j | |d.log| <= j < |d'.log| :: d'.log[j].t != t
    ensures CallInv(d', t)
  {
  }

  lemma CallsKept<T>(d: D<T>, start: seq<T>, step: Step<T>, t: Tid)
    requires HistoryInv(d, start) && Enabled(d, step)
    requires var d' := Apply(d, step); t in d'.pc && !d'.pc[t].Outside?
    ensures CallInv(Apply(d, step), t)
  {
    hide EventOk, Replay;
    if t in d.pc && !d.pc[t].Outside? {
      assert CallInv(d, t);
      hide HistoryInv, Apply, Enabled;
      if step == Issue(t) {
        IssuedKept(d, t);
      } else {
        PcKept(d, step, t);
        DataKept(d, step, t);
        CallKept(d, Apply(d, step), t);
      }
    } else {
      hide HistoryInv;
    }
  }

  lemma IssuedKept<T>(d: D<T>, t: Tid)
    requires Enabled(d, Issue(t)) && CallInv(d, t)
    ensures CallInv(Apply(d, Issue(t)), t)
  {
    assert Apply(d, Issue(t)).log[|d.log|] == Event(t, d.pc[t].r, Transferred(d, t));
  }

  /** Only Issue takes a call past its transfer, and no step changes what a
      call was asked to do. */
  lemma PcKept<T>(d: D<T>, step: Step<T>, t: Tid)
    requires Enabled(d, step) && t in d.pc && !d.pc[t].Outside? && step != Issue(t)
    ensures var d' := Apply(d, step);
            && t in d'.pc
            && (!d'.pc[t].Outside? ==> d'.pc[t].r == d.pc[t].r)
            && (!d'.pc[t].Outside? ==> Issued(d'.pc[t]) == Issued(d.pc[t]))
  {
    if step.Interrupt? {
      WakeKept(d.pc, d.semQueue, t);
      hide Wake;
    } else if step.Unlock? {
      WakeKept(d.pc, d.lockQueue, t);
      hide Wake;
    }
  }

  lemma WakeKept<T>(pc: map<Tid, Pc<T>>, q: seq<Tid>, t: Tid)
    requires t in pc && !pc[t].Outside? && (q == [] || (q[0] in pc && !pc[q[0]].Outside?))
    ensures var p := Wake(pc, q); t in p && !p[t].Outside? && p[t].r == pc[t].r && Issued(p[t]) == Issued(pc[t])
  {
  }

  /** Nor does it touch another call's buffer or history. */
  lemma DataKept<T>(d: D<T>, step: Step<T>, t: Tid)
    requires Enabled(d, step) && t in d.pc && !d.pc[t].Outside? && step != Issue(t)
    ensures var d' := Apply(d, step);
            && (t in d.buffer ==> t in d'.buffer && d'.buffer[t] == d.buffer[t])
            && (t in d.began ==> t in d'.began && d'.began[t] == d.began[t])
            && (t in d.at ==> t in d'.at && d'.at[t] == d.at[t])
            && |d'.image| == |d.image|
            && d.log <= d'.log && forall j | |d.log| <= j < |d'.log| :: d'.log[j].t != t
  {
    hide Wake;
  }

  /** Every step keeps the invariant. */
  lemma StepKeeps<T>(d: D<T>, start: seq<T>, step: Step<T>)
    requires Inv(d, start) && Enabled(d, step)
    ensures Inv(Apply(d, step), start)
  {
    hide LockInv, DeviceInv, CallInv, EventOk;
    LockKept(d, step);
    DeviceKept(d, step);
    var d' := Apply(d, step);
    forall t | t in d'.pc && !d'.pc[t].Outside?
      ensures CallInv(d', t)
    {
      CallsKept(d, start, step, t);
    }
    if step.Issue? { LogKept(d, start, step.t); }
  }

  // ---------- Runs ----------

  ghost predicate IsRun<T>(ds: seq<D<T>>, steps: seq<Step<T>>) {
    && |ds| == |steps| + 1
    && forall i | 0 <= i < |steps| :: Enabled(ds[i], steps[i]) && ds[i + 1] == Apply(ds[i], steps[i])
  }

  lemma {:induction false} RunsKeep<T>(ds: seq<D<T>>, steps: seq<Step<T>>)
    requires IsRun(ds, steps) && Init(ds[0])
    ensures forall i | 0 <= i < |ds| :: Inv(ds[i], ds[0].image)
    decreases |steps|
  {
    hide Inv, Enabled, Init;
    if steps == [] {
      InitInv(ds[0]);
    } else {
      var n := |steps| - 1;
      RunsKeep(ds[..n + 1], steps[..n]);
      assert Inv(ds[..n + 1][n], ds[0].image);
      StepKeeps(ds[n], ds[0].image, steps[n]);
    }
  }

  /** The disk is idle whenever a request is issued: the ASSERT that there is
      only one request at a time never fails. */
  lemma OneRequestAtATime<T>(d: D<T>, start: seq<T>, t: Tid)
    requires Inv(d, start) && t in d.pc && d.pc[t].Locked?
    ensures !d.active && Enabled(d, Issue(t))
    ensures |d.interrupts| <= 1 && 0 <= d.value <= 1
  {
    assert CallInv(d, t);
  }

  /** No thread is stuck on a queue check: every other step a thread is at, and
      every scheduled interrupt, can happen. */
  lemma NeverStuck<T>(d: D<T>, start: seq<T>)
    requires Inv(d, start)
    ensures forall i | 0 <= i < |d.interrupts| :: Enabled(d, Interrupt(i))
    ensures forall t | t in d.pc && d.pc[t].Served? :: Enabled(d, Unlock(t))
  {
    hide HistoryInv;
    if d.lockQueue != [] { assert d.lockQueue[0] in d.lockQueue; }
  }

  /** A thread gets past P only after the interrupt of its own request: while
      that interrupt is still to come the semaphore is 0, so the test of P
      fails; and the interrupt is that of the thread waiting. */
  lemma PassesAfterOwnInterrupt<T>(d: D<T>, start: seq<T>, t: Tid)
    requires Inv(d, start) && Enabled(d, TryP(t))
    ensures Apply(d, TryP(t)).pc[t].Served? <==> d.interrupts == []
    ensures d.interrupts != [] ==> d.interrupts == [t]
  {
    hide HistoryInv;
  }

  /** The calls are atomic reads and writes of a sector array: a returning call
      has made exactly one transfer between its beginning and now; a read
      returns what the transfers before that one left in the sector; and the
      disk holds the effect of all transfers in order. */
  lemma CallsAreAtomic<T>(ds: seq<D<T>>, steps: seq<Step<T>>, n: nat, t: Tid)
    requires IsRun(ds, steps) && Init(ds[0]) && n < |steps| && steps[n] == Unlock(t)
    ensures var d := ds[n];
            var r := d.pc[t].r;
            && t in d.at && t in d.began && t in d.buffer && d.buffer[t].Some?
            && d.began[t] <= d.at[t] < |d.log|
            && d.log[d.at[t]] == Event(t, r, d.buffer[t].value)
            && (forall j | d.began[t] <= j < |d.log| && d.log[j].t == t :: j == d.at[t])
            && r.sector < |ds[0].image|
            && (r.Read? ==> d.buffer[t].value == Replay(ds[0].image, d.log[..d.at[t]])[r.sector])
            && (r.Write? ==> d.buffer[t].value == r.data)
            && d.image == Replay(ds[0].image, d.log)
  {
    RunsKeep(ds, steps);
    var d := ds[n];
    assert Enabled(d, steps[n]);
    hide IsRun, Init, LockInv, DeviceInv;
    assert CallInv(d, t);
    assert EventOk(ds[0].image, d.log, d.at[t]);
  }
}
