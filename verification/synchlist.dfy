/** SynchList (threads/synchlist.cc): a monitor around a list, with any number
    of producers and consumers.

    A step is one test of a lock loop, one Release, Signal or Wait (which
    releases the lock and queues the caller in one go, see the kernel module),
    or a read or a write of the shared list. Reads and writes of the list are
    separate steps, so that nothing but the lock keeps them together. */
module SynchLists {
  import opened Options

  type Tid = nat

  datatype Op<T> = Append(x: T) | Remove

  /** `signalled`: woken by a Signal, and has not yet found out whether there
      is still an item for it. */
  datatype Pc<T> =
    | Outside
    | Acquiring(op: Op<T>, signalled: bool)
    | LockQueued(op: Op<T>, signalled: bool)
    | ReadToAppend(x: T)                                  // holds the lock
    | WriteAppend(x: T, was: seq<T>)
    | Signalling
    | Testing(signalled: bool)                            // at the while of Remove
    | CondQueued
    | ReadToRemove(signalled: bool)
    | WriteRemove(was: seq<T>, signalled: bool)
    | Releasing

  /** `appended` and `removed` are history. */
  datatype L<T> = L(
    pc: map<Tid, Pc<T>>,
    available: bool, owner: Option<Tid>, lockQueue: seq<Tid>,
    condQueue: seq<Tid>,
    list: seq<T>,
    appended: seq<T>, removed: seq<T>)

  datatype Step<T> =
    | Call(t: Tid, op: Op<T>)
    | Go(t: Tid)                 // the next stretch of thread t

  predicate Enabled<T>(l: L<T>, step: Step<T>) {
    match step
    case Call(t, _) => t in l.pc && l.pc[t].Outside?
    case Go(t) =>
      t in l.pc && match l.pc[t]
      case Outside => false
      case LockQueued(_, _) => false
      case CondQueued => false
      case WriteRemove(was, _) => was != []       // ASSERT(item != NULL)
      case _ => true
  }

  /** The first lock waiter, if any, is made ready to test the lock again. */
  function Unlocked<T>(l: L<T>): L<T> {
    var l1 := l.(available := true, owner := None);
    if l.lockQueue == [] then l1
    else
      var h := l.lockQueue[0];
      if h in l.pc && l.pc[h].LockQueued?
      then l1.(pc := l.pc[h := Acquiring(l.pc[h].op, l.pc[h].signalled)], lockQueue := l.lockQueue[1..])
      else l1
  }

  function Signalled<T>(l: L<T>): L<T> {
    if l.condQueue == [] then l
    else l.(pc := l.pc[l.condQueue[0] := Acquiring(Remove, true)], condQueue := l.condQueue[1..])
  }

  function At<T>(l: L<T>, t: Tid, p: Pc<T>): L<T> {
    l.(pc := l.pc[t := p])
  }

  function Apply<T>(l: L<T>, step: Step<T>): L<T>
    requires Enabled(l, step)
  {
    match step
    case Call(t, op) => At(l, t, Acquiring(op, false))
    case Go(t) =>
      match l.pc[t]
      case Acquiring(op, s) =>
        if !l.available then At(l, t, LockQueued(op, s)).(lockQueue := l.lockQueue + [t])
        else At(l, t, if op.Append? then ReadToAppend(op.x) else Testing(s)).(available := false, owner := Some(t))
      case ReadToAppend(x) => At(l, t, WriteAppend(x, l.list))
      case WriteAppend(x, was) => At(l, t, Signalling).(list := was + [x], appended := l.appended + [x])
      case Signalling => At(Signalled(l), t, Releasing)
      case Testing(s) =>
        if l.list == [] then At(Unlocked(l), t, CondQueued).(condQueue := l.condQueue + [t])
        else At(l, t, ReadToRemove(s))
      case ReadToRemove(s) => At(l, t, WriteRemove(l.list, s))
      case WriteRemove(was, _) => At(l, t, Releasing).(list := was[1..], removed := l.removed + [was[0]])
      case Releasing => At(Unlocked(l), t, Outside)
  }

  predicate Init<T>(l: L<T>) {
    && (forall t | t in l.pc :: l.pc[t].Outside?)
    && l.available && l.owner == None && l.lockQueue == [] && l.condQueue == []
    && l.list == [] && l.appended == [] && l.removed == []
  }

  // ---------- The invariant ----------

  predicate InSection<T>(p: Pc<T>) {
    !(p.Outside? || p.Acquiring? || p.LockQueued? || p.CondQueued?)
  }

  ghost predicate LockInv<T>(l: L<T>) {
    && (l.available <==> l.owner == None)
    && (l.owner.Some? ==> l.owner.value in l.pc)
    && (forall t | t in l.pc :: InSection(l.pc[t]) <==> l.owner == Some(t))
    && (forall t | t in l.pc && l.pc[t].Acquiring? && l.pc[t].signalled :: l.pc[t].op.Remove?)
    && (forall t | t in l.pc && l.pc[t].LockQueued? && l.pc[t].signalled :: l.pc[t].op.Remove?)
  }

  ghost predicate QueueInv<T>(l: L<T>) {
    && (forall t | t in l.lockQueue :: t in l.pc && l.pc[t].LockQueued?)
    && (forall t | t in l.condQueue :: t in l.pc && l.pc[t].CondQueued?)
    && (forall i, j | 0 <= i < j < |l.lockQueue| :: l.lockQueue[i] != l.lockQueue[j])
    && (forall i, j | 0 <= i < j < |l.condQueue| :: l.condQueue[i] != l.condQueue[j])
  }

  /** First in, first out; and what a holder has read is still the list. */
  ghost predicate FifoInv<T>(l: L<T>) {
    && l.removed + l.list == l.appended
    && (forall t | t in l.pc && l.pc[t].WriteAppend? :: l.pc[t].was == l.list)
    && (forall t | t in l.pc && l.pc[t].WriteRemove? :: l.pc[t].was == l.list)
    && (forall t | t in l.pc && (l.pc[t].ReadToRemove? || l.pc[t].WriteRemove?) :: l.list != [])
  }

  predicate Pending<T>(p: Pc<T>) {
    match p
    case Acquiring(_, s) => s
    case LockQueued(_, s) => s
    case Testing(s) => s
    case ReadToRemove(s) => s
    case WriteRemove(_, s) => s
    case _ => false
  }

  /** Consumers woken by a Signal that have not yet retried. */
  function PendingSet<T>(l: L<T>): set<Tid> {
    set t | t in l.pc && Pending(l.pc[t])
  }

  ghost predicate SignalInv<T>(l: L<T>)
    requires l.owner.Some? ==> l.owner.value in l.pc
  {
    l.condQueue != [] ==>
      |l.list| <= |PendingSet(l)| + if l.owner.Some? && l.pc[l.owner.value].Signalling? then 1 else 0
  }

  ghost predicate Inv<T>(l: L<T>) {
    LockInv(l) && QueueInv(l) && FifoInv(l) && SignalInv(l)
  }

  lemma InitInv<T>(l: L<T>)
    requires Init(l)
    ensures Inv(l)
  {
  }

  // Each lemma below covers the steps from one kind of place.

  /** A step that moves `t` from inside the section to inside, or from outside
      to the lock test, and perhaps writes the list. */
  lemma MoveLocks<T>(l: L<T>, l': L<T>, t: Tid, p: Pc<T>)
    requires LockInv(l) && QueueInv(l) && t in l.pc
    requires l' == At(l, t, p).(list := l'.list, appended := l'.appended, removed := l'.removed)
    requires (InSection(l.pc[t]) && InSection(p)) || (l.pc[t].Outside? && p.Acquiring? && !p.signalled)
    ensures LockInv(l') && QueueInv(l')
  {
  }

  lemma CallKeeps<T>(l: L<T>, t: Tid, op: Op<T>)
    requires Inv(l) && Enabled(l, Call(t, op))
    ensures Inv(Apply(l, Call(t, op)))
  {
    var l' := Apply(l, Call(t, op));
    MoveLocks(l, l', t, Acquiring(op, false));
    hide LockInv, QueueInv;
    assert PendingSet(l') == PendingSet(l);
  }

  /** ReadToAppend, Testing a non-empty list, ReadToRemove: nothing shared is
      written. */
  lemma ReadKeeps<T>(l: L<T>, t: Tid)
    requires Inv(l) && Enabled(l, Go(t))
    requires l.pc[t].ReadToAppend? || (l.pc[t].Testing? && l.list != []) || l.pc[t].ReadToRemove?
    ensures Inv(Apply(l, Go(t)))
  {
    var l' := Apply(l, Go(t));
    MoveLocks(l, l', t, l'.pc[t]);
    assert PendingSet(l') == PendingSet(l);
    assert l.owner == Some(t);
    hide LockInv, QueueInv;
  }

  /** Only the holder can have read the list. */
  lemma OthersHaveNotRead<T>(l: L<T>, t: Tid, u: Tid)
    requires LockInv(l) && l.owner == Some(t) && u in l.pc && u != t
    ensures !l.pc[u].WriteAppend? && !l.pc[u].WriteRemove? && !l.pc[u].ReadToRemove?
  {
  }

  lemma AppendKeeps<T>(l: L<T>, t: Tid)
    requires Inv(l) && Enabled(l, Go(t)) && l.pc[t].WriteAppend?
    ensures Inv(Apply(l, Go(t)))
  {
    var l' := Apply(l, Go(t));
    MoveLocks(l, l', t, Signalling);
    assert PendingSet(l') == PendingSet(l);
    assert l.owner == Some(t);
    forall u | u in l.pc && u != t
      ensures !l.pc[u].WriteAppend? && !l.pc[u].WriteRemove? && !l.pc[u].ReadToRemove?
    {
      OthersHaveNotRead(l, t, u);
    }
    hide LockInv, QueueInv;
    assert l.removed + (l.list + [l.pc[t].x]) == l.removed + l.list + [l.pc[t].x];
  }

  lemma RemoveKeeps<T>(l: L<T>, t: Tid)
    requires Inv(l) && Enabled(l, Go(t)) && l.pc[t].WriteRemove?
    ensures Inv(Apply(l, Go(t)))
  {
    var l' := Apply(l, Go(t));
    MoveLocks(l, l', t, Releasing);
    assert PendingSet(l') == PendingSet(l) - {t};
    assert l.owner == Some(t);
    forall u | u in l.pc && u != t
      ensures !l.pc[u].WriteAppend? && !l.pc[u].WriteRemove? && !l.pc[u].ReadToRemove?
    {
      OthersHaveNotRead(l, t, u);
    }
    hide LockInv, QueueInv, PendingSet;
    assert l.list == [l.list[0]] + l.list[1..];
    assert l.removed + [l.list[0]] + l.list[1..] == l.removed + l.list;
  }

  lemma AcquireKeeps<T>(l: L<T>, t: Tid)
    requires Inv(l) && Enabled(l, Go(t)) && l.pc[t].Acquiring?
    ensures Inv(Apply(l, Go(t)))
  {
    var l' := Apply(l, Go(t));
    AcquireLocks(l, t);
    assert PendingSet(l') == PendingSet(l);
    hide LockInv, QueueInv;
  }

  lemma AcquireLocks<T>(l: L<T>, t: Tid)
    requires LockInv(l) && QueueInv(l) && Enabled(l, Go(t)) && l.pc[t].Acquiring?
    ensures LockInv(Apply(l, Go(t))) && QueueInv(Apply(l, Go(t)))
  {
  }

  /** Releasing the lock and going outside or, in Wait, on the condition queue. */
  lemma UnlockLocks<T>(l: L<T>, t: Tid, p: Pc<T>)
    requires LockInv(l) && QueueInv(l) && l.owner == Some(t) && (p.Outside? || p.CondQueued?)
    ensures var l' := At(Unlocked(l), t, p).(condQueue := if p.CondQueued? then l.condQueue + [t] else l.condQueue);
            LockInv(l') && QueueInv(l')
  {
    if l.lockQueue != [] { assert l.lockQueue[0] in l.lockQueue; }
  }

  lemma UnlockPending<T>(l: L<T>, t: Tid, p: Pc<T>)
    requires QueueInv(l) && t in l.pc && InSection(l.pc[t]) && (p.Outside? || p.CondQueued?)
    ensures PendingSet(At(Unlocked(l), t, p)) == PendingSet(l) - {t}
  {
    if l.lockQueue != [] { assert l.lockQueue[0] in l.lockQueue; }
  }

  lemma UnlockFifo<T>(l: L<T>, t: Tid, p: Pc<T>)
    requires QueueInv(l) && FifoInv(l) && t in l.pc && (p.Outside? || p.CondQueued?)
    ensures FifoInv(At(Unlocked(l), t, p))
  {
    if l.lockQueue != [] { assert l.lockQueue[0] in l.lockQueue; }
  }

  lemma WaitKeeps<T>(l: L<T>, t: Tid)
    requires Inv(l) && Enabled(l, Go(t)) && l.pc[t].Testing? && l.list == []
    ensures Inv(Apply(l, Go(t)))
  {
    assert l.owner == Some(t);
    UnlockLocks(l, t, CondQueued);
    UnlockFifo(l, t, CondQueued);
    hide LockInv, QueueInv;
  }

  lemma ReleaseKeeps<T>(l: L<T>, t: Tid)
    requires Inv(l) && Enabled(l, Go(t)) && l.pc[t].Releasing?
    ensures Inv(Apply(l, Go(t)))
  {
    assert l.owner == Some(t);
    var l' := Apply(l, Go(t));
    UnlockLocks(l, t, Outside);
    UnlockFifo(l, t, Outside);
    UnlockPending(l, t, Outside);
    assert PendingSet(l) - {t} == PendingSet(l);
    hide LockInv, QueueInv, PendingSet, FifoInv;
    assert l' == At(Unlocked(l), t, Outside).(condQueue := l.condQueue);
  }

  lemma SignalKeeps<T>(l: L<T>, t: Tid)
    requires Inv(l) && Enabled(l, Go(t)) && l.pc[t].Signalling?
    ensures Inv(Apply(l, Go(t)))
  {
    assert l.owner == Some(t);
    var l' := Apply(l, Go(t));
    SignalLocks(l, t);
    SignalPending(l, t);
    SignalFifo(l, t);
    hide LockInv, QueueInv, PendingSet, FifoInv;
  }

  lemma SignalFifo<T>(l: L<T>, t: Tid)
    requires QueueInv(l) && FifoInv(l) && Enabled(l, Go(t)) && l.pc[t].Signalling?
    ensures FifoInv(Apply(l, Go(t)))
  {
    if l.condQueue != [] { assert l.condQueue[0] in l.condQueue; }
  }

  lemma SignalLocks<T>(l: L<T>, t: Tid)
    requires LockInv(l) && QueueInv(l) && Enabled(l, Go(t)) && l.pc[t].Signalling?
    ensures LockInv(Apply(l, Go(t))) && QueueInv(Apply(l, Go(t)))
  {
    if l.condQueue != [] { assert l.condQueue[0] in l.condQueue; }
  }

  lemma SignalPending<T>(l: L<T>, t: Tid)
    requires QueueInv(l) && Enabled(l, Go(t)) && l.pc[t].Signalling?
    ensures var p := PendingSet(Apply(l, Go(t)));
            if l.condQueue == [] then p == PendingSet(l)
            else p == PendingSet(l) + {l.condQueue[0]} && l.condQueue[0] !in PendingSet(l)
  {
    if l.condQueue != [] { assert l.condQueue[0] in l.condQueue; }
  }

  /** Every step of every thread keeps the invariant. */
  lemma StepKeeps<T>(l: L<T>, step: Step<T>)
    requires Inv(l) && Enabled(l, step)
    ensures Inv(Apply(l, step))
  {
    hide Inv, Apply;
    match step {
      case Call(t, op) => CallKeeps(l, t, op);
      case Go(t) =>
        match l.pc[t] {
          case Acquiring(_, _) => AcquireKeeps(l, t);
          case WriteAppend(_, _) => AppendKeeps(l, t);
          case WriteRemove(_, _) => RemoveKeeps(l, t);
          case Signalling => SignalKeeps(l, t);
          case Releasing => ReleaseKeeps(l, t);
          case Testing(_) => if l.list == [] { WaitKeeps(l, t); } else { ReadKeeps(l, t); }
          case _ => ReadKeeps(l, t);
        }
    }
  }

  // ---------- Runs ----------

  ghost predicate IsRun<T>(ls: seq<L<T>>, steps: seq<Step<T>>) {
    && |ls| == |steps| + 1
    && forall i | 0 <= i < |steps| :: Enabled(ls[i], steps[i]) && ls[i + 1] == Apply(ls[i], steps[i])
  }

  lemma {:induction false} RunsKeep<T>(ls: seq<L<T>>, steps: seq<Step<T>>)
    requires IsRun(ls, steps) && Init(ls[0])
    ensures forall i | 0 <= i < |ls| :: Inv(ls[i])
    decreases |steps|
  {
    hide Inv, Enabled, Init;
    if steps == [] {
      InitInv(ls[0]);
    } else {
      var n := |steps| - 1;
      RunsKeep(ls[..n + 1], steps[..n]);
      assert Inv(ls[..n + 1][n]);
      StepKeeps(ls[n], steps[n]);
    }
  }

  /** SynchList is a FIFO queue: in every run the items removed, followed by
      the items in the list, are the items appended, in order. */
  lemma FirstInFirstOut<T>(ls: seq<L<T>>, steps: seq<Step<T>>, i: nat)
    requires IsRun(ls, steps) && Init(ls[0]) && i < |ls|
    ensures ls[i].removed + ls[i].list == ls[i].appended
  {
    hide Enabled, Init;
    RunsKeep(ls, steps);
  }

  /** Remove never takes from an empty list, so its ASSERT holds and a thread
      that is neither outside nor asleep can always go on. */
  lemma NeverStuck<T>(ls: seq<L<T>>, steps: seq<Step<T>>, i: nat, t: Tid)
    requires IsRun(ls, steps) && Init(ls[0]) && i < |ls| && t in ls[i].pc
    requires !ls[i].pc[t].Outside? && !ls[i].pc[t].LockQueued? && !ls[i].pc[t].CondQueued?
    ensures Enabled(ls[i], Go(t))
  {
    hide Init;
    RunsKeep(ls, steps);
  }

  /** Nobody waits while items go begging: with the lock free and a consumer on
      the condition queue, there are at most as many items as consumers that
      were signalled and are on their way back to the lock. */
  lemma NoLostSignal<T>(ls: seq<L<T>>, steps: seq<Step<T>>, i: nat)
    requires IsRun(ls, steps) && Init(ls[0]) && i < |ls|
    requires ls[i].available && ls[i].condQueue != []
    ensures |ls[i].list| <= |PendingSet(ls[i])|
    ensures forall t | t in PendingSet(ls[i]) ::
              ls[i].pc[t] == Acquiring(Remove, true) || ls[i].pc[t] == LockQueued(Remove, true)
  {
    hide Enabled, Init;
    RunsKeep(ls, steps);
    var l := ls[i];
    hide IsRun, QueueInv, FifoInv;
    forall t | t in PendingSet(l)
      ensures l.pc[t] == Acquiring(Remove, true) || l.pc[t] == LockQueued(Remove, true)
    {
      assert !InSection(l.pc[t]);
    }
  }
}
