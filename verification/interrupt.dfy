/** Simulated time and hardware interrupts (machine/interrupt.cc). */
module Interrupts {
  import opened Lists
  import opened Options

  const SYSTEM_TICK := 10
  const USER_TICK := 1

  datatype IntStatus = IntOff | IntOn
  datatype MachineStatus = IdleMode | SystemMode | UserMode
  datatype IntType = TimerInt | DiskInt | ConsoleWriteInt | ConsoleReadInt | NetworkSendInt | NetworkRecvInt

  /** A scheduled interrupt: which routine to call, and the device. */
  datatype PendingInterrupt = PendingInterrupt(handler: nat, kind: IntType)

  /** What a handler does to this module: it may schedule further interrupts
      and may ask for a context switch. */
  datatype Request = Request(what: PendingInterrupt, fromNow: nat)
  datatype Effect = Effect(schedules: seq<Request>, wantsYield: bool)

  type Event = Entry<PendingInterrupt>

  /** The state of the event queue and its history: every interrupt ever
      scheduled, those fired with the time each fired, and the clock. */
  datatype History = History(scheduled: multiset<Event>, pending: seq<Event>, fired: seq<Event>, at: seq<nat>, now: nat)

  /** Nothing is lost, invented or fired twice. */
  ghost predicate Conserved(h: History) {
    h.scheduled == multiset(h.fired) + multiset(h.pending)
  }

  ghost predicate Ordered(h: History) {
    && Sorted(h.pending)
    && |h.at| == |h.fired|
    // nothing fires before its time, and the clock never runs backwards
    && (forall i | 0 <= i < |h.fired| :: h.fired[i].key <= h.at[i] <= h.now)
    && (forall i, j | 0 <= i < j < |h.at| :: h.at[i] <= h.at[j])
    // interrupts fire in the order of their due times
    && Sorted(h.fired)
    && (h.fired != [] && h.pending != [] ==> h.fired[|h.fired| - 1].key <= h.pending[0].key)
  }

  ghost predicate Consistent(h: History) {
    Conserved(h) && Ordered(h)
  }

  predicate NothingDue(h: History) {
    forall i | 0 <= i < |h.pending| :: h.pending[i].key > h.now
  }

  /** With nothing left due, every interrupt ever scheduled for a time up to
      now has fired. */
  lemma DueHaveFired(h: History, e: Event)
    requires Consistent(h) && NothingDue(h) && e in h.scheduled && e.key <= h.now
    ensures e in h.fired
  {
    assert e in multiset(h.pending) <==> e in h.pending;
  }

  function DueCount(s: seq<Event>, now: nat): nat {
    if s == [] then 0 else DueCount(s[1..], now) + if s[0].key <= now then 1 else 0
  }

  function AddEvent(h: History, e: Event): History {
    h.(scheduled := h.scheduled + multiset{e}, pending := Inserted(h.pending, e))
  }

  lemma InsertedFirst(s: seq<Event>, e: Event)
    ensures Inserted(s, e)[0] == if s != [] && s[0].key <= e.key then s[0] else e
  {
    hide PutAt;
    PutAtIndex(s, Slot(s, e.key, 0), e, 0);
  }

  lemma AddKeeps(h: History, e: Event)
    requires Consistent(h) && e.key > h.now
    ensures Consistent(AddEvent(h, e))
  {
    hide Inserted, Sorted;
    InsertedSorted(h.pending, e);
    InsertedFirst(h.pending, e);
  }

  lemma {:induction false} AddDueCount(s: seq<Event>, i: nat, e: Event, now: nat)
    requires i <= |s| && e.key > now
    ensures DueCount(PutAt(s, i, e), now) == DueCount(s, now)
  {
    if i > 0 {
      AddDueCount(s[1..], i - 1, e, now);
      assert PutAt(s, i, e)[1..] == PutAt(s[1..], i - 1, e);
    } else {
      assert PutAt(s, 0, e)[1..] == s;
    }
  }

  lemma InsertedDueCount(s: seq<Event>, e: Event, now: nat)
    requires e.key > now
    ensures DueCount(Inserted(s, e), now) == DueCount(s, now)
  {
    hide PutAt;
    AddDueCount(s, Slot(s, e.key, 0), e, now);
  }

  lemma LoneInserted(s: seq<Event>)
    requires s != []
    ensures Inserted(s[1..], s[0]) != [] && (|s| == 1 ==> Inserted(s[1..], s[0]) == s)
  {
    PutAtMultiset(s[1..], Slot(s[1..], s[0].key, 0), s[0]);
  }

  lemma FirstDueCount(s: seq<Event>, now: nat)
    requires s != [] && s[0].key <= now
    ensures DueCount(s[1..], now) < DueCount(s, now)
  {
  }

  /** SortedRemove followed by SortedInsert: equal keys may rotate, nothing else. */
  function PutBack(h: History): History
    requires h.pending != []
  {
    h.(pending := Inserted(h.pending[1..], h.pending[0]))
  }

  lemma PutBackKeeps(h: History)
    requires Consistent(h) && h.pending != []
    ensures Consistent(PutBack(h)) && multiset(PutBack(h).pending) == multiset(h.pending)
    ensures h.pending[0].key > h.now ==> NothingDue(PutBack(h))
  {
    PutBackMultiset(h);
    PutBackOrdered(h);
    hide Ordered, Inserted, NothingDue;
  }

  lemma PutBackMultiset(h: History)
    requires Ordered(h) && h.pending != []
    ensures multiset(PutBack(h).pending) == multiset(h.pending)
  {
    hide Inserted;
    FirstMultiset(h.pending);
    RestSorted(h.pending);
    InsertedSorted(h.pending[1..], h.pending[0]);
  }

  lemma PutBackOrdered(h: History)
    requires Ordered(h) && h.pending != []
    ensures Ordered(PutBack(h))
    ensures h.pending[0].key > h.now ==> NothingDue(PutBack(h))
  {
    hide Inserted;
    var rest, e := h.pending[1..], h.pending[0];
    RestSorted(h.pending);
    InsertedSorted(rest, e);
    InsertedFirst(rest, e);
    SortedLeast(Inserted(rest, e));
    hide Sorted;
  }

  lemma RestSorted(s: seq<Event>)
    requires s != [] && Sorted(s)
    ensures Sorted(s[1..]) && (|s| > 1 ==> s[0].key <= s[1..][0].key)
  {
  }

  lemma SortedLeast(s: seq<Event>)
    requires s != [] && Sorted(s)
    ensures forall i | 0 <= i < |s| :: s[0].key <= s[i].key
  {
  }

  lemma FirstMultiset(s: seq<Event>)
    requires s != []
    ensures multiset(s) == multiset{s[0]} + multiset(s[1..])
  {
    assert s == [s[0]] + s[1..];
  }

  function Fire(h: History): History
    requires h.pending != []
  {
    h.(pending := h.pending[1..], fired := h.fired + [h.pending[0]], at := h.at + [h.now])
  }

  lemma FireKeeps(h: History)
    requires Consistent(h) && h.pending != [] && h.pending[0].key <= h.now
    ensures Consistent(Fire(h))
  {
    FireOrdered(h);
    hide Ordered;
    assert h.pending == [h.pending[0]] + h.pending[1..];
  }

  lemma FireOrdered(h: History)
    requires Ordered(h) && h.pending != [] && h.pending[0].key <= h.now
    ensures Ordered(Fire(h))
  {
  }

  lemma AdvanceKeeps(h: History, now: nat)
    requires Consistent(h) && h.now <= now
    ensures Consistent(h.(now := now))
  {
  }

  /** A change of the history by one call of Schedule, one put-back, one firing
      or a move of the clock. */
  ghost predicate Moves(h: History, h': History) {
    || (exists e: Event :: e.key > h.now && h' == AddEvent(h, e))
    || (h.pending != [] && h' == PutBack(h))
    || (h.pending != [] && h.pending[0].key <= h.now && h' == Fire(h))
    || (h.now <= h'.now && h' == h.(now := h'.now))
  }

  ghost predicate Chain(hs: seq<History>) {
    hs != [] && forall i | 0 <= i < |hs| - 1 :: Moves(hs[i], hs[i + 1])
  }

  /** History only grows: nothing scheduled or fired is taken back, and the
      clock does not run backwards. */
  ghost predicate Extends(h: History, h': History) {
    h.fired <= h'.fired && h.at <= h'.at && h.scheduled <= h'.scheduled && h.now <= h'.now
  }

  lemma MoveKeeps(h: History, h': History)
    requires Consistent(h) && Moves(h, h')
    ensures Consistent(h') && Extends(h, h')
  {
    hide Consistent, Inserted;
    if e: Event :| e.key > h.now && h' == AddEvent(h, e) {
      AddKeeps(h, e);
    } else if h.pending != [] && h' == PutBack(h) {
      PutBackKeeps(h);
    } else if h.pending != [] && h.pending[0].key <= h.now && h' == Fire(h) {
      FireKeeps(h);
    } else {
      AdvanceKeeps(h, h'.now);
    }
  }

  /** Over every run: scheduled is fired plus pending, nothing fires early,
      firing times never decrease, and history only grows. */
  lemma {:induction false} RunsStayConsistent(hs: seq<History>, j: nat, k: nat)
    requires Chain(hs) && Consistent(hs[0]) && j <= k < |hs|
    ensures Consistent(hs[k]) && Extends(hs[j], hs[k])
    decreases k
  {
    hide Consistent, Moves;
    if k > 0 {
      RunsStayConsistent(hs, if j < k then j else j - 1, k - 1);
      assert Moves(hs[k - 1], hs[k - 1 + 1]);
      MoveKeeps(hs[k - 1], hs[k]);
    }
  }

  /** One history becomes the other by a chain of moves. */
  ghost predicate Reaches(h: History, h': History) {
    exists hs :: Chain(hs) && hs[0] == h && hs[|hs| - 1] == h'
  }

  lemma ReachesItself(h: History)
    ensures Reaches(h, h)
  {
    assert Chain([h]);
  }

  lemma ReachesBy(h: History, h1: History, h2: History)
    requires Reaches(h, h1) && Moves(h1, h2)
    ensures Reaches(h, h2)
  {
    var hs :| Chain(hs) && hs[0] == h && hs[|hs| - 1] == h1;
    var ts := hs + [h2];
    hide Moves;
    forall i | 0 <= i < |ts| - 1
      ensures Moves(ts[i], ts[i + 1])
    {
      if i < |hs| - 1 { assert ts[i] == hs[i] && ts[i + 1] == hs[i + 1]; }
    }
    assert Chain(ts);
  }

  lemma ReachesThrough(h: History, h1: History, h2: History)
    requires Reaches(h, h1) && Reaches(h1, h2)
    ensures Reaches(h, h2)
  {
    var hs :| Chain(hs) && hs[0] == h && hs[|hs| - 1] == h1;
    var ts :| Chain(ts) && ts[0] == h1 && ts[|ts| - 1] == h2;
    var us := hs + ts[1..];
    hide Moves;
    forall i | 0 <= i < |us| - 1
      ensures Moves(us[i], us[i + 1])
    {
      if i >= |hs| - 1 {
        assert us[i] == ts[i - |hs| + 1] && us[i + 1] == ts[i - |hs| + 2];
      }
    }
    assert Chain(us);
  }

  lemma MovesOnce(h: History, h': History)
    requires Moves(h, h')
    ensures Reaches(h, h')
  {
    ReachesItself(h);
    ReachesBy(h, h, h');
  }

  lemma AddReaches(h: History, e: Event)
    requires e.key > h.now
    ensures Reaches(h, AddEvent(h, e))
  {
    MovesOnce(h, AddEvent(h, e));
  }

  lemma FireReaches(h: History)
    requires h.pending != [] && h.pending[0].key <= h.now
    ensures Reaches(h, Fire(h))
  {
    MovesOnce(h, Fire(h));
  }

  lemma PutBackReaches(h: History)
    requires h.pending != []
    ensures Reaches(h, PutBack(h))
  {
    MovesOnce(h, PutBack(h));
  }

  lemma AdvanceReaches(h: History, now: nat)
    requires h.now <= now
    ensures Reaches(h, h.(now := now))
  {
    MovesOnce(h, h.(now := now));
  }

  /** What the first n requests of a handler schedule. */
  ghost function Asked(requests: seq<Request>, n: nat, now: nat): multiset<Event>
    requires n <= |requests|
  {
    if n == 0 then multiset{}
    else Asked(requests, n - 1, now) + multiset{Entry(requests[n - 1].what, now + requests[n - 1].fromNow)}
  }

  lemma AskedSteps(requests: seq<Request>, n: nat, now: nat)
    requires n <= |requests|
    ensures Asked(requests, 0, now) == multiset{}
    ensures n < |requests| ==> Asked(requests, n + 1, now)
                               == Asked(requests, n, now) + multiset{Entry(requests[n].what, now + requests[n].fromNow)}
  {
  }

  ghost function AskedBy(e: Effect, now: nat): multiset<Event> {
    Asked(e.schedules, |e.schedules|, now)
  }

  /** The ASSERT in Schedule is a demand on the device handlers. */
  ghost predicate AllStrictlyLater(effects: (nat, PendingInterrupt) -> Effect) {
    forall n, p, i | 0 <= i < |effects(n, p).schedules| :: effects(n, p).schedules[i].fromNow > 0
  }

  lemma LaterSchedules(effects: (nat, PendingInterrupt) -> Effect, n: nat, p: PendingInterrupt)
    requires AllStrictlyLater(effects)
    ensures forall i | 0 <= i < |effects(n, p).schedules| :: effects(n, p).schedules[i].fromNow > 0
  {
  }

  /** Some handler called since the n-th asked for a context switch. */
  ghost predicate YieldWanted(effects: (nat, PendingInterrupt) -> Effect, fired: seq<Event>, n: nat) {
    exists k: nat | n <= k < |fired| :: effects(k, fired[k].item).wantsYield
  }

  lemma YieldWantedGrows(effects: (nat, PendingInterrupt) -> Effect, fired: seq<Event>, e: Event, n: nat)
    requires n <= |fired|
    ensures YieldWanted(effects, fired + [e], n) <==> YieldWanted(effects, fired, n) || effects(|fired|, e.item).wantsYield
  {
    var fired' := fired + [e];
    if YieldWanted(effects, fired, n) {
      var k: nat :| n <= k < |fired| && effects(k, fired[k].item).wantsYield;
      assert effects(k, fired'[k].item).wantsYield;
    }
    if effects(|fired|, e.item).wantsYield {
      assert effects(|fired|, fired'[|fired|].item).wantsYield;
    }
  }

  lemma NoneWanted(effects: (nat, PendingInterrupt) -> Effect, fired: seq<Event>)
    ensures !YieldWanted(effects, fired, |fired|)
  {
  }

  class Interrupt {
    var level: IntStatus
    var status: MachineStatus
    var inHandler: bool
    var yieldOnReturn: bool
    const queue: List<PendingInterrupt>
    var totalTicks: nat
    var idleTicks: nat
    var systemTicks: nat
    var userTicks: nat
    /** Effect of the n-th handler call, for the interrupt that caused it: an
        arbitrary function, so arbitrary handlers. */
    const effects: (nat, PendingInterrupt) -> Effect
    ghost var pending: seq<Event>      // what the queue holds
    ghost var Repr: set<object>
    ghost var scheduled: multiset<Event>
    ghost var fired: seq<Event>
    ghost var at: seq<nat>
    var calls: nat

    ghost function H(): History
      reads this
    {
      History(scheduled, pending, fired, at, totalTicks)
    }

    ghost predicate HistoryOk()
      reads this
    {
      && Consistent(H())
      && totalTicks == idleTicks + systemTicks + userTicks
      && calls == |fired|
      && AllStrictlyLater(effects)
    }

    /** The queue, whose elements are in Repr, holds `s`. */
    ghost predicate Holds(s: seq<Event>)
      reads this`Repr, Repr
    {
      && queue in Repr && (forall n | n in queue.spine :: n in Repr)
      && queue.Valid() && queue.Contents() == s
    }

    ghost predicate Valid()
      reads this, Repr
    {
      this !in Repr && HistoryOk() && Holds(pending)
    }

    /** Valid, but for the first interrupt, which is off the queue. */
    ghost predicate Taken(toOccur: Event)
      reads this, Repr
    {
      this !in Repr && HistoryOk() && pending != [] && toOccur == pending[0] && Holds(pending[1..])
    }

    constructor (effects: (nat, PendingInterrupt) -> Effect)
      requires AllStrictlyLater(effects)
      ensures Valid() && level == IntOff && pending == [] && fired == [] && totalTicks == 0
      ensures fresh(Repr)
    {
      level, status, inHandler, yieldOnReturn := IntOff, SystemMode, false, false;
      pending, totalTicks, idleTicks, systemTicks, userTicks := [], 0, 0, 0, 0;
      scheduled, fired, at, calls := multiset{}, [], [], 0;
      this.effects := effects;
      queue := new List();
      Repr := {queue};
    }

    /** SortedInsert into the queue. */
    method Enqueue(e: Event, ghost s: seq<Event>)
      requires this !in Repr && Holds(s)
      modifies this`Repr, Repr
      ensures this !in Repr && Holds(Inserted(s, e)) && fresh(Repr - old(Repr))
    {
      queue.SortedInsert(e.item, e.key);
      Repr := Repr + set n | n in queue.spine;
    }

    method Schedule(what: PendingInterrupt, fromNow: nat)
      requires Valid() && fromNow > 0
      modifies this`pending, this`Repr, this`scheduled, Repr
      ensures Valid() && fresh(Repr - old(Repr))
      ensures H() == AddEvent(old(H()), Entry(what, totalTicks + fromNow)) && Reaches(old(H()), H())
    {
      hide Holds, Consistent, Inserted, Reaches, AllStrictlyLater;
      ghost var e := Entry(what, totalTicks + fromNow);
      AddKeeps(H(), e);
      AddReaches(H(), e);
      Enqueue(Entry(what, totalTicks + fromNow), pending);
      pending := Inserted(pending, e);
      scheduled := scheduled + multiset{e};
    }

    /** The calls of Schedule a handler makes, all strictly later than now. */
    method ScheduleAll(requests: seq<Request>)
      requires Valid() && forall i | 0 <= i < |requests| :: requests[i].fromNow > 0
      modifies this`pending, this`Repr, this`scheduled, Repr
      ensures Valid() && fresh(Repr - old(Repr))
      ensures DueCount(pending, totalTicks) == DueCount(old(pending), totalTicks)
      ensures scheduled == old(scheduled) + Asked(requests, |requests|, totalTicks)
      ensures Reaches(old(H()), H())
    {
      hide Holds, Consistent, Inserted, DueCount, Asked, AllStrictlyLater, Reaches;
      ReachesItself(H());
      AskedSteps(requests, 0, totalTicks);
      for i := 0 to |requests|
        invariant Valid() && fresh(Repr - old(Repr)) && scheduled == old(scheduled) + Asked(requests, i, totalTicks)
        invariant DueCount(pending, totalTicks) == DueCount(old(pending), totalTicks)
        invariant Reaches(old(H()), H())
      {
        var r := requests[i];
        ghost var h := H();
        AskedSteps(requests, i, totalTicks);
        InsertedDueCount(pending, Entry(r.what, totalTicks + r.fromNow), totalTicks);
        Schedule(r.what, r.fromNow);
        ReachesThrough(old(H()), h, H());
      }
    }

    /** Call a handler. */
    method CallHandler(p: PendingInterrupt)
      requires Valid() && calls > 0
      modifies this`pending, this`Repr, this`scheduled, this`yieldOnReturn, Repr
      ensures Valid() && fresh(Repr - old(Repr))
      ensures DueCount(pending, totalTicks) == DueCount(old(pending), totalTicks)
      ensures scheduled == old(scheduled) + AskedBy(effects(calls - 1, p), totalTicks)
      ensures yieldOnReturn == (old(yieldOnReturn) || effects(calls - 1, p).wantsYield)
      ensures Reaches(old(H()), H())
    {
      hide Holds, Consistent, DueCount, Asked, AllStrictlyLater, Reaches;
      var effect := effects(calls - 1, p);
      LaterSchedules(effects, calls - 1, p);
      ScheduleAll(effect.schedules);
      if effect.wantsYield {
        yieldOnReturn := true;
      }
    }

    /** The interrupt taken off the queue counts as fired. */
    method MarkFired(toOccur: Event)
      requires Taken(toOccur) && toOccur.key <= totalTicks
      modifies this`pending, this`fired, this`at, this`calls
      ensures Valid() && calls == old(calls) + 1 && H() == Fire(old(H())) && Reaches(old(H()), H())
      ensures DueCount(pending, totalTicks) < DueCount(old(pending), totalTicks)
    {
      hide Holds, Consistent, AllStrictlyLater, DueCount, Reaches;
      FireReaches(H());
      FireKeeps(H());
      FirstDueCount(pending, totalTicks);
      pending := pending[1..];
      fired, at, calls := fired + [toOccur], at + [totalTicks], calls + 1;
    }

    /** The end of CheckIfDue: the earliest interrupt, now due, fires. */
    method FireFirst(toOccur: Event)
      requires Taken(toOccur) && toOccur.key <= totalTicks
      modifies this`pending, this`Repr, this`scheduled, this`fired, this`at, this`calls,
               this`yieldOnReturn, this`inHandler, this`status, Repr
      ensures Valid() && fresh(Repr - old(Repr)) && status == old(status) && !inHandler
      ensures fired == old(fired) + [toOccur]
      ensures DueCount(pending, totalTicks) < DueCount(old(pending), totalTicks)
      ensures scheduled == old(scheduled) + AskedBy(effects(old(calls), toOccur.item), totalTicks)
      ensures yieldOnReturn == (old(yieldOnReturn) || effects(old(calls), toOccur.item).wantsYield)
      ensures Reaches(old(H()), H())
    {
      hide Holds, Consistent, AllStrictlyLater, AskedBy, DueCount, Reaches;
      var oldStatus := status;
      MarkFired(toOccur);
      ghost var h := H();
      inHandler := true;
      status := SystemMode;
      CallHandler(toOccur.item);
      ReachesThrough(old(H()), h, H());
      status := oldStatus;
      inHandler := false;
    }

    /** The interrupt taken off the queue is put back. */
    method PutBackFirst(toOccur: Event)
      requires Taken(toOccur)
      modifies this`pending, this`Repr, Repr
      ensures Valid() && fresh(Repr - old(Repr)) && Reaches(old(H()), H()) && pending != []
      ensures multiset(pending) == multiset(old(pending))
      ensures toOccur.key > totalTicks ==> NothingDue(H())
      ensures |old(pending)| == 1 ==> pending == old(pending)
    {
      hide Holds, Consistent, Inserted, AllStrictlyLater, NothingDue, Reaches;
      PutBackKeeps(H());
      PutBackReaches(H());
      LoneInserted(pending);
      Enqueue(toOccur, pending[1..]);
      pending := Inserted(pending[1..], pending[0]);
    }

    /** The clock jumps ahead while the machine is idle. */
    method JumpTo(when: nat)
      requires HistoryOk() && totalTicks < when
      modifies this`totalTicks, this`idleTicks
      ensures HistoryOk() && Reaches(old(H()), H()) && totalTicks == when
    {
      hide Holds, Consistent, AllStrictlyLater, Reaches;
      AdvanceKeeps(H(), when);
      AdvanceReaches(H(), when);
      idleTicks := idleTicks + (when - totalTicks);
      totalTicks := when;
    }

    /** SortedRemove, on a queue that may be empty. */
    method TakeFirst() returns (r: Option<Event>)
      requires Valid()
      modifies Repr
      ensures if pending == [] then r == None && Valid() else r == Some(pending[0]) && Taken(pending[0])
    {
      hide Consistent, AllStrictlyLater;
      r := queue.SortedRemove();
    }

    method IsAlone(ghost s: seq<Event>) returns (alone: bool)
      requires Holds(s)
      ensures alone <==> s == []
    {
      alone := queue.IsEmpty();
    }

    /** At most one interrupt fires: the earliest, if it is due or the clock
        may be advanced to it. */
    method CheckIfDue(advanceClock: bool) returns (r: bool)
      requires Valid() && level == IntOff
      modifies this, Repr
      ensures Valid() && fresh(Repr - old(Repr)) && level == IntOff && status == old(status)
      ensures systemTicks == old(systemTicks) && userTicks == old(userTicks)
      ensures r <==> old(pending) != [] && (advanceClock || old(pending)[0].key <= old(totalTicks))
                     && !(status == IdleMode && |old(pending)| == 1 && old(pending)[0].item.kind == TimerInt)
      ensures r ==> old(pending) != [] && fired == old(fired) + [old(pending)[0]] && !inHandler
      ensures r ==> scheduled == old(scheduled) + AskedBy(effects(old(calls), old(pending)[0].item), totalTicks)
      ensures yieldOnReturn == (old(yieldOnReturn) || (r && effects(old(calls), old(pending)[0].item).wantsYield))
      ensures r && !advanceClock ==> DueCount(pending, totalTicks) < DueCount(old(pending), totalTicks)
      ensures !advanceClock ==> totalTicks == old(totalTicks)
      ensures totalTicks == if advanceClock && old(pending) != [] && old(pending)[0].key > old(totalTicks)
                            then old(pending)[0].key else old(totalTicks)
      ensures !r ==> fired == old(fired) && scheduled == old(scheduled) && multiset(pending) == multiset(old(pending))
      ensures !r ==> pending == [] || (!advanceClock && NothingDue(H()))
                     || (status == IdleMode && |pending| == 1 && pending[0].item.kind == TimerInt)
      ensures Reaches(old(H()), H())
    {
      hide Holds, Consistent, Inserted, AllStrictlyLater, DueCount, NothingDue, AskedBy, Reaches;
      ReachesItself(H());
      var first := TakeFirst();
      if first.None? {
        return false;
      }
      var toOccur := first.value;
      if advanceClock && toOccur.key > totalTicks {
        JumpTo(toOccur.key);
      } else if toOccur.key > totalTicks {
        PutBackFirst(toOccur);
        return false;
      }
      ghost var h := H();
      var alone := IsAlone(pending[1..]);
      if status == IdleMode && toOccur.item.kind == TimerInt && alone {
        PutBackFirst(toOccur);
        ReachesThrough(old(H()), h, H());
        return false;
      }
      FireFirst(toOccur);
      ReachesThrough(old(H()), h, H());
      return true;
    }

    /** Fire whatever is due: the loops in OneTick and Idle. They end because
        handlers only schedule strictly later interrupts. */
    method FireAllDue()
      requires Valid() && level == IntOff
      modifies this, Repr
      ensures Valid() && fresh(Repr - old(Repr)) && level == IntOff && status == old(status)
      ensures totalTicks == old(totalTicks) && idleTicks == old(idleTicks)
      ensures systemTicks == old(systemTicks) && userTicks == old(userTicks)
      ensures old(fired) <= fired && yieldOnReturn == (old(yieldOnReturn) || YieldWanted(effects, fired, |old(fired)|))
      ensures NothingDue(H()) || (status == IdleMode && |pending| == 1 && pending[0].item.kind == TimerInt)
      ensures Reaches(old(H()), H())
    {
      hide Holds, Consistent, AllStrictlyLater, DueCount, YieldWanted, AskedBy, Reaches;
      if pending != [] { YieldWantedGrows(effects, fired, pending[0], |fired|); }
      NoneWanted(effects, fired);
      var more := CheckIfDue(false);
      while more
        invariant Valid() && fresh(Repr - old(Repr)) && level == IntOff && status == old(status)
        invariant totalTicks == old(totalTicks) && idleTicks == old(idleTicks)
        invariant systemTicks == old(systemTicks) && userTicks == old(userTicks)
        invariant old(fired) <= fired && yieldOnReturn == (old(yieldOnReturn) || YieldWanted(effects, fired, |old(fired)|))
        invariant Reaches(old(H()), H())
        invariant !more ==> NothingDue(H()) || (status == IdleMode && |pending| == 1 && pending[0].item.kind == TimerInt)
        decreases more, DueCount(pending, totalTicks)
      {
        if pending != [] { YieldWantedGrows(effects, fired, pending[0], |old(fired)|); }
        ghost var h := H();
        more := CheckIfDue(false);
        ReachesThrough(old(H()), h, H());
      }
    }

    /** A tick: the clock moves on, then everything due fires in order of its
        due time and nothing due is left. The result says whether a handler
        asked for a context switch. */
    method OneTick() returns (mustYield: bool)
      requires Valid() && status != IdleMode
      modifies this, Repr
      ensures Valid() && fresh(Repr - old(Repr)) && level == IntOn && status == old(status) && !yieldOnReturn
      ensures totalTicks == old(totalTicks) + if status == SystemMode then SYSTEM_TICK else USER_TICK
      ensures systemTicks == old(systemTicks) + if status == SystemMode then SYSTEM_TICK else 0
      ensures userTicks == old(userTicks) + if status == SystemMode then 0 else USER_TICK
      ensures old(fired) <= fired && NothingDue(H())
      ensures mustYield <==> old(yieldOnReturn) || YieldWanted(effects, fired, |old(fired)|)
      ensures Reaches(old(H()), H())
    {
      hide Holds, NothingDue, AllStrictlyLater, Consistent, Reaches, YieldWanted;
      ghost var h := H();
      if status == SystemMode {
        AdvanceKeeps(H(), totalTicks + SYSTEM_TICK);
        totalTicks := totalTicks + SYSTEM_TICK;
        systemTicks := systemTicks + SYSTEM_TICK;
      } else {
        AdvanceKeeps(H(), totalTicks + USER_TICK);
        totalTicks := totalTicks + USER_TICK;
        userTicks := userTicks + USER_TICK;
      }
      level := IntOff;
      ghost var h1 := H();
      AdvanceReaches(h, totalTicks);
      FireAllDue();
      ReachesThrough(h, h1, H());
      level := IntOn;
      mustYield := yieldOnReturn;
      yieldOnReturn := false;
    }

    /** The machine idles: the clock jumps to the next interrupt. It halts just
        when nothing is pending but possibly one timer interrupt. Otherwise
        something fires, and at most a lone due timer is left unfired. */
    method Idle() returns (halt: bool)
      requires Valid() && level == IntOff
      modifies this, Repr
      ensures Valid() && fresh(Repr - old(Repr)) && level == IntOff
      ensures systemTicks == old(systemTicks) && userTicks == old(userTicks)
      ensures halt <==> old(pending) == [] || (|old(pending)| == 1 && old(pending)[0].item.kind == TimerInt)
      ensures halt ==> fired == old(fired)
      ensures !halt ==> status == SystemMode && old(fired) + [old(pending)[0]] <= fired
      ensures !halt ==> totalTicks == if old(pending)[0].key > old(totalTicks) then old(pending)[0].key else old(totalTicks)
      ensures !halt ==> NothingDue(H()) || (|pending| == 1 && pending[0].item.kind == TimerInt)
      ensures Reaches(old(H()), H())
    {
      hide Holds, Consistent, NothingDue, AllStrictlyLater, DueCount, Reaches, AskedBy, YieldWanted;
      status := IdleMode;
      var any := CheckIfDue(true);
      if any {
        ghost var h := H();
        FireAllDue();
        ReachesThrough(old(H()), h, H());
        yieldOnReturn := false;
        status := SystemMode;
        return false;
      }
      return true;
    }

    /** Enabling interrupts that were off takes a tick, which may end in a wish
        for a context switch; handlers may not enable them. */
    method SetLevel(now: IntStatus) returns (was: IntStatus, mustYield: bool)
      requires Valid() && status != IdleMode
      requires now == IntOff || !inHandler
      modifies this, Repr
      ensures Valid() && fresh(Repr - old(Repr)) && was == old(level) && level == now && status == old(status)
      ensures now == IntOn && was == IntOff ==>
                NothingDue(H()) && (mustYield <==> old(yieldOnReturn) || YieldWanted(effects, fired, |old(fired)|))
      ensures !(now == IntOn && was == IntOff) ==> H() == old(H()) && !mustYield
      ensures Reaches(old(H()), H())
    {
      hide Holds, Consistent, NothingDue, AllStrictlyLater, Reaches, YieldWanted;
      was, mustYield := level, false;
      level := now;
      ReachesItself(H());
      if now == IntOn && was == IntOff {
        mustYield := OneTick();
      }
    }
  }
}
