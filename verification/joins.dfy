/** Exec, Exit and Join (userprog/exception.cc) as steps of any number of
    threads in any order.  A child record's semaphore is the counter that P and
    V make of it. */
module Joins {
  type Tid = nat
  type Id = nat

  datatype Phase =
    | Live
    | Joining(id: Id)    // inside P on a child record's semaphore
    | Notified           // notifyParent is done, Finish is not
    | Finished

  /** A ChildThread record; its id is its place in the order of creation. */
  datatype Record = Record(parent: Tid, child: Tid, sem: int)

  datatype Event = Told(id: Id) | Joined(id: Id)

  datatype World = World(
    phases: map<Tid, Phase>,
    parentRecord: map<Tid, int>, // -1: no parent
    rings: map<Tid, seq<Id>>,    // the children of each thread, from `child` on
    records: seq<Record>,
    log: seq<Event>)

  datatype Step =
    | Root(t: Tid)               // a thread without a parent
    | Exec(t: Tid, child: Tid, loads: bool)  // the child is deleted again when its file does not load
    | Notify(t: Tid)
    | Finish(t: Tid)
    | Join(t: Tid, cid: int)     // up to the call of P
    | JoinReturns(t: Tid)        // P is done, Join returns 0

  const Init := World(map[], map[], map[], [], [])

  predicate Shaped(w: World) {
    w.parentRecord.Keys == w.phases.Keys && w.rings.Keys == w.phases.Keys
  }

  predicate Runs(w: World, t: Tid) {
    Shaped(w) && t in w.phases && w.phases[t] == Live
  }

  predicate Enabled(w: World, s: Step) {
    match s
    case Root(t) => Shaped(w) && t !in w.phases
    case Exec(t, child, _) => Runs(w, t) && child !in w.phases
    case Notify(t) => Runs(w, t) && w.parentRecord[t] < |w.records|
    case Finish(t) => Shaped(w) && t in w.phases && (w.phases[t] == Live || w.phases[t] == Notified)
    case Join(t, _) => Runs(w, t)
    case JoinReturns(t) =>
      && Shaped(w) && t in w.phases && w.phases[t].Joining?
      && w.phases[t].id < |w.records| && w.records[w.phases[t].id].sem > 0
  }

  /** Join reaches P, or returns -1 at once. */
  predicate IsChild(w: World, t: Tid, cid: int)
    requires t in w.rings
  {
    cid >= 0 && cid in w.rings[t]
  }

  function Apply(w: World, s: Step): World
    requires Enabled(w, s)
  {
    match s
    case Root(t) =>
      w.(phases := w.phases[t := Live], parentRecord := w.parentRecord[t := -1], rings := w.rings[t := []])
    case Exec(t, child, loads) =>
      w.(phases := w.phases[child := if loads then Live else Finished],
         parentRecord := w.parentRecord[child := |w.records|],
         rings := w.rings[t := w.rings[t] + [|w.records|]][child := []],
         records := w.records + [Record(t, child, 0)])
    case Notify(t) =>
      var id := w.parentRecord[t];
      var w' := w.(phases := w.phases[t := Notified]);
      if id < 0 then w'
      else w'.(records := w.records[id := w.records[id].(sem := w.records[id].sem + 1)], log := w.log + [Told(id)])
    case Finish(t) => w.(phases := w.phases[t := Finished])
    case Join(t, cid) => if IsChild(w, t, cid) then w.(phases := w.phases[t := Joining(cid)]) else w
    case JoinReturns(t) =>
      var id := w.phases[t].id;
      w.(phases := w.phases[t := Live],
         records := w.records[id := w.records[id].(sem := w.records[id].sem - 1)],
         log := w.log + [Joined(id)])
  }

  /* What every step keeps. */

  /** A thread and its record point at each other. */
  predicate RecordsOk(w: World) {
    && Shaped(w)
    && (forall t | t in w.phases ::
          w.parentRecord[t] < |w.records| && (w.parentRecord[t] >= 0 ==> w.records[w.parentRecord[t]].child == t))
    && (forall id | 0 <= id < |w.records| ::
          w.records[id].child in w.phases && w.parentRecord[w.records[id].child] == id)
  }

  predicate Increasing(s: seq<Id>) {
    forall i, j | 0 <= i < j < |s| :: s[i] < s[j]
  }

  predicate ParentIs(records: seq<Record>, id: int, t: Tid) {
    0 <= id < |records| && records[id].parent == t
  }

  /** The ring of a thread holds its children's ids in order of creation. */
  ghost predicate RingOk(ring: seq<Id>, records: seq<Record>, t: Tid) {
    && Increasing(ring)
    && forall id: int :: id in ring <==> ParentIs(records, id, t)
  }

  ghost predicate RingsOk(w: World) {
    Shaped(w) && forall t | t in w.rings :: RingOk(w.rings[t], w.records, t)
  }

  predicate ParentsExist(w: World) {
    forall id | 0 <= id < |w.records| :: w.records[id].parent in w.phases
  }

  predicate JoinersOk(w: World) {
    forall t | t in w.phases && w.phases[t].Joining? ::
      w.phases[t].id < |w.records| && w.records[w.phases[t].id].parent == t
  }

  /** The semaphore is 1 between the notification and the join, else 0. */
  predicate SemOk(w: World, id: Id)
    requires id < |w.records| && w.records[id].child in w.phases
  {
    && w.records[id].sem == (if Told(id) in w.log && Joined(id) !in w.log then 1 else 0)
    && (Told(id) in w.log ==> w.phases[w.records[id].child] == Notified || w.phases[w.records[id].child] == Finished)
    && (Joined(id) in w.log ==> Told(id) in w.log)
  }

  predicate SemsOk(w: World) {
    && (forall id | 0 <= id < |w.records| :: w.records[id].child in w.phases && SemOk(w, id))
    && (forall k | 0 <= k < |w.log| :: w.log[k].id < |w.records|)
  }

  /** Every event happens once, and a join only after its notification. */
  predicate LogOk(log: seq<Event>) {
    && (forall j, k | 0 <= j < k < |log| :: log[j] != log[k])
    && (forall k | 0 <= k < |log| && log[k].Joined? :: Told(log[k].id) in log[..k])
  }

  ghost predicate Inv(w: World) {
    RecordsOk(w) && RingsOk(w) && ParentsExist(w) && JoinersOk(w) && SemsOk(w) && LogOk(w.log)
  }

  lemma LogGrows(log: seq<Event>, e: Event)
    requires LogOk(log) && e !in log && (e.Joined? ==> Told(e.id) in log)
    ensures LogOk(log + [e])
  {
    var l := log + [e];
    forall k | 0 <= k < |l| && l[k].Joined?
      ensures Told(l[k].id) in l[..k]
    {
      assert l[..k] == log[..k];
      assert log[..|log|] == log;
    }
  }

  lemma RingStays(ring: seq<Id>, records: seq<Record>, records': seq<Record>, t: Tid)
    requires RingOk(ring, records, t) && |records'| == |records|
    requires forall id | 0 <= id < |records| :: records'[id].parent == records[id].parent
    ensures RingOk(ring, records', t)
  {
    forall id: int
      ensures ParentIs(records, id, t) == ParentIs(records', id, t)
    {
    }
  }

  lemma RingGrows(ring: seq<Id>, records: seq<Record>, record: Record, t: Tid)
    requires RingOk(ring, records, t)
    ensures RingOk(if record.parent == t then ring + [|records|] else ring, records + [record], t)
  {
    var n := |records|;
    var ring' := if record.parent == t then ring + [n] else ring;
    forall id: int
      ensures id in ring' <==> ParentIs(records + [record], id, t)
    {
      assert id in ring <==> ParentIs(records, id, t);
    }
    assert forall i | 0 <= i < |ring| :: ring[i] < n by {
      forall i | 0 <= i < |ring|
        ensures ring[i] < n
      {
        assert ring[i] in ring;
        assert ParentIs(records, ring[i], t);
      }
    }
  }

  /** Who is whose child stays when only phases and semaphores change. */
  lemma RingsStay(w: World, w': World)
    requires RecordsOk(w) && RingsOk(w) && ParentsExist(w)
    requires w'.phases.Keys == w.phases.Keys && w'.parentRecord == w.parentRecord && w'.rings == w.rings
    requires |w'.records| == |w.records|
    requires forall id | 0 <= id < |w.records| :: w'.records[id] == w.records[id].(sem := w'.records[id].sem)
    ensures RecordsOk(w') && RingsOk(w') && ParentsExist(w')
  {
    hide RingOk;
    forall t | t in w.rings
      ensures RingOk(w'.rings[t], w'.records, t)
    {
      RingStays(w.rings[t], w.records, w'.records, t);
    }
  }

  lemma NoChildrenYet(w: World, t: Tid)
    requires ParentsExist(w) && t !in w.phases
    ensures RingOk([], w.records, t)
  {
    forall id: int
      ensures !ParentIs(w.records, id, t)
    {
    }
  }

  lemma RootKeeps(w: World, t: Tid)
    requires Inv(w) && Enabled(w, Root(t))
    ensures Inv(Apply(w, Root(t)))
  {
    NoChildrenYet(w, t);
    hide RingOk, LogOk;
  }

  lemma ExecRings(w: World, t: Tid, child: Tid, loads: bool)
    requires RingsOk(w) && Enabled(w, Exec(t, child, loads)) && RingOk([], w.records, child)
    ensures RingsOk(Apply(w, Exec(t, child, loads)))
  {
    var w' := Apply(w, Exec(t, child, loads));
    var record := Record(t, child, 0);
    hide RingOk;
    forall u | u in w'.rings
      ensures RingOk(w'.rings[u], w'.records, u)
    {
      RingGrows(if u == child then [] else w.rings[u], w.records, record, u);
    }
  }

  lemma ExecSems(w: World, t: Tid, child: Tid, loads: bool)
    requires RecordsOk(w) && SemsOk(w) && Enabled(w, Exec(t, child, loads))
    ensures SemsOk(Apply(w, Exec(t, child, loads)))
  {
    var w' := Apply(w, Exec(t, child, loads));
    var n := |w.records|;
    assert Told(n) !in w.log && Joined(n) !in w.log;
    forall id | 0 <= id < |w'.records|
      ensures w'.records[id].child in w'.phases && SemOk(w', id)
    {
      if id < n { assert SemOk(w, id); }
    }
  }

  lemma ExecKeeps(w: World, t: Tid, child: Tid, loads: bool)
    requires Inv(w) && Enabled(w, Exec(t, child, loads))
    ensures Inv(Apply(w, Exec(t, child, loads)))
  {
    NoChildrenYet(w, child);
    ExecRings(w, t, child, loads);
    ExecSems(w, t, child, loads);
    hide RingsOk, SemsOk, LogOk;
  }

  lemma NotifySems(w: World, t: Tid)
    requires RecordsOk(w) && SemsOk(w) && Enabled(w, Notify(t))
    ensures SemsOk(Apply(w, Notify(t)))
    ensures w.parentRecord[t] >= 0 ==> Told(w.parentRecord[t]) !in w.log
  {
    var w' := Apply(w, Notify(t));
    forall id | 0 <= id < |w'.records|
      ensures w'.records[id].child in w'.phases && SemOk(w', id)
      ensures id == w.parentRecord[t] ==> Told(id) !in w.log
    {
      assert SemOk(w, id);
    }
  }

  lemma NotifyKeeps(w: World, t: Tid)
    requires Inv(w) && Enabled(w, Notify(t))
    ensures Inv(Apply(w, Notify(t)))
  {
    var id := w.parentRecord[t];
    NotifySems(w, t);
    if id >= 0 {
      LogGrows(w.log, Told(id));
    }
    RingsStay(w, Apply(w, Notify(t)));
    hide RecordsOk, RingsOk, ParentsExist, SemsOk, LogOk;
  }

  lemma FinishKeeps(w: World, t: Tid)
    requires Inv(w) && Enabled(w, Finish(t))
    ensures Inv(Apply(w, Finish(t)))
  {
    RingsStay(w, Apply(w, Finish(t)));
    hide RecordsOk, RingsOk, ParentsExist, LogOk;
  }

  lemma JoinKeeps(w: World, t: Tid, cid: int)
    requires Inv(w) && Enabled(w, Join(t, cid))
    ensures Inv(Apply(w, Join(t, cid)))
  {
    RingsStay(w, Apply(w, Join(t, cid)));
    assert cid in w.rings[t] ==> ParentIs(w.records, cid, t);
    hide RecordsOk, RingsOk, ParentsExist, LogOk;
  }

  lemma JoinReturnsSems(w: World, t: Tid)
    requires RecordsOk(w) && SemsOk(w) && Enabled(w, JoinReturns(t))
    ensures SemsOk(Apply(w, JoinReturns(t)))
    ensures Told(w.phases[t].id) in w.log && Joined(w.phases[t].id) !in w.log
  {
    var w' := Apply(w, JoinReturns(t));
    assert SemOk(w, w.phases[t].id);
    forall id | 0 <= id < |w'.records|
      ensures w'.records[id].child in w'.phases && SemOk(w', id)
    {
      assert SemOk(w, id);
    }
  }

  lemma JoinReturnsKeeps(w: World, t: Tid)
    requires Inv(w) && Enabled(w, JoinReturns(t))
    ensures Inv(Apply(w, JoinReturns(t)))
  {
    JoinReturnsSems(w, t);
    LogGrows(w.log, Joined(w.phases[t].id));
    RingsStay(w, Apply(w, JoinReturns(t)));
    hide RecordsOk, RingsOk, ParentsExist, SemsOk, LogOk;
  }

  lemma StepKeeps(w: World, s: Step)
    requires Inv(w) && Enabled(w, s)
    ensures Inv(Apply(w, s))
  {
    hide Inv, Apply, Enabled;
    match s
    case Root(t) => RootKeeps(w, t);
    case Exec(t, child, loads) => ExecKeeps(w, t, child, loads);
    case Notify(t) => NotifyKeeps(w, t);
    case Finish(t) => FinishKeeps(w, t);
    case Join(t, cid) => JoinKeeps(w, t, cid);
    case JoinReturns(t) => JoinReturnsKeeps(w, t);
  }

  /** A run from the start. */
  predicate IsRun(ws: seq<World>, ss: seq<Step>) {
    && |ws| == |ss| + 1 && ws[0] == Init
    && forall k | 0 <= k < |ss| :: Enabled(ws[k], ss[k]) && ws[k + 1] == Apply(ws[k], ss[k])
  }

  lemma {:induction false} RunsKeep(ws: seq<World>, ss: seq<Step>, k: nat)
    requires IsRun(ws, ss) && k <= |ss|
    ensures Inv(ws[k])
  {
    if k > 0 {
      RunsKeep(ws, ss, k - 1);
      hide Inv, Apply, Enabled;
      assert ws[k - 1 + 1] == Apply(ws[k - 1], ss[k - 1]);
      StepKeeps(ws[k - 1], ss[k - 1]);
    }
  }

  /** When Join returns 0, it returns to the parent, the child has notified it,
      and no Join for that child has returned before. */
  lemma JoinFollowsNotification(ws: seq<World>, ss: seq<Step>, k: nat)
    requires IsRun(ws, ss) && k < |ss| && ss[k].JoinReturns?
    ensures var w, t := ws[k], ss[k].t;
            && t in w.phases && w.phases[t].Joining?
            && var id := w.phases[t].id;
               && id < |w.records| && w.records[id].parent == t
               && w.records[id].child in w.phases
               && (w.phases[w.records[id].child] == Notified || w.phases[w.records[id].child] == Finished)
               && Told(id) in w.log && Joined(id) !in w.log
  {
    RunsKeep(ws, ss, k);
    JoinReturnsSems(ws[k], ss[k].t);
    assert SemOk(ws[k], ws[k].phases[ss[k].t].id);
  }

  /** Over a whole run: no child notifies twice, no child is joined twice, and
      each join comes after its notification. */
  lemma EachChildIsJoinedOnce(ws: seq<World>, ss: seq<Step>, k: nat)
    requires IsRun(ws, ss) && k <= |ss|
    ensures var log := ws[k].log;
            && (forall i, j | 0 <= i < j < |log| :: log[i] != log[j])
            && (forall j | 0 <= j < |log| && log[j].Joined? :: exists i | 0 <= i < j :: log[i] == Told(log[j].id))
  {
    RunsKeep(ws, ss, k);
    var log := ws[k].log;
    forall j | 0 <= j < |log| && log[j].Joined?
      ensures exists i | 0 <= i < j :: log[i] == Told(log[j].id)
    {
      var i :| 0 <= i < j && log[..j][i] == Told(log[j].id);
      assert log[i] == Told(log[j].id);
    }
  }
}
