/** What SynchList does not see: every step that is not its own. */
module MonitorUnseen {
  import opened Options
  import opened Kernel
  import KernelInv
  import opened KernelUse
  import S = SynchLists
  import opened Monitors

  /** The threads in SynchList's code are those of its points. */
  lemma RelatedHolds<T>(m: M<T>)
    requires KernelInv.Inv(m.k) && PointsOk(m)
    ensures Related(m.k, UseOf(m), InsideOf(m))
  {
    var u := UseOf(m);
    hide Unrelated, KernelInv.Shape;
    forall t | t in InsideOf(m)
      ensures t in m.k.threads && InsiderOk(m.k.threads[t].stack, u)
    {
      assert PointOk(m.at[t], StackOf(m.k, t), m.l, m.c);
      StackShape(m.k, t);
      InsidePoint(m.at[t], m.k.threads[t].stack, m.l, m.c);
    }
    forall t | t in m.k.threads && t !in InsideOf(m)
      ensures Unrelated(m.k.threads[t].stack, u)
    {
      if t in m.at { assert PointOk(m.at[t], StackOf(m.k, t), m.l, m.c); }
    }
  }

  lemma InsidePoint<T>(p: Point<T>, st: seq<Frame>, l: LockId, c: CondId)
    requires PointOk(p, st, l, c) && !p.Elsewhere? && KernelInv.Shape(st)
    ensures InsiderOk(st, Use({l}, {}, {c}))
  {
  }

  /** The kernel went on, and SynchList cannot tell. */
  ghost predicate Elsewise<T>(m: M<T>, k': K) {
    Foreign(m.k, k', UseOf(m), InsideOf(m)) && m.l in m.k.locks
  }

  lemma AlikePc<T>(p: Point<T>, th: Thread, th': Thread)
    requires Alike(th, th')
    ensures PcAt(p, th') == PcAt(p, th)
  {
  }

  lemma ForeignPc<T>(m: M<T>, k': K, t: Tid)
    requires Elsewise(m, k') && t in m.at && (t !in m.k.threads ==> m.at[t].Elsewhere?)
    ensures PcOf(m.(k := k'), t) == PcOf(m, t)
  {
    hide PcAt, Unrelated, PartsUntouched;
    if m.at[t].Elsewhere? {
      ElsewherePc(m, t);
      ElsewherePc(m.(k := k'), t);
    } else {
      assert t in InsideOf(m);
      AlikePc(m.at[t], m.k.threads[t], k'.threads[t]);
    }
  }

  lemma ElsewherePc<T>(m: M<T>, t: Tid)
    requires t in m.at && m.at[t].Elsewhere?
    ensures PcOf(m, t) == S.Outside
  {
  }

  /** A thread between two turns on the processor is not in the window. */
  lemma NotInWindow<T>(m: M<T>)
    requires Between(m.k)
    ensures !InWindow(m)
  {
  }

  lemma WindowStays<T>(m: M<T>, k': K)
    requires Elsewise(m, k')
    ensures InWindow(m) <==> InWindow(m.(k := k'))
    ensures InWindow(m) ==> k'.current == m.k.current
  {
    var m' := m.(k := k');
    var t := m.k.current;
    if k'.current == t {
      hide Unrelated, PartsUntouched;
      if t in m.at && m.at[t].InWait? { assert t in InsideOf(m); }
    } else {
      hide InWindow, Untouched;
      NotInWindow(m);
      NotInWindow(m');
    }
  }

  lemma ForeignMeans<T>(m: M<T>, k': K)
    requires Elsewise(m, k') && PointsOk(m)
    ensures m.l in k'.locks && Meaning(m.(k := k')) == Meaning(m)
  {
    var m' := m.(k := k');
    WindowStays(m, k');
    assert UsedQueue(LockQueue(m.l), UseOf(m)) && UsedQueue(CondQueue(m.c), UseOf(m));
    forall t | t in m.at
      ensures PcOf(m', t) == PcOf(m, t)
    {
      ForeignPc(m, k', t);
    }
    hide PcOf, InWindow, Unrelated, ThreadsUntouched, PointsOk;
    assert Meaning(m').pc == Meaning(m).pc;
  }

  lemma ForeignPoints<T>(m: M<T>, k': K)
    requires Elsewise(m, k') && PointsOk(m)
    ensures PointsOk(m.(k := k'))
  {
    hide PartsUntouched, Between;
    forall t | t in m.at
      ensures PointOk(m.at[t], StackOf(k', t), m.l, m.c) && (t !in k'.threads ==> m.at[t].Elsewhere?)
    {
      assert PointOk(m.at[t], StackOf(m.k, t), m.l, m.c);
      if !m.at[t].Elsewhere? { assert t in InsideOf(m); }
    }
  }

  lemma ForeignWaiters<T>(m: M<T>, k': K)
    requires Elsewise(m, k') && PointsOk(m) && WaitersOk(m)
    ensures WaitersOk(m.(k := k'))
  {
    var m' := m.(k := k');
    hide PartsUntouched, Between, Unrelated;
    forall t | t in m'.at && m'.at[t].InWait? && StackOf(k', t) != [] && StackOf(k', t)[0].call.Wait?
               && PcOf(m', t).Testing? && StackOf(k', t)[0].call.stage != Reacquiring
      ensures m.list == []
    {
      assert t in InsideOf(m);
      ForeignPc(m, k', t);
      assert StackOf(k', t) == StackOf(m.k, t);
    }
  }

  /** A kernel state in which SynchList is where it is in `m`, and all is well. */
  ghost predicate Unseen<T>(m: M<T>, k': K) {
    && m.l in m.k.locks && m.l in k'.locks
    && Meaning(m.(k := k')) == Meaning(m) && PointsOk(m.(k := k')) && WaitersOk(m.(k := k'))
  }

  /** A step of the kernel that is not SynchList's is not seen. */
  lemma StepUnseen<T>(m: M<T>, s: Step)
    requires KernelInv.Inv(m.k) && PointsOk(m) && WaitersOk(m) && m.l in m.k.locks
    requires Enabled(m.k, s) && !Concerns(m.k, s, UseOf(m), InsideOf(m))
    ensures Unseen(m, Apply(m.k, s))
  {
    hide KernelInv.Inv, PointsOk, WaitersOk, Meaning, Related, Enabled, Apply, Foreign;
    RelatedHolds(m);
    OtherStep(m.k, s, UseOf(m), InsideOf(m));
    ForeignMeans(m, Apply(m.k, s));
    ForeignPoints(m, Apply(m.k, s));
    ForeignWaiters(m, Apply(m.k, s));
  }

  /** Leaving SynchList for good is not seen: it was outside already. */
  lemma LeavesList<T>(m: M<T>, m': M<T>)
    requires InCode(m) && m.l in m.k.locks && PointsOk(m) && WaitersOk(m) && Quiet(m.at[m.k.current])
    requires m' == m.(at := m.at[m.k.current := Elsewhere])
    ensures Meaning(m') == Meaning(m) && PointsOk(m') && WaitersOk(m')
  {
    hide PointsOk, WaitersOk;
    CodeMoves(m, m', Elsewhere, None);
    PointsStay(m, m', m.k.current);
    assert PcOf(m, m.k.current) == PcOf(m', m.k.current) == S.Outside;
    WaitersStay(m, m', m.k.current);
    assert Meaning(m').pc == Meaning(m).pc;
    hide PcOf;
  }

  /** Waiters other than `t` are where they were. */
  lemma WaitersStay<T>(m: M<T>, m': M<T>, t: Tid)
    requires WaitersOk(m) && m'.list == m.list && t in m.at && t in m'.at && m'.at == m.at[t := m'.at[t]]
    requires t in m.k.threads && t in m'.k.threads && m'.k.threads == m.k.threads[t := m'.k.threads[t]]
    requires m'.at[t].InWait? ==> m.list == [] || AtUser(m'.k.threads[t].stack)
    ensures WaitersOk(m')
  {
    hide PcAt;
  }
}
