/** Executing instructions (machine/mipssim.cc): registers, delayed loads and
    traps, and why flushing a delayed load at an interrupt is invisible. */
module Cpus {
  import opened Words
  import opened Translation
  import opened Mips

  const HI := 32
  const LO := 33
  const PC := 34
  const NEXT_PC := 35
  const PREV_PC := 36
  const LOAD := 37         // the register target of a delayed load
  const LOAD_VALUE := 38   // the value to be loaded
  const BAD_VADDR := 39
  const NUM_REGS := 40

  datatype State = State(r: seq<int32>, memory: Memory)

  /** How an instruction ends: completed, at the door of the kernel with the
      pending load done, or with a failed ASSERT. */
  datatype Exit = Stepped(s: State) | Trapped(exception: Exception, s: State) | Aborted

  datatype Effect =
    | Trap(exception: Exception, badVAddr: int32)
    | Abort
    | Completed(value: int32, hi: int32, lo: int32, pcAfter: int32, loadReg: reg, loadValue: int32)

  predicate RegistersOk(r: seq<int32>) {
    |r| == NUM_REGS && r[0] == 0 && 0 <= r[LOAD] < 32
  }

  predicate Valid(s: State) {
    RegistersOk(s.r) && |s.memory.bytes| == MEMORY_SIZE
  }

  /** The kernel may do anything on an exception, but leaves a valid machine. */
  ghost predicate KernelOk(kernel: (Exception, State) -> State) {
    forall x, s | Valid(s) :: Valid(kernel(x, s))
  }

  function AfterLoad(r: seq<int32>, nextReg: reg, nextValue: int32): (r': seq<int32>)
    requires |r| == NUM_REGS && 0 <= r[LOAD] < 32
    ensures RegistersOk(r')
  {
    r[r[LOAD] := r[LOAD_VALUE]][LOAD := nextReg][LOAD_VALUE := nextValue][0 := 0]
  }

  function OperandsOf(r: seq<int32>, i: Instr): Operands
    requires RegistersOk(r)
  {
    Operands(r[i.rs], r[i.rt], r[HI], r[LO], r[NEXT_PC], if r[LOAD] == i.rt then r[LOAD_VALUE] else r[i.rt])
  }

  function AccessSize(op: Op): (size: int)
    ensures IsSize(size)
  {
    match op
    case LB | LBU | SB => 1
    case LH | LHU | SH => 2
    case _ => 4
  }

  /** The value a load delivers, from what ReadMem returned. */
  function Loaded(op: Op, value: int32, merge: int32): int32 {
    match op
    case LB => if value % 256 >= 128 then value % 256 - 256 else value % 256
    case LBU => value % 256
    case LH => if value % 0x1_0000 >= 0x8000 then value % 0x1_0000 - 0x1_0000 else value % 0x1_0000
    case LHU => value % 0x1_0000
    case LWR => Or32(And32(merge, -256), And32(ShiftRight32(value, 24), 255))
    case _ => value
  }

  ghost function ExecuteLoad(i: Instr, o: Operands, m: Memory): (Effect, Memory)
    requires |m.bytes| == MEMORY_SIZE
  {
    var addr := Wrap(o.rs + i.extra);
    if ((i.op.LH? || i.op.LHU?) && addr % 2 != 0) || (i.op.LW? && addr % 4 != 0) then (Trap(AddressError, addr), m)
    else if (i.op.LWL? || i.op.LWR?) && addr % 4 != 0 then (Abort, m)
    else
      var (m', reply) := Step(m, Read(addr, AccessSize(i.op)));
      if reply.Raised? then (Trap(reply.exception, addr), m')
      else (Completed(0, o.hi, o.lo, Wrap(o.nextPc + 4), i.rt, Loaded(i.op, reply.value, o.merge)), m')
  }

  ghost function Store(o: Operands, addr: int32, size: int, value: int32, m: Memory): (Effect, Memory)
    requires |m.bytes| == MEMORY_SIZE && IsSize(size)
  {
    var (m', reply) := Step(m, Write(addr, size, value));
    if reply.Raised? then (Trap(reply.exception, addr), m')
    else (Completed(0, o.hi, o.lo, Wrap(o.nextPc + 4), 0, 0), m')
  }

  ghost function ExecuteStore(i: Instr, o: Operands, m: Memory): (Effect, Memory)
    requires |m.bytes| == MEMORY_SIZE
  {
    var addr := Wrap(o.rs + i.extra);
    if i.op.SWL? || i.op.SWR? then
      if addr % 4 != 0 then (Abort, m)
      else
        var (m', reply) := Step(m, Read(addr, 4));
        if reply.Raised? then (Trap(reply.exception, addr), m')
        else
          var value := if i.op.SWL? then o.rt else Or32(And32(reply.value, 0xff_ffff), ShiftLeft32(o.rt, 24));
          Store(o, addr, 4, value, m')
    else Store(o, addr, AccessSize(i.op), o.rt, m)
  }

  function AluEffect(i: Instr, o: Operands): Effect {
    match Alu(i, o)
    case AluTrap(x) => Trap(x, 0)
    case Out(value, hi, lo, pcAfter) => Completed(value, hi, lo, pcAfter, 0, 0)
  }

  ghost function Execute(i: Instr, o: Operands, m: Memory): (Effect, Memory)
    requires |m.bytes| == MEMORY_SIZE
  {
    if IsLoad(i.op) then ExecuteLoad(i, o, m)
    else if IsStore(i.op) then ExecuteStore(i, o, m)
    else (AluEffect(i, o), m)
  }

  /** The end of a successful instruction: the results are stored, the pending
      load is done and the program counters advance. */
  function Finish(r: seq<int32>, dest: int, e: Effect): (r': seq<int32>)
    requires RegistersOk(r) && e.Completed? && -1 <= dest < 32
    ensures RegistersOk(r')
  {
    var r1 := if dest >= 0 then r[dest := e.value] else r;
    var r2 := AfterLoad(r1[HI := e.hi][LO := e.lo], e.loadReg, e.loadValue);
    r2[PREV_PC := r2[PC]][PC := r2[NEXT_PC]][NEXT_PC := e.pcAfter]
  }

  /** RaiseException, up to the call of the kernel. */
  function AtKernel(r: seq<int32>, x: Exception, badVAddr: int32, m: Memory): Exit
    requires RegistersOk(r)
  {
    Trapped(x, State(AfterLoad(r[BAD_VADDR := badVAddr], 0, 0), m))
  }

  function Complete(r: seq<int32>, i: Instr, e: Effect, m: Memory): Exit
    requires RegistersOk(r)
  {
    match e
    case Trap(x, bad) => AtKernel(r, x, bad, m)
    case Abort => Aborted
    case Completed(_, _, _, _, _, _) => Stepped(State(Finish(r, DestOf(i), e), m))
  }

  /** Executing a decoded instruction. */
  ghost function Perform(r: seq<int32>, i: Instr, m: Memory): Exit
    requires RegistersOk(r) && |m.bytes| == MEMORY_SIZE
  {
    var (e, m') := Execute(i, OperandsOf(r, i), m);
    Complete(r, i, e, m')
  }

  /** Fetching the instruction at the program counter. */
  ghost function Fetch(s: State): (Memory, Reply)
    requires Valid(s)
  {
    Step(s.memory, Read(s.r[PC], 4))
  }

  lemma MemoryStays(m: Memory, c: Access)
    requires |m.bytes| == MEMORY_SIZE && Proper(c)
    ensures |Step(m, c).0.bytes| == MEMORY_SIZE
  {
  }

  ghost function Executed(s: State): Exit
    requires Valid(s)
  {
    var (m, reply) := Fetch(s);
    if reply.Raised? then AtKernel(s.r, reply.exception, s.r[PC], m)
    else
      var i := Decode(ToWord(reply.value));
      MemoryStays(s.memory, Read(s.r[PC], 4));
      Perform(s.r, i, m)
  }

  /** What an interrupt does to the registers of the running program. */
  function Flush(s: State): (s': State)
    requires Valid(s)
    ensures Valid(s')
  {
    State(AfterLoad(s.r, 0, 0), s.memory)
  }

  /** An instruction reads or writes register t.  The merging loads look at the
      pending value itself, so their rt does not count. */
  predicate Touches(i: Instr, t: int) {
    t != 0 && (Reads(i, t) || DestOf(i) == t)
  }

  predicate Reads(i: Instr, t: int) {
    (ReadsRs(i.op) && i.rs == t) || (ReadsRt(i.op) && i.rt == t)
  }

  /** The instruction about to run touches the target of the load that is still
      in its delay slot. */
  ghost predicate Hazard(s: State)
    requires Valid(s)
  {
    var reply := Fetch(s).1;
    reply.Value? && Touches(Decode(ToWord(reply.value)), s.r[LOAD])
  }

  /* Equality of machines, up to the value of a load into register 0. */

  predicate Same(r: seq<int32>, r': seq<int32>)
    requires RegistersOk(r) && RegistersOk(r')
  {
    r' == r || (r[LOAD] == 0 && r' == r[LOAD_VALUE := r'[LOAD_VALUE]])
  }

  predicate SameState(s: State, s': State) {
    Valid(s) && Valid(s') && s.memory == s'.memory && Same(s.r, s'.r)
  }

  predicate SameExit(x: Exit, x': Exit) {
    if x.Stepped? && x'.Stepped? then SameState(x.s, x'.s) else x == x'
  }

  ghost predicate SameEffect(e: Effect, e': Effect) {
    e' == e || (e.Completed? && e'.Completed? && e.loadReg == 0 && e' == e.(loadValue := e'.loadValue))
  }

  /** Operands that agree on what the instruction reads. */
  predicate Agree(i: Instr, o: Operands, o': Operands) {
    && o.hi == o'.hi && o.lo == o'.lo && o.nextPc == o'.nextPc
    && (ReadsRs(i.op) ==> o.rs == o'.rs)
    && (ReadsRt(i.op) ==> o.rt == o'.rt)
    && (i.rt != 0 ==> o.merge == o'.merge)
  }

  lemma ExecuteAgrees(i: Instr, o: Operands, o': Operands, m: Memory)
    requires |m.bytes| == MEMORY_SIZE && Agree(i, o, o')
    ensures SameEffect(Execute(i, o, m).0, Execute(i, o', m).0)
    ensures Execute(i, o, m).1 == Execute(i, o', m).1
  {
    hide Step, Alu, Wrap, Loaded;
    if !IsLoad(i.op) && !IsStore(i.op) {
      AluReads(i, o, o');
    }
  }

  lemma AgreeWhenSame(r: seq<int32>, r': seq<int32>, i: Instr)
    requires RegistersOk(r) && RegistersOk(r') && Same(r, r')
    ensures Agree(i, OperandsOf(r, i), OperandsOf(r', i))
  {
  }

  lemma AgreeWhenFlushed(r: seq<int32>, i: Instr)
    requires RegistersOk(r)
    requires r[LOAD] != 0 ==> !Reads(i, r[LOAD])
    ensures Agree(i, OperandsOf(r, i), OperandsOf(AfterLoad(r, 0, 0), i))
  {
  }

  lemma FinishWhenSame(r: seq<int32>, r': seq<int32>, dest: int, e: Effect, e': Effect)
    requires RegistersOk(r) && RegistersOk(r') && Same(r, r')
    requires -1 <= dest < 32 && e.Completed? && SameEffect(e, e')
    ensures Same(Finish(r, dest, e), Finish(r', dest, e'))
  {
    var f, f' := Finish(r, dest, e), Finish(r', dest, e');
    assert f' == f[LOAD_VALUE := f'[LOAD_VALUE]];
  }

  lemma FinishWhenFlushed(r: seq<int32>, dest: int, e: Effect, e': Effect)
    requires RegistersOk(r) && -1 <= dest < 32 && e.Completed? && SameEffect(e, e')
    requires r[LOAD] != 0 ==> dest != r[LOAD]
    ensures Same(Finish(r, dest, e), Finish(AfterLoad(r, 0, 0), dest, e'))
  {
    var f, f' := Finish(r, dest, e), Finish(AfterLoad(r, 0, 0), dest, e');
    assert f' == f[LOAD_VALUE := f'[LOAD_VALUE]];
  }

  lemma RaiseSees(r: seq<int32>, r': seq<int32>, bad: int32)
    requires RegistersOk(r) && RegistersOk(r') && (Same(r, r') || r' == AfterLoad(r, 0, 0))
    ensures AfterLoad(r[BAD_VADDR := bad], 0, 0) == AfterLoad(r'[BAD_VADDR := bad], 0, 0)
  {
  }

  lemma ExecuteKeepsSize(i: Instr, o: Operands, m: Memory)
    requires |m.bytes| == MEMORY_SIZE
    ensures |Execute(i, o, m).1.bytes| == MEMORY_SIZE
  {
    hide Step, Alu, Loaded;
    forall m1: Memory, c: Access | |m1.bytes| == MEMORY_SIZE && Proper(c)
      ensures |Step(m1, c).0.bytes| == MEMORY_SIZE
    {
      MemoryStays(m1, c);
    }
  }

  /** Register 0 reads as zero and the memory keeps its size. */
  lemma StepKeepsValid(s: State)
    requires Valid(s)
    ensures Executed(s) != Aborted ==> Valid(Executed(s).s)
  {
    assert Fetch(s).1.Raised? || Fetch(s).1.Value?;
    hide Step, Execute, Finish, AfterLoad, Decode;
    var (m, reply) := Fetch(s);
    MemoryStays(s.memory, Read(s.r[PC], 4));
    if reply.Value? {
      var i := Decode(ToWord(reply.value));
      ExecuteKeepsSize(i, OperandsOf(s.r, i), m);
    }
  }

  lemma CompleteWhenSame(r: seq<int32>, r': seq<int32>, i: Instr, m: Memory)
    requires RegistersOk(r) && RegistersOk(r') && Same(r, r') && |m.bytes| == MEMORY_SIZE
    ensures SameExit(Perform(r, i, m), Perform(r', i, m))
  {
    AgreeWhenSame(r, r', i);
    ExecuteAgrees(i, OperandsOf(r, i), OperandsOf(r', i), m);
    ExecuteKeepsSize(i, OperandsOf(r, i), m);
    hide Execute, Finish, AfterLoad, OperandsOf, Agree, Same, DestOf;
    match Execute(i, OperandsOf(r, i), m).0
    case Trap(x, bad) => RaiseSees(r, r', bad);
    case Abort =>
    case Completed(_, _, _, _, _, _) =>
      FinishWhenSame(r, r', DestOf(i), Execute(i, OperandsOf(r, i), m).0, Execute(i, OperandsOf(r', i), m).0);
  }

  lemma CompleteWhenFlushed(r: seq<int32>, i: Instr, m: Memory)
    requires RegistersOk(r) && |m.bytes| == MEMORY_SIZE && !Touches(i, r[LOAD])
    ensures var r' := AfterLoad(r, 0, 0);
            SameExit(Perform(r, i, m), Perform(r', i, m))
  {
    var r' := AfterLoad(r, 0, 0);
    AgreeWhenFlushed(r, i);
    ExecuteAgrees(i, OperandsOf(r, i), OperandsOf(r', i), m);
    ExecuteKeepsSize(i, OperandsOf(r, i), m);
    hide Execute, Finish, AfterLoad, OperandsOf, Agree, Same, DestOf, ReadsRs, ReadsRt;
    match Execute(i, OperandsOf(r, i), m).0
    case Trap(x, bad) => RaiseSees(r, r', bad);
    case Abort =>
    case Completed(_, _, _, _, _, _) =>
      FinishWhenFlushed(r, DestOf(i), Execute(i, OperandsOf(r, i), m).0, Execute(i, OperandsOf(r', i), m).0);
  }

  lemma StepWhenSame(s: State, s': State)
    requires SameState(s, s')
    ensures SameExit(Executed(s), Executed(s'))
    ensures Hazard(s) == Hazard(s')
  {
    assert s.r[PC] == s'.r[PC] && s.r[LOAD] == s'.r[LOAD];
    assert Fetch(s).1.Raised? || Fetch(s).1.Value?;
    hide Step, Perform, AfterLoad, Decode, Same, OperandsOf, Touches;
    MemoryStays(s.memory, Read(s.r[PC], 4));
    var (m, reply) := Fetch(s);
    if reply.Raised? {
      RaiseSees(s.r, s'.r, s.r[PC]);
    } else {
      CompleteWhenSame(s.r, s'.r, Decode(ToWord(reply.value)), m);
    }
  }

  /** Executing an instruction after a flush gives what executing it without the
      flush gives, unless it is a hazard. */
  lemma StepWhenFlushed(s: State)
    requires Valid(s) && !Hazard(s)
    ensures SameExit(Executed(s), Executed(Flush(s)))
  {
    assert s.r[PC] == Flush(s).r[PC];
    assert Fetch(s).1.Raised? || Fetch(s).1.Value?;
    hide Step, Perform, AfterLoad, Decode, Same, OperandsOf, Touches;
    MemoryStays(s.memory, Read(s.r[PC], 4));
    var (m, reply) := Fetch(s);
    if reply.Raised? {
      RaiseSees(s.r, Flush(s).r, s.r[PC]);
    } else {
      CompleteWhenFlushed(s.r, Decode(ToWord(reply.value)), m);
    }
  }

  /* Whole runs. */

  /** One instruction and, when it traps, the kernel's answer. */
  ghost function Next(kernel: (Exception, State) -> State, s: State): (x: Exit)
    requires KernelOk(kernel) && Valid(s)
    ensures !x.Trapped? && (x.Stepped? ==> Valid(x.s))
  {
    StepKeepsValid(s);
    match Executed(s)
    case Trapped(x, s') => Stepped(kernel(x, s'))
    case other => other
  }

  /** A run of |flushes| instructions; before the k-th one an interrupt flushes
      the pending load when flushes[k] says so. */
  ghost function Run(kernel: (Exception, State) -> State, s: State, flushes: seq<bool>): Exit
    requires KernelOk(kernel) && Valid(s)
    decreases |flushes|
  {
    if flushes == [] then Stepped(s)
    else
      var x := Next(kernel, if flushes[0] then Flush(s) else s);
      if x.Aborted? then Aborted else Run(kernel, x.s, flushes[1..])
  }

  /** No instruction of the run that is never interrupted is a hazard. */
  ghost predicate HazardFree(kernel: (Exception, State) -> State, s: State, n: nat)
    requires KernelOk(kernel) && Valid(s)
    decreases n
  {
    n > 0 ==>
      && !Hazard(s)
      && var x := Next(kernel, s); x.Stepped? ==> HazardFree(kernel, x.s, n - 1)
  }

  lemma SameIsTransitive(x: Exit, x': Exit, x'': Exit)
    requires SameExit(x, x') && SameExit(x', x'')
    ensures SameExit(x, x'')
  {
  }

  lemma NextWhenSame(kernel: (Exception, State) -> State, s: State, s': State, flush: bool)
    requires KernelOk(kernel) && SameState(s, s') && !Hazard(s)
    ensures SameExit(Next(kernel, s), Next(kernel, if flush then Flush(s') else s'))
  {
    hide Executed, Hazard, Flush, Same;
    StepWhenSame(s, s');
    if flush {
      StepWhenFlushed(s');
      SameIsTransitive(Executed(s), Executed(s'), Executed(Flush(s')));
    }
    StepKeepsValid(s);
    assert forall r | RegistersOk(r) :: Same(r, r) by { SameIsReflexive(); }
  }

  lemma SameIsReflexive()
    ensures forall r | RegistersOk(r) :: Same(r, r)
  {
  }

  function Never(n: nat): (f: seq<bool>)
    ensures |f| == n
  {
    seq(n, _ => false)
  }

  /** Preemption is transparent: wherever interrupts flush the pending load, the
      run ends as the uninterrupted one does. */
  lemma {:induction false} PreemptionIsTransparent(kernel: (Exception, State) -> State, s: State, s': State,
                                                   flushes: seq<bool>)
    requires KernelOk(kernel) && SameState(s, s') && HazardFree(kernel, s, |flushes|)
    ensures SameExit(Run(kernel, s, Never(|flushes|)), Run(kernel, s', flushes))
    decreases |flushes|
  {
    var n := |flushes|;
    if n > 0 {
      assert Never(n)[1..] == Never(n - 1);
      hide Next, Hazard, Flush, Same;
      NextWhenSame(kernel, s, s', flushes[0]);
      var x, x' := Next(kernel, s), Next(kernel, if flushes[0] then Flush(s') else s');
      if x.Stepped? {
        PreemptionIsTransparent(kernel, x.s, x'.s, flushes[1..]);
      }
    }
  }

  /** Once the pending load is done the machines are equal. */
  lemma FlushedAreEqual(s: State, s': State)
    requires SameState(s, s')
    ensures Flush(s) == Flush(s')
  {
  }

  /* Why hazards are excluded. */

  lemma AddImmediate(r: seq<int32>, i: Instr, m: Memory)
    requires RegistersOk(r) && |m.bytes| == MEMORY_SIZE && i.op == ADDIU
    ensures Execute(i, OperandsOf(r, i), m) ==
            (Completed(Wrap(r[i.rs] + i.extra), r[HI], r[LO], Wrap(r[NEXT_PC] as int + 4), 0, 0), m)
    ensures DestOf(i) == i.rt
  {
  }

  lemma WrapInjective(x: int32, y: int32, n: int)
    requires Wrap(x + n) == Wrap(y + n)
    ensures x == y
  {
    var p, q := (x + n) % WORD_LIMIT, (y + n) % WORD_LIMIT;
    assert p == q;
    assert (x + n) - (y + n) == ((x + n) / WORD_LIMIT - (y + n) / WORD_LIMIT) * WORD_LIMIT;
  }

  /** A witness that reading matters: ADDIU sees the old value without the flush
      and the loaded one with it, and the machines differ unless these agree. */
  lemma ReadingTheTarget(r: seq<int32>, i: Instr, m: Memory)
    requires RegistersOk(r) && |m.bytes| == MEMORY_SIZE
    requires i.op == ADDIU && i.rs == r[LOAD] != 0 && i.rt != 0 && i.rt != r[LOAD]
    ensures SameExit(Perform(r, i, m), Perform(AfterLoad(r, 0, 0), i, m)) <==> r[r[LOAD]] == r[LOAD_VALUE]
  {
    var r' := AfterLoad(r, 0, 0);
    AddImmediate(r, i, m);
    AddImmediate(r', i, m);
    hide Execute, OperandsOf, DestOf;
    var e, e' := Execute(i, OperandsOf(r, i), m).0, Execute(i, OperandsOf(r', i), m).0;
    if e.value == e'.value { WrapInjective(r[r[LOAD]], r[LOAD_VALUE], i.extra); }
    hide Wrap;
    var f, f' := Finish(r, i.rt, e), Finish(r', i.rt, e');
    assert f[i.rt] == e.value && f'[i.rt] == e'.value;
    if e.value == e'.value { FinishWhenFlushed(r, i.rt, e, e'); }
  }

  /** What the machine shows of the effect of an instruction; `value` is what the
      destination register holds at the end. */
  predicate SameResult(dest: int, value: int32, e: Effect, e': Effect) {
    match e
    case Trap(x, bad) => e' == e
    case Abort => e' == e
    case Completed(_, hi, lo, pcAfter, loadReg, loadValue) =>
      && e'.Completed? && e'.hi == hi && e'.lo == lo && e'.pcAfter == pcAfter && e'.loadReg == loadReg
      && (loadReg != 0 ==> e'.loadValue == loadValue)
      && (dest > 0 ==> e'.value == value)
  }

  /** When a flush before an instruction makes no difference, for every
      instruction, hazard or not: when it has the same effect on the operands
      with the load done, and if it writes the load's target, when the value it
      writes there is the loaded one. */
  lemma FlushMattersExactly(r: seq<int32>, i: Instr, m: Memory)
    requires RegistersOk(r) && |m.bytes| == MEMORY_SIZE
    ensures var (e, m1) := Execute(i, OperandsOf(r, i), m);
            var (e', m2) := Execute(i, OperandsOf(AfterLoad(r, 0, 0), i), m);
            SameExit(Perform(r, i, m), Perform(AfterLoad(r, 0, 0), i, m)) <==>
            (m1 == m2 || e.Abort?)
            && SameResult(DestOf(i), if e.Completed? && DestOf(i) != r[LOAD] then e.value else r[LOAD_VALUE], e, e')
  {
    var (e, m1) := Execute(i, OperandsOf(r, i), m);
    var (e', m2) := Execute(i, OperandsOf(AfterLoad(r, 0, 0), i), m);
    ExecuteKeepsSize(i, OperandsOf(r, i), m);
    ExecuteKeepsSize(i, OperandsOf(AfterLoad(r, 0, 0), i), m);
    hide Execute, OperandsOf, DestOf;
    if e.Completed? && e'.Completed? {
      FinishMatters(r, DestOf(i), e, e');
    } else if e.Trap? && e'.Trap? {
      RaiseMatters(r, e.badVAddr, e'.badVAddr);
    }
    hide Finish, AfterLoad, Same;
  }

  lemma RaiseMatters(r: seq<int32>, bad: int32, bad': int32)
    requires RegistersOk(r)
    ensures AfterLoad(r[BAD_VADDR := bad], 0, 0) == AfterLoad(AfterLoad(r, 0, 0)[BAD_VADDR := bad'], 0, 0) <==> bad == bad'
  {
    var f, f' := AfterLoad(r[BAD_VADDR := bad], 0, 0), AfterLoad(AfterLoad(r, 0, 0)[BAD_VADDR := bad'], 0, 0);
    assert f[BAD_VADDR] == bad && f'[BAD_VADDR] == bad';
    if bad == bad' { RaiseSees(r, AfterLoad(r, 0, 0), bad); }
  }

  lemma FinishMatters(r: seq<int32>, dest: int, e: Effect, e': Effect)
    requires RegistersOk(r) && -1 <= dest < 32 && e.Completed? && e'.Completed?
    ensures Same(Finish(r, dest, e), Finish(AfterLoad(r, 0, 0), dest, e')) <==>
            SameResult(dest, if dest != r[LOAD] then e.value else r[LOAD_VALUE], e, e')
  {
    var f, f' := Finish(r, dest, e), Finish(AfterLoad(r, 0, 0), dest, e');
    assert f[HI] == e.hi && f[LO] == e.lo && f[NEXT_PC] == e.pcAfter && f[LOAD] == e.loadReg && f[LOAD_VALUE] == e.loadValue;
    assert f'[HI] == e'.hi && f'[LO] == e'.lo && f'[NEXT_PC] == e'.pcAfter && f'[LOAD] == e'.loadReg && f'[LOAD_VALUE] == e'.loadValue;
    if dest > 0 {
      assert f[dest] == if dest != r[LOAD] then e.value else r[LOAD_VALUE];
      assert f'[dest] == e'.value;
    }
    if SameResult(dest, if dest != r[LOAD] then e.value else r[LOAD_VALUE], e, e') {
      assert f' == f[LOAD_VALUE := f'[LOAD_VALUE]];
    }
  }

  lemma WriterEffect(r: seq<int32>, i: Instr, m: Memory)
    requires RegistersOk(r) && |m.bytes| == MEMORY_SIZE
    requires DestOf(i) == r[LOAD] != 0 && !Reads(i, r[LOAD])
    ensures Execute(i, OperandsOf(r, i), m) == Execute(i, OperandsOf(AfterLoad(r, 0, 0), i), m)
  {
    WriterIsAlu(i);
    AgreeWhenFlushed(r, i);
    hide Alu, OperandsOf, AfterLoad, DestOf, IsLoad, IsStore, ReadsRs, ReadsRt;
    AluReads(i, OperandsOf(r, i), OperandsOf(AfterLoad(r, 0, 0), i));
  }

  lemma WriterIsAlu(i: Instr)
    requires DestOf(i) >= 0
    ensures !IsLoad(i.op) && !IsStore(i.op)
  {
  }

  /** Every instruction that writes the target is overwritten by the load without
      the flush, and overwrites it with the flush. */
  lemma WritingTheTarget(r: seq<int32>, i: Instr, m: Memory)
    requires RegistersOk(r) && |m.bytes| == MEMORY_SIZE
    requires DestOf(i) == r[LOAD] != 0 && !Reads(i, r[LOAD])
    requires Execute(i, OperandsOf(r, i), m).0.Completed?
    ensures SameExit(Perform(r, i, m), Perform(AfterLoad(r, 0, 0), i, m)) <==>
            r[LOAD_VALUE] == Execute(i, OperandsOf(r, i), m).0.value
  {
    WriterEffect(r, i, m);
    var (e, m') := Execute(i, OperandsOf(r, i), m);
    ExecuteKeepsSize(i, OperandsOf(r, i), m);
    hide Execute, OperandsOf, DestOf, Reads;
    WriterFinish(r, r[LOAD], e);
  }

  lemma WriterFinish(r: seq<int32>, dest: int, e: Effect)
    requires RegistersOk(r) && dest == r[LOAD] != 0 && e.Completed?
    ensures Same(Finish(r, dest, e), Finish(AfterLoad(r, 0, 0), dest, e)) <==> r[LOAD_VALUE] == e.value
  {
    var f, f' := Finish(r, dest, e), Finish(AfterLoad(r, 0, 0), dest, e);
    assert f[dest] == r[LOAD_VALUE] && f'[dest] == e.value;
    if r[LOAD_VALUE] == e.value { assert f == f'; }
  }
}
