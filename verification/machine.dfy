/** The CPU as the simulator keeps it: a register array updated in place, over
    the paged memory (machine/mipssim.cc, machine/machine.cc). */
module Machines {
  import opened Words
  import opened Multiplication
  import opened Translation
  import opened Mips
  import opened Cpus

  datatype Status = Fine | Exception(exception: Translation.Exception) | AssertFailed

  /** The words of an exact product are those of the specification. */
  lemma SignedProduct(p: int, hi: int32, lo: int32)
    requires hi * WORD_LIMIT + ToWord(lo) == p
    ensures hi == ProductHi(p) && lo == ProductLo(p)
  {
    assert p / WORD_LIMIT == hi && p % WORD_LIMIT == ToWord(lo);
  }

  lemma UnsignedProduct(p: int, hi: int32, lo: int32)
    requires ToWord(hi) * WORD_LIMIT + ToWord(lo) == p
    ensures hi == ProductHi(p) && lo == ProductLo(p)
  {
    assert p / WORD_LIMIT == ToWord(hi) && p % WORD_LIMIT == ToWord(lo);
  }

  class Cpu {
    const registers: array<int32>
    const memory: Machine

    ghost predicate Valid()
      reads registers, memory
    {
      && registers.Length == NUM_REGS && RegistersOk(registers[..])
      && memory.Valid()
    }

    ghost function Contents(): State
      reads registers, memory, memory.mainMemory
    {
      State(registers[..], memory.Contents())
    }

    constructor (memory: Machine)
      requires memory.Valid()
      ensures Valid() && this.memory == memory && fresh(registers)
      ensures forall k | 0 <= k < NUM_REGS :: registers[k] == 0
    {
      registers := new int32[NUM_REGS](_ => 0);
      this.memory := memory;
    }

    method DelayedLoad(nextReg: reg, nextValue: int32)
      requires registers.Length == NUM_REGS && 0 <= registers[LOAD] < 32
      modifies registers
      ensures registers[..] == AfterLoad(old(registers[..]), nextReg, nextValue)
    {
      registers[registers[LOAD]] := registers[LOAD_VALUE];
      registers[LOAD] := nextReg;
      registers[LOAD_VALUE] := nextValue;
      registers[0] := 0;
    }

    /** Up to the call of the kernel's handler. */
    method RaiseException(which: Translation.Exception, badVAddr: int32) returns (status: Status)
      requires Valid()
      modifies registers
      ensures status == Exception(which)
      ensures registers[..] == AfterLoad(old(registers[..])[BAD_VADDR := badVAddr], 0, 0)
    {
      registers[BAD_VADDR] := badVAddr;
      DelayedLoad(0, 0);
      status := Exception(which);
    }

    method Multiply(i: Instr, o: Operands) returns (e: Effect)
      requires i.op.MULT? || i.op.MULTU?
      ensures e == AluEffect(i, o)
    {
      var hi, lo := Mult(o.rs, o.rt, i.op.MULT?);
      if i.op.MULT? {
        SignedProduct(o.rs * o.rt, hi, lo);
      } else {
        UnsignedProduct(ToWord(o.rs) * ToWord(o.rt), hi, lo);
      }
      e := Completed(0, hi, lo, Wrap(o.nextPc + 4), 0, 0);
    }

    method Load(i: Instr, o: Operands) returns (e: Effect)
      requires memory.Valid() && IsLoad(i.op)
      modifies memory`table
      ensures memory.Valid() && (e, memory.Contents()) == ExecuteLoad(i, o, old(memory.Contents()))
    {
      var addr := Wrap(o.rs + i.extra);
      if ((i.op.LH? || i.op.LHU?) && addr % 2 != 0) || (i.op.LW? && addr % 4 != 0) {
        return Trap(AddressError, addr);
      }
      if (i.op.LWL? || i.op.LWR?) && addr % 4 != 0 {
        return Abort;
      }
      var reply := memory.ReadMem(addr, AccessSize(i.op));
      if reply.Raised? {
        return Trap(reply.exception, addr);
      }
      e := Completed(0, o.hi, o.lo, Wrap(o.nextPc + 4), i.rt, Loaded(i.op, reply.value, o.merge));
    }

    method StoreValue(o: Operands, addr: int32, size: int, value: int32) returns (e: Effect)
      requires memory.Valid() && IsSize(size)
      modifies memory`table, memory.mainMemory
      ensures memory.Valid() && (e, memory.Contents()) == Store(o, addr, size, value, old(memory.Contents()))
    {
      var reply := memory.WriteMem(addr, size, value);
      if reply.Raised? {
        return Trap(reply.exception, addr);
      }
      e := Completed(0, o.hi, o.lo, Wrap(o.nextPc + 4), 0, 0);
    }

    method StoreWord(i: Instr, o: Operands) returns (e: Effect)
      requires memory.Valid() && IsStore(i.op)
      modifies memory`table, memory.mainMemory
      ensures memory.Valid() && (e, memory.Contents()) == ExecuteStore(i, o, old(memory.Contents()))
    {
      hide Step, Store, Wrap, And32, Or32, ShiftLeft32;
      var addr := Wrap(o.rs + i.extra);
      var value := o.rt;
      if i.op.SWL? || i.op.SWR? {
        if addr % 4 != 0 {
          return Abort;
        }
        var reply := memory.ReadMem(addr, 4);
        if reply.Raised? {
          return Trap(reply.exception, addr);
        }
        if i.op.SWR? {
          value := Or32(And32(reply.value, 0xff_ffff), ShiftLeft32(o.rt, 24));
        }
      }
      e := StoreValue(o, addr, AccessSize(i.op), value);
    }

    /** The switch over the opcode, up to the assignments of the results. */
    method Effects(i: Instr, o: Operands) returns (e: Effect)
      requires memory.Valid()
      modifies memory`table, memory.mainMemory
      ensures memory.Valid() && (e, memory.Contents()) == Execute(i, o, old(memory.Contents()))
    {
      hide ExecuteLoad, ExecuteStore, AluEffect;
      if IsLoad(i.op) {
        e := Load(i, o);
      } else if IsStore(i.op) {
        e := StoreWord(i, o);
      } else if i.op.MULT? || i.op.MULTU? {
        e := Multiply(i, o);
      } else {
        e := AluEffect(i, o);
      }
    }

    method Advance(dest: int, e: Effect)
      requires Valid() && e.Completed? && -1 <= dest < 32
      modifies registers
      ensures registers[..] == Finish(old(registers[..]), dest, e)
    {
      if dest >= 0 {
        registers[dest] := e.value;
      }
      registers[HI] := e.hi;
      registers[LO] := e.lo;
      DelayedLoad(e.loadReg, e.loadValue);
      registers[PREV_PC] := registers[PC];
      registers[PC] := registers[NEXT_PC];
      registers[NEXT_PC] := e.pcAfter;
    }

    method OneInstruction() returns (status: Status)
      requires Valid()
      modifies registers, memory`table, memory.mainMemory
      ensures memory.Valid()
      ensures match Executed(old(Contents()))
              case Stepped(s) => status == Fine && Contents() == s
              case Trapped(x, s) => status == Exception(x) && Contents() == s
              case Aborted => status == AssertFailed
    {
      hide Step, Execute, Finish, AfterLoad, Decode, AluEffect, OperandsOf, DestOf;
      var reply := memory.ReadMem(registers[PC], 4);
      if reply.Raised? {
        status := RaiseException(reply.exception, registers[PC]);
        return;
      }
      var i := Decode(ToWord(reply.value));
      var o := OperandsOf(registers[..], i);
      var e := Effects(i, o);
      match e
      case Trap(x, bad) => status := RaiseException(x, bad);
      case Abort => status := AssertFailed;
      case Completed(_, _, _, _, _, _) =>
        Advance(DestOf(i), e);
        status := Fine;
    }
  }
}
