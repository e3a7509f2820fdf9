/** The instruction set of the simulated MIPS (machine/mipssim.h,
    machine/mipssim.cc): decoding, and what an instruction computes from its
    operands.  Instructions do what the simulator's code does, which is not
    always what the architecture manual says: OR combines rs with itself, and
    SRL and SRLV shift in the sign (OrAgreesExactly and ShiftAgreesExactly say
    when that makes no difference). */
module Mips {
  import opened Words
  import opened Bits
  import opened Multiplication
  import opened Translation

  type reg = x: int | 0 <= x < 32

  datatype Op =
    | ADD | ADDI | ADDIU | ADDU | AND | ANDI | BEQ | BGEZ | BGEZAL | BGTZ | BLEZ | BLTZ | BLTZAL | BNE
    | DIV | DIVU | J | JAL | JALR | JR | LB | LBU | LH | LHU | LUI | LW | LWL | LWR | MFHI | MFLO | MTHI | MTLO
    | MULT | MULTU | NOR | OR | ORI | SB | SH | SLL | SLLV | SLT | SLTI | SLTIU | SLTU | SRA | SRAV | SRL | SRLV
    | SUB | SUBU | SW | SWL | SWR | XOR | XORI | SYSCALL | UNIMP | RES

  datatype Instr = Instr(op: Op, rs: reg, rt: reg, rd: reg, extra: int32)

  /** What the top six bits say: an opcode with its format, or which field to
      look at next. */
  datatype Top = Special | Bcond | Imm(op: Op) | Jump(op: Op)

  /** opTable. */
  function OpEntry(n: nat): Top {
    match n
    case 0 => Special case 1 => Bcond case 2 => Jump(J) case 3 => Jump(JAL)
    case 4 => Imm(BEQ) case 5 => Imm(BNE) case 6 => Imm(BLEZ) case 7 => Imm(BGTZ)
    case 8 => Imm(ADDI) case 9 => Imm(ADDIU) case 10 => Imm(SLTI) case 11 => Imm(SLTIU)
    case 12 => Imm(ANDI) case 13 => Imm(ORI) case 14 => Imm(XORI) case 15 => Imm(LUI)
    case 32 => Imm(LB) case 33 => Imm(LH) case 34 => Imm(LWL) case 35 => Imm(LW)
    case 36 => Imm(LBU) case 37 => Imm(LHU) case 38 => Imm(LWR)
    case 40 => Imm(SB) case 41 => Imm(SH) case 42 => Imm(SWL) case 43 => Imm(SW) case 46 => Imm(SWR)
    case _ => if 16 <= n < 20 || 48 <= n < 52 || 56 <= n < 60 then Imm(UNIMP) else Imm(RES)
  }

  /** specialTable. */
  function SpecialEntry(n: nat): Op {
    match n
    case 0 => SLL case 2 => SRL case 3 => SRA case 4 => SLLV case 6 => SRLV case 7 => SRAV
    case 8 => JR case 9 => JALR case 12 => SYSCALL case 13 => UNIMP
    case 16 => MFHI case 17 => MTHI case 18 => MFLO case 19 => MTLO
    case 24 => MULT case 25 => MULTU case 26 => DIV case 27 => DIVU
    case 32 => ADD case 33 => ADDU case 34 => SUB case 35 => SUBU
    case 36 => AND case 37 => OR case 38 => XOR case 39 => NOR case 42 => SLT case 43 => SLTU
    case _ => RES
  }

  function BcondOf(rt: reg): Op {
    if rt == 0 then BLTZ else if rt == 1 then BGEZ else if rt == 16 then BLTZAL else if rt == 17 then BGEZAL else UNIMP
  }

  function Immediate(value: word): int32 {
    var low := value % 0x1_0000;
    if low >= 0x8000 then low - 0x1_0000 else low
  }

  function Decode(value: word): Instr {
    var rs: reg := value / 0x20_0000 % 32;
    var rt: reg := value / 0x1_0000 % 32;
    var rd: reg := value / 0x800 % 32;
    match OpEntry(value / 0x400_0000)
    case Special => Instr(SpecialEntry(value % 64), rs, rt, rd, value / 64 % 32)
    case Bcond => Instr(BcondOf(rt), rs, rt, rd, Immediate(value))
    case Imm(op) => Instr(op, rs, rt, rd, Immediate(value))
    case Jump(op) => Instr(op, rs, rt, rd, value % 0x400_0000)
  }

  /* The encodings, from which decoding gets the instruction back. */

  datatype Field = Opcode(n: nat) | Funct(n: nat) | Condition(rt: reg) | Target(n: nat)

  /** The function code of a special operation, or 64. */
  function FunctOf(op: Op): (n: nat)
    ensures n <= 64
  {
    match op
    case SLL => 0 case SRL => 2 case SRA => 3 case SLLV => 4 case SRLV => 6 case SRAV => 7
    case JR => 8 case JALR => 9 case SYSCALL => 12
    case MFHI => 16 case MTHI => 17 case MFLO => 18 case MTLO => 19
    case MULT => 24 case MULTU => 25 case DIV => 26 case DIVU => 27
    case ADD => 32 case ADDU => 33 case SUB => 34 case SUBU => 35
    case AND => 36 case OR => 37 case XOR => 38 case NOR => 39 case SLT => 42 case SLTU => 43
    case _ => 64
  }

  /** The opcode of an operation with an immediate operand, or 64. */
  function OpcodeOf(op: Op): (n: nat)
    ensures n <= 64
  {
    match op
    case BEQ => 4 case BNE => 5 case BLEZ => 6 case BGTZ => 7
    case ADDI => 8 case ADDIU => 9 case SLTI => 10 case SLTIU => 11
    case ANDI => 12 case ORI => 13 case XORI => 14 case LUI => 15
    case LB => 32 case LH => 33 case LWL => 34 case LW => 35 case LBU => 36 case LHU => 37 case LWR => 38
    case SB => 40 case SH => 41 case SWL => 42 case SW => 43 case SWR => 46
    case _ => 64
  }

  /** The bits that name an operation; UNIMP and RES have no encoding of their own. */
  function FieldOf(op: Op): (f: Field)
    requires op != UNIMP && op != RES
    ensures f.Opcode? || f.Funct? || f.Target? ==> f.n < 64
  {
    if FunctOf(op) < 64 then Funct(FunctOf(op))
    else if OpcodeOf(op) < 64 then Opcode(OpcodeOf(op))
    else if op.J? then Target(2)
    else if op.JAL? then Target(3)
    else Condition(if op.BLTZ? then 0 else if op.BGEZ? then 1 else if op.BLTZAL? then 16 else 17)
  }

  function Word(top: nat, rs: reg, rt: reg, low: nat): word
    requires top < 64 && low < 0x1_0000
  {
    top * 0x400_0000 + rs * 0x20_0000 + rt * 0x1_0000 + low
  }

  function Packed(rd: reg, shamt: reg, funct: nat): (low: nat)
    requires funct < 64
    ensures low < 0x1_0000
  {
    rd * 0x800 + shamt * 64 + funct
  }

  predicate Encodable(i: Instr) {
    && i.op != UNIMP && i.op != RES
    && match FieldOf(i.op)
       case Funct(_) => 0 <= i.extra < 32
       case Target(_) => 0 <= i.extra < 0x400_0000
       case Condition(rt) => -0x8000 <= i.extra < 0x8000 && i.rt == rt
       case Opcode(_) => -0x8000 <= i.extra < 0x8000
  }

  function Encode(i: Instr): word
    requires Encodable(i)
  {
    match FieldOf(i.op)
    case Opcode(n) => Word(n, i.rs, i.rt, i.extra % 0x1_0000)
    case Condition(rt) => Word(1, i.rs, rt, i.extra % 0x1_0000)
    case Funct(n) => Word(0, i.rs, i.rt, Packed(i.rd, i.extra, n))
    case Target(n) => n * 0x400_0000 + i.extra
  }

  lemma WordFields(top: nat, rs: reg, rt: reg, low: nat)
    requires top < 64 && low < 0x1_0000
    ensures var w := Word(top, rs, rt, low);
            && w / 0x400_0000 == top && w / 0x20_0000 % 32 == rs && w / 0x1_0000 % 32 == rt && w % 0x1_0000 == low
            && w / 0x800 % 32 == low / 0x800 && w / 64 % 32 == low / 64 % 32 && w % 64 == low % 64
  {
    var w := Word(top, rs, rt, low);
    assert w / 0x20_0000 == top * 32 + rs;
    assert w / 0x1_0000 == (top * 32 + rs) * 32 + rt;
    assert w / 0x800 == ((top * 32 + rs) * 32 + rt) * 32 + low / 0x800;
    assert w / 64 == (((top * 32 + rs) * 32 + rt) * 1024) + low / 64;
  }

  lemma PackedFields(rd: reg, shamt: reg, funct: nat)
    requires funct < 64
    ensures var low := Packed(rd, shamt, funct);
            low / 0x800 == rd && low / 64 % 32 == shamt && low % 64 == funct
  {
    assert Packed(rd, shamt, funct) / 64 == rd * 32 + shamt;
  }

  /** The tables hold each operation at its number. */
  lemma TablesAgree(op: Op)
    requires op != UNIMP && op != RES
    ensures match FieldOf(op)
            case Opcode(n) => OpEntry(n) == Imm(op)
            case Target(n) => OpEntry(n) == Jump(op)
            case Funct(n) => OpEntry(0) == Special && SpecialEntry(n) == op
            case Condition(rt) => OpEntry(1) == Bcond && BcondOf(rt) == op
  {
    FunctAgrees(op);
    OpcodeAgrees(op);
    if FunctOf(op) == 64 && OpcodeOf(op) == 64 {
      OthersAgree(op);
    }
    hide FunctOf, OpcodeOf, SpecialEntry;
  }

  lemma FunctAgrees(op: Op)
    ensures FunctOf(op) < 64 ==> SpecialEntry(FunctOf(op)) == op
  {
  }

  lemma OpcodeAgrees(op: Op)
    ensures OpcodeOf(op) < 64 ==> OpEntry(OpcodeOf(op)) == Imm(op)
  {
  }

  lemma OthersAgree(op: Op)
    requires op != UNIMP && op != RES && FunctOf(op) == 64 && OpcodeOf(op) == 64
    ensures op.J? || op.JAL? || op.BLTZ? || op.BGEZ? || op.BLTZAL? || op.BGEZAL?
  {
  }

  lemma DecodesImm(top: Top, n: nat, rs: reg, rt: reg, extra: int32)
    requires n < 64 && OpEntry(n) == top && (top.Imm? || top.Bcond?) && -0x8000 <= extra < 0x8000
    ensures var j := Decode(Word(n, rs, rt, extra % 0x1_0000));
            j.op == (if top.Imm? then top.op else BcondOf(rt)) && j.rs == rs && j.rt == rt && j.extra == extra
  {
    WordFields(n, rs, rt, extra % 0x1_0000);
    hide OpEntry, SpecialEntry, BcondOf, Word;
  }

  lemma DecodesFunct(n: nat, rs: reg, rt: reg, rd: reg, shamt: reg)
    requires n < 64 && OpEntry(0) == Special
    ensures Decode(Word(0, rs, rt, Packed(rd, shamt, n))) == Instr(SpecialEntry(n), rs, rt, rd, shamt)
  {
    PackedFields(rd, shamt, n);
    WordFields(0, rs, rt, Packed(rd, shamt, n));
    hide OpEntry, SpecialEntry, BcondOf, Word, Packed;
  }

  /** Decoding an encoded instruction gives back its operation, its registers
      and its immediate, shift amount or target. */
  lemma DecodeEncoded(i: Instr)
    requires Encodable(i)
    ensures var j := Decode(Encode(i));
            && j.op == i.op && j.extra == i.extra
            && (!FieldOf(i.op).Target? ==> j.rs == i.rs && j.rt == i.rt)
            && (FieldOf(i.op).Funct? ==> j.rd == i.rd)
  {
    TablesAgree(i.op);
    match FieldOf(i.op)
    case Opcode(n) =>
      DecodesImm(Imm(i.op), n, i.rs, i.rt, i.extra);
      hide FieldOf, Word, BcondOf, OpEntry, SpecialEntry, Decode;
    case Condition(rt) =>
      DecodesImm(Bcond, 1, i.rs, rt, i.extra);
      hide FieldOf, Word, BcondOf, OpEntry, SpecialEntry, Decode;
    case Funct(n) =>
      DecodesFunct(n, i.rs, i.rt, i.rd, i.extra);
      hide FieldOf, Word, Packed, BcondOf, OpEntry, SpecialEntry, Decode;
    case Target(n) =>
      TargetFields(n, i.extra);
      hide FieldOf, BcondOf, OpEntry, SpecialEntry;
  }

  lemma TargetFields(n: nat, target: nat)
    requires target < 0x400_0000
    ensures (n * 0x400_0000 + target) / 0x400_0000 == n && (n * 0x400_0000 + target) % 0x400_0000 == target
  {
  }

  /* 32-bit arithmetic. */

  function Wrap(x: int): int32 {
    FromWord(x % WORD_LIMIT)
  }

  function And32(a: int32, b: int32): int32 {
    AndBound(ToWord(a), ToWord(b));
    FromWord(And(ToWord(a), ToWord(b)))
  }

  function Or32(a: int32, b: int32): int32 {
    Pow2At32();
    OrBound(ToWord(a), ToWord(b), 32);
    FromWord(Or(ToWord(a), ToWord(b)))
  }

  function Xor32(a: int32, b: int32): int32 {
    Pow2At32();
    XorBound(ToWord(a), ToWord(b), 32);
    FromWord(Xor(ToWord(a), ToWord(b)))
  }

  function Not32(a: int32): int32 {
    -(a as int) - 1
  }

  function ShiftLeft32(a: int32, n: nat): int32 {
    Wrap(a * Pow2(n))
  }

  /** `>>` on a signed int, bit by bit. */
  function ShiftRight32(a: int32, n: nat): int32
    decreases n
  {
    if n == 0 then a else ShiftRight32(a / 2, n - 1)
  }

  predicate SignsDiffer(a: int32, b: int32) {
    (a < 0) != (b < 0)
  }

  /** C's `/`, which rounds towards zero. */
  function Quotient(a: int, b: int): int
    requires b != 0
  {
    var q := Abs(a) / Abs(b);
    if (a < 0) == (b < 0) then q else -q
  }

  function Low16(x: int32): int32 {
    x % 0x1_0000
  }

  /** The 64-bit product as a pair of words. */
  function ProductHi(p: int): int32 {
    Wrap(p / WORD_LIMIT)
  }

  function ProductLo(p: int): int32 {
    Wrap(p)
  }

  /* What an instruction other than a load or store computes. */

  /** The registers an instruction may look at, and the value a partial-word
      load merges into. */
  datatype Operands = Operands(rs: int32, rt: int32, hi: int32, lo: int32, nextPc: int32, merge: int32)

  datatype AluResult = Out(value: int32, hi: int32, lo: int32, pcAfter: int32) | AluTrap(exception: Exception)

  predicate IsLoad(op: Op) {
    op.LB? || op.LBU? || op.LH? || op.LHU? || op.LW? || op.LWL? || op.LWR?
  }

  predicate IsStore(op: Op) {
    op.SB? || op.SH? || op.SW? || op.SWL? || op.SWR?
  }

  /** The general register an instruction assigns at once, or -1. */
  function DestOf(i: Instr): (d: int)
    ensures -1 <= d < 32
  {
    match i.op
    case ADD | ADDU | AND | JALR | MFHI | MFLO | NOR | OR | SLL | SLLV | SLT | SLTU => i.rd
    case SRA | SRAV | SRL | SRLV | SUB | SUBU | XOR => i.rd
    case ADDI | ADDIU | ANDI | LUI | ORI | SLTI | SLTIU | XORI => i.rt
    case BGEZAL | BLTZAL | JAL => 31
    case _ => -1
  }

  predicate ReadsRs(op: Op) {
    match op
    case J | JAL | LUI | MFHI | MFLO | SLL | SRA | SRL | SYSCALL | UNIMP | RES => false
    case _ => true
  }

  predicate ReadsRt(op: Op) {
    match op
    case ADD | ADDU | AND | BEQ | BNE | DIV | DIVU | MULT | MULTU | NOR | SLL | SLLV | SLT | SLTU => true
    case SRA | SRAV | SRL | SRLV | SUB | SUBU | XOR | SB | SH | SW | SWL | SWR => true
    case _ => false
  }

  function Plain(o: Operands, value: int32): AluResult {
    Out(value, o.hi, o.lo, Wrap(o.nextPc + 4))
  }

  function Branch(o: Operands, taken: bool, extra: int32): AluResult {
    Out(Wrap(o.nextPc + 4), o.hi, o.lo, Wrap(o.nextPc + if taken then ShiftLeft32(extra, 2) else 4))
  }

  function Jumped(o: Operands, target: int32): AluResult {
    Out(Wrap(o.nextPc + 4), o.hi, o.lo, target)
  }

  function HiLo(o: Operands, hi: int32, lo: int32): AluResult {
    Out(0, hi, lo, Wrap(o.nextPc + 4))
  }

  function Flag(b: bool): int32 {
    if b then 1 else 0
  }

  /** Sums and differences, with the simulator's sign-bit test for overflow. */
  function Added(o: Operands, a: int32, b: int32, tested: int32): AluResult {
    var sum := Wrap(a + b);
    if !SignsDiffer(a, b) && SignsDiffer(tested, sum) then AluTrap(Overflow) else Plain(o, sum)
  }

  function Subtracted(o: Operands, a: int32, b: int32): AluResult {
    var diff := Wrap(a - b);
    if SignsDiffer(a, b) && SignsDiffer(a, diff) then AluTrap(Overflow) else Plain(o, diff)
  }

  function Divided(o: Operands): AluResult {
    if o.rt == 0 then HiLo(o, 0, 0)
    else var q := Quotient(o.rs, o.rt); HiLo(o, Wrap(o.rs - q * o.rt), Wrap(q))
  }

  function DividedUnsigned(o: Operands): AluResult {
    if o.rt == 0 then HiLo(o, 0, 0)
    else HiLo(o, Wrap(ToWord(o.rs) % ToWord(o.rt)), Wrap(ToWord(o.rs) / ToWord(o.rt)))
  }

  /** The source writes the link register before it reads rs. */
  function AfterLink(o: Operands, link: reg, rs: reg): int32 {
    if link == rs then Wrap(o.nextPc + 4) else o.rs
  }

  /** Branches and jumps. */
  function Jumps(i: Instr, o: Operands): AluResult {
    match i.op
    case BEQ => Branch(o, o.rs == o.rt, i.extra)
    case BGEZAL => Branch(o, AfterLink(o, 31, i.rs) >= 0, i.extra)
    case BGEZ => Branch(o, o.rs >= 0, i.extra)
    case BGTZ => Branch(o, o.rs > 0, i.extra)
    case BLEZ => Branch(o, o.rs <= 0, i.extra)
    case BLTZAL => Branch(o, AfterLink(o, 31, i.rs) < 0, i.extra)
    case BLTZ => Branch(o, o.rs < 0, i.extra)
    case BNE => Branch(o, o.rs != o.rt, i.extra)
    case JAL => Jumped(o, Or32(And32(Wrap(o.nextPc + 4), -0x1000_0000), ShiftLeft32(i.extra, 2)))
    case J => Jumped(o, Or32(And32(Wrap(o.nextPc + 4), -0x1000_0000), ShiftLeft32(i.extra, 2)))
    case JALR => Jumped(o, AfterLink(o, i.rd, i.rs))
    case JR => Jumped(o, o.rs)
    case _ => AluTrap(IllegalInstruction)
  }

  /** Everything about the double register. */
  function HiLoOps(i: Instr, o: Operands): AluResult {
    match i.op
    case DIV => Divided(o)
    case DIVU => DividedUnsigned(o)
    case MFHI => Plain(o, o.hi)
    case MFLO => Plain(o, o.lo)
    case MTHI => HiLo(o, o.rs, o.lo)
    case MTLO => HiLo(o, o.hi, o.rs)
    case MULT => HiLo(o, ProductHi(o.rs * o.rt), ProductLo(o.rs * o.rt))
    case MULTU => HiLo(o, ProductHi(ToWord(o.rs) * ToWord(o.rt)), ProductLo(ToWord(o.rs) * ToWord(o.rt)))
    case _ => Jumps(i, o)
  }

  /** The rest of the switch; loads and stores are not part of it. */
  function Alu(i: Instr, o: Operands): AluResult {
    match i.op
    case ADD => Added(o, o.rs, o.rt, o.rs)
    case ADDI => Added(o, o.rs, i.extra, i.extra)
    case ADDIU => Plain(o, Wrap(o.rs + i.extra))
    case ADDU => Plain(o, Wrap(o.rs + o.rt))
    case AND => Plain(o, And32(o.rs, o.rt))
    case ANDI => Plain(o, And32(o.rs, Low16(i.extra)))
    case LUI => Plain(o, ShiftLeft32(i.extra, 16))
    case NOR => Plain(o, Not32(Or32(o.rs, o.rt)))
    case OR => Plain(o, Or32(o.rs, o.rs))
    case ORI => Plain(o, Or32(o.rs, Low16(i.extra)))
    case SLL => Plain(o, ShiftLeft32(o.rt, i.extra % 32))
    case SLLV => Plain(o, ShiftLeft32(o.rt, o.rs % 32))
    case SLT => Plain(o, Flag(o.rs < o.rt))
    case SLTI => Plain(o, Flag(o.rs < i.extra))
    case SLTIU => Plain(o, Flag(ToWord(o.rs) < ToWord(i.extra)))
    case SLTU => Plain(o, Flag(ToWord(o.rs) < ToWord(o.rt)))
    case SRA => Plain(o, ShiftRight32(o.rt, i.extra % 32))
    case SRAV => Plain(o, ShiftRight32(o.rt, o.rs % 32))
    case SRL => Plain(o, ShiftRight32(o.rt, i.extra % 32))
    case SRLV => Plain(o, ShiftRight32(o.rt, o.rs % 32))
    case SUB => Subtracted(o, o.rs, o.rt)
    case SUBU => Plain(o, Wrap(o.rs - o.rt))
    case XOR => Plain(o, Xor32(o.rs, o.rt))
    case XORI => Plain(o, Xor32(o.rs, Low16(i.extra)))
    case SYSCALL => AluTrap(Syscall)
    case _ => HiLoOps(i, o)
  }

  /** Operands that agree on all the instruction reads. */
  predicate AluAgree(i: Instr, o: Operands, o': Operands) {
    && o.hi == o'.hi && o.lo == o'.lo && o.nextPc == o'.nextPc
    && (ReadsRs(i.op) ==> o.rs == o'.rs) && (ReadsRt(i.op) ==> o.rt == o'.rt)
  }

  lemma JumpsReads(i: Instr, o: Operands, o': Operands)
    requires AluAgree(i, o, o')
    ensures Jumps(i, o) == Jumps(i, o')
  {
    hide Wrap, And32, Or32, ShiftLeft32;
  }

  lemma HiLoReads(i: Instr, o: Operands, o': Operands)
    requires AluAgree(i, o, o')
    ensures HiLoOps(i, o) == HiLoOps(i, o')
  {
    JumpsReads(i, o, o');
    hide Wrap, Quotient, ProductHi, ProductLo, ToWord, Jumps;
  }

  /** The operands an instruction does not read do not matter. */
  lemma AluReads(i: Instr, o: Operands, o': Operands)
    requires AluAgree(i, o, o')
    ensures Alu(i, o) == Alu(i, o')
  {
    HiLoReads(i, o, o');
    hide HiLoOps, Wrap, SignsDiffer, And32, Or32, Xor32, Not32, ShiftLeft32, ShiftRight32, ToWord, Low16, Flag;
  }

  /** The sign-bit tests trap exactly on overflow, and the sum is exact otherwise. */
  lemma OverflowIsExact(o: Operands, a: int32, b: int32, tested: int32)
    requires tested == a || tested == b
    ensures Added(o, a, b, tested) ==
            if -0x8000_0000 <= a + b < 0x8000_0000 then Plain(o, a + b) else AluTrap(Overflow)
    ensures Subtracted(o, a, b) ==
            if -0x8000_0000 <= a - b < 0x8000_0000 then Plain(o, a - b) else AluTrap(Overflow)
  {
  }

  /** The logical instructions work bit by bit. */
  lemma LogicalBits(a: int32, b: int32, k: nat)
    requires k < 32
    ensures Bit(ToWord(And32(a, b)), k) <==> Bit(ToWord(a), k) && Bit(ToWord(b), k)
    ensures Bit(ToWord(Or32(a, b)), k) <==> Bit(ToWord(a), k) || Bit(ToWord(b), k)
    ensures Bit(ToWord(Xor32(a, b)), k) <==> Bit(ToWord(a), k) != Bit(ToWord(b), k)
    ensures Bit(ToWord(Not32(a)), k) <==> !Bit(ToWord(a), k)
  {
    var x, y := ToWord(a), ToWord(b);
    Pow2At32();
    AndBound(x, y);
    OrBound(x, y, 32);
    XorBound(x, y, 32);
    hide And, Or, Xor, Pow2, Bit;
    FromToWord(And(x, y));
    FromToWord(Or(x, y));
    FromToWord(Xor(x, y));
    assert ToWord(Not32(a)) == Not(x, 32);
    BitAnd(x, y, k);
    BitOr(x, y, k);
    BitXor(x, y, k);
    BitNot(x, 32, k);
  }

  lemma FloorDoubles(a: int, q: int, p: int)
    requires q * p <= a / 2 < (q + 1) * p
    ensures q * (2 * p) <= a < (q + 1) * (2 * p)
  {
    assert q * (2 * p) == 2 * (q * p) && (q + 1) * (2 * p) == 2 * ((q + 1) * p);
  }

  /** SRA, and SRL as the simulator has it, divide by a power of two and round
      down. */
  lemma {:induction false} ShiftRightFloors(a: int32, n: nat)
    ensures ShiftRight32(a, n) * Pow2(n) <= a < (ShiftRight32(a, n) + 1) * Pow2(n)
    decreases n
  {
    if n > 0 {
      ShiftRightFloors(a / 2, n - 1);
      FloorDoubles(a, ShiftRight32(a / 2, n - 1), Pow2(n - 1));
    }
  }

  lemma DivisionFacts(x: nat, y: nat, q: nat)
    requires y > 0 && q == x / y
    ensures q * y <= x < q * y + y && q <= x && (y >= 2 ==> 2 * q <= x)
  {
    assert x == q * y + x % y;
    Monotone(1, y, q);
    if y >= 2 { Monotone(2, y, q); }
  }

  lemma QuotientTimes(a: int, b: int, q: int, y: int)
    requires b != 0 && y == Abs(b) && Quotient(a, b) == if (a < 0) == (b < 0) then q else -q
    ensures Quotient(a, b) * b == if a < 0 then -(q * y) else q * y
  {
    SignOfProduct(q, y);
    hide Quotient;
    if b < 0 {
      assert b == -y && Quotient(a, b) == if a < 0 then q else -q;
    } else {
      assert b == y && Quotient(a, b) == if a < 0 then -q else q;
    }
  }

  lemma QuotientOf(a: int, b: int) returns (q: int)
    requires b != 0
    ensures q >= 0 && Quotient(a, b) == if (a < 0) == (b < 0) then q else -q
    ensures q * Abs(b) <= Abs(a) < q * Abs(b) + Abs(b)
  {
    q := Abs(a) / Abs(b);
    NonNegativeQuotient(Abs(a), Abs(b));
    DivisionFacts(Abs(a), Abs(b), q);
  }

  lemma NonNegativeQuotient(x: nat, y: nat)
    requires y > 0
    ensures x / y >= 0
  {
  }

  lemma QuotientMeans(a: int, b: int)
    requires b != 0
    ensures var r := a - Quotient(a, b) * b;
            Abs(r) < Abs(b) && Abs(r) <= Abs(a) && (r == 0 || (r < 0) == (a < 0))
  {
    var q := QuotientOf(a, b);
    hide Quotient;
    QuotientTimes(a, b, q, Abs(b));
    Monotone(0, q, Abs(b));
    RemainderMeans(a, b, q * Abs(b), a - Quotient(a, b) * b);
  }

  lemma RemainderMeans(a: int, b: int, p: int, r: int)
    requires 0 <= p <= Abs(a) < p + Abs(b) && r == a - if a < 0 then -p else p
    ensures Abs(r) < Abs(b) && Abs(r) <= Abs(a) && (r == 0 || (r < 0) == (a < 0))
  {
  }

  lemma QuotientFits(a: int, b: int)
    requires -0x8000_0000 <= a < 0x8000_0000 && b != 0 && !(a == -0x8000_0000 && b == -1)
    ensures -0x8000_0000 <= Quotient(a, b) < 0x8000_0000
  {
    var x: int, y: int := Abs(a), Abs(b);
    var q: int := x / y;
    DivisionFacts(x, y, q);
    assert y == 1 || 2 * q <= 0x8000_0000;
    assert Quotient(a, b) == if (a < 0) == (b < 0) then q else -q;
    assert y == 1 && q == 0x8000_0000 ==> b == 1;
  }

  /** Quotient and remainder, rounding towards zero. */
  predicate Divides(o: Operands, r: AluResult) {
    && r.Out? && r.lo * o.rt + r.hi == o.rs
    && Abs(r.hi) < Abs(o.rt) && (r.hi == 0 || (r.hi < 0) == (o.rs < 0))
  }

  /** DIV leaves quotient and remainder in Lo and Hi, exactly when the quotient
      fits: all but the most negative number divided by -1. */
  lemma DivisionIsExact(o: Operands)
    requires o.rt != 0
    ensures Divides(o, Divided(o)) <==> !(o.rs == -0x8000_0000 && o.rt == -1)
  {
    QuotientMeans(o.rs, o.rt);
    if o.rs == -0x8000_0000 && o.rt == -1 {
      assert Quotient(o.rs, o.rt) == 0x8000_0000;
    } else {
      QuotientFits(o.rs, o.rt);
      hide Wrap, Quotient;
      WrapFits(Quotient(o.rs, o.rt));
      WrapFits(o.rs - Quotient(o.rs, o.rt) * o.rt);
    }
  }

  lemma WrapFits(x: int)
    requires -0x8000_0000 <= x < 0x8000_0000
    ensures Wrap(x) == x
  {
  }

  /** The shift the architecture asks of SRL: zeros come in at the top. */
  function LogicalShift(w: word, n: nat): word
    decreases n
  {
    if n == 0 then w else LogicalShift(w / 2, n - 1)
  }

  lemma {:induction false} ShiftsOfNatural(a: int32, n: nat)
    requires a >= 0
    ensures ShiftRight32(a, n) == LogicalShift(a, n) <= a
    decreases n
  {
    if n > 0 { ShiftsOfNatural(a / 2, n - 1); }
  }

  lemma {:induction false} ShiftRightOfNegative(a: int32, n: nat)
    requires a < 0
    ensures ShiftRight32(a, n) < 0
    decreases n
  {
    if n > 0 { ShiftRightOfNegative(a / 2, n - 1); }
  }

  lemma ShiftsAgree(a: int32, n: nat)
    ensures ShiftRight32(a, n) == FromWord(LogicalShift(ToWord(a), n)) <==> a >= 0 || n == 0
  {
    if a >= 0 {
      ShiftsOfNatural(a, n);
    } else if n > 0 {
      ShiftRightOfNegative(a, n);
      ShiftsOfNatural(ToWord(a) / 2, n - 1);
    }
  }

  /** SRL and SRLV give the result the architecture asks for exactly when the
      operand is not negative or the shift is by nothing. */
  lemma ShiftAgreesExactly(i: Instr, o: Operands)
    requires i.op == SRL || i.op == SRLV
    ensures var n := if i.op == SRL then i.extra % 32 else o.rs % 32;
            Alu(i, o) == Plain(o, FromWord(LogicalShift(ToWord(o.rt), n))) <==> o.rt >= 0 || n == 0
  {
    ShiftsAgree(o.rt, if i.op == SRL then i.extra % 32 else o.rs % 32);
    hide ShiftRight32, LogicalShift, ToWord, FromWord, Wrap;
  }

  lemma FromWordInjective(v: word, w: word)
    requires FromWord(v) == FromWord(w)
    ensures v == w
  {
    FromToWord(v);
    FromToWord(w);
  }

  lemma OrsAgree(a: int32, b: int32)
    ensures Or32(a, a) == Or32(a, b) <==> Within(ToWord(b), ToWord(a))
  {
    var x, y := ToWord(a), ToWord(b);
    Pow2At32();
    OrBound(x, x, 32);
    OrBound(x, y, 32);
    OrAddsNothing(x, x);
    OrAddsNothing(x, y);
    hide Or, Within, Pow2;
    if Or32(a, a) == Or32(a, b) { FromWordInjective(Or(x, x), Or(x, y)); }
  }

  /** None of the 32 bits of `v` is missing from `w`. */
  ghost predicate LacksNone(w: word, v: word) {
    forall k: nat | k < 32 && Bit(v, k) :: Bit(w, k)
  }

  /** OR gives the result the architecture asks for exactly when rt has no bit
      that rs lacks. */
  lemma OrAgreesExactly(i: Instr, o: Operands)
    requires i.op == OR
    ensures Alu(i, o) == Plain(o, Or32(o.rs, o.rt)) <==> LacksNone(ToWord(o.rs), ToWord(o.rt))
  {
    OrsAgree(o.rs, o.rt);
    WithinWord(ToWord(o.rt), ToWord(o.rs));
    hide Or32, Within, LacksNone, ToWord, Wrap;
  }

  lemma WithinWord(v: word, w: word)
    ensures Within(v, w) <==> LacksNone(w, v)
  {
    Pow2At32();
    if LacksNone(w, v) {
      forall k: nat | Bit(v, k)
        ensures Bit(w, k)
      {
        BitIsBelow(v, 32, k);
      }
    }
  }

  /** Where they differ: OR of 0 and 1, and SRL of -1 by 1. */
  lemma WhereTheyDiffer(i: Instr, o: Operands)
    requires (i.op == OR && o.rs == 0 && o.rt == 1) || (i.op == SRL && o.rt == -1 && i.extra == 1)
    ensures i.op == OR ==> Alu(i, o).value == 0 && Or32(o.rs, o.rt) == 1
    ensures i.op == SRL ==> Alu(i, o).value == -1 && FromWord(LogicalShift(ToWord(o.rt), 1)) == 0x7fff_ffff
  {
    if i.op == SRL {
      assert ShiftRight32(-1, 1) == ShiftRight32(-1, 0);
      assert LogicalShift(0xffff_ffff, 1) == LogicalShift(0x7fff_ffff, 0);
    }
  }
}
