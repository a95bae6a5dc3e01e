/**
 * MIPS instructions as the simulator decodes and executes them: the opcode tables, and for each
 * instruction the action it takes on the values of its operands.  The simulator's own reading of an
 * opcode is followed, not the manual's: OR combines rs with itself and SRL shifts in sign bits.
 */
module Instructions {
  import opened Arithmetic
  import opened Multiply
  import opened Bits
  import U = UserMemory

  datatype Op =
    | ADD | ADDI | ADDIU | ADDU | AND | ANDI | BEQ | BGEZ | BGEZAL | BGTZ | BLEZ | BLTZ | BLTZAL | BNE
    | DIV | DIVU | J | JAL | JALR | JR | LB | LBU | LH | LHU | LUI | LW | LWL | LWR | MFHI | MFLO | MTHI | MTLO
    | MULT | MULTU | NOR | OR | ORI | SB | SH | SLL | SLLV | SLT | SLTI | SLTIU | SLTU | SRA | SRAV | SRL | SRLV
    | SUB | SUBU | SW | SWL | SWR | XOR | XORI | SYSCALL | UNIMP | RES

  datatype Format = IFMT | JFMT | RFMT

  /** rs, rt and rd are register numbers; extra is the immediate, shift amount or jump target. */
  datatype Instruction = Instruction(op: Op, rs: nat, rt: nat, rd: nat, extra: Word)

  // ---- decoding ----

  /** specialTable. */
  function SpecialOp(funct: nat): Op {
    match funct
    case 0 => SLL case 2 => SRL case 3 => SRA case 4 => SLLV case 6 => SRLV case 7 => SRAV
    case 8 => JR case 9 => JALR case 12 => SYSCALL case 13 => UNIMP
    case 16 => MFHI case 17 => MTHI case 18 => MFLO case 19 => MTLO
    case 24 => MULT case 25 => MULTU case 26 => DIV case 27 => DIVU
    case 32 => ADD case 33 => ADDU case 34 => SUB case 35 => SUBU case 36 => AND case 37 => OR case 38 => XOR case 39 => NOR
    case 42 => SLT case 43 => SLTU
    case _ => RES
  }

  function BranchOp(rt: nat): Op {
    match rt
    case 0 => BLTZ case 1 => BGEZ case 16 => BLTZAL case 17 => BGEZAL
    case _ => UNIMP
  }

  /** opTable, with the SPECIAL and BCOND rows resolved by the fields they name. */
  function OpOf(code: nat, funct: nat, rt: nat): Op {
    match code
    case 0 => SpecialOp(funct) case 1 => BranchOp(rt)
    case 2 => J case 3 => JAL case 4 => BEQ case 5 => BNE case 6 => BLEZ case 7 => BGTZ
    case 8 => ADDI case 9 => ADDIU case 10 => SLTI case 11 => SLTIU case 12 => ANDI case 13 => ORI case 14 => XORI case 15 => LUI
    case 16 => UNIMP case 17 => UNIMP case 18 => UNIMP case 19 => UNIMP
    case 32 => LB case 33 => LH case 34 => LWL case 35 => LW case 36 => LBU case 37 => LHU case 38 => LWR
    case 40 => SB case 41 => SH case 42 => SWL case 43 => SW case 46 => SWR
    case 48 => UNIMP case 49 => UNIMP case 50 => UNIMP case 51 => UNIMP
    case 56 => UNIMP case 57 => UNIMP case 58 => UNIMP case 59 => UNIMP
    case _ => RES
  }

  function FormatOf(code: nat): Format {
    if code == 0 then RFMT else if code == 2 || code == 3 then JFMT else IFMT
  }

  function SignExtend16(h: nat): Word
    requires h < 0x1_0000
  {
    if h < 0x8000 then h else 0xFFFF_0000 + h
  }

  function Decode(w: Word): (i: Instruction)
    ensures i.rs < 32 && i.rt < 32 && i.rd < 32
  {
    var code, rt := w / 0x400_0000, (w / 0x1_0000) % 32;
    var extra := match FormatOf(code)
      case IFMT => SignExtend16(w % 0x1_0000)
      case RFMT => (w / 64) % 32
      case JFMT => w % 0x400_0000;
    Instruction(OpOf(code, w % 64, rt), (w / 0x20_0000) % 32, rt, (w / 0x800) % 32, extra)
  }

  // ---- words ----

  function Not(x: Word): Word {
    0xFFFF_FFFF - x
  }

  function ShiftLeft(x: Word, n: nat): Word {
    ToWord(x * Pow2(n))
  }

  /** C's >> on an int: the quotient rounded down, sign bits shifted in. */
  function ShiftRight(x: Word, n: nat): Word {
    ToWord(Signed(x) / Pow2(n))
  }

  function Add(x: Word, y: Word): Word {
    ToWord(x + y)
  }

  function Sub(x: Word, y: Word): Word {
    ToWord(x - y)
  }

  predicate Negative(x: Word) {
    x >= 0x8000_0000
  }

  function Flag(b: bool): Word {
    if b then 1 else 0
  }

  /** C's division rounds toward zero. */
  function Quotient(x: int, y: int): int
    requires y != 0
  {
    var q := Magnitude(x) / Magnitude(y);
    if (x < 0) == (y < 0) then q else -q
  }

  function Remainder(x: int, y: int): int
    requires y != 0
  {
    x - y * Quotient(x, y)
  }

  // ---- what an instruction does with its operands ----

  datatype Trap = AddressError | ReadOnlyError | Overflow | Illegal | Syscall

  /** How a loaded value reaches its register. */
  datatype Extend = ByteSigned | ByteUnsigned | HalfSigned | HalfUnsigned | Whole | MergeRight

  datatype Action =
    | Finish(writes: map<nat, Word>, pcAfter: Word)
    | LoadFrom(addr: Word, size: nat, how: Extend)
    | StoreTo(addr: Word, size: nat, value: Word)
    | ReadThenStore(addr: Word, value: Word, right: bool) // SWL, SWR
    | Stop(trap: Trap, badVAddr: Word)
    | Abort                                               // a failed ASSERT

  const R31: nat := 31
  const HI: nat := 32
  const LO: nat := 33

  predicate UsesRs(op: Op) {
    match op
    case J => false case JAL => false case LUI => false case MFHI => false case MFLO => false
    case SLL => false case SRA => false case SRL => false case SYSCALL => false case UNIMP => false case RES => false
    case _ => true
  }

  predicate UsesRt(op: Op) {
    match op
    case ADD => true case ADDU => true case AND => true case BEQ => true case BNE => true case DIV => true case DIVU => true
    case MULT => true case MULTU => true case NOR => true case SB => true case SH => true case SLL => true case SLLV => true
    case SLT => true case SLTU => true case SRA => true case SRAV => true case SRL => true case SRLV => true
    case SUB => true case SUBU => true case SW => true case SWL => true case SWR => true case XOR => true
    case _ => false
  }

  /** The general register the instruction writes at once, or 0; a load writes later. */
  function Target(i: Instruction): nat {
    match i.op
    case ADD => i.rd case ADDU => i.rd case AND => i.rd case JALR => i.rd case MFHI => i.rd case MFLO => i.rd
    case NOR => i.rd case OR => i.rd case SLL => i.rd case SLLV => i.rd case SLT => i.rd case SLTU => i.rd
    case SRA => i.rd case SRAV => i.rd case SRL => i.rd case SRLV => i.rd case SUB => i.rd case SUBU => i.rd case XOR => i.rd
    case ADDI => i.rt case ADDIU => i.rt case ANDI => i.rt case LUI => i.rt case ORI => i.rt
    case SLTI => i.rt case SLTIU => i.rt case XORI => i.rt
    case BGEZAL => R31 case BLTZAL => R31 case JAL => R31
    case _ => 0
  }

  function Low16(x: Word): Word {
    And(x, 0xFFFF)
  }

  /** The target of a taken branch, or the instruction after the delay slot. */
  function Branch(i: Instruction, next: Word, taken: bool): Word {
    if taken then Add(next, ShiftLeft(i.extra, 2)) else Add(next, 4)
  }

  function AlignedLoad(addr: Word, size: nat, how: Extend): Action {
    if (size == 2 && addr % 2 != 0) || (size == 4 && addr % 4 != 0) then Stop(AddressError, addr) else LoadFrom(addr, size, how)
  }

  function High(p: nat): Word {
    ToWord(p / WORD)
  }

  /** Branches and jumps; a and b are the contents of rs and rt, next of NextPC. */
  function Jump(i: Instruction, a: Word, b: Word, next: Word): Action {
    var after := Add(next, 4);
    match i.op
    case BEQ => Finish(map[], Branch(i, next, a == b))
    case BGEZAL => Finish(map[R31 := after], Branch(i, next, !Negative(if i.rs == R31 then after else a)))
    case BGEZ => Finish(map[], Branch(i, next, !Negative(a)))
    case BGTZ => Finish(map[], Branch(i, next, Signed(a) > 0))
    case BLEZ => Finish(map[], Branch(i, next, Signed(a) <= 0))
    case BLTZAL => Finish(map[R31 := after], Branch(i, next, Negative(if i.rs == R31 then after else a)))
    case BLTZ => Finish(map[], Branch(i, next, Negative(a)))
    case BNE => Finish(map[], Branch(i, next, a != b))
    case JAL => Finish(map[R31 := after], Or(And(after, 0xF000_0000), ShiftLeft(i.extra, 2)))
    case J => Finish(map[], Or(And(after, 0xF000_0000), ShiftLeft(i.extra, 2)))
    case JALR => Finish(map[i.rd := after], if i.rs == i.rd then after else a)
    case JR => Finish(map[], a)
    case _ => Abort
  }

  /** Loads and stores. */
  function Access(i: Instruction, a: Word, b: Word): Action {
    var addr := Add(a, i.extra);
    match i.op
    case LB => AlignedLoad(addr, 1, ByteSigned)
    case LBU => AlignedLoad(addr, 1, ByteUnsigned)
    case LH => AlignedLoad(addr, 2, HalfSigned)
    case LHU => AlignedLoad(addr, 2, HalfUnsigned)
    case LW => AlignedLoad(addr, 4, Whole)
    case LWL => if addr % 4 == 0 then LoadFrom(addr, 4, Whole) else Abort
    case LWR => if addr % 4 == 0 then LoadFrom(addr, 4, MergeRight) else Abort
    case SB => StoreTo(addr, 1, b)
    case SH => StoreTo(addr, 2, b)
    case SW => StoreTo(addr, 4, b)
    case SWL => if addr % 4 == 0 then ReadThenStore(addr, b, false) else Abort
    case SWR => if addr % 4 == 0 then ReadThenStore(addr, b, true) else Abort
    case _ => Abort
  }

  /** Instructions on the double register HI:LO. */
  function UseHiLo(i: Instruction, a: Word, b: Word, hi: Word, lo: Word, after: Word): Action {
    match i.op
    case DIV =>
      if b == 0 then Finish(map[LO := 0, HI := 0], after)
      else Finish(map[LO := ToWord(Quotient(Signed(a), Signed(b))), HI := ToWord(Remainder(Signed(a), Signed(b)))], after)
    case DIVU =>
      if b == 0 then Finish(map[LO := 0, HI := 0], after) else Finish(map[LO := ToWord(Quotient(a, b)), HI := ToWord(Remainder(a, b))], after)
    case MFHI => Finish(map[i.rd := hi], after)
    case MFLO => Finish(map[i.rd := lo], after)
    case MTHI => Finish(map[HI := a], after)
    case MTLO => Finish(map[LO := a], after)
    case MULT => Finish(map[HI := High(Product(a, b, true)), LO := ToWord(Product(a, b, true))], after)
    case MULTU => Finish(map[HI := High(Product(a, b, false)), LO := ToWord(Product(a, b, false))], after)
    case _ => Abort
  }

  /** The result of arithmetic, logic and shifts. */
  function ValueOf(i: Instruction, a: Word, b: Word): Word {
    match i.op
    case ADD => Add(a, b)
    case ADDI => Add(a, i.extra)
    case SUB => Sub(a, b)
    case ADDIU => Add(a, i.extra)
    case ADDU => Add(a, b)
    case AND => And(a, b)
    case ANDI => And(a, Low16(i.extra))
    case LUI => ShiftLeft(i.extra, 16)
    case NOR => Not(Or(a, b))
    case OR => Or(a, a)
    case ORI => Or(a, Low16(i.extra))
    case SLL => ShiftLeft(b, i.extra)
    case SLLV => ShiftLeft(b, a % 32)
    case SLT => Flag(Signed(a) < Signed(b))
    case SLTI => Flag(Signed(a) < Signed(i.extra))
    case SLTIU => Flag(a < i.extra)
    case SLTU => Flag(a < b)
    case SRA => ShiftRight(b, i.extra)
    case SRAV => ShiftRight(b, a % 32)
    case SRL => ShiftRight(b, i.extra)
    case SRLV => ShiftRight(b, a % 32)
    case SUBU => Sub(a, b)
    case XOR => Xor(a, b)
    case XORI => Xor(a, Low16(i.extra))
    case _ => 0
  }

  /** The overflow tests, on the sign bits of operands and result. */
  predicate Overflows(i: Instruction, a: Word, b: Word) {
    match i.op
    case ADD => Negative(a) == Negative(b) && Negative(a) != Negative(Add(a, b))
    case ADDI => Negative(a) == Negative(i.extra) && Negative(i.extra) != Negative(Add(a, i.extra))
    case SUB => Negative(a) != Negative(b) && Negative(a) != Negative(Sub(a, b))
    case _ => false
  }

  /** Arithmetic, logic and shifts into one general register. */
  function Compute(i: Instruction, a: Word, b: Word, after: Word): Action {
    if Overflows(i, a, b) then Stop(Overflow, 0) else Finish(map[Target(i) := ValueOf(i, a, b)], after)
  }

  datatype Kind = Jumps | Accesses | UsesHiLo | Traps | Computes

  function KindOf(op: Op): Kind {
    match op
    case BEQ => Jumps case BGEZAL => Jumps case BGEZ => Jumps case BGTZ => Jumps case BLEZ => Jumps case BLTZAL => Jumps
    case BLTZ => Jumps case BNE => Jumps case JAL => Jumps case J => Jumps case JALR => Jumps case JR => Jumps
    case LB => Accesses case LBU => Accesses case LH => Accesses case LHU => Accesses case LW => Accesses case LWL => Accesses
    case LWR => Accesses case SB => Accesses case SH => Accesses case SW => Accesses case SWL => Accesses case SWR => Accesses
    case DIV => UsesHiLo case DIVU => UsesHiLo case MFHI => UsesHiLo case MFLO => UsesHiLo
    case MTHI => UsesHiLo case MTLO => UsesHiLo case MULT => UsesHiLo case MULTU => UsesHiLo
    case SYSCALL => Traps case UNIMP => Traps case RES => Traps
    case _ => Computes
  }

  /** What the instruction does; a and b are the contents of rs and rt, next of NextPC. */
  function Act(i: Instruction, a: Word, b: Word, hi: Word, lo: Word, next: Word): Action {
    match KindOf(i.op)
    case Jumps => Jump(i, a, b, next)
    case Accesses => Access(i, a, b)
    case UsesHiLo => UseHiLo(i, a, b, hi, lo, Add(next, 4))
    case Computes => Compute(i, a, b, Add(next, 4))
    case Traps => Stop(if i.op == SYSCALL then Syscall else Illegal, 0)
  }

  /** The word a load leaves pending; base is what its register would hold without it. */
  function Extended(how: Extend, value: Word, base: Word): Word {
    match how
    case ByteSigned => if value % 256 >= 128 then 0xFFFF_FF00 + value % 256 else value % 256
    case ByteUnsigned => value % 256
    case HalfSigned => if value % 0x1_0000 >= 0x8000 then 0xFFFF_0000 + value % 0x1_0000 else value % 0x1_0000
    case HalfUnsigned => value % 0x1_0000
    case Whole => value
    case MergeRight => base - base % 256 + value / 0x100_0000
  }

  /** The word SWL or SWR writes back over old. */
  function Merged(right: bool, old_: Word, value: Word): Word {
    if right then old_ % 0x100_0000 + (value % 256) * 0x100_0000 else value
  }

  /** The operands an instruction does not use make no difference to it. */
  lemma UnusedOperands(i: Instruction, a: Word, a': Word, b: Word, b': Word, hi: Word, lo: Word, next: Word)
    requires UsesRs(i.op) ==> a == a'
    requires UsesRt(i.op) ==> b == b'
    ensures Act(i, a, b, hi, lo, next) == Act(i, a', b', hi, lo, next)
  {
    hide And, Or, Xor, Not, ShiftLeft, ShiftRight, Add, Sub, Negative, Quotient, Remainder, Product, Signed, ToWord,
         Low16, Branch, AlignedLoad, Flag, High;
  }

  // ---- decoding and arithmetic against what they stand for ----

  /** The word of an instruction in register format. */
  function RegisterWord(rs: nat, rt: nat, rd: nat, shamt: nat, funct: nat): int {
    rs * 0x20_0000 + rt * 0x1_0000 + rd * 0x800 + shamt * 0x40 + funct
  }

  lemma DecodeRegister(rs: nat, rt: nat, rd: nat, shamt: nat, funct: nat)
    requires rs < 32 && rt < 32 && rd < 32 && shamt < 32 && funct < 64
    ensures 0 <= RegisterWord(rs, rt, rd, shamt, funct) < 0x400_0000
    ensures Decode(RegisterWord(rs, rt, rd, shamt, funct)) == Instruction(SpecialOp(funct), rs, rt, rd, shamt)
  {
    var w := RegisterWord(rs, rt, rd, shamt, funct);
    assert w / 0x40 == rs * 0x8000 + rt * 0x400 + rd * 0x20 + shamt;
    assert w / 0x800 == rs * 0x400 + rt * 0x20 + rd;
    assert w / 0x1_0000 == rs * 0x20 + rt;
    hide SpecialOp;
  }

  /** The word of an instruction in immediate format, the immediate as 16 bits. */
  function ImmediateWord(code: nat, rs: nat, rt: nat, immediate: nat): int {
    code * 0x400_0000 + rs * 0x20_0000 + rt * 0x1_0000 + immediate
  }

  lemma DecodeImmediate(code: nat, rs: nat, rt: nat, immediate: nat)
    requires 0 < code < 64 && code != 2 && code != 3 && rs < 32 && rt < 32 && immediate < 0x1_0000
    ensures 0 <= ImmediateWord(code, rs, rt, immediate) < 0x1_0000_0000
    ensures var i := Decode(ImmediateWord(code, rs, rt, immediate));
      && i.rs == rs && i.rt == rt && i.op == OpOf(code, immediate % 64, rt)
      && Signed(i.extra) == if immediate < 0x8000 then immediate else immediate - 0x1_0000
  {
    var w := ImmediateWord(code, rs, rt, immediate);
    assert w / 0x400_0000 == code;
    assert w / 0x20_0000 == code * 32 + rs;
    assert w / 0x1_0000 == code * 0x400 + rs * 0x20 + rt;
    assert w % 64 == immediate % 64;
    hide OpOf;
  }

  lemma DecodeJump(code: nat, target: nat)
    requires (code == 2 || code == 3) && target < 0x400_0000
    ensures var i := Decode(code * 0x400_0000 + target); i.op == (if code == 2 then J else JAL) && i.extra == target
  {
    assert (code * 0x400_0000 + target) / 0x400_0000 == code;
  }

  predicate Fits(x: int) {
    -0x8000_0000 <= x < 0x8000_0000
  }

  lemma SumOverflow(a: Word, b: Word)
    ensures (Negative(a) == Negative(b) && Negative(a) != Negative(Add(a, b))) <==> !Fits(Signed(a) + Signed(b))
  {
  }

  lemma DifferenceOverflow(a: Word, b: Word)
    ensures (Negative(a) != Negative(b) && Negative(a) != Negative(Sub(a, b))) <==> !Fits(Signed(a) - Signed(b))
  {
  }

  lemma SumIsSigned(a: Word, b: Word)
    ensures Add(a, b) == ToWord(Signed(a) + Signed(b)) && Sub(a, b) == ToWord(Signed(a) - Signed(b))
  {
  }

  /** The sum or difference if it fits in a word as a signed number, else an overflow trap. */
  function SignedResult(reg: nat, x: int, after: Word): Action {
    if Fits(x) then Finish(map[reg := ToWord(x)], after) else Stop(Overflow, 0)
  }

  /** ADD, ADDI and SUB compute the signed result, and trap exactly when it does not fit in a word. */
  lemma ArithmeticExact(i: Instruction, a: Word, b: Word, hi: Word, lo: Word, next: Word)
    ensures i.op == ADD ==> Act(i, a, b, hi, lo, next) == SignedResult(i.rd, Signed(a) + Signed(b), Add(next, 4))
    ensures i.op == ADDI ==> Act(i, a, b, hi, lo, next) == SignedResult(i.rt, Signed(a) + Signed(i.extra), Add(next, 4))
    ensures i.op == SUB ==> Act(i, a, b, hi, lo, next) == SignedResult(i.rd, Signed(a) - Signed(b), Add(next, 4))
  {
    SumOverflow(a, b);
    SumOverflow(a, i.extra);
    DifferenceOverflow(a, b);
    SumIsSigned(a, b);
    SumIsSigned(a, i.extra);
    hide Add, Sub, Negative, Signed, ToWord, Fits;
  }

  /** LB and LH extend the sign of what they load, LBU and LHU do not, LW takes it whole. */
  lemma ExtendsRight(b: seq<Byte>, base: Word)
    ensures |b| == 1 ==> Signed(Extended(ByteSigned, U.Decode(b), base)) == (if b[0] < 128 then b[0] as int else b[0] as int - 256)
    ensures |b| == 1 ==> Extended(ByteUnsigned, U.Decode(b), base) == b[0]
    ensures |b| == 2 ==> var h := b[0] as int + 256 * (b[1] as int);
              Extended(HalfUnsigned, U.Decode(b), base) == h && Signed(Extended(HalfSigned, U.Decode(b), base)) == if h < 0x8000 then h else h - 0x1_0000
  {
  }
}
