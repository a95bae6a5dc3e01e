/**
 * What instructions do, in the terms a programmer of the machine would use: registers, program
 * counters, signed and unsigned numbers and the bytes of memory.  Nothing here refers to how the
 * simulator goes about it.
 */
module Architecture {
  import opened Arithmetic
  import opened Multiply
  import opened Bits
  import opened Instructions
  import opened Processor
  import opened Restarts
  import U = UserMemory

  ghost predicate Fields(i: Instruction) {
    i.rs < 32 && i.rt < 32 && i.rd < 32
  }

  /** General registers: the pending load arrives, even over the instruction's own result in reg. */
  ghost predicate General(r: Registers, t: Registers, reg: nat, value: Word) {
    t[0] == 0 && forall k :: 0 < k < 32 ==> t[k] == if k == r[LOAD_REG] then r[LOAD_VALUE] else if k == reg then value else r[k]
  }

  /** The program counters move on, with the instruction after the delay slot at next. */
  ghost predicate Moves(r: Registers, t: Registers, next: Word) {
    t[PREV_PC] == r[PC] && t[PC] == r[NEXT_PC] && t[NEXT_PC] == next
  }

  /** The instruction ends, leaves value in register reg and memory alone. */
  ghost predicate Ends(r: Registers, mem: U.Memory, x: Result, reg: nat, value: Word, hi: Word, lo: Word, next: Word) {
    && x.outcome == Completed && x.mem == mem
    && General(r, x.regs, reg, value) && Moves(r, x.regs, next)
    && x.regs[HI] == hi && x.regs[LO] == lo && x.regs[LOAD_REG] == 0
  }

  /** The instruction traps: the pending load arrives, the counters stay, the address is recorded. */
  ghost predicate TrapsTo(r: Registers, mem: U.Memory, x: Result, outcome: Outcome, bad: Word) {
    && x.outcome == outcome && x.mem == mem
    && General(r, x.regs, 0, 0) && x.regs[LOAD_REG] == 0 && x.regs[BAD_VADDR] == bad
    && (forall k :: HI <= k <= PREV_PC ==> x.regs[k] == r[k])
  }

  // ---- from actions to registers ----

  lemma FinishEnds(i: Instruction, r: Registers, mem: U.Memory, reg: nat, value: Word, next: Word)
    requires Ready(r, mem) && Fields(i) && reg < 32 && ActOn(i, r) == Finish(map[reg := value], next)
    ensures Ends(r, mem, Perform(i, r, mem), reg, value, r[HI], r[LO], next)
  {
    hide Act, PerformLoad, PerformStore, PerformReadThenStore, Complete;
    CompleteAt(r, map[reg := value], 0, 0, next);
  }

  lemma FinishMoves(i: Instruction, r: Registers, mem: U.Memory, next: Word)
    requires Ready(r, mem) && Fields(i) && ActOn(i, r) == Finish(map[], next)
    ensures Ends(r, mem, Perform(i, r, mem), 0, 0, r[HI], r[LO], next)
  {
    hide Act, PerformLoad, PerformStore, PerformReadThenStore, Complete;
    CompleteAt(r, map[], 0, 0, next);
  }

  lemma FinishHiLo(i: Instruction, r: Registers, mem: U.Memory, writes: map<nat, Word>, hi: Word, lo: Word, next: Word)
    requires Ready(r, mem) && Fields(i) && ActOn(i, r) == Finish(writes, next) && writes.Keys <= {HI, LO}
    requires hi == (if HI in writes then writes[HI] else r[HI]) && lo == if LO in writes then writes[LO] else r[LO]
    ensures Ends(r, mem, Perform(i, r, mem), 0, 0, hi, lo, next)
  {
    hide Act, PerformLoad, PerformStore, PerformReadThenStore, Complete;
    CompleteAt(r, writes, 0, 0, next);
  }

  lemma StopTraps(i: Instruction, r: Registers, mem: U.Memory, trap: Trap, bad: Word)
    requires Ready(r, mem) && Fields(i) && ActOn(i, r) == Stop(trap, bad)
    ensures TrapsTo(r, mem, Perform(i, r, mem), Trapped(trap), bad)
  {
    hide Act, PerformLoad, PerformStore, PerformReadThenStore, Complete;
  }

  // ---- jumps and branches ----

  lemma Far(next: Word, extra: Word)
    ensures Add(next, ShiftLeft(extra, 2)) == ToWord(next + 4 * Signed(extra))
  {
    Pow2Values();
    hide Pow2;
  }

  predicate IsBranch(op: Op) {
    op in {BEQ, BNE, BGTZ, BLEZ, BGEZ, BLTZ, BGEZAL, BLTZAL}
  }

  predicate Links(op: Op) {
    op in {BGEZAL, BLTZAL}
  }

  /** The signed relation of rs and rt, or of rs and 0, on which a branch is taken. */
  predicate Goes(op: Op, a: int, b: int) {
    match op
    case BEQ => a == b
    case BNE => a != b
    case BGTZ => a > 0
    case BLEZ => a <= 0
    case BLTZ => a < 0
    case BLTZAL => a < 0
    case _ => a >= 0
  }

  /** Two instructions on from PC, and the address a branch goes to from there. */
  function Onward(next: Word): Word {
    ToWord(next as int + 4)
  }

  function Away(next: Word, extra: Word): Word {
    ToWord(next as int + 4 * Signed(extra))
  }

  lemma BranchActs(i: Instruction, a: Word, b: Word, next: Word)
    requires IsBranch(i.op)
    ensures var c := if Links(i.op) && i.rs == 31 then Onward(next) else a;
      Jump(i, a, b, next) ==
      Finish(if Links(i.op) then map[31 := Onward(next)] else map[], if Goes(i.op, Signed(c), Signed(b)) then Away(next, i.extra) else Onward(next))
  {
    Far(next, i.extra);
    hide ShiftLeft;
  }

  /**
   * Branches: four times the signed immediate from the delay slot if and only if the signed relation
   * holds, else straight on.  Those that link do so before they look at rs.
   */
  lemma Branches(i: Instruction, r: Registers, mem: U.Memory)
    requires Ready(r, mem) && Fields(i) && IsBranch(i.op)
    ensures var a := if Links(i.op) && i.rs == 31 then Onward(r[NEXT_PC]) else r[i.rs];
      Ends(r, mem, Perform(i, r, mem), if Links(i.op) then 31 else 0, Onward(r[NEXT_PC]), r[HI], r[LO],
           if Goes(i.op, Signed(a), Signed(r[i.rt])) then Away(r[NEXT_PC], i.extra) else Onward(r[NEXT_PC]))
  {
    hide Perform, Jump, Goes, Ends;
    BranchActs(i, r[i.rs], r[i.rt], r[NEXT_PC]);
    var act := ActOn(i, r);
    if Links(i.op) {
      FinishEnds(i, r, mem, 31, Onward(r[NEXT_PC]), act.pcAfter);
    } else {
      FinishMoves(i, r, mem, act.pcAfter);
      EndsNowhere(r, mem, Perform(i, r, mem), 0, Onward(r[NEXT_PC]), r[HI], r[LO], act.pcAfter);
    }
  }

  /** What is written to register 0 makes no difference. */
  lemma EndsNowhere(r: Registers, mem: U.Memory, x: Result, v: Word, v': Word, hi: Word, lo: Word, next: Word)
    requires Ends(r, mem, x, 0, v, hi, lo, next)
    ensures Ends(r, mem, x, 0, v', hi, lo, next)
  {
  }

  /** The top four bits of the delay slot's successor, and the target in the 28 below. */
  function Region(next: Word, extra: Word): Word
    requires extra < 0x400_0000
  {
    Onward(next) / 0x1000_0000 * 0x1000_0000 + 4 * extra
  }

  lemma RegionBits(next: Word, extra: Word)
    requires extra < 0x400_0000
    ensures Or(And(Add(next, 4), 0xF000_0000), ShiftLeft(extra, 2)) == Region(next, extra)
  {
    var x := Add(next, 4);
    TimesFour(extra);
    hide And, Or, ShiftLeft;
    TopNibble(x);
    JoinNibble(x / 0x1000_0000, 4 * extra);
  }

  lemma TimesFour(extra: Word)
    requires extra < 0x400_0000
    ensures ShiftLeft(extra, 2) == 4 * extra
  {
    Pow2Values();
    hide Pow2;
  }

  /** J and JAL go to their 26-bit target in the current region, JR and JALR to a register; the two with AL link. */
  lemma JumpActs(i: Instruction, a: Word, b: Word, next: Word)
    requires i.op in {J, JAL} ==> i.extra < 0x400_0000
    ensures i.op == J ==> Jump(i, a, b, next) == Finish(map[], Region(next, i.extra))
    ensures i.op == JAL ==> Jump(i, a, b, next) == Finish(map[31 := Onward(next)], Region(next, i.extra))
    ensures i.op == JR ==> Jump(i, a, b, next) == Finish(map[], a)
    ensures i.op == JALR ==> Jump(i, a, b, next) == Finish(map[i.rd := Onward(next)], if i.rs == i.rd then Onward(next) else a)
  {
    hide And, Or, ShiftLeft, Region, Branch, Negative, Signed;
    if i.op in {J, JAL} {
      RegionBits(next, i.extra);
    }
  }

  /** The next instruction but one after a branch or jump, from the operands and the address after its delay slot begins. */
  ghost predicate Lands(i: Instruction, a: Word, b: Word, next: Word, pcAfter: Word) {
    if IsBranch(i.op) then
      var c := if Links(i.op) && i.rs == 31 then Onward(next) else a;
      pcAfter == if Goes(i.op, Signed(c), Signed(b)) then Away(next, i.extra) else Onward(next)
    else if i.op == JR then pcAfter == a
    else if i.op == JALR then pcAfter == if i.rs == i.rd then Onward(next) else a
    else i.extra < 0x400_0000 ==> pcAfter == Region(next, i.extra)
  }

  lemma JumpLands(i: Instruction, a: Word, b: Word, next: Word)
    requires KindOf(i.op) == Jumps && Jump(i, a, b, next).Finish?
    ensures Lands(i, a, b, next, Jump(i, a, b, next).pcAfter)
  {
    hide Jump, Goes, Region;
    if IsBranch(i.op) {
      BranchActs(i, a, b, next);
    } else if i.op in {JR, JALR} || i.extra < 0x400_0000 {
      JumpActs(i, a, b, next);
    }
  }

  /** Where a jump goes. */
  function Landing(i: Instruction, r: Registers): Word
    requires i.rs < 32 && (i.op in {J, JAL} ==> i.extra < 0x400_0000)
  {
    if i.op in {J, JAL} then Region(r[NEXT_PC], i.extra)
    else if i.op == JALR && i.rs == i.rd then Onward(r[NEXT_PC])
    else r[i.rs]
  }

  /** The register a jump leaves its return address in, or 0. */
  function LinkOf(i: Instruction): nat {
    if i.op == JAL then 31 else if i.op == JALR then i.rd else 0
  }

  lemma JumpsLand(i: Instruction, r: Registers, mem: U.Memory)
    requires Ready(r, mem) && Fields(i) && i.op in {J, JAL, JR, JALR} && (i.op in {J, JAL} ==> i.extra < 0x400_0000)
    ensures Ends(r, mem, Perform(i, r, mem), LinkOf(i), Onward(r[NEXT_PC]), r[HI], r[LO], Landing(i, r))
  {
    hide Perform, Jump, Ends, Region;
    JumpActs(i, r[i.rs], r[i.rt], r[NEXT_PC]);
    if i.op in {JAL, JALR} {
      FinishEnds(i, r, mem, LinkOf(i), Onward(r[NEXT_PC]), Landing(i, r));
    } else {
      FinishMoves(i, r, mem, Landing(i, r));
      EndsNowhere(r, mem, Perform(i, r, mem), 0, Onward(r[NEXT_PC]), r[HI], r[LO], Landing(i, r));
    }
  }

  // ---- arithmetic, logic and shifts ----

  predicate IsImmediate(op: Op) {
    op in {ADDI, ADDIU, ANDI, LUI, ORI, SLTI, SLTIU, XORI}
  }

  predicate IsCalculation(op: Op) {
    IsImmediate(op) || op in {ADD, ADDU, AND, NOR, OR, SLL, SLLV, SLT, SLTU, SRA, SRAV, SRL, SRLV, SUB, SUBU, XOR}
  }

  /** The low half of an immediate, which is what the logical instructions use. */
  function Half(extra: Word): Word {
    extra % 0x1_0000
  }

  function OneIf(b: bool): int {
    if b then 1 else 0
  }

  /** The number a calculation stands for; a and b are rs and rt.  OR has rs on both sides, SRL spreads the sign. */
  function Number(i: Instruction, a: Word, b: Word): int {
    var imm := i.extra;
    match i.op
    case ADD => Signed(a) + Signed(b)
    case ADDI => Signed(a) + Signed(imm)
    case SUB => Signed(a) - Signed(b)
    case ADDU => a as int + b as int
    case ADDIU => a as int + Signed(imm)
    case SUBU => a as int - b as int
    case AND => And(a, b)
    case ANDI => And(a, Half(imm))
    case OR => a
    case ORI => Or(a, Half(imm))
    case XOR => Xor(a, b)
    case XORI => Xor(a, Half(imm))
    case NOR => 0xFFFF_FFFF - Or(a, b)
    case LUI => Half(imm) * 0x1_0000
    case SLT => OneIf(Signed(a) < Signed(b))
    case SLTI => OneIf(Signed(a) < Signed(imm))
    case SLTU => OneIf(a < b)
    case SLTIU => OneIf(a < imm)
    case SLL => b * Pow2(imm)
    case SLLV => b * Pow2(a % 32)
    case SRA => Signed(b) / Pow2(imm)
    case SRL => Signed(b) / Pow2(imm)
    case _ => Signed(b) / Pow2(a % 32)
  }

  /** Only these three mind whether the number fits in a word. */
  predicate Overflowing(i: Instruction, a: Word, b: Word) {
    i.op in {ADD, ADDI, SUB} && !(-0x8000_0000 <= Number(i, a, b) < 0x8000_0000)
  }

  /** The step of a calculation, in terms of its number. */
  function Calculation(i: Instruction, a: Word, b: Word, after: Word): Action {
    if Overflowing(i, a, b) then Stop(Overflow, 0)
    else Finish(map[if IsImmediate(i.op) then i.rt else i.rd := ToWord(Number(i, a, b))], after)
  }

  lemma CalculationTarget(i: Instruction)
    requires IsCalculation(i.op)
    ensures Instructions.Target(i) == (if IsImmediate(i.op) then i.rt else i.rd) && KindOf(i.op) == Computes
  {
  }

  lemma CalculationOverflow(i: Instruction, a: Word, b: Word)
    ensures Overflows(i, a, b) == Overflowing(i, a, b)
  {
    SumOverflow(a, b);
    SumOverflow(a, i.extra);
    DifferenceOverflow(a, b);
    hide Signed, Negative, Add, Sub, ToWord;
  }

  lemma SumValue(i: Instruction, a: Word, b: Word)
    requires i.op in {ADD, ADDI, SUB, ADDU, ADDIU, SUBU}
    ensures ValueOf(i, a, b) == ToWord(Number(i, a, b))
  {
    SumIsSigned(a, b);
    SumIsSigned(a, i.extra);
    SumMixed(a, i.extra);
    assert Add(a, b) == ToWord(a as int + b as int) && Sub(a, b) == ToWord(a as int - b as int);
    hide Add, Sub, ToWord, Signed;
  }

  lemma SumMixed(a: Word, b: Word)
    ensures Add(a, b) == ToWord(a as int + Signed(b))
  {
  }

  lemma LogicValue(i: Instruction, a: Word, b: Word)
    requires i.op in {AND, ANDI, OR, ORI, XOR, XORI, NOR}
    ensures ValueOf(i, a, b) == ToWord(Number(i, a, b))
  {
    hide And, Or, Xor;
    LowMasks(i.extra);
    OrSameWord(a);
  }

  lemma OtherValue(i: Instruction, a: Word, b: Word)
    requires i.op in {LUI, SLT, SLTI, SLTU, SLTIU, SLL, SLLV, SRA, SRAV, SRL, SRLV}
    ensures ValueOf(i, a, b) == ToWord(Number(i, a, b))
  {
    Upper(i.extra);
    hide Pow2, Signed;
  }

  lemma CalculationActs(i: Instruction, a: Word, b: Word, after: Word)
    requires IsCalculation(i.op)
    ensures KindOf(i.op) == Computes && Compute(i, a, b, after) == Calculation(i, a, b, after)
  {
    hide ValueOf, Overflows, Number, Overflowing, Instructions.Target, KindOf;
    CalculationTarget(i);
    CalculationOverflow(i, a, b);
    if i.op in {ADD, ADDI, SUB, ADDU, ADDIU, SUBU} {
      SumValue(i, a, b);
    } else if i.op in {AND, ANDI, OR, ORI, XOR, XORI, NOR} {
      LogicValue(i, a, b);
    } else {
      OtherValue(i, a, b);
    }
  }

  lemma Upper(extra: Word)
    ensures ShiftLeft(extra, 16) == Half(extra) * 0x1_0000
  {
    Pow2Values();
    hide Pow2;
  }

  lemma Calculates(i: Instruction, r: Registers, mem: U.Memory)
    requires Ready(r, mem) && Fields(i) && IsCalculation(i.op)
    ensures var x, a, b := Perform(i, r, mem), r[i.rs], r[i.rt];
      if Overflowing(i, a, b) then TrapsTo(r, mem, x, Trapped(Overflow), 0)
      else Ends(r, mem, x, if IsImmediate(i.op) then i.rt else i.rd, ToWord(Number(i, a, b)), r[HI], r[LO], Onward(r[NEXT_PC]))
  {
    hide Perform, Compute, Ends, TrapsTo, Number, Overflowing;
    CalculationActs(i, r[i.rs], r[i.rt], Onward(r[NEXT_PC]));
    if Overflowing(i, r[i.rs], r[i.rt]) {
      StopTraps(i, r, mem, Overflow, 0);
    } else {
      FinishEnds(i, r, mem, if IsImmediate(i.op) then i.rt else i.rd, ToWord(Number(i, r[i.rs], r[i.rt])), Onward(r[NEXT_PC]));
    }
  }

  // ---- the double register ----

  /** MFHI, MFLO, MTHI and MTLO move a word. */
  lemma HiLoMoves(i: Instruction, r: Registers, mem: U.Memory)
    requires Ready(r, mem) && Fields(i) && i.op in {MFHI, MFLO, MTHI, MTLO}
    ensures Ends(r, mem, Perform(i, r, mem), if i.op in {MFHI, MFLO} then i.rd else 0, if i.op == MFHI then r[HI] else r[LO],
                 if i.op == MTHI then r[i.rs] else r[HI], if i.op == MTLO then r[i.rs] else r[LO], Onward(r[NEXT_PC]))
  {
    hide Perform, Ends;
    var act, next := ActOn(i, r), Onward(r[NEXT_PC]);
    if i.op == MFHI || i.op == MFLO {
      FinishEnds(i, r, mem, i.rd, if i.op == MFHI then r[HI] else r[LO], next);
    } else {
      var hi, lo := if i.op == MTHI then r[i.rs] else r[HI], if i.op == MTLO then r[i.rs] else r[LO];
      FinishHiLo(i, r, mem, act.writes, hi, lo, next);
      EndsNowhere(r, mem, Perform(i, r, mem), 0, r[LO], hi, lo, next);
    }
  }

  /** MULT and MULTU leave the 64-bit product of the signed and the unsigned operands. */
  lemma Multiplies(i: Instruction, r: Registers, mem: U.Memory) returns (hi: Word, lo: Word)
    requires Ready(r, mem) && Fields(i) && i.op in {MULT, MULTU}
    ensures Ends(r, mem, Perform(i, r, mem), 0, 0, hi, lo, Onward(r[NEXT_PC]))
    ensures i.op == MULT ==> 0x1_0000_0000 * hi + lo == Signed(r[i.rs]) * Signed(r[i.rt]) % 0x1_0000_0000_0000_0000
    ensures i.op == MULTU ==> 0x1_0000_0000 * hi + lo == r[i.rs] as int * r[i.rt] as int % 0x1_0000_0000_0000_0000
  {
    hide Perform, Ends;
    var p := Product(r[i.rs], r[i.rt], i.op == MULT);
    assert ActOn(i, r) == Finish(map[HI := High(p), LO := ToWord(p)], Onward(r[NEXT_PC]));
    hi, lo := High(p), ToWord(p);
    FinishHiLo(i, r, mem, map[HI := hi, LO := lo], hi, lo, Onward(r[NEXT_PC]));
    Halves(p);
  }

  lemma Halves(p: nat)
    requires p < 0x1_0000_0000_0000_0000
    ensures 0x1_0000_0000 * High(p) + ToWord(p) == p
  {
  }

  /** q and m are the quotient rounded toward zero and its remainder. */
  predicate Divides(x: int, y: int, q: int, m: int) {
    x == q * y + m && Magnitude(m) < Magnitude(y) && (m == 0 || (m < 0) == (x < 0))
  }

  lemma SignsOut(u: int, v: int)
    ensures (-u) * v == -(u * v) && u * (-v) == -(u * v)
  {
  }

  lemma QuotientDivides(x: int, y: int)
    requires y != 0
    ensures Divides(x, y, Quotient(x, y), Remainder(x, y))
  {
    var a: int, b: int := Magnitude(x), Magnitude(y);
    var q: int, m := a / b, a % b;
    SplitBack(a, b);
    SignsOut(q, b);
    var p := q * b;
    var q' := if (x < 0) == (y < 0) then q else -q;
    assert Quotient(x, y) == q';
    assert y * q' == if x < 0 then -p else p by {
      SignsOut(q, y);
      assert y * q' == q' * y;
    }
    assert Remainder(x, y) == if x < 0 then -m else m;
    assert x == q' * y + Remainder(x, y);
  }

  /** DIV and DIVU leave quotient and remainder of the signed and unsigned operands, or zeros for a divisor of 0. */
  lemma DividesOut(i: Instruction, r: Registers, mem: U.Memory) returns (q: int, m: int)
    requires Ready(r, mem) && Fields(i) && i.op in {DIV, DIVU}
    ensures Ends(r, mem, Perform(i, r, mem), 0, 0, ToWord(m), ToWord(q), Onward(r[NEXT_PC]))
    ensures r[i.rt] == 0 ==> q == 0 && m == 0
    ensures r[i.rt] != 0 && i.op == DIV ==> Divides(Signed(r[i.rs]), Signed(r[i.rt]), q, m)
    ensures r[i.rt] != 0 && i.op == DIVU ==> Divides(r[i.rs], r[i.rt], q, m)
  {
    hide Perform, Ends;
    var x, y := if i.op == DIV then Signed(r[i.rs]) else r[i.rs], if i.op == DIV then Signed(r[i.rt]) else r[i.rt];
    q, m := 0, 0;
    if r[i.rt] != 0 {
      QuotientDivides(x, y);
      q, m := Quotient(x, y), Remainder(x, y);
    }
    hide Quotient, Remainder, Divides;
    FinishHiLo(i, r, mem, map[LO := ToWord(q), HI := ToWord(m)], ToWord(m), ToWord(q), Onward(r[NEXT_PC]));
  }

  // ---- traps ----

  lemma Traps(i: Instruction, r: Registers, mem: U.Memory)
    requires Ready(r, mem) && Fields(i) && i.op in {SYSCALL, UNIMP, RES}
    ensures TrapsTo(r, mem, Perform(i, r, mem), Trapped(if i.op == SYSCALL then Syscall else Illegal), 0)
  {
    hide Perform, TrapsTo;
    StopTraps(i, r, mem, if i.op == SYSCALL then Syscall else Illegal, 0);
  }

  // ---- loads ----

  /** Base register plus signed displacement. */
  function Address(i: Instruction, r: Registers): Word
    requires i.rs < 32
  {
    ToWord(r[i.rs] as int + Signed(i.extra))
  }

  function Width(op: Op): nat {
    if op in {LB, LBU, SB} then 1 else if op in {LH, LHU, SH} then 2 else 4
  }

  predicate IsLoad(op: Op) {
    op in {LB, LBU, LH, LHU, LW, LWL, LWR}
  }

  /** The simulator gives up on these unless they are aligned. */
  predicate GivesUp(op: Op, addr: Word) {
    op in {LWL, LWR, SWL, SWR} && addr % 4 != 0
  }

  /** v is what a load of these bytes makes of its register, base being what was there. */
  predicate Makes(op: Op, bytes: seq<Byte>, addr: nat, base: Word, v: Word)
    requires addr + Width(op) <= |bytes|
  {
    var b := bytes[addr] as int;
    if op == LB then v == b + if b >= 0x80 then 0xFFFF_FF00 else 0
    else if op == LBU then v == b
    else if op == LH then var h := b + 0x100 * (bytes[addr + 1] as int); v == h + if h >= 0x8000 then 0xFFFF_0000 else 0
    else if op == LHU then v == b + 0x100 * (bytes[addr + 1] as int)
    else if op == LWR then v == base - base % 0x100 + bytes[addr + 3] as int
    else Width(op) == 4 && U.Stands(bytes, addr, 4, v)
  }

  /** The load ends with its value pending for register rt. */
  ghost predicate Pends(r: Registers, mem: U.Memory, x: Result, rt: nat) {
    && x.outcome == Completed && x.mem == mem
    && General(r, x.regs, 0, 0) && Moves(r, x.regs, Onward(r[NEXT_PC]))
    && x.regs[HI] == r[HI] && x.regs[LO] == r[LO] && x.regs[LOAD_REG] == rt
  }

  /** A fault: the registers of a trap, the page valid, and nothing else changed. */
  ghost predicate FaultsAt(r: Registers, mem: U.Memory, x: Result, addr: Word)
    requires 0 < mem.pageSize && addr / mem.pageSize < |mem.valid|
  {
    U.MadeValid(mem, addr, x.mem) && TrapsTo(r, x.mem, x, Faulted, addr)
  }

  lemma LoadEnds(i: Instruction, r: Registers, mem: U.Memory, addr: Word, size: nat, how: Extend)
    requires Ready(r, mem) && U.WellFormed(mem) && Fields(i) && U.Size(size)
    ensures var x, a := PerformLoad(i, addr, size, how, r, mem), U.Read(mem, addr, size).1;
      && (a.Value? ==> Pends(r, mem, x, i.rt) && x.regs[LOAD_VALUE] == Extended(how, a.word, Base(r, i.rt)))
      && (a == U.Trap(U.AddressError) ==> TrapsTo(r, mem, x, Trapped(AddressError), addr))
      && (a == U.Faulted ==> addr / mem.pageSize < |mem.valid| && FaultsAt(r, mem, x, addr))
  {
    U.ReadExact(mem, addr, size);
    hide U.Read, Complete, Extended, Base, U.Stands;
    var a := U.Read(mem, addr, size).1;
    if a.Value? {
      CompleteAt(r, map[], i.rt, Extended(how, a.word, Base(r, i.rt)), Add(r[NEXT_PC], 4));
    }
  }

  /** How each load reaches its register, and from how many bytes. */
  function Way(op: Op): Extend {
    match op
    case LB => ByteSigned
    case LBU => ByteUnsigned
    case LH => HalfSigned
    case LHU => HalfUnsigned
    case LWR => MergeRight
    case _ => Whole
  }

  lemma WayMakes(op: Op, bytes: seq<Byte>, addr: nat, base: Word, word: Word)
    requires IsLoad(op) && addr + Width(op) <= |bytes| && U.Stands(bytes, addr, Width(op), word)
    ensures Makes(op, bytes, addr, base, Extended(Way(op), word, base))
  {
  }

  function LoadAct(op: Op, addr: Word): Action {
    if GivesUp(op, addr) then Abort else if addr % Width(op) != 0 then Stop(AddressError, addr) else LoadFrom(addr, Width(op), Way(op))
  }

  lemma LoadActs(i: Instruction, a: Word, b: Word)
    requires IsLoad(i.op)
    ensures Access(i, a, b) == LoadAct(i.op, ToWord(a as int + Signed(i.extra)))
  {
    SumMixed(a, i.extra);
    hide Add, Signed, ToWord;
  }

  lemma BaseArrives(r: Registers, mem: U.Memory, x: Result, rt: nat)
    requires Pends(r, mem, x, rt) && rt < 32
    ensures rt != 0 ==> Base(r, rt) == x.regs[rt]
  {
  }

  /**
   * Loads: the bytes at the address, extended as the opcode says, are left pending for rt if and only if
   * the address is aligned, inside the space and on a valid page; else the exception or the fault.
   */
  lemma Loads(i: Instruction, r: Registers, mem: U.Memory)
    requires Ready(r, mem) && U.WellFormed(mem) && Fields(i) && IsLoad(i.op)
    ensures var x, addr, size := Perform(i, r, mem), Address(i, r), Width(i.op);
      if GivesUp(i.op, addr) then x.outcome == Aborted && x.mem == mem
      else if !U.Proper(mem, addr, size) then TrapsTo(r, mem, x, Trapped(AddressError), addr)
      else if U.PageIs(mem.valid, addr, mem.pageSize, false) then FaultsAt(r, mem, x, addr)
      else Pends(r, mem, x, i.rt) && (i.rt != 0 ==> Makes(i.op, mem.bytes, addr, x.regs[i.rt], x.regs[LOAD_VALUE]))
  {
    hide Jump, Access, UseHiLo, Compute, U.Read, PerformLoad, PerformStore, PerformReadThenStore, Extended, Base, Makes, TrapsTo, Pends, FaultsAt, Complete, Raise;
    var addr, size := Address(i, r), Width(i.op);
    LoadActs(i, r[i.rs], r[i.rt]);
    if addr % size != 0 {
      if !GivesUp(i.op, addr) {
        StopTraps(i, r, mem, AddressError, addr);
      }
    } else {
      U.ReadExact(mem, addr, size);
      LoadEnds(i, r, mem, addr, size, Way(i.op));
      var a := U.Read(mem, addr, size).1;
      if a.Value? {
        WayMakes(i.op, mem.bytes, addr, Base(r, i.rt), a.word);
        assert i.rt != 0 ==> Base(r, i.rt) == Perform(i, r, mem).regs[i.rt] by {
          BaseArrives(r, mem, Perform(i, r, mem), i.rt);
        }
      }
    }
  }

  // ---- stores ----

  predicate IsStore(op: Op) {
    op in {SB, SH, SW, SWL, SWR}
  }

  /** Byte k after a store: SWR changes only the highest of its word. */
  function ByteLeft(op: Op, before: seq<Byte>, addr: nat, value: Word, k: nat): int
    requires k < |before|
  {
    if op == SWR then (if k == addr + 3 then value % 0x100 else before[k])
    else if addr <= k < addr + Width(op) then U.ByteOf(value, k - addr)
    else before[k]
  }

  ghost predicate Leaves(op: Op, before: seq<Byte>, addr: nat, value: Word, after: seq<Byte>) {
    |after| == |before| && forall k :: 0 <= k < |before| ==> after[k] == ByteLeft(op, before, addr, value, k)
  }

  ghost predicate Stores(r: Registers, mem: U.Memory, x: Result, op: Op, addr: Word, value: Word) {
    && x.outcome == Completed && x.mem == mem.(bytes := x.mem.bytes) && Leaves(op, mem.bytes, addr, value, x.mem.bytes)
    && General(r, x.regs, 0, 0) && Moves(r, x.regs, Onward(r[NEXT_PC]))
    && x.regs[HI] == r[HI] && x.regs[LO] == r[LO] && x.regs[LOAD_REG] == 0
  }

  /** The writing end of a store: the value written is word, the register's is value. */
  lemma StoreEnds(r: Registers, mem: U.Memory, op: Op, addr: Word, word: Word, value: Word)
    requires Ready(r, mem) && U.WellFormed(mem) && IsStore(op)
    requires op != SWR ==> word == value
    requires op == SWR && U.Proper(mem, addr, 4) ==>
      U.ByteOf(word, 3) == value % 0x100 && forall k :: 0 <= k < 3 ==> U.ByteOf(word, k) == mem.bytes[addr + k]
    ensures var x, a := PerformStore(addr, Width(op), word, r, mem), U.Write(mem, addr, Width(op), word).1;
      && (a == U.Stored ==> Stores(r, mem, x, op, addr, value))
      && (a.Trap? ==> TrapsTo(r, mem, x, Trapped(if a.exception == U.ReadOnlyError then ReadOnlyError else AddressError), addr))
      && (a == U.Faulted ==> addr / mem.pageSize < |mem.valid| && FaultsAt(r, mem, x, addr))
  {
    U.WriteExact(mem, addr, Width(op), word);
    CompleteAt(r, map[], 0, 0, Add(r[NEXT_PC], 4));
    hide U.Write, Complete, U.ByteOf;
  }

  lemma DigitsBack(b0: nat, b1: nat, b2: nat, b3: nat)
    requires b0 < 0x100 && b1 < 0x100 && b2 < 0x100 && b3 < 0x100
    ensures var w := b0 + 0x100 * b1 + 0x1_0000 * b2 + 0x100_0000 * b3;
      U.ByteOf(w, 0) == b0 && U.ByteOf(w, 1) == b1 && U.ByteOf(w, 2) == b2 && U.ByteOf(w, 3) == b3 && w % 0x100_0000 == b0 + 0x100 * b1 + 0x1_0000 * b2
  {
    var h := b2 + 0x100 * b3;
    var w := b0 + 0x100 * b1 + 0x1_0000 * h;
    assert w / 0x1_0000 == h && w / 0x100 == b1 + 0x100 * h;
  }

  lemma MergedBytes(bytes: seq<Byte>, addr: nat, word: Word, value: Word)
    requires addr + 4 <= |bytes| && U.Stands(bytes, addr, 4, word)
    ensures var w := Merged(true, word, value);
      U.ByteOf(w, 3) == value % 0x100 && forall k :: 0 <= k < 3 ==> U.ByteOf(w, k) == bytes[addr + k]
  {
    DigitsBack(bytes[addr], bytes[addr + 1], bytes[addr + 2], bytes[addr + 3]);
    DigitsBack(bytes[addr], bytes[addr + 1], bytes[addr + 2], value % 0x100);
    hide U.ByteOf;
  }

  function StoreAct(op: Op, addr: Word, value: Word): Action {
    if op in {SWL, SWR} then (if GivesUp(op, addr) then Abort else ReadThenStore(addr, value, op == SWR))
    else StoreTo(addr, Width(op), value)
  }

  lemma StoreActs(i: Instruction, a: Word, b: Word)
    requires IsStore(i.op)
    ensures Access(i, a, b) == StoreAct(i.op, ToWord(a as int + Signed(i.extra)), b)
  {
    SumMixed(a, i.extra);
    hide Add, Signed, ToWord;
  }

  /** A store of a word that is read first, at an aligned address. */
  lemma SavesMerged(i: Instruction, r: Registers, mem: U.Memory, addr: Word)
    requires Ready(r, mem) && U.WellFormed(mem) && Fields(i) && i.op in {SWL, SWR} && addr % 4 == 0
    ensures SavedAt(r, mem, PerformReadThenStore(addr, r[i.rt], i.op == SWR, r, mem), i.op, addr, r[i.rt])
  {
    U.ReadExact(mem, addr, 4);
    var (m, a) := U.Read(mem, addr, 4);
    hide U.Read, PerformStore, TrapsTo, Stores, General;
    if a.Value? {
      if i.op == SWR {
        MergedBytes(mem.bytes, addr, a.word, r[i.rt]);
      }
      var word := Merged(i.op == SWR, a.word, r[i.rt]);
      StoreEnds(r, mem, i.op, addr, word, r[i.rt]);
      U.WriteExact(mem, addr, 4, word);
    } else {
      RefusedTraps(r, m, a, addr);
    }
  }

  lemma RefusedTraps(r: Registers, mem: U.Memory, a: U.Answer, addr: Word)
    requires Sane(r)
    ensures TrapsTo(r, mem, Refused(r, mem, a, addr), if a.Trap? then Trapped(TrapOf(a.exception)) else Faulted, addr)
  {
  }

  /** A store in full: done, or the exception or fault that is due. */
  ghost predicate SavedAt(r: Registers, mem: U.Memory, x: Result, op: Op, addr: Word, value: Word)
    requires U.WellFormed(mem)
  {
    if !U.Proper(mem, addr, Width(op)) then TrapsTo(r, mem, x, Trapped(AddressError), addr)
    else if U.PageIs(mem.valid, addr, mem.pageSize, false) then FaultsAt(r, mem, x, addr)
    else if U.PageIs(mem.readOnly, addr, mem.pageSize, true) then TrapsTo(r, mem, x, Trapped(ReadOnlyError), addr)
    else Stores(r, mem, x, op, addr, value)
  }

  lemma SavesPlain(r: Registers, mem: U.Memory, op: Op, addr: Word, value: Word)
    requires Ready(r, mem) && U.WellFormed(mem) && op in {SB, SH, SW}
    ensures SavedAt(r, mem, PerformStore(addr, Width(op), value, r, mem), op, addr, value)
  {
    hide U.Write, PerformStore, TrapsTo, Stores, General, U.ByteOf;
    StoreEnds(r, mem, op, addr, value, value);
    U.WriteExact(mem, addr, Width(op), value);
  }

  /**
   * Stores: the low bytes of rt go to the address if and only if it is aligned, inside the space, on a
   * valid page and not on a read-only one; else the exception or the fault.
   */
  lemma Saves(i: Instruction, r: Registers, mem: U.Memory)
    requires Ready(r, mem) && U.WellFormed(mem) && Fields(i) && IsStore(i.op)
    ensures var x, addr := Perform(i, r, mem), Address(i, r);
      if GivesUp(i.op, addr) then x.outcome == Aborted && x.mem == mem else SavedAt(r, mem, x, i.op, addr, r[i.rt])
  {
    hide Jump, Access, UseHiLo, Compute, PerformLoad, PerformStore, PerformReadThenStore, SavedAt, Complete, Raise, Ready;
    var addr := Address(i, r);
    StoreActs(i, r[i.rs], r[i.rt]);
    if i.op in {SWL, SWR} {
      if !GivesUp(i.op, addr) {
        SavesMerged(i, r, mem, addr);
      }
    } else {
      SavesPlain(r, mem, i.op, addr, r[i.rt]);
    }
  }

  // ---- fetching and decoding ----

  /** The instruction carried out is the word at PC, if PC is aligned, inside and on a valid page; else exception or fault. */
  lemma Fetches(r: Registers, mem: U.Memory) returns (w: Word)
    requires Ready(r, mem) && U.WellFormed(mem)
    ensures !U.Proper(mem, r[PC], 4) ==> TrapsTo(r, mem, Attempt(r, mem), Trapped(AddressError), r[PC])
    ensures U.Proper(mem, r[PC], 4) && U.PageIs(mem.valid, r[PC], mem.pageSize, false) ==> FaultsAt(r, mem, Attempt(r, mem), r[PC])
    ensures U.Proper(mem, r[PC], 4) && U.PageIs(mem.valid, r[PC], mem.pageSize, true) ==>
      U.Stands(mem.bytes, r[PC], 4, w) && Attempt(r, mem) == Perform(Decode(w), r, mem)
  {
    hide U.Read, Perform, Decode, TrapsTo, U.Stands;
    U.ReadExact(mem, r[PC], 4);
    var (m, a) := U.Read(mem, r[PC], 4);
    w := if a.Value? then a.word else 0;
    if !a.Value? {
      RefusedTraps(r, m, a, r[PC]);
    }
  }

  /** The six-bit code of an instruction. */
  function Major(op: Op): nat {
    match op
    case BLTZ => 1 case BGEZ => 1 case BLTZAL => 1 case BGEZAL => 1
    case J => 2 case JAL => 3 case BEQ => 4 case BNE => 5 case BLEZ => 6 case BGTZ => 7
    case ADDI => 8 case ADDIU => 9 case SLTI => 10 case SLTIU => 11 case ANDI => 12 case ORI => 13 case XORI => 14 case LUI => 15
    case LB => 0x20 case LH => 0x21 case LWL => 0x22 case LW => 0x23 case LBU => 0x24 case LHU => 0x25 case LWR => 0x26
    case SB => 0x28 case SH => 0x29 case SWL => 0x2A case SW => 0x2B case SWR => 0x2E
    case _ => 0
  }

  /** The function code of those whose code is 0, and what stands for rt in those whose code is 1. */
  function Minor(op: Op): nat {
    match op
    case SLL => 0 case SRL => 2 case SRA => 3 case SLLV => 4 case SRLV => 6 case SRAV => 7 case JR => 8 case JALR => 9 case SYSCALL => 12
    case MFHI => 16 case MTHI => 17 case MFLO => 18 case MTLO => 19 case MULT => 24 case MULTU => 25 case DIV => 26 case DIVU => 27
    case ADD => 32 case ADDU => 33 case SUB => 34 case SUBU => 35 case AND => 36 case OR => 37 case XOR => 38 case NOR => 39 case SLT => 42 case SLTU => 43
    case BLTZ => 0 case BGEZ => 1 case BLTZAL => 16 case BGEZAL => 17
    case _ => 0
  }

  predicate HasCode(op: Op) {
    op != UNIMP && op != RES
  }

  lemma SpecialGives(op: Op)
    requires HasCode(op) && Major(op) == 0
    ensures SpecialOp(Minor(op)) == op
  {
  }

  lemma SpecialTaken(funct: nat)
    ensures var op := SpecialOp(funct); HasCode(op) ==> Major(op) == 0 && Minor(op) == funct
  {
  }

  lemma BranchGives(op: Op)
    requires Major(op) == 1
    ensures BranchOp(Minor(op)) == op
  {
  }

  lemma BranchTaken(rt: nat)
    ensures var op := BranchOp(rt); HasCode(op) ==> Major(op) == 1 && Minor(op) == rt
  {
  }

  /** The code of every instruction is its own. */
  lemma CodeGives(op: Op, funct: nat, rt: nat)
    requires HasCode(op) && (Major(op) == 0 ==> funct == Minor(op)) && (Major(op) == 1 ==> rt == Minor(op))
    ensures OpOf(Major(op), funct, rt) == op
  {
    hide SpecialOp, BranchOp, Minor;
    if Major(op) == 0 {
      SpecialGives(op);
    } else if Major(op) == 1 {
      BranchGives(op);
    }
  }

  lemma CodeTaken(code: nat, funct: nat, rt: nat)
    ensures var op := OpOf(code, funct, rt);
      HasCode(op) ==> Major(op) == code && (code == 0 ==> Minor(op) == funct) && (code == 1 ==> Minor(op) == rt)
  {
    hide SpecialOp, BranchOp, Minor;
    SpecialTaken(funct);
    BranchTaken(rt);
  }

  /** A word put together from code and fields decodes to that instruction; rt of the branches on zero is their code. */
  lemma Decodes(op: Op, rs: nat, rt: nat, rd: nat, low: nat)
    requires HasCode(op) && rs < 32 && rt < 32 && rd < 32 && (Major(op) == 1 ==> rt == Minor(op))
    ensures Major(op) == 0 && low < 32 ==>
      0 <= RegisterWord(rs, rt, rd, low, Minor(op)) < 0x1_0000_0000 &&
      Decode(RegisterWord(rs, rt, rd, low, Minor(op))) == Instruction(op, rs, rt, rd, low)
    ensures Major(op) in {2, 3} && low < 0x400_0000 ==>
      var i := Decode(Major(op) * 0x400_0000 + low); i.op == op && i.extra == low
    ensures Major(op) !in {0, 2, 3} && low < 0x1_0000 ==>
      0 <= ImmediateWord(Major(op), rs, rt, low) < 0x1_0000_0000 &&
      var i := Decode(ImmediateWord(Major(op), rs, rt, low));
      i.op == op && i.rs == rs && i.rt == rt && Signed(i.extra) == low - if low < 0x8000 then 0 else 0x1_0000
  {
    hide RegisterWord, ImmediateWord, Decode, OpOf;
    MinorSmall(op);
    if Major(op) == 0 {
      if low < 32 {
        DecodeRegister(rs, rt, rd, low, Minor(op));
        CodeGives(op, Minor(op), rt);
        SpecialIsCodeZero(Minor(op), rt);
      }
    } else if Major(op) in {2, 3} {
      if low < 0x400_0000 {
        DecodeJump(Major(op), low);
      }
    } else if low < 0x1_0000 {
      DecodeImmediate(Major(op), rs, rt, low);
      CodeGives(op, low % 64, rt);
    }
  }

  lemma MinorSmall(op: Op)
    ensures Minor(op) < 64 && Major(op) < 64
    ensures Major(op) == 2 <==> op == J
    ensures Major(op) == 3 <==> op == JAL
  {
  }

  lemma SpecialIsCodeZero(funct: nat, rt: nat)
    ensures OpOf(0, funct, rt) == SpecialOp(funct)
  {
  }

  /** Every opcode is in one of the classes above. */
  lemma EveryOpcode(op: Op)
    ensures IsBranch(op) || op in {J, JAL, JR, JALR} || IsCalculation(op) || op in {MFHI, MFLO, MTHI, MTLO, MULT, MULTU, DIV, DIVU} ||
            IsLoad(op) || IsStore(op) || op in {SYSCALL, UNIMP, RES}
  {
  }

  /** An interrupt that fires between instructions applies the pending load, and changes nothing else; no interrupt, nothing. */
  lemma StrikeApplies(r: Registers, k: nat)
    requires Sane(r) && k < NUM_REGS
    ensures Struck(r, false) == r
    ensures Struck(r, true)[k] == if k == LOAD_REG || k == LOAD_VALUE || k == 0 then 0 else if k == r[LOAD_REG] then r[LOAD_VALUE] else r[k]
  {
  }
}
