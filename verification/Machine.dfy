/**
 * The simulated processor at work on paged memory: an object that updates its register file in place
 * and reaches memory through the VMManager, for the address space of the program that runs.  What it
 * does is stated of the flat memory that program sees.
 */
module Machine {
  import opened Arithmetic
  import opened Multiply
  import opened Bits
  import opened Instructions
  import opened Processor
  import opened Restarts
  import Architecture
  import BitMaps
  import VmManager
  import PagedMachine
  import S = PagedSystem
  import U = UserMemory

  type Flat = map<nat, U.Memory>

  /** The registers, the outcome and the memory of space sp are those of x; other spaces are as they were. */
  ghost predicate Did(before: Flat, after: Flat, sp: nat, regs: seq<Word>, outcome: Outcome, x: Result) {
    regs == x.regs && outcome == x.outcome && after == before[sp := x.mem]
  }

  predicate IsLoad(op: Op) {
    op == LB || op == LBU || op == LH || op == LHU || op == LW || op == LWL || op == LWR
  }

  lemma JumpIsFinish(i: Instruction, a: Word, b: Word, next: Word)
    requires KindOf(i.op) == Jumps
    ensures Jump(i, a, b, next).Finish?
  {
  }

  class Machine {
    const registers: array<Word>
    const vm: VmManager.VMManager
    var space: nat // the address space of the running program

    /** What the memory manager is made of. */
    ghost function Store(): set<object> {
      {vm, vm.mainMemory, vm.mainMemory.bytes, vm.swapFile, vm.swapFile.bytes, vm.diskBuffer, vm.activePageMap, vm.activePages,
       vm.memMgr, vm.memMgr.words, vm.swapMap, vm.swapMap.words, vm.policy, vm.policy.queue}
    }

    ghost predicate Wired()
      reads this, registers, Store()
    {
      registers.Length == NUM_REGS && registers !in Store() && this !in Store() && PagedMachine.Stable(vm) && space in S.Seen(vm)
    }

    ghost function Memory(): U.Memory
      requires Wired()
      reads this, registers, Store()
    {
      S.Seen(vm)[space]
    }

    ghost predicate Valid()
      reads this, registers, Store()
    {
      Wired() && Ready(registers[..], Memory())
    }

    /** A machine as InitRegisters leaves it, but for the program counters and the stack. */
    constructor (vm: VmManager.VMManager, space: nat)
      requires PagedMachine.Stable(vm) && space in S.Seen(vm)
      ensures Valid() && fresh(registers) && this.vm == vm && this.space == space && registers[..] == seq(NUM_REGS, _ => 0)
    {
      hide PagedMachine.Stable, S.Seen, U.Usable, VmManager.VMManager.Valid;
      S.SeenUsable(vm, space);
      registers := new Word[NUM_REGS](_ => 0);
      this.vm, this.space := vm, space;
      new;
      assert registers !in Store() && this !in Store();
      hide Store;
      assert registers[..] == seq(NUM_REGS, _ => 0);
    }

    /** The loop of RestoreUserState. */
    method WriteRegisters(values: Registers)
      requires registers.Length == NUM_REGS
      modifies registers
      ensures registers[..] == values
    {
      for i := 0 to NUM_REGS
        invariant forall k :: 0 <= k < i ==> registers[k] == values[k]
      {
        registers[i] := values[i];
      }
    }

    method ApplyDelayedLoad(nextReg: nat, nextValue: Word)
      requires registers.Length == NUM_REGS && registers[LOAD_REG] < 32 && nextReg < 32
      modifies registers
      ensures registers[..] == DelayedLoad(old(registers[..]), nextReg, nextValue)
    {
      registers[registers[LOAD_REG]] := registers[LOAD_VALUE];
      registers[LOAD_REG] := nextReg;
      registers[LOAD_VALUE] := nextValue;
      registers[0] := 0;
    }

    method RaiseException(badVAddr: Word)
      requires registers.Length == NUM_REGS && registers[LOAD_REG] < 32
      modifies registers
      ensures registers[..] == Raise(old(registers[..]), badVAddr)
    {
      registers[BAD_VADDR] := badVAddr;
      ApplyDelayedLoad(0, 0);
    }

    /** An access that fails raises its exception; a page fault is then handled. */
    method ReadMem(addr: Word, size: nat) returns (a: U.Answer)
      requires Valid() && U.Size(size)
      modifies registers, Store()
      ensures Wired() && a == U.Read(old(Memory()), addr, size).1
      ensures S.Seen(vm) == old(S.Seen(vm))[space := U.Read(old(Memory()), addr, size).0]
      ensures registers[..] == if a.Value? then old(registers[..]) else Raise(old(registers[..]), addr)
    {
      hide PagedMachine.Stable, S.Seen, U.Read;
      a := S.ReadFlat(vm, space, addr, size);
      if !a.Value? {
        RaiseException(addr);
      }
    }

    method WriteMem(addr: Word, size: nat, value: Word) returns (a: U.Answer)
      requires Valid() && U.Size(size)
      modifies registers, Store()
      ensures Wired() && a == U.Write(old(Memory()), addr, size, value).1
      ensures S.Seen(vm) == old(S.Seen(vm))[space := U.Write(old(Memory()), addr, size, value).0]
      ensures registers[..] == if a == U.Stored then old(registers[..]) else Raise(old(registers[..]), addr)
    {
      hide PagedMachine.Stable, S.Seen, U.Write;
      a := S.WriteFlat(vm, space, addr, size, value);
      if a != U.Stored {
        RaiseException(addr);
      }
    }

    /** The tail of OneInstruction. */
    method Advance(nextReg: nat, nextValue: Word, pcAfter: Word, ghost before: Registers, ghost writes: map<nat, Word>)
      requires registers.Length == NUM_REGS && registers[LOAD_REG] < 32 && nextReg < 32
      requires before[LOAD_REG] < 32 && LOAD_REG !in writes && registers[..] == Write(before, writes)
      modifies registers
      ensures registers[..] == Complete(before, writes, nextReg, nextValue, pcAfter)
    {
      ApplyDelayedLoad(nextReg, nextValue);
      registers[PREV_PC] := registers[PC];
      registers[PC] := registers[NEXT_PC];
      registers[NEXT_PC] := pcAfter;
    }

    /** Loads: the value is left pending. */
    method Load(i: Instruction, addr: Word, size: nat, how: Extend) returns (outcome: Outcome)
      requires Valid() && U.Size(size) && i.rt < 32
      modifies registers, Store()
      ensures Wired() && Did(old(S.Seen(vm)), S.Seen(vm), space, registers[..], outcome, PerformLoad(i, addr, size, how, old(registers[..]), old(Memory())))
    {
      hide PagedMachine.Stable, S.Seen, U.Read, Complete, Raise;
      ghost var before: Registers := registers[..];
      var a := ReadMem(addr, size);
      if !a.Value? {
        return if a.Trap? then Trapped(TrapOf(a.exception)) else Faulted;
      }
      var base := if registers[LOAD_REG] == i.rt then registers[LOAD_VALUE] else registers[i.rt];
      assert Write(before, map[]) == before;
      var value := Widen(how, a.word, base);
      Advance(i.rt, value, Add(registers[NEXT_PC], 4), before, map[]);
      outcome := Completed;
    }

    method Save(addr: Word, size: nat, value: Word) returns (outcome: Outcome)
      requires Valid() && U.Size(size)
      modifies registers, Store()
      ensures Wired() && Did(old(S.Seen(vm)), S.Seen(vm), space, registers[..], outcome, PerformStore(addr, size, value, old(registers[..]), old(Memory())))
    {
      hide PagedMachine.Stable, S.Seen, U.Write, Complete, Raise;
      ghost var before: Registers := registers[..];
      var a := WriteMem(addr, size, value);
      if a != U.Stored {
        return if a.Trap? then Trapped(TrapOf(a.exception)) else Faulted;
      }
      assert Write(before, map[]) == before;
      Advance(0, 0, Add(registers[NEXT_PC], 4), before, map[]);
      outcome := Completed;
    }

    /** Branches and jumps: a link register is written before rs is read. */
    method TakeJump(i: Instruction) returns (pcAfter: Word)
      requires registers.Length == NUM_REGS && i.rs < 32 && i.rt < 32 && i.rd < 32 && KindOf(i.op) == Jumps
      modifies registers
      ensures var act := Jump(i, old(registers[i.rs]), old(registers[i.rt]), old(registers[NEXT_PC]));
        act.Finish? && registers[..] == Write(old(registers[..]), act.writes) && pcAfter == act.pcAfter
      ensures Architecture.Lands(i, old(registers[i.rs]), old(registers[i.rt]), old(registers[NEXT_PC]), pcAfter)
    {
      hide And, Or, Add, ShiftLeft, Signed, Architecture.Lands;
      JumpIsFinish(i, registers[i.rs], registers[i.rt], registers[NEXT_PC]);
      Architecture.JumpLands(i, registers[i.rs], registers[i.rt], registers[NEXT_PC]);
      var next := registers[NEXT_PC];
      pcAfter := Add(next, 4);
      match i.op
      case BEQ =>
        if registers[i.rs] == registers[i.rt] {
          pcAfter := Add(next, ShiftLeft(i.extra, 2));
        }
      case BNE =>
        if registers[i.rs] != registers[i.rt] {
          pcAfter := Add(next, ShiftLeft(i.extra, 2));
        }
      case BGEZAL =>
        registers[R31] := Add(next, 4);
        pcAfter := UnlessNegative(i, registers[i.rs], next);
      case BGEZ => pcAfter := UnlessNegative(i, registers[i.rs], next);
      case BLTZAL =>
        registers[R31] := Add(next, 4);
        pcAfter := IfNegative(i, registers[i.rs], next);
      case BLTZ => pcAfter := IfNegative(i, registers[i.rs], next);
      case BGTZ =>
        if Signed(registers[i.rs]) > 0 {
          pcAfter := Add(next, ShiftLeft(i.extra, 2));
        }
      case BLEZ =>
        if Signed(registers[i.rs]) <= 0 {
          pcAfter := Add(next, ShiftLeft(i.extra, 2));
        }
      case JAL =>
        registers[R31] := Add(next, 4);
        pcAfter := Or(And(pcAfter, 0xF000_0000), ShiftLeft(i.extra, 2));
      case J => pcAfter := Or(And(pcAfter, 0xF000_0000), ShiftLeft(i.extra, 2));
      case JALR =>
        registers[i.rd] := Add(next, 4);
        pcAfter := registers[i.rs];
      case JR => pcAfter := registers[i.rs];
    }

    /** Instructions on HI and LO; the multiplications run the shift-and-add loop. */
    method ApplyHiLo(i: Instruction)
      requires registers.Length == NUM_REGS && i.rs < 32 && i.rt < 32 && i.rd < 32 && KindOf(i.op) == UsesHiLo
      modifies registers
      ensures var act := UseHiLo(i, old(registers[i.rs]), old(registers[i.rt]), old(registers[HI]), old(registers[LO]), 0);
        act.Finish? && registers[..] == Write(old(registers[..]), act.writes)
    {
      hide Quotient, Remainder, Product, ToWord, High, Pair;
      var a, b := registers[i.rs], registers[i.rt];
      match i.op
      case DIV =>
        if b == 0 {
          registers[LO], registers[HI] := 0, 0;
        } else {
          registers[LO], registers[HI] := ToWord(Quotient(Signed(a), Signed(b))), ToWord(Remainder(Signed(a), Signed(b)));
        }
      case DIVU =>
        if b == 0 {
          registers[LO], registers[HI] := 0, 0;
        } else {
          registers[LO], registers[HI] := ToWord(Quotient(a, b)), ToWord(Remainder(a, b));
        }
      case MFHI => registers[i.rd] := registers[HI];
      case MFLO => registers[i.rd] := registers[LO];
      case MTHI => registers[HI] := a;
      case MTLO => registers[LO] := a;
      case MULT =>
        var hi, lo := Mult(a, b, true);
        SplitPair(hi, lo);
        registers[HI], registers[LO] := hi, lo;
      case MULTU =>
        var hi, lo := Mult(a, b, false);
        SplitPair(hi, lo);
        registers[HI], registers[LO] := hi, lo;
    }

    /** SWL and SWR: the word in memory is read, merged with the register and written back. */
    method SaveMerged(addr: Word, register: Word, right: bool) returns (outcome: Outcome)
      requires Valid()
      modifies registers, Store()
      ensures Wired() && Did(old(S.Seen(vm)), S.Seen(vm), space, registers[..], outcome, PerformReadThenStore(addr, register, right, old(registers[..]), old(Memory())))
    {
      hide PagedMachine.Stable, S.Seen, U.Read, PerformStore, Raise, Merged;
      ghost var mem, seen := Memory(), S.Seen(vm);
      var a := ReadMem(addr, 4);
      if a.Value? {
        ReadKeeps(mem, addr, 4);
        assert S.Seen(vm) == seen;
        var value := Merge(right, a.word, register);
        outcome := Save(addr, 4, value);
      } else {
        outcome := if a.Trap? then Trapped(TrapOf(a.exception)) else Faulted;
      }
    }

    /** A load that raises an exception itself if its address is not aligned. */
    method LoadAligned(i: Instruction, addr: Word, size: nat, how: Extend, mask: Word) returns (outcome: Outcome)
      requires Valid() && i.rt < 32 && ((size == 2 && mask == 1) || (size == 4 && mask == 3))
      modifies registers, Store()
      ensures Wired()
      ensures var r, mem := old(registers[..]), old(Memory());
        Did(old(S.Seen(vm)), S.Seen(vm), space, registers[..], outcome,
            if addr % size != 0 then Result(Raise(r, addr), mem, Trapped(AddressError)) else PerformLoad(i, addr, size, how, r, mem))
    {
      hide PagedMachine.Stable, S.Seen, PerformLoad, Raise, And;
      LowMasks(addr);
      if And(addr, mask) != 0 {
        RaiseException(addr);
        outcome := Trapped(AddressError);
      } else {
        outcome := Load(i, addr, size, how);
      }
    }

    /** The loads of the switch. */
    method LoadMemory(i: Instruction, tmp: Word) returns (outcome: Outcome)
      requires Valid() && i.rs < 32 && i.rt < 32 && i.rd < 32 && IsLoad(i.op) && tmp == Add(registers[i.rs], i.extra)
      modifies registers, Store()
      ensures Wired() && Did(old(S.Seen(vm)), S.Seen(vm), space, registers[..], outcome, Perform(i, old(registers[..]), old(Memory())))
    {
      hide PagedMachine.Stable, S.Seen, Add, U.Read, U.Write, PerformLoad, Raise, And, Ready;
      LowMasks(tmp);
      match i.op
      case LB => outcome := Load(i, tmp, 1, ByteSigned);
      case LBU => outcome := Load(i, tmp, 1, ByteUnsigned);
      case LH => outcome := LoadAligned(i, tmp, 2, HalfSigned, 1);
      case LHU => outcome := LoadAligned(i, tmp, 2, HalfUnsigned, 1);
      case LW => outcome := LoadAligned(i, tmp, 4, Whole, 3);
      case LWL =>
        if And(tmp, 3) != 0 {
          outcome := Aborted;
        } else {
          outcome := Load(i, tmp, 4, Whole);
        }
      case LWR =>
        if And(tmp, 3) != 0 {
          outcome := Aborted;
        } else {
          outcome := Load(i, tmp, 4, MergeRight);
        }
    }

    /** The stores of the switch. */
    method SaveMemory(i: Instruction, tmp: Word) returns (outcome: Outcome)
      requires Valid() && i.rs < 32 && i.rt < 32 && i.rd < 32 && KindOf(i.op) == Accesses && !IsLoad(i.op) && tmp == Add(registers[i.rs], i.extra)
      modifies registers, Store()
      ensures Wired() && Did(old(S.Seen(vm)), S.Seen(vm), space, registers[..], outcome, Perform(i, old(registers[..]), old(Memory())))
    {
      hide PagedMachine.Stable, S.Seen, Add, U.Read, U.Write, PerformStore, PerformReadThenStore, Raise, And, Ready;
      LowMasks(tmp);
      match i.op
      case SB => outcome := Save(tmp, 1, registers[i.rt]);
      case SH => outcome := Save(tmp, 2, registers[i.rt]);
      case SW => outcome := Save(tmp, 4, registers[i.rt]);
      case SWL =>
        if And(tmp, 3) != 0 {
          outcome := Aborted;
        } else {
          outcome := SaveMerged(tmp, registers[i.rt], false);
        }
      case SWR =>
        if And(tmp, 3) != 0 {
          outcome := Aborted;
        } else {
          outcome := SaveMerged(tmp, registers[i.rt], true);
        }
    }

    /** The instructions that write one general register from two operands. */
    method ComputeValue(i: Instruction) returns (outcome: Outcome)
      requires Valid() && i.rs < 32 && i.rt < 32 && i.rd < 32 && KindOf(i.op) == Computes
      modifies registers
      ensures Did(old(S.Seen(vm)), old(S.Seen(vm)), space, registers[..], outcome, Perform(i, old(registers[..]), old(Memory())))
    {
      hide PagedMachine.Stable, S.Seen, Add, ValueOf, Overflows, Raise, Complete, Target;
      ghost var before: Registers := registers[..];
      ActShape(i, before[i.rs], before[i.rt], before[HI], before[LO], before[NEXT_PC]);
      var reg, value, overflow := Calculate(i, registers[i.rs], registers[i.rt]);
      if overflow {
        RaiseException(0);
        return Trapped(Overflow);
      }
      registers[reg] := value;
      Advance(0, 0, Add(registers[NEXT_PC], 4), before, map[reg := value]);
      outcome := Completed;
    }

    /** The switch of OneInstruction. */
    method Execute(i: Instruction) returns (outcome: Outcome)
      requires Valid() && i.rs < 32 && i.rt < 32 && i.rd < 32
      modifies registers, Store()
      ensures Wired() && Did(old(S.Seen(vm)), S.Seen(vm), space, registers[..], outcome, Perform(i, old(registers[..]), old(Memory())))
    {
      hide PagedMachine.Stable, S.Seen, Add, Raise, Complete, Target, Jump, UseHiLo, Compute, Access, PerformLoad, PerformStore, PerformReadThenStore;
      ghost var before: Registers := registers[..];
      ActShape(i, before[i.rs], before[i.rt], before[HI], before[LO], before[NEXT_PC]);
      var kind := KindOf(i.op);
      match kind
      case Jumps =>
        var pcAfter := TakeJump(i);
        Advance(0, 0, pcAfter, before, Jump(i, before[i.rs], before[i.rt], before[NEXT_PC]).writes);
        outcome := Completed;
      case Accesses =>
        var tmp := Add(registers[i.rs], i.extra);
        if IsLoad(i.op) {
          outcome := LoadMemory(i, tmp);
        } else {
          outcome := SaveMemory(i, tmp);
        }
      case UsesHiLo =>
        ApplyHiLo(i);
        HiLoAnyway(i, before[i.rs], before[i.rt], before[HI], before[LO], Add(before[NEXT_PC], 4));
        Advance(0, 0, Add(registers[NEXT_PC], 4), before, UseHiLo(i, before[i.rs], before[i.rt], before[HI], before[LO], 0).writes);
        outcome := Completed;
      case Computes => outcome := ComputeValue(i);
      case Traps =>
        RaiseException(0);
        outcome := Trapped(if i.op == SYSCALL then Syscall else Illegal);
    }

    /** Machine::OneInstruction. */
    method OneInstruction() returns (outcome: Outcome)
      requires Valid()
      modifies registers, Store()
      ensures Valid() && Did(old(S.Seen(vm)), S.Seen(vm), space, registers[..], outcome, Attempt(old(registers[..]), old(Memory())))
    {
      hide PagedMachine.Stable, S.Seen, U.Read, Perform, Decode, Raise;
      ghost var before: Registers, mem, seen := registers[..], Memory(), S.Seen(vm);
      AttemptReady(before, mem);
      var a := ReadMem(registers[PC], 4);
      if a.Value? {
        ReadKeeps(mem, before[PC], 4);
        assert S.Seen(vm) == seen;
        outcome := Execute(Decode(a.word));
      } else {
        outcome := if a.Trap? then Trapped(TrapOf(a.exception)) else Faulted;
      }
    }

    /** What an interrupt that fires does to the program: CheckIfDue applies the pending load. */
    method Strike(strikes: bool)
      requires Valid()
      modifies registers
      ensures Valid() && registers[..] == Struck(old(registers[..]), strikes)
    {
      hide PagedMachine.Stable, S.Seen;
      if strikes {
        ApplyDelayedLoad(0, 0);
      }
    }

    /** One turn of the loop of Machine::Run, an interrupt firing at the tick before it or not. */
    method RunOnce(strikes: bool) returns (outcome: Outcome)
      requires Valid()
      modifies registers, Store()
      ensures Valid() && Did(old(S.Seen(vm)), S.Seen(vm), space, registers[..], outcome, Attempt(Struck(old(registers[..]), strikes), old(Memory())))
    {
      hide PagedMachine.Stable, S.Seen, Attempt, Struck;
      Strike(strikes);
      outcome := OneInstruction();
    }

    /**
     * Machine::Run up to the end of one instruction: faults are retried until none is left, and
     * interrupts may fire before the instruction and after each attempt.
     */
    method RunInstruction(interrupts: nat -> bool) returns (outcome: Outcome)
      requires Valid()
      modifies registers, Store()
      ensures Valid() && Did(old(S.Seen(vm)), S.Seen(vm), space, registers[..], outcome, RunToEnd(Struck(old(registers[..]), interrupts(0)), old(Memory())))
    {
      hide PagedMachine.Stable, S.Seen, Attempt, Struck, Sane, BitMaps.CountClear;
      ghost var mem, seen := Memory(), S.Seen(vm);
      Strike(interrupts(0));
      ghost var before: Registers := registers[..];
      outcome := Faulted;
      var k := 0;
      while outcome == Faulted
        invariant Valid() && S.Seen(vm) == seen[space := Memory()]
        invariant RunToEnd(before, mem) == if outcome == Faulted then RunToEnd(registers[..], Memory()) else Result(registers[..], Memory(), outcome)
        decreases outcome == Faulted, BitMaps.CountClear(Memory().valid)
      {
        ghost var r: Registers, m := registers[..], Memory();
        outcome := OneInstruction();
        k := k + 1;
        if outcome == Faulted {
          FaultProgress(r, m);
          FaultThenStrike(r, m, interrupts(k));
          Strike(interrupts(k));
        }
      }
    }
  }

  /** What the switch makes of a loaded value: masked, its sign spread, or merged into the register. */
  method Widen(how: Extend, word: Word, base: Word) returns (value: Word)
    ensures value == Extended(how, word, base)
  {
    hide And, Or, ShiftRight;
    value := word;
    match how
    case ByteSigned =>
      MiddleBits(word);
      HighMasks(word);
      LowMasks(word);
      if And(value, 0x80) != 0 {
        value := Or(value, 0xFFFF_FF00);
      } else {
        value := And(value, 0xFF);
      }
    case ByteUnsigned =>
      LowMasks(word);
      value := And(value, 0xFF);
    case HalfSigned =>
      MiddleBits(word);
      HighMasks(word);
      LowMasks(word);
      if And(value, 0x8000) != 0 {
        value := Or(value, 0xFFFF_0000);
      } else {
        value := And(value, 0xFFFF);
      }
    case HalfUnsigned =>
      LowMasks(word);
      value := And(value, 0xFFFF);
    case Whole =>
    case MergeRight =>
      HighMasks(base);
      LowMasks(ShiftRight(value, 24));
      TopByte(value);
      JoinByte(base / 0x100, value / 0x100_0000);
      value := Or(And(base, 0xFFFF_FF00), And(ShiftRight(value, 24), 0xFF));
  }

  lemma TopByte(x: Word)
    ensures ShiftRight(x, 24) % 0x100 == x / 0x100_0000 && ShiftLeft(x, 24) == (x % 0x100) * 0x100_0000
  {
    Pow2Values();
    hide Pow2;
  }

  /** The word SWL or SWR writes. */
  method Merge(right: bool, word: Word, register: Word) returns (value: Word)
    ensures value == Merged(right, word, register)
  {
    hide And, Or, ShiftLeft;
    value := register;
    if right {
      LowMasks(word);
      TopByte(register);
      JoinTop(register % 0x100, word % 0x100_0000);
      value := Or(And(word, 0xFF_FFFF), ShiftLeft(register, 24));
    }
  }

  method UnlessNegative(i: Instruction, x: Word, next: Word) returns (pcAfter: Word)
    ensures pcAfter == Branch(i, next, !Negative(x))
  {
    SignsDiffer(x, x);
    hide And, Xor;
    pcAfter := if And(x, SIGN_BIT) == 0 then Add(next, ShiftLeft(i.extra, 2)) else Add(next, 4);
  }

  method IfNegative(i: Instruction, x: Word, next: Word) returns (pcAfter: Word)
    ensures pcAfter == Branch(i, next, Negative(x))
  {
    SignsDiffer(x, x);
    hide And, Xor;
    pcAfter := if And(x, SIGN_BIT) != 0 then Add(next, ShiftLeft(i.extra, 2)) else Add(next, 4);
  }

  /**
   * Arithmetic, logic and shifts: the register written and the value, with the overflow tests on the sign
   * bits.  They find exactly the sums and differences that do not fit in a word.
   */
  method Calculate(i: Instruction, rs: Word, rt: Word) returns (reg: nat, value: Word, overflow: bool)
    requires KindOf(i.op) == Computes
    ensures reg == Target(i) && overflow == Overflows(i, rs, rt) && (!overflow ==> value == ValueOf(i, rs, rt))
    ensures i.op == ADD ==> overflow == !Fits(Signed(rs) + Signed(rt))
    ensures i.op == ADDI ==> overflow == !Fits(Signed(rs) + Signed(i.extra))
    ensures i.op == SUB ==> overflow == !Fits(Signed(rs) - Signed(rt))
  {
    hide And, Or, Xor, Not, ShiftLeft, ShiftRight, Add, Sub, Signed, Fits;
    reg, value, overflow := i.rd, 0, false;
    match i.op
    case ADD =>
      value := Add(rs, rt);
      SignsDiffer(rs, rt);
      SignsDiffer(rs, value);
      SumOverflow(rs, rt);
      overflow := And(Xor(rs, rt), SIGN_BIT) == 0 && And(Xor(rs, value), SIGN_BIT) != 0;
    case ADDI =>
      reg, value := i.rt, Add(rs, i.extra);
      SignsDiffer(rs, i.extra);
      SignsDiffer(i.extra, value);
      SumOverflow(rs, i.extra);
      overflow := And(Xor(rs, i.extra), SIGN_BIT) == 0 && And(Xor(i.extra, value), SIGN_BIT) != 0;
    case SUB =>
      value := Sub(rs, rt);
      SignsDiffer(rs, rt);
      SignsDiffer(rs, value);
      DifferenceOverflow(rs, rt);
      overflow := And(Xor(rs, rt), SIGN_BIT) != 0 && And(Xor(rs, value), SIGN_BIT) != 0;
    case ADDIU => reg, value := i.rt, Add(rs, i.extra);
    case ADDU => value := Add(rs, rt);
    case SUBU => value := Sub(rs, rt);
    case AND => value := And(rs, rt);
    case ANDI => reg, value := i.rt, And(rs, And(i.extra, 0xFFFF));
    case OR => value := Or(rs, rs);
    case ORI => reg, value := i.rt, Or(rs, And(i.extra, 0xFFFF));
    case XOR => value := Xor(rs, rt);
    case XORI => reg, value := i.rt, Xor(rs, And(i.extra, 0xFFFF));
    case NOR => value := Not(Or(rs, rt));
    case LUI => reg, value := i.rt, ShiftLeft(i.extra, 16);
    case SLT =>
      if Signed(rs) < Signed(rt) {
        value := 1;
      }
    case SLTI =>
      reg := i.rt;
      if Signed(rs) < Signed(i.extra) {
        value := 1;
      }
    case SLTIU =>
      reg := i.rt;
      if rs < i.extra {
        value := 1;
      }
    case SLTU =>
      if rs < rt {
        value := 1;
      }
    case SLL => value := ShiftLeft(rt, i.extra);
    case SRA => value := ShiftRight(rt, i.extra);
    case SRL => value := ShiftRight(rt, i.extra);
    case SLLV =>
      LowFive(rs);
      value := ShiftLeft(rt, And(rs, 0x1F));
    case SRAV =>
      LowFive(rs);
      value := ShiftRight(rt, And(rs, 0x1F));
    case SRLV =>
      LowFive(rs);
      value := ShiftRight(rt, And(rs, 0x1F));
  }

  lemma LowFive(x: Word)
    ensures And(x, 0x1F) == x % 32
  {
    MaskLow(x, 5, 32);
    assert Pow2(5) == 32;
    hide Bitwise, Pow2;
  }

  lemma SplitPair(hi: Word, lo: Word)
    ensures High(Pair(hi, lo)) == hi && ToWord(Pair(hi, lo)) == lo
  {
  }

  lemma ReadKeeps(m: U.Memory, addr: Word, size: nat)
    requires U.Usable(m) && U.Size(size) && U.Read(m, addr, size).1.Value?
    ensures U.Read(m, addr, size).0 == m
  {
  }

  lemma HiLoAnyway(i: Instruction, a: Word, b: Word, hi: Word, lo: Word, after: Word)
    requires KindOf(i.op) == UsesHiLo
    ensures UseHiLo(i, a, b, hi, lo, 0).Finish? && UseHiLo(i, a, b, hi, lo, after) == Finish(UseHiLo(i, a, b, hi, lo, 0).writes, after)
  {
    hide Quotient, Remainder, Product, ToWord, High;
  }
}
