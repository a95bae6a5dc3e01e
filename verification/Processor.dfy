/**
 * One instruction of the simulated processor over demand-paged memory, and what a page fault does to
 * it: the pending delayed load is applied, the handler runs, and the instruction starts again.
 */
module Processor {
  import opened Arithmetic
  import opened Multiply
  import opened Bits
  import opened Instructions
  import BitMaps
  import U = UserMemory

  const PC: nat := 34
  const NEXT_PC: nat := 35
  const PREV_PC: nat := 36
  const LOAD_REG: nat := 37
  const LOAD_VALUE: nat := 38
  const BAD_VADDR: nat := 39
  const NUM_REGS: nat := 40

  type Registers = r: seq<Word> | |r| == NUM_REGS witness seq(NUM_REGS, _ => 0)

  /** Register 0 holds zero and the pending load, if any, is for a general register. */
  predicate Sane(r: Registers) {
    r[0] == 0 && r[LOAD_REG] < 32
  }

  datatype Outcome = Completed | Faulted | Trapped(trap: Trap) | Aborted

  datatype Result = Result(regs: Registers, mem: U.Memory, outcome: Outcome)

  function DelayedLoad(r: Registers, reg: nat, value: Word): Registers
    requires r[LOAD_REG] < NUM_REGS && reg < 32
  {
    r[r[LOAD_REG] := r[LOAD_VALUE]][LOAD_REG := reg][LOAD_VALUE := value][0 := 0]
  }

  /** The registers with the pending load applied, as an interrupt leaves them that fires before the instruction. */
  function Settled(r: Registers): Registers
    requires r[LOAD_REG] < 32
  {
    DelayedLoad(r, 0, 0)
  }

  /** RaiseException before the handler runs. */
  function Raise(r: Registers, badVAddr: Word): Registers
    requires r[LOAD_REG] < 32
  {
    DelayedLoad(r[BAD_VADDR := badVAddr], 0, 0)
  }

  function Write(r: Registers, writes: map<nat, Word>): Registers {
    seq(NUM_REGS, k requires 0 <= k < NUM_REGS => if k in writes then writes[k] else r[k])
  }

  /** The end of OneInstruction: the delayed load, then the program counters. */
  function Complete(r: Registers, writes: map<nat, Word>, reg: nat, value: Word, pcAfter: Word): Registers
    requires r[LOAD_REG] < 32 && reg < 32 && LOAD_REG !in writes
  {
    var t := DelayedLoad(Write(r, writes), reg, value);
    t[PREV_PC := t[PC]][PC := t[NEXT_PC]][NEXT_PC := pcAfter]
  }

  function TrapOf(e: U.Exception): Trap {
    if e == U.ReadOnlyError then ReadOnlyError else AddressError
  }

  /** A memory access that did not give a value: the exception is raised, and a page fault handled. */
  function Refused(r: Registers, mem: U.Memory, a: U.Answer, addr: Word): Result
    requires r[LOAD_REG] < 32
  {
    Result(Raise(r, addr), mem, if a.Trap? then Trapped(TrapOf(a.exception)) else Faulted)
  }

  /** What the register of a load would hold if the load merged nothing into it. */
  function Base(r: Registers, rt: nat): Word
    requires rt < 32
  {
    if r[LOAD_REG] == rt then r[LOAD_VALUE] else r[rt]
  }

  ghost function PerformLoad(i: Instruction, addr: Word, size: nat, how: Extend, r: Registers, mem: U.Memory): Result
    requires Sane(r) && U.Usable(mem) && U.Size(size) && i.rt < 32
  {
    var (m, a) := U.Read(mem, addr, size);
    if a.Value? then Result(Complete(r, map[], i.rt, Extended(how, a.word, Base(r, i.rt)), Add(r[NEXT_PC], 4)), m, Completed)
    else Refused(r, m, a, addr)
  }

  ghost function PerformStore(addr: Word, size: nat, value: Word, r: Registers, mem: U.Memory): Result
    requires Sane(r) && U.Usable(mem) && U.Size(size)
  {
    var (m, a) := U.Write(mem, addr, size, value);
    if a == U.Stored then Result(Complete(r, map[], 0, 0, Add(r[NEXT_PC], 4)), m, Completed)
    else Refused(r, m, a, addr)
  }

  ghost function PerformReadThenStore(addr: Word, value: Word, right: bool, r: Registers, mem: U.Memory): Result
    requires Sane(r) && U.Usable(mem)
  {
    var (m, a) := U.Read(mem, addr, 4);
    if a.Value? then PerformStore(addr, 4, Merged(right, a.word, value), r, mem) else Refused(r, m, a, addr)
  }

  ghost function ActOn(i: Instruction, r: Registers): Action
    requires i.rs < 32 && i.rt < 32
  {
    Act(i, r[i.rs], r[i.rt], r[HI], r[LO], r[NEXT_PC])
  }

  /** Accesses have a size; an instruction writes HI, LO and its target, and nothing else. */
  lemma ActShape(i: Instruction, a: Word, b: Word, hi: Word, lo: Word, next: Word)
    requires i.rs < 32 && i.rt < 32 && i.rd < 32
    ensures var act := Act(i, a, b, hi, lo, next);
      && (act.Finish? ==> forall k :: k in act.writes ==> k == Target(i) || k == HI || k == LO)
      && ((act.LoadFrom? || act.StoreTo?) ==> U.Size(act.size)) && Target(i) < 32
  {
    hide And, Or, Xor, Not, ShiftLeft, ShiftRight, Add, Sub, Negative, Quotient, Remainder, Product, Signed, ToWord,
         Low16, Branch, Flag, High, ValueOf, Overflows;
  }

  /** The decoded instruction carried out. */
  ghost function Perform(i: Instruction, r: Registers, mem: U.Memory): Result
    requires Sane(r) && U.Usable(mem) && i.rs < 32 && i.rt < 32 && i.rd < 32
  {
    ActShape(i, r[i.rs], r[i.rt], r[HI], r[LO], r[NEXT_PC]);
    match ActOn(i, r)
    case Finish(writes, pcAfter) => Result(Complete(r, writes, 0, 0, pcAfter), mem, Completed)
    case LoadFrom(addr, size, how) => PerformLoad(i, addr, size, how, r, mem)
    case StoreTo(addr, size, value) => PerformStore(addr, size, value, r, mem)
    case ReadThenStore(addr, value, right) => PerformReadThenStore(addr, value, right, r, mem)
    case Stop(trap, bad) => Result(Raise(r, bad), mem, Trapped(trap))
    case Abort => Result(r, mem, Aborted)
  }

  /** One call of OneInstruction: a page fault, in the fetch or later, ends it after the handler. */
  ghost function Attempt(r: Registers, mem: U.Memory): Result
    requires Sane(r) && U.Usable(mem)
  {
    var (m, a) := U.Read(mem, r[PC], 4);
    if a.Value? then Perform(Decode(a.word), r, mem) else Refused(r, m, a, r[PC])
  }

  // ---- what the delay of a load means ----

  /** After an instruction completes, the load that was pending has reached its register. */
  lemma PendingArrives(i: Instruction, r: Registers, mem: U.Memory)
    requires Sane(r) && U.Usable(mem) && i.rs < 32 && i.rt < 32 && i.rd < 32 && Perform(i, r, mem).outcome == Completed
    ensures var t := Perform(i, r, mem).regs; (r[LOAD_REG] != 0 ==> t[r[LOAD_REG]] == r[LOAD_VALUE]) && t[PREV_PC] == r[PC] && t[PC] == r[NEXT_PC]
  {
    ActShape(i, r[i.rs], r[i.rt], r[HI], r[LO], r[NEXT_PC]);
    hide U.Read, U.Write, Act, Extended, Merged;
  }

  /** A load leaves its register as it was, but for an older load, until the instruction after it is done. */
  lemma LoadIsDelayed(i: Instruction, addr: Word, size: nat, how: Extend, r: Registers, mem: U.Memory)
    requires Sane(r) && U.Usable(mem) && U.Size(size) && i.rt < 32 && U.Read(mem, addr, size).1.Value?
    ensures var t := PerformLoad(i, addr, size, how, r, mem).regs;
      && (forall k :: 0 < k < 32 ==> t[k] == if k == r[LOAD_REG] then r[LOAD_VALUE] else r[k])
      && t[LOAD_REG] == i.rt && t[LOAD_VALUE] == Extended(how, U.Read(mem, addr, size).1.word, Base(r, i.rt))
  {
    hide U.Read, Extended;
  }

  // ---- a fault before the instruction and one never taken ----

  /** The instruction reads or overwrites register k at once; a load into k is not counted. */
  predicate Touches(i: Instruction, k: nat) {
    k != 0 && ((UsesRs(i.op) && i.rs == k) || (UsesRt(i.op) && i.rt == k) || Target(i) == k)
  }

  /** Equal but for the failing address and the value of a load into register 0. */
  ghost predicate Same(r: Registers, t: Registers) {
    && (forall k :: 0 <= k <= PREV_PC ==> r[k] == t[k])
    && r[LOAD_REG] == t[LOAD_REG] && (r[LOAD_REG] != 0 ==> r[LOAD_VALUE] == t[LOAD_VALUE])
  }

  /** The same outcome, the same memory and, if the simulator goes on, the same registers. */
  ghost predicate Agree(x: Result, y: Result) {
    x.outcome == y.outcome && x.mem == y.mem && (x.outcome != Aborted ==> Same(x.regs, y.regs))
  }

  /** t is r with its pending load applied, or a copy of r: what the instruction can read is the same. */
  ghost predicate Ahead(i: Instruction, r: Registers, t: Registers) {
    && Sane(r) && Sane(t)
    && (Same(r, t) || (!Touches(i, r[LOAD_REG]) && exists bad: Word :: t == Raise(r, bad)))
  }

  lemma SameActions(i: Instruction, r: Registers, t: Registers)
    requires Ahead(i, r, t) && i.rs < 32 && i.rt < 32
    ensures ActOn(i, r) == ActOn(i, t) && r[NEXT_PC] == t[NEXT_PC]
  {
    hide Act, UsesRs, UsesRt, Target;
    UnusedOperands(i, r[i.rs], t[i.rs], r[i.rt], t[i.rt], r[HI], r[LO], r[NEXT_PC]);
  }

  lemma SameBase(i: Instruction, r: Registers, t: Registers)
    requires Ahead(i, r, t) && 0 < i.rt < 32
    ensures Base(r, i.rt) == Base(t, i.rt)
  {
    hide UsesRs, UsesRt, Target;
  }

  lemma SameRefusal(i: Instruction, r: Registers, t: Registers, mem: U.Memory, a: U.Answer, addr: Word)
    requires Ahead(i, r, t)
    ensures Agree(Refused(r, mem, a, addr), Refused(t, mem, a, addr)) && Same(Raise(r, addr), Raise(t, addr))
  {
    hide UsesRs, UsesRt, Target;
  }

  lemma SameCompletion(i: Instruction, r: Registers, t: Registers, writes: map<nat, Word>, reg: nat, v: Word, v': Word, pcAfter: Word)
    requires Ahead(i, r, t) && Target(i) < 32 && reg < 32 && (reg != 0 ==> v == v')
    requires forall k :: k in writes ==> k == Target(i) || k == HI || k == LO
    ensures Same(Complete(r, writes, reg, v, pcAfter), Complete(t, writes, reg, v', pcAfter))
  {
    hide UsesRs, UsesRt, Target;
  }

  lemma SameLoad(i: Instruction, addr: Word, size: nat, how: Extend, r: Registers, t: Registers, mem: U.Memory)
    requires Ahead(i, r, t) && U.Usable(mem) && U.Size(size) && i.rt < 32 && Target(i) < 32 && r[NEXT_PC] == t[NEXT_PC]
    ensures Agree(PerformLoad(i, addr, size, how, r, mem), PerformLoad(i, addr, size, how, t, mem))
  {
    hide Ahead, Same, Complete, Extended, U.Read, Target, Refused;
    var (m, a) := U.Read(mem, addr, size);
    if a.Value? {
      if i.rt != 0 {
        SameBase(i, r, t);
      }
      AheadSane(i, r, t);
      SameCompletion(i, r, t, map[], i.rt, Extended(how, a.word, Base(r, i.rt)), Extended(how, a.word, Base(t, i.rt)), Add(r[NEXT_PC], 4));
    } else {
      SameRefusal(i, r, t, m, a, addr);
    }
  }

  lemma AheadSane(i: Instruction, r: Registers, t: Registers)
    requires Ahead(i, r, t)
    ensures Sane(r) && Sane(t)
  {
    hide Touches;
  }

  lemma SameStore(i: Instruction, addr: Word, size: nat, value: Word, r: Registers, t: Registers, mem: U.Memory)
    requires Ahead(i, r, t) && U.Usable(mem) && U.Size(size) && Target(i) < 32 && r[NEXT_PC] == t[NEXT_PC]
    ensures Agree(PerformStore(addr, size, value, r, mem), PerformStore(addr, size, value, t, mem))
  {
    AheadSane(i, r, t);
    hide Ahead, Same, Complete, U.Write, Target, Refused;
    var (m, a) := U.Write(mem, addr, size, value);
    if a == U.Stored {
      SameCompletion(i, r, t, map[], 0, 0, 0, Add(r[NEXT_PC], 4));
    } else {
      SameRefusal(i, r, t, m, a, addr);
    }
  }

  lemma SamePerformance(i: Instruction, r: Registers, t: Registers, mem: U.Memory)
    requires Ahead(i, r, t) && U.Usable(mem) && i.rs < 32 && i.rt < 32 && i.rd < 32
    ensures Agree(Perform(i, r, mem), Perform(i, t, mem))
  {
    AheadSane(i, r, t);
    hide Ahead, Same, Complete, PerformLoad, PerformStore, U.Read, Target, Refused, Act, ActOn;
    SameActions(i, r, t);
    ActShape(i, r[i.rs], r[i.rt], r[HI], r[LO], r[NEXT_PC]);
    assert ActOn(i, r) == Act(i, r[i.rs], r[i.rt], r[HI], r[LO], r[NEXT_PC]);
    var act := ActOn(i, r);
    match act
    case Finish(writes, pcAfter) => SameCompletion(i, r, t, writes, 0, 0, 0, pcAfter);
    case LoadFrom(addr, size, how) => SameLoad(i, addr, size, how, r, t, mem);
    case StoreTo(addr, size, value) => SameStore(i, addr, size, value, r, t, mem);
    case ReadThenStore(addr, value, right) =>
      var (m, a) := U.Read(mem, addr, 4);
      if a.Value? {
        SameStore(i, addr, 4, Merged(right, a.word, value), r, t, mem);
      } else {
        SameRefusal(i, r, t, m, a, addr);
      }
    case Stop(trap, bad) => SameRefusal(i, r, t, mem, U.Faulted, bad);
    case Abort =>
  }

  /** The instruction at PC, if its fetch succeeds, does not touch the register of the pending load. */
  ghost predicate Clean(r: Registers, mem: U.Memory)
    requires U.Usable(mem)
  {
    var a := U.Read(AllValid(mem), r[PC], 4).1;
    a.Value? ==> !Touches(Decode(a.word), r[LOAD_REG])
  }

  /** The memory with every page already faulted in. */
  function AllValid(m: U.Memory): U.Memory {
    m.(valid := seq(|m.valid|, _ => true))
  }

  /** m' is m with one page more faulted in and the same bytes. */
  ghost predicate OneMoreValid(m: U.Memory, m': U.Memory) {
    exists p :: 0 <= p < |m.valid| && !m.valid[p] && m' == m.(valid := m.valid[p := true])
  }

  lemma ReadWhenValid(m: U.Memory, addr: Word, size: nat)
    requires U.Usable(m) && U.Size(size)
    ensures var x, y := U.Read(m, addr, size), U.Read(AllValid(m), addr, size);
      if x.1 == U.Faulted then OneMoreValid(m, x.0) else y.1 == x.1 && x.0 == m && y.0 == AllValid(m) && (x.1.Value? || x.1.Trap?)
  {
    hide U.PageOf, U.Decode;
  }

  lemma WriteWhenValid(m: U.Memory, addr: Word, size: nat, value: Word)
    requires U.Usable(m) && U.Size(size)
    ensures var x, y := U.Write(m, addr, size, value), U.Write(AllValid(m), addr, size, value);
      if x.1 == U.Faulted then OneMoreValid(m, x.0) else y.1 == x.1 && y.0 == AllValid(x.0) && x.0.valid == m.valid && (x.1.Stored? || x.1.Trap?)
  {
    hide U.PageOf, U.Encode;
  }

  /**
   * What an attempt does: it faults, having done nothing but apply the pending load and fault one
   * page in, or it does what it would do with every page faulted in already.
   */
  ghost predicate FaultsOrRuns(r: Registers, mem: U.Memory, x: Result, direct: Result)
    requires r[LOAD_REG] < 32
  {
    if x.outcome == Faulted then x.regs == Raise(r, x.regs[BAD_VADDR]) && OneMoreValid(mem, x.mem)
    else direct == x.(mem := AllValid(x.mem)) && x.mem.valid == mem.valid
  }

  lemma StoreFaultsOrRuns(addr: Word, size: nat, value: Word, r: Registers, mem: U.Memory)
    requires Sane(r) && U.Usable(mem) && U.Size(size)
    ensures FaultsOrRuns(r, mem, PerformStore(addr, size, value, r, mem), PerformStore(addr, size, value, r, AllValid(mem)))
  {
    hide U.Write, Complete;
    WriteWhenValid(mem, addr, size, value);
  }

  lemma PerformFaultsOrRuns(i: Instruction, r: Registers, mem: U.Memory)
    requires Sane(r) && U.Usable(mem) && i.rs < 32 && i.rt < 32 && i.rd < 32
    ensures FaultsOrRuns(r, mem, Perform(i, r, mem), Perform(i, r, AllValid(mem)))
  {
    ActShape(i, r[i.rs], r[i.rt], r[HI], r[LO], r[NEXT_PC]);
    hide U.Read, Complete, Act, PerformStore, OneMoreValid;
    var act := ActOn(i, r);
    match act
    case Finish(writes, pcAfter) =>
    case LoadFrom(addr, size, how) => ReadWhenValid(mem, addr, size);
    case StoreTo(addr, size, value) => StoreFaultsOrRuns(addr, size, value, r, mem);
    case ReadThenStore(addr, value, right) =>
      ReadWhenValid(mem, addr, 4);
      var (m, a) := U.Read(mem, addr, 4);
      if a.Value? {
        StoreFaultsOrRuns(addr, 4, Merged(right, a.word, value), r, mem);
      }
    case Stop(trap, bad) =>
    case Abort =>
  }

  lemma AttemptFaultsOrRuns(r: Registers, mem: U.Memory)
    requires Sane(r) && U.Usable(mem)
    ensures FaultsOrRuns(r, mem, Attempt(r, mem), Attempt(r, AllValid(mem)))
  {
    hide U.Read, Perform, OneMoreValid, Decode;
    ReadWhenValid(mem, r[PC], 4);
    var a := U.Read(mem, r[PC], 4).1;
    if a.Value? {
      PerformFaultsOrRuns(Decode(a.word), r, mem);
    }
  }

  // ---- the instruction run to its end ----

  ghost predicate Ready(r: Registers, mem: U.Memory) {
    Sane(r) && U.Usable(mem)
  }

  /** Each fault makes one page valid, for good: there can be only so many. */
  lemma FaultProgress(r: Registers, mem: U.Memory)
    requires Ready(r, mem) && Attempt(r, mem).outcome == Faulted
    ensures var x := Attempt(r, mem); Ready(x.regs, x.mem) && BitMaps.CountClear(x.mem.valid) < BitMaps.CountClear(mem.valid)
    ensures var x := Attempt(r, mem); x.regs[LOAD_REG] == 0 && x.regs[PC] == r[PC] && AllValid(x.mem) == AllValid(mem)
    ensures var x := Attempt(r, mem); |x.mem.valid| == |mem.valid| && forall p :: 0 <= p < |mem.valid| && mem.valid[p] ==> x.mem.valid[p]
  {
    AttemptFaultsOrRuns(r, mem);
    hide Attempt, BitMaps.CountClear;
    var x := Attempt(r, mem);
    var p :| 0 <= p < |mem.valid| && !mem.valid[p] && x.mem == mem.(valid := mem.valid[p := true]);
    BitMaps.CountUpdate(mem.valid, p, true);
    assert AllValid(x.mem) == AllValid(mem);
  }

  /** Machine::Run until the instruction at PC no longer faults. */
  ghost function RunToEnd(r: Registers, mem: U.Memory): Result
    requires Ready(r, mem)
    decreases BitMaps.CountClear(mem.valid)
  {
    var x := Attempt(r, mem);
    if x.outcome == Faulted then FaultProgress(r, mem); RunToEnd(x.regs, x.mem) else x
  }

  lemma RaiseIsAhead(i: Instruction, r: Registers, bad: Word)
    requires Sane(r) && !Touches(i, r[LOAD_REG])
    ensures Sane(Raise(r, bad)) && Ahead(i, r, Raise(r, bad)) && Raise(r, bad)[PC] == r[PC]
  {
    hide Touches;
  }

  /** Applying the pending load first changes nothing an instruction that does not touch it can see. */
  lemma FaultFirst(r: Registers, mem: U.Memory, bad: Word)
    requires Ready(r, mem) && Clean(r, mem) && AllValid(mem) == mem
    ensures Sane(Raise(r, bad)) && Agree(Attempt(r, mem), Attempt(Raise(r, bad), mem))
  {
    hide U.Read, Perform, Agree, Refused, Touches, Ahead;
    var (m, a) := U.Read(mem, r[PC], 4);
    var i := if a.Value? then Decode(a.word) else Instruction(RES, 0, 0, 0, 0);
    assert !Touches(Instruction(RES, 0, 0, 0, 0), r[LOAD_REG]) by { NothingTouched(r[LOAD_REG]); }
    RaiseIsAhead(i, r, bad);
    if a.Value? {
      SamePerformance(i, r, Raise(r, bad), mem);
    } else {
      SameRefusal(i, r, Raise(r, bad), m, a, r[PC]);
    }
  }

  lemma NothingTouched(k: nat)
    ensures !Touches(Instruction(RES, 0, 0, 0, 0), k)
  {
  }

  /** x is what the instruction does over demand-paged memory, direct with all of memory present. */
  ghost predicate Equivalent(x: Result, direct: Result) {
    x.outcome != Faulted && Agree(x.(mem := AllValid(x.mem)), direct)
  }

  /**
   * Fault and retry equals direct execution: an instruction that does not touch the register of the
   * pending load ends, after however many faults, with the registers, program counters, memory and
   * outcome it would have with every page in place.
   */
  lemma {:induction false} RestartExact(r: Registers, mem: U.Memory)
    requires Ready(r, mem) && Clean(r, mem)
    ensures Equivalent(RunToEnd(r, mem), Attempt(r, AllValid(mem)))
    decreases BitMaps.CountClear(mem.valid)
  {
    AttemptFaultsOrRuns(r, mem);
    hide Attempt, Touches;
    var x := Attempt(r, mem);
    if x.outcome == Faulted {
      FaultProgress(r, mem);
      RestartExact(x.regs, x.mem);
      assert AllValid(AllValid(mem)) == AllValid(mem);
      FaultFirst(r, AllValid(mem), x.regs[BAD_VADDR]);
    }
  }

  // ---- whole programs ----

  lemma SameAttempt(r: Registers, t: Registers, mem: U.Memory)
    requires Ready(r, mem) && Ready(t, mem) && Same(r, t)
    ensures Agree(Attempt(r, mem), Attempt(t, mem))
  {
    hide U.Read, Perform, Agree, Refused, Touches;
    var (m, a) := U.Read(mem, r[PC], 4);
    if a.Value? {
      SamePerformance(Decode(a.word), r, t, mem);
    } else {
      SameRefusal(Instruction(RES, 0, 0, 0, 0), r, t, m, a, r[PC]);
    }
  }

  lemma CompleteSane(r: Registers, writes: map<nat, Word>, reg: nat, value: Word, pcAfter: Word)
    requires Sane(r) && reg < 32 && forall k :: k in writes ==> k < LOAD_REG
    ensures Sane(Complete(r, writes, reg, value, pcAfter))
  {
  }

  /** Register 0 stays zero and a pending load names a general register, whatever the instruction. */
  lemma PerformReady(i: Instruction, r: Registers, mem: U.Memory)
    requires Ready(r, mem) && i.rs < 32 && i.rt < 32 && i.rd < 32
    ensures var x := Perform(i, r, mem); Ready(x.regs, x.mem)
  {
    ActShape(i, r[i.rs], r[i.rt], r[HI], r[LO], r[NEXT_PC]);
    hide U.Check, U.Load, U.Store, U.PageOf, Complete, Act, Extended, Merged;
    var act := ActOn(i, r);
    match act
    case Finish(writes, pcAfter) => CompleteSane(r, writes, 0, 0, pcAfter);
    case LoadFrom(addr, size, how) =>
      ReadKeepsShape(mem, addr, size);
      var a := U.Read(mem, addr, size).1;
      if a.Value? {
        CompleteSane(r, map[], i.rt, Extended(how, a.word, Base(r, i.rt)), Add(r[NEXT_PC], 4));
      }
    case StoreTo(addr, size, value) =>
      WriteKeepsShape(mem, addr, size, value);
      CompleteSane(r, map[], 0, 0, Add(r[NEXT_PC], 4));
    case ReadThenStore(addr, value, right) =>
      ReadKeepsShape(mem, addr, 4);
      var a := U.Read(mem, addr, 4).1;
      if a.Value? {
        WriteKeepsShape(mem, addr, 4, Merged(right, a.word, value));
        CompleteSane(r, map[], 0, 0, Add(r[NEXT_PC], 4));
      }
    case Stop(trap, bad) =>
    case Abort =>
  }

  lemma ReadKeepsShape(m: U.Memory, addr: Word, size: nat)
    requires U.Usable(m) && U.Size(size)
    ensures U.Usable(U.Read(m, addr, size).0)
  {
  }

  lemma WriteKeepsShape(m: U.Memory, addr: Word, size: nat, value: Word)
    requires U.Usable(m) && U.Size(size)
    ensures U.Usable(U.Write(m, addr, size, value).0)
  {
  }

  lemma AttemptReady(r: Registers, mem: U.Memory)
    requires Ready(r, mem)
    ensures var x := Attempt(r, mem); Ready(x.regs, x.mem)
  {
    hide U.Read, Perform, Decode;
    ReadKeepsShape(mem, r[PC], 4);
    var a := U.Read(mem, r[PC], 4).1;
    if a.Value? {
      PerformReady(Decode(a.word), r, mem);
    }
  }

  lemma {:induction false} RunToEndReady(r: Registers, mem: U.Memory)
    requires Ready(r, mem)
    ensures var x := RunToEnd(r, mem); Ready(x.regs, x.mem)
    decreases BitMaps.CountClear(mem.valid)
  {
    hide Attempt;
    AttemptReady(r, mem);
    if Attempt(r, mem).outcome == Faulted {
      FaultProgress(r, mem);
      RunToEndReady(Attempt(r, mem).regs, Attempt(r, mem).mem);
    }
  }

  lemma AgreeTransitive(x: Result, y: Result, z: Result)
    requires Agree(x, y) && Agree(y, z)
    ensures Agree(x, z)
  {
  }
}
