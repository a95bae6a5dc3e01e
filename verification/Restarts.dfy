/**
 * Exactly when a page fault, or an interrupt taken between instructions, can be told from its absence.
 * Either one applies the pending delayed load early; whether the instruction at hand notices is decided
 * by what it does with its registers as they are and with the load already in place.
 */
module Restarts {
  import opened Arithmetic
  import opened Multiply
  import opened Bits
  import opened Instructions
  import opened Processor
  import U = UserMemory

  /** How memory answers an action, and the word a load leaves pending. */
  datatype Reply = Reply(mem: U.Memory, outcome: Outcome, loaded: Word)

  function Refusal(a: U.Answer): Outcome {
    if a.Trap? then Trapped(TrapOf(a.exception)) else Faulted
  }

  ghost function ReplyTo(act: Action, base: Word, mem: U.Memory): Reply
    requires U.Usable(mem) && (act.LoadFrom? || act.StoreTo? ==> U.Size(act.size))
  {
    match act
    case Finish(_, _) => Reply(mem, Completed, 0)
    case LoadFrom(addr, size, how) =>
      var (m, a) := U.Read(mem, addr, size);
      if a.Value? then Reply(m, Completed, Extended(how, a.word, base)) else Reply(m, Refusal(a), 0)
    case StoreTo(addr, size, value) => ReplyToStore(addr, size, value, mem)
    case ReadThenStore(addr, value, right) =>
      var (m, a) := U.Read(mem, addr, 4);
      if a.Value? then ReplyToStore(addr, 4, Merged(right, a.word, value), mem) else Reply(m, Refusal(a), 0)
    case Stop(trap, _) => Reply(mem, Trapped(trap), 0)
    case Abort => Reply(mem, Aborted, 0)
  }

  ghost function ReplyToStore(addr: Word, size: nat, value: Word, mem: U.Memory): Reply
    requires U.Usable(mem) && U.Size(size)
  {
    var (m, a) := U.Write(mem, addr, size, value);
    Reply(m, if a == U.Stored then Completed else Refusal(a), 0)
  }

  /** In a register the load is pending for, the load wins over a write of the instruction in its delay slot. */
  function Left(r: Registers, k: nat, value: Word): Word {
    if k == r[LOAD_REG] then r[LOAD_VALUE] else value
  }

  /** The writes and the jump, made with the load applied, leave what they leave with the load pending. */
  ghost predicate SameWrites(r: Registers, a: Action, b: Action)
    requires a.Finish? && b.Finish?
  {
    && a.pcAfter == b.pcAfter
    && (forall k :: k in a.writes && 0 < k ==> k in b.writes && b.writes[k] == Left(r, k, a.writes[k]))
  }

  /** The instruction cannot tell whether the pending load has been applied. */
  ghost predicate Harmless(i: Instruction, r: Registers, mem: U.Memory)
    requires Ready(r, mem) && i.rs < 32 && i.rt < 32 && i.rd < 32
  {
    var t := Settled(r);
    var a, b := ActOn(i, r), ActOn(i, t);
    ActShape(i, r[i.rs], r[i.rt], r[HI], r[LO], r[NEXT_PC]);
    ActShape(i, t[i.rs], t[i.rt], t[HI], t[LO], t[NEXT_PC]);
    var x, y := ReplyTo(a, Base(r, i.rt), mem), ReplyTo(b, Base(t, i.rt), mem);
    && x.outcome == y.outcome && x.mem == y.mem
    && (x.outcome == Completed && a.LoadFrom? && i.rt != 0 ==> x.loaded == y.loaded)
    && (a.Finish? && b.Finish? ==> SameWrites(r, a, b))
  }

  // ---- an instruction as an action, a reply and a change of the registers ----

  ghost predicate Applies(i: Instruction, r: Registers, act: Action, reply: Reply, x: Result)
    requires Sane(r) && i.rt < 32
  {
    && x.outcome == reply.outcome && x.mem == reply.mem
    && match x.outcome
       case Aborted => true
       case Completed =>
         && (act.Finish? ==> LOAD_REG !in act.writes && x.regs == Complete(r, act.writes, 0, 0, act.pcAfter))
         && (act.LoadFrom? ==> x.regs == Complete(r, map[], i.rt, reply.loaded, Add(r[NEXT_PC], 4)))
         && (act.StoreTo? || act.ReadThenStore? ==> x.regs == Complete(r, map[], 0, 0, Add(r[NEXT_PC], 4)))
       case _ => x.regs == Raise(r, x.regs[BAD_VADDR])
  }

  lemma PerformApplies(i: Instruction, r: Registers, mem: U.Memory)
    requires Ready(r, mem) && i.rs < 32 && i.rt < 32 && i.rd < 32
    ensures (ActOn(i, r).LoadFrom? || ActOn(i, r).StoreTo?) ==> U.Size(ActOn(i, r).size)
    ensures Applies(i, r, ActOn(i, r), ReplyTo(ActOn(i, r), Base(r, i.rt), mem), Perform(i, r, mem))
  {
    ActShape(i, r[i.rs], r[i.rt], r[HI], r[LO], r[NEXT_PC]);
    hide U.Read, U.Write, Complete, Act, Extended, Merged, Base;
    var act := ActOn(i, r);
    match act
    case Finish(writes, pcAfter) =>
    case LoadFrom(addr, size, how) =>
    case StoreTo(addr, size, value) =>
    case ReadThenStore(addr, value, right) =>
    case Stop(trap, bad) =>
    case Abort =>
  }

  /** What the operands cannot change about an action. */
  predicate Alike(a: Action, b: Action) {
    match a
    case Finish(writes, _) => b.Stop? || (b.Finish? && b.writes.Keys == writes.Keys)
    case LoadFrom(_, size, how) => b.Stop? || b.Abort? || (b.LoadFrom? && b.size == size && b.how == how)
    case StoreTo(_, _, _) => b.StoreTo?
    case ReadThenStore(_, _, _) => b.Abort? || b.ReadThenStore?
    case Stop(_, _) => b.Stop? || b.Finish? || b.LoadFrom?
    case Abort => b.Abort? || b.LoadFrom? || b.ReadThenStore?
  }

  lemma ActAlike(i: Instruction, a: Word, a': Word, b: Word, b': Word, hi: Word, lo: Word, next: Word)
    ensures Alike(Act(i, a, b, hi, lo, next), Act(i, a', b', hi, lo, next))
  {
    hide And, Or, Xor, Not, ShiftLeft, ShiftRight, Add, Sub, Negative, Quotient, Remainder, Signed, ToWord,
         Low16, Branch, Flag, High, ValueOf, Overflows;
  }

  // ---- the registers an action leaves ----

  lemma SettledAt(r: Registers, k: nat)
    requires Sane(r) && k < NUM_REGS
    ensures Sane(Settled(r)) && Settled(r)[LOAD_REG] == 0
    ensures k < LOAD_REG ==> Settled(r)[k] == if k == r[LOAD_REG] && k != 0 then r[LOAD_VALUE] else r[k]
  {
  }

  lemma CompleteAt(r: Registers, writes: map<nat, Word>, reg: nat, value: Word, pcAfter: Word)
    requires Sane(r) && reg < 32 && forall k :: k in writes ==> k < PC
    ensures var z := Complete(r, writes, reg, value, pcAfter);
      && z[0] == 0 && z[LOAD_REG] == reg && z[LOAD_VALUE] == value
      && z[PREV_PC] == r[PC] && z[PC] == r[NEXT_PC] && z[NEXT_PC] == pcAfter
      && (forall k :: 0 < k < PC ==> z[k] == Left(r, k, if k in writes then writes[k] else r[k]))
  {
  }

  lemma CompletionsAgree(r: Registers, a: Action, b: Action)
    requires Sane(r) && a.Finish? && b.Finish? && a.writes.Keys == b.writes.Keys && forall k :: k in a.writes ==> k < PC
    ensures Sane(Settled(r)) && LOAD_REG !in b.writes
    ensures Same(Complete(Settled(r), b.writes, 0, 0, b.pcAfter), Complete(r, a.writes, 0, 0, a.pcAfter)) <==> SameWrites(r, a, b)
  {
    var t := Settled(r);
    SettledAt(r, 0);
    SettledAt(r, PC);
    SettledAt(r, NEXT_PC);
    CompleteAt(r, a.writes, 0, 0, a.pcAfter);
    CompleteAt(t, b.writes, 0, 0, b.pcAfter);
    var x, y := Complete(r, a.writes, 0, 0, a.pcAfter), Complete(t, b.writes, 0, 0, b.pcAfter);
    forall k | 0 < k < PC ensures y[k] == x[k] <==> (k in a.writes ==> b.writes[k] == Left(r, k, a.writes[k])) {
      SettledAt(r, k);
    }
    hide Complete, Settled, DelayedLoad;
    if SameWrites(r, a, b) {
      forall k | 0 <= k <= PREV_PC ensures y[k] == x[k] {
        assert k == 0 || k < PC || k == PC || k == NEXT_PC || k == PREV_PC;
      }
    } else if Same(y, x) {
      assert x[NEXT_PC] == y[NEXT_PC];
      forall k | k in a.writes && 0 < k ensures b.writes[k] == Left(r, k, a.writes[k]) {
        assert y[k] == x[k];
      }
    }
  }

  lemma AccessesAgree(r: Registers, reg: nat, v: Word, v': Word, pcAfter: Word)
    requires Sane(r) && reg < 32
    ensures Sane(Settled(r))
    ensures Same(Complete(Settled(r), map[], reg, v', pcAfter), Complete(r, map[], reg, v, pcAfter)) <==> (reg != 0 ==> v == v')
  {
    var t := Settled(r);
    SettledAt(r, 0);
    SettledAt(r, PC);
    SettledAt(r, NEXT_PC);
    CompleteAt(r, map[], reg, v, pcAfter);
    CompleteAt(t, map[], reg, v', pcAfter);
    forall k | 0 < k < PC ensures Complete(t, map[], reg, v', pcAfter)[k] == Complete(r, map[], reg, v, pcAfter)[k] {
      SettledAt(r, k);
    }
    hide Complete, Settled, DelayedLoad;
  }

  lemma RaisesAgree(r: Registers, bad: Word, bad': Word)
    requires Sane(r)
    ensures Sane(Settled(r)) && Same(Raise(Settled(r), bad'), Raise(r, bad)) && Same(Raise(r, bad), Settled(r))
  {
  }

  /** With the load applied first the instruction ends the same exactly when it is harmless. */
  lemma HarmlessExact(i: Instruction, r: Registers, mem: U.Memory)
    requires Ready(r, mem) && i.rs < 32 && i.rt < 32 && i.rd < 32
    ensures Ready(Settled(r), mem)
    ensures Agree(Perform(i, Settled(r), mem), Perform(i, r, mem)) <==> Harmless(i, r, mem)
  {
    SettledAt(r, 0);
    SettledAt(r, NEXT_PC);
    var t := Settled(r);
    var a, b := ActOn(i, r), ActOn(i, t);
    var x, y := Perform(i, r, mem), Perform(i, t, mem);
    PerformApplies(i, r, mem);
    PerformApplies(i, t, mem);
    assert Alike(a, b) by { SettledAlike(i, r); }
    ActShape(i, r[i.rs], r[i.rt], r[HI], r[LO], r[NEXT_PC]);
    hide Act, Perform, ReplyTo, Complete, DelayedLoad, Raise, Same, SameWrites, Base, Left;
    if x.outcome == y.outcome == Completed {
      if a.Finish? && b.Finish? {
        CompletionsAgree(r, a, b);
      } else if a.LoadFrom? && b.LoadFrom? {
        AccessesAgree(r, i.rt, ReplyTo(a, Base(r, i.rt), mem).loaded, ReplyTo(b, Base(t, i.rt), mem).loaded, Add(r[NEXT_PC], 4));
      } else {
        AccessesAgree(r, 0, 0, 0, Add(r[NEXT_PC], 4));
      }
    } else if x.outcome == y.outcome != Aborted {
      RaisesAgree(r, x.regs[BAD_VADDR], y.regs[BAD_VADDR]);
    }
  }

  lemma SettledAlike(i: Instruction, r: Registers)
    requires Sane(r) && i.rs < 32 && i.rt < 32
    ensures Alike(ActOn(i, r), ActOn(i, Settled(r)))
  {
    hide Act, Alike;
    var t := Settled(r);
    ActAlike(i, r[i.rs], t[i.rs], r[i.rt], t[i.rt], r[HI], r[LO], r[NEXT_PC]);
  }

  // ---- exactly when fault and retry equals direct execution ----

  lemma AgreeVia(x: Result, y: Result, z: Result)
    requires Agree(x, y)
    ensures Agree(x, z) <==> Agree(y, z)
  {
  }

  /** With memory all there, the instruction at PC cannot tell whether the pending load was applied. */
  ghost predicate Steady(r: Registers, mem: U.Memory)
    requires Ready(r, mem)
  {
    var a := U.Read(AllValid(mem), r[PC], 4).1;
    a.Value? ==> Harmless(Decode(a.word), r, AllValid(mem))
  }

  ghost predicate Restartable(r: Registers, mem: U.Memory)
    requires Ready(r, mem)
  {
    Attempt(r, mem).outcome == Faulted ==> Steady(r, mem)
  }

  lemma SteadyExact(r: Registers, memory: U.Memory)
    requires Ready(r, memory)
    ensures Ready(Settled(r), AllValid(memory))
    ensures Agree(Attempt(Settled(r), AllValid(memory)), Attempt(r, AllValid(memory))) <==> Steady(r, memory)
  {
    var mem := AllValid(memory);
    SettledAt(r, PC);
    hide U.Read, Perform, Harmless, Agree, Decode, Settled, Raise;
    var (m, a) := U.Read(mem, r[PC], 4);
    if a.Value? {
      HarmlessExact(Decode(a.word), r, mem);
    } else {
      RaisesAgree(r, r[PC], r[PC]);
      assert Agree(Attempt(Settled(r), mem), Attempt(r, mem)) by { RefusalsAgree(r, m, a, r[PC]); }
    }
  }

  lemma RefusalsAgree(r: Registers, mem: U.Memory, a: U.Answer, addr: Word)
    requires Sane(r)
    ensures Sane(Settled(r)) && Agree(Refused(Settled(r), mem, a, addr), Refused(r, mem, a, addr))
  {
    RaisesAgree(r, addr, addr);
    hide Settled, Raise, Same;
  }

  /** A first fault makes the rest the direct execution of the instruction with the pending load applied. */
  lemma FaultSettles(r: Registers, mem: U.Memory)
    requires Ready(r, mem) && Attempt(r, mem).outcome == Faulted
    ensures Ready(Settled(r), AllValid(mem)) && Equivalent(RunToEnd(r, mem), Attempt(Settled(r), AllValid(mem)))
  {
    AttemptFaultsOrRuns(r, mem);
    FaultProgress(r, mem);
    SettledAt(r, 0);
    var x := Attempt(r, mem);
    RaisesAgree(r, x.regs[BAD_VADDR], 0);
    hide Attempt, Raise, Settled, Decode, U.Read;
    assert Clean(x.regs, x.mem);
    RestartExact(x.regs, x.mem);
    hide Same, Agree;
    SameAttempt(x.regs, Settled(r), AllValid(mem));
    var z := RunToEnd(r, mem);
    assert z == RunToEnd(x.regs, x.mem);
    AgreeTransitive(z.(mem := AllValid(z.mem)), Attempt(x.regs, AllValid(mem)), Attempt(Settled(r), AllValid(mem)));
  }

  /**
   * Fault and retry equals direct execution if and only if the instruction does not fault or is steady:
   * for every instruction, register file and memory.
   */
  lemma RestartIff(r: Registers, mem: U.Memory)
    requires Ready(r, mem)
    ensures Equivalent(RunToEnd(r, mem), Attempt(r, AllValid(mem))) <==> Restartable(r, mem)
  {
    AttemptFaultsOrRuns(r, mem);
    SteadyExact(r, mem);
    hide Attempt, Steady, Agree, Settled, Raise;
    var x, direct := Attempt(r, mem), Attempt(r, AllValid(mem));
    if x.outcome == Faulted {
      FaultSettles(r, mem);
      var z := RunToEnd(r, mem);
      AgreeVia(z.(mem := AllValid(z.mem)), Attempt(Settled(r), AllValid(mem)), direct);
    } else {
      AgreeSelf(direct);
    }
  }

  lemma AgreeSelf(x: Result)
    ensures Agree(x, x)
  {
  }

  // ---- whole programs ----

  /** An interrupt that fires after a fault finds no load pending: between attempts it changes nothing. */
  lemma StruckAfterFault(r: Registers, bad: Word)
    requires r[LOAD_REG] < 32
    ensures Raise(r, bad)[LOAD_REG] == 0 && Settled(Raise(r, bad)) == Raise(r, bad)
  {
  }

  function Struck(r: Registers, strikes: bool): (t: Registers)
    requires Sane(r)
    ensures Sane(t)
  {
    if strikes then Settled(r) else r
  }

  lemma FaultThenStrike(r: Registers, mem: U.Memory, strikes: bool)
    requires Ready(r, mem) && Attempt(r, mem).outcome == Faulted
    ensures var x := Attempt(r, mem); Sane(x.regs) && Struck(x.regs, strikes) == x.regs
  {
    FaultProgress(r, mem);
    AttemptFaultsOrRuns(r, mem);
    hide Attempt, Raise, Settled;
    StruckAfterFault(r, Attempt(r, mem).regs[BAD_VADDR]);
  }

  /**
   * Instructions over demand-paged memory, one for each member of strikes, or as many as complete without a
   * trap; a true member is an interrupt that fires before its instruction.
   */
  ghost function Paged(r: Registers, mem: U.Memory, strikes: seq<bool>): Result
    requires Ready(r, mem)
    decreases |strikes|
  {
    if strikes == [] then Result(r, mem, Completed)
    else
      var t := Struck(r, strikes[0]);
      RunToEndReady(t, mem);
      var x := RunToEnd(t, mem);
      if x.outcome == Completed then Paged(x.regs, x.mem, strikes[1..]) else x
  }

  /** n instructions with every page in place, no fault taken and no interrupt. */
  ghost function Unpaged(r: Registers, mem: U.Memory, n: nat): Result
    requires Ready(r, mem)
    decreases n
  {
    if n == 0 then Result(r, AllValid(mem), Completed)
    else
      AttemptReady(r, AllValid(mem));
      var x := Attempt(r, AllValid(mem));
      if x.outcome == Completed then Unpaged(x.regs, x.mem, n - 1) else x
  }

  /** No instruction of the run can tell whether the load pending before it was applied. */
  ghost predicate SteadyProgram(r: Registers, mem: U.Memory, n: nat)
    requires Ready(r, mem)
    decreases n
  {
    n > 0 ==>
      Steady(r, mem) && (AttemptReady(r, AllValid(mem)); var x := Attempt(r, AllValid(mem)); x.outcome == Completed ==> SteadyProgram(x.regs, x.mem, n - 1))
  }

  /** An instruction that does not touch the register of the pending load is steady. */
  lemma CleanIsSteady(r: Registers, mem: U.Memory)
    requires Ready(r, mem) && Clean(r, mem)
    ensures Steady(r, mem)
  {
    assert AllValid(AllValid(mem)) == AllValid(mem);
    FaultFirst(r, AllValid(mem), r[BAD_VADDR]);
    assert r[BAD_VADDR := r[BAD_VADDR]] == r;
    SteadyExact(r, mem);
    AgreeBack(Attempt(r, AllValid(mem)), Attempt(Settled(r), AllValid(mem)));
  }

  lemma AgreeBack(x: Result, y: Result)
    requires Agree(x, y)
    ensures Agree(y, x)
  {
  }

  lemma SettledSame(r: Registers, t: Registers)
    requires Sane(r) && Sane(t) && Same(r, t)
    ensures Sane(Settled(r)) && Sane(Settled(t)) && Same(Settled(r), Settled(t))
  {
  }

  lemma SteadySame(r: Registers, t: Registers, mem: U.Memory, mem': U.Memory)
    requires Ready(r, mem) && Ready(t, mem') && Same(r, t) && AllValid(mem) == AllValid(mem') && Steady(t, mem')
    ensures Steady(r, mem)
  {
    var all := AllValid(mem);
    SteadyExact(r, mem);
    SteadyExact(t, mem');
    SettledSame(r, t);
    SameAttempt(r, t, all);
    SameAttempt(Settled(r), Settled(t), all);
    hide Attempt, Steady, Settled, Agree, Same;
    AgreeBack(Attempt(r, all), Attempt(t, all));
    AgreeTransitive(Attempt(Settled(r), all), Attempt(Settled(t), all), Attempt(t, all));
    AgreeTransitive(Attempt(Settled(r), all), Attempt(t, all), Attempt(r, all));
  }

  /** A steady instruction ends the same whether or not an interrupt fires before it and pages have to be fetched. */
  lemma StruckSteady(r: Registers, mem: U.Memory, strikes: bool)
    requires Ready(r, mem) && Steady(r, mem)
    ensures Equivalent(RunToEnd(Struck(r, strikes), mem), Attempt(r, AllValid(mem)))
  {
    RestartIff(r, mem);
    SteadyExact(r, mem);
    if strikes {
      SettledAt(r, 0);
      hide Attempt, Steady, Settled, Agree;
      NoneClean(Settled(r), mem);
      RestartExact(Settled(r), mem);
      var x := RunToEnd(Settled(r), mem);
      AgreeTransitive(x.(mem := AllValid(x.mem)), Attempt(Settled(r), AllValid(mem)), Attempt(r, AllValid(mem)));
    }
  }

  lemma NoneClean(r: Registers, mem: U.Memory)
    requires U.Usable(mem) && r[LOAD_REG] == 0
    ensures Clean(r, mem)
  {
    hide Decode, U.Read;
  }

  /**
   * A steady program cannot tell demand paging, nor interrupts between its instructions, from a memory
   * that is all there.
   */
  lemma {:induction false} ProgramsCannotTell(r: Registers, t: Registers, mem: U.Memory, mem': U.Memory, strikes: seq<bool>)
    requires Ready(r, mem) && Ready(t, mem') && Same(r, t) && AllValid(mem) == AllValid(mem') && SteadyProgram(t, mem', |strikes|)
    ensures Equivalent(Paged(r, mem, strikes), Unpaged(t, mem', |strikes|))
    decreases |strikes|
  {
    hide Attempt, RunToEnd, Same, Struck, Steady;
    if strikes != [] {
      var s := Struck(r, strikes[0]);
      SteadySame(r, t, mem, mem');
      StruckSteady(r, mem, strikes[0]);
      RunToEndReady(s, mem);
      AttemptReady(t, AllValid(mem));
      SameAttempt(r, t, AllValid(mem));
      var x, y := RunToEnd(s, mem), Attempt(t, AllValid(mem'));
      AgreeTransitive(x.(mem := AllValid(x.mem)), Attempt(r, AllValid(mem)), y);
      if x.outcome == Completed {
        assert AllValid(AllValid(x.mem)) == AllValid(x.mem);
        ProgramsCannotTell(x.regs, y.regs, x.mem, y.mem, strikes[1..]);
      }
    } else {
      assert AllValid(AllValid(mem)) == AllValid(mem);
    }
  }

  lemma AllThere(r: Registers, mem: U.Memory)
    requires Ready(r, mem) && AllValid(mem) == mem
    ensures RunToEnd(r, mem) == Attempt(r, mem) && Attempt(r, mem).outcome != Faulted && AllValid(Attempt(r, mem).mem) == Attempt(r, mem).mem
  {
    AttemptFaultsOrRuns(r, mem);
    NoneInvalid(mem, Attempt(r, mem).mem);
    hide Attempt, OneMoreValid;
  }

  lemma NoneInvalid(mem: U.Memory, mem': U.Memory)
    requires AllValid(mem) == mem
    ensures !OneMoreValid(mem, mem')
  {
    assert forall p :: 0 <= p < |mem.valid| ==> mem.valid[p] == AllValid(mem).valid[p];
  }

  /** A program that is not steady can tell: one interrupt, before its first unsteady instruction, shows. */
  lemma {:induction false} UnsteadyTells(r: Registers, mem: U.Memory, n: nat) returns (strikes: seq<bool>)
    requires Ready(r, mem) && AllValid(mem) == mem && !SteadyProgram(r, mem, n)
    ensures |strikes| <= n && !Equivalent(Paged(r, mem, strikes), Unpaged(r, mem, |strikes|))
    decreases n
  {
    SettledAt(r, 0);
    AllThere(r, mem);
    AllThere(Settled(r), mem);
    SteadyExact(r, mem);
    AttemptReady(r, mem);
    AttemptReady(Settled(r), mem);
    hide Attempt, RunToEnd, Settled, Steady;
    if Steady(r, mem) {
      var x := Attempt(r, mem);
      var more := UnsteadyTells(x.regs, x.mem, n - 1);
      strikes := [false] + more;
      assert strikes[1..] == more;
    } else {
      strikes := [true];
    }
  }

  /**
   * Whole programs, exactly: over n instructions no pattern of interrupts shows at any point if and only if
   * every instruction the program runs is steady.
   */
  lemma ProgramsIff(r: Registers, mem: U.Memory, n: nat)
    requires Ready(r, mem)
    ensures Ready(r, AllValid(mem))
    ensures (forall strikes: seq<bool> :: |strikes| <= n ==> Equivalent(Paged(r, AllValid(mem), strikes), Unpaged(r, AllValid(mem), |strikes|))) <==>
            SteadyProgram(r, AllValid(mem), n)
  {
    var all := AllValid(mem);
    assert AllValid(all) == all;
    if SteadyProgram(r, all, n) {
      forall strikes: seq<bool> | |strikes| <= n ensures Equivalent(Paged(r, all, strikes), Unpaged(r, all, |strikes|)) {
        SteadyShorter(r, all, n, |strikes|);
        ProgramsCannotTell(r, r, all, all, strikes);
      }
    } else {
      var strikes := UnsteadyTells(r, all, n);
    }
  }

  lemma {:induction false} SteadyShorter(r: Registers, mem: U.Memory, n: nat, m: nat)
    requires Ready(r, mem) && SteadyProgram(r, mem, n) && m <= n
    ensures SteadyProgram(r, mem, m)
    decreases m
  {
    hide Attempt, Steady;
    if m > 0 {
      AttemptReady(r, AllValid(mem));
      var x := Attempt(r, AllValid(mem));
      if x.outcome == Completed {
        SteadyShorter(x.regs, x.mem, n - 1, m - 1);
      }
    }
  }

  // ---- what it takes to be harmless, kind by kind ----

  /** An instruction that leaves memory alone is harmless by its writes or by its trap. */
  lemma WritesHarmless(i: Instruction, r: Registers, mem: U.Memory)
    requires Ready(r, mem) && i.rs < 32 && i.rt < 32 && i.rd < 32 && KindOf(i.op) != Accesses
    ensures var a, b := ActOn(i, r), ActOn(i, Settled(r)); Harmless(i, r, mem) <==>
      if a.Finish? && b.Finish? then SameWrites(r, a, b) else a.Stop? && b.Stop? && a.trap == b.trap
  {
    SettledAlike(i, r);
    NoAccess(i, r[i.rs], r[i.rt], r[HI], r[LO], r[NEXT_PC]);
    hide Act, Settled, SameWrites, Base;
  }

  lemma NoAccess(i: Instruction, a: Word, b: Word, hi: Word, lo: Word, next: Word)
    requires KindOf(i.op) != Accesses
    ensures var act := Act(i, a, b, hi, lo, next); act.Finish? || act.Stop?
  {
    hide And, Or, Xor, Not, ShiftLeft, ShiftRight, Add, Sub, Negative, Quotient, Remainder, Signed, ToWord,
         Low16, Branch, Flag, High, ValueOf, Overflows;
  }

  /** Arithmetic, logic and shifts: the same overflow, and the value the delay slot would have left. */
  lemma ComputesHarmless(i: Instruction, r: Registers, mem: U.Memory)
    requires Ready(r, mem) && i.rs < 32 && i.rt < 32 && i.rd < 32 && KindOf(i.op) == Computes
    ensures var t := Settled(r); Harmless(i, r, mem) <==>
      && Overflows(i, r[i.rs], r[i.rt]) == Overflows(i, t[i.rs], t[i.rt])
      && (Overflows(i, r[i.rs], r[i.rt]) || Target(i) == 0 || ValueOf(i, t[i.rs], t[i.rt]) == Left(r, Target(i), ValueOf(i, r[i.rs], r[i.rt])))
  {
    WritesHarmless(i, r, mem);
    SettledAt(r, NEXT_PC);
    var a, b := ActOn(i, r), ActOn(i, Settled(r));
    hide ValueOf, Overflows, Target, Settled, Jump, Access, UseHiLo, Left, Harmless;
    if a.Finish? && b.Finish? {
      assert Target(i) in a.writes;
    }
  }

  /** Jumps and branches: the same way taken, and a link register that is not pending, or is with the same value. */
  lemma JumpsHarmless(i: Instruction, r: Registers, mem: U.Memory)
    requires Ready(r, mem) && i.rs < 32 && i.rt < 32 && i.rd < 32 && KindOf(i.op) == Jumps
    ensures var t := Settled(r);
      var a, b := Jump(i, r[i.rs], r[i.rt], r[NEXT_PC]), Jump(i, t[i.rs], t[i.rt], r[NEXT_PC]);
      && a.Finish? && b.Finish?
      && (Harmless(i, r, mem) <==> a.pcAfter == b.pcAfter && (Target(i) == 0 || Left(r, Target(i), Add(r[NEXT_PC], 4)) == Add(r[NEXT_PC], 4)))
  {
    WritesHarmless(i, r, mem);
    SettledAt(r, NEXT_PC);
    JumpWrites(i, r[i.rs], r[i.rt], r[NEXT_PC]);
    JumpWrites(i, Settled(r)[i.rs], Settled(r)[i.rt], r[NEXT_PC]);
    hide Jump, Target, Settled, Access, UseHiLo, Compute, Left, Harmless;
  }

  lemma JumpWrites(i: Instruction, a: Word, b: Word, next: Word)
    requires KindOf(i.op) == Jumps
    ensures var act := Jump(i, a, b, next); act.Finish? && forall k :: k in act.writes && 0 < k ==> k == Target(i) && act.writes[k] == Add(next, 4)
    ensures Target(i) != 0 ==> Target(i) in Jump(i, a, b, next).writes
  {
    hide And, Or, ShiftLeft, Branch, Negative, Signed;
  }

  /** MFHI and MFLO: a target that is not pending, or is with the same value. */
  lemma MoveFromHarmless(i: Instruction, r: Registers, mem: U.Memory)
    requires Ready(r, mem) && i.rs < 32 && i.rt < 32 && i.rd < 32 && (i.op == MFHI || i.op == MFLO)
    ensures var value := r[if i.op == MFHI then HI else LO];
      Harmless(i, r, mem) <==> i.rd == 0 || Left(r, i.rd, value) == value
  {
    WritesHarmless(i, r, mem);
    SettledAt(r, NEXT_PC);
    SettledAt(r, HI);
    SettledAt(r, LO);
    hide Settled, Harmless, Left;
    assert i.rd in ActOn(i, r).writes;
  }

  /** The other instructions on HI and LO: the same product, quotient or operand. */
  lemma HiLoHarmless(i: Instruction, r: Registers, mem: U.Memory)
    requires Ready(r, mem) && i.rs < 32 && i.rt < 32 && i.rd < 32 && KindOf(i.op) == UsesHiLo && i.op != MFHI && i.op != MFLO
    ensures var t := Settled(r);
      Harmless(i, r, mem) <==> UseHiLo(i, r[i.rs], r[i.rt], r[HI], r[LO], 0) == UseHiLo(i, t[i.rs], t[i.rt], r[HI], r[LO], 0)
  {
    var t := Settled(r);
    WritesHarmless(i, r, mem);
    SettledAt(r, NEXT_PC);
    SettledAt(r, HI);
    SettledAt(r, LO);
    HiLoWrites(i, r[i.rs], r[i.rt], r[HI], r[LO], Add(r[NEXT_PC], 4));
    HiLoWrites(i, t[i.rs], t[i.rt], r[HI], r[LO], Add(r[NEXT_PC], 4));
    var a, b := ActOn(i, r), ActOn(i, t);
    assert a == UseHiLo(i, r[i.rs], r[i.rt], r[HI], r[LO], Add(r[NEXT_PC], 4));
    assert b == UseHiLo(i, t[i.rs], t[i.rt], r[HI], r[LO], Add(r[NEXT_PC], 4));
    hide UseHiLo, Act, ActOn, Settled, Harmless;
    SettledAlike(i, r);
    if SameWrites(r, a, b) {
      assert a.writes == b.writes;
    }
  }

  lemma HiLoWrites(i: Instruction, a: Word, b: Word, hi: Word, lo: Word, after: Word)
    requires KindOf(i.op) == UsesHiLo && i.op != MFHI && i.op != MFLO
    ensures var act := UseHiLo(i, a, b, hi, lo, after);
      && act.Finish? && act.pcAfter == after && act.writes.Keys <= {HI, LO}
      && UseHiLo(i, a, b, hi, lo, 0) == Finish(act.writes, 0)
  {
    hide Quotient, Remainder, High, ToWord, Signed;
  }

  /** SUBU of a register from itself restarts exactly even where it reads the pending register. */
  lemma SelfDifferenceHarmless(i: Instruction, r: Registers, mem: U.Memory)
    requires Ready(r, mem) && i.rs == i.rt < 32 && i.rd < 32 && i.op == SUBU && i.rd != r[LOAD_REG]
    ensures Harmless(i, r, mem)
  {
    hide Harmless, Settled;
    ComputesHarmless(i, r, mem);
  }

  // ---- an instruction that reads the pending register, and one that writes it ----

  /** One page holding one instruction, not yet faulted in, and 5 about to be loaded into register 8. */
  function OnePage(code: seq<Byte>, valid: bool): U.Memory {
    U.Memory(4, code, [valid], [false])
  }

  function Pending(): Registers {
    seq(NUM_REGS, k => if k == LOAD_REG then 8 else if k == LOAD_VALUE then 5 else 0)
  }

  lemma FetchOnePage(code: seq<Byte>, valid: bool)
    requires |code| == 4
    ensures U.Read(OnePage(code, valid), 0, 4) ==
            (OnePage(code, true), if valid then U.Value(U.Decode(code)) else U.Faulted)
  {
    assert code[0..4] == code && U.PageOf(0, 4) == 0;
    assert [valid][0 := true] == [true];
  }

  lemma FaultsOnce(code: seq<Byte>)
    requires |code| == 4
    ensures Ready(Pending(), OnePage(code, false)) && Ready(Raise(Pending(), 0), OnePage(code, true))
    ensures Attempt(Pending(), OnePage(code, false)) == Result(Raise(Pending(), 0), OnePage(code, true), Faulted)
    ensures AllValid(OnePage(code, false)) == OnePage(code, true)
  {
    FetchOnePage(code, false);
  }

  /** What a computing instruction and the load pending before it leave in the general registers. */
  lemma ComputeStep(i: Instruction, r: Registers, mem: U.Memory)
    requires Ready(r, mem) && i.rs < 32 && i.rt < 32 && i.rd < 32
    requires KindOf(i.op) == Computes && !Overflows(i, r[i.rs], r[i.rt])
    ensures var x := Perform(i, r, mem); x.outcome == Completed && forall k :: 0 < k < 32 ==>
      x.regs[k] == if k == r[LOAD_REG] then r[LOAD_VALUE] else if k == Target(i) then ValueOf(i, r[i.rs], r[i.rt]) else r[k]
  {
    ActShape(i, r[i.rs], r[i.rt], r[HI], r[LO], r[NEXT_PC]);
    hide ValueOf, Overflows, Target, Jump, Access, UseHiLo, PerformLoad, PerformStore;
  }

  /** The instruction on the page, run directly and after the fault. */
  lemma OneInstructionPage(code: seq<Byte>, i: Instruction)
    requires |code| == 4 && Decode(U.Decode(code)) == i && KindOf(i.op) == Computes
    requires forall a: Word, b: Word :: !Overflows(i, a, b)
    ensures Ready(Pending(), OnePage(code, false)) && Ready(Raise(Pending(), 0), OnePage(code, true))
    ensures Attempt(Pending(), AllValid(OnePage(code, false))) == Perform(i, Pending(), OnePage(code, true))
    ensures RunToEnd(Pending(), OnePage(code, false)) == Perform(i, Raise(Pending(), 0), OnePage(code, true))
  {
    hide Perform, KindOf, Overflows, Decode, U.Decode;
    FaultsOnce(code);
    FetchOnePage(code, true);
    ComputeStep(i, Raise(Pending(), 0), OnePage(code, true));
  }

  lemma CodeWords()
    ensures Decode(U.Decode([0x21, 0x48, 0x00, 0x01])) == Instruction(ADDU, 8, 0, 9, 0)
    ensures Decode(U.Decode([0x07, 0x00, 0x08, 0x24])) == Instruction(ADDIU, 0, 8, 0, 7)
  {
    assert U.Decode([0x21, 0x48, 0x00, 0x01]) == 0x0100_4821 && U.Decode([0x07, 0x00, 0x08, 0x24]) == 0x2408_0007;
    hide U.Decode;
    DecodeRegister(8, 0, 9, 0, 33);
    DecodeImmediate(9, 0, 8, 7);
    hide Signed;
  }

  lemma PendingRaised()
    ensures var r := Pending(); r[0] == 0 && r[8] == 0 && r[LOAD_REG] == 8 && r[LOAD_VALUE] == 5
    ensures var r := Raise(Pending(), 0); r[0] == 0 && r[8] == 5 && r[LOAD_REG] == 0
  {
  }

  /** ADDU r9, r8, r0 reads the register: run directly it sees 0, after a fault it sees 5. */
  lemma ReadingPendingDiffers() returns (code: seq<Byte>)
    ensures |code| == 4 && Ready(Pending(), OnePage(code, false))
    ensures Attempt(Pending(), AllValid(OnePage(code, false))).regs[9] == 0
    ensures RunToEnd(Pending(), OnePage(code, false)).regs[9] == 5
    ensures !Restartable(Pending(), OnePage(code, false))
  {
    hide Perform, Decode, U.Decode, Attempt, RunToEnd, Raise, Pending, OnePage, AllValid, Restartable;
    code := [0x21, 0x48, 0x00, 0x01];
    var i := Instruction(ADDU, 8, 0, 9, 0);
    CodeWords();
    PendingRaised();
    OneInstructionPage(code, i);
    ComputeStep(i, Pending(), OnePage(code, true));
    ComputeStep(i, Raise(Pending(), 0), OnePage(code, true));
    RestartIff(Pending(), OnePage(code, false));
  }

  /** ADDIU r8, r0, 7 writes the register: run directly the load wins, after a fault the instruction does. */
  lemma WritingPendingDiffers() returns (code: seq<Byte>)
    ensures |code| == 4 && Ready(Pending(), OnePage(code, false))
    ensures Attempt(Pending(), AllValid(OnePage(code, false))).regs[8] == 5
    ensures RunToEnd(Pending(), OnePage(code, false)).regs[8] == 7
    ensures !Restartable(Pending(), OnePage(code, false))
  {
    hide Perform, Decode, U.Decode, Attempt, RunToEnd, Raise, Pending, OnePage, AllValid, Restartable;
    code := [0x07, 0x00, 0x08, 0x24];
    var i := Instruction(ADDIU, 0, 8, 0, 7);
    CodeWords();
    PendingRaised();
    OneInstructionPage(code, i);
    ComputeStep(i, Pending(), OnePage(code, true));
    ComputeStep(i, Raise(Pending(), 0), OnePage(code, true));
    RestartIff(Pending(), OnePage(code, false));
  }
}
