/**
 * Several user programs on one machine.  Machine::Run gives a program one attempt at its next
 * instruction after another; interrupts fire between attempts, and with them the processor may pass to
 * another program.  Whatever the order, each program gets on as if it were alone with a flat memory.
 */
module Multiprogramming {
  import opened Arithmetic
  import opened Processor
  import opened Restarts
  import BitMaps
  import M = Machine
  import PagedMachine
  import S = PagedSystem
  import U = UserMemory

  // ---- one program and its turns ----

  /** It has neither trapped to the kernel nor brought the simulator down. */
  predicate Going(x: Result) {
    x.outcome == Completed || x.outcome == Faulted
  }

  /** An attempt at the next instruction, with an interrupt before it or not. */
  ghost function Turn(x: Result, strikes: bool): Result
    requires Ready(x.regs, x.mem)
  {
    if Going(x) then Attempt(Struck(x.regs, strikes), x.mem) else x
  }

  lemma TurnReady(x: Result, strikes: bool)
    requires Ready(x.regs, x.mem)
    ensures var y := Turn(x, strikes); Ready(y.regs, y.mem)
  {
    hide Attempt;
    AttemptReady(Struck(x.regs, strikes), x.mem);
  }

  ghost function Turns(x: Result, strikes: seq<bool>): (y: Result)
    requires Ready(x.regs, x.mem)
    ensures Ready(y.regs, y.mem)
    decreases |strikes|
  {
    if strikes == [] then x
    else
      var before := Turns(x, strikes[..|strikes| - 1]);
      TurnReady(before, strikes[|strikes| - 1]);
      Turn(before, strikes[|strikes| - 1])
  }

  lemma {:induction false} UnpagedReady(r: Registers, mem: U.Memory, n: nat)
    requires Ready(r, mem)
    ensures var y := Unpaged(r, mem, n); Ready(y.regs, y.mem) && AllValid(y.mem) == y.mem
    decreases n
  {
    hide Attempt;
    assert AllValid(AllValid(mem)) == AllValid(mem);
    if n > 0 {
      AttemptReady(r, AllValid(mem));
      AllThere(r, AllValid(mem));
      var x := Attempt(r, AllValid(mem));
      if x.outcome == Completed {
        UnpagedReady(x.regs, x.mem, n - 1);
      }
    }
  }

  /** One instruction more, at the end of the run. */
  lemma {:induction false} UnpagedNext(r: Registers, mem: U.Memory, n: nat)
    requires Ready(r, mem)
    ensures var y := Unpaged(r, mem, n); Ready(y.regs, y.mem) && AllValid(y.mem) == y.mem
    ensures var y := Unpaged(r, mem, n); Unpaged(r, mem, n + 1) == if y.outcome == Completed then Attempt(y.regs, y.mem) else y
    decreases n
  {
    hide Attempt;
    UnpagedReady(r, mem, n);
    AttemptReady(r, AllValid(mem));
    assert AllValid(AllValid(mem)) == AllValid(mem);
    AllThere(r, AllValid(mem));
    hide AllValid, Ready;
    var x := Attempt(r, AllValid(mem));
    if x.outcome == Completed {
      if n == 0 {
        assert Unpaged(x.regs, x.mem, 0) == x;
      } else {
        UnpagedNext(x.regs, x.mem, n - 1);
      }
    }
  }

  lemma {:induction false} SteadyNext(r: Registers, mem: U.Memory, n: nat)
    requires Ready(r, mem) && SteadyProgram(r, mem, n + 1) && Unpaged(r, mem, n).outcome == Completed
    ensures var y := Unpaged(r, mem, n); Ready(y.regs, y.mem) && Steady(y.regs, y.mem)
    decreases n
  {
    hide Attempt, Steady;
    UnpagedReady(r, mem, n);
    AttemptReady(r, AllValid(mem));
    if n == 0 {
      SteadyAllThere(r, mem);
    } else {
      hide AllValid, Ready;
      var x := Attempt(r, AllValid(mem));
      SteadyNext(x.regs, x.mem, n - 1);
    }
  }

  lemma SteadyAllThere(r: Registers, mem: U.Memory)
    requires Ready(r, mem) && Steady(r, mem)
    ensures Ready(r, AllValid(mem)) && Steady(r, AllValid(mem))
  {
    hide U.Read, Harmless;
    assert AllValid(AllValid(mem)) == AllValid(mem);
  }

  /** What a program may be found at: an instruction just ended, or one that faulted with its load applied. */
  ghost predicate Midway(x: Result, y: Result) {
    if x.outcome == Faulted then y.outcome == Completed && AllValid(x.mem) == y.mem && y.regs[LOAD_REG] < 32 && Same(x.regs, Settled(y.regs))
    else Agree(x.(mem := AllValid(x.mem)), y)
  }

  /** A turn taken where the last instruction has ended or faulted. */
  lemma TurnMidway(x: Result, y: Result, strikes: bool)
    requires Ready(x.regs, x.mem) && Ready(y.regs, y.mem) && AllValid(y.mem) == y.mem
    requires Going(x) && y.outcome == Completed && Midway(x, y) && Steady(y.regs, y.mem)
    ensures var z := Turn(x, strikes); if z.outcome == Faulted then Midway(z, y) else Midway(z, Attempt(y.regs, y.mem))
  {
    var s, all := Struck(x.regs, strikes), y.mem;
    NextSame(x, y, strikes);
    SteadyExact(y.regs, y.mem);
    AttemptFaultsOrRuns(s, x.mem);
    var z := Attempt(s, x.mem);
    if Same(s, y.regs) {
      SameAttempt(s, y.regs, all);
    } else {
      SettledSane(y.regs);
      SameAttempt(s, Settled(y.regs), all);
    }
    hide Attempt, Agree, Steady, Same;
    if z.outcome == Faulted {
      FaultMidway(s, y.regs, z.regs[BAD_VADDR]);
    } else if !Same(s, y.regs) {
      AgreeTransitive(Attempt(s, all), Attempt(Settled(y.regs), all), Attempt(y.regs, all));
    }
  }

  lemma SettledSane(r: Registers)
    requires Sane(r)
    ensures Sane(Settled(r)) && Settled(Settled(r)) == Settled(r)
  {
  }

  /** The registers a turn starts from: those of the program, its pending load applied or not. */
  lemma NextSame(x: Result, y: Result, strikes: bool)
    requires Sane(x.regs) && Sane(y.regs) && Going(x) && y.outcome == Completed && Midway(x, y)
    ensures AllValid(x.mem) == y.mem
    ensures var s := Struck(x.regs, strikes); Same(s, y.regs) || Same(s, Settled(y.regs))
  {
    SettledSane(y.regs);
    if x.outcome == Faulted {
      SettledSame(x.regs, Settled(y.regs));
    } else {
      SettledSame(x.regs, y.regs);
    }
  }

  lemma FaultMidway(s: Registers, t: Registers, bad: Word)
    requires Sane(s) && Sane(t) && (Same(s, t) || Same(s, Settled(t)))
    ensures Same(Raise(s, bad), Settled(t))
  {
    SettledSane(t);
    SettledSame(s, if Same(s, t) then t else Settled(t));
  }

  /** Turns that ended no instruction are paid for by pages that became valid. */
  ghost predicate Progress(turns: nat, n: nat, mem: U.Memory, mem': U.Memory) {
    turns + BitMaps.CountClear(mem'.valid) <= n + BitMaps.CountClear(mem.valid)
  }

  /** A turn that faults makes a page valid; another leaves the valid bits alone. */
  lemma TurnPays(x: Result, strikes: bool)
    requires Ready(x.regs, x.mem) && Going(x)
    ensures var z := Turn(x, strikes); Progress(1, if z.outcome == Faulted then 0 else 1, x.mem, z.mem)
  {
    var s := Struck(x.regs, strikes);
    AttemptFaultsOrRuns(s, x.mem);
    hide Attempt, BitMaps.CountClear, OneMoreValid;
    if Attempt(s, x.mem).outcome == Faulted {
      FaultProgress(s, x.mem);
    }
  }

  /**
   * After any number of turns, however interrupts fall, a steady program is where n of its instructions
   * leave it on a flat memory with every page in place, or has begun the next; and it gets on: each turn
   * ends an instruction or brings in a page that was not there.
   */
  lemma {:induction false} AlwaysMidway(r: Registers, mem: U.Memory, strikes: seq<bool>) returns (n: nat)
    requires Ready(r, mem) && SteadyProgram(r, mem, |strikes|)
    ensures var x := Turns(Result(r, mem, Completed), strikes);
      n <= |strikes| && Midway(x, Unpaged(r, mem, n)) && (Going(x) ==> Progress(|strikes|, n, mem, x.mem))
    decreases |strikes|
  {
    hide Turn, SteadyProgram, Steady, Attempt, Agree, BitMaps.CountClear;
    n := 0;
    if strikes == [] {
      NothingYet(r, mem);
    } else {
      var m := |strikes| - 1;
      SteadyShorter(r, mem, m + 1, m);
      n := AlwaysMidway(r, mem, strikes[..m]);
      var x, y := Turns(Result(r, mem, Completed), strikes[..m]), Unpaged(r, mem, n);
      if Going(x) {
        MidwayGoing(x, y);
        UnpagedNext(r, mem, n);
        SteadyShorter(r, mem, m + 1, n + 1);
        SteadyNext(r, mem, n);
        TurnMidway(x, y, strikes[m]);
        TurnPays(x, strikes[m]);
        if Turn(x, strikes[m]).outcome != Faulted {
          n := n + 1;
        }
      } else {
        Stopped(x, strikes[m]);
      }
    }
  }

  lemma Stopped(x: Result, strikes: bool)
    requires Ready(x.regs, x.mem) && !Going(x)
    ensures Turn(x, strikes) == x
  {
  }

  lemma MidwayGoing(x: Result, y: Result)
    requires Midway(x, y) && Going(x)
    ensures y.outcome == Completed
  {
  }

  lemma NothingYet(r: Registers, mem: U.Memory)
    requires Ready(r, mem)
    ensures Midway(Result(r, mem, Completed), Unpaged(r, mem, 0))
  {
  }

  // ---- several programs ----

  /** A turn of the program in space sp. */
  datatype Slot = Slot(sp: nat, strikes: bool)

  type Programs = map<nat, Result>

  ghost predicate Runnable(w: Programs, slots: seq<Slot>) {
    && (forall sp :: sp in w ==> Ready(w[sp].regs, w[sp].mem))
    && (forall i :: 0 <= i < |slots| ==> slots[i].sp in w)
  }

  /** A turn changes only the program that takes it. */
  ghost function TakeSlot(w: Programs, slot: Slot): (w': Programs)
    ensures w'.Keys == w.Keys && (Runnable(w, []) ==> Runnable(w', []))
  {
    if slot.sp in w && Ready(w[slot.sp].regs, w[slot.sp].mem)
    then TurnReady(w[slot.sp], slot.strikes); w[slot.sp := Turn(w[slot.sp], slot.strikes)]
    else w
  }

  /** The turns in the order of their slots. */
  ghost function RunSlots(w: Programs, slots: seq<Slot>): (w': Programs)
    requires Runnable(w, slots)
    ensures w'.Keys == w.Keys && Runnable(w', slots)
    decreases |slots|
  {
    if slots == [] then w
    else
      TakeSlot(RunSlots(w, slots[..|slots| - 1]), slots[|slots| - 1])
  }

  /** The slots that fell to one program. */
  function Own(slots: seq<Slot>, sp: nat): (strikes: seq<bool>)
    ensures |strikes| <= |slots|
    decreases |slots|
  {
    if slots == [] then []
    else
      var m := |slots| - 1;
      Own(slots[..m], sp) + if slots[m].sp == sp then [slots[m].strikes] else []
  }

  lemma {:induction false} EachAlone(w: Programs, slots: seq<Slot>, sp: nat)
    requires Runnable(w, slots) && sp in w
    ensures RunSlots(w, slots)[sp] == Turns(w[sp], Own(slots, sp))
    decreases |slots|
  {
    hide Turn;
    if slots != [] {
      var m := |slots| - 1;
      EachAlone(w, slots[..m], sp);
      var own, more := Own(slots[..m], sp), Own(slots, sp);
      if slots[m].sp == sp {
        assert more[..|more| - 1] == own && more[|more| - 1] == slots[m].strikes;
      } else {
        assert more == own;
      }
    }
  }

  /**
   * Multiprogramming over demand-paged memory: after any schedule, every steady program is where n of its
   * own instructions leave it on its own flat memory, or has begun the next, and has got on by its turns.
   */
  lemma Multiprogrammed(w: Programs, slots: seq<Slot>, sp: nat) returns (n: nat)
    requires Runnable(w, slots) && sp in w && w[sp].outcome == Completed
    requires SteadyProgram(w[sp].regs, w[sp].mem, |Own(slots, sp)|)
    ensures var x := RunSlots(w, slots)[sp];
      Midway(x, Unpaged(w[sp].regs, w[sp].mem, n)) && (Going(x) ==> Progress(|Own(slots, sp)|, n, w[sp].mem, x.mem))
  {
    hide Turns, Midway, Progress, SteadyProgram, Unpaged;
    EachAlone(w, slots, sp);
    n := AlwaysMidway(w[sp].regs, w[sp].mem, Own(slots, sp));
  }

  // ---- the machine passed from one program to another ----

  type Flat = map<nat, U.Memory>

  ghost predicate Consistent(saved: map<nat, Registers>, outcomes: map<nat, Outcome>, space: nat, seen: Flat) {
    saved.Keys == outcomes.Keys && space in saved && saved.Keys <= seen.Keys
  }

  /** Every program with its registers, be they in the machine or saved, and the memory it sees. */
  ghost function Gathered(saved: map<nat, Registers>, outcomes: map<nat, Outcome>, space: nat, regs: Registers, seen: Flat): (w: Programs)
    requires Consistent(saved, outcomes, space, seen)
    ensures w.Keys == saved.Keys && w[space] == Result(regs, seen[space], outcomes[space])
  {
    map sp | sp in saved :: Result(if sp == space then regs else saved[sp], seen[sp], outcomes[sp])
  }

  /** Saving the registers of one program and loading those of another changes no program. */
  lemma SwitchGathers(saved: map<nat, Registers>, outcomes: map<nat, Outcome>, space: nat, regs: Registers, seen: Flat, sp: nat)
    requires Consistent(saved, outcomes, space, seen) && sp in saved
    ensures var saved' := saved[space := regs];
      Consistent(saved', outcomes, sp, seen) && Gathered(saved', outcomes, sp, saved'[sp], seen) == Gathered(saved, outcomes, space, regs, seen)
  {
  }

  /** What the machine does to the running program changes no other. */
  lemma TurnGathers(saved: map<nat, Registers>, outcomes: map<nat, Outcome>, space: nat, regs: Registers, seen: Flat, x: Result)
    requires Consistent(saved, outcomes, space, seen)
    ensures var outcomes', seen' := outcomes[space := x.outcome], seen[space := x.mem];
      Consistent(saved, outcomes', space, seen') && Gathered(saved, outcomes', space, x.regs, seen') == Gathered(saved, outcomes, space, regs, seen)[space := x]
  {
  }

  class Computer {
    const machine: M.Machine
    var saved: map<nat, Registers> // userRegisters of each thread, by its address space
    var outcomes: map<nat, Outcome>

    ghost predicate Wired()
      reads this, machine, machine.registers, machine.Store()
    {
      && machine.Wired() && this !in machine.Store() && machine !in machine.Store()
      && Consistent(saved, outcomes, machine.space, S.Seen(machine.vm))
    }

    ghost function State(): (w: Programs)
      requires Wired()
      reads this, machine, machine.registers, machine.Store()
      ensures w.Keys == saved.Keys && machine.space in saved
    {
      Gathered(saved, outcomes, machine.space, machine.registers[..], S.Seen(machine.vm))
    }

    ghost predicate Valid()
      reads this, machine, machine.registers, machine.Store()
    {
      Wired() && Runnable(State(), [])
    }

    constructor (machine: M.Machine)
      requires machine.Valid()
      ensures Valid() && this.machine == machine
      ensures State() == map[machine.space := Result(machine.registers[..], machine.Memory(), Completed)]
    {
      hide PagedMachine.Stable, S.Seen;
      this.machine := machine;
      saved, outcomes := map[machine.space := machine.registers[..]], map[machine.space := Completed];
    }

    /** A program that has been loaded joins the others, with registers as InitRegisters sets them. */
    method Start(sp: nat, registers: Registers)
      requires Valid() && sp !in saved && sp in S.Seen(machine.vm) && Sane(registers)
      modifies this
      ensures Valid() && State() == old(State())[sp := Result(registers, S.Seen(machine.vm)[sp], Completed)]
    {
      hide PagedMachine.Stable, S.Seen, U.Usable;
      S.SeenUsable(machine.vm, sp);
      saved, outcomes := saved[sp := registers], outcomes[sp := Completed];
    }

    /** Scheduler::Run between user programs: SaveUserState, RestoreUserState and RestoreState. */
    method SwitchTo(sp: nat)
      requires Wired() && sp in saved
      modifies this`saved, machine`space, machine.registers
      ensures Wired() && machine.space == sp && saved.Keys == old(saved.Keys) && State() == old(State())
    {
      hide PagedMachine.Stable, S.Seen, Gathered;
      if sp == machine.space {
        return;
      }
      SwitchGathers(saved, outcomes, machine.space, machine.registers[..], S.Seen(machine.vm), sp);
      saved := saved[machine.space := machine.registers[..]];
      machine.WriteRegisters(saved[sp]);
      machine.space := sp;
    }

    /** One turn of Machine::Run for the running program. */
    method Go(strikes: bool)
      requires Valid()
      modifies this`outcomes, machine.registers, machine.Store()
      ensures Wired() && State() == TakeSlot(old(State()), Slot(machine.space, strikes))
    {
      hide PagedMachine.Stable, S.Seen, Attempt, Gathered, Struck;
      ghost var x := State()[machine.space];
      TurnGathers(saved, outcomes, machine.space, machine.registers[..], S.Seen(machine.vm), Turn(x, strikes));
      if outcomes[machine.space] == Completed || outcomes[machine.space] == Faulted {
        hide Ready;
        var outcome := machine.RunOnce(strikes);
        outcomes := outcomes[machine.space := outcome];
      }
    }

    method TakeTurn(slot: Slot)
      requires Valid() && slot.sp in saved
      modifies this, machine, machine.registers, machine.Store()
      ensures Valid() && saved.Keys == old(saved.Keys) && State() == TakeSlot(old(State()), slot)
    {
      hide TakeSlot, Wired, State, Runnable;
      SwitchTo(slot.sp);
      Go(slot.strikes);
    }

    /** Any schedule of the programs: each gets its turns and nothing else happens to it. */
    method Run(slots: seq<Slot>)
      requires Valid() && forall i :: 0 <= i < |slots| ==> slots[i].sp in saved
      modifies this, machine, machine.registers, machine.Store()
      ensures Valid() && Runnable(old(State()), slots) && State() == RunSlots(old(State()), slots)
    {
      hide TakeSlot, Wired, State;
      ghost var state := State();
      assert Runnable(state, slots);
      for k := 0 to |slots|
        invariant Valid() && saved.Keys == state.Keys && State() == RunSlots(state, slots[..k])
      {
        TakeTurn(slots[k]);
        assert slots[..k + 1][..k] == slots[..k] && slots[..k + 1][k] == slots[k];
      }
      assert slots[..|slots|] == slots;
    }
  }
}
