/**
 * Whole runs: any sequence of user loads and stores, program loading, and creation and destruction
 * of address spaces, in any interleaving of any number of spaces, under any replacement policy.
 */
module PagedRuns {
  import opened Arithmetic
  import opened BitMaps
  import opened Paging
  import opened PagedMemory
  import opened PagedAccess
  import opened AddressSpaces
  import U = UserMemory

  /** The frame numbers in pick and picks are the policy's choices, should a swap need them. */
  datatype Op =
    | Load(space: nat, addr: Word, size: nat, pick: nat)
    | Store(space: nat, addr: Word, size: nat, value: Word, pick: nat)
    | NewSpace(space: nat, pages: nat)
    | LoadImage(space: nat, vpn: nat, off: nat, data: seq<Byte>)
    | Exit(space: nat, picks: seq<nat>)

  /** What the source demands of each operation: a live space, frame numbers, room in swap. */
  ghost predicate Enabled(s: VM, op: Op, ps: nat) {
    match op
    case Load(sp, addr, size, pick) => sp in s.sizes && U.Size(size) && pick < |s.frames|
    case Store(sp, addr, size, value, pick) => sp in s.sizes && U.Size(size) && pick < |s.frames|
    case NewSpace(sp, n) => sp !in s.sizes && n <= CountClear(s.swapMap)
    case LoadImage(sp, vpn, off, data) =>
      sp in s.sizes && vpn < s.sizes[sp] && Ref(sp, vpn) in s.entries && !s.entries[Ref(sp, vpn)].valid && off + |data| <= ps
    case Exit(sp, picks) => sp in s.sizes && |picks| == s.sizes[sp] && forall k :: 0 <= k < |picks| ==> picks[k] < |s.frames|
  }

  ghost predicate Ready(s: VM, ps: nat) {
    Good(s, ps) && AllMapped(s)
  }

  ghost function Step(s: VM, op: Op, ps: nat): (VM, U.Answer)
    requires Ready(s, ps) && Enabled(s, op, ps)
  {
    match op
    case Load(sp, addr, size, pick) => ReadMem(s, ps, sp, addr, size, pick)
    case Store(sp, addr, size, value, pick) => WriteMem(s, ps, sp, addr, size, value, pick)
    case NewSpace(sp, n) => (Create(s, sp, n, ps), U.Stored)
    case LoadImage(sp, vpn, off, data) => (Poke(s, Ref(sp, vpn), off, data), U.Stored)
    case Exit(sp, picks) => (Destroy(s, sp, picks, ps), U.Stored)
  }

  // ---- the reference: one private flat memory for each space ----

  type Flat = map<nat, U.Memory>

  /** The operation on private flat memories; the policy's choices play no part. */
  ghost function FlatStep(f: Flat, op: Op, ps: nat): (Flat, U.Answer) {
    match op
    case Load(sp, addr, size, _) =>
      if sp in f && U.Usable(f[sp]) && U.Size(size) then
        var (m, a) := U.Read(f[sp], addr, size); (f[sp := m], a)
      else (f, U.Stored)
    case Store(sp, addr, size, value, _) =>
      if sp in f && U.Usable(f[sp]) && U.Size(size) then
        var (m, a) := U.Write(f[sp], addr, size, value); (f[sp := m], a)
      else (f, U.Stored)
    case NewSpace(sp, n) => (f[sp := Blank(n, ps)], U.Stored)
    case LoadImage(sp, vpn, off, data) =>
      (if sp in f && vpn * ps + off >= 0 then f[sp := Patch(f[sp], vpn * ps + off, data)] else f, U.Stored)
    case Exit(sp, _) => (f - {sp}, U.Stored)
  }

  lemma ViewUsable(s: VM, ps: nat, sp: nat)
    requires Ready(s, ps) && sp in s.sizes
    ensures sp in View(s, ps) && View(s, ps)[sp] == SpaceView(s, ps, sp) && U.Usable(SpaceView(s, ps, sp))
  {
    hide Coherent;
    assert Mapped(s, sp);
  }

  /** One step of paged memory is one step of the flat memories, answer included. */
  lemma StepRefines(s: VM, op: Op, ps: nat)
    requires Ready(s, ps) && Enabled(s, op, ps)
    ensures var (t, a) := Step(s, op, ps);
            Ready(t, ps) && |t.frames| == |s.frames| && (View(t, ps), a) == FlatStep(View(s, ps), op, ps)
  {
    hide Coherent, Sized, InvalidAbsent, ReadMem, WriteMem, Create, Destroy, Poke, SpaceView, Blank, View, CountClear,
         U.Read, U.Write, Patch;
    match op
    case Load(sp, addr, size, pick) =>
      ViewUsable(s, ps, sp);
      ReadMemRefines(s, ps, sp, addr, size, pick);
    case Store(sp, addr, size, value, pick) =>
      ViewUsable(s, ps, sp);
      WriteMemRefines(s, ps, sp, addr, size, value, pick);
    case NewSpace(sp, n) =>
      CreateRefines(s, sp, n, ps);
    case LoadImage(sp, vpn, off, data) =>
      ViewUsable(s, ps, sp);
      PokeRefines(s, ps, Ref(sp, vpn), off, data);
    case Exit(sp, picks) =>
      DestroyRefines(s, sp, picks, ps);
  }

  // ---- runs ----

  /** Every operation of the run is enabled when its turn comes. */
  ghost predicate Legal(s: VM, ops: seq<Op>, ps: nat)
    requires Ready(s, ps)
    decreases |ops|
  {
    ops == [] || (Enabled(s, ops[0], ps) && (StepRefines(s, ops[0], ps); Legal(Step(s, ops[0], ps).0, ops[1..], ps)))
  }

  ghost function Run(s: VM, ops: seq<Op>, ps: nat): (VM, seq<U.Answer>)
    requires Ready(s, ps) && Legal(s, ops, ps)
    decreases |ops|
  {
    if ops == [] then (s, [])
    else
      StepRefines(s, ops[0], ps);
      var (t, a) := Step(s, ops[0], ps);
      var (u, rest) := Run(t, ops[1..], ps);
      (u, [a] + rest)
  }

  ghost function FlatRun(f: Flat, ops: seq<Op>, ps: nat): (Flat, seq<U.Answer>)
    decreases |ops|
  {
    if ops == [] then (f, [])
    else
      var (g, a) := FlatStep(f, ops[0], ps);
      var (h, rest) := FlatRun(g, ops[1..], ps);
      (h, [a] + rest)
  }

  /**
   * Paging is invisible: over every run, every answer and every final byte is the one that private
   * flat memories give.
   */
  lemma {:induction false} PagingInvisible(s: VM, ops: seq<Op>, ps: nat)
    requires Ready(s, ps) && Legal(s, ops, ps)
    ensures var (t, answers) := Run(s, ops, ps);
            Ready(t, ps) && (View(t, ps), answers) == FlatRun(View(s, ps), ops, ps)
    decreases |ops|
  {
    hide Ready, Enabled, View, FlatStep, Step;
    if ops != [] {
      StepRefines(s, ops[0], ps);
      PagingInvisible(Step(s, ops[0], ps).0, ops[1..], ps);
    }
  }

  /** The same operation, whatever the policy picked for it. */
  function Unpicked(op: Op): Op {
    match op
    case Load(sp, addr, size, _) => Load(sp, addr, size, 0)
    case Store(sp, addr, size, value, _) => Store(sp, addr, size, value, 0)
    case Exit(sp, _) => Exit(sp, [])
    case _ => op
  }

  lemma {:induction false} PicksUnused(f: Flat, ops: seq<Op>, ops': seq<Op>, ps: nat)
    requires |ops| == |ops'| && forall i :: 0 <= i < |ops| ==> Unpicked(ops[i]) == Unpicked(ops'[i])
    ensures FlatRun(f, ops, ps) == FlatRun(f, ops', ps)
    decreases |ops|
  {
    if ops != [] {
      assert Unpicked(ops[0]) == Unpicked(ops'[0]);
      assert FlatStep(f, ops[0], ps) == FlatStep(f, ops'[0], ps);
      PicksUnused(FlatStep(f, ops[0], ps).0, ops[1..], ops'[1..], ps);
    }
  }

  /** No program can tell one replacement policy from another, or a small memory from a large one. */
  lemma PolicyInvisible(s: VM, s': VM, ops: seq<Op>, ops': seq<Op>, ps: nat)
    requires Ready(s, ps) && Ready(s', ps) && View(s, ps) == View(s', ps)
    requires |ops| == |ops'| && forall i :: 0 <= i < |ops| ==> Unpicked(ops[i]) == Unpicked(ops'[i])
    requires Legal(s, ops, ps) && Legal(s', ops', ps)
    ensures Run(s, ops, ps).1 == Run(s', ops', ps).1
  {
    hide Coherent, View, FlatRun, Legal, Run, Unpicked;
    PagingInvisible(s, ops, ps);
    PagingInvisible(s', ops', ps);
    PicksUnused(View(s, ps), ops, ops', ps);
  }

  // ---- isolation ----

  function Mine(sp: nat, ops: seq<Op>): seq<Op> {
    if ops == [] then [] else (if ops[0].space == sp then [ops[0]] else []) + Mine(sp, ops[1..])
  }

  function MyAnswers(sp: nat, ops: seq<Op>, answers: seq<U.Answer>): seq<U.Answer>
    requires |ops| == |answers|
  {
    if ops == [] then [] else (if ops[0].space == sp then [answers[0]] else []) + MyAnswers(sp, ops[1..], answers[1..])
  }

  lemma {:induction false} FlatRunLength(f: Flat, ops: seq<Op>, ps: nat)
    ensures |FlatRun(f, ops, ps).1| == |ops|
    decreases |ops|
  {
    if ops != [] {
      FlatRunLength(FlatStep(f, ops[0], ps).0, ops[1..], ps);
    }
  }

  ghost predicate AgreeOn(sp: nat, f: Flat, g: Flat) {
    (sp in f <==> sp in g) && (sp in f ==> f[sp] == g[sp])
  }

  lemma StepAgrees(sp: nat, f: Flat, g: Flat, op: Op, ps: nat)
    requires AgreeOn(sp, f, g)
    ensures op.space == sp ==> AgreeOn(sp, FlatStep(f, op, ps).0, FlatStep(g, op, ps).0) && FlatStep(f, op, ps).1 == FlatStep(g, op, ps).1
    ensures op.space != sp ==> AgreeOn(sp, FlatStep(f, op, ps).0, g)
  {
  }

  lemma {:induction false} FlatIsolation(sp: nat, f: Flat, g: Flat, ops: seq<Op>, ps: nat)
    requires AgreeOn(sp, f, g)
    ensures |FlatRun(f, ops, ps).1| == |ops|
    ensures MyAnswers(sp, ops, FlatRun(f, ops, ps).1) == FlatRun(g, Mine(sp, ops), ps).1
    decreases |ops|
  {
    FlatRunLength(f, ops, ps);
    hide FlatStep;
    if ops != [] {
      var op, rest := ops[0], ops[1..];
      StepAgrees(sp, f, g, op, ps);
      var (f', a) := FlatStep(f, op, ps);
      assert FlatRun(f, ops, ps).1[1..] == FlatRun(f', rest, ps).1;
      if op.space == sp {
        FlatIsolation(sp, f', FlatStep(g, op, ps).0, rest, ps);
        assert Mine(sp, ops)[1..] == Mine(sp, rest);
      } else {
        FlatIsolation(sp, f', g, rest, ps);
        assert Mine(sp, ops) == Mine(sp, rest);
      }
    }
  }

  /**
   * Isolation: the answers a space gets are those it would get with the machine to itself, whatever
   * the other spaces do and whatever of its pages they cause to be evicted.
   */
  lemma Isolation(s: VM, ops: seq<Op>, ps: nat, sp: nat)
    requires Ready(s, ps) && Legal(s, ops, ps)
    ensures |Run(s, ops, ps).1| == |ops|
    ensures MyAnswers(sp, ops, Run(s, ops, ps).1) == FlatRun(View(s, ps), Mine(sp, ops), ps).1
  {
    hide Coherent, View, Legal, Run;
    PagingInvisible(s, ops, ps);
    FlatIsolation(sp, View(s, ps), View(s, ps), ops, ps);
  }

  // ---- the start ----

  lemma BootReady(numFrames: nat, swapSize: nat, ps: nat)
    requires 0 < numFrames && 0 < ps && ps % 4 == 0
    ensures Ready(Boot(numFrames, swapSize, ps), ps) && View(Boot(numFrames, swapSize, ps), ps) == map[]
  {
  }
}
