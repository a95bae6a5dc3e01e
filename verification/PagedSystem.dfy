/**
 * The whole object at work: any sequence of requests served by the VMManager object with its own
 * bitmaps, arrays and FIFO or LRU queue gives the answers of private flat memories.
 */
module PagedSystem {
  import opened Arithmetic
  import opened BitMaps
  import opened Paging
  import opened PagedMemory
  import opened PagedAccess
  import opened AddressSpaces
  import opened PagedRuns
  import opened PageStores
  import opened VmManager
  import PagedHistory
  import opened PagedMachine
  import Replacement
  import U = UserMemory

  /** What a request needs, in terms of what programs see and of the free swap pages. */
  ghost predicate Allowed(f: Flat, free: nat, op: Op, ps: nat) {
    match op
    case Load(sp, _, size, _) => sp in f && U.Size(size)
    case Store(sp, _, size, _, _) => sp in f && U.Size(size)
    case NewSpace(sp, n) => sp !in f && n <= free
    case LoadImage(sp, vpn, off, data) => sp in f && vpn < |f[sp].valid| && !f[sp].valid[vpn] && off + |data| <= ps
    case Exit(sp, _) => sp in f
  }

  ghost function FreeAfter(f: Flat, free: nat, op: Op, ps: nat): nat
    requires Allowed(f, free, op, ps)
  {
    match op
    case NewSpace(_, n) => free - n
    case Exit(sp, _) => free + |f[sp].valid|
    case _ => free
  }

  ghost predicate AllAllowed(f: Flat, free: nat, ops: seq<Op>, ps: nat)
    decreases |ops|
  {
    ops == [] || (Allowed(f, free, ops[0], ps) && AllAllowed(FlatStep(f, ops[0], ps).0, FreeAfter(f, free, ops[0], ps), ops[1..], ps))
  }

  /** The operation as it was carried out: the picks are those the policy of the object made. */
  ghost predicate Carried(s: VM, t: VM, op: Op, op': Op, a: U.Answer, ps: nat) {
    Ready(s, ps) && Unpicked(op') == Unpicked(op) && Enabled(s, op', ps) && (t, a) == Step(s, op', ps)
  }

  lemma ViewFacts(s: VM, ps: nat, sp: nat)
    requires Ready(s, ps) && sp in s.sizes
    ensures Mapped(s, sp) && View(s, ps)[sp] == SpaceView(s, ps, sp) && |SpaceView(s, ps, sp).valid| == s.sizes[sp]
    ensures forall v: nat :: v < s.sizes[sp] ==> Ref(sp, v) in s.entries && SpaceView(s, ps, sp).valid[v] == s.entries[Ref(sp, v)].valid
  {
    hide Coherent, Pages;
    assert Mapped(s, sp);
  }

  /** A piece of an image, inside a page that has not faulted in. */
  method WriteImage(vm: VMManager, r: Ref, off: nat, data: seq<Byte>)
    requires Stable(vm) && CanPoke(vm.State(), vm.pageSize, r, off, |data|)
    modifies vm.swapFile.bytes, vm.diskBuffer
    ensures Stable(vm) && vm.State() == Poke(old(vm.State()), r, off, data)
  {
    hide Coherent, Replacement.Agrees, Replacement.ReplacementQueue.Logged, BitsOf, PageStore.Pages, Sized, InvalidAbsent, TablesComplete, Poke;
    PokeGood(vm.State(), vm.pageSize, r, off, data);
    ReadAt(data, vm.diskBuffer, |data|, 0);
    assert data[0..0 + |data|] == data;
    EntryOwnsPage(vm.State(), r);
    vm.WritePage(r, off, |data|);
  }

  method Serve(vm: VMManager, op: Op) returns (a: U.Answer, ghost op': Op)
    requires Stable(vm) && Allowed(View(vm.State(), vm.pageSize), CountClear(vm.swapMap.Bits()), op, vm.pageSize)
    modifies vm, vm.mainMemory.bytes, vm.swapFile.bytes, vm.diskBuffer, vm.activePageMap, vm.activePages,
             vm.policy, vm.policy.queue, vm.memMgr.words, vm.swapMap.words
    ensures Stable(vm) && Carried(old(vm.State()), vm.State(), op, op', a, vm.pageSize)
  {
    hide Coherent, Replacement.Agrees, Replacement.ReplacementQueue.Logged, BitsOf, PageStore.Pages, CountClear, Sized, InvalidAbsent, TablesComplete,
         SpaceView, Create, Destroy, ReadMem, WriteMem, Poke, ValidBits, ReadOnlyBits;
    ghost var s, ps := vm.State(), vm.pageSize;
    match op
    case Load(sp, addr, size, _) =>
      op' := Load(sp, addr, size, vm.Pick());
      a := ReadWord(vm, sp, addr, size);
    case Store(sp, addr, size, value, _) =>
      op' := Store(sp, addr, size, value, vm.Pick());
      a := WriteWord(vm, sp, addr, size, value);
    case NewSpace(sp, n) =>
      op', a := op, U.Stored;
      CreateSpace(vm, sp, n);
    case LoadImage(sp, vpn, off, data) =>
      ViewFacts(s, ps, sp);
      op', a := op, U.Stored;
      WriteImage(vm, Ref(sp, vpn), off, data);
    case Exit(sp, _) =>
      ghost var picks := DestroySpace(vm, sp);
      op', a := Exit(sp, picks), U.Stored;
  }

  lemma EntryOwnsPage(s: VM, r: Ref)
    requires Coherent(s) && r in s.entries
    ensures s.entries[r].page < |s.swap|
  {
  }

  lemma StepFree(s: VM, op: Op, ps: nat)
    requires Ready(s, ps) && Enabled(s, op, ps) && Allowed(View(s, ps), CountClear(s.swapMap), op, ps)
    ensures CountClear(Step(s, op, ps).0.swapMap) == FreeAfter(View(s, ps), CountClear(s.swapMap), op, ps)
  {
    hide Coherent, Sized, InvalidAbsent, ReadMem, WriteMem, Create, Destroy, Poke, SpaceView, Blank, CountClear, U.Read, U.Write, Patch;
    match op
    case Load(sp, addr, size, pick) => ReadMemRefines(s, ps, sp, addr, size, pick);
    case Store(sp, addr, size, value, pick) => WriteMemRefines(s, ps, sp, addr, size, value, pick);
    case NewSpace(sp, n) => CreateRefines(s, sp, n, ps);
    case LoadImage(sp, vpn, off, data) => PokeRefines(s, ps, Ref(sp, vpn), off, data);
    case Exit(sp, picks) =>
      ViewFacts(s, ps, sp);
      DestroyRefines(s, sp, picks, ps);
  }

  /** The private memory each program believes it has. */
  ghost function Seen(vm: VMManager): Flat
    requires Stable(vm)
    reads vm, vm.mainMemory, vm.mainMemory.bytes, vm.swapFile, vm.swapFile.bytes, vm.activePageMap, vm.activePages,
          vm.memMgr, vm.memMgr.words, vm.swapMap, vm.swapMap.words, vm.policy, vm.policy.queue
  {
    View(vm.State(), vm.pageSize)
  }

  ghost function FreePages(vm: VMManager): nat
    requires Stable(vm)
    reads vm, vm.mainMemory, vm.mainMemory.bytes, vm.swapFile, vm.swapFile.bytes, vm.activePageMap, vm.activePages,
          vm.memMgr, vm.memMgr.words, vm.swapMap, vm.swapMap.words, vm.policy, vm.policy.queue
  {
    CountClear(vm.swapMap.Bits())
  }

  /** One request, in the terms of the flat memories. */
  method Answer(vm: VMManager, op: Op) returns (a: U.Answer)
    requires Stable(vm) && Allowed(Seen(vm), FreePages(vm), op, vm.pageSize)
    modifies vm, vm.mainMemory.bytes, vm.swapFile.bytes, vm.diskBuffer, vm.activePageMap, vm.activePages,
             vm.policy, vm.policy.queue, vm.memMgr.words, vm.swapMap.words
    ensures Stable(vm) && (Seen(vm), a) == FlatStep(old(Seen(vm)), op, vm.pageSize)
    ensures FreePages(vm) == FreeAfter(old(Seen(vm)), old(FreePages(vm)), op, vm.pageSize)
    ensures PagedHistory.Means(old(Seen(vm)), op, vm.pageSize, Seen(vm), a)
  {
    hide Coherent, Replacement.Agrees, Replacement.ReplacementQueue.Logged, BitsOf, PageStore.Pages, CountClear, View, Good, Allowed, FlatStep, FreeAfter,
         Enabled, Step, Unpicked, PagedHistory.Means;
    ghost var s, ps := vm.State(), vm.pageSize;
    ghost var op';
    a, op' := Serve(vm, op);
    StepRefines(s, op', ps);
    PicksDoNotMatter(View(s, ps), CountClear(s.swapMap), op, op', ps);
    StepFree(s, op', ps);
    PagedHistory.StepMeans(s, op', ps);
    MeansTheSame(View(s, ps), op, op', ps, View(vm.State(), ps), a);
  }

  lemma SeenUsable(vm: VMManager, sp: nat)
    requires Stable(vm) && sp in Seen(vm)
    ensures U.Usable(Seen(vm)[sp]) && U.WellFormed(Seen(vm)[sp])
  {
    hide Coherent, Pages;
    ViewFacts(vm.State(), vm.pageSize, sp);
    SpaceWellFormed(vm.State(), vm.pageSize, sp);
  }

  /** ReadMem for the program in space sp: its flat memory answers, the others stay as they are. */
  method ReadFlat(vm: VMManager, sp: nat, addr: Word, size: nat) returns (a: U.Answer)
    requires Stable(vm) && sp in Seen(vm) && U.Usable(Seen(vm)[sp]) && U.Size(size)
    modifies vm, vm.mainMemory.bytes, vm.swapFile.bytes, vm.diskBuffer, vm.activePageMap, vm.activePages, vm.policy, vm.policy.queue, vm.memMgr.words
    ensures Stable(vm) && a == U.Read(old(Seen(vm))[sp], addr, size).1
    ensures Seen(vm) == old(Seen(vm))[sp := U.Read(old(Seen(vm))[sp], addr, size).0]
    ensures U.WellFormed(old(Seen(vm))[sp]) && U.ReadsAs(old(Seen(vm))[sp], addr, size, Seen(vm)[sp], a)
  {
    SeenUsable(vm, sp);
    U.ReadExact(Seen(vm)[sp], addr, size);
    hide Coherent, Replacement.Agrees, Replacement.ReplacementQueue.Logged, BitsOf, PageStore.Pages, SpaceView, Good, U.Read, ReadMem, U.ReadsAs, U.WellFormed;
    ghost var s, ps, op := vm.State(), vm.pageSize, Load(sp, addr, size, vm.Pick());
    assert sp in s.sizes;
    a := ReadWord(vm, sp, addr, size);
    StepRefines(s, op, ps);
  }

  method WriteFlat(vm: VMManager, sp: nat, addr: Word, size: nat, value: Word) returns (a: U.Answer)
    requires Stable(vm) && sp in Seen(vm) && U.Usable(Seen(vm)[sp]) && U.Size(size)
    modifies vm, vm.mainMemory.bytes, vm.swapFile.bytes, vm.diskBuffer, vm.activePageMap, vm.activePages, vm.policy, vm.policy.queue, vm.memMgr.words
    ensures Stable(vm) && a == U.Write(old(Seen(vm))[sp], addr, size, value).1
    ensures Seen(vm) == old(Seen(vm))[sp := U.Write(old(Seen(vm))[sp], addr, size, value).0]
    ensures U.WellFormed(old(Seen(vm))[sp]) && U.WritesAs(old(Seen(vm))[sp], addr, size, value, Seen(vm)[sp], a)
  {
    SeenUsable(vm, sp);
    U.WriteExact(Seen(vm)[sp], addr, size, value);
    hide Coherent, Replacement.Agrees, Replacement.ReplacementQueue.Logged, BitsOf, PageStore.Pages, SpaceView, Good, U.Write, WriteMem, U.WritesAs, U.WellFormed;
    ghost var s, ps, op := vm.State(), vm.pageSize, Store(sp, addr, size, value, vm.Pick());
    assert sp in s.sizes;
    a := WriteWord(vm, sp, addr, size, value);
    StepRefines(s, op, ps);
  }

  /**
   * Every run of requests, each allowed when its turn comes, is answered by the object as private flat
   * memories would answer it, and leaves every program seeing what those memories then hold.
   */
  method Execute(vm: VMManager, ops: seq<Op>) returns (answers: seq<U.Answer>)
    requires Stable(vm) && AllAllowed(Seen(vm), FreePages(vm), ops, vm.pageSize)
    modifies vm, vm.mainMemory.bytes, vm.swapFile.bytes, vm.diskBuffer, vm.activePageMap, vm.activePages,
             vm.policy, vm.policy.queue, vm.memMgr.words, vm.swapMap.words
    ensures Stable(vm) && (Seen(vm), answers) == FlatRun(old(Seen(vm)), ops, vm.pageSize)
  {
    hide Stable, Seen, FreePages, Allowed, FlatStep, FreeAfter;
    ghost var f, ps := Seen(vm), vm.pageSize;
    answers := [];
    assert ops[0..] == ops;
    for i := 0 to |ops|
      invariant Stable(vm) && AllAllowed(Seen(vm), FreePages(vm), ops[i..], ps)
      invariant var run := FlatRun(Seen(vm), ops[i..], ps); run.0 == FlatRun(f, ops, ps).0 && answers + run.1 == FlatRun(f, ops, ps).1
    {
      assert ops[i..][1..] == ops[i + 1..];
      var a := Answer(vm, ops[i]);
      answers := answers + [a];
    }
    assert answers + [] == answers;
  }

  lemma PicksDoNotMatter(f: Flat, free: nat, op: Op, op': Op, ps: nat)
    requires Unpicked(op) == Unpicked(op') && Allowed(f, free, op, ps)
    ensures Allowed(f, free, op', ps) && FreeAfter(f, free, op', ps) == FreeAfter(f, free, op, ps)
    ensures FlatStep(f, op', ps) == FlatStep(f, op, ps)
  {
  }

  lemma MeansTheSame(f: Flat, op: Op, op': Op, ps: nat, g: Flat, a: U.Answer)
    requires Unpicked(op) == Unpicked(op') && PagedHistory.Means(f, op', ps, g, a)
    ensures PagedHistory.Means(f, op, ps, g, a)
  {
    hide U.ReadsAs, U.WritesAs, U.WellFormed, PagedHistory.Fresh, PagedHistory.Holding;
  }
}
