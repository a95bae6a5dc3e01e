/**
 * User accesses and address spaces over the VMManager object: Machine::Translate, ReadMem and
 * WriteMem, the page-fault handler, and the loops of AddrSpace.  Each method takes exactly the step
 * of modules PagedMemory and AddressSpaces, with the frame its policy would give up as the pick.
 */
module PagedMachine {
  import opened Arithmetic
  import opened BitMaps
  import opened Paging
  import opened PagedMemory
  import opened PagedAccess
  import opened AddressSpaces
  import opened PagedRuns
  import opened PageStores
  import opened VmManager
  import Replacement
  import U = UserMemory

  ghost predicate Stable(vm: VMManager)
    reads vm, vm.mainMemory, vm.mainMemory.bytes, vm.swapFile, vm.swapFile.bytes, vm.activePageMap, vm.activePages,
          vm.memMgr, vm.memMgr.words, vm.swapMap, vm.swapMap.words, vm.policy, vm.policy.queue
  {
    vm.Valid() && Ready(vm.State(), vm.pageSize)
  }

  /**
   * What an access meets: an address error unless it is aligned and ends inside the space, a fault on a page that is
   * not valid, and on a write an error if the page is read-only.
   */
  ghost predicate Meets(s: VM, ps: nat, sp: nat, addr: Word, size: nat, writing: bool, e: U.Exception)
    requires sp in s.sizes && 0 < ps && 0 < size
  {
    if addr % size != 0 || s.sizes[sp] * ps < addr + size then e == U.AddressError
    else
      var r := Ref(sp, addr / ps);
      r in s.entries &&
      e == if !s.entries[r].valid then U.PageFault else if s.entries[r].readOnly && writing then U.ReadOnlyError else U.NoException
  }

  lemma CheckMeets(s: VM, ps: nat, sp: nat, addr: Word, size: nat, writing: bool)
    requires Ready(s, ps) && sp in s.sizes && U.Size(size) && Mapped(s, sp)
    ensures 0 < ps && Meets(s, ps, sp, addr, size, writing, CheckIn(s, ps, sp, addr, size, writing))
  {
    hide Coherent, Pages;
    SpaceWellFormed(s, ps, sp);
    U.TestsExact(SpaceView(s, ps, sp), addr, size);
  }

  /** The checks of Machine::Translate, in its order. */
  method CheckAccess(vm: VMManager, sp: nat, addr: Word, size: nat, writing: bool) returns (e: U.Exception)
    requires Stable(vm) && sp in vm.sizes && U.Size(size)
    ensures Mapped(vm.State(), sp) && e == CheckIn(vm.State(), vm.pageSize, sp, addr, size, writing)
    ensures Meets(vm.State(), vm.pageSize, sp, addr, size, writing, e)
  {
    hide Coherent, Replacement.Agrees, Replacement.ReplacementQueue.Logged, BitsOf, PageStore.Pages;
    hide Meets;
    assert Mapped(vm.State(), sp);
    CheckMeets(vm.State(), vm.pageSize, sp, addr, size, writing);
    var vpn := U.PageOf(addr, vm.pageSize);
    if (size == 4 && addr % 4 != 0) || (size == 2 && addr % 2 != 0) {
      e := U.AddressError;
    } else if vpn >= vm.sizes[sp] {
      e := U.AddressError;
    } else if !vm.entries[Ref(sp, vpn)].valid {
      e := U.PageFault;
    } else if vm.entries[Ref(sp, vpn)].readOnly && writing {
      e := U.ReadOnlyError;
    } else {
      e := U.NoException;
    }
  }

  /** The end of Machine::Translate: the frame of the page, its place in the policy's queue, its bits. */
  method ReachPage(vm: VMManager, r: Ref, writing: bool) returns (p: nat)
    requires vm.Valid() && r in vm.entries
    modifies vm, vm.mainMemory.bytes, vm.swapFile.bytes, vm.diskBuffer, vm.activePageMap, vm.activePages, vm.policy, vm.policy.queue, vm.memMgr.words
    ensures vm.Valid() && old(vm.Pick()) < |old(vm.State()).frames|
    ensures vm.State() == Translate(old(vm.State()), r, old(vm.Pick()), writing) && r in vm.State().at && p == vm.State().at[r] < vm.numFrames
    ensures vm.policy.uses == old(vm.policy.uses) + (Fetched(r in old(vm.at), old(vm.memMgr.Bits()), p) + [Replacement.Touched(p)])
  {
    hide Coherent, Replacement.Agrees, Replacement.ReplacementQueue.Logged, BitsOf, PageStore.Pages, GetFrame, Fetched;
    TranslateInvisible(vm.State(), r, vm.Pick(), writing);
    p := vm.GetPhysicalPage(r);
    vm.MarkPage(p);
    vm.SetBits(r, writing);
  }

  /** Machine::Translate: the checks, then the frame of the page, its place in the queue, its bits. */
  method TranslateAddress(vm: VMManager, sp: nat, addr: Word, size: nat, writing: bool) returns (e: U.Exception, p: nat)
    requires Stable(vm) && sp in vm.sizes && U.Size(size)
    modifies vm, vm.mainMemory.bytes, vm.swapFile.bytes, vm.diskBuffer, vm.activePageMap, vm.activePages, vm.policy, vm.policy.queue, vm.memMgr.words
    ensures vm.Valid() && old(vm.Pick()) < |old(vm.State()).frames| && Mapped(old(vm.State()), sp)
    ensures e == CheckIn(old(vm.State()), vm.pageSize, sp, addr, size, writing)
    ensures var r := Ref(sp, U.PageOf(addr, vm.pageSize)); if e == U.NoException
      then r in old(vm.State()).entries && vm.State() == Translate(old(vm.State()), r, old(vm.Pick()), writing)
           && r in vm.State().at && p == vm.State().at[r] < vm.numFrames
      else vm.State() == old(vm.State()) && vm.Pick() == old(vm.Pick())
    ensures vm.policy.uses == old(vm.policy.uses) + if e == U.NoException
      then Fetched(Ref(sp, U.PageOf(addr, vm.pageSize)) in old(vm.at), old(vm.memMgr.Bits()), p) + [Replacement.Touched(p)] else []
  {
    hide Coherent, Replacement.Agrees, Replacement.ReplacementQueue.Logged, BitsOf, PageStore.Pages, Translate, Fetched, View, U.PageOf;
    ghost var s := vm.State();
    p := 0;
    e := CheckAccess(vm, sp, addr, size, writing);
    if e == U.NoException {
      var r := Ref(sp, U.PageOf(addr, vm.pageSize));
      EntryMapped(s, vm.pageSize, sp, U.PageOf(addr, vm.pageSize));
      p := ReachPage(vm, r, writing);
    }
  }

  lemma AccessInPage(s: VM, ps: nat, sp: nat, addr: Word, size: nat, writing: bool)
    requires Ready(s, ps) && sp in s.sizes && U.Size(size) && Mapped(s, sp) && CheckIn(s, ps, sp, addr, size, writing) == U.NoException
    ensures U.Offset(addr, ps) + size <= ps
  {
    hide Coherent, U.Offset, Pages;
    SpaceWellFormed(s, ps, sp);
    U.CheckedInPage(SpaceView(s, ps, sp), addr, size, writing);
  }

  lemma GoodIsCoherent(s: VM, ps: nat)
    requires Good(s, ps)
    ensures Coherent(s)
  {
  }

  /** myPageFaultHandler: swap the page in and set its valid bit. */
  method HandlePageFault(vm: VMManager, sp: nat, addr: Word)
    requires Stable(vm) && sp in vm.sizes && U.PageOf(addr, vm.pageSize) < vm.sizes[sp]
    requires var r := Ref(sp, U.PageOf(addr, vm.pageSize)); r in vm.entries && !vm.entries[r].valid
    modifies vm, vm.mainMemory.bytes, vm.swapFile.bytes, vm.diskBuffer, vm.activePageMap, vm.activePages, vm.policy, vm.policy.queue, vm.memMgr.words
    ensures vm.Valid() && old(vm.Pick()) < |old(vm.State()).frames|
    ensures vm.State() == FaultIn(old(vm.State()), Ref(sp, U.PageOf(addr, vm.pageSize)), old(vm.Pick()))
    ensures var r := Ref(sp, U.PageOf(addr, vm.pageSize));
      r in vm.at && vm.policy.uses == old(vm.policy.uses) + [Asked(old(vm.memMgr.Bits()), vm.at[r])]
  {
    hide Coherent, Replacement.Agrees, Replacement.ReplacementQueue.Logged, BitsOf, PageStore.Pages, SwapIn, Place, Asked, View, U.PageOf;
    ghost var s, pick := vm.State(), vm.Pick();
    var r := Ref(sp, U.PageOf(addr, vm.pageSize));
    assert !Resident(s, r);
    SwapInInvisible(s, r, pick);
    SwapInPlaces(s, r, pick);
    var p := vm.Swap(r);
    SetValidCoherent(vm.State(), r);
    vm.entries := vm.entries[r := vm.entries[r].(valid := true)];
  }

  /**
   * What the policy has heard of an access to the page of r: that it was asked for a frame, if the page was in none,
   * and, unless the access faulted or was refused, that the page was touched.
   */
  ghost predicate Noted(at: map<Ref, nat>, r: Ref, inFrame: bool, frameMap: seq<bool>, a: U.Answer,
                        before: seq<Replacement.Use>, after: seq<Replacement.Use>) {
    match a
    case Trap(_) => after == before
    case Faulted => r in at && after == before + [Asked(frameMap, at[r])]
    case _ => r in at && after == before + Fetched(inFrame, frameMap, at[r]) + [Replacement.Touched(at[r])]
  }

  /** Machine::ReadMem, with the handler run on a page fault. */
  method ReadWord(vm: VMManager, sp: nat, addr: Word, size: nat) returns (a: U.Answer)
    requires Stable(vm) && sp in vm.sizes && U.Size(size)
    modifies vm, vm.mainMemory.bytes, vm.swapFile.bytes, vm.diskBuffer, vm.activePageMap, vm.activePages, vm.policy, vm.policy.queue, vm.memMgr.words
    ensures Stable(vm) && CanAccess(old(vm.State()), vm.pageSize, sp, size, old(vm.Pick()))
    ensures (vm.State(), a) == ReadMem(old(vm.State()), vm.pageSize, sp, addr, size, old(vm.Pick()))
    ensures Noted(vm.at, Ref(sp, U.PageOf(addr, vm.pageSize)), Ref(sp, U.PageOf(addr, vm.pageSize)) in old(vm.at), old(vm.memMgr.Bits()), a,
                  old(vm.policy.uses), vm.policy.uses)
  {
    hide Coherent, Replacement.Agrees, Replacement.ReplacementQueue.Logged, BitsOf, PageStore.Pages, Translate, FaultIn, U.PageOf, U.Offset, Good, View, SpaceView;
    ghost var s, pick := vm.State(), vm.Pick();
    assert Mapped(s, sp);
    ReadMemRefines(s, vm.pageSize, sp, addr, size, pick);
    var e, p := TranslateAddress(vm, sp, addr, size, false);
    if e == U.NoException {
      AccessInPage(s, vm.pageSize, sp, addr, size, false);
      var data := vm.mainMemory.Load(p, U.Offset(addr, vm.pageSize), size);
      a := U.Value(U.Decode(data));
    } else if e == U.PageFault {
      EntryMapped(s, vm.pageSize, sp, U.PageOf(addr, vm.pageSize));
      HandlePageFault(vm, sp, addr);
      a := U.Faulted;
    } else {
      a := U.Trap(e);
    }
  }

  /** Machine::WriteMem, with the handler run on a page fault. */
  method WriteWord(vm: VMManager, sp: nat, addr: Word, size: nat, value: Word) returns (a: U.Answer)
    requires Stable(vm) && sp in vm.sizes && U.Size(size)
    modifies vm, vm.mainMemory.bytes, vm.swapFile.bytes, vm.diskBuffer, vm.activePageMap, vm.activePages, vm.policy, vm.policy.queue, vm.memMgr.words
    ensures Stable(vm) && CanAccess(old(vm.State()), vm.pageSize, sp, size, old(vm.Pick()))
    ensures (vm.State(), a) == WriteMem(old(vm.State()), vm.pageSize, sp, addr, size, value, old(vm.Pick()))
    ensures Noted(vm.at, Ref(sp, U.PageOf(addr, vm.pageSize)), Ref(sp, U.PageOf(addr, vm.pageSize)) in old(vm.at), old(vm.memMgr.Bits()), a,
                  old(vm.policy.uses), vm.policy.uses)
  {
    hide Coherent, Replacement.Agrees, Replacement.ReplacementQueue.Logged, BitsOf, PageStore.Pages, Translate, FaultIn, U.PageOf, U.Offset, U.Encode, Good,
         View, SpaceView, StoreFrame;
    ghost var s, pick := vm.State(), vm.Pick();
    assert Mapped(s, sp);
    WriteMemRefines(s, vm.pageSize, sp, addr, size, value, pick);
    var e, p := TranslateAddress(vm, sp, addr, size, true);
    if e == U.NoException {
      AccessInPage(s, vm.pageSize, sp, addr, size, true);
      vm.StoreBytes(Ref(sp, U.PageOf(addr, vm.pageSize)), p, U.Offset(addr, vm.pageSize), U.Encode(value, size));
      GoodIsCoherent(vm.State(), vm.pageSize);
      a := U.Stored;
    } else if e == U.PageFault {
      EntryMapped(s, vm.pageSize, sp, U.PageOf(addr, vm.pageSize));
      HandlePageFault(vm, sp, addr);
      a := U.Faulted;
    } else {
      a := U.Trap(e);
    }
  }

  // ---- address spaces ----

  /** The page-table loop of the AddrSpace constructor. */
  method CreateSpace(vm: VMManager, sp: nat, numPages: nat)
    requires Stable(vm) && sp !in vm.sizes && numPages <= CountClear(vm.swapMap.Bits())
    modifies vm, vm.swapFile.bytes, vm.diskBuffer, vm.swapMap.words
    ensures Stable(vm) && vm.State() == Create(old(vm.State()), sp, numPages, vm.pageSize)
  {
    hide Coherent, Replacement.Agrees, Replacement.ReplacementQueue.Logged, BitsOf, PageStore.Pages, CountClear, FirstClear, Sized, InvalidAbsent, View, AddPage, AllMapped;
    ghost var s, ps := vm.State(), vm.pageSize;
    vm.sizes := vm.sizes[sp := 0];
    CreateRefines(s, sp, 0, ps);
    for i := 0 to numPages
      invariant vm.Valid() && vm.State() == Create(s, sp, i, ps) && Created(s, vm.State(), sp, i, ps)
    {
      CreateNext(s, vm.State(), sp, i, ps);
      vm.AllocPage(sp);
    }
  }

  lemma {:induction false} DestroyOneMore(s: VM, sp: nat, i: nat, picks: seq<nat>, pick: nat, ps: nat)
    requires i <= |picks|
    ensures DestroyFrom(s, sp, i, |picks| + 1, picks + [pick], ps) ==
            Release(DestroyFrom(s, sp, i, |picks|, picks, ps), Ref(sp, |picks|), pick, ps)
    decreases |picks| - i
  {
    hide Release;
    if i < |picks| {
      DestroyOneMore(Release(s, Ref(sp, i), picks[i], ps), sp, i + 1, picks, pick, ps);
    }
  }

  /** One turn of the destructor's loop. */
  method ReleasePage(vm: VMManager, r: Ref)
    requires vm.Valid() && r in vm.entries
    modifies vm, vm.mainMemory.bytes, vm.swapFile.bytes, vm.diskBuffer, vm.activePageMap, vm.activePages,
             vm.policy, vm.policy.queue, vm.memMgr.words, vm.swapMap.words
    ensures vm.Valid() && vm.State() == Release(old(vm.State()), r, old(vm.Pick()), vm.pageSize)
    ensures exists p: nat :: vm.policy.uses == old(vm.policy.uses) + Fetched(r in old(vm.at), old(vm.memMgr.Bits()), p) + [Replacement.Cleared(p)]
  {
    hide Coherent, Replacement.Agrees, Replacement.ReplacementQueue.Logged, BitsOf, PageStore.Pages, GetFrame, ClearPage;
    var _ := vm.GetPhysicalPage(r);
    vm.ClearEntry(r);
  }

  /** AddrSpace::~AddrSpace. */
  method DestroySpace(vm: VMManager, sp: nat) returns (ghost picks: seq<nat>)
    requires Stable(vm) && sp in vm.sizes
    modifies vm, vm.mainMemory.bytes, vm.swapFile.bytes, vm.diskBuffer, vm.activePageMap, vm.activePages,
             vm.policy, vm.policy.queue, vm.memMgr.words, vm.swapMap.words
    ensures Stable(vm) && CanDestroy(old(vm.State()), sp, picks, vm.pageSize) && vm.State() == Destroy(old(vm.State()), sp, picks, vm.pageSize)
  {
    hide Coherent, Replacement.Agrees, Replacement.ReplacementQueue.Logged, BitsOf, PageStore.Pages, CountClear, Sized, InvalidAbsent, View, AllMapped, Release;
    ghost var s, ps := vm.State(), vm.pageSize;
    var numPages := vm.sizes[sp];
    picks := [];
    ghost var d := s.(sizes := s.sizes - {sp});
    DeadSpace(s, sp, seq(numPages, _ => 0), ps);
    vm.sizes := vm.sizes - {sp};
    for i := 0 to numPages
      invariant vm.Valid() && |picks| == i && (forall k :: 0 <= k < i ==> picks[k] < vm.numFrames)
      invariant vm.State() == DestroyFrom(d, sp, 0, i, picks, ps) && Dying(vm.State(), sp, i, numPages, ps)
    {
      ReleaseStep(vm.State(), sp, i, numPages, vm.Pick(), ps);
      DestroyOneMore(d, sp, 0, picks, vm.Pick(), ps);
      picks := picks + [vm.Pick()];
      ReleasePage(vm, Ref(sp, i));
    }
    DestroyRefines(s, sp, picks, ps);
  }

  // ---- loading a program ----

  lemma PatchPatch(m: U.Memory, at: nat, a: seq<Byte>, b: seq<Byte>)
    requires at + |a| + |b| <= |m.bytes|
    ensures Patch(Patch(m, at, a), at + |a|, b) == Patch(m, at, a + b)
  {
    assert Patch(Patch(m, at, a), at + |a|, b).bytes == Patch(m, at, a + b).bytes;
  }

  lemma ShowsSpace(s: VM, t: VM, ps: nat, sp: nat, m: U.Memory)
    requires Good(s, ps) && AllMapped(s) && Shows(s, t, ps, sp, m) && sp in s.sizes
    ensures Mapped(t, sp) && SpaceView(t, ps, sp) == m
  {
    hide Coherent, SpaceView;
    assert Mapped(t, sp);
    assert View(t, ps)[sp] == SpaceView(t, ps, sp);
  }

  lemma ShowsThen(s: VM, t: VM, u: VM, ps: nat, sp: nat, m: U.Memory, m': U.Memory)
    requires Good(s, ps) && AllMapped(s) && Shows(s, t, ps, sp, m) && Shows(t, u, ps, sp, m')
    ensures Shows(s, u, ps, sp, m')
  {
    hide Coherent, SpaceView;
  }

  /** No page of the space has faulted in yet: the loader runs before the program does. */
  ghost predicate Untouched(s: VM, sp: nat) {
    sp in s.sizes && forall v: nat :: v < s.sizes[sp] ==> Ref(sp, v) in s.entries && !s.entries[Ref(sp, v)].valid
  }

  /** One chunk of an image, inside one page, extends what is loaded by that chunk. */
  lemma ChunkLoaded(s: VM, t: VM, ps: nat, sp: nat, start: nat, done: seq<Byte>, chunk: seq<Byte>, v: nat, off: nat)
    requires Ready(s, ps) && sp in s.sizes && Mapped(s, sp) && v < s.sizes[sp] && v * ps + off == start + |done| && off + |chunk| <= ps
    requires start + |done| + |chunk| <= |SpaceView(s, ps, sp).bytes|
    requires Shows(s, t, ps, sp, Patch(SpaceView(s, ps, sp), start, done)) && Untouched(t, sp)
    ensures Shows(s, Poke(t, Ref(sp, v), off, chunk), ps, sp, Patch(SpaceView(s, ps, sp), start, done + chunk))
    ensures Untouched(Poke(t, Ref(sp, v), off, chunk), sp)
  {
    hide Coherent, SpaceView, View, TablesComplete, InvalidAbsent, Sized;
    var r, m := Ref(sp, v), SpaceView(s, ps, sp);
    ShowsSpace(s, t, ps, sp, Patch(m, start, done));
    PokeRefines(t, ps, r, off, chunk);
    PatchPatch(m, start, done, chunk);
    ShowsThen(s, t, Poke(t, r, off, chunk), ps, sp, Patch(m, start, done), Patch(m, start, done + chunk));
  }

  /** OpenFile::ReadAt into the disk buffer. */
  method ReadAt(file: seq<Byte>, buffer: array<Byte>, n: nat, at: nat)
    requires n <= buffer.Length && at + n <= |file|
    modifies buffer
    ensures buffer[..n] == file[at..at + n]
  {
    for i := 0 to n
      invariant forall j :: 0 <= j < i ==> buffer[j] == file[at + j]
    {
      buffer[i] := file[at + i];
    }
  }

  /** The bytes AddrSpace::ReadFile is asked to copy. */
  function Image(file: seq<Byte>, at: nat, size: int): seq<Byte>
    requires at + size <= |file|
  {
    if size <= 0 then [] else file[at..at + size]
  }

  /** What is loaded when done has been copied from start on: those bytes there, the rest as in s. */
  ghost predicate Loading(s: VM, t: VM, ps: nat, sp: nat, start: nat, done: seq<Byte>) {
    && Ready(s, ps) && sp in s.sizes && Mapped(s, sp) && t.sizes == s.sizes && Untouched(t, sp)
    && start + |done| <= |SpaceView(s, ps, sp).bytes| == s.sizes[sp] * ps
    && Shows(s, t, ps, sp, Patch(SpaceView(s, ps, sp), start, done))
  }

  /** The body of the loop of ReadFile once the chunk is chosen: it must not cross a page. */
  method LoadChunk(vm: VMManager, sp: nat, vAddr: nat, file: seq<Byte>, fileAddr: nat, copySize: nat,
                   ghost s: VM, ghost start: nat, ghost done: seq<Byte>)
    requires vm.Valid() && Loading(s, vm.State(), vm.pageSize, sp, start, done) && vAddr == start + |done|
    requires 0 < copySize && OffsetAt(vAddr, vm.pageSize) + copySize <= vm.pageSize
    requires vAddr + copySize <= s.sizes[sp] * vm.pageSize && fileAddr + copySize <= |file|
    modifies vm.swapFile.bytes, vm.diskBuffer
    ensures vm.Valid() && Loading(s, vm.State(), vm.pageSize, sp, start, done + file[fileAddr..fileAddr + copySize])
  {
    hide Coherent, Replacement.Agrees, Replacement.ReplacementQueue.Logged, BitsOf, PageStore.Pages, Shows, Untouched, TablesComplete, InvalidAbsent, Sized,
         AllMapped, Poke, Patch, Pages, PageAt, OffsetAt;
    ghost var ps, chunk := vm.pageSize, file[fileAddr..fileAddr + copySize];
    PageInside(vAddr, vm.pageSize, s.sizes[sp]);
    var offset, v := OffsetAt(vAddr, vm.pageSize), PageAt(vAddr, vm.pageSize);
    ReadAt(file, vm.diskBuffer, copySize, fileAddr);
    ChunkLoaded(s, vm.State(), ps, sp, start, done, chunk, v, offset);
    EntryInSwap(vm.State(), sp, v);
    vm.WritePage(Ref(sp, v), offset, copySize);
    ShowsReady(s, vm.State(), ps, sp, Patch(SpaceView(s, ps, sp), start, done + chunk));
  }

  /**
   * AddrSpace::ReadFile.  However the range starts, and although copySize is carried from one turn to
   * the next, the loop ends, no write crosses a page, and the flat image of the space becomes the file
   * bytes on the range and stays as it was elsewhere.
   */
  method ReadFile(vm: VMManager, sp: nat, start: nat, file: seq<Byte>, length: int, at: nat)
    requires Stable(vm) && Untouched(vm.State(), sp) && Mapped(vm.State(), sp)
    requires start <= vm.sizes[sp] * vm.pageSize && start + length <= vm.sizes[sp] * vm.pageSize && at + length <= |file|
    modifies vm.swapFile.bytes, vm.diskBuffer
    ensures Stable(vm) && Loading(old(vm.State()), vm.State(), vm.pageSize, sp, start, Image(file, at, length))
  {
    hide Coherent, Replacement.Agrees, Replacement.ReplacementQueue.Logged, BitsOf, PageStore.Pages, Loading, Untouched, Ready, Pages, PageAt, OffsetAt;
    ghost var s, ps := vm.State(), vm.pageSize;
    assert s.sizes == vm.sizes;
    hide VMManager.State;
    ghost var image, done: seq<Byte> := Image(file, at, length), [];
    NothingLoaded(s, ps, sp, start);
    var vAddr, fileAddr, size, copySize := start, at, length, vm.pageSize;
    while size > 0
      invariant vm.Valid() && 0 < copySize <= ps
      invariant vAddr == start + |done| && fileAddr == at + |done|
      invariant length <= 0 ==> size == length && done == []
      invariant 0 < length ==> 0 <= size && |done| + size == length && done == file[at..at + |done|]
      invariant Loading(s, vm.State(), ps, sp, start, done)
      decreases size
    {
      if size < vm.pageSize {
        copySize := size;
      }
      OffsetSmall(vAddr, vm.pageSize);
      var offset := OffsetAt(vAddr, vm.pageSize);
      if copySize + offset >= vm.pageSize {
        copySize := vm.pageSize - offset;
      }
      LoadChunk(vm, sp, vAddr, file, fileAddr, copySize, s, start, done);
      SlicesJoin(file, at, fileAddr, fileAddr + copySize);
      done := done + file[fileAddr..fileAddr + copySize];
      size, vAddr, fileAddr := size - copySize, vAddr + copySize, fileAddr + copySize;
    }
    assert done == image;
    LoadingReady(s, vm.State(), ps, sp, start, done);
  }

  lemma SlicesJoin<T>(s: seq<T>, a: nat, b: nat, c: nat)
    requires a <= b <= c <= |s|
    ensures s[a..b] + s[b..c] == s[a..c]
  {
  }

  lemma NothingLoaded(s: VM, ps: nat, sp: nat, start: nat)
    requires Ready(s, ps) && Mapped(s, sp) && Untouched(s, sp) && start <= s.sizes[sp] * ps
    ensures Loading(s, s, ps, sp, start, [])
  {
    hide Coherent, Pages;
    SpaceWellFormed(s, ps, sp);
    var m := SpaceView(s, ps, sp);
    assert start <= |m.bytes| ==> Overwrite(m.bytes, start, []) == m.bytes;
    ShowsSame(s, ps, sp);
  }

  lemma ShowsReady(s: VM, t: VM, ps: nat, sp: nat, m: U.Memory)
    requires Good(s, ps) && AllMapped(s) && Shows(s, t, ps, sp, m)
    ensures Ready(t, ps) && Coherent(t)
  {
    hide View;
  }

  function PageAt(addr: nat, ps: nat): nat
    requires 0 < ps
  {
    addr / ps
  }

  function OffsetAt(addr: nat, ps: nat): nat
    requires 0 < ps
  {
    addr % ps
  }

  lemma PageInside(addr: nat, ps: nat, n: nat)
    requires 0 < ps && addr < n * ps
    ensures addr == PageAt(addr, ps) * ps + OffsetAt(addr, ps) && PageAt(addr, ps) < n && OffsetAt(addr, ps) < ps
  {
    SplitBack(addr, ps);
    if addr / ps >= n {
      MulMonotone(n, addr / ps, ps);
    }
  }

  lemma OffsetSmall(addr: nat, ps: nat)
    requires 0 < ps
    ensures OffsetAt(addr, ps) < ps
  {
  }

  lemma LoadingReady(s: VM, t: VM, ps: nat, sp: nat, start: nat, done: seq<Byte>)
    requires Loading(s, t, ps, sp, start, done)
    ensures Ready(t, ps)
  {
    ShowsReady(s, t, ps, sp, Patch(SpaceView(s, ps, sp), start, done));
  }

  lemma EntryInSwap(s: VM, sp: nat, v: nat)
    requires Coherent(s) && Untouched(s, sp) && v < s.sizes[sp]
    ensures Ref(sp, v) in s.entries && s.entries[Ref(sp, v)].page < |s.swap|
  {
  }
}
