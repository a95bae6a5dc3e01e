/**
 * The virtual memory manager as an object that works in place: main memory and the swap file as byte
 * arrays, arrays for activePageMap and activePages, bitmaps and the policy queue.  Each method is
 * proved to take the step of module Paging that bears its name, and to keep the three records of
 * frame use (bitmap, activePageMap, policy queue) in agreement.
 */
module VmManager {
  import opened Arithmetic
  import opened BitMaps
  import opened Paging
  import opened PagedMemory
  import opened PageStores
  import opened AddressSpaces
  import Replacement

  /** What finding a frame asks of the policy: to take note of a free frame, or to give one up. */
  function Asked(frameMap: seq<bool>, p: nat): Replacement.Use {
    if FirstClear(frameMap) < |frameMap| then Replacement.Loaded(p) else Replacement.Replaced
  }

  /** What the policy hears when a page is called for: nothing if it is in a frame. */
  function Fetched(inFrame: bool, frameMap: seq<bool>, p: nat): seq<Replacement.Use> {
    if inFrame then [] else [Asked(frameMap, p)]
  }

  class VMManager {
    const numFrames: nat
    const pageSize: nat
    const swapSize: nat
    const mainMemory: PageStore
    const swapFile: PageStore
    const diskBuffer: array<Byte>
    const activePageMap: array<int>
    const activePages: array<Owner>
    const memMgr: BitMap
    const swapMap: BitMap
    const policy: Replacement.ReplacementQueue
    var entries: map<Ref, Entry>
    var sizes: map<nat, nat>
    ghost var at: map<Ref, nat>
    ghost var swapOwner: seq<Owner>

    ghost predicate Wired()
      reads this, mainMemory, swapFile, memMgr, swapMap
    {
      && 0 < numFrames && 0 < pageSize && pageSize % 4 == 0
      && mainMemory.Valid() && mainMemory.count == numFrames && mainMemory.size == pageSize
      && swapFile.Valid() && swapFile.count == swapSize && swapFile.size == pageSize
      && activePageMap.Length == activePages.Length == numFrames && diskBuffer.Length == pageSize
      && memMgr.Valid() && memMgr.numBits == numFrames && swapMap.Valid() && swapMap.numBits == swapSize
      && policy.queue.Length == numFrames
      && mainMemory.bytes != swapFile.bytes && mainMemory.bytes != diskBuffer && swapFile.bytes != diskBuffer
      && activePageMap != policy.queue && memMgr.words != swapMap.words
      && Apart(memMgr.words) && Apart(swapMap.words)
    }

    /** The words of a bitmap are none of the byte, page-number or entry arrays. */
    ghost predicate Apart(words: object)
      reads this, mainMemory, swapFile
    {
      && words != mainMemory.bytes && words != swapFile.bytes && words != diskBuffer
      && words != activePageMap && words != activePages && words != policy.queue
    }

    ghost function State(): VM
      requires Wired()
      reads this, mainMemory, mainMemory.bytes, swapFile, swapFile.bytes, activePageMap, activePages, memMgr,
            memMgr.words, swapMap, swapMap.words
    {
      VM(mainMemory.Pages(), swapFile.Pages(), activePages[..], activePageMap[..],
         memMgr.Bits(), swapMap.Bits(), entries, sizes, at, swapOwner)
    }

    /** The objects are wired together, the cache is coherent and the three records of frame use agree. */
    ghost predicate Valid()
      reads this, mainMemory, mainMemory.bytes, swapFile, swapFile.bytes, activePageMap, activePages, memMgr,
            memMgr.words, swapMap, swapMap.words, policy, policy.queue
    {
      Wired() && Coherent(State()) && Replacement.Agrees(policy.queue[..], memMgr.Bits()) && policy.Logged()
    }

    constructor (numFrames: nat, pageSize: nat, swapSize: nat, kind: Replacement.Kind)
      requires 0 < numFrames && 0 < pageSize && pageSize % 4 == 0
      ensures Valid() && State() == Boot(numFrames, swapSize, pageSize)
    {
      hide Coherent, Boot, Zeros, BitsOf, PageStore.Pages, Replacement.ReplacementQueue.Unused, PageStore.Blank, BitMap.AllClear, Replacement.Agrees;
      this.numFrames, this.pageSize, this.swapSize := numFrames, pageSize, swapSize;
      mainMemory := new PageStore(numFrames, pageSize);
      swapFile := new PageStore(swapSize, pageSize);
      memMgr := new BitMap(numFrames);
      swapMap := new BitMap(swapSize);
      policy := new Replacement.ReplacementQueue(kind, numFrames);
      diskBuffer := new Byte[pageSize];
      activePageMap := new int[numFrames](_ => -1);
      activePages := new Owner[numFrames](_ => Free);
      entries, sizes, at := map[], map[], map[];
      swapOwner := seq(swapSize, _ => Free);
      new;
      assert Wired();
      hide Wired, Apart;
      JustBuilt();
    }

    /** Zeroed stores, clear bitmaps and empty arrays are the state at boot. */
    lemma JustBuilt()
      requires Wired() && |swapOwner| == swapSize && entries == map[] && sizes == map[] && at == map[]
      requires mainMemory.Blank() && swapFile.Blank() && memMgr.AllClear() && swapMap.AllClear() && policy.Unused()
      requires forall i :: 0 <= i < numFrames ==> activePageMap[i] == -1
      requires forall i :: 0 <= i < numFrames ==> activePages[i] == Free
      requires forall i :: 0 <= i < swapSize ==> swapOwner[i] == Free
      ensures Valid() && State() == Boot(numFrames, swapSize, pageSize)
    {
      hide Coherent, Boot, Zeros, BitsOf, PageStore.Pages, Replacement.ReplacementQueue.Logged, Replacement.Agrees;
      EmptyAgrees(policy.queue[..], memMgr.Bits());
      IsBoot(State(), numFrames, swapSize, pageSize);
    }

    /** Write back the page in frame p if it is dirty, and reset its use and dirty bits. */
    method WriteBack(p: nat)
      requires Valid() && p < numFrames && activePages[p].Holds?
      modifies this`entries, swapFile.bytes, diskBuffer
      ensures Valid() && State() == Evict(old(State()), p)
    {
      hide Coherent, Replacement.Agrees, BitsOf, PageStore.Pages, Replacement.ReplacementQueue.Logged;
      ghost var s := State();
      HeldFrame(s, p);
      EvictInvisible(s, p);
      var v := activePages[p].ref;
      var e := entries[v];
      entries := entries[v := e.(use := false, dirty := false)];
      if e.dirty {
        mainMemory.Get(p, diskBuffer);
        swapFile.PutPage(activePageMap[p], diskBuffer);
      }
    }

    /** The frame the policy would give up next. */
    ghost function Pick(): nat
      reads this, policy, policy.queue
    {
      if 0 < policy.queue.Length && 0 <= policy.queue[0] < numFrames then policy.queue[0] else 0
    }

    /** swapMgr->swap and the bookkeeping after it: read the page into frame p and record it. */
    method LoadFrame(r: Ref, p: nat)
      requires Wired() && p < numFrames && r in entries && entries[r].page < swapSize
      modifies this`at, mainMemory.bytes, diskBuffer, activePageMap, activePages
      ensures Wired() && State() == Loaded(old(State()), r, p)
    {
      hide BitsOf, PageStore.Pages;
      ghost var s := State();
      var q := entries[r].page;
      swapFile.Get(q, diskBuffer);
      mainMemory.PutPage(p, diskBuffer);
      activePageMap[p] := q;
      activePages[p] := Holds(r);
      at := Loaded(s, r, p).at;
    }

    /** A free frame, marked in use and noted by the policy. */
    method TakeFree() returns (p: nat)
      requires Valid() && FirstClear(memMgr.Bits()) < numFrames
      modifies policy, policy.queue, memMgr.words
      ensures Wired() && Replacement.Agrees(policy.queue[..], memMgr.Bits()) && policy.Logged()
      ensures p == FirstClear(old(memMgr.Bits())) && memMgr.Bits() == old(memMgr.Bits())[p := true]
      ensures policy.uses == old(policy.uses) + [Replacement.Loaded(p)]
    {
      hide Coherent, Replacement.Agrees, BitsOf, PageStore.Pages, FirstClear, State, Replacement.ReplacementQueue.Logged, Replacement.Legal;
      p := memMgr.Find();
      Replacement.PutAgrees(policy.queue[..], old(memMgr.Bits()), p);
      Replacement.LoadLegal(policy.queue[..], old(memMgr.Bits()), p);
      policy.PageUsed(p);
    }

    /** With no frame free, the one the policy gives up. */
    method TakeVictim() returns (p: nat)
      requires Valid() && FirstClear(memMgr.Bits()) == numFrames
      modifies policy, policy.queue
      ensures Valid() && p == old(Pick()) < numFrames && State() == old(State())
      ensures policy.uses == old(policy.uses) + [Replacement.Replaced]
    {
      hide Coherent, Replacement.Agrees, BitsOf, PageStore.Pages, Replacement.ReplacementQueue.Logged, Replacement.Legal;
      ghost var used := memMgr.Bits();
      FullQueue(policy.queue[..], used);
      Replacement.RotateAgrees(policy.queue[..], used);
      Replacement.ReplaceLegal(policy.queue[..], used);
      p := policy.GetReplacement();
    }

    /** A free frame if there is one; else the policy's, its page written back. */
    method FindFrame() returns (p: nat)
      requires Valid()
      modifies this`entries, swapFile.bytes, diskBuffer, policy, policy.queue, memMgr.words
      ensures Wired() && old(Pick()) < |old(State()).frames| && Replacement.Agrees(policy.queue[..], memMgr.Bits())
      ensures policy.Logged() && policy.uses == old(policy.uses) + [Asked(old(memMgr.Bits()), p)]
      ensures p == Place(old(State()), old(Pick())) && State() == Prepared(old(State()), old(Pick()))
    {
      hide Coherent, Replacement.Agrees, BitsOf, PageStore.Pages, FirstClear, Evict, Replacement.ReplacementQueue.Logged;
      ghost var s, pick := State(), Pick();
      FrameFacts(s, pick);
      var free := memMgr.NumClear();
      CountFindsClear(s.frameMap);
      if free > 0 {
        p := TakeFree();
      } else {
        p := TakeVictim();
        WriteBack(p);
      }
    }

    /** VMManager::swap, for a page that is in no frame. */
    method Swap(r: Ref) returns (p: nat)
      requires Valid() && r in entries && r !in at
      modifies this`entries, this`at, mainMemory.bytes, swapFile.bytes, diskBuffer, activePageMap, activePages, policy, policy.queue, memMgr.words
      ensures Valid() && policy.uses == old(policy.uses) + [Asked(old(memMgr.Bits()), p)]
      ensures old(Pick()) < |old(State()).frames| && State() == SwapIn(old(State()), r, old(Pick())) && p == Place(old(State()), old(Pick()))
    {
      hide Coherent, Replacement.Agrees, BitsOf, PageStore.Pages, Replacement.ReplacementQueue.Logged, Prepared, Loaded, SwapIn, Place, Pick;
      ghost var s, pick := State(), Pick();
      p := FindFrame();
      SwapSteps(s, r, pick);
      SwapInInvisible(s, r, pick);
      LoadFrame(r, p);
    }

    /** The loop getPhysicalPage and clearPage share: the first frame that holds the swap page. */
    method FindResident(q: int) returns (p: nat)
      requires activePageMap.Length == numFrames
      ensures p <= numFrames && (p < numFrames ==> activePageMap[p] == q)
      ensures forall j :: 0 <= j < p ==> activePageMap[j] != q
    {
      p := 0;
      while p < numFrames && activePageMap[p] != q
        invariant p <= numFrames && forall j :: 0 <= j < p ==> activePageMap[j] != q
      {
        p := p + 1;
      }
    }

    /** Search activePageMap for the swap page; swap it in when no frame holds it. */
    method GetPhysicalPage(r: Ref) returns (p: nat)
      requires Valid() && r in entries
      modifies this`entries, this`at, mainMemory.bytes, swapFile.bytes, diskBuffer, activePageMap, activePages, policy, policy.queue, memMgr.words
      ensures Valid()
      ensures old(Pick()) < |old(State()).frames| && State() == GetFrame(old(State()), r, old(Pick()))
      ensures r in State().at && p == State().at[r] < numFrames && r in entries && State().frameMap[p]
      ensures policy.uses == old(policy.uses) + Fetched(r in old(at), old(memMgr.Bits()), p)
    {
      hide Coherent, Replacement.Agrees, BitsOf, PageStore.Pages, Replacement.ReplacementQueue.Logged, SwapIn, Place;
      ghost var s, pick := State(), Pick();
      p := FindResident(entries[r].page);
      if p < numFrames {
        FoundFrame(s, r, p);
      } else {
        NoFrame(s, r);
        p := Swap(r);
        SwapInPlaces(s, r, pick);
        SwapInInvisible(s, r, pick);
        FrameInRange(State(), r);
      }
    }

    /** VMManager::markPage: the queue changes with the policy and nothing else does. */
    method MarkPage(p: nat)
      requires Valid() && p < numFrames && memMgr.Bits()[p]
      modifies policy, policy.queue
      ensures Valid() && State() == old(State()) && policy.uses == old(policy.uses) + [Replacement.Touched(p)]
      ensures p in old(policy.queue[..]) && policy.queue[..] == Replacement.Mark(policy.kind, old(policy.queue[..]), p)
    {
      hide Coherent, Replacement.Agrees, BitsOf, PageStore.Pages, Replacement.ReplacementQueue.Logged;
      Replacement.UsedIsQueued(policy.queue[..], memMgr.Bits(), p);
      Replacement.MarkAgrees(policy.kind, policy.queue[..], memMgr.Bits(), p);
      policy.MarkPage(p);
    }

    /** The end of Machine::Translate: the use bit, and on a write the dirty bit. */
    method SetBits(r: Ref, writing: bool)
      requires Valid() && r in entries && r in at
      modifies this`entries
      ensures Valid() && State() == Touch(old(State()), r, writing)
    {
      hide Coherent, Replacement.Agrees, BitsOf, PageStore.Pages, Replacement.ReplacementQueue.Logged;
      TouchInvisible(State(), r, writing);
      var e := entries[r];
      entries := entries[r := e.(use := true, dirty := e.dirty || writing)];
    }

    /** The assignment to mainMemory at the end of Machine::WriteMem. */
    method StoreBytes(r: Ref, p: nat, off: nat, data: seq<Byte>)
      requires Wired() && r in at && p == at[r] < numFrames && off + |data| <= pageSize
      modifies mainMemory.bytes
      ensures Wired() && State() == StoreFrame(old(State()), r, off, data)
      ensures policy.queue[..] == old(policy.queue[..]) && memMgr.Bits() == old(memMgr.Bits())
    {
      hide BitsOf, PageStore.Pages;
      mainMemory.Store(p, off, data);
    }

    /** A new page for space sp: SwapManager::allocPage and the entry the AddrSpace constructor fills in. */
    method AllocPage(sp: nat)
      requires Wired() && sp in sizes && |swapOwner| == swapSize && FirstClear(swapMap.Bits()) < swapSize
      modifies this`entries, this`sizes, this`swapOwner, swapFile.bytes, diskBuffer, swapMap.words
      ensures Wired() && State() == AddPage(old(State()), sp, pageSize)
    {
      hide BitsOf, PageStore.Pages, FirstClear;
      var q := swapMap.Find();
      ZeroBuffer(diskBuffer);
      swapFile.PutPage(q, diskBuffer);
      var r := Ref(sp, sizes[sp]);
      entries, sizes := entries[r := Entry(q, false, false, false, false)], sizes[sp := sizes[sp] + 1];
      swapOwner := swapOwner[q := Holds(r)];
    }

    /** VMManager::writePage: the first n bytes of the disk buffer, at an offset in the entry's swap page. */
    method WritePage(r: Ref, off: nat, n: nat)
      requires Wired() && r in entries && entries[r].page < swapSize && off + n <= pageSize
      modifies swapFile.bytes
      ensures Wired() && State() == Poke(old(State()), r, off, old(diskBuffer[..n]))
    {
      hide BitsOf, PageStore.Pages;
      swapFile.Put(entries[r].page, off, diskBuffer, n);
    }

    /** Frame p is free again, in the bitmap and in the policy's queue. */
    method ForgetFrame(p: nat)
      requires Wired() && Replacement.Agrees(policy.queue[..], memMgr.Bits()) && policy.Logged() && p < numFrames && memMgr.Bits()[p]
      modifies policy, policy.queue, memMgr.words
      ensures Wired() && Replacement.Agrees(policy.queue[..], memMgr.Bits()) && policy.Logged()
      ensures memMgr.Bits() == old(memMgr.Bits())[p := false] && policy.uses == old(policy.uses) + [Replacement.Cleared(p)]
    {
      hide Coherent, Replacement.Agrees, BitsOf, PageStore.Pages, State, Replacement.ReplacementQueue.Logged;
      Replacement.UsedIsQueued(policy.queue[..], memMgr.Bits(), p);
      Replacement.DropAgrees(policy.queue[..], memMgr.Bits(), p);
      memMgr.Clear(p);
      policy.ClearPage(p);
    }

    /** The frame's share of clearPage: no page there, its bit clear, out of the policy's queue. */
    method FreeFrame(r: Ref, p: nat)
      requires Valid() && p < numFrames && memMgr.Bits()[p]
      modifies this`at, activePageMap, activePages, policy, policy.queue, memMgr.words
      ensures Wired() && Replacement.Agrees(policy.queue[..], memMgr.Bits()) && State() == FrameFreed(old(State()), r, p)
      ensures policy.Logged() && policy.uses == old(policy.uses) + [Replacement.Cleared(p)]
    {
      hide Coherent, Replacement.Agrees, BitsOf, PageStore.Pages, Replacement.ReplacementQueue.Logged;
      activePageMap[p] := -1;
      activePages[p] := Free;
      ForgetFrame(p);
      at := at - {r};
    }

    /** SwapManager::clearPage: zero the swap page and clear its bit; the entry that owned it goes. */
    method FreeSwapPage(r: Ref, q: nat)
      requires Wired() && q < swapSize == |swapOwner|
      modifies this`entries, this`swapOwner, swapFile.bytes, diskBuffer, swapMap.words
      ensures Wired() && State() == SwapFreed(old(State()), r, q, pageSize)
    {
      hide BitsOf, PageStore.Pages;
      ZeroBuffer(diskBuffer);
      swapFile.PutPage(q, diskBuffer);
      swapMap.Clear(q);
      entries, swapOwner := entries - {r}, swapOwner[q := Free];
    }

    /** VMManager::clearPage for a resident page. */
    method ClearEntry(r: Ref)
      requires Valid() && r in entries && r in at
      modifies this`entries, this`at, this`swapOwner, swapFile.bytes, diskBuffer, activePageMap, activePages,
               policy, policy.queue, memMgr.words, swapMap.words
      ensures Valid() && State() == ClearPage(old(State()), r, pageSize)
      ensures policy.uses == old(policy.uses) + [Replacement.Cleared(old(at)[r])]
    {
      hide Coherent, Replacement.Agrees, BitsOf, PageStore.Pages, Replacement.ReplacementQueue.Logged, ClearPage, SwapFreed, FrameFreed;
      ghost var s := State();
      FrameInRange(s, r);
      var q := entries[r].page;
      var p := FindResident(q);
      FoundFrame(s, r, p);
      ClearPageCoherent(s, r, pageSize);
      ClearSteps(s, r, pageSize);
      FreeFrame(r, p);
      FreeSwapPage(r, q);
    }
  }

  lemma ClearSteps(s: VM, r: Ref, ps: nat)
    requires Coherent(s) && r in s.at && r in s.entries
    ensures SwapFreed(FrameFreed(s, r, s.at[r]), r, s.entries[r].page, ps) == ClearPage(s, r, ps)
    ensures FrameFreed(s, r, s.at[r]).swapOwner == s.swapOwner
  {
  }

  function SwapFreed(s: VM, r: Ref, q: nat, ps: nat): VM {
    if q < |s.swap| == |s.swapMap| == |s.swapOwner| then
      s.(swap := s.swap[q := Zeros(ps)], swapMap := s.swapMap[q := false], swapOwner := s.swapOwner[q := Free], entries := s.entries - {r})
    else s
  }

  function FrameFreed(s: VM, r: Ref, p: nat): VM {
    if p < |s.owner| == |s.resident| == |s.frameMap| then
      s.(owner := s.owner[p := Free], resident := s.resident[p := -1], frameMap := s.frameMap[p := false], at := s.at - {r})
    else s
  }

  function Loaded(s: VM, r: Ref, p: nat): VM {
    if r in s.entries && s.entries[r].page < |s.swap| && p < |s.frames| == |s.resident| == |s.owner| then
      var q := s.entries[r].page;
      s.(frames := s.frames[p := s.swap[q]], resident := s.resident[p := q], owner := s.owner[p := Holds(r)],
         at := (if s.owner[p].Holds? then s.at - {s.owner[p].ref} else s.at)[r := p])
    else
      s
  }

  function Prepared(s: VM, pick: nat): VM {
    var p := Place(s, pick);
    if p < |s.owner| == |s.frames| == |s.resident| == |s.frameMap| && s.owner[p].Holds? && s.owner[p].ref in s.entries && 0 <= s.resident[p] < |s.swap|
    then Evict(s, p)
    else if p < |s.frameMap| then s.(frameMap := s.frameMap[p := true])
    else s
  }

  /** Choosing the frame and then loading it is the swap. */
  lemma SwapSteps(s: VM, r: Ref, pick: nat)
    requires Coherent(s) && r in s.entries && r !in s.at && pick < |s.frames|
    ensures Loaded(Prepared(s, pick), r, Place(s, pick)) == SwapIn(s, r, pick)
    ensures r in Prepared(s, pick).entries && Prepared(s, pick).entries[r].page < |s.swap| && Place(s, pick) < |s.frames|
  {
  }

  lemma FrameFacts(s: VM, pick: nat)
    requires Coherent(s) && pick < |s.frames|
    ensures |s.frameMap| == |s.owner| == |s.frames| == |s.resident|
    ensures FirstClear(s.frameMap) < |s.frameMap| ==> s.owner[FirstClear(s.frameMap)].Free?
    ensures FirstClear(s.frameMap) == |s.frameMap| ==>
              s.owner[pick].Holds? && s.owner[pick].ref in s.entries && 0 <= s.resident[pick] < |s.swap|
  {
  }

  /** The bitmap, activePageMap, activePages and the policy's queue tell the same story of every frame. */
  lemma BookkeepingAgrees(vm: VMManager, p: nat)
    requires vm.Valid() && p < vm.numFrames
    ensures vm.memMgr.Bits()[p] <==> vm.activePageMap[p] >= 0
    ensures vm.memMgr.Bits()[p] <==> vm.activePages[p].Holds?
    ensures multiset(vm.policy.queue[..])[p] == if vm.memMgr.Bits()[p] then 1 else 0
  {
    var s := vm.State();
    if s.owner[p].Holds? {
      assert s.resident[p] == s.entries[s.owner[p].ref].page;
    }
  }

  /** So with no free frame the policy's head names a frame, and that frame holds a page. */
  lemma VictimIsHeld(vm: VMManager)
    requires vm.Valid() && FirstClear(vm.memMgr.Bits()) == vm.numFrames
    ensures vm.policy.queue[0] == vm.Pick() < vm.numFrames && vm.activePages[vm.Pick()].Holds?
  {
    hide SwapOwned, CacheCoherent, Replacement.Agrees, Replacement.ReplacementQueue.Logged, BitsOf, PageStore.Pages;
    FullQueue(vm.policy.queue[..], vm.memMgr.Bits());
    BookkeepingAgrees(vm, vm.Pick());
  }

  /** The frame up for replacement was used before every other, by the stamps of what was asked of the policy. */
  ghost predicate OldestFirst(vm: VMManager)
    reads vm, vm.policy, vm.policy.queue
  {
    var h := Replacement.After(vm.policy.kind, Replacement.Booted(vm.policy.queue.Length), vm.policy.uses);
    vm.Pick() in h.last && forall p :: 0 <= p < vm.numFrames && p != vm.Pick() ==> p in h.last && h.last[vm.Pick()] < h.last[p]
  }

  lemma QueuedFirst(vm: VMManager, h: Replacement.History)
    requires vm.Valid() && FirstClear(vm.memMgr.Bits()) == vm.numFrames && h.q == vm.policy.queue[..]
    requires h == Replacement.After(vm.policy.kind, Replacement.Booted(vm.policy.queue.Length), vm.policy.uses)
    requires h.q[0] in h.last && forall i :: 0 < i < |h.q| ==> h.q[i] in h.last && h.last[h.q[0]] < h.last[h.q[i]]
    ensures OldestFirst(vm)
  {
    hide Coherent, Replacement.Agrees, Replacement.ReplacementQueue.Logged, BitsOf, PageStore.Pages, Replacement.After;
    var q, used := vm.policy.queue[..], vm.memMgr.Bits();
    FullQueue(q, used);
    forall p | 0 <= p < vm.numFrames && p != vm.Pick() ensures p in h.last && h.last[vm.Pick()] < h.last[p] {
      Replacement.UsedIsQueued(q, used, p);
      var i :| 0 <= i < |q| && q[i] == p;
    }
  }

  /** The memory manager with FIFO replaces the frame loaded longest ago. */
  lemma FifoReplaces(vm: VMManager)
    requires vm.Valid() && vm.policy.kind == Replacement.Fifo && FirstClear(vm.memMgr.Bits()) == vm.numFrames
    ensures OldestFirst(vm)
  {
    hide Coherent, Replacement.Agrees, BitsOf, PageStore.Pages, Replacement.After, Replacement.LegalRun;
    var n, uses := vm.policy.queue.Length, vm.policy.uses;
    var h := Replacement.After(Replacement.Fifo, Replacement.Booted(n), uses);
    Replacement.FullHasNoHole(vm.policy.queue[..], vm.memMgr.Bits());
    Replacement.FifoVictim(n, uses);
    QueuedFirst(vm, h);
  }

  /** With LRU it replaces the frame used longest ago, as long as no load or touch went in front of a frame. */
  lemma LruReplaces(vm: VMManager)
    requires vm.Valid() && vm.policy.kind == Replacement.Lru && FirstClear(vm.memMgr.Bits()) == vm.numFrames
    requires Replacement.TidyThroughout(Replacement.Booted(vm.numFrames), vm.policy.uses)
    ensures OldestFirst(vm)
  {
    hide Coherent, Replacement.Agrees, BitsOf, PageStore.Pages, Replacement.After, Replacement.LegalRun, Replacement.TidyThroughout;
    var n, uses := vm.policy.queue.Length, vm.policy.uses;
    var h := Replacement.After(Replacement.Lru, Replacement.Booted(n), uses);
    Replacement.FullHasNoHole(vm.policy.queue[..], vm.memMgr.Bits());
    Replacement.LruVictim(n, uses);
    QueuedFirst(vm, h);
  }

  /** The search of activePageMap finds the frame of the page, if it has one, and no other. */
  lemma FoundFrame(s: VM, r: Ref, i: nat)
    requires Coherent(s) && r in s.entries && i < |s.resident| && s.resident[i] == s.entries[r].page
    ensures r in s.at && s.at[r] == i && i < |s.frameMap| && s.frameMap[i]
  {
    assert s.owner[i].Holds?;
    var x := s.owner[i].ref;
    assert s.entries[x].page == s.entries[r].page;
    assert s.swapOwner[s.entries[r].page] == Holds(x);
  }

  lemma NoFrame(s: VM, r: Ref)
    requires Coherent(s) && r in s.entries && forall j :: 0 <= j < |s.resident| ==> s.resident[j] != s.entries[r].page
    ensures r !in s.at
  {
  }

  lemma FrameInRange(s: VM, r: Ref)
    requires Coherent(s) && r in s.at
    ensures r in s.entries && s.at[r] < |s.owner| == |s.frames| == |s.resident| == |s.frameMap| && s.frameMap[s.at[r]]
    ensures s.resident[s.at[r]] == s.entries[r].page
    ensures s.entries[r].page < |s.swap| == |s.swapMap| == |s.swapOwner|
  {
  }

  /** bzero. */
  method ZeroBuffer(buffer: array<Byte>)
    modifies buffer
    ensures buffer[..] == Zeros(buffer.Length)
  {
    for i := 0 to buffer.Length
      invariant forall j :: 0 <= j < i ==> buffer[j] == 0
    {
      buffer[i] := 0;
    }
  }

  lemma FullQueue(q: seq<int>, used: seq<bool>)
    requires Replacement.Agrees(q, used) && 0 < |used| && FirstClear(used) == |used|
    ensures 0 <= q[0] < |q|
  {
    Replacement.FullHasNoHole(q, used);
  }

  lemma IsBoot(s: VM, numFrames: nat, swapSize: nat, ps: nat)
    requires 0 < numFrames == |s.frames| == |s.owner| == |s.resident| == |s.frameMap|
    requires |s.swap| == |s.swapMap| == |s.swapOwner| == swapSize
    requires forall p :: 0 <= p < numFrames ==> s.frames[p] == Zeros(ps)
    requires forall p :: 0 <= p < numFrames ==> s.owner[p] == Free
    requires forall p :: 0 <= p < numFrames ==> s.resident[p] == -1
    requires forall p :: 0 <= p < numFrames ==> !s.frameMap[p]
    requires forall q :: 0 <= q < swapSize ==> s.swap[q] == Zeros(ps)
    requires forall q :: 0 <= q < swapSize ==> !s.swapMap[q]
    requires forall q :: 0 <= q < swapSize ==> s.swapOwner[q] == Free
    requires s.entries == map[] && s.sizes == map[] && s.at == map[]
    ensures s == Boot(numFrames, swapSize, ps) && Coherent(s)
  {
    hide Zeros;
    BootCoherent(numFrames, swapSize, ps);
  }

  lemma EmptyAgrees(q: seq<int>, used: seq<bool>)
    requires |q| == |used| && (forall p :: 0 <= p < |used| ==> !used[p]) && forall i :: 0 <= i < |q| ==> q[i] == Replacement.EMPTY
    ensures Replacement.Agrees(q, used)
  {
    forall p | 0 <= p < |q| ensures multiset(q)[p] == 0 {
      assert p !in q;
    }
  }

  /** What a coherent state says about a frame that holds a page. */
  lemma HeldFrame(s: VM, p: nat)
    requires Coherent(s) && p < |s.owner| && s.owner[p].Holds?
    ensures |s.owner| == |s.frames| == |s.resident| == |s.frameMap|
    ensures s.owner[p].ref in s.entries && 0 <= s.resident[p] < |s.swap|
  {
  }
}
