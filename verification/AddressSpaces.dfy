/**
 * Creating, loading and destroying address spaces (userprog/addrspace.cc) over paged memory.
 * A new space reads as zeros, loading writes exactly the image, and destruction gives back every
 * swap page and frame of the space while the other spaces keep every byte.
 */
module AddressSpaces {
  import opened Arithmetic
  import opened BitMaps
  import opened Paging
  import opened PagedMemory
  import opened PagedAccess
  import U = UserMemory

  // ---- creation ----

  /** Give space sp one more page: the first free swap page, zeroed and not yet valid. */
  function AddPage(s: VM, sp: nat, ps: nat): VM
    requires sp in s.sizes && |s.swap| == |s.swapMap| == |s.swapOwner| && FirstClear(s.swapMap) < |s.swapMap|
  {
    var q, n := FirstClear(s.swapMap), s.sizes[sp];
    var r := Ref(sp, n);
    s.(swapMap := s.swapMap[q := true], swapOwner := s.swapOwner[q := Holds(r)], swap := s.swap[q := Zeros(ps)],
       entries := s.entries[r := Entry(q, false, false, false, false)], sizes := s.sizes[sp := n + 1])
  }

  function Grow(m: U.Memory): U.Memory {
    m.(bytes := m.bytes + Zeros(m.pageSize), valid := m.valid + [false], readOnly := m.readOnly + [false])
  }

  ghost predicate CanGrow(s: VM, sp: nat, ps: nat) {
    Good(s, ps) && AllMapped(s) && sp in s.sizes && FirstClear(s.swapMap) < |s.swapMap| == |s.swap| == |s.swapOwner|
  }

  lemma AddPageStructure(s: VM, sp: nat, ps: nat)
    requires CanGrow(s, sp, ps)
    ensures var t := AddPage(s, sp, ps); Shape(t) && SwapOwned(t)
  {
    hide CacheCoherent, FramesAgree, Sized, AllMapped;
    var q, r := FirstClear(s.swapMap), Ref(sp, s.sizes[sp]);
    assert r !in s.entries;
    assert s.swapOwner[q].Free?;
  }

  /** The new entry and its swap page were nobody's. */
  lemma AddPageFresh(s: VM, sp: nat, ps: nat)
    requires CanGrow(s, sp, ps)
    ensures Ref(sp, s.sizes[sp]) !in s.entries && Ref(sp, s.sizes[sp]) !in s.at
    ensures forall x :: x in s.entries ==> s.entries[x].page != FirstClear(s.swapMap)
  {
    assert s.swapOwner[FirstClear(s.swapMap)].Free?;
  }

  lemma AddPageFrames(s: VM, sp: nat, ps: nat)
    requires CanGrow(s, sp, ps)
    requires var t := AddPage(s, sp, ps); Shape(t) && SwapOwned(t)
    ensures FramesAgree(AddPage(s, sp, ps))
  {
    hide Sized, AllMapped, SwapOwned, CacheCoherent, FirstClear;
    AddPageFresh(s, sp, ps);
  }

  lemma AddPageCache(s: VM, sp: nat, ps: nat)
    requires CanGrow(s, sp, ps)
    requires var t := AddPage(s, sp, ps); Shape(t) && SwapOwned(t) && FramesAgree(t)
    ensures CacheCoherent(AddPage(s, sp, ps))
  {
    hide Sized, AllMapped, FirstClear;
    AddPageFresh(s, sp, ps);
  }

  lemma AddPageSamePage(s: VM, sp: nat, ps: nat, x: Ref)
    requires CanGrow(s, sp, ps) && Coherent(AddPage(s, sp, ps)) && x in s.entries
    ensures x in AddPage(s, sp, ps).entries && SamePage(s, AddPage(s, sp, ps), x)
  {
    hide CacheCoherent, Sized, AllMapped;
    assert Ref(sp, s.sizes[sp]) !in s.entries;
    assert s.swapOwner[FirstClear(s.swapMap)].Free?;
    assert s.entries[x].page != FirstClear(s.swapMap);
  }

  lemma AddPageCoherent(s: VM, sp: nat, ps: nat)
    requires CanGrow(s, sp, ps)
    ensures Coherent(AddPage(s, sp, ps))
  {
    hide Shape, SwapOwned, FramesAgree, CacheCoherent;
    AddPageStructure(s, sp, ps);
    AddPageFrames(s, sp, ps);
    AddPageCache(s, sp, ps);
  }

  lemma AddPageGood(s: VM, sp: nat, ps: nat)
    requires CanGrow(s, sp, ps)
    ensures var t := AddPage(s, sp, ps); Good(t, ps) && AllMapped(t)
  {
    hide Coherent, FirstClear;
    AddPageCoherent(s, sp, ps);
    AddPageFresh(s, sp, ps);
    CompleteMapsAll(AddPage(s, sp, ps));
  }

  lemma AddPageSpace(s: VM, sp: nat, ps: nat)
    requires CanGrow(s, sp, ps) && Good(AddPage(s, sp, ps), ps) && Mapped(s, sp) && Mapped(AddPage(s, sp, ps), sp)
    ensures SpaceView(AddPage(s, sp, ps), ps, sp) == Grow(SpaceView(s, ps, sp))
  {
    var t, n := AddPage(s, sp, ps), s.sizes[sp];
    AddPageFresh(s, sp, ps);
    assert Contents(t, Ref(sp, n)) == Zeros(ps);
    hide Coherent, Contents, Sized, AllMapped;
    forall v | 0 <= v < n
      ensures Pages(t, sp)[v] == Pages(s, sp)[v] && ValidBits(t, sp)[v] == ValidBits(s, sp)[v]
      ensures ReadOnlyBits(t, sp)[v] == ReadOnlyBits(s, sp)[v]
    {
      AddPageSamePage(s, sp, ps, Ref(sp, v));
    }
    assert Pages(t, sp) == Pages(s, sp) + [Zeros(ps)];
    assert Pages(t, sp)[..n] == Pages(s, sp);
    assert ValidBits(t, sp) == ValidBits(s, sp) + [false];
    assert ReadOnlyBits(t, sp) == ReadOnlyBits(s, sp) + [false];
  }

  lemma AddPageOther(s: VM, sp: nat, ps: nat, x: nat)
    requires CanGrow(s, sp, ps) && Coherent(AddPage(s, sp, ps)) && Mapped(s, x) && Mapped(AddPage(s, sp, ps), x) && x != sp
    ensures SpaceView(AddPage(s, sp, ps), ps, x) == SpaceView(s, ps, x)
  {
    hide Coherent, Contents, Sized, AllMapped, SamePage;
    forall v: nat | v < s.sizes[x] ensures SamePage(s, AddPage(s, sp, ps), Ref(x, v)) {
      AddPageSamePage(s, sp, ps, Ref(x, v));
    }
    SpaceDependsOnContents(s, AddPage(s, sp, ps), x);
  }

  lemma AddPageView(s: VM, sp: nat, ps: nat)
    requires CanGrow(s, sp, ps)
    ensures var t := AddPage(s, sp, ps);
      Good(t, ps) && AllMapped(t) && View(t, ps) == View(s, ps)[sp := Grow(SpaceView(s, ps, sp))]
  {
    hide Coherent, Contents, Sized, SpaceView, Grow;
    var t := AddPage(s, sp, ps);
    AddPageGood(s, sp, ps);
    assert Mapped(s, sp) && Mapped(t, sp);
    AddPageSpace(s, sp, ps);
    forall x | x in s.sizes && x != sp ensures SpaceView(t, ps, x) == SpaceView(s, ps, x) {
      assert Mapped(s, x) && Mapped(t, x);
      AddPageOther(s, sp, ps, x);
    }
  }

  /** A space of n pages, all zero and none yet valid. */
  function Blank(n: nat, ps: nat): U.Memory {
    U.Memory(ps, Zeros(n * ps), seq(n, _ => false), seq(n, _ => false))
  }

  lemma GrowBlank(n: nat, ps: nat)
    ensures Grow(Blank(n, ps)) == Blank(n + 1, ps)
  {
    assert (n + 1) * ps == n * ps + ps;
    assert Zeros(n * ps) + Zeros(ps) == Zeros((n + 1) * ps);
  }

  ghost predicate CanCreate(s: VM, sp: nat, n: nat, ps: nat) {
    Good(s, ps) && AllMapped(s) && sp !in s.sizes && n <= CountClear(s.swapMap)
  }

  /** The constructor's loop: one swap page for each page of the space. */
  function Create(s: VM, sp: nat, n: nat, ps: nat): VM {
    if n == 0 then s.(sizes := s.sizes[sp := 0])
    else
      var t := Create(s, sp, n - 1, ps);
      if sp in t.sizes && |t.swap| == |t.swapMap| == |t.swapOwner| && FirstClear(t.swapMap) < |t.swapMap| then
        AddPage(t, sp, ps)
      else
        t
  }

  ghost predicate Created(s: VM, t: VM, sp: nat, n: nat, ps: nat)
    requires Good(s, ps) && AllMapped(s)
  {
    && Good(t, ps) && AllMapped(t) && t.sizes == s.sizes[sp := n] && |t.frames| == |s.frames|
    && CountClear(t.swapMap) == CountClear(s.swapMap) - n
    && View(t, ps) == View(s, ps)[sp := Blank(n, ps)]
  }

  lemma CreateNext(s: VM, t: VM, sp: nat, n: nat, ps: nat)
    requires Good(s, ps) && AllMapped(s) && Created(s, t, sp, n, ps) && CountClear(t.swapMap) > 0
    ensures CanGrow(t, sp, ps) && Created(s, AddPage(t, sp, ps), sp, n + 1, ps)
  {
    hide Coherent, Sized, SpaceView, Blank, Grow, FirstClear, CountClear;
    CreateStep(t, sp, ps);
    AddPageView(t, sp, ps);
    GrowBlank(n, ps);
    assert View(t, ps)[sp] == SpaceView(t, ps, sp);
  }

  /** A created space reads as zeros, costs exactly n swap pages, and disturbs no other space. */
  lemma {:induction false} CreateRefines(s: VM, sp: nat, n: nat, ps: nat)
    requires CanCreate(s, sp, n, ps)
    ensures Created(s, Create(s, sp, n, ps), sp, n, ps)
  {
    hide Coherent, Sized, InvalidAbsent, SpaceView, View, AddPage, AllMapped;
    if n == 0 {
      EmptySpace(s, sp, ps);
    } else {
      CreateRefines(s, sp, n - 1, ps);
      CreateNext(s, Create(s, sp, n - 1, ps), sp, n - 1, ps);
    }
  }

  lemma CreateStep(s: VM, sp: nat, ps: nat)
    requires Good(s, ps) && AllMapped(s) && sp in s.sizes && CountClear(s.swapMap) > 0
    ensures CanGrow(s, sp, ps) && CountClear(AddPage(s, sp, ps).swapMap) == CountClear(s.swapMap) - 1
  {
    CountFindsClear(s.swapMap);
    CountUpdate(s.swapMap, FirstClear(s.swapMap), true);
  }

  lemma ResizedCoherent(s: VM, sizes: map<nat, nat>)
    requires Coherent(s)
    ensures Coherent(s.(sizes := sizes))
  {
  }

  /** Whether a space is live elsewhere does not touch the pages of this one. */
  lemma ResizedSpace(s: VM, sizes: map<nat, nat>, ps: nat, x: nat)
    requires Coherent(s) && Coherent(s.(sizes := sizes)) && Mapped(s, x) && x in sizes && sizes[x] == s.sizes[x]
    ensures Mapped(s.(sizes := sizes), x) && SpaceView(s.(sizes := sizes), ps, x) == SpaceView(s, ps, x)
  {
    var t := s.(sizes := sizes);
    hide Coherent;
    assert Pages(t, x) == Pages(s, x);
  }

  lemma NoPages(s: VM, ps: nat, sp: nat)
    requires Coherent(s) && Mapped(s, sp) && s.sizes[sp] == 0
    ensures SpaceView(s, ps, sp) == Blank(0, ps)
  {
    hide Coherent, Contents;
    assert Pages(s, sp) == [];
  }

  lemma EmptySpace(s: VM, sp: nat, ps: nat)
    requires Good(s, ps) && AllMapped(s) && sp !in s.sizes
    ensures var t := s.(sizes := s.sizes[sp := 0]); Good(t, ps) && AllMapped(t) && View(t, ps) == View(s, ps)[sp := Blank(0, ps)]
  {
    hide Coherent, SpaceView;
    var t := s.(sizes := s.sizes[sp := 0]);
    ResizedCoherent(s, s.sizes[sp := 0]);
    forall x | x in s.sizes ensures Mapped(t, x) && SpaceView(t, ps, x) == SpaceView(s, ps, x) {
      assert Mapped(s, x);
      ResizedSpace(s, s.sizes[sp := 0], ps, x);
    }
    NoPages(t, ps, sp);
  }

  // ---- loading the program ----

  /** Writing part of a page of a program image straight into swap (vmMgr->writePage). */
  ghost predicate CanPoke(s: VM, ps: nat, r: Ref, off: nat, n: nat) {
    && Good(s, ps) && AllMapped(s) && r.space in s.sizes && r.vpn < s.sizes[r.space]
    && r in s.entries && !s.entries[r].valid && off + n <= ps
  }

  function Poke(s: VM, r: Ref, off: nat, data: seq<Byte>): VM
    requires r in s.entries
  {
    var q := s.entries[r].page;
    if q < |s.swap| && off + |data| <= |s.swap[q]| then WriteSwap(s, q, off, data) else s
  }

  lemma PokeGood(s: VM, ps: nat, r: Ref, off: nat, data: seq<Byte>)
    requires CanPoke(s, ps, r, off, |data|)
    ensures var t := Poke(s, r, off, data); Good(t, ps) && AllMapped(t) && Writes(s, t, r, off, data)
  {
    assert !Resident(s, r);
    assert |s.swap[s.entries[r].page]| == ps;
    WriteSwapWrites(s, r, off, data);
    hide Coherent, Contents, SamePage;
    CompleteMapsAll(Poke(s, r, off, data));
  }

  function Patch(m: U.Memory, at: nat, data: seq<Byte>): U.Memory {
    if at + |data| <= |m.bytes| then m.(bytes := Overwrite(m.bytes, at, data)) else m
  }

  /** A page not yet valid is in no frame, so writing its swap page is writing its bytes. */
  lemma PokeRefines(s: VM, ps: nat, r: Ref, off: nat, data: seq<Byte>)
    requires CanPoke(s, ps, r, off, |data|)
    ensures 0 <= r.vpn * ps + off
    ensures Shows(s, Poke(s, r, off, data), ps, r.space, Patch(SpaceView(s, ps, r.space), r.vpn * ps + off, data))
  {
    hide Coherent, Contents, SamePage, Pages;
    PokeGood(s, ps, r, off, data);
    assert Mapped(s, r.space);
    PagesUniform(s, ps, r.space);
    WritesView(s, Poke(s, r, off, data), r, off, data, ps);
  }

  // ---- destruction ----

  /** vmMgr->clearPage: release the frame and the swap page of entry r, zeroing the swap page. */
  function ClearPage(s: VM, r: Ref, ps: nat): VM {
    if r in s.at && r in s.entries && s.at[r] < |s.owner| == |s.resident| == |s.frameMap|
       && s.entries[r].page < |s.swap| == |s.swapMap| == |s.swapOwner| then
      var p, q := s.at[r], s.entries[r].page;
      s.(owner := s.owner[p := Free], resident := s.resident[p := -1], frameMap := s.frameMap[p := false], at := s.at - {r},
         swap := s.swap[q := Zeros(ps)], swapMap := s.swapMap[q := false], swapOwner := s.swapOwner[q := Free], entries := s.entries - {r})
    else
      s
  }

  lemma ClearPageStructure(s: VM, r: Ref, ps: nat)
    requires Coherent(s) && Resident(s, r)
    ensures var t := ClearPage(s, r, ps); Shape(t) && SwapOwned(t) && FramesAgree(t)
    ensures var t := ClearPage(s, r, ps); t.entries == s.entries - {r} && t.at == s.at - {r} && t.sizes == s.sizes && |t.frames| == |s.frames|
  {
  }

  lemma ClearPageCache(s: VM, r: Ref, ps: nat)
    requires Coherent(s) && Resident(s, r)
    requires var t := ClearPage(s, r, ps); Shape(t) && SwapOwned(t) && FramesAgree(t)
    ensures CacheCoherent(ClearPage(s, r, ps))
  {
  }

  lemma ClearPageCoherent(s: VM, r: Ref, ps: nat)
    requires Coherent(s) && Resident(s, r)
    ensures var t := ClearPage(s, r, ps); Coherent(t) && t.entries == s.entries - {r} && t.at == s.at - {r} && t.sizes == s.sizes && |t.frames| == |s.frames|
    ensures CountClear(ClearPage(s, r, ps).swapMap) == CountClear(s.swapMap) + 1
  {
    ClearPageStructure(s, r, ps);
    ClearPageCache(s, r, ps);
    CountUpdate(s.swapMap, s.entries[r].page, false);
  }

  lemma ClearPageSamePage(s: VM, r: Ref, ps: nat, x: Ref)
    requires Coherent(s) && Resident(s, r) && Coherent(ClearPage(s, r, ps)) && x in s.entries && x in ClearPage(s, r, ps).entries && x != r
    ensures SamePage(s, ClearPage(s, r, ps), x)
  {
    hide CacheCoherent;
    assert s.entries[x].page != s.entries[r].page;
    if x in s.at {
      assert s.at[x] != s.at[r];
    }
  }

  /** The destructor's state: pages i to n of the dead space sp are still held, nothing else of it is. */
  ghost predicate Dying(s: VM, sp: nat, i: nat, n: nat, ps: nat) {
    && Coherent(s) && Sized(s, ps) && InvalidAbsent(s) && sp !in s.sizes
    && (forall r: Ref :: r in s.entries <==> (r.space in s.sizes && r.vpn < s.sizes[r.space]) || (r.space == sp && i <= r.vpn < n))
  }

  /** One turn of the destructor's loop: getPhysicalPage, which may swap, then clearPage. */
  ghost function Release(s: VM, r: Ref, pick: nat, ps: nat): VM {
    if Coherent(s) && r in s.entries && pick < |s.frames| then ClearPage(GetFrame(s, r, pick), r, ps) else s
  }

  lemma DyingMapsAll(s: VM, sp: nat, i: nat, n: nat, ps: nat)
    requires Dying(s, sp, i, n, ps)
    ensures AllMapped(s)
  {
    hide Coherent;
  }

  ghost predicate Released(s: VM, t: VM, r: Ref) {
    && Coherent(s) && Coherent(t)
    && t.entries.Keys == s.entries.Keys - {r} && t.sizes == s.sizes && |t.frames| == |s.frames|
    && CountClear(t.swapMap) == CountClear(s.swapMap) + 1
    && (forall x :: x in t.entries ==> x in s.entries && SamePage(s, t, x))
    && (forall x :: x in t.at ==> x in s.at)
  }

  lemma ReleaseKeeps(s: VM, r: Ref, pick: nat, ps: nat)
    requires Coherent(s) && r in s.entries && pick < |s.frames|
    ensures Released(s, Release(s, r, pick, ps), r)
  {
    hide Coherent, SwapIn, Contents, ClearPage, CountClear;
    var g := GetFrame(s, r, pick);
    GetFrameInvisible(s, r, pick);
    GetFramePlaces(s, r, pick);
    ClearPageCoherent(g, r, ps);
    var t := ClearPage(g, r, ps);
    forall x | x in t.entries ensures x in s.entries && SamePage(s, t, x) {
      assert x in s.entries && SamePage(s, g, x);
      ClearPageSamePage(g, r, ps, x);
    }
    assert t.entries.Keys == g.entries.Keys - {r};
    forall x | x in t.at ensures x in s.at {
      assert Resident(g, x) && x != r;
    }
  }

  lemma ReleaseSized(s: VM, r: Ref, pick: nat, ps: nat)
    requires Coherent(s) && r in s.entries && pick < |s.frames| && Sized(s, ps)
    ensures Sized(Release(s, r, pick, ps), ps)
  {
    hide Coherent, SwapIn, Contents;
    GetFrameSized(s, r, pick, ps);
  }

  lemma ReleaseStep(s: VM, sp: nat, i: nat, n: nat, pick: nat, ps: nat)
    requires Dying(s, sp, i, n, ps) && i < n && pick < |s.frames|
    ensures Released(s, Release(s, Ref(sp, i), pick, ps), Ref(sp, i))
    ensures Dying(Release(s, Ref(sp, i), pick, ps), sp, i + 1, n, ps)
  {
    hide Coherent, Contents, Release, CountClear;
    var r := Ref(sp, i);
    var t := Release(s, r, pick, ps);
    ReleaseKeeps(s, r, pick, ps);
    ReleaseSized(s, r, pick, ps);
    forall x: Ref ensures x in t.entries <==> x in s.entries && x != r {
      assert x in t.entries.Keys <==> x in s.entries.Keys && x != r;
    }
    forall x | x in t.entries && !t.entries[x].valid ensures !Resident(t, x) {
      assert SamePage(s, t, x);
    }
  }

  /** Releasing a page of a dead space, even when that evicts a dirty page, is invisible to the living. */
  lemma ReleasedView(s: VM, t: VM, r: Ref, ps: nat)
    requires Released(s, t, r) && AllMapped(s) && AllMapped(t)
    ensures View(t, ps) == View(s, ps)
  {
    hide Coherent, Contents, SamePage;
    forall sp | sp in s.sizes ensures SpaceView(t, ps, sp) == SpaceView(s, ps, sp) {
      assert Mapped(s, sp) && Mapped(t, sp);
      SpaceDependsOnContents(s, t, sp);
    }
  }

  ghost function DestroyFrom(s: VM, sp: nat, i: nat, n: nat, picks: seq<nat>, ps: nat): VM
    requires i <= n == |picks|
    decreases n - i
  {
    if i == n then s else DestroyFrom(Release(s, Ref(sp, i), picks[i], ps), sp, i + 1, n, picks, ps)
  }

  lemma {:induction false} DestroyFromRefines(s: VM, sp: nat, i: nat, n: nat, picks: seq<nat>, ps: nat)
    requires Dying(s, sp, i, n, ps) && i <= n == |picks| && forall k :: 0 <= k < n ==> picks[k] < |s.frames|
    ensures var t := DestroyFrom(s, sp, i, n, picks, ps);
      && Dying(t, sp, n, n, ps) && AllMapped(s) && AllMapped(t) && t.sizes == s.sizes && |t.frames| == |s.frames|
      && CountClear(t.swapMap) == CountClear(s.swapMap) + (n - i)
      && View(t, ps) == View(s, ps)
    decreases n - i
  {
    hide Coherent, CountClear, Release, Sized, InvalidAbsent;
    DyingMapsAll(s, sp, i, n, ps);
    if i < n {
      var t := Release(s, Ref(sp, i), picks[i], ps);
      ReleaseStep(s, sp, i, n, picks[i], ps);
      DyingMapsAll(t, sp, i + 1, n, ps);
      ReleasedView(s, t, Ref(sp, i), ps);
      DestroyFromRefines(t, sp, i + 1, n, picks, ps);
    }
  }

  ghost predicate CanDestroy(s: VM, sp: nat, picks: seq<nat>, ps: nat) {
    && Good(s, ps) && AllMapped(s) && sp in s.sizes && |picks| == s.sizes[sp]
    && forall k :: 0 <= k < |picks| ==> picks[k] < |s.frames|
  }

  ghost function Destroy(s: VM, sp: nat, picks: seq<nat>, ps: nat): VM {
    DestroyFrom(s.(sizes := s.sizes - {sp}), sp, 0, |picks|, picks, ps)
  }

  lemma DeadSpace(s: VM, sp: nat, picks: seq<nat>, ps: nat)
    requires CanDestroy(s, sp, picks, ps)
    ensures var t := s.(sizes := s.sizes - {sp});
      Dying(t, sp, 0, |picks|, ps) && AllMapped(t) && View(t, ps) == View(s, ps) - {sp}
  {
    hide Coherent, SpaceView;
    var t := s.(sizes := s.sizes - {sp});
    ResizedCoherent(s, t.sizes);
    forall x | x in t.sizes ensures Mapped(t, x) && SpaceView(t, ps, x) == SpaceView(s, ps, x) {
      assert Mapped(s, x);
      ResizedSpace(s, t.sizes, ps, x);
    }
  }

  /**
   * Destroying a space removes it and nothing else from what programs see, leaves no entry and no
   * frame of it behind, and makes exactly its pages free again in swap.
   */
  lemma DestroyRefines(s: VM, sp: nat, picks: seq<nat>, ps: nat)
    requires CanDestroy(s, sp, picks, ps)
    ensures var t := Destroy(s, sp, picks, ps);
      && Good(t, ps) && AllMapped(t) && t.sizes == s.sizes - {sp} && |t.frames| == |s.frames|
      && View(t, ps) == View(s, ps) - {sp}
      && CountClear(t.swapMap) == CountClear(s.swapMap) + s.sizes[sp]
      && (forall r :: r in t.entries || r in t.at ==> r.space != sp)
  {
    DeadSpace(s, sp, picks, ps);
    var d := s.(sizes := s.sizes - {sp});
    DestroyFromRefines(d, sp, 0, |picks|, picks, ps);
    DestroyedFrames(DestroyFrom(d, sp, 0, |picks|, picks, ps), sp, |picks|, ps);
  }

  lemma DestroyedFrames(t: VM, sp: nat, n: nat, ps: nat)
    requires Dying(t, sp, n, n, ps)
    ensures Good(t, ps) && forall r :: r in t.entries || r in t.at ==> r.space != sp
  {
    hide SwapOwned, CacheCoherent, Sized, InvalidAbsent;
  }

  /** A space created and then destroyed leaves the programs and the free swap pages as they were. */
  lemma CreateThenDestroy(s: VM, sp: nat, n: nat, picks: seq<nat>, ps: nat)
    requires CanCreate(s, sp, n, ps) && |picks| == n && forall k :: 0 <= k < |picks| ==> picks[k] < |s.frames|
    ensures var t := Destroy(Create(s, sp, n, ps), sp, picks, ps);
      && Good(t, ps) && AllMapped(t) && t.sizes == s.sizes && View(t, ps) == View(s, ps)
      && CountClear(t.swapMap) == CountClear(s.swapMap)
      && (forall r :: r in t.entries || r in t.at ==> r.space != sp)
  {
    hide Coherent, Sized, InvalidAbsent, SpaceView, AllMapped, Create, DestroyFrom, Destroy, CountClear, TablesComplete;
    CreateRefines(s, sp, n, ps);
    DestroyRefines(Create(s, sp, n, ps), sp, picks, ps);
    assert s.sizes[sp := n] - {sp} == s.sizes;
    assert View(s, ps)[sp := Blank(n, ps)] - {sp} == View(s, ps);
  }
}
