/**
 * Demand paging as a cache of the swap file.  The state gathers what Nachos spreads over six places:
 * page-table entries, activePages, activePageMap, the two bitmaps, main memory and the swap file.
 * The steps are those of vm/vmManager.cc, vm/swapManager.cc, machine/translate.cc and the page-fault
 * handler, with the replacement policy left open: any frame number may be picked.
 */
module Paging {
  import opened Arithmetic
  import opened BitMaps

  type Page = seq<Byte>

  /** A page-table entry is named by its address space and virtual page number. */
  datatype Ref = Ref(space: nat, vpn: nat)

  /** page is the swap page the entry owns, kept in the field physicalPage of the source. */
  datatype Entry = Entry(page: nat, valid: bool, readOnly: bool, use: bool, dirty: bool)

  datatype Owner = Free | Holds(ref: Ref)

  datatype VM = VM(
    frames: seq<Page>,        // main memory, frame by frame
    swap: seq<Page>,          // the swap file, page by page
    owner: seq<Owner>,        // activePages
    resident: seq<int>,       // activePageMap
    frameMap: seq<bool>,      // the memory manager's bitmap
    swapMap: seq<bool>,       // the swap manager's bitmap
    entries: map<Ref, Entry>, // the page tables
    sizes: map<nat, nat>,     // number of pages of each live address space
    // two inverses the source never stores, kept to state the invariant
    at: map<Ref, nat>,        // the frame of each resident page
    swapOwner: seq<Owner>)    // the entry that owns each swap page

  // ---- the invariant ----

  ghost predicate Shape(s: VM) {
    && 0 < |s.frames| == |s.owner| == |s.resident| == |s.frameMap|
    && |s.swap| == |s.swapMap| == |s.swapOwner|
  }

  /** Every entry owns a marked swap page of its own, and no swap page is marked for nobody. */
  ghost predicate SwapOwned(s: VM)
    requires Shape(s)
  {
    && (forall r :: r in s.entries ==> s.entries[r].page < |s.swap| && s.swapOwner[s.entries[r].page] == Holds(r))
    && (forall q :: 0 <= q < |s.swap| ==> s.swapMap[q] == s.swapOwner[q].Holds?)
    && (forall q :: 0 <= q < |s.swap| && s.swapOwner[q].Holds? ==>
          s.swapOwner[q].ref in s.entries && s.entries[s.swapOwner[q].ref].page == q)
  }

  ghost predicate Resident(s: VM, r: Ref) {
    r in s.at
  }

  /** activePages, activePageMap and the frame bitmap describe the same frames, one page to a frame. */
  ghost predicate FramesAgree(s: VM)
    requires Shape(s)
  {
    && (forall p :: 0 <= p < |s.owner| ==> s.frameMap[p] == s.owner[p].Holds?)
    && (forall p :: 0 <= p < |s.owner| && s.owner[p].Free? ==> s.resident[p] == -1)
    && (forall p :: 0 <= p < |s.owner| && s.owner[p].Holds? ==> s.owner[p].ref in s.at && s.at[s.owner[p].ref] == p)
    && (forall r :: r in s.at ==> r in s.entries && s.at[r] < |s.owner| && s.owner[s.at[r]] == Holds(r) && s.resident[s.at[r]] == s.entries[r].page)
  }

  /** A clean resident page equals its swap page, and only a resident page can be dirty. */
  ghost predicate CacheCoherent(s: VM)
    requires Shape(s) && SwapOwned(s) && FramesAgree(s)
  {
    && (forall r :: r in s.at && !s.entries[r].dirty ==> s.frames[s.at[r]] == s.swap[s.entries[r].page])
    && (forall r :: r in s.entries && s.entries[r].dirty ==> r in s.at)
  }

  ghost predicate Coherent(s: VM) {
    Shape(s) && SwapOwned(s) && FramesAgree(s) && CacheCoherent(s)
  }

  /** The tables of the live spaces are complete, and no entry outlives its space. */
  ghost predicate TablesComplete(s: VM) {
    forall r: Ref :: r in s.entries <==> r.space in s.sizes && r.vpn < s.sizes[r.space]
  }

  /** A page that has never faulted in is not in any frame. */
  ghost predicate InvalidAbsent(s: VM) {
    forall r :: r in s.entries && !s.entries[r].valid ==> !Resident(s, r)
  }

  ghost predicate Inv(s: VM) {
    Coherent(s) && TablesComplete(s) && InvalidAbsent(s)
  }

  // ---- what a user program sees ----

  /** The current contents of a virtual page: its frame if it has one, else its swap page. */
  ghost function Contents(s: VM, r: Ref): Page
    requires Coherent(s) && r in s.entries
  {
    if r in s.at then s.frames[s.at[r]] else s.swap[s.entries[r].page]
  }

  /** Space sp has an entry for each of its pages. */
  ghost predicate Mapped(s: VM, sp: nat) {
    sp in s.sizes && forall v: nat :: v < s.sizes[sp] ==> Ref(sp, v) in s.entries
  }

  function ValidBits(s: VM, sp: nat): (r: seq<bool>)
    requires Mapped(s, sp)
    ensures |r| == s.sizes[sp]
  {
    seq(s.sizes[sp], v requires 0 <= v < s.sizes[sp] => s.entries[Ref(sp, v)].valid)
  }

  function ReadOnlyBits(s: VM, sp: nat): (r: seq<bool>)
    requires Mapped(s, sp)
    ensures |r| == s.sizes[sp]
  {
    seq(s.sizes[sp], v requires 0 <= v < s.sizes[sp] => s.entries[Ref(sp, v)].readOnly)
  }

  ghost predicate AllMapped(s: VM) {
    forall sp :: sp in s.sizes ==> Mapped(s, sp)
  }

  lemma CompleteMapsAll(s: VM)
    requires TablesComplete(s)
    ensures AllMapped(s)
  {
  }

  ghost predicate SamePage(s: VM, t: VM, r: Ref)
    requires Coherent(s) && Coherent(t) && r in s.entries && r in t.entries
  {
    && Contents(t, r) == Contents(s, r)
    && t.entries[r].valid == s.entries[r].valid && t.entries[r].readOnly == s.entries[r].readOnly
  }

  /** The two states have the same spaces and the same entries owning the same swap pages. */
  ghost predicate SameTables(s: VM, t: VM) {
    && |t.frames| == |s.frames| && t.sizes == s.sizes
    && t.swapMap == s.swapMap && t.swapOwner == s.swapOwner
    && t.entries.Keys == s.entries.Keys
    && (forall r :: r in s.entries ==> t.entries[r].page == s.entries[r].page)
  }

  /** A step between these two states is one that no program can see. */
  ghost predicate Invisible(s: VM, t: VM) {
    && Coherent(s) && Coherent(t) && SameTables(s, t)
    && (forall r :: r in s.entries ==> SamePage(s, t, r))
  }

  lemma InvisibleComposes(s: VM, t: VM, u: VM)
    requires Invisible(s, t) && Invisible(t, u)
    ensures Invisible(s, u)
  {
    forall r | r in s.entries ensures u.entries[r].page == s.entries[r].page && SamePage(s, u, r) {
      assert SamePage(s, t, r);
      assert r in t.entries && SamePage(t, u, r);
    }
  }

  lemma SameTablesComplete(s: VM, t: VM)
    requires SameTables(s, t) && TablesComplete(s)
    ensures TablesComplete(t)
  {
    forall r: Ref ensures r in t.entries <==> r in s.entries {
      assert r in t.entries.Keys <==> r in s.entries.Keys;
    }
  }

  // ---- swapping a page in ----

  /** Write the victim in frame p back if it is dirty, and reset its use and dirty bits. */
  function Evict(s: VM, p: nat): VM
    requires p < |s.owner| == |s.frames| == |s.resident| && s.owner[p].Holds? && s.owner[p].ref in s.entries
    requires 0 <= s.resident[p] < |s.swap|
  {
    var v := s.owner[p].ref;
    var e := s.entries[v];
    s.(entries := s.entries[v := e.(use := false, dirty := false)],
       swap := if e.dirty then s.swap[s.resident[p] := s.frames[p]] else s.swap)
  }

  /** Read the swap page of entry r into frame p and record it there. */
  function Install(s: VM, r: Ref, p: nat): VM
    requires p < |s.owner| == |s.frames| == |s.resident| == |s.frameMap|
    requires r in s.entries && s.entries[r].page < |s.swap|
  {
    var q := s.entries[r].page;
    s.(frameMap := s.frameMap[p := true], frames := s.frames[p := s.swap[q]],
       resident := s.resident[p := q], owner := s.owner[p := Holds(r)],
       at := (if s.owner[p].Holds? then s.at - {s.owner[p].ref} else s.at)[r := p])
  }

  /** The frame that a swap will use: the first free one, or the policy's pick when memory is full. */
  function Place(s: VM, pick: nat): nat {
    var f := FirstClear(s.frameMap);
    if f < |s.frameMap| then f else pick
  }

  function SwapIn(s: VM, r: Ref, pick: nat): VM
    requires Coherent(s) && r in s.entries && pick < |s.frames|
  {
    var p := Place(s, pick);
    Install(if s.owner[p].Holds? then Evict(s, p) else s, r, p)
  }

  lemma EvictStructure(s: VM, p: nat)
    requires Coherent(s) && p < |s.owner| && s.owner[p].Holds?
    ensures var t := Evict(s, p); Shape(t) && SwapOwned(t) && FramesAgree(t) && SameTables(s, t) && t.at == s.at
  {
  }

  lemma EvictCoherent(s: VM, p: nat)
    requires Coherent(s) && p < |s.owner| && s.owner[p].Holds?
    requires var t := Evict(s, p); Shape(t) && SwapOwned(t) && FramesAgree(t)
    ensures CacheCoherent(Evict(s, p))
  {
  }

  lemma EvictInvisible(s: VM, p: nat)
    requires Coherent(s) && p < |s.owner| && s.owner[p].Holds?
    ensures Invisible(s, Evict(s, p)) && Evict(s, p).at == s.at && !Evict(s, p).entries[s.owner[p].ref].dirty
  {
    EvictStructure(s, p);
    EvictCoherent(s, p);
    forall r | r in s.entries ensures SamePage(s, Evict(s, p), r) {
      if r !in s.at {
        assert s.entries[r].page != s.entries[s.owner[p].ref].page;
      }
    }
  }

  /** Install is safe on a frame that is free or holds a clean page, for a page held nowhere. */
  ghost predicate CanInstall(s: VM, r: Ref, p: nat) {
    && Coherent(s) && r in s.entries && !Resident(s, r) && p < |s.owner|
    && (s.owner[p].Holds? ==> !s.entries[s.owner[p].ref].dirty)
  }

  lemma InstallStructure(s: VM, r: Ref, p: nat)
    requires CanInstall(s, r, p)
    ensures var t := Install(s, r, p); Shape(t) && SwapOwned(t) && FramesAgree(t) && SameTables(s, t)
  {
  }

  lemma InstallCoherent(s: VM, r: Ref, p: nat)
    requires CanInstall(s, r, p)
    requires var t := Install(s, r, p); Shape(t) && SwapOwned(t) && FramesAgree(t)
    ensures CacheCoherent(Install(s, r, p))
  {
  }

  lemma InstallContents(s: VM, r: Ref, p: nat, x: Ref)
    requires CanInstall(s, r, p) && Coherent(Install(s, r, p)) && x in s.entries
    ensures SamePage(s, Install(s, r, p), x)
  {
  }

  lemma InstallInvisible(s: VM, r: Ref, p: nat)
    requires CanInstall(s, r, p)
    ensures Invisible(s, Install(s, r, p))
  {
    InstallStructure(s, r, p);
    InstallCoherent(s, r, p);
    forall x | x in s.entries ensures SamePage(s, Install(s, r, p), x) {
      InstallContents(s, r, p, x);
    }
  }

  lemma SwapInPlaces(s: VM, r: Ref, pick: nat)
    requires Coherent(s) && r in s.entries && !Resident(s, r) && pick < |s.frames|
    ensures Resident(SwapIn(s, r, pick), r) && SwapIn(s, r, pick).at[r] == Place(s, pick)
    ensures forall x :: x != r && !Resident(s, x) ==> !Resident(SwapIn(s, r, pick), x)
  {
  }

  /**
   * Swapping in a page that is in no frame changes nothing a program can see, whatever frame the
   * policy picks: the victim is written back if dirty before its frame is reused.
   */
  lemma SwapInInvisible(s: VM, r: Ref, pick: nat)
    requires Coherent(s) && r in s.entries && !Resident(s, r) && pick < |s.frames|
    ensures Invisible(s, SwapIn(s, r, pick))
  {
    var p := Place(s, pick);
    if s.owner[p].Holds? {
      EvictInvisible(s, p);
      InstallInvisible(Evict(s, p), r, p);
      InvisibleComposes(s, Evict(s, p), SwapIn(s, r, pick));
    } else {
      InstallInvisible(s, r, p);
    }
  }

  // ---- the start ----

  /** The state the constructors build: every frame and every swap page free, no address space. */
  function Boot(numFrames: nat, swapSize: nat, ps: nat): VM {
    VM(seq(numFrames, _ => Zeros(ps)), seq(swapSize, _ => Zeros(ps)),
       seq(numFrames, _ => Free), seq(numFrames, _ => -1), seq(numFrames, _ => false), seq(swapSize, _ => false),
       map[], map[], map[], seq(swapSize, _ => Free))
  }

  lemma BootCoherent(numFrames: nat, swapSize: nat, ps: nat)
    requires 0 < numFrames
    ensures Coherent(Boot(numFrames, swapSize, ps))
  {
  }
}
