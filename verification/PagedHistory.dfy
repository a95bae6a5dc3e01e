/**
 * What the records of paged memory say of the past, over every run.  A page's use and dirty bits tell
 * whether it was accessed and written since it last came into memory, and a swap page that belongs to no
 * program holds nothing of any.
 */
module PagedHistory {
  import opened Arithmetic
  import opened BitMaps
  import opened Paging
  import opened PagedMemory
  import opened AddressSpaces
  import opened PagedRuns
  import U = UserMemory

  // ---- a swap, in full ----

  /** The first frame that is not in use, or the policy's pick when all are. */
  ghost predicate Chosen(s: VM, pick: nat, p: nat) {
    && p < |s.frameMap|
    && if forall j :: 0 <= j < |s.frameMap| ==> s.frameMap[j] then p == pick
       else !s.frameMap[p] && forall j :: 0 <= j < p ==> s.frameMap[j]
  }

  /** The frame is given to the page of r: the page in it before goes back to its swap page, its bits cleared. */
  ghost predicate Brought(s: VM, t: VM, r: Ref, p: nat)
    requires Coherent(s) && r in s.entries && p < |s.owner|
  {
    && t.frames == s.frames[p := Contents(s, r)] && t.owner == s.owner[p := Holds(r)]
    && t.resident == s.resident[p := s.entries[r].page] && t.frameMap == s.frameMap[p := true]
    && t.swapMap == s.swapMap && t.swapOwner == s.swapOwner && t.sizes == s.sizes
    && (if s.owner[p].Holds? then
          var v := s.owner[p].ref; var e := s.entries[v];
          && t.at == (s.at - {v})[r := p] && t.entries == s.entries[v := Entry(e.page, e.valid, e.readOnly, false, false)]
          && t.swap == s.swap[e.page := s.frames[p]]
        else t.at == s.at[r := p] && t.entries == s.entries && t.swap == s.swap)
  }

  lemma PlaceIsChosen(s: VM, pick: nat)
    requires Coherent(s) && pick < |s.frames|
    ensures Chosen(s, pick, Place(s, pick)) && |s.owner| == |s.frames| == |s.frameMap|
  {
  }

  lemma EvictBrings(s: VM, p: nat)
    requires Coherent(s) && p < |s.owner| && s.owner[p].Holds?
    ensures s.owner[p].ref in s.entries && s.entries[s.owner[p].ref].page < |s.swap| && |s.frames| == |s.owner|
    ensures var v, t := s.owner[p].ref, Evict(s, p); var e := s.entries[v];
      t == s.(entries := s.entries[v := Entry(e.page, e.valid, e.readOnly, false, false)], swap := s.swap[e.page := s.frames[p]])
  {
    var v := s.owner[p].ref;
    assert s.at[v] == p;
    assert !s.entries[v].dirty ==> s.swap[s.entries[v].page := s.frames[p]] == s.swap;
  }

  /** A page that is in no frame is brought into the chosen one, and everything else is as it was. */
  lemma SwapInBrings(s: VM, r: Ref, pick: nat)
    requires Coherent(s) && r in s.entries && !Resident(s, r) && pick < |s.frames|
    ensures var t := SwapIn(s, r, pick);
      r in t.at && t.at[r] < |s.owner| && Chosen(s, pick, t.at[r]) && Brought(s, t, r, t.at[r])
  {
    var p := Place(s, pick);
    PlaceIsChosen(s, pick);
    if s.owner[p].Holds? {
      EvictBrings(s, p);
      assert s.owner[p].ref != r && s.entries[s.owner[p].ref].page != s.entries[r].page by {
        assert s.owner[p].ref in s.at;
        assert s.swapOwner[s.entries[r].page] == Holds(r);
      }
    }
    hide Chosen;
  }

  // ---- what the bits remember ----

  /** The pages accessed, and those written, since they last came into memory. */
  datatype Marks = Marks(used: set<Ref>, written: set<Ref>)

  ghost predicate Tells(s: VM, k: Marks) {
    && (forall r :: r in k.used || r in k.written ==> r in s.at)
    && (forall r :: r in s.entries ==> s.entries[r].use == (r in k.used) && s.entries[r].dirty == (r in k.written))
  }

  /** What is left of k when pages have gone from memory. */
  function Kept(k: Marks, at: map<Ref, nat>): Marks {
    Marks(set r | r in k.used && r in at, set r | r in k.written && r in at)
  }

  function Accessed(k: Marks, r: Ref, writing: bool): Marks {
    Marks(k.used + {r}, if writing then k.written + {r} else k.written)
  }

  /** The operation reached a page: a load that gave a value, a store that was done. */
  predicate Reaches(op: Op, a: U.Answer) {
    (op.Load? && a.Value?) || (op.Store? && a.Stored?)
  }

  /** The marks after an operation, from its answer and from what is then in memory. */
  function Marked(k: Marks, op: Op, a: U.Answer, at: map<Ref, nat>, ps: nat): Marks
    requires 0 < ps
  {
    if Reaches(op, a) then Accessed(Kept(k, at), Ref(op.space, op.addr / ps), op.Store?) else Kept(k, at)
  }

  lemma NothingGone(s: VM, k: Marks)
    requires Tells(s, k)
    ensures Kept(k, s.at) == k
  {
  }

  /** Marks and bits when at most the page v has left memory, its bits cleared, and r has come. */
  lemma ExchangeTells(s: VM, t: VM, r: Ref, k: Marks, gone: set<Ref>)
    requires Tells(s, k) && r in s.entries && r !in s.at && r !in gone
    requires t.entries.Keys == s.entries.Keys && t.at.Keys == s.at.Keys - gone + {r}
    requires forall x :: x in s.entries ==> if x in gone then !t.entries[x].use && !t.entries[x].dirty else t.entries[x] == s.entries[x]
    ensures Tells(t, Kept(k, t.at))
  {
    assert forall x :: x in t.at <==> x in t.at.Keys;
    assert forall x :: x in t.entries <==> x in t.entries.Keys;
  }

  lemma SwapInTells(s: VM, r: Ref, pick: nat, k: Marks)
    requires Coherent(s) && r in s.entries && !Resident(s, r) && pick < |s.frames| && Tells(s, k)
    ensures Tells(SwapIn(s, r, pick), Kept(k, SwapIn(s, r, pick).at))
  {
    hide SwapIn, Coherent, Chosen, Contents, Tells, Kept;
    SwapInBrings(s, r, pick);
    var t := SwapIn(s, r, pick);
    var p := t.at[r];
    var gone := if s.owner[p].Holds? then {s.owner[p].ref} else {};
    if s.owner[p].Holds? {
      HeldIsResident(s, p);
    }
    ExchangeTells(s, t, r, k, gone);
  }

  lemma HeldIsResident(s: VM, p: nat)
    requires Coherent(s) && p < |s.owner| && s.owner[p].Holds?
    ensures s.owner[p].ref in s.at && s.owner[p].ref in s.entries
  {
  }

  lemma GetFrameTells(s: VM, r: Ref, pick: nat, k: Marks)
    requires Coherent(s) && r in s.entries && pick < |s.frames| && Tells(s, k)
    ensures Tells(GetFrame(s, r, pick), Kept(k, GetFrame(s, r, pick).at))
  {
    hide SwapIn, Coherent, Tells, Kept;
    if Resident(s, r) {
      NothingGone(s, k);
    } else {
      SwapInTells(s, r, pick, k);
    }
  }

  lemma TouchTells(g: VM, r: Ref, writing: bool, k: Marks)
    requires r in g.entries && r in g.at && Tells(g, k)
    ensures Tells(Touch(g, r, writing), Accessed(k, r, writing)) && Touch(g, r, writing).at == g.at
  {
  }

  lemma TranslateTells(s: VM, r: Ref, pick: nat, writing: bool, k: Marks)
    requires Coherent(s) && r in s.entries && pick < |s.frames| && Tells(s, k)
    ensures var t := Translate(s, r, pick, writing); Tells(t, Accessed(Kept(k, t.at), r, writing))
  {
    hide Coherent, GetFrame, Kept, Tells, Accessed, Touch;
    var g := GetFrame(s, r, pick);
    GetFrameTells(s, r, pick, k);
    GetFrameInvisible(s, r, pick);
    GetFramePlaces(s, r, pick);
    TouchTells(g, r, writing, Kept(k, g.at));
  }

  lemma ValidTells(g: VM, r: Ref, k: Marks)
    requires r in g.entries && Tells(g, k)
    ensures Tells(SetValid(g, r), k) && SetValid(g, r).at == g.at
  {
  }

  lemma FaultInTells(s: VM, r: Ref, pick: nat, k: Marks)
    requires Coherent(s) && r in s.entries && !Resident(s, r) && pick < |s.frames| && Tells(s, k)
    ensures var t := FaultIn(s, r, pick); Tells(t, Kept(k, t.at))
  {
    hide Coherent, SwapIn, Kept, Tells, SetValid;
    var g := SwapIn(s, r, pick);
    SwapInTells(s, r, pick, k);
    SwapInInvisible(s, r, pick);
    ValidTells(g, r, Kept(k, g.at));
  }

  lemma ReadTells(s: VM, ps: nat, sp: nat, addr: Word, size: nat, pick: nat, k: Marks)
    requires Ready(s, ps) && sp in s.sizes && U.Size(size) && pick < |s.frames| && Tells(s, k)
    ensures var (t, a) := ReadMem(s, ps, sp, addr, size, pick); Tells(t, Marked(k, Load(sp, addr, size, pick), a, t.at, ps))
  {
    assert 0 < ps;
    hide Coherent, Sized, SwapIn, Tells, Kept, Accessed, Translate, FaultIn, LoadFrame, U.Check;
    var r := Ref(sp, U.PageOf(addr, ps));
    assert Mapped(s, sp);
    var c := CheckIn(s, ps, sp, addr, size, false);
    CheckedEntry(s, ps, sp, addr, size, false);
    if c == U.NoException {
      TranslateTells(s, r, pick, false, k);
    } else if c == U.PageFault {
      FaultInTells(s, r, pick, k);
    } else {
      NothingGone(s, k);
    }
  }

  lemma CheckedEntry(s: VM, ps: nat, sp: nat, addr: Word, size: nat, writing: bool)
    requires Ready(s, ps) && sp in s.sizes && U.Size(size) && Mapped(s, sp)
    ensures var c, r := CheckIn(s, ps, sp, addr, size, writing), Ref(sp, U.PageOf(addr, ps));
      && (c == U.NoException || c == U.PageFault ==> r in s.entries)
      && (c == U.PageFault ==> !Resident(s, r))
  {
    hide Coherent, Sized;
  }

  lemma StoreTells(t: VM, r: Ref, off: nat, data: seq<Byte>, k: Marks)
    requires Tells(t, k)
    ensures Tells(StoreFrame(t, r, off, data), k) && StoreFrame(t, r, off, data).at == t.at
  {
  }

  lemma WriteTells(s: VM, ps: nat, sp: nat, addr: Word, size: nat, value: Word, pick: nat, k: Marks)
    requires Ready(s, ps) && sp in s.sizes && U.Size(size) && pick < |s.frames| && Tells(s, k)
    ensures var (t, a) := WriteMem(s, ps, sp, addr, size, value, pick); Tells(t, Marked(k, Store(sp, addr, size, value, pick), a, t.at, ps))
  {
    assert 0 < ps;
    hide Coherent, Sized, SwapIn, Tells, Kept, Accessed, Translate, FaultIn, StoreFrame, U.Check, U.Encode, U.Offset;
    var r := Ref(sp, U.PageOf(addr, ps));
    assert Mapped(s, sp);
    var c := CheckIn(s, ps, sp, addr, size, true);
    CheckedEntry(s, ps, sp, addr, size, true);
    if c == U.NoException {
      var t := Translate(s, r, pick, true);
      TranslateTells(s, r, pick, true, k);
      StoreTells(t, r, U.Offset(addr, ps), U.Encode(value, size), Accessed(Kept(k, t.at), r, true));
    } else if c == U.PageFault {
      FaultInTells(s, r, pick, k);
    } else {
      NothingGone(s, k);
    }
  }

  lemma AddPageTells(s: VM, sp: nat, ps: nat, k: Marks)
    requires CanGrow(s, sp, ps) && Tells(s, k)
    ensures Tells(AddPage(s, sp, ps), k) && AddPage(s, sp, ps).at == s.at
  {
    AddPageFresh(s, sp, ps);
    hide CanGrow, FirstClear;
  }

  lemma {:induction false} CreateTells(s: VM, sp: nat, n: nat, ps: nat, k: Marks)
    requires CanCreate(s, sp, n, ps) && Tells(s, k)
    ensures Tells(Create(s, sp, n, ps), k) && Create(s, sp, n, ps).at == s.at
  {
    hide Good, AllMapped, View, Tells, AddPage, FirstClear, CountClear;
    if n == 0 {
      assert Tells(s.(sizes := s.sizes[sp := 0]), k) by { ResizedTells(s, s.sizes[sp := 0], k); }
    } else {
      CreateTells(s, sp, n - 1, ps, k);
      CreateRefines(s, sp, n - 1, ps);
      CreateNext(s, Create(s, sp, n - 1, ps), sp, n - 1, ps);
      AddPageTells(Create(s, sp, n - 1, ps), sp, ps, k);
    }
  }

  lemma ResizedTells(s: VM, sizes: map<nat, nat>, k: Marks)
    requires Tells(s, k)
    ensures Tells(s.(sizes := sizes), k)
  {
  }

  lemma ClearTells(s: VM, r: Ref, ps: nat, k: Marks)
    requires Coherent(s) && Resident(s, r) && Tells(s, k)
    ensures Tells(ClearPage(s, r, ps), Kept(k, ClearPage(s, r, ps).at))
  {
    ClearPageStructure(s, r, ps);
    hide Coherent, ClearPage;
  }

  lemma KeptTwice(k: Marks, at: map<Ref, nat>, at': map<Ref, nat>)
    requires forall r :: r in at' ==> r in at
    ensures Kept(Kept(k, at), at') == Kept(k, at')
  {
  }

  lemma ReleaseTells(s: VM, r: Ref, pick: nat, ps: nat, k: Marks)
    requires Coherent(s) && r in s.entries && pick < |s.frames| && Tells(s, k)
    ensures Tells(Release(s, r, pick, ps), Kept(k, Release(s, r, pick, ps).at))
  {
    var g := GetFrame(s, r, pick);
    GetFrameInvisible(s, r, pick);
    GetFramePlaces(s, r, pick);
    GetFrameTells(s, r, pick, k);
    ClearPageStructure(g, r, ps);
    hide Coherent, GetFrame, ClearPage, Tells, Kept;
    ClearTells(g, r, ps, Kept(k, g.at));
    KeptTwice(k, g.at, ClearPage(g, r, ps).at);
  }

  lemma {:induction false} DestroyTells(s: VM, sp: nat, i: nat, n: nat, picks: seq<nat>, ps: nat, k: Marks)
    requires Dying(s, sp, i, n, ps) && i <= n == |picks| && (forall j :: 0 <= j < n ==> picks[j] < |s.frames|) && Tells(s, k)
    ensures var t := DestroyFrom(s, sp, i, n, picks, ps); Tells(t, Kept(k, t.at)) && forall r :: r in t.at ==> r in s.at
    decreases n - i
  {
    hide Coherent, Sized, InvalidAbsent, Release, Tells, Kept;
    if i == n {
      NothingGone(s, k);
    } else {
      var t := Release(s, Ref(sp, i), picks[i], ps);
      ReleaseStep(s, sp, i, n, picks[i], ps);
      ReleaseTells(s, Ref(sp, i), picks[i], ps, k);
      DestroyTells(t, sp, i + 1, n, picks, ps, Kept(k, t.at));
      KeptTwice(k, t.at, DestroyFrom(t, sp, i + 1, n, picks, ps).at);
    }
  }

  /** After every operation the bits tell of the accesses up to it. */
  lemma StepTells(s: VM, op: Op, ps: nat, k: Marks)
    requires Ready(s, ps) && Enabled(s, op, ps) && Tells(s, k) && 0 < ps
    ensures var (t, a) := Step(s, op, ps); Tells(t, Marked(k, op, a, t.at, ps))
  {
    hide Good, AllMapped, ReadMem, WriteMem, Create, DestroyFrom, Poke, Tells, Kept, Accessed, CountClear;
    match op
    case Load(sp, addr, size, pick) => ReadTells(s, ps, sp, addr, size, pick, k);
    case Store(sp, addr, size, value, pick) => WriteTells(s, ps, sp, addr, size, value, pick, k);
    case NewSpace(sp, n) =>
      CreateTells(s, sp, n, ps, k);
      NothingGone(s, k);
    case LoadImage(sp, vpn, off, data) =>
      PokeTells(s, Ref(sp, vpn), off, data, k);
      NothingGone(s, k);
    case Exit(sp, picks) =>
      DeadSpace(s, sp, picks, ps);
      ResizedTells(s, s.sizes - {sp}, k);
      DestroyTells(s.(sizes := s.sizes - {sp}), sp, 0, |picks|, picks, ps, k);
  }

  lemma PokeTells(s: VM, r: Ref, off: nat, data: seq<Byte>, k: Marks)
    requires r in s.entries && Tells(s, k)
    ensures Tells(Poke(s, r, off, data), k) && Poke(s, r, off, data).at == s.at
  {
  }

  /** The marks over a run. */
  ghost function Remembered(s: VM, ops: seq<Op>, ps: nat, k: Marks): Marks
    requires Ready(s, ps) && Legal(s, ops, ps) && 0 < ps
    decreases |ops|
  {
    if ops == [] then k
    else
      StepRefines(s, ops[0], ps);
      var (t, a) := Step(s, ops[0], ps);
      Remembered(t, ops[1..], ps, Marked(k, ops[0], a, t.at, ps))
  }

  /**
   * Over every run, under any replacement policy: the use bit of a page is set exactly when the page was
   * accessed, and its dirty bit exactly when it was written, since it last came into memory.
   */
  lemma {:induction false} BitsTellHistory(s: VM, ops: seq<Op>, ps: nat, k: Marks)
    requires Ready(s, ps) && Legal(s, ops, ps) && Tells(s, k) && 0 < ps
    ensures Tells(Run(s, ops, ps).0, Remembered(s, ops, ps, k))
    decreases |ops|
  {
    hide Ready, Enabled, Step, Tells, Marked;
    if ops != [] {
      StepRefines(s, ops[0], ps);
      StepTells(s, ops[0], ps, k);
      var (t, a) := Step(s, ops[0], ps);
      BitsTellHistory(t, ops[1..], ps, Marked(k, ops[0], a, t.at, ps));
    }
  }

  lemma BootTells(numFrames: nat, swapSize: nat, ps: nat)
    ensures Tells(Boot(numFrames, swapSize, ps), Marks({}, {}))
  {
  }

  // ---- free swap pages ----

  /** A swap page that no program owns is zero. */
  ghost predicate FreeIsBlank(s: VM, ps: nat) {
    |s.swap| == |s.swapMap| && forall q :: 0 <= q < |s.swap| && !s.swapMap[q] ==> s.swap[q] == Zeros(ps)
  }

  lemma BootBlank(numFrames: nat, swapSize: nat, ps: nat)
    ensures FreeIsBlank(Boot(numFrames, swapSize, ps), ps)
  {
  }

  lemma OwnedMarked(s: VM, r: Ref)
    requires Coherent(s) && r in s.entries
    ensures s.entries[r].page < |s.swap| == |s.swapMap| && s.swapMap[s.entries[r].page]
  {
  }

  lemma SwapInBlank(s: VM, r: Ref, pick: nat, ps: nat)
    requires Coherent(s) && r in s.entries && !Resident(s, r) && pick < |s.frames| && FreeIsBlank(s, ps)
    ensures FreeIsBlank(SwapIn(s, r, pick), ps)
  {
    hide SwapIn, Coherent, Chosen, Contents, Zeros;
    SwapInBrings(s, r, pick);
    var p := SwapIn(s, r, pick).at[r];
    if s.owner[p].Holds? {
      HeldIsResident(s, p);
      OwnedMarked(s, s.owner[p].ref);
    }
  }

  lemma GetFrameBlank(s: VM, r: Ref, pick: nat, ps: nat)
    requires Coherent(s) && r in s.entries && pick < |s.frames| && FreeIsBlank(s, ps)
    ensures FreeIsBlank(GetFrame(s, r, pick), ps)
  {
    hide SwapIn, Coherent, FreeIsBlank;
    if !Resident(s, r) {
      SwapInBlank(s, r, pick, ps);
    }
  }

  lemma TranslateBlank(s: VM, r: Ref, pick: nat, writing: bool, ps: nat, off: nat, data: seq<Byte>)
    requires Coherent(s) && r in s.entries && pick < |s.frames| && FreeIsBlank(s, ps)
    ensures var t := Translate(s, r, pick, writing); FreeIsBlank(t, ps) && FreeIsBlank(StoreFrame(t, r, off, data), ps)
  {
    GetFrameBlank(s, r, pick, ps);
    hide Coherent, GetFrame, Zeros, Overwrite;
  }

  lemma FaultInBlank(s: VM, r: Ref, pick: nat, ps: nat)
    requires Coherent(s) && r in s.entries && !Resident(s, r) && pick < |s.frames| && FreeIsBlank(s, ps)
    ensures FreeIsBlank(FaultIn(s, r, pick), ps)
  {
    SwapInBlank(s, r, pick, ps);
    hide Coherent, SwapIn, Zeros;
  }

  lemma AccessBlank(s: VM, op: Op, ps: nat)
    requires Ready(s, ps) && Enabled(s, op, ps) && (op.Load? || op.Store?) && FreeIsBlank(s, ps)
    ensures FreeIsBlank(Step(s, op, ps).0, ps)
  {
    assert 0 < ps;
    hide Coherent, Sized, Translate, FaultIn, StoreFrame, LoadFrame, FreeIsBlank, U.Check, U.Encode, U.Offset;
    var sp, addr, pick := op.space, op.addr, op.pick;
    assert Mapped(s, sp);
    var r, c := Ref(sp, U.PageOf(addr, ps)), CheckIn(s, ps, sp, addr, op.size, op.Store?);
    CheckedEntry(s, ps, sp, addr, op.size, op.Store?);
    if c == U.NoException {
      TranslateBlank(s, r, pick, op.Store?, ps, U.Offset(addr, ps), if op.Store? then U.Encode(op.value, op.size) else []);
    } else if c == U.PageFault {
      FaultInBlank(s, r, pick, ps);
    }
  }

  lemma {:induction false} CreateBlank(s: VM, sp: nat, n: nat, ps: nat)
    requires FreeIsBlank(s, ps)
    ensures FreeIsBlank(Create(s, sp, n, ps), ps)
  {
    hide FirstClear, Zeros;
    if n > 0 {
      CreateBlank(s, sp, n - 1, ps);
    }
  }

  lemma {:induction false} DestroyBlank(s: VM, sp: nat, i: nat, n: nat, picks: seq<nat>, ps: nat)
    requires Dying(s, sp, i, n, ps) && i <= n == |picks| && (forall j :: 0 <= j < n ==> picks[j] < |s.frames|) && FreeIsBlank(s, ps)
    ensures FreeIsBlank(DestroyFrom(s, sp, i, n, picks, ps), ps)
    decreases n - i
  {
    hide Coherent, Sized, InvalidAbsent, FreeIsBlank, GetFrame, ClearPage;
    if i < n {
      var r := Ref(sp, i);
      ReleaseStep(s, sp, i, n, picks[i], ps);
      GetFrameBlank(s, r, picks[i], ps);
      ClearBlank(GetFrame(s, r, picks[i]), r, ps);
      DestroyBlank(Release(s, r, picks[i], ps), sp, i + 1, n, picks, ps);
    }
  }

  lemma ClearBlank(s: VM, r: Ref, ps: nat)
    requires FreeIsBlank(s, ps)
    ensures FreeIsBlank(ClearPage(s, r, ps), ps)
  {
    hide Zeros;
  }

  lemma PokeBlank(s: VM, r: Ref, off: nat, data: seq<Byte>, ps: nat)
    requires Ready(s, ps) && r in s.entries && FreeIsBlank(s, ps)
    ensures FreeIsBlank(Poke(s, r, off, data), ps)
  {
    hide Coherent, Sized, Zeros, Overwrite;
    OwnedMarked(s, r);
  }

  lemma StepBlank(s: VM, op: Op, ps: nat)
    requires Ready(s, ps) && Enabled(s, op, ps) && FreeIsBlank(s, ps)
    ensures FreeIsBlank(Step(s, op, ps).0, ps)
  {
    hide Good, AllMapped, ReadMem, WriteMem, Create, DestroyFrom, CountClear, Zeros, Poke;
    match op
    case Load(_, _, _, _) => AccessBlank(s, op, ps);
    case Store(_, _, _, _, _) => AccessBlank(s, op, ps);
    case NewSpace(sp, n) => CreateBlank(s, sp, n, ps);
    case LoadImage(sp, vpn, off, data) => PokeBlank(s, Ref(sp, vpn), off, data, ps);
    case Exit(sp, picks) =>
      DeadSpace(s, sp, picks, ps);
      DestroyBlank(s.(sizes := s.sizes - {sp}), sp, 0, |picks|, picks, ps);
  }

  /** Over every run the swap file keeps nothing of a program that has gone: every page that is free is zero. */
  lemma {:induction false} NothingLeftInSwap(s: VM, ops: seq<Op>, ps: nat)
    requires Ready(s, ps) && Legal(s, ops, ps) && FreeIsBlank(s, ps)
    ensures FreeIsBlank(Run(s, ops, ps).0, ps)
    decreases |ops|
  {
    hide Ready, Enabled, Step, FreeIsBlank;
    if ops != [] {
      StepRefines(s, ops[0], ps);
      StepBlank(s, ops[0], ps);
      NothingLeftInSwap(Step(s, ops[0], ps).0, ops[1..], ps);
    }
  }

  // ---- what each request means ----

  /** The bytes and bits of a space just made. */
  predicate Fresh(m: U.Memory, n: nat, ps: nat) {
    && m.pageSize == ps && |m.bytes| == n * ps && |m.valid| == |m.readOnly| == n
    && (forall i :: 0 <= i < |m.bytes| ==> m.bytes[i] == 0)
    && (forall v :: 0 <= v < n ==> !m.valid[v] && !m.readOnly[v])
  }

  /** m' is m with the data from address at on, and nothing else changed. */
  predicate Holding(m: U.Memory, at: int, data: seq<Byte>, m': U.Memory) {
    && m'.pageSize == m.pageSize && m'.valid == m.valid && m'.readOnly == m.readOnly && |m'.bytes| == |m.bytes|
    && forall i :: 0 <= i < |m.bytes| ==> m'.bytes[i] == if at <= i < at + |data| then data[i - at] else m.bytes[i]
  }

  /** What a request does to the programs' memories, and its answer. */
  ghost predicate Means(f: Flat, op: Op, ps: nat, g: Flat, a: U.Answer) {
    && (forall sp :: sp != op.space ==> (sp in g <==> sp in f) && (sp in f ==> g[sp] == f[sp]))
    && (op.Exit? <==> op.space !in g)
    && match op
       case Load(sp, addr, size, _) => sp in f && sp in g && U.WellFormed(f[sp]) && U.Size(size) && U.ReadsAs(f[sp], addr, size, g[sp], a)
       case Store(sp, addr, size, value, _) => sp in f && sp in g && U.WellFormed(f[sp]) && U.Size(size) && U.WritesAs(f[sp], addr, size, value, g[sp], a)
       case NewSpace(sp, n) => sp in g && Fresh(g[sp], n, ps)
       case LoadImage(sp, vpn, off, data) => sp in f && sp in g && Holding(f[sp], vpn * ps + off, data, g[sp])
       case Exit(_, _) => true
  }

  lemma PatchHolds(m: U.Memory, at: nat, data: seq<Byte>)
    requires at + |data| <= |m.bytes|
    ensures Holding(m, at, data, Patch(m, at, data))
  {
  }

  lemma BlankIsFresh(n: nat, ps: nat)
    ensures Fresh(Blank(n, ps), n, ps)
  {
  }

  lemma PageLies(s: VM, ps: nat, sp: nat, vpn: nat, off: nat, n: nat)
    requires Ready(s, ps) && sp in s.sizes && vpn < s.sizes[sp] && off + n <= ps && Mapped(s, sp)
    ensures 0 <= vpn * ps + off && vpn * ps + off + n <= |SpaceView(s, ps, sp).bytes|
  {
    hide Coherent, Pages;
    SpaceWellFormed(s, ps, sp);
    MulMonotone(vpn + 1, s.sizes[sp], ps);
    assert (vpn + 1) * ps == vpn * ps + ps;
  }

  /** Every operation on paged memory does to the programs' memories what it means. */
  lemma StepMeans(s: VM, op: Op, ps: nat)
    requires Ready(s, ps) && Enabled(s, op, ps)
    ensures var (t, a) := Step(s, op, ps); Ready(t, ps) && Means(View(s, ps), op, ps, View(t, ps), a)
  {
    hide Coherent, Sized, InvalidAbsent, SpaceView, Blank, CountClear, U.Read, U.Write, Patch, Step, Fresh, Holding, U.ReadsAs, U.WritesAs, U.WellFormed, U.Usable;
    StepRefines(s, op, ps);
    match op
    case Load(sp, addr, size, _) =>
      ViewUsable(s, ps, sp);
      SpaceWellFormed(s, ps, sp);
      U.ReadExact(SpaceView(s, ps, sp), addr, size);
    case Store(sp, addr, size, value, _) =>
      ViewUsable(s, ps, sp);
      SpaceWellFormed(s, ps, sp);
      U.WriteExact(SpaceView(s, ps, sp), addr, size, value);
    case NewSpace(sp, n) => BlankIsFresh(n, ps);
    case LoadImage(sp, vpn, off, data) =>
      ViewUsable(s, ps, sp);
      PageLies(s, ps, sp, vpn, off, |data|);
      PatchHolds(SpaceView(s, ps, sp), vpn * ps + off, data);
    case Exit(sp, picks) =>
  }
}
