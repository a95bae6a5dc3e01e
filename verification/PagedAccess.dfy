/** Each attempt of ReadMem and WriteMem on paged memory is the same attempt on the flat memory. */
module PagedAccess {
  import opened Arithmetic
  import opened Paging
  import opened PagedMemory
  import U = UserMemory

  lemma FaultInGood(s: VM, ps: nat, r: Ref, pick: nat)
    requires Good(s, ps) && r in s.entries && !s.entries[r].valid && pick < |s.frames|
    ensures Good(FaultIn(s, r, pick), ps)
  {
    hide Coherent, SwapIn, Contents;
    assert !Resident(s, r);
    var t := SwapIn(s, r, pick);
    assert t == GetFrame(s, r, pick);
    SwapInInvisible(s, r, pick);
    SwapInPlaces(s, r, pick);
    GetFrameSized(s, r, pick, ps);
    SameTablesComplete(s, t);
    SetValidCoherent(t, r);
    var u := SetValid(t, r);
    forall x | x in u.entries && !u.entries[x].valid ensures !Resident(u, x) {
      assert x in s.entries && SamePage(s, t, x);
    }
  }

  /** A handled fault makes the page valid and leaves every byte of every space as it was. */
  lemma FaultInRefines(s: VM, ps: nat, r: Ref, pick: nat)
    requires Good(s, ps) && AllMapped(s) && r in s.entries && !s.entries[r].valid && pick < |s.frames|
    requires r.space in s.sizes && r.vpn < s.sizes[r.space]
    ensures var t := FaultIn(s, r, pick);
      && Good(t, ps) && AllMapped(t)
      && View(t, ps) == View(s, ps)[r.space := SpaceView(s, ps, r.space).(valid := ValidBits(s, r.space)[r.vpn := true])]
  {
    hide Coherent, SwapIn, Contents;
    FaultInGood(s, ps, r, pick);
    assert !Resident(s, r);
    var t := SwapIn(s, r, pick);
    SwapInInvisible(s, r, pick);
    SameTablesComplete(s, t);
    CompleteMapsAll(t);
    InvisibleView(s, t, ps);
    assert View(t, ps)[r.space] == View(s, ps)[r.space];
    SetValidView(t, ps, r);
  }

  /** The paged state t shows flat memory m in space sp, and every other space as s showed it. */
  ghost predicate Shows(s: VM, t: VM, ps: nat, sp: nat, m: U.Memory)
    requires Good(s, ps) && AllMapped(s)
  {
    && Good(t, ps) && AllMapped(t)
    && t.sizes == s.sizes && |t.frames| == |s.frames| && t.swapMap == s.swapMap
    && View(t, ps) == View(s, ps)[sp := m]
  }

  lemma TranslateShows(s: VM, ps: nat, r: Ref, pick: nat, writing: bool)
    requires Good(s, ps) && AllMapped(s) && r in s.entries && s.entries[r].valid && pick < |s.frames| && r.space in s.sizes
    ensures Shows(s, Translate(s, r, pick, writing), ps, r.space, SpaceView(s, ps, r.space))
  {
    hide Coherent, SwapIn, Contents, SpaceView;
    var t := Translate(s, r, pick, writing);
    TranslateGood(s, ps, r, pick, writing);
    TranslateInvisible(s, r, pick, writing);
    GoodMapsAll(t, ps);
    InvisibleView(s, t, ps);
    assert View(s, ps)[r.space] == SpaceView(s, ps, r.space);
  }

  lemma FaultInShows(s: VM, ps: nat, r: Ref, pick: nat)
    requires Good(s, ps) && AllMapped(s) && r in s.entries && !s.entries[r].valid && pick < |s.frames|
    requires r.space in s.sizes && r.vpn < s.sizes[r.space]
    ensures Shows(s, FaultIn(s, r, pick), ps, r.space, SpaceView(s, ps, r.space).(valid := ValidBits(s, r.space)[r.vpn := true]))
  {
    hide Coherent, SwapIn, Contents, SpaceView;
    FaultInRefines(s, ps, r, pick);
    assert !Resident(s, r);
    SwapInInvisible(s, r, pick);
  }

  lemma ReadHit(s: VM, ps: nat, r: Ref, addr: Word, size: nat, pick: nat)
    requires Good(s, ps) && AllMapped(s) && r in s.entries && r.space in s.sizes && r.vpn < s.sizes[r.space] && pick < |s.frames|
    requires U.Size(size) && 0 < ps && U.PageOf(addr, ps) == r.vpn && U.Offset(addr, ps) + size <= ps
    ensures LoadFrame(Translate(s, r, pick, false), r, U.Offset(addr, ps), size) == U.Load(SpaceView(s, ps, r.space), addr, size)
  {
    hide Coherent, SwapIn, Contents, LoadFrame, Translate;
    assert Mapped(s, r.space);
    U.AddressSplit(addr, ps);
    LoadRefines(s, ps, r, pick, U.Offset(addr, ps), size);
  }

  /** ReadMem gives the answer of the flat memory, faults included, and every view follows it. */
  lemma ReadMemRefines(s: VM, ps: nat, sp: nat, addr: Word, size: nat, pick: nat)
    requires Good(s, ps) && AllMapped(s) && sp in s.sizes && U.Size(size) && pick < |s.frames|
    ensures var (t, a) := ReadMem(s, ps, sp, addr, size, pick);
            var (m, b) := U.Read(SpaceView(s, ps, sp), addr, size);
            Shows(s, t, ps, sp, m) && a == b
  {
    hide Coherent, SwapIn, Contents, LoadFrame, Translate, FaultIn, Shows, U.Load, U.WellFormed, U.PageOf, U.Offset, Pages;
    var m := SpaceView(s, ps, sp);
    var r := Ref(sp, U.PageOf(addr, ps));
    assert Mapped(s, sp);
    var c := CheckIn(s, ps, sp, addr, size, false);
    if c == U.NoException {
      EntryMapped(s, ps, sp, U.PageOf(addr, ps));
      TranslateShows(s, ps, r, pick, false);
      SpaceWellFormed(s, ps, sp);
      U.CheckedInPage(m, addr, size, false);
      ReadHit(s, ps, r, addr, size, pick);
    } else if c == U.PageFault {
      EntryMapped(s, ps, sp, U.PageOf(addr, ps));
      FaultInShows(s, ps, r, pick);
    } else {
      ShowsSame(s, ps, sp);
    }
  }

  /** The store lands at the address in the flat memory of its space and nowhere else. */
  lemma WriteHit(s: VM, ps: nat, r: Ref, addr: Word, size: nat, value: Word, pick: nat)
    requires Good(s, ps) && AllMapped(s) && r in s.entries && s.entries[r].valid && pick < |s.frames|
    requires r.space in s.sizes && r.vpn < s.sizes[r.space]
    requires U.Size(size) && 0 < ps && U.PageOf(addr, ps) == r.vpn && U.Offset(addr, ps) + size <= ps
    ensures var t := StoreFrame(Translate(s, r, pick, true), r, U.Offset(addr, ps), U.Encode(value, size));
            Shows(s, t, ps, r.space, U.Store(SpaceView(s, ps, r.space), addr, size, value))
  {
    hide Coherent, SwapIn, Contents, Pages, Translate, Invisible;
    U.AddressSplit(addr, ps);
    var off, data := U.Offset(addr, ps), U.Encode(value, size);
    var t := Translate(s, r, pick, true);
    TranslateShows(s, ps, r, pick, true);
    TranslateSound(s, r, pick, true, ps);
    WriteFrameWrites(t, r, off, data);
    var u := WriteFrame(t, t.at[r], off, data);
    WriteFrameGood(t, ps, r, off, data);
    CompleteMapsAll(u);
    assert Mapped(t, r.space) && Mapped(u, r.space);
    PagesUniform(t, ps, r.space);
    WritesView(t, u, r, off, data, ps);
    assert View(t, ps)[r.space] == SpaceView(s, ps, r.space);
  }

  lemma WriteFrameGood(s: VM, ps: nat, r: Ref, off: nat, data: seq<Byte>)
    requires Good(s, ps) && r in s.entries && Resident(s, r) && s.entries[r].dirty
    requires s.at[r] < |s.frames| && |s.frames[s.at[r]]| == ps && off + |data| <= ps
    ensures Good(WriteFrame(s, s.at[r], off, data), ps)
  {
    WriteFrameWrites(s, r, off, data);
    hide Coherent, Contents, SamePage;
  }

  /** WriteMem gives the answer of the flat memory, faults included, and every view follows it. */
  lemma WriteMemRefines(s: VM, ps: nat, sp: nat, addr: Word, size: nat, value: Word, pick: nat)
    requires Good(s, ps) && AllMapped(s) && sp in s.sizes && U.Size(size) && pick < |s.frames|
    ensures var (t, a) := WriteMem(s, ps, sp, addr, size, value, pick);
            var (m, b) := U.Write(SpaceView(s, ps, sp), addr, size, value);
            Shows(s, t, ps, sp, m) && a == b
  {
    hide Coherent, SwapIn, Contents, StoreFrame, Translate, FaultIn, Shows, U.Store, U.WellFormed, U.PageOf, U.Offset, U.Encode, Pages;
    var m := SpaceView(s, ps, sp);
    var r := Ref(sp, U.PageOf(addr, ps));
    assert Mapped(s, sp);
    var c := CheckIn(s, ps, sp, addr, size, true);
    if c == U.NoException {
      EntryMapped(s, ps, sp, U.PageOf(addr, ps));
      SpaceWellFormed(s, ps, sp);
      U.CheckedInPage(m, addr, size, true);
      WriteHit(s, ps, r, addr, size, value, pick);
    } else if c == U.PageFault {
      EntryMapped(s, ps, sp, U.PageOf(addr, ps));
      FaultInShows(s, ps, r, pick);
    } else {
      ShowsSame(s, ps, sp);
    }
  }

  lemma ShowsSame(s: VM, ps: nat, sp: nat)
    requires Good(s, ps) && AllMapped(s) && sp in s.sizes
    ensures Shows(s, s, ps, sp, SpaceView(s, ps, sp))
  {
    hide Coherent, Contents, SpaceView;
    assert View(s, ps)[sp] == SpaceView(s, ps, sp);
  }
}
