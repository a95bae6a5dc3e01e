/**
 * The operations on demand-paged memory and the theorem about them: every run, under every
 * replacement policy, gives each program exactly the answers of a private flat byte array.
 */
module PagedMemory {
  import opened Arithmetic
  import opened Blocks
  import opened Paging
  import U = UserMemory

  // ---- what the programs see ----

  ghost predicate Sized(s: VM, ps: nat) {
    0 < ps && ps % 4 == 0 && Uniform(s.frames, ps) && Uniform(s.swap, ps)
  }

  ghost function Pages(s: VM, sp: nat): (r: seq<Page>)
    requires Coherent(s) && Mapped(s, sp)
    ensures |r| == s.sizes[sp]
  {
    seq(s.sizes[sp], v requires 0 <= v < s.sizes[sp] => Contents(s, Ref(sp, v)))
  }

  ghost function SpaceView(s: VM, ps: nat, sp: nat): U.Memory
    requires Coherent(s) && Mapped(s, sp)
  {
    U.Memory(ps, Flatten(Pages(s, sp)), ValidBits(s, sp), ReadOnlyBits(s, sp))
  }

  /** The private flat memory of every live address space. */
  ghost function View(s: VM, ps: nat): map<nat, U.Memory>
    requires Coherent(s) && AllMapped(s)
  {
    map sp | sp in s.sizes :: SpaceView(s, ps, sp)
  }

  /** Same contents, same bits: the program in space sp cannot tell the two states apart. */
  lemma SpaceDependsOnContents(s: VM, t: VM, sp: nat)
    requires Coherent(s) && Coherent(t) && Mapped(s, sp) && Mapped(t, sp) && t.sizes[sp] == s.sizes[sp]
    requires forall v: nat :: v < s.sizes[sp] ==> SamePage(s, t, Ref(sp, v))
    ensures Pages(t, sp) == Pages(s, sp) && ValidBits(t, sp) == ValidBits(s, sp) && ReadOnlyBits(t, sp) == ReadOnlyBits(s, sp)
  {
    forall v | 0 <= v < s.sizes[sp]
      ensures Pages(t, sp)[v] == Pages(s, sp)[v] && ValidBits(t, sp)[v] == ValidBits(s, sp)[v]
      ensures ReadOnlyBits(t, sp)[v] == ReadOnlyBits(s, sp)[v]
    {
      assert SamePage(s, t, Ref(sp, v));
    }
  }

  lemma InvisibleView(s: VM, t: VM, ps: nat)
    requires Invisible(s, t) && AllMapped(s) && AllMapped(t)
    ensures View(t, ps) == View(s, ps)
  {
    forall sp | sp in s.sizes ensures SpaceView(t, ps, sp) == SpaceView(s, ps, sp) {
      assert Mapped(s, sp) && Mapped(t, sp);
      SpaceDependsOnContents(s, t, sp);
    }
  }

  // ---- one access ----

  /** The page of entry r brought into a frame, if it is not in one already (getPhysicalPage). */
  ghost function GetFrame(s: VM, r: Ref, pick: nat): VM
    requires Coherent(s) && r in s.entries && pick < |s.frames|
  {
    if Resident(s, r) then s else SwapIn(s, r, pick)
  }

  lemma InvisibleReflexive(s: VM)
    requires Coherent(s)
    ensures Invisible(s, s)
  {
  }

  lemma GetFrameInvisible(s: VM, r: Ref, pick: nat)
    requires Coherent(s) && r in s.entries && pick < |s.frames|
    ensures Invisible(s, GetFrame(s, r, pick))
  {
    if Resident(s, r) {
      InvisibleReflexive(s);
    } else {
      SwapInInvisible(s, r, pick);
    }
  }

  lemma GetFramePlaces(s: VM, r: Ref, pick: nat)
    requires Coherent(s) && r in s.entries && pick < |s.frames|
    ensures Resident(GetFrame(s, r, pick), r)
    ensures forall x :: x != r && !Resident(s, x) ==> !Resident(GetFrame(s, r, pick), x)
  {
    if !Resident(s, r) {
      SwapInPlaces(s, r, pick);
    }
  }

  lemma GetFrameSized(s: VM, r: Ref, pick: nat, ps: nat)
    requires Coherent(s) && r in s.entries && pick < |s.frames| && Sized(s, ps)
    ensures Sized(GetFrame(s, r, pick), ps)
  {
  }

  /** Translate sets the use bit on every access and the dirty bit on a write. */
  function Touch(s: VM, r: Ref, writing: bool): VM
    requires r in s.entries
  {
    var e := s.entries[r];
    s.(entries := s.entries[r := e.(use := true, dirty := e.dirty || writing)])
  }

  lemma TouchInvisible(s: VM, r: Ref, writing: bool)
    requires Coherent(s) && r in s.entries && Resident(s, r)
    ensures Invisible(s, Touch(s, r, writing))
  {
    var t := Touch(s, r, writing);
    TouchStructure(s, r, writing);
    forall x | x in s.entries ensures SamePage(s, t, x) {
    }
  }

  lemma TouchStructure(s: VM, r: Ref, writing: bool)
    requires Coherent(s) && r in s.entries && Resident(s, r)
    ensures Coherent(Touch(s, r, writing)) && SameTables(s, Touch(s, r, writing))
  {
  }

  function WriteFrame(s: VM, p: nat, off: nat, data: seq<Byte>): VM
    requires p < |s.frames| && off + |data| <= |s.frames[p]|
  {
    s.(frames := s.frames[p := Overwrite(s.frames[p], off, data)])
  }

  function WriteSwap(s: VM, q: nat, off: nat, data: seq<Byte>): VM
    requires q < |s.swap| && off + |data| <= |s.swap[q]|
  {
    s.(swap := s.swap[q := Overwrite(s.swap[q], off, data)])
  }

  /** t is s with data written at offset off of the page of r, and is otherwise the same to programs. */
  ghost predicate Writes(s: VM, t: VM, r: Ref, off: nat, data: seq<Byte>)
    requires Coherent(s) && r in s.entries
  {
    && Coherent(t) && SameTables(s, t) && r in t.entries
    && (forall x :: x in s.entries && x != r ==> SamePage(s, t, x))
    && t.entries[r].valid == s.entries[r].valid && t.entries[r].readOnly == s.entries[r].readOnly
    && off + |data| <= |Contents(s, r)| && Contents(t, r) == Overwrite(Contents(s, r), off, data)
  }

  /** A write to the frame of a page already marked dirty changes that page and no other. */
  lemma WriteFrameWrites(s: VM, r: Ref, off: nat, data: seq<Byte>)
    requires Coherent(s) && r in s.entries && Resident(s, r) && s.entries[r].dirty
    requires off + |data| <= |s.frames[s.at[r]]|
    ensures Writes(s, WriteFrame(s, s.at[r], off, data), r, off, data)
  {
    var t := WriteFrame(s, s.at[r], off, data);
    assert SwapOwned(t);
    assert FramesAgree(t);
    assert CacheCoherent(t);
  }

  /** A write to the swap page of a page in no frame changes that page and no other. */
  lemma WriteSwapWrites(s: VM, r: Ref, off: nat, data: seq<Byte>)
    requires Coherent(s) && r in s.entries && !Resident(s, r)
    requires off + |data| <= |s.swap[s.entries[r].page]|
    ensures Writes(s, WriteSwap(s, s.entries[r].page, off, data), r, off, data)
  {
    var t := WriteSwap(s, s.entries[r].page, off, data);
    assert SwapOwned(t);
    assert FramesAgree(t);
    assert CacheCoherent(t);
  }

  lemma WrittenPages(s: VM, t: VM, r: Ref, off: nat, data: seq<Byte>)
    requires Coherent(s) && r in s.entries && Writes(s, t, r, off, data)
    requires Mapped(s, r.space) && Mapped(t, r.space) && r.vpn < s.sizes[r.space]
    ensures Pages(s, r.space)[r.vpn] == Contents(s, r)
    ensures Pages(t, r.space) == Pages(s, r.space)[r.vpn := Overwrite(Contents(s, r), off, data)]
  {
    assert Ref(r.space, r.vpn) == r;
    forall v | 0 <= v < s.sizes[r.space] && v != r.vpn ensures Pages(t, r.space)[v] == Pages(s, r.space)[v] {
      assert SamePage(s, t, Ref(r.space, v));
    }
  }

  lemma WrittenBits(s: VM, t: VM, r: Ref, off: nat, data: seq<Byte>)
    requires Coherent(s) && r in s.entries && Writes(s, t, r, off, data)
    requires Mapped(s, r.space) && Mapped(t, r.space)
    ensures ValidBits(t, r.space) == ValidBits(s, r.space) && ReadOnlyBits(t, r.space) == ReadOnlyBits(s, r.space)
  {
    hide Coherent;
    var sp := r.space;
    forall v | 0 <= v < s.sizes[sp]
      ensures ValidBits(t, sp)[v] == ValidBits(s, sp)[v] && ReadOnlyBits(t, sp)[v] == ReadOnlyBits(s, sp)[v]
    {
      if Ref(sp, v) != r {
        assert SamePage(s, t, Ref(sp, v));
      }
    }
  }

  lemma UnwrittenSpaces(s: VM, t: VM, r: Ref, off: nat, data: seq<Byte>, ps: nat, sp: nat)
    requires Coherent(s) && r in s.entries && Writes(s, t, r, off, data)
    requires Mapped(s, sp) && Mapped(t, sp) && sp != r.space
    ensures SpaceView(t, ps, sp) == SpaceView(s, ps, sp)
  {
    SpaceDependsOnContents(s, t, sp);
  }

  lemma WrittenView(s: VM, t: VM, r: Ref, off: nat, data: seq<Byte>, ps: nat)
    requires Coherent(s) && r in s.entries && Writes(s, t, r, off, data)
    requires Mapped(s, r.space) && Mapped(t, r.space) && r.vpn < s.sizes[r.space] && Uniform(Pages(s, r.space), ps)
    ensures var m := SpaceView(s, ps, r.space);
            && 0 <= r.vpn * ps + off && r.vpn * ps + off + |data| <= |m.bytes|
            && SpaceView(t, ps, r.space) == m.(bytes := Overwrite(m.bytes, r.vpn * ps + off, data))
  {
    hide Coherent;
    WrittenPages(s, t, r, off, data);
    WrittenBits(s, t, r, off, data);
    FlattenOverwrite(Pages(s, r.space), ps, r.vpn, off, data);
  }

  /** Writing inside one page is writing that range of the flat bytes of its space, and of no other. */
  lemma WritesView(s: VM, t: VM, r: Ref, off: nat, data: seq<Byte>, ps: nat)
    requires Coherent(s) && r in s.entries && Writes(s, t, r, off, data) && AllMapped(s) && AllMapped(t)
    requires r.space in s.sizes && r.vpn < s.sizes[r.space] && Uniform(Pages(s, r.space), ps)
    ensures var m := SpaceView(s, ps, r.space);
            && 0 <= r.vpn * ps + off && r.vpn * ps + off + |data| <= |m.bytes|
            && View(t, ps) == View(s, ps)[r.space := m.(bytes := Overwrite(m.bytes, r.vpn * ps + off, data))]
  {
    hide Coherent;
    assert Mapped(s, r.space) && Mapped(t, r.space);
    WrittenView(s, t, r, off, data, ps);
    forall sp | sp in s.sizes && sp != r.space ensures SpaceView(t, ps, sp) == SpaceView(s, ps, sp) {
      assert Mapped(s, sp) && Mapped(t, sp);
      UnwrittenSpaces(s, t, r, off, data, ps, sp);
    }
  }

  // ---- user accesses ----

  function SetValid(s: VM, r: Ref): VM
    requires r in s.entries
  {
    s.(entries := s.entries[r := s.entries[r].(valid := true)])
  }

  /** The page-fault handler: swap the page in and set its valid bit. */
  function FaultIn(s: VM, r: Ref, pick: nat): VM
    requires Coherent(s) && r in s.entries && pick < |s.frames|
  {
    SetValid(SwapIn(s, r, pick), r)
  }

  ghost predicate CanAccess(s: VM, ps: nat, sp: nat, size: nat, pick: nat) {
    Coherent(s) && 0 < ps && Mapped(s, sp) && U.Size(size) && pick < |s.frames|
  }

  ghost function CheckIn(s: VM, ps: nat, sp: nat, addr: Word, size: nat, writing: bool): U.Exception
    requires Mapped(s, sp) && 0 < ps && U.Size(size)
  {
    U.Check(ps, ValidBits(s, sp), ReadOnlyBits(s, sp), addr, size, writing)
  }

  /** Translate: bring the page into a frame and set its use and dirty bits. */
  ghost function Translate(s: VM, r: Ref, pick: nat, writing: bool): VM
    requires Coherent(s) && r in s.entries && pick < |s.frames|
  {
    Touch(GetFrame(s, r, pick), r, writing)
  }

  /** The value at offset off of the frame that holds the page of r. */
  function LoadFrame(t: VM, r: Ref, off: nat, size: nat): Word
    requires U.Size(size)
  {
    if r in t.at && t.at[r] < |t.frames| && off + size <= |t.frames[t.at[r]]|
    then U.Decode(t.frames[t.at[r]][off..off + size]) else 0
  }

  function StoreFrame(t: VM, r: Ref, off: nat, data: seq<Byte>): VM {
    if r in t.at && t.at[r] < |t.frames| && off + |data| <= |t.frames[t.at[r]]|
    then WriteFrame(t, t.at[r], off, data) else t
  }

  /** One attempt of ReadMem, with the handler run if it faults. */
  ghost function ReadMem(s: VM, ps: nat, sp: nat, addr: Word, size: nat, pick: nat): (VM, U.Answer)
    requires CanAccess(s, ps, sp, size, pick)
  {
    var r := Ref(sp, U.PageOf(addr, ps));
    match CheckIn(s, ps, sp, addr, size, false)
    case NoException =>
      var t := Translate(s, r, pick, false);
      (t, U.Value(LoadFrame(t, r, U.Offset(addr, ps), size)))
    case PageFault => (FaultIn(s, r, pick), U.Faulted)
    case e => (s, U.Trap(e))
  }

  /** One attempt of WriteMem, with the handler run if it faults. */
  ghost function WriteMem(s: VM, ps: nat, sp: nat, addr: Word, size: nat, value: Word, pick: nat): (VM, U.Answer)
    requires CanAccess(s, ps, sp, size, pick)
  {
    var r := Ref(sp, U.PageOf(addr, ps));
    match CheckIn(s, ps, sp, addr, size, true)
    case NoException =>
      (StoreFrame(Translate(s, r, pick, true), r, U.Offset(addr, ps), U.Encode(value, size)), U.Stored)
    case PageFault => (FaultIn(s, r, pick), U.Faulted)
    case e => (s, U.Trap(e))
  }

  lemma TranslateInvisible(s: VM, r: Ref, pick: nat, writing: bool)
    requires Coherent(s) && r in s.entries && pick < |s.frames|
    ensures Invisible(s, Translate(s, r, pick, writing))
  {
    hide Coherent, SwapIn, SamePage;
    var g := GetFrame(s, r, pick);
    GetFrameInvisible(s, r, pick);
    GetFramePlaces(s, r, pick);
    TouchInvisible(g, r, writing);
    InvisibleComposes(s, g, Touch(g, r, writing));
  }

  /** After Translate the page is in a frame of the right size, dirty if it is to be written. */
  lemma TranslateSound(s: VM, r: Ref, pick: nat, writing: bool, ps: nat)
    requires Coherent(s) && r in s.entries && pick < |s.frames| && Sized(s, ps)
    ensures var t := Translate(s, r, pick, writing);
            Coherent(t) && Sized(t, ps) && r in t.entries && r in t.at && t.at[r] < |t.frames| && |t.frames[t.at[r]]| == ps
    ensures writing ==> Translate(s, r, pick, writing).entries[r].dirty
  {
    TranslateInvisible(s, r, pick, writing);
    GetFramePlaces(s, r, pick);
    GetFrameSized(s, r, pick, ps);
  }

  // ---- the two agree ----

  /** Everything the steps need and keep. */
  ghost predicate Good(s: VM, ps: nat) {
    Inv(s) && Sized(s, ps)
  }

  lemma GoodMapsAll(s: VM, ps: nat)
    requires Good(s, ps)
    ensures AllMapped(s)
  {
    hide Coherent;
    CompleteMapsAll(s);
  }

  lemma PagesUniform(s: VM, ps: nat, sp: nat)
    requires Coherent(s) && Mapped(s, sp) && Sized(s, ps)
    ensures Uniform(Pages(s, sp), ps)
  {
  }

  lemma SpaceWellFormed(s: VM, ps: nat, sp: nat)
    requires Coherent(s) && Mapped(s, sp) && Sized(s, ps)
    ensures U.WellFormed(SpaceView(s, ps, sp)) && |SpaceView(s, ps, sp).valid| == s.sizes[sp]
  {
    hide Coherent, Contents;
    PagesUniform(s, ps, sp);
    FlattenLength(Pages(s, sp), ps);
  }

  lemma TranslateGood(s: VM, ps: nat, r: Ref, pick: nat, writing: bool)
    requires Good(s, ps) && r in s.entries && s.entries[r].valid && pick < |s.frames|
    ensures Good(Translate(s, r, pick, writing), ps)
  {
    hide Coherent, SwapIn, Contents;
    var t := Translate(s, r, pick, writing);
    TranslateInvisible(s, r, pick, writing);
    TranslateSound(s, r, pick, writing, ps);
    SameTablesComplete(s, t);
    GetFramePlaces(s, r, pick);
    forall x | x in t.entries && !t.entries[x].valid ensures !Resident(t, x) {
      assert x in s.entries && SamePage(s, t, x);
    }
  }

  lemma LoadFrameIsContents(s: VM, ps: nat, r: Ref, pick: nat, off: nat, size: nat)
    requires Coherent(s) && Sized(s, ps) && r in s.entries && pick < |s.frames| && U.Size(size) && off + size <= ps
    ensures |Contents(s, r)| == ps
    ensures LoadFrame(Translate(s, r, pick, false), r, off, size) == U.Decode(Contents(s, r)[off..off + size])
  {
    hide SwapIn;
    var t := Translate(s, r, pick, false);
    TranslateInvisible(s, r, pick, false);
    TranslateSound(s, r, pick, false, ps);
    assert SamePage(s, t, r);
    assert Contents(t, r) == t.frames[t.at[r]];
  }

  /** What ReadMem takes from the frame is what the flat memory of the space holds at the address. */
  lemma LoadRefines(s: VM, ps: nat, r: Ref, pick: nat, off: nat, size: nat)
    requires Coherent(s) && Sized(s, ps) && Mapped(s, r.space) && r.vpn < s.sizes[r.space] && pick < |s.frames|
    requires r in s.entries && U.Size(size) && off + size <= ps
    ensures var b := Flatten(Pages(s, r.space));
            && 0 <= r.vpn * ps + off && r.vpn * ps + off + size <= |b|
            && LoadFrame(Translate(s, r, pick, false), r, off, size) == U.Decode(b[r.vpn * ps + off..r.vpn * ps + off + size])
  {
    hide Coherent, SwapIn, Contents, LoadFrame, Translate;
    LoadFrameIsContents(s, ps, r, pick, off, size);
    PagesUniform(s, ps, r.space);
    assert Pages(s, r.space)[r.vpn] == Contents(s, r) by {
      assert Ref(r.space, r.vpn) == r;
    }
    FlattenRange(Pages(s, r.space), ps, r.vpn, off, size);
  }

  lemma EntryMapped(s: VM, ps: nat, sp: nat, vpn: nat)
    requires Good(s, ps) && sp in s.sizes && vpn < s.sizes[sp]
    ensures Ref(sp, vpn) in s.entries
    ensures ValidBits(s, sp)[vpn] == s.entries[Ref(sp, vpn)].valid
  {
    hide Coherent;
    CompleteMapsAll(s);
    assert Mapped(s, sp);
  }

  lemma SetValidCoherent(s: VM, r: Ref)
    requires Coherent(s) && r in s.entries
    ensures Coherent(SetValid(s, r))
  {
  }

  lemma SetValidContents(s: VM, r: Ref, x: Ref)
    requires Coherent(s) && r in s.entries && Coherent(SetValid(s, r)) && x in s.entries
    ensures Contents(SetValid(s, r), x) == Contents(s, x)
  {
    hide Coherent;
  }

  lemma SetValidSpace(s: VM, r: Ref, sp: nat)
    requires Coherent(s) && Mapped(s, sp) && r in s.entries && Coherent(SetValid(s, r))
    ensures Mapped(SetValid(s, r), sp) && Pages(SetValid(s, r), sp) == Pages(s, sp) && ReadOnlyBits(SetValid(s, r), sp) == ReadOnlyBits(s, sp)
    ensures ValidBits(SetValid(s, r), sp) ==
            if sp == r.space && r.vpn < s.sizes[sp] then ValidBits(s, sp)[r.vpn := true] else ValidBits(s, sp)
  {
    hide Coherent, Contents;
    forall v | 0 <= v < s.sizes[sp] ensures Pages(SetValid(s, r), sp)[v] == Pages(s, sp)[v] {
      SetValidContents(s, r, Ref(sp, v));
    }
  }

  /** Setting the valid bit is all a program sees of a handled fault. */
  lemma SetValidView(s: VM, ps: nat, r: Ref)
    requires Coherent(s) && AllMapped(s) && r in s.entries && r.space in s.sizes && r.vpn < s.sizes[r.space]
    ensures Coherent(SetValid(s, r)) && AllMapped(SetValid(s, r))
    ensures View(SetValid(s, r), ps) ==
            View(s, ps)[r.space := SpaceView(s, ps, r.space).(valid := ValidBits(s, r.space)[r.vpn := true])]
  {
    hide Coherent, Contents;
    SetValidCoherent(s, r);
    forall sp | sp in s.sizes
      ensures Mapped(SetValid(s, r), sp) && SpaceView(SetValid(s, r), ps, sp) ==
        if sp == r.space then SpaceView(s, ps, sp).(valid := ValidBits(s, sp)[r.vpn := true]) else SpaceView(s, ps, sp)
    {
      assert Mapped(s, sp);
      SetValidSpace(s, r, sp);
    }
  }
}
