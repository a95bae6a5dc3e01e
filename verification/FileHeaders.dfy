/**
 * File headers (filesys/filehdr.cc, filesys/IndirectPointerBlock.cc): which disk sectors a new file is
 * given, and which of them each byte of the file is looked for in.
 */
module FileHeaders {
  import opened BitMaps
  import opened Collections

  const SECTOR_SIZE: nat := 128
  const NUM_DIRECT: nat := 4
  const NUM_INDIRECT: nat := 26
  const PER_BLOCK: nat := 31 // PointersPerIndirect and MaxIndirectPointers
  const MAX_FILE_SIZE: nat := (NUM_DIRECT + NUM_INDIRECT * PER_BLOCK) * SECTOR_SIZE

  /** blocks[j] lists the data sectors of the j-th indirect block, which is itself in sector pointers[j]. */
  datatype Header = Header(numBytes: nat, numSectors: nat, direct: seq<int>, pointers: seq<int>, blocks: seq<seq<int>>)

  // ---- taking sectors from the free map ----

  /** What one Find returns: the first clear bit, or -1. */
  function Found(bits: seq<bool>): int {
    if FirstClear(bits) < |bits| then FirstClear(bits) else -1
  }

  function Marked(bits: seq<bool>): seq<bool> {
    if FirstClear(bits) < |bits| then bits[FirstClear(bits) := true] else bits
  }

  /** The map after k calls of Find. */
  function After(bits: seq<bool>, k: nat): (r: seq<bool>)
    ensures |r| == |bits|
  {
    if k == 0 then bits else Marked(After(bits, k - 1))
  }

  /** What k calls of Find return, in order. */
  function Taken(bits: seq<bool>, k: nat): (r: seq<int>)
    ensures |r| == k
  {
    if k == 0 then [] else Taken(bits, k - 1) + [Found(After(bits, k - 1))]
  }

  /** Distinct sectors, all free in the map. */
  ghost predicate AllFree(s: seq<int>, bits: seq<bool>) {
    Distinct(s) && forall x :: x in s ==> 0 <= x < |bits| && !bits[x]
  }

  /** The map with the sectors of s marked as well. */
  ghost predicate MarkedBy(bits: seq<bool>, s: seq<int>, after: seq<bool>) {
    |after| == |bits| && forall x :: 0 <= x < |bits| ==> after[x] == (bits[x] || x in s)
  }

  lemma AllFreeSnoc(bits: seq<bool>, s: seq<int>, after: seq<bool>, x: int)
    requires AllFree(s, bits) && MarkedBy(bits, s, after) && 0 <= x < |bits| && !after[x]
    ensures AllFree(s + [x], bits) && MarkedBy(bits, s + [x], after[x := true])
  {
  }

  /** With that many clear bits, the sectors taken are distinct, were free, and are just those now marked. */
  lemma {:induction false} TakenAreFree(bits: seq<bool>, k: nat)
    requires k <= CountClear(bits)
    ensures CountClear(After(bits, k)) == CountClear(bits) - k
    ensures AllFree(Taken(bits, k), bits) && MarkedBy(bits, Taken(bits, k), After(bits, k))
  {
    if k > 0 {
      hide CountClear, FirstClear, AllFree, MarkedBy;
      TakenAreFree(bits, k - 1);
      var b := After(bits, k - 1);
      CountFindsClear(b);
      FirstIsClear(b);
      CountUpdate(b, FirstClear(b), true);
      AllFreeSnoc(bits, Taken(bits, k - 1), b, FirstClear(b));
    }
  }

  lemma FirstIsClear(bits: seq<bool>)
    ensures FirstClear(bits) < |bits| ==> !bits[FirstClear(bits)]
  {
  }

  /** With fewer, one of them is -1. */
  lemma {:induction false} TooFew(bits: seq<bool>, k: nat)
    requires k > CountClear(bits)
    ensures -1 in Taken(bits, k) && !AllFree(Taken(bits, k), bits)
  {
    if k - 1 > CountClear(bits) {
      TooFew(bits, k - 1);
    } else {
      TakenAreFree(bits, k - 1);
      CountFindsClear(After(bits, k - 1));
      assert Taken(bits, k)[k - 1] == -1;
    }
  }

  // ---- how they are laid out ----

  function Sectors(bytes: nat): nat {
    (bytes + SECTOR_SIZE - 1) / SECTOR_SIZE
  }

  /** The number of indirect blocks a file of n sectors has. */
  function BlocksFor(n: nat): nat {
    if n <= NUM_DIRECT then 0 else (n - NUM_DIRECT + PER_BLOCK - 1) / PER_BLOCK
  }

  /** As many sectors as hold the bytes, and no more; as many blocks as list the sectors beyond the direct ones. */
  lemma JustEnough(bytes: nat, n: nat)
    ensures bytes <= 128 * Sectors(bytes) < bytes + 128
    ensures 0 < bytes ==> 128 * (Sectors(bytes) - 1) < bytes
    ensures n <= 4 + 31 * BlocksFor(n) && (BlocksFor(n) > 0 ==> 4 + 31 * (BlocksFor(n) - 1) < n)
  {
  }

  function Interleave(pointers: seq<int>, blocks: seq<seq<int>>): seq<int>
    requires |pointers| == |blocks|
  {
    if blocks == [] then []
    else
      var n := |blocks| - 1;
      Interleave(pointers[..n], blocks[..n]) + [pointers[n]] + blocks[n]
  }

  /** The sectors of a header in the order in which Allocate takes them. */
  function InOrder(h: Header): seq<int>
    requires |h.pointers| == |h.blocks|
  {
    h.direct + Interleave(h.pointers, h.blocks)
  }

  /** Four direct sectors, then blocks full but for the last. */
  ghost predicate Shaped(h: Header) {
    && |h.pointers| == |h.blocks|
    && |h.direct| == (if h.numSectors <= NUM_DIRECT then h.numSectors else NUM_DIRECT)
    && |h.blocks| == BlocksFor(h.numSectors)
    && (forall j :: 0 <= j < |h.blocks| ==>
          |h.blocks[j]| == if j < |h.blocks| - 1 then PER_BLOCK else h.numSectors - NUM_DIRECT - PER_BLOCK * j)
  }

  /** The sector that holds the i-th sector's worth of the file. */
  function DataSector(h: Header, i: nat): int {
    if i < NUM_DIRECT then (if i < |h.direct| then h.direct[i] else -1)
    else
      var j, k := (i - NUM_DIRECT) / PER_BLOCK, (i - NUM_DIRECT) % PER_BLOCK;
      if j < |h.blocks| && k < |h.blocks[j]| then h.blocks[j][k] else -1
  }

  /** What ByteToSector returns; nothing where it reads a pointer or a block that was never set. */
  function ByteToSector(h: Header, offset: nat): Option<int> {
    var sector := offset / SECTOR_SIZE;
    if sector < NUM_DIRECT then (if sector < |h.direct| then Some(h.direct[sector]) else None)
    else if h.numSectors < NUM_DIRECT then None
    else
      var block, k := (h.numSectors - NUM_DIRECT) / PER_BLOCK, (offset - SECTOR_SIZE * NUM_DIRECT) / SECTOR_SIZE;
      if block < |h.blocks| && k < |h.blocks[block]| then Some(h.blocks[block][k]) else None
  }

  // ---- the layout gives each part of the file a sector of its own ----

  ghost predicate FullButLast(blocks: seq<seq<int>>) {
    forall j :: 0 <= j < |blocks| - 1 ==> |blocks[j]| == PER_BLOCK
  }

  lemma {:induction false} InterleaveFull(pointers: seq<int>, blocks: seq<seq<int>>)
    requires |pointers| == |blocks| && forall j :: 0 <= j < |blocks| ==> |blocks[j]| == PER_BLOCK
    ensures |Interleave(pointers, blocks)| == (PER_BLOCK + 1) * |blocks|
  {
    if blocks != [] {
      InterleaveFull(pointers[..|blocks| - 1], blocks[..|blocks| - 1]);
    }
  }

  lemma {:induction false} InterleaveAt(pointers: seq<int>, blocks: seq<seq<int>>, j: nat, k: nat)
    requires |pointers| == |blocks| && FullButLast(blocks) && j < |blocks| && k < |blocks[j]|
    ensures (PER_BLOCK + 1) * j + 1 + k < |Interleave(pointers, blocks)|
    ensures Interleave(pointers, blocks)[(PER_BLOCK + 1) * j + 1 + k] == blocks[j][k]
  {
    var n := |blocks| - 1;
    InterleaveFull(pointers[..n], blocks[..n]);
    if j < n {
      InterleaveAt(pointers[..n], blocks[..n], j, k);
    }
  }

  /** Where in the order of allocation the i-th data sector stands. */
  function DataPosition(i: nat): nat {
    if i < NUM_DIRECT then i else i + 1 + (i - NUM_DIRECT) / PER_BLOCK
  }

  /** The block and the entry of a data sector beyond the direct ones exist. */
  lemma EntryExists(h: Header, i: nat)
    requires Shaped(h) && NUM_DIRECT <= i < h.numSectors
    ensures var j, k := (i - NUM_DIRECT) / PER_BLOCK, (i - NUM_DIRECT) % PER_BLOCK;
      j < |h.blocks| && k < |h.blocks[j]| && i - NUM_DIRECT == PER_BLOCK * j + k && FullButLast(h.blocks)
  {
  }

  lemma DataInOrder(h: Header, i: nat)
    requires Shaped(h) && i < h.numSectors
    ensures DataPosition(i) < |InOrder(h)| && InOrder(h)[DataPosition(i)] == DataSector(h, i)
  {
    if i >= NUM_DIRECT {
      var j, k := (i - NUM_DIRECT) / PER_BLOCK, (i - NUM_DIRECT) % PER_BLOCK;
      EntryExists(h, i);
      InterleaveAt(h.pointers, h.blocks, j, k);
    }
  }

  lemma DataSectorsDistinct(h: Header, i: nat, j: nat)
    requires Shaped(h) && Distinct(InOrder(h)) && i < j < h.numSectors
    ensures DataSector(h, i) != DataSector(h, j)
  {
    DataInOrder(h, i);
    DataInOrder(h, j);
  }

  // ---- where ByteToSector looks ----

  lemma LooksRight(h: Header, offset: nat)
    requires Shaped(h) && h.numSectors <= NUM_DIRECT + PER_BLOCK - 1 && offset < h.numSectors * SECTOR_SIZE
    ensures ByteToSector(h, offset) == Some(DataSector(h, offset / SECTOR_SIZE))
  {
    var i := offset / SECTOR_SIZE;
    assert i < h.numSectors;
    if i >= NUM_DIRECT {
      EntryExists(h, i);
      assert (offset - SECTOR_SIZE * NUM_DIRECT) / SECTOR_SIZE == i - NUM_DIRECT;
    }
  }

  /** In a file of 35 sectors or more, the first byte beyond the direct sectors is looked for in the wrong block. */
  lemma LooksWrong(h: Header)
    requires Shaped(h) && Distinct(InOrder(h)) && h.numSectors >= NUM_DIRECT + PER_BLOCK
    ensures ByteToSector(h, NUM_DIRECT * SECTOR_SIZE) != Some(DataSector(h, NUM_DIRECT))
  {
    var block := (h.numSectors - NUM_DIRECT) / PER_BLOCK;
    assert block >= 1;
    if block < |h.blocks| && 0 < |h.blocks[block]| {
      var i := NUM_DIRECT + PER_BLOCK * block;
      assert DataSector(h, i) == h.blocks[block][0];
      assert i < h.numSectors;
      DataSectorsDistinct(h, NUM_DIRECT, i);
    }
  }

  /** ByteToSector finds every byte of the file exactly when the file has at most 34 sectors. */
  lemma RightUpTo34(h: Header)
    requires Shaped(h) && Distinct(InOrder(h))
    ensures (forall offset: nat :: offset < h.numSectors * SECTOR_SIZE ==>
               ByteToSector(h, offset) == Some(DataSector(h, offset / SECTOR_SIZE))) <==> h.numSectors <= 34
  {
    if h.numSectors <= 34 {
      forall offset: nat | offset < h.numSectors * SECTOR_SIZE
        ensures ByteToSector(h, offset) == Some(DataSector(h, offset / SECTOR_SIZE))
      {
        LooksRight(h, offset);
      }
    } else {
      LooksWrong(h);
      assert (NUM_DIRECT * SECTOR_SIZE) / SECTOR_SIZE == NUM_DIRECT;
    }
  }

  // ---- allocating a new file ----

  lemma {:induction false} TakeMore(bits: seq<bool>, t: nat, c: nat)
    ensures After(bits, t + c) == After(After(bits, t), c)
    ensures Taken(bits, t + c) == Taken(bits, t) + Taken(After(bits, t), c)
  {
    hide Found, Marked;
    if c > 0 {
      TakeMore(bits, t, c - 1);
      assert Taken(bits, t + c) == Taken(bits, t + c - 1) + [Found(After(bits, t + c - 1))];
    }
  }

  /** Sectors for one indirect block; PutSector adds them one by one. */
  method FillBlock(freeMap: BitMap, count: nat) returns (block: seq<int>)
    requires freeMap.Valid()
    modifies freeMap.words
    ensures block == Taken(old(freeMap.Bits()), count) && freeMap.Bits() == After(old(freeMap.Bits()), count)
  {
    hide BitsOf;
    block := [];
    for j := 0 to count
      invariant freeMap.Bits() == After(old(freeMap.Bits()), j) && block == Taken(old(freeMap.Bits()), j)
    {
      var newSec := freeMap.Find();
      block := block + [newSec];
    }
  }

  /** A header while left sectors are still to be allocated, i turns of the loop having been made. */
  ghost predicate Partial(h: Header, i: nat, left: int) {
    && 0 <= left <= h.numSectors && |h.pointers| == |h.blocks|
    && (if i < NUM_DIRECT then |h.direct| == i == h.numSectors - left && h.blocks == []
        else |h.direct| == NUM_DIRECT <= h.numSectors && |h.blocks| == i - NUM_DIRECT)
    && (forall j :: 0 <= j < |h.blocks| - 1 ==> |h.blocks[j]| == PER_BLOCK)
    && (i == NUM_DIRECT ==> left == h.numSectors - NUM_DIRECT)
    && (i > NUM_DIRECT ==>
          var last := |h.blocks[|h.blocks| - 1]|;
          0 < last <= PER_BLOCK && (left > 0 ==> last == PER_BLOCK) && left == h.numSectors - NUM_DIRECT - PER_BLOCK * (i - NUM_DIRECT - 1) - last)
  }

  lemma PartialEnds(h: Header, i: nat)
    requires Partial(h, i, 0)
    ensures Shaped(h)
  {
  }

  lemma DirectTurn(h: Header, i: nat, left: int, sector: int)
    requires Partial(h, i, left) && left > 0 && i < NUM_DIRECT
    ensures Partial(h.(direct := h.direct + [sector]), i + 1, left - 1)
  {
  }

  lemma BlockTurn(h: Header, i: nat, left: int, sector: int, block: seq<int>)
    requires Partial(h, i, left) && left > 0 && i >= NUM_DIRECT && |block| == if left > PER_BLOCK then PER_BLOCK else left
    ensures Partial(h.(pointers := h.pointers + [sector], blocks := h.blocks + [block]), i + 1, left - |block|)
  {
  }

  class FileHeader {
    var numBytes: nat
    var numSectors: nat
    var dataSectors: seq<int>
    var indirectSector: seq<int>
    var indirectPointers: seq<seq<int>>

    ghost function State(): Header
      reads this
    {
      Header(numBytes, numSectors, dataSectors, indirectSector, indirectPointers)
    }

    constructor ()
    {
      numBytes, numSectors, dataSectors, indirectSector, indirectPointers := 0, 0, [], [], [];
    }

    /** A new indirect block: a sector for itself, then its data sectors. */
    method TakeBlock(freeMap: BitMap, count: nat) returns (sector: int, block: seq<int>)
      requires freeMap.Valid() && |indirectSector| == |indirectPointers|
      modifies this`indirectSector, this`indirectPointers, freeMap.words
      ensures indirectSector == old(indirectSector) + [sector] && indirectPointers == old(indirectPointers) + [block] && |block| == count
      ensures [sector] + block == Taken(old(freeMap.Bits()), 1 + count) && freeMap.Bits() == After(old(freeMap.Bits()), 1 + count)
    {
      hide BitsOf, FirstClear;
      ghost var bits := freeMap.Bits();
      sector := freeMap.Find();
      assert After(bits, 1) == freeMap.Bits() && Taken(bits, 1) == [sector];
      block := FillBlock(freeMap, count);
      TakeMore(bits, 1, count);
      indirectSector, indirectPointers := indirectSector + [sector], indirectPointers + [block];
    }

    /** The loop of Allocate. */
    method TakeSectors(freeMap: BitMap)
      requires freeMap.Valid() && dataSectors == [] && indirectSector == [] && indirectPointers == []
      modifies this`dataSectors, this`indirectSector, this`indirectPointers, freeMap.words
      ensures Shaped(State()) && InOrder(State()) == Taken(old(freeMap.Bits()), |InOrder(State())|)
      ensures freeMap.Bits() == After(old(freeMap.Bits()), |InOrder(State())|)
    {
      hide BitsOf, FirstClear, Partial, Interleave, Taken, After, Shaped;
      var i, left := 0, numSectors;
      ghost var bits, t: nat := freeMap.Bits(), 0;
      StartsPartial(State(), bits);
      while left > 0
        invariant 0 <= left && |indirectSector| == |indirectPointers| && Partial(State(), i, left)
        invariant freeMap.Bits() == After(bits, t) && InOrder(State()) == Taken(bits, t)
        decreases left
      {
        ghost var h := State();
        if i < NUM_DIRECT {
          OneMore(bits, t);
          NoBlocksYet(h, i, left);
          var sector := freeMap.Find();
          DirectTurn(h, i, left, sector);
          dataSectors := dataSectors + [sector];
          left := left - 1;
          t := t + 1;
        } else {
          var count := if left > PER_BLOCK then PER_BLOCK else left;
          var sector, block := TakeBlock(freeMap, count);
          TakeMore(bits, t, 1 + count);
          AddBlock(h.pointers, h.blocks, sector, block);
          BlockTurn(h, i, left, sector, block);
          left := left - count;
          t := t + (1 + count);
        }
        i := i + 1;
      }
      PartialEnds(State(), i);
    }

    /**
     * FileHeader::Allocate.  A size that is negative or too large, or a map with fewer clear bits than
     * data sectors, is refused and nothing is taken.  Otherwise the sectors are taken in the order of
     * the header: those for pointer blocks are not counted beforehand.
     */
    method Allocate(freeMap: BitMap, fileSize: int) returns (ok: bool)
      requires freeMap.Valid()
      modifies this, freeMap.words
      ensures ok <==> 0 <= fileSize <= MAX_FILE_SIZE && Sectors(fileSize) <= CountClear(old(freeMap.Bits()))
      ensures !ok ==> freeMap.Bits() == old(freeMap.Bits())
      ensures ok ==> numBytes == fileSize && numSectors == Sectors(fileSize) && Shaped(State()) && |indirectSector| <= NUM_INDIRECT
      ensures ok ==> var k := numSectors + BlocksFor(numSectors);
                InOrder(State()) == Taken(old(freeMap.Bits()), k) && freeMap.Bits() == After(old(freeMap.Bits()), k)
    {
      hide BitsOf, CountClear, InOrder, Taken, After;
      if fileSize < 0 || fileSize > MAX_FILE_SIZE {
        return false;
      }
      numBytes, numSectors := fileSize, Sectors(fileSize);
      var free := freeMap.NumClear();
      if free < numSectors {
        return false;
      }
      dataSectors, indirectSector, indirectPointers := [], [], [];
      TakeSectors(freeMap);
      ShapedLength(State());
      ok := true;
    }
  }

  lemma StartsPartial(h: Header, bits: seq<bool>)
    requires h.direct == [] && h.pointers == [] && h.blocks == []
    ensures Partial(h, 0, h.numSectors) && InOrder(h) == Taken(bits, 0) && After(bits, 0) == bits
  {
  }

  lemma NoBlocksYet(h: Header, i: nat, left: int)
    requires Partial(h, i, left) && i < NUM_DIRECT
    ensures h.pointers == [] && h.blocks == [] && Interleave(h.pointers, h.blocks) == []
  {
  }

  lemma OneMore(bits: seq<bool>, t: nat)
    ensures Taken(bits, t + 1) == Taken(bits, t) + [Found(After(bits, t))] && After(bits, t + 1) == Marked(After(bits, t))
  {
  }

  lemma AddBlock(pointers: seq<int>, blocks: seq<seq<int>>, sector: int, block: seq<int>)
    requires |pointers| == |blocks|
    ensures Interleave(pointers + [sector], blocks + [block]) == Interleave(pointers, blocks) + [sector] + block
  {
    assert (pointers + [sector])[..|blocks|] == pointers && (blocks + [block])[..|blocks|] == blocks;
  }

  lemma ShapedLength(h: Header)
    requires Shaped(h)
    ensures |InOrder(h)| == h.numSectors + BlocksFor(h.numSectors)
  {
    if h.blocks != [] {
      var n := |h.blocks| - 1;
      InterleaveFull(h.pointers[..n], h.blocks[..n]);
    }
  }

  /**
   * The map Allocate gives is good, distinct sectors that were free, exactly when the free map had room
   * for the pointer blocks too; otherwise some sector of it is -1.
   */
  lemma GoodAllocation(bits: seq<bool>, h: Header)
    requires Shaped(h) && InOrder(h) == Taken(bits, h.numSectors + BlocksFor(h.numSectors))
    ensures AllFree(InOrder(h), bits) <==> h.numSectors + BlocksFor(h.numSectors) <= CountClear(bits)
  {
    hide Shaped, InOrder, CountClear, Taken;
    var k := h.numSectors + BlocksFor(h.numSectors);
    if k <= CountClear(bits) {
      TakenAreFree(bits, k);
    } else {
      TooFew(bits, k);
    }
  }

  /** A header with a single indirect block. */
  lemma OneBlockInOrder(h: Header, sector: int, block: seq<int>)
    requires h.pointers == [sector] && h.blocks == [block]
    ensures InOrder(h) == h.direct + [sector] + block
  {
    AddBlock([], [], sector, block);
    assert [] + [sector] == h.pointers && [] + [block] == h.blocks;
    assert Interleave(h.pointers, h.blocks) == [sector] + block;
  }

  /**
   * A free map with five clear bits has room for the data of five sectors, so Allocate accepts the file, and
   * none for its pointer block: the fifth data sector is -1.
   */
  lemma NoRoomForPointers(bits: seq<bool>) returns (h: Header)
    requires CountClear(bits) == 5
    ensures h.numBytes == 640 && h.numSectors == Sectors(640) == CountClear(bits) && Shaped(h)
    ensures InOrder(h) == Taken(bits, h.numSectors + BlocksFor(h.numSectors)) && DataSector(h, 4) == -1 && !AllFree(InOrder(h), bits)
  {
    hide FirstClear, CountClear, AllFree, MarkedBy;
    TakenAreFree(bits, 5);
    CountFindsClear(After(bits, 5));
    OneMore(bits, 5);
    var t := Taken(bits, 6);
    assert t[5] == -1;
    hide Taken, After;
    h := Header(640, 5, t[..4], [t[4]], [[t[5]]]);
    OneBlockInOrder(h, t[4], [t[5]]);
    assert InOrder(h) == t;
    GoodAllocation(bits, h);
  }

  /** A header of 35 sectors, the smallest whose bytes are looked for in the wrong place. */
  lemma ThirtyFiveSectors() returns (h: Header)
    ensures h.numSectors == 35 && Shaped(h) && Distinct(InOrder(h))
    ensures ByteToSector(h, NUM_DIRECT * SECTOR_SIZE) != Some(DataSector(h, NUM_DIRECT))
  {
    var block := seq(PER_BLOCK, k => 5 + k);
    h := Header(35 * SECTOR_SIZE, 35, [0, 1, 2, 3], [4], [block]);
    OneBlockInOrder(h, 4, block);
    var s := InOrder(h);
    assert forall i :: 0 <= i < |s| ==> s[i] == i;
    LooksWrong(h);
  }
}
