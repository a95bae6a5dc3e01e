/**
 * What a user program is promised: a private flat byte array with a valid and a read-only bit per
 * page, and the checks that Machine::Translate makes before any byte is touched.  Nothing here
 * knows about frames, swap or eviction.
 */
module UserMemory {
  import opened Arithmetic

  datatype Memory = Memory(pageSize: nat, bytes: seq<Byte>, valid: seq<bool>, readOnly: seq<bool>)

  datatype Exception = NoException | PageFault | AddressError | ReadOnlyError

  predicate Size(n: nat) {
    n == 1 || n == 2 || n == 4
  }

  ghost predicate WellFormed(m: Memory) {
    && 0 < m.pageSize && m.pageSize % 4 == 0
    && |m.valid| == |m.readOnly|
    && |m.bytes| == |m.valid| * m.pageSize
  }

  predicate Usable(m: Memory) {
    0 < m.pageSize && |m.valid| == |m.readOnly|
  }

  function PageOf(addr: Word, pageSize: nat): nat
    requires 0 < pageSize
  {
    addr / pageSize
  }

  function Offset(addr: Word, pageSize: nat): nat
    requires 0 < pageSize
  {
    addr % pageSize
  }

  /** The order of the tests is the order in which Translate makes them. */
  function Check(pageSize: nat, valid: seq<bool>, readOnly: seq<bool>, addr: Word, size: nat, writing: bool): Exception
    requires 0 < pageSize && |valid| == |readOnly| && Size(size)
  {
    var vpn := PageOf(addr, pageSize);
    if (size == 4 && addr % 4 != 0) || (size == 2 && addr % 2 != 0) then AddressError
    else if vpn >= |valid| then AddressError
    else if !valid[vpn] then PageFault
    else if readOnly[vpn] && writing then ReadOnlyError
    else NoException
  }

  /** Little-endian value of 1, 2 or 4 bytes; a single byte is a signed char widened to a word. */
  function Decode(b: seq<Byte>): Word
    requires Size(|b|)
  {
    if |b| == 1 then (if b[0] < 128 then b[0] as int else 0xFFFF_FF00 + b[0] as int)
    else if |b| == 2 then b[0] as int + 256 * (b[1] as int)
    else b[0] as int + 256 * (b[1] as int) + 65536 * (b[2] as int) + 16777216 * (b[3] as int)
  }

  /** The low bytes of a word, least significant first. */
  function Encode(w: Word, size: nat): (r: seq<Byte>)
    requires Size(size)
    ensures |r| == size
  {
    if size == 1 then [w % 256]
    else if size == 2 then [w % 256, (w / 256) % 256]
    else [w % 256, (w / 256) % 256, (w / 65536) % 256, w / 16777216]
  }

  // ---- one attempt of an access, with the page-fault handler run if it faults ----

  datatype Answer = Value(word: Word) | Stored | Faulted | Trap(exception: Exception)

  /** A page fault makes the page valid and leaves the bytes alone; the access is tried again. */
  function Read(m: Memory, addr: Word, size: nat): (Memory, Answer)
    requires Usable(m) && Size(size)
  {
    match Check(m.pageSize, m.valid, m.readOnly, addr, size, false)
    case NoException => (m, Value(Load(m, addr, size)))
    case PageFault => (m.(valid := m.valid[PageOf(addr, m.pageSize) := true]), Faulted)
    case e => (m, Trap(e))
  }

  function Write(m: Memory, addr: Word, size: nat, value: Word): (Memory, Answer)
    requires Usable(m) && Size(size)
  {
    match Check(m.pageSize, m.valid, m.readOnly, addr, size, true)
    case NoException => (Store(m, addr, size, value), Stored)
    case PageFault => (m.(valid := m.valid[PageOf(addr, m.pageSize) := true]), Faulted)
    case e => (m, Trap(e))
  }

  function Load(m: Memory, addr: Word, size: nat): Word
    requires Size(size)
  {
    if addr + size <= |m.bytes| then Decode(m.bytes[addr..addr + size]) else 0
  }

  function Store(m: Memory, addr: Word, size: nat, value: Word): Memory
    requires Size(size)
  {
    if addr + size <= |m.bytes| then m.(bytes := Overwrite(m.bytes, addr, Encode(value, size))) else m
  }

  /** An access that passes every check stays inside the bytes of its own page. */
  lemma CheckedIsInside(m: Memory, addr: Word, size: nat, writing: bool)
    requires WellFormed(m) && Size(size)
    requires Check(m.pageSize, m.valid, m.readOnly, addr, size, writing) == NoException
    ensures addr + size <= |m.bytes|
  {
    AlignedStaysInside(addr, size, m.pageSize);
    SplitBack(addr, m.pageSize);
    MulMonotone(addr / m.pageSize + 1, |m.valid|, m.pageSize);
  }

  lemma DecodeEncode(w: Word, size: nat)
    requires Size(size)
    ensures size == 4 ==> Decode(Encode(w, size)) == w
    ensures size == 2 ==> Decode(Encode(w, size)) == w % 0x1_0000
    ensures size == 1 ==> Decode(Encode(w, size)) % 256 == w % 256
  {
    var q, r := w / 256, w % 256;
    var q2, r2 := q / 256, q % 256;
    assert w / 65536 == q2 && w / 16777216 == q2 / 256;
    assert w == r + 256 * r2 + 65536 * q2;
  }

  lemma CheckedInPage(m: Memory, addr: Word, size: nat, writing: bool)
    requires WellFormed(m) && Size(size)
    requires Check(m.pageSize, m.valid, m.readOnly, addr, size, writing) == NoException
    ensures Offset(addr, m.pageSize) + size <= m.pageSize
  {
    AlignedStaysInside(addr, size, m.pageSize);
  }

  lemma AddressSplit(addr: Word, pageSize: nat)
    requires 0 < pageSize
    ensures addr == PageOf(addr, pageSize) * pageSize + Offset(addr, pageSize)
  {
    SplitBack(addr, pageSize);
  }

  /** A load returns the low bytes of the last store to the same address. */
  lemma LoadAfterStore(m: Memory, addr: Word, size: nat, value: Word)
    requires Size(size) && addr + size <= |m.bytes|
    ensures var r := Load(Store(m, addr, size, value), addr, size);
            && (size == 4 ==> r == value)
            && (size == 2 ==> r == value % 0x1_0000)
            && (size == 1 ==> r % 256 == value % 256)
  {
    assert Store(m, addr, size, value).bytes[addr..addr + size] == Encode(value, size);
    DecodeEncode(value, size);
  }

  // ---- what an access does, byte by byte ----

  /** Aligned and inside the space. */
  predicate Proper(m: Memory, addr: Word, size: nat)
    requires 0 < size
  {
    addr % size == 0 && addr + size <= |m.bytes|
  }

  ghost predicate PageIs(bits: seq<bool>, addr: Word, ps: nat, b: bool)
    requires 0 < ps
  {
    addr / ps < |bits| && bits[addr / ps] == b
  }

  /** The word that bytes b0, b1, .. of an access of this size stand for; one byte is a signed char. */
  predicate Stands(bytes: seq<Byte>, addr: nat, size: nat, word: Word)
    requires addr + size <= |bytes| && Size(size)
  {
    var b := bytes[addr] as int;
    match size
    case 1 => word == b + if b >= 128 then 0xFFFF_FF00 else 0
    case 2 => word == b + 0x100 * (bytes[addr + 1] as int)
    case _ => word == b + 0x100 * (bytes[addr + 1] as int) + 0x1_0000 * (bytes[addr + 2] as int) + 0x100_0000 * (bytes[addr + 3] as int)
  }

  /** Only the bit of the page that holds addr has changed, and it is set. */
  ghost predicate MadeValid(m: Memory, addr: Word, m': Memory)
    requires 0 < m.pageSize && addr / m.pageSize < |m.valid|
  {
    m' == m.(valid := m.valid[addr / m.pageSize := true])
  }

  /** A read in full: the value, the fault or the exception, each exactly when it is due. */
  ghost predicate ReadsAs(m: Memory, addr: Word, size: nat, m': Memory, a: Answer)
    requires WellFormed(m) && Size(size)
  {
    && (a.Value? <==> Proper(m, addr, size) && PageIs(m.valid, addr, m.pageSize, true))
    && (a == Faulted <==> Proper(m, addr, size) && PageIs(m.valid, addr, m.pageSize, false))
    && (a == Trap(AddressError) <==> !Proper(m, addr, size))
    && (a.Value? ==> m' == m && Stands(m.bytes, addr, size, a.word))
    && (a == Faulted ==> MadeValid(m, addr, m'))
    && (a.Trap? ==> m' == m)
    && (a.Value? || a == Faulted || a == Trap(AddressError))
  }

  /** Byte k of a word. */
  function ByteOf(value: Word, k: nat): nat {
    match k
    case 0 => value % 0x100
    case 1 => value / 0x100 % 0x100
    case 2 => value / 0x1_0000 % 0x100
    case _ => value / 0x100_0000
  }

  /** A write in full: exactly those bytes take the low bytes of the value. */
  ghost predicate WritesAs(m: Memory, addr: Word, size: nat, value: Word, m': Memory, a: Answer)
    requires WellFormed(m) && Size(size)
  {
    var mine := Proper(m, addr, size) && PageIs(m.valid, addr, m.pageSize, true);
    && (a == Stored <==> mine && PageIs(m.readOnly, addr, m.pageSize, false))
    && (a == Trap(ReadOnlyError) <==> mine && PageIs(m.readOnly, addr, m.pageSize, true))
    && (a == Faulted <==> Proper(m, addr, size) && PageIs(m.valid, addr, m.pageSize, false))
    && (a == Trap(AddressError) <==> !Proper(m, addr, size))
    && (a == Stored ==> m' == m.(bytes := m'.bytes) && |m'.bytes| == |m.bytes|)
    && (a == Stored ==> forall i :: 0 <= i < |m.bytes| ==> m'.bytes[i] == if addr <= i < addr + size then ByteOf(value, i - addr) else m.bytes[i])
    && (a == Faulted ==> MadeValid(m, addr, m'))
    && (a.Trap? ==> m' == m)
    && (a == Stored || a == Faulted || a == Trap(AddressError) || a == Trap(ReadOnlyError))
  }

  /** The tests of Translate together: they pass an aligned access inside the space on to the bits of its page. */
  lemma TestsExact(m: Memory, addr: Word, size: nat)
    requires WellFormed(m) && Size(size)
    ensures Proper(m, addr, size) <==>
      !((size == 4 && addr % 4 != 0) || (size == 2 && addr % 2 != 0)) && addr / m.pageSize < |m.valid|
  {
    BlockBound(addr, m.pageSize, |m.valid|);
    if addr % size == 0 && addr / m.pageSize < |m.valid| {
      AlignedStaysInside(addr, size, m.pageSize);
      SplitBack(addr, m.pageSize);
      MulMonotone(addr / m.pageSize + 1, |m.valid|, m.pageSize);
    }
  }

  lemma ReadExact(m: Memory, addr: Word, size: nat)
    requires WellFormed(m) && Size(size)
    ensures ReadsAs(m, addr, size, Read(m, addr, size).0, Read(m, addr, size).1)
  {
    TestsExact(m, addr, size);
    if Proper(m, addr, size) {
      DecodeStands(m.bytes, addr, size);
    }
    hide Decode, Stands, WellFormed;
  }

  lemma DecodeStands(bytes: seq<Byte>, addr: nat, size: nat)
    requires addr + size <= |bytes| && Size(size)
    ensures Stands(bytes, addr, size, Decode(bytes[addr..addr + size]))
  {
  }

  lemma EncodeBytes(value: Word, size: nat, k: nat)
    requires Size(size) && k < size
    ensures Encode(value, size)[k] == ByteOf(value, k)
  {
  }

  lemma WriteExact(m: Memory, addr: Word, size: nat, value: Word)
    requires WellFormed(m) && Size(size)
    ensures WritesAs(m, addr, size, value, Write(m, addr, size, value).0, Write(m, addr, size, value).1)
  {
    TestsExact(m, addr, size);
    forall k | 0 <= k < size ensures Encode(value, size)[k] == ByteOf(value, k) {
      EncodeBytes(value, size, k);
    }
    hide Encode, ByteOf, WellFormed;
  }
}
