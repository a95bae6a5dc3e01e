/**
 * Reading and writing inside a file (filesys/openfile.cc): a byte array kept by whole-sector transfers.
 * The files are those whose bytes ByteToSector finds: allocated in distinct sectors, at most 34 of them.
 */
module OpenFiles {
  import opened Arithmetic
  import opened Blocks
  import opened Collections
  import opened PageStores
  import opened FileHeaders
  import BitMaps

  /** A file of the disk: its sectors are on the disk and its own, and it is not too long to be read. */
  ghost predicate FileOk(h: Header, sectors: nat) {
    && Shaped(h) && h.numSectors == Sectors(h.numBytes) && h.numSectors <= 34
    && (forall i :: 0 <= i < h.numSectors ==> 0 <= DataSector(h, i) < sectors)
    && (forall i, j :: 0 <= i < j < h.numSectors ==> DataSector(h, i) != DataSector(h, j))
  }

  /** A file that Allocate made on a disk with room for data and pointers, and not too long, is such a file. */
  lemma AllocatedIsOk(bits: seq<bool>, h: Header)
    requires Shaped(h) && h.numSectors == Sectors(h.numBytes) && h.numSectors <= 34 && AllFree(InOrder(h), bits)
    ensures FileOk(h, |bits|)
  {
    hide InOrder, DataSector;
    forall i | 0 <= i < h.numSectors ensures 0 <= DataSector(h, i) < |bits| {
      DataInOrder(h, i);
      assert InOrder(h)[DataPosition(i)] in InOrder(h);
    }
    forall i, j | 0 <= i < j < h.numSectors ensures DataSector(h, i) != DataSector(h, j) {
      DataSectorsDistinct(h, i, j);
    }
  }

  ghost function FilePages(disk: seq<seq<Byte>>, h: Header): (r: seq<seq<Byte>>)
    requires FileOk(h, |disk|)
    ensures |r| == h.numSectors
  {
    seq(h.numSectors, i requires 0 <= i < h.numSectors => disk[DataSector(h, i)])
  }

  /** The file as a byte array, up to the end of its last sector. */
  ghost function FileBytes(disk: seq<seq<Byte>>, h: Header): seq<Byte>
    requires FileOk(h, |disk|)
  {
    Flatten(FilePages(disk, h))
  }

  lemma FileLength(disk: seq<seq<Byte>>, h: Header)
    requires FileOk(h, |disk|) && Uniform(disk, SECTOR_SIZE)
    ensures |FileBytes(disk, h)| == h.numSectors * SECTOR_SIZE
  {
    hide FileOk;
    assert Uniform(FilePages(disk, h), SECTOR_SIZE) by { PagesUniform(disk, h); }
    FlattenLength(FilePages(disk, h), SECTOR_SIZE);
  }

  lemma PagesUniform(disk: seq<seq<Byte>>, h: Header)
    requires FileOk(h, |disk|) && Uniform(disk, SECTOR_SIZE)
    ensures Uniform(FilePages(disk, h), SECTOR_SIZE)
  {
  }

  lemma SectorBytes(disk: seq<seq<Byte>>, h: Header, i: nat)
    requires FileOk(h, |disk|) && Uniform(disk, SECTOR_SIZE) && i < h.numSectors
    ensures 0 <= DataSector(h, i) < |disk| && ByteToSector(h, i * SECTOR_SIZE) == Some(DataSector(h, i))
    ensures (i + 1) * SECTOR_SIZE <= |FileBytes(disk, h)|
    ensures disk[DataSector(h, i)] == FileBytes(disk, h)[i * SECTOR_SIZE..(i + 1) * SECTOR_SIZE]
  {
    PagesUniform(disk, h);
    LooksRight(h, i * SECTOR_SIZE);
    FlattenRange(FilePages(disk, h), SECTOR_SIZE, i, 0, SECTOR_SIZE);
  }

  /** Writing one sector of the file changes those bytes of it, and no other sector of the disk. */
  lemma WriteSectorBytes(disk: seq<seq<Byte>>, h: Header, i: nat, page: seq<Byte>)
    requires FileOk(h, |disk|) && Uniform(disk, SECTOR_SIZE) && i < h.numSectors && |page| == SECTOR_SIZE
    ensures 0 <= DataSector(h, i) < |disk| && (i + 1) * SECTOR_SIZE <= |FileBytes(disk, h)|
    ensures FileBytes(disk[DataSector(h, i) := page], h) == Overwrite(FileBytes(disk, h), i * SECTOR_SIZE, page)
  {
    hide DataSector, Shaped, Flatten, Overwrite;
    PagesUniform(disk, h);
    var pages, disk' := FilePages(disk, h), disk[DataSector(h, i) := page];
    FlattenOverwrite(pages, SECTOR_SIZE, i, 0, page);
    OverwriteAll(pages[i], page);
    assert FilePages(disk', h) == pages[i := page] by {
      forall j | 0 <= j < h.numSectors ensures FilePages(disk', h)[j] == pages[i := page][j] {
        assert j != i ==> DataSector(h, j) != DataSector(h, i);
      }
    }
  }

  lemma OverwriteAll<T>(s: seq<T>, x: seq<T>)
    requires |x| == |s|
    ensures Overwrite(s, 0, x) == x
  {
  }

  lemma OverwriteMore<T>(s: seq<T>, at: nat, x: seq<T>, y: seq<T>)
    requires at + |x| + |y| <= |s|
    ensures Overwrite(Overwrite(s, at, x), at + |x|, y) == Overwrite(s, at, x + y)
  {
  }

  // ---- reading ----

  /** The loop of ReadAt: the sectors from first up to end, one after the other. */
  method ReadSectors(disk: PageStore, h: Header, buf: array<Byte>, first: nat, end: nat)
    requires disk.Valid() && disk.size == SECTOR_SIZE && FileOk(h, disk.count) && first <= end <= h.numSectors
    requires buf != disk.bytes && buf.Length == (end - first) * SECTOR_SIZE
    modifies buf
    ensures |FileBytes(disk.Pages(), h)| == h.numSectors * SECTOR_SIZE
    ensures buf[..] == FileBytes(disk.Pages(), h)[first * SECTOR_SIZE..end * SECTOR_SIZE]
  {
    hide FileOk, PageStore.Pages, FileBytes, ByteToSector, DataSector;
    disk.PagesUniform();
    ghost var file := FileBytes(disk.Pages(), h);
    FileLength(disk.Pages(), h);
    for i := first to end
      invariant buf[..(i - first) * SECTOR_SIZE] == file[first * SECTOR_SIZE..i * SECTOR_SIZE]
    {
      SectorBytes(disk.Pages(), h, i);
      var sector := ByteToSector(h, i * SECTOR_SIZE).value;
      var data := disk.Load(sector, 0, SECTOR_SIZE);
      WriteBytes(buf, (i - first) * SECTOR_SIZE, data);
      assert file[first * SECTOR_SIZE..(i + 1) * SECTOR_SIZE] == file[first * SECTOR_SIZE..i * SECTOR_SIZE] + data;
    }
    assert buf[..(end - first) * SECTOR_SIZE] == buf[..];
  }

  lemma SliceOfSlice<T>(s: seq<T>, from: nat, to: nat, at: nat, n: nat)
    requires from + at + n <= to <= |s|
    ensures s[from..to][at..at + n] == s[from + at..from + at + n]
  {
    var part, whole := s[from..to][at..at + n], s[from + at..from + at + n];
    forall k | 0 <= k < n ensures part[k] == whole[k] {
      assert part[k] == s[from..to][at + k];
    }
  }

  lemma SectorsOfRange(position: nat, n: nat, sectors: nat)
    requires 0 < n && position + n <= sectors * SECTOR_SIZE
    ensures var first, last := position / SECTOR_SIZE, (position + n - 1) / SECTOR_SIZE;
      first <= last < sectors && first * SECTOR_SIZE <= position && position + n <= (last + 1) * SECTOR_SIZE
  {
  }

  /**
   * OpenFile::ReadAt into the buffer at an offset.  A request for nothing, or from beyond the length of
   * the file, reads nothing; the source checks no more, so the range must lie in the file's sectors.
   */
  method ReadAt(disk: PageStore, h: Header, into: array<Byte>, at: nat, numBytes: int, position: nat) returns (n: int)
    requires disk.Valid() && disk.size == SECTOR_SIZE && FileOk(h, disk.count) && into != disk.bytes
    requires numBytes > 0 && position < h.numBytes ==> at + numBytes <= into.Length && position + numBytes <= h.numSectors * SECTOR_SIZE
    modifies into
    ensures n == if numBytes <= 0 || position >= h.numBytes then 0 else numBytes
    ensures |FileBytes(disk.Pages(), h)| == h.numSectors * SECTOR_SIZE
    ensures into[..] == if n == 0 then old(into[..]) else Overwrite(old(into[..]), at, FileBytes(disk.Pages(), h)[position..position + numBytes])
  {
    hide FileOk, PageStore.Pages, FileBytes, Overwrite;
    disk.PagesUniform();
    FileLength(disk.Pages(), h);
    if numBytes <= 0 || position >= h.numBytes {
      return 0;
    }
    var first, last := position / SECTOR_SIZE, (position + numBytes - 1) / SECTOR_SIZE;
    SectorsOfRange(position, numBytes, h.numSectors);
    var buf := new Byte[(1 + last - first) * SECTOR_SIZE];
    ReadSectors(disk, h, buf, first, last + 1);
    SliceOfSlice(FileBytes(disk.Pages(), h), first * SECTOR_SIZE, (last + 1) * SECTOR_SIZE, position - first * SECTOR_SIZE, numBytes);
    CopyBytes(buf, position - first * SECTOR_SIZE, into, at, numBytes);
    n := numBytes;
  }

  // ---- writing ----

  /** The sector with the last byte of the range, as C's division has it for an empty range at 0. */
  function LastSector(position: nat, n: nat): int {
    if position + n == 0 then 0 else (position + n - 1) / SECTOR_SIZE
  }

  /** The loop of WriteAt: the buffer goes to the sectors of the file from first on. */
  method WriteSectors(disk: PageStore, h: Header, buf: array<Byte>, first: nat, end: nat)
    requires disk.Valid() && disk.size == SECTOR_SIZE && FileOk(h, disk.count) && first <= end <= h.numSectors
    requires buf != disk.bytes && buf.Length == (end - first) * SECTOR_SIZE
    modifies disk.bytes
    ensures |old(FileBytes(disk.Pages(), h))| == h.numSectors * SECTOR_SIZE
    ensures FileBytes(disk.Pages(), h) == Overwrite(old(FileBytes(disk.Pages(), h)), first * SECTOR_SIZE, buf[..])
    ensures forall s :: 0 <= s < disk.count && (forall i :: first <= i < end ==> DataSector(h, i) != s) ==> disk.Pages()[s] == old(disk.Pages())[s]
  {
    hide FileOk, PageStore.Pages, FileBytes, ByteToSector, DataSector, Overwrite;
    disk.PagesUniform();
    ghost var file, pages := FileBytes(disk.Pages(), h), disk.Pages();
    FileLength(disk.Pages(), h);
    NothingWritten(file, first * SECTOR_SIZE);
    assert buf[..0] == [];
    for i := first to end
      invariant FileBytes(disk.Pages(), h) == Overwrite(file, first * SECTOR_SIZE, buf[..(i - first) * SECTOR_SIZE])
      invariant forall s :: 0 <= s < disk.count && (forall j :: first <= j < i ==> DataSector(h, j) != s) ==> disk.Pages()[s] == pages[s]
    {
      disk.PagesUniform();
      SectorBytes(disk.Pages(), h, i);
      var sector := ByteToSector(h, i * SECTOR_SIZE).value;
      var page := buf[(i - first) * SECTOR_SIZE..(i + 1 - first) * SECTOR_SIZE];
      WriteSectorBytes(disk.Pages(), h, i, page);
      OverwriteMore(file, first * SECTOR_SIZE, buf[..(i - first) * SECTOR_SIZE], page);
      assert buf[..(i - first) * SECTOR_SIZE] + page == buf[..(i + 1 - first) * SECTOR_SIZE];
      StorePage(disk, sector, page);
    }
    assert buf[..(end - first) * SECTOR_SIZE] == buf[..];
  }

  lemma NothingWritten<T>(s: seq<T>, at: nat)
    requires at <= |s|
    ensures Overwrite(s, at, []) == s
  {
  }

  /** synchDisk->WriteSector. */
  method StorePage(disk: PageStore, sector: nat, page: seq<Byte>)
    requires disk.Valid() && sector < disk.count && |page| == disk.size
    modifies disk.bytes
    ensures disk.Pages() == old(disk.Pages())[sector := page]
  {
    hide PageStore.Pages;
    disk.Store(sector, 0, page);
    assert Overwrite(old(disk.Pages()[sector]), 0, page) == page;
  }

  /** A buffer that agrees with the file outside the data, written back whole, writes the data. */
  lemma Splice(file: seq<Byte>, buf: seq<Byte>, base: nat, off: nat, data: seq<Byte>)
    requires base + |buf| <= |file| && off + |data| <= |buf|
    requires forall k :: 0 <= k < off || off + |data| <= k < |buf| ==> buf[k] == file[base + k]
    ensures Overwrite(file, base, Overwrite(buf, off, data)) == Overwrite(file, base + off, data)
  {
  }

  lemma RangeOfSectors(position: nat, n: nat)
    ensures var first, last := position / SECTOR_SIZE, LastSector(position, n);
      && first * SECTOR_SIZE <= position < (first + 1) * SECTOR_SIZE
      && last * SECTOR_SIZE <= position + n <= (last + 1) * SECTOR_SIZE && first - 1 <= last
  {
  }

  /**
   * The buffer that goes back: where it was not filled from the file, it is covered by the data.  Its
   * first sector was read if the range starts inside it, its last if the range ends inside it.
   */
  lemma BufferIsRight(file: seq<Byte>, buf: seq<Byte>, first: nat, last: int, position: nat, data: seq<Byte>)
    requires first == position / SECTOR_SIZE && last == LastSector(position, |data|) && (last + 1) * SECTOR_SIZE <= |file|
    requires |buf| == (1 + last - first) * SECTOR_SIZE
    requires position != first * SECTOR_SIZE ==> 0 < |buf| && buf[..SECTOR_SIZE] == file[first * SECTOR_SIZE..(first + 1) * SECTOR_SIZE]
    requires position + |data| != (last + 1) * SECTOR_SIZE ==>
               first <= last && buf[(last - first) * SECTOR_SIZE..] == file[last * SECTOR_SIZE..(last + 1) * SECTOR_SIZE]
    ensures position - first * SECTOR_SIZE + |data| <= |buf|
    ensures Overwrite(file, first * SECTOR_SIZE, Overwrite(buf, position - first * SECTOR_SIZE, data)) == Overwrite(file, position, data)
  {
    hide LastSector, Overwrite;
    RangeOfSectors(position, |data|);
    var base := first * SECTOR_SIZE;
    var off := position - base;
    forall k | 0 <= k < off || off + |data| <= k < |buf| ensures buf[k] == file[base + k] {
      if k < off {
        assert buf[..SECTOR_SIZE][k] == file[base..(first + 1) * SECTOR_SIZE][k];
      } else {
        var tail := (last - first) * SECTOR_SIZE;
        assert buf[tail..][k - tail] == file[last * SECTOR_SIZE..(last + 1) * SECTOR_SIZE][k - tail];
      }
    }
    Splice(file, buf, base, off, data);
  }

  /**
   * OpenFile::WriteAt where the range ends inside the sectors of the file: those bytes of the file
   * change and no others, and no sector of the disk changes but those that hold them.
   */
  method WriteAt(disk: PageStore, h: Header, data: seq<Byte>, position: nat) returns (n: int)
    requires disk.Valid() && disk.size == SECTOR_SIZE && FileOk(h, disk.count)
    requires 0 < h.numSectors && position + |data| <= h.numSectors * SECTOR_SIZE
    modifies disk.bytes
    ensures n == |data| && |old(FileBytes(disk.Pages(), h))| == h.numSectors * SECTOR_SIZE
    ensures FileBytes(disk.Pages(), h) == Overwrite(old(FileBytes(disk.Pages(), h)), position, data)
    ensures var first, last := position / SECTOR_SIZE, LastSector(position, |data|);
      forall s :: 0 <= s < disk.count && (forall i :: first <= i <= last ==> DataSector(h, i) != s) ==> disk.Pages()[s] == old(disk.Pages())[s]
  {
    hide PageStore.Pages, FileBytes, DataSector, LastSector, Overwrite;
    RangeOfSectors(position, |data|);
    var first, last := position / SECTOR_SIZE, LastSector(position, |data|);
    InsideFile(h, position, |data|);
    hide FileOk;
    ghost var file := FileBytes(disk.Pages(), h);
    var buf := new Byte[(1 + last - first) * SECTOR_SIZE];
    FillBuffer(disk, h, buf, first, last, position, |data|);
    BufferIsRight(file, buf[..], first, last, position, data);
    WriteBytes(buf, position - first * SECTOR_SIZE, data);
    WriteSectors(disk, h, buf, first, last + 1);
    n := |data|;
  }

  lemma InsideFile(h: Header, position: nat, n: nat)
    requires h.numSectors == Sectors(h.numBytes) && 0 < h.numSectors && position + n <= h.numSectors * SECTOR_SIZE
    ensures var first, last := position / SECTOR_SIZE, LastSector(position, n);
      && first <= last + 1 <= h.numSectors && last * SECTOR_SIZE < h.numBytes
      && (first <= last ==> first * SECTOR_SIZE < h.numBytes)
  {
  }

  /** Read in the first and the last sector, if they are to be partially modified. */
  method FillBuffer(disk: PageStore, h: Header, buf: array<Byte>, first: nat, last: int, position: nat, n: nat)
    requires disk.Valid() && disk.size == SECTOR_SIZE && FileOk(h, disk.count) && buf != disk.bytes
    requires first == position / SECTOR_SIZE && last == LastSector(position, n) && buf.Length == (1 + last - first) * SECTOR_SIZE
    requires 0 < h.numSectors && position + n <= h.numSectors * SECTOR_SIZE
    modifies buf
    ensures |FileBytes(disk.Pages(), h)| == h.numSectors * SECTOR_SIZE && last + 1 <= h.numSectors
    ensures var file := FileBytes(disk.Pages(), h);
      && (position != first * SECTOR_SIZE ==> 0 < buf.Length && buf[..SECTOR_SIZE] == file[first * SECTOR_SIZE..(first + 1) * SECTOR_SIZE])
      && (position + n != (last + 1) * SECTOR_SIZE ==>
            first <= last && buf[(last - first) * SECTOR_SIZE..] == file[last * SECTOR_SIZE..(last + 1) * SECTOR_SIZE])
  {
    hide PageStore.Pages, FileBytes, LastSector, Overwrite;
    RangeOfSectors(position, n);
    InsideFile(h, position, n);
    hide FileOk;
    disk.PagesUniform();
    FileLength(disk.Pages(), h);
    ghost var file := FileBytes(disk.Pages(), h);
    var firstAligned, lastAligned := position == first * SECTOR_SIZE, position + n == (last + 1) * SECTOR_SIZE;
    if !firstAligned {
      ReadWhole(disk, h, buf, 0, first);
    }
    if !lastAligned && (first != last || firstAligned) {
      ReadWhole(disk, h, buf, (last - first) * SECTOR_SIZE, last);
    }
  }

  /** ReadAt for one whole sector. */
  method ReadWhole(disk: PageStore, h: Header, buf: array<Byte>, at: nat, i: nat)
    requires disk.Valid() && disk.size == SECTOR_SIZE && FileOk(h, disk.count) && buf != disk.bytes
    requires at + SECTOR_SIZE <= buf.Length && i < h.numSectors && i * SECTOR_SIZE < h.numBytes
    modifies buf
    ensures (i + 1) * SECTOR_SIZE <= |FileBytes(disk.Pages(), h)|
    ensures buf[at..at + SECTOR_SIZE] == FileBytes(disk.Pages(), h)[i * SECTOR_SIZE..(i + 1) * SECTOR_SIZE] && buf[..at] == old(buf[..at])
  {
    hide FileOk, PageStore.Pages, FileBytes, Overwrite;
    ghost var before := buf[..];
    var _ := ReadAt(disk, h, buf, at, SECTOR_SIZE, i * SECTOR_SIZE);
    ghost var page := FileBytes(disk.Pages(), h)[i * SECTOR_SIZE..i * SECTOR_SIZE + SECTOR_SIZE];
    OverwriteRange(before, at, page);
  }

  lemma OverwriteRange<T>(s: seq<T>, at: nat, x: seq<T>)
    requires at + |x| <= |s|
    ensures Overwrite(s, at, x)[at..at + |x|] == x && Overwrite(s, at, x)[..at] == s[..at]
  {
  }

  // ---- one file and another ----

  ghost predicate Apart(h: Header, g: Header) {
    forall i, j :: 0 <= i < h.numSectors && 0 <= j < g.numSectors ==> DataSector(h, i) != DataSector(g, j)
  }

  /** A file allocated after another, from the map that one left, shares no data sector with it. */
  lemma AllocatedApart(bits: seq<bool>, h: Header, g: Header)
    requires Shaped(h) && Shaped(g)
    requires var k := h.numSectors + BlocksFor(h.numSectors);
      k <= BitMaps.CountClear(bits) && InOrder(h) == Taken(bits, k) && AllFree(InOrder(g), After(bits, k))
    ensures Apart(h, g)
  {
    hide InOrder, DataSector, Taken, After, BitMaps.CountClear, Shaped;
    var k := h.numSectors + BlocksFor(h.numSectors);
    TakenAreFree(bits, k);
    forall i, j | 0 <= i < h.numSectors && 0 <= j < g.numSectors ensures DataSector(h, i) != DataSector(g, j) {
      SectorIsTaken(h, i);
      SectorIsTaken(g, j);
    }
  }

  lemma SectorIsTaken(h: Header, i: nat)
    requires Shaped(h) && i < h.numSectors
    ensures DataSector(h, i) in InOrder(h)
  {
    DataInOrder(h, i);
  }

  /** So a write to the one leaves every byte of the other as it was. */
  lemma OtherFileUnchanged(disk: seq<seq<Byte>>, disk': seq<seq<Byte>>, h: Header, g: Header)
    requires |disk| == |disk'| && FileOk(h, |disk|) && FileOk(g, |disk|) && Apart(h, g)
    requires forall s :: 0 <= s < |disk| && (forall i :: 0 <= i < h.numSectors ==> DataSector(h, i) != s) ==> disk'[s] == disk[s]
    ensures FileBytes(disk', g) == FileBytes(disk, g)
  {
    hide DataSector, Shaped;
    assert FilePages(disk', g) == FilePages(disk, g);
  }
}
