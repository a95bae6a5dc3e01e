/** A byte array holding pages back to back: main memory, and the swap file. */
module PageStores {
  import opened Arithmetic
  import opened Blocks

  /** bcopy: n bytes from one buffer into another. */
  method CopyBytes(src: array<Byte>, from: nat, dst: array<Byte>, to: nat, n: nat)
    requires src != dst && from + n <= src.Length && to + n <= dst.Length
    modifies dst
    ensures dst[..] == Overwrite(old(dst[..]), to, src[from..from + n])
  {
    for i := 0 to n
      invariant dst[..] == Overwrite(old(dst[..]), to, src[from..from + i])
    {
      dst[to + i] := src[from + i];
    }
  }

  method WriteBytes(dst: array<Byte>, to: nat, data: seq<Byte>)
    requires to + |data| <= dst.Length
    modifies dst
    ensures dst[..] == Overwrite(old(dst[..]), to, data)
  {
    for i := 0 to |data|
      invariant dst[..] == Overwrite(old(dst[..]), to, data[..i])
    {
      dst[to + i] := data[i];
    }
    assert data[..|data|] == data;
  }

  class PageStore {
    const size: nat
    const count: nat
    const bytes: array<Byte>

    ghost predicate Valid()
      reads this
    {
      bytes.Length == count * size
    }

    ghost function Pages(): (r: seq<seq<Byte>>)
      requires Valid()
      reads this, bytes
      ensures |r| == count
    {
      Chunks(bytes[..], count, size)
    }

    ghost predicate Blank()
      requires Valid()
      reads this, bytes
    {
      forall i :: 0 <= i < count ==> Pages()[i] == Zeros(size)
    }

    constructor (count: nat, size: nat)
      ensures Valid() && fresh(bytes) && this.count == count && this.size == size && Blank()
    {
      this.count, this.size := count, size;
      bytes := new Byte[count * size](_ => 0);
      new;
      assert bytes[..] == Zeros(count * size);
      ZeroChunks(count, size);
    }

    lemma PagesUniform()
      requires Valid()
      ensures Uniform(Pages(), size)
    {
      ChunksFlatten(bytes[..], count, size);
    }

    method Get(i: nat, buffer: array<Byte>)
      requires Valid() && i < count && buffer.Length == size && buffer != bytes
      modifies buffer
      ensures buffer[..] == Pages()[i]
    {
      ChunkAt(bytes[..], count, size, i);
      hide Chunks;
      CopyBytes(bytes, i * size, buffer, 0, size);
    }

    /** Write the first n bytes of the buffer at offset off of page i. */
    method Put(i: nat, off: nat, buffer: array<Byte>, n: nat)
      requires Valid() && i < count && n <= buffer.Length && off + n <= size && buffer != bytes
      modifies bytes
      ensures |old(Pages()[i])| == size && Pages() == old(Pages())[i := Overwrite(old(Pages()[i]), off, buffer[..n])]
    {
      ChunksOverwrite(bytes[..], count, size, i, off, buffer[..n]);
      hide Chunks;
      CopyBytes(buffer, 0, bytes, i * size + off, n);
    }

    method PutPage(i: nat, buffer: array<Byte>)
      requires Valid() && i < count && buffer.Length == size && buffer != bytes
      modifies bytes
      ensures Pages() == old(Pages())[i := buffer[..]]
    {
      hide Chunks;
      Put(i, 0, buffer, size);
      assert Overwrite(old(Pages()[i]), 0, buffer[..size]) == buffer[..];
    }

    /** The bytes at a physical address inside page i. */
    method Load(i: nat, off: nat, n: nat) returns (data: seq<Byte>)
      requires Valid() && i < count && off + n <= size
      ensures |Pages()[i]| == size && data == Pages()[i][off..off + n]
    {
      ChunkAt(bytes[..], count, size, i);
      data := bytes[i * size + off..i * size + off + n];
    }

    method Store(i: nat, off: nat, data: seq<Byte>)
      requires Valid() && i < count && off + |data| <= size
      modifies bytes
      ensures |old(Pages()[i])| == size && Pages() == old(Pages())[i := Overwrite(old(Pages()[i]), off, data)]
    {
      ChunksOverwrite(bytes[..], count, size, i, off, data);
      hide Chunks;
      WriteBytes(bytes, i * size + off, data);
    }
  }

  lemma {:induction false} ZeroChunks(n: nat, size: nat)
    ensures Chunks(Zeros(n * size), n, size) == seq(n, _ => Zeros(size))
  {
    if n > 0 {
      MulMonotone(n - 1, n, size);
      assert n * size == (n - 1) * size + size;
      assert Zeros(n * size)[..(n - 1) * size] == Zeros((n - 1) * size);
      assert Zeros(n * size)[(n - 1) * size..] == Zeros(size);
      ZeroChunks(n - 1, size);
    }
  }
}
