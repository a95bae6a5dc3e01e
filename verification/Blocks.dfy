/**
 * A byte array seen as a row of equal blocks: pages of an address space, sectors of a file.
 * Address a is byte a mod size of block a div size.
 */
module Blocks {
  import opened Arithmetic

  ghost predicate Uniform<T>(blocks: seq<seq<T>>, size: nat) {
    forall i :: 0 <= i < |blocks| ==> |blocks[i]| == size
  }

  function Flatten<T>(blocks: seq<seq<T>>): seq<T> {
    if blocks == [] then [] else Flatten(blocks[..|blocks| - 1]) + blocks[|blocks| - 1]
  }

  lemma {:induction false} FlattenLength<T>(blocks: seq<seq<T>>, size: nat)
    requires Uniform(blocks, size)
    ensures |Flatten(blocks)| == |blocks| * size
  {
    if blocks != [] {
      var n := |blocks| - 1;
      FlattenLength(blocks[..n], size);
      assert (n + 1) * size == n * size + size;
    }
  }

  /** Byte off of block v is byte v * size + off of the whole. */
  lemma {:induction false} FlattenAt<T>(blocks: seq<seq<T>>, size: nat, v: nat, off: nat)
    requires Uniform(blocks, size) && v < |blocks| && off < size
    ensures 0 <= v * size + off < |Flatten(blocks)|
    ensures Flatten(blocks)[v * size + off] == blocks[v][off]
  {
    var n := |blocks| - 1;
    FlattenLength(blocks, size);
    FlattenLength(blocks[..n], size);
    MulMonotone(v + 1, |blocks|, size);
    assert (v + 1) * size == v * size + size;
    if v < n {
      FlattenAt(blocks[..n], size, v, off);
      assert Flatten(blocks)[v * size + off] == Flatten(blocks[..n])[v * size + off];
    }
  }

  /** A range inside one block is the same range of the whole. */
  lemma FlattenRange<T>(blocks: seq<seq<T>>, size: nat, v: nat, off: nat, len: nat)
    requires Uniform(blocks, size) && v < |blocks| && off + len <= size
    ensures 0 <= v * size + off && v * size + off + len <= |Flatten(blocks)|
    ensures Flatten(blocks)[v * size + off..v * size + off + len] == blocks[v][off..off + len]
  {
    FlattenLength(blocks, size);
    MulMonotone(v + 1, |blocks|, size);
    assert (v + 1) * size == v * size + size;
    var base := v * size;
    var whole, part := Flatten(blocks)[base + off..base + off + len], blocks[v][off..off + len];
    forall i | 0 <= i < len ensures whole[i] == part[i] {
      FlattenAt(blocks, size, v, off + i);
    }
  }

  /** Writing a range inside one block writes that range of the whole and nothing else. */
  lemma {:induction false} FlattenOverwrite<T>(blocks: seq<seq<T>>, size: nat, v: nat, off: nat, data: seq<T>)
    requires Uniform(blocks, size) && v < |blocks| && off + |data| <= size
    ensures 0 <= v * size + off && v * size + off + |data| <= |Flatten(blocks)|
    ensures Flatten(blocks[v := Overwrite(blocks[v], off, data)]) == Overwrite(Flatten(blocks), v * size + off, data)
  {
    var n := |blocks| - 1;
    FlattenLength(blocks, size);
    FlattenLength(blocks[..n], size);
    MulMonotone(v + 1, |blocks|, size);
    assert (v + 1) * size == v * size + size;
    var blocks' := blocks[v := Overwrite(blocks[v], off, data)];
    if v < n {
      FlattenOverwrite(blocks[..n], size, v, off, data);
      assert blocks'[..n] == blocks[..n][v := Overwrite(blocks[v], off, data)];
      OverwriteLeft(Flatten(blocks[..n]), blocks[n], v * size + off, data);
    } else {
      assert blocks'[..n] == blocks[..n];
      OverwriteRight(Flatten(blocks[..n]), blocks[n], off, data);
    }
  }

  lemma OverwriteLeft<T>(a: seq<T>, b: seq<T>, at: nat, data: seq<T>)
    requires at + |data| <= |a|
    ensures Overwrite(a, at, data) + b == Overwrite(a + b, at, data)
  {
  }

  lemma OverwriteRight<T>(a: seq<T>, b: seq<T>, at: nat, data: seq<T>)
    requires at + |data| <= |b|
    ensures a + Overwrite(b, at, data) == Overwrite(a + b, |a| + at, data)
  {
  }

  /** The n blocks of a row of n * size elements. */
  function Chunks<T>(b: seq<T>, n: nat, size: nat): (r: seq<seq<T>>)
    requires |b| == n * size
    ensures |r| == n
  {
    if n == 0 then [] else
      assert |b[..(n - 1) * size]| == (n - 1) * size by { MulMonotone(n - 1, n, size); }
      Chunks(b[..(n - 1) * size], n - 1, size) + [b[(n - 1) * size..]]
  }

  lemma {:induction false} ChunksFlatten<T>(b: seq<T>, n: nat, size: nat)
    requires |b| == n * size
    ensures Uniform(Chunks(b, n, size), size) && Flatten(Chunks(b, n, size)) == b
  {
    if n > 0 {
      MulMonotone(n - 1, n, size);
      assert n * size == (n - 1) * size + size;
      ChunksFlatten(b[..(n - 1) * size], n - 1, size);
      var r := Chunks(b, n, size);
      assert r[..n - 1] == Chunks(b[..(n - 1) * size], n - 1, size);
      assert b == b[..(n - 1) * size] + b[(n - 1) * size..];
    }
  }

  /** Blocks of equal size are determined by the row they make. */
  lemma FlattenInjective<T>(a: seq<seq<T>>, b: seq<seq<T>>, size: nat)
    requires Uniform(a, size) && Uniform(b, size) && |a| == |b| && Flatten(a) == Flatten(b)
    ensures a == b
  {
    forall v | 0 <= v < |a| ensures a[v] == b[v] {
      forall off | 0 <= off < size ensures a[v][off] == b[v][off] {
        FlattenAt(a, size, v, off);
        FlattenAt(b, size, v, off);
      }
    }
  }

  /** Block v of the row is the slice from v * size. */
  lemma ChunkAt<T>(b: seq<T>, n: nat, size: nat, v: nat)
    requires |b| == n * size && v < n
    ensures 0 <= v * size && v * size + size <= |b| && Chunks(b, n, size)[v] == b[v * size..v * size + size]
  {
    ChunksFlatten(b, n, size);
    FlattenRange(Chunks(b, n, size), size, v, 0, size);
  }

  /** Overwriting a range inside block v of the row overwrites it in that block. */
  lemma ChunksOverwrite<T>(b: seq<T>, n: nat, size: nat, v: nat, off: nat, data: seq<T>)
    requires |b| == n * size && v < n && off + |data| <= size
    ensures 0 <= v * size + off && v * size + off + |data| <= |b| && |Chunks(b, n, size)[v]| == size
    ensures Chunks(Overwrite(b, v * size + off, data), n, size) == Chunks(b, n, size)[v := Overwrite(Chunks(b, n, size)[v], off, data)]
  {
    hide Chunks, Flatten, Overwrite;
    var blocks := Chunks(b, n, size);
    ChunksFlatten(b, n, size);
    FlattenOverwrite(blocks, size, v, off, data);
    var b' := Overwrite(b, v * size + off, data);
    ChunksFlatten(b', n, size);
    FlattenInjective(Chunks(b', n, size), blocks[v := Overwrite(blocks[v], off, data)], size);
  }
}
