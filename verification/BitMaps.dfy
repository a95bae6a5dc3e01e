/**
 * Allocation bitmaps.  A bitmap is specified by its bits, a sequence of booleans; the class below
 * keeps the bits in 32-bit words, as userprog/bitmap.cc does, and is proved against the bits.
 */
module BitMaps {

  // ---- specification: a bitmap is a sequence of booleans, true for "in use" ----

  /** Index of the first clear bit, or the length when every bit is set. */
  function FirstClear(bits: seq<bool>): (i: nat)
    ensures i <= |bits|
    ensures i < |bits| ==> !bits[i]
    ensures forall j :: 0 <= j < i ==> bits[j]
  {
    if bits == [] || !bits[0] then 0
    else
      var rest := FirstClear(bits[1..]);
      assert forall j :: 0 < j < rest + 1 ==> bits[j] == bits[1..][j - 1];
      1 + rest
  }

  function CountClear(bits: seq<bool>): (n: nat)
    ensures n <= |bits|
  {
    if bits == [] then 0 else CountClear(bits[..|bits| - 1]) + if bits[|bits| - 1] then 0 else 1
  }

  /** The count is positive exactly when a search for a clear bit succeeds. */
  lemma {:induction false} CountFindsClear(bits: seq<bool>)
    ensures CountClear(bits) > 0 <==> FirstClear(bits) < |bits|
  {
    if bits != [] {
      var n := |bits| - 1;
      CountFindsClear(bits[..n]);
      var i, j := FirstClear(bits), FirstClear(bits[..n]);
      if i < n {
        assert !bits[..n][i];
      }
      if j < n {
        assert !bits[j];
      }
    }
  }

  /** Setting a clear bit takes one from the count, clearing a set bit gives one back. */
  lemma {:induction false} CountUpdate(bits: seq<bool>, i: nat, b: bool)
    requires i < |bits| && bits[i] != b
    ensures CountClear(bits[i := b]) == CountClear(bits) + if b then -1 else 1
  {
    var n := |bits| - 1;
    if i == n {
      assert bits[i := b][..n] == bits[..n];
    } else {
      CountUpdate(bits[..n], i, b);
      assert bits[i := b][..n] == bits[..n][i := b];
    }
  }

  // ---- one 32-bit word ----

  function Mask(k: nat): bv32
    requires k < 32
  {
    (1 as bv32) << k
  }

  function Or(w: bv32, m: bv32): bv32 {
    w | m
  }

  function AndNot(w: bv32, m: bv32): bv32 {
    w & !m
  }

  predicate Has(w: bv32, m: bv32) {
    w & m != 0
  }

  lemma MaskSelf(k: nat)
    requires k < 32
    ensures Has(Mask(k), Mask(k))
  {
  }

  lemma MasksApart(k: nat, j: nat)
    requires k < 32 && j < 32 && k != j
    ensures !Has(Mask(k), Mask(j))
  {
  }

  lemma OrSame(w: bv32, m: bv32)
    requires Has(m, m)
    ensures Has(Or(w, m), m)
  {
  }

  lemma OrApart(w: bv32, m: bv32, n: bv32)
    requires !Has(m, n)
    ensures Has(Or(w, m), n) == Has(w, n)
  {
    assert Or(w, m) & n == w & n;
  }

  lemma AndNotSame(w: bv32, m: bv32)
    ensures !Has(AndNot(w, m), m)
  {
  }

  lemma AndNotApart(w: bv32, m: bv32, n: bv32)
    requires !Has(m, n)
    ensures Has(AndNot(w, m), n) == Has(w, n)
  {
    assert AndNot(w, m) & n == w & n;
  }

  /** Or-ing in a one-bit mask sets that bit and leaves the other 31 alone. */
  lemma SetBit(w: bv32, k: nat, j: nat)
    requires k < 32 && j < 32
    ensures Has(Or(w, Mask(k)), Mask(j)) == (j == k || Has(w, Mask(j)))
  {
    hide Mask, Has, Or;
    if j == k {
      MaskSelf(k);
      OrSame(w, Mask(k));
    } else {
      MasksApart(k, j);
      OrApart(w, Mask(k), Mask(j));
    }
  }

  /** And-ing out a one-bit mask clears that bit and leaves the other 31 alone. */
  lemma ResetBit(w: bv32, k: nat, j: nat)
    requires k < 32 && j < 32
    ensures Has(AndNot(w, Mask(k)), Mask(j)) == (j != k && Has(w, Mask(j)))
  {
    hide Mask, Has, AndNot;
    if j == k {
      AndNotSame(w, Mask(k));
    } else {
      MasksApart(k, j);
      AndNotApart(w, Mask(k), Mask(j));
    }
  }

  function WordBits(w: bv32): (r: seq<bool>)
    ensures |r| == 32
  {
    seq(32, k requires 0 <= k < 32 => Has(w, Mask(k)))
  }

  lemma SetWord(w: bv32, k: nat)
    requires k < 32
    ensures WordBits(Or(w, Mask(k))) == WordBits(w)[k := true]
  {
    hide Mask, Has, Or, AndNot;
    var before, after := WordBits(w)[k := true], WordBits(Or(w, Mask(k)));
    forall j | 0 <= j < 32 ensures after[j] == before[j] {
      SetBit(w, k, j);
    }
  }

  lemma ResetWord(w: bv32, k: nat)
    requires k < 32
    ensures WordBits(AndNot(w, Mask(k))) == WordBits(w)[k := false]
  {
    hide Mask, Has, Or, AndNot;
    var before, after := WordBits(w)[k := false], WordBits(AndNot(w, Mask(k)));
    forall j | 0 <= j < 32 ensures after[j] == before[j] {
      ResetBit(w, k, j);
    }
  }

  /** Bit i of a bitmap is bit i mod 32 of word i div 32. */
  function BitsOf(words: seq<bv32>, n: nat): (r: seq<bool>)
    requires |words| == (n + 31) / 32
    ensures |r| == n
  {
    seq(n, i requires 0 <= i < n => WordBits(words[i / 32])[i % 32])
  }

  lemma UpdateWord(words: seq<bv32>, n: nat, which: nat, w: bv32, b: bool)
    requires |words| == (n + 31) / 32 && which < n
    requires WordBits(w) == WordBits(words[which / 32])[which % 32 := b]
    ensures BitsOf(words[which / 32 := w], n) == BitsOf(words, n)[which := b]
  {
    var k := which / 32;
    var before, after := BitsOf(words, n)[which := b], BitsOf(words[k := w], n);
    forall i | 0 <= i < n ensures after[i] == before[i] {
      assert i / 32 == k && i % 32 == which % 32 ==> i == which;
    }
  }

  lemma MarkWord(words: seq<bv32>, n: nat, which: nat)
    requires |words| == (n + 31) / 32 && which < n
    ensures BitsOf(words[which / 32 := Or(words[which / 32], Mask(which % 32))], n) == BitsOf(words, n)[which := true]
  {
    hide Mask, Has, Or, AndNot;
    SetWord(words[which / 32], which % 32);
    UpdateWord(words, n, which, Or(words[which / 32], Mask(which % 32)), true);
  }

  lemma ClearWord(words: seq<bv32>, n: nat, which: nat)
    requires |words| == (n + 31) / 32 && which < n
    ensures BitsOf(words[which / 32 := AndNot(words[which / 32], Mask(which % 32))], n) == BitsOf(words, n)[which := false]
  {
    hide Mask, Has, Or, AndNot;
    ResetWord(words[which / 32], which % 32);
    UpdateWord(words, n, which, AndNot(words[which / 32], Mask(which % 32)), false);
  }

  // ---- the bitmap itself ----

  class BitMap {
    const numBits: nat
    const words: array<bv32>

    ghost predicate Valid()
      reads this
    {
      words.Length == (numBits + 31) / 32
    }

    ghost function Bits(): (r: seq<bool>)
      requires Valid()
      reads this, words
      ensures |r| == numBits
    {
      BitsOf(words[..], numBits)
    }

    ghost predicate AllClear()
      requires Valid()
      reads this, words
    {
      forall i :: 0 <= i < numBits ==> !Bits()[i]
    }

    constructor (nitems: nat)
      ensures Valid() && fresh(words) && numBits == nitems && AllClear()
    {
      numBits := nitems;
      words := new bv32[(nitems + 31) / 32];
      new;
      for i := 0 to nitems
        invariant forall j :: 0 <= j < i ==> !Bits()[j]
      {
        Clear(i);
      }
    }

    method Mark(which: nat)
      requires Valid() && which < numBits
      modifies words
      ensures Bits() == old(Bits())[which := true]
    {
      hide Mask, Has, Or, AndNot;
      MarkWord(words[..], numBits, which);
      words[which / 32] := Or(words[which / 32], Mask(which % 32));
    }

    method Clear(which: nat)
      requires Valid() && which < numBits
      modifies words
      ensures Bits() == old(Bits())[which := false]
    {
      hide Mask, Has, Or, AndNot;
      ClearWord(words[..], numBits, which);
      words[which / 32] := AndNot(words[which / 32], Mask(which % 32));
    }

    method Test(which: nat) returns (r: bool)
      requires Valid() && which < numBits
      ensures r == Bits()[which]
    {
      r := Has(words[which / 32], Mask(which % 32));
    }

    /** Finds the first clear bit and marks it; -1, with nothing changed, when there is none. */
    method Find() returns (r: int)
      requires Valid()
      modifies words
      ensures FirstClear(old(Bits())) == numBits ==> r == -1 && Bits() == old(Bits())
      ensures FirstClear(old(Bits())) < numBits ==>
                r == FirstClear(old(Bits())) && Bits() == old(Bits())[r := true]
    {
      hide BitsOf;
      for i := 0 to numBits
        invariant Bits() == old(Bits())
        invariant forall j :: 0 <= j < i ==> Bits()[j]
      {
        var b := Test(i);
        if !b {
          Mark(i);
          return i;
        }
      }
      return -1;
    }

    method NumClear() returns (count: nat)
      requires Valid()
      ensures count == CountClear(Bits())
    {
      hide BitsOf;
      count := 0;
      for i := 0 to numBits
        invariant count == CountClear(Bits()[..i])
      {
        var b := Test(i);
        assert Bits()[..i + 1][..i] == Bits()[..i];
        if !b {
          count := count + 1;
        }
      }
      assert Bits()[..numBits] == Bits();
    }
  }
}
