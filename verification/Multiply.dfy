/**
 * The shift-and-add multiply of the MIPS simulator.  C's 32-bit arithmetic is written out: every sum
 * is reduced modulo 2^32, the right shift of the multiplier is arithmetic, and negation wraps.
 */
module Multiply {
  import opened Arithmetic

  const WORD: nat := 0x1_0000_0000
  const DOUBLE: nat := 0x1_0000_0000_0000_0000

  /** The C int with the same bits. */
  function Signed(w: Word): int {
    if w < 0x8000_0000 then w else w - 0x1_0000_0000
  }

  function ToWord(x: int): Word {
    x % 0x1_0000_0000
  }

  /** Two words as one 64-bit number. */
  function Pair(hi: Word, lo: Word): nat {
    hi * 0x1_0000_0000 + lo
  }

  function Pow2(n: nat): (r: nat)
    ensures r > 0
  {
    if n == 0 then 1 else 2 * Pow2(n - 1)
  }

  lemma {:induction false} Pow2Splits(i: nat, n: nat)
    requires i <= n
    ensures Pow2(i) * Pow2(n - i) == Pow2(n)
    decreases n - i
  {
    if i < n {
      Pow2Splits(i + 1, n);
      var p, q := Pow2(i), Pow2(n - i - 1);
      assert Pow2(i + 1) == 2 * p && Pow2(n - i) == 2 * q;
      assert (2 * p) * q == p * (2 * q);
    }
  }

  /** lo += bLo, with the carry and bHi added to hi. */
  method AddPair(hi: Word, lo: Word, bHi: Word, bLo: Word) returns (h: Word, l: Word)
    requires Pair(hi, lo) + Pair(bHi, bLo) < DOUBLE
    ensures Pair(h, l) == Pair(hi, lo) + Pair(bHi, bLo)
  {
    h, l := hi, ToWord(lo + bLo);
    if l < bLo {
      h := ToWord(h + 1);
    }
    h := ToWord(h + bHi);
  }

  method DoublePair(hi: Word, lo: Word) returns (h: Word, l: Word)
    requires 2 * Pair(hi, lo) < DOUBLE
    ensures Pair(h, l) == 2 * Pair(hi, lo)
  {
    assert hi < 0x8000_0000;
    h := ToWord(hi * 2);
    assert h == hi * 2;
    if lo >= 0x8000_0000 {
      h := h + 1;
    }
    l := ToWord(lo * 2);
    assert l == lo * 2 - if lo >= 0x8000_0000 then 0x1_0000_0000 else 0;
  }

  /** The two's complement of a double word. */
  method NegatePair(hi: Word, lo: Word) returns (h: Word, l: Word)
    ensures Pair(h, l) == (DOUBLE - Pair(hi, lo)) % DOUBLE
  {
    h, l := 0xFFFF_FFFF - hi, 0xFFFF_FFFF - lo;
    l := ToWord(l + 1);
    if l == 0 {
      h := ToWord(h + 1);
    }
  }

  /** The bits of a still to be added in, as an unsigned number, when i of them have been. */
  ghost function Rest(a: int, negative: bool, i: nat): int
    requires i <= 32
  {
    a + if negative then Pow2(32 - i) else 0
  }

  /**
   * What the loop keeps when i bits of the multiplier have been used: done is their value, and the
   * multiplier itself has become the floor of its start over 2^i, sign bits shifted in at the top.
   */
  ghost predicate Halfway(start: int, a: int, i: nat, done: nat) {
    && i <= 32 && (a < 0 <==> start < 0) && 0 <= Rest(a, start < 0, i)
    && done < Pow2(i) && ToWord(start) == done + Pow2(i) * Rest(a, start < 0, i)
  }

  lemma Pow2Of32()
    ensures Pow2(32) == WORD
  {
    assert Pow2(8) == 256;
    Pow2Splits(8, 16);
    Pow2Splits(16, 32);
  }

  lemma StartsHalfway(start: int)
    requires -0x8000_0000 <= start < 0x8000_0000
    ensures Halfway(start, start, 0, 0)
  {
    Pow2Of32();
  }

  /** One turn: the low bit of a joins done, and a is shifted right. */
  lemma NextBit(start: int, a: int, i: nat, done: nat)
    requires Halfway(start, a, i, done) && i < 32
    ensures var next := if a % 2 == 1 then done + Pow2(i) else done; Halfway(start, a / 2, i + 1, next) && next <= ToWord(start)
  {
    hide Pow2;
    Pow2Step(i);
    Pow2Step(31 - i);
    var bit := a % 2;
    var rest := Rest(a / 2, start < 0, i + 1);
    assert Rest(a, start < 0, i) == 2 * rest + bit;
    TakeBit(Pow2(i), rest, bit);
  }

  lemma Pow2Step(n: nat)
    ensures Pow2(n + 1) == 2 * Pow2(n)
  {
  }

  lemma TakeBit(p: nat, rest: int, bit: int)
    requires 0 <= bit <= 1 && 0 <= 2 * rest + bit
    ensures p * (2 * rest + bit) == (2 * p) * rest + p * bit && 0 <= (2 * p) * rest && 0 <= p * bit <= p
  {
    assert p * (2 * rest + bit) == p * (2 * rest) + p * bit;
  }

  /** When a single bit is left, it is the last: the early exit loses nothing. */
  lemma LastBit(start: int, i: nat, done: nat)
    requires Halfway(start, 1, i, done)
    ensures done + Pow2(i) == ToWord(start)
  {
    assert Pow2(i) * 1 == Pow2(i);
  }

  lemma AllBits(start: int, a: int, done: nat)
    requires Halfway(start, a, 32, done)
    ensures done == ToWord(start)
  {
    Pow2Of32();
    var rest := Rest(a, start < 0, 32);
    if rest >= 1 {
      MulMonotone(1, rest, WORD);
    }
  }

  function Times(b: nat, x: nat): nat {
    b * x
  }

  lemma TimesSum(b: nat, x: nat, y: nat)
    ensures Times(b, x + y) == Times(b, x) + Times(b, y)
  {
  }

  lemma ProductBound(x: nat, y: nat, b: nat)
    requires x <= y < WORD && b < WORD
    ensures Times(b, x) <= Times(b, y) < DOUBLE
  {
    MulMonotone(x, y, b);
    MulMonotone(y, WORD - 1, b);
  }

  /** The loop of Mult; start is the multiplier as a C int, b the other factor's bits. */
  method Accumulate(start: int, b: Word) returns (hi: Word, lo: Word)
    requires -0x8000_0000 <= start < 0x8000_0000
    ensures Pair(hi, lo) == Times(b, ToWord(start))
  {
    var a, bLo, bHi := start, b, 0;
    hi, lo := 0, 0;
    StartsHalfway(start);
    assert Pair(0, 0) == Times(b, 0) && Pair(0, b) == Times(b, Pow2(0));
    hide Halfway, Pair, ToWord, Pow2, Times;
    ghost var done: nat := 0;
    for i := 0 to 32
      invariant Halfway(start, a, i, done)
      invariant Pair(bHi, bLo) == Times(b, Pow2(i)) && Pair(hi, lo) == Times(b, done)
    {
      NextBit(start, a, i, done);
      if a % 2 == 1 {
        TimesSum(b, done, Pow2(i));
        ProductBound(done + Pow2(i), ToWord(start), b);
        hi, lo := AddPair(hi, lo, bHi, bLo);
        if a == 1 {
          LastBit(start, i, done);
          return;
        }
        done := done + Pow2(i);
      }
      ShiftBound(i, b);
      bHi, bLo := DoublePair(bHi, bLo);
      a := a / 2;
    }
    AllBits(start, a, done);
  }

  lemma ShiftBound(i: nat, b: Word)
    requires i < 32
    ensures 2 * Times(b, Pow2(i)) == Times(b, Pow2(i + 1)) < DOUBLE
  {
    hide Pow2;
    Pow2Step(i);
    Pow2Bound(i + 1);
    assert 2 * (b * Pow2(i)) == b * (2 * Pow2(i));
    MulMonotone(b, WORD - 1, Pow2(i + 1));
    MulMonotone(Pow2(i + 1), WORD, WORD - 1);
  }

  lemma {:induction false} Pow2Bound(i: nat)
    requires i <= 32
    ensures Pow2(i) <= WORD
    decreases 32 - i
  {
    if i == 32 {
      Pow2Of32();
    } else {
      Pow2Bound(i + 1);
    }
  }

  function Negate(x: int): int {
    if x == -0x8000_0000 then x else -x
  }

  /** What the 64-bit product is, by the definition of two's complement. */
  function Product(a: Word, b: Word, signedArith: bool): nat {
    (if signedArith then Signed(a) * Signed(b) else a * b) % DOUBLE
  }

  /** Mult: hi:lo is the full product for every pair of words, the most negative one included. */
  method Mult(a: Word, b: Word, signedArith: bool) returns (hi: Word, lo: Word)
    ensures Pair(hi, lo) == Product(a, b, signedArith)
  {
    if a == 0 || b == 0 {
      return 0, 0;
    }
    var negative := false;
    var x, y := Signed(a), Signed(b);
    if signedArith {
      if x < 0 {
        negative, x := !negative, Negate(x);
      }
      if y < 0 {
        negative, y := !negative, Negate(y);
      }
    }
    MagnitudeProduct(a, b, signedArith, x, y);
    hide Signed, ToWord, Negate;
    hi, lo := Accumulate(x, ToWord(y));
    if negative {
      hi, lo := NegatePair(hi, lo);
    }
  }

  function Magnitude(x: int): nat {
    if x < 0 then -x else x
  }

  /** The unsigned product of the adjusted factors is the product up to its sign. */
  lemma MagnitudeProduct(a: Word, b: Word, signedArith: bool, x: int, y: int)
    requires x == if signedArith && Signed(a) < 0 then Negate(Signed(a)) else Signed(a)
    requires y == if signedArith && Signed(b) < 0 then Negate(Signed(b)) else Signed(b)
    ensures Times(ToWord(y), ToWord(x)) < DOUBLE
    ensures Product(a, b, signedArith) == Adjusted(Times(ToWord(y), ToWord(x)), signedArith && (Signed(a) < 0) != (Signed(b) < 0))
  {
    ProductBound(ToWord(x), ToWord(x), ToWord(y));
    hide Times;
    if signedArith {
      assert ToWord(x) == Magnitude(Signed(a)) && ToWord(y) == Magnitude(Signed(b));
      hide Signed, ToWord;
      SignedProduct(Signed(a), Signed(b));
    } else {
      assert ToWord(x) == a && ToWord(y) == b;
      UnsignedProduct(a, b);
    }
  }

  function Adjusted(m: nat, negative: bool): int {
    if negative then (DOUBLE - m) % DOUBLE else m
  }

  lemma SignedProduct(x: int, y: int)
    requires Times(Magnitude(y), Magnitude(x)) < DOUBLE
    ensures (x * y) % DOUBLE == Adjusted(Times(Magnitude(y), Magnitude(x)), (x < 0) != (y < 0))
  {
    var m: int := Times(Magnitude(y), Magnitude(x));
    assert x * y == if (x < 0) != (y < 0) then -m else m;
  }

  lemma UnsignedProduct(x: nat, y: nat)
    requires Times(y, x) < DOUBLE
    ensures (x * y) % DOUBLE == Times(y, x)
  {
    assert x * y == Times(y, x);
  }
}
