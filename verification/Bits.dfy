/**
 * The bitwise operations of C on words, bit by bit, and what the masks and sign tests of the
 * simulator come to in arithmetic.
 */
module Bits {
  import opened Arithmetic
  import opened Multiply

  datatype Gate = AndGate | OrGate | XorGate

  function Bit(g: Gate, a: nat, b: nat): (r: nat)
    requires a < 2 && b < 2
    ensures r < 2
  {
    match g
    case AndGate => if a == 1 && b == 1 then 1 else 0
    case OrGate => if a == 1 || b == 1 then 1 else 0
    case XorGate => if a != b then 1 else 0
  }

  /** The gate applied to each of the low n bits. */
  function Bitwise(g: Gate, x: nat, y: nat, n: nat): (r: nat)
    ensures r < Pow2(n)
    decreases n
  {
    if n == 0 then 0 else Bit(g, x % 2, y % 2) + 2 * Bitwise(g, x / 2, y / 2, n - 1)
  }

  function And(x: Word, y: Word): Word {
    Pow2Of32();
    Bitwise(AndGate, x, y, 32)
  }

  function Or(x: Word, y: Word): Word {
    Pow2Of32();
    Bitwise(OrGate, x, y, 32)
  }

  function Xor(x: Word, y: Word): Word {
    Pow2Of32();
    Bitwise(XorGate, x, y, 32)
  }

  // ---- what the bits of an operation are ----

  lemma {:induction false} TopBit(x: nat, y: nat, n: nat)
    requires n > 0 && x < Pow2(n) && y < Pow2(n)
    ensures Bitwise(XorGate, x, y, n) >= Pow2(n - 1) <==> (x >= Pow2(n - 1)) != (y >= Pow2(n - 1))
    decreases n
  {
    if n == 1 {
      assert Bitwise(XorGate, x / 2, y / 2, 0) == 0;
    } else {
      TopBit(x / 2, y / 2, n - 1);
    }
  }

  lemma {:induction false} TestTop(x: nat, n: nat)
    requires n > 0 && x < Pow2(n)
    ensures Bitwise(AndGate, x, Pow2(n - 1), n) == if x >= Pow2(n - 1) then Pow2(n - 1) else 0
    decreases n
  {
    if n == 1 {
      assert Bitwise(AndGate, x / 2, 0, 0) == 0;
    } else {
      TestTop(x / 2, n - 1);
      assert Pow2(n - 1) / 2 == Pow2(n - 2) && Pow2(n - 1) % 2 == 0;
    }
  }

  lemma {:induction false} AndZero(x: nat, n: nat)
    ensures Bitwise(AndGate, x, 0, n) == 0
    decreases n
  {
    if n > 0 {
      AndZero(x / 2, n - 1);
    }
  }

  lemma {:induction false} OrZero(x: nat, n: nat)
    requires x < Pow2(n)
    ensures Bitwise(OrGate, x, 0, n) == x && Bitwise(OrGate, 0, x, n) == x
    decreases n
  {
    if n > 0 {
      OrZero(x / 2, n - 1);
    }
  }

  /** The low k bits. */
  function Low(x: nat, k: nat): nat {
    x % Pow2(k)
  }

  lemma LowStep(x: nat, k: nat)
    requires k > 0
    ensures Low(x, k) == x % 2 + 2 * Low(x / 2, k - 1)
  {
    HalfRemainder(x, Pow2(k - 1));
  }

  lemma HalfRemainder(x: nat, p: nat)
    requires p > 0
    ensures x % (2 * p) == x % 2 + 2 * ((x / 2) % p)
  {
    var h, q := x / 2, x / 2 / p;
    SplitBack(h, p);
    assert h == q * p + h % p && x == 2 * h + x % 2;
    assert x == q * (2 * p) + (x % 2 + 2 * (h % p)) by {
      assert 2 * (q * p) == q * (2 * p);
    }
    RemainderIs(x, 2 * p, q, x % 2 + 2 * (h % p));
  }

  lemma RemainderIs(x: nat, d: nat, q: nat, r: nat)
    requires d > 0 && x == q * d + r && r < d
    ensures x % d == r
  {
    SplitBack(x, d);
    var q' := x / d;
    if q' < q {
      MulMonotone(q' + 1, q, d);
    } else if q < q' {
      MulMonotone(q + 1, q', d);
    }
  }

  /** A mask of k ones keeps the low k bits. */
  lemma {:induction false} MaskLow(x: nat, k: nat, n: nat)
    requires k <= n
    ensures Bitwise(AndGate, x, Pow2(k) - 1, n) == Low(x, k)
    decreases n
  {
    hide Low;
    if k == 0 {
      AndZero(x, n);
      LowNone(x);
    } else {
      MaskLow(x / 2, k - 1, n - 1);
      LowStep(x, k);
      assert (Pow2(k) - 1) / 2 == Pow2(k - 1) - 1 && (Pow2(k) - 1) % 2 == 1;
    }
  }

  lemma LowNone(x: nat)
    ensures Low(x, 0) == 0
  {
  }

  /** A mask with k zeros below takes the low bits away. */
  lemma {:induction false} MaskHigh(x: nat, k: nat, n: nat)
    requires k <= n && x < Pow2(n)
    ensures Pow2(k) <= Pow2(n) && Bitwise(AndGate, x, Pow2(n) - Pow2(k), n) == x - Low(x, k)
    decreases n
  {
    hide Low;
    if k == 0 {
      LowNone(x);
      if n > 0 {
        MaskHigh(x / 2, 0, n - 1);
        LowNone(x / 2);
        assert (Pow2(n) - 1) / 2 == Pow2(n - 1) - 1 && (Pow2(n) - 1) % 2 == 1;
      }
    } else {
      MaskHigh(x / 2, k - 1, n - 1);
      LowStep(x, k);
      assert (Pow2(n) - Pow2(k)) / 2 == Pow2(n - 1) - Pow2(k - 1) && (Pow2(n) - Pow2(k)) % 2 == 0;
    }
  }

  /** Setting all bits from k on. */
  lemma {:induction false} SetHigh(x: nat, k: nat, n: nat)
    requires k <= n
    ensures Pow2(k) <= Pow2(n) && Bitwise(OrGate, x, Pow2(n) - Pow2(k), n) == Pow2(n) - Pow2(k) + Low(x, k)
    decreases n
  {
    hide Low;
    if k == 0 {
      LowNone(x);
      if n > 0 {
        SetHigh(x / 2, 0, n - 1);
        LowNone(x / 2);
        assert (Pow2(n) - 1) / 2 == Pow2(n - 1) - 1 && (Pow2(n) - 1) % 2 == 1;
      }
    } else {
      SetHigh(x / 2, k - 1, n - 1);
      LowStep(x, k);
      assert (Pow2(n) - Pow2(k)) / 2 == Pow2(n - 1) - Pow2(k - 1) && (Pow2(n) - Pow2(k)) % 2 == 0;
    }
  }

  /** Low bits joined to a multiple of 2^k. */
  lemma {:induction false} Join(high: nat, low: nat, k: nat, n: nat)
    requires k <= n && low < Pow2(k) && high * Pow2(k) < Pow2(n)
    ensures Bitwise(OrGate, high * Pow2(k), low, n) == high * Pow2(k) + low
    ensures Bitwise(OrGate, low, high * Pow2(k), n) == high * Pow2(k) + low
    decreases n
  {
    if k == 0 {
      OrZero(high, n);
    } else {
      var p := Pow2(k - 1);
      assert high * Pow2(k) == 2 * (high * p);
      Join(high, low / 2, k - 1, n - 1);
    }
  }

  // ---- the masks and tests of the simulator ----

  const SIGN_BIT: Word := 0x8000_0000

  lemma Pow2Values()
    ensures Pow2(1) == 2 && Pow2(2) == 4 && Pow2(8) == 0x100 && Pow2(16) == 0x1_0000 && Pow2(24) == 0x100_0000
    ensures Pow2(31) == 0x8000_0000 && Pow2(32) == 0x1_0000_0000
  {
    Pow2Splits(8, 16);
    Pow2Splits(8, 24);
    Pow2Of32();
  }

  /** The test of two sign bits by exclusive or. */
  lemma SignsDiffer(x: Word, y: Word)
    ensures And(Xor(x, y), SIGN_BIT) != 0 <==> (x >= SIGN_BIT) != (y >= SIGN_BIT)
    ensures And(x, SIGN_BIT) != 0 <==> x >= SIGN_BIT
  {
    Pow2Values();
    TopBit(x, y, 32);
    TestTop(Xor(x, y), 32);
    TestTop(x, 32);
    hide Bitwise, Pow2;
  }

  lemma LowMasks(x: Word)
    ensures And(x, 1) == x % 2 && And(x, 3) == x % 4 && And(x, 0xFF) == x % 0x100
    ensures And(x, 0xFFFF) == x % 0x1_0000 && And(x, 0xFF_FFFF) == x % 0x100_0000
  {
    Pow2Values();
    MaskLow(x, 1, 32);
    MaskLow(x, 2, 32);
    MaskLow(x, 8, 32);
    MaskLow(x, 16, 32);
    MaskLow(x, 24, 32);
    hide Bitwise, Pow2;
  }

  lemma HighMasks(x: Word)
    ensures And(x, 0xFFFF_FF00) == x - x % 0x100
    ensures Or(x, 0xFFFF_FF00) == 0xFFFF_FF00 + x % 0x100 && Or(x, 0xFFFF_0000) == 0xFFFF_0000 + x % 0x1_0000
  {
    Pow2Values();
    MaskHigh(x, 8, 32);
    SetHigh(x, 8, 32);
    SetHigh(x, 16, 32);
    hide Bitwise, Pow2;
  }

  /** The byte and half-word sign tests. */
  lemma MiddleBits(x: Word)
    ensures And(x, 0x80) != 0 <==> x % 0x100 >= 0x80
    ensures And(x, 0x8000) != 0 <==> x % 0x1_0000 >= 0x8000
  {
    TestBit(x, 7, 32);
    TestBit(x, 15, 32);
    assert Pow2(7) == 0x80;
    Pow2Values();
    Pow2Splits(7, 15);
    hide Bitwise, Pow2;
  }

  /** A one-bit mask tells whether the low k + 1 bits exceed the low k. */
  lemma {:induction false} TestBit(x: nat, k: nat, n: nat)
    requires k < n
    ensures Bitwise(AndGate, x, Pow2(k), n) != 0 <==> Low(x, k + 1) >= Pow2(k)
    decreases n
  {
    hide Low;
    LowStep(x, k + 1);
    if k == 0 {
      AndZero(x / 2, n - 1);
      LowNone(x / 2);
    } else {
      TestBit(x / 2, k - 1, n - 1);
      assert Pow2(k) / 2 == Pow2(k - 1) && Pow2(k) % 2 == 0;
    }
  }

  lemma JoinByte(high: nat, low: nat)
    requires low < 0x100 && high * 0x100 < 0x1_0000_0000
    ensures Or(high * 0x100, low) == high * 0x100 + low
  {
    Pow2Values();
    Join(high, low, 8, 32);
    hide Bitwise, Pow2;
  }

  lemma JoinTop(high: nat, low: nat)
    requires low < 0x100_0000 && high < 0x100
    ensures Or(low, high * 0x100_0000) == high * 0x100_0000 + low
  {
    Pow2Values();
    Join(high, low, 24, 32);
    hide Bitwise, Pow2;
  }

  lemma Pow2Of28()
    ensures Pow2(28) == 0x1000_0000
  {
    Pow2Values();
    Pow2Splits(4, 28);
    assert Pow2(4) == 16;
  }

  lemma TopNibble(x: Word)
    ensures And(x, 0xF000_0000) == x / 0x1000_0000 * 0x1000_0000
  {
    Pow2Values();
    Pow2Of28();
    MaskHigh(x, 28, 32);
    hide Bitwise, Pow2;
  }

  lemma JoinNibble(high: nat, low: nat)
    requires low < 0x1000_0000 && high < 16
    ensures Or(high * 0x1000_0000, low) == high * 0x1000_0000 + low
  {
    Pow2Values();
    Pow2Of28();
    Join(high, low, 28, 32);
    hide Bitwise, Pow2;
  }

  // ---- each bit ----

  /** Bit k of a number. */
  function BitAt(x: nat, k: nat): nat {
    x / Pow2(k) % 2
  }

  lemma BitBelow(x: nat, k: nat)
    ensures BitAt(x, k + 1) == BitAt(x / 2, k) && BitAt(x, 0) == x % 2
  {
    DivideTwice(x, 2, Pow2(k));
  }

  lemma DivideTwice(x: nat, a: nat, b: nat)
    requires a > 0 && b > 0
    ensures a * b > 0 && x / (a * b) == x / a / b
  {
    assert a * b > 0;
    var q, r := x / a, x % a;
    var q', r' := q / b, q % b;
    SplitBack(x, a);
    SplitBack(q, b);
    assert x == q' * (a * b) + (r' * a + r) by {
      assert (q' * b + r') * a == q' * (a * b) + r' * a;
    }
    MulMonotone(r' + 1, b, a);
    SplitUnique(x, a * b, q', r' * a + r);
  }

  /** Each bit of the result is the gate on the bits of the operands. */
  lemma {:induction false} BitwiseAt(g: Gate, x: nat, y: nat, n: nat, k: nat)
    requires k < n
    ensures BitAt(Bitwise(g, x, y, n), k) == Bit(g, BitAt(x, k), BitAt(y, k))
    decreases n
  {
    hide BitAt;
    var z := Bitwise(g, x, y, n);
    assert z % 2 == Bit(g, x % 2, y % 2) && z / 2 == Bitwise(g, x / 2, y / 2, n - 1);
    if k == 0 {
      BitBelow(x, 0);
      BitBelow(y, 0);
      BitBelow(z, 0);
    } else {
      BitwiseAt(g, x / 2, y / 2, n - 1, k - 1);
      BitBelow(x, k - 1);
      BitBelow(y, k - 1);
      BitBelow(z, k - 1);
    }
  }

  /** And, or and exclusive or, bit by bit. */
  lemma LogicBits(x: Word, y: Word, k: nat)
    requires k < 32
    ensures BitAt(And(x, y), k) == 1 <==> BitAt(x, k) == 1 && BitAt(y, k) == 1
    ensures BitAt(Or(x, y), k) == 1 <==> BitAt(x, k) == 1 || BitAt(y, k) == 1
    ensures BitAt(Xor(x, y), k) == 1 <==> BitAt(x, k) != BitAt(y, k)
  {
    BitwiseAt(AndGate, x, y, 32, k);
    BitwiseAt(OrGate, x, y, 32, k);
    BitwiseAt(XorGate, x, y, 32, k);
    hide Bitwise, Pow2;
  }

  lemma {:induction false} OrSelf(x: nat, n: nat)
    requires x < Pow2(n)
    ensures Bitwise(OrGate, x, x, n) == x
    decreases n
  {
    if n > 0 {
      OrSelf(x / 2, n - 1);
    }
  }

  lemma OrSameWord(x: Word)
    ensures Or(x, x) == x
  {
    Pow2Of32();
    OrSelf(x, 32);
  }
}
