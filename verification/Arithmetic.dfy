/** Bytes, 32-bit words and the division facts that paging and the file system share. */
module Arithmetic {

  type Byte = b: int | 0 <= b < 256
  type Word = w: int | 0 <= w < 0x1_0000_0000

  lemma MulMonotone(x: int, y: int, base: nat)
    requires x <= y
    ensures x * base <= y * base
  {
  }

  /** Quotient and remainder are the only way to split a number at a positive base. */
  lemma SplitUnique(a: int, base: int, q: int, r: int)
    requires 0 < base && a == q * base + r && 0 <= r < base
    ensures a / base == q && a % base == r
  {
    SplitBack(a, base);
    var q' := a / base;
    if q < q' {
      MulMonotone(q + 1, q', base);
    } else if q' < q {
      MulMonotone(q' + 1, q, base);
    }
  }

  /** Two positions agree in both quotient and remainder only when they are equal. */
  lemma SplitBack(a: int, base: int)
    requires 0 < base
    ensures a == (a / base) * base + a % base
  {
  }

  /** Position a lies below n whole blocks exactly when its block number is below n. */
  lemma BlockBound(a: nat, base: int, n: nat)
    requires 0 < base
    ensures a < n * base <==> a / base < n
  {
    SplitBack(a, base);
    if a / base < n {
      MulMonotone(a / base + 1, n, base);
    } else {
      MulMonotone(n, a / base, base);
    }
  }

  /** An aligned access of 1, 2 or 4 bytes never leaves its block. */
  lemma AlignedStaysInside(addr: nat, size: nat, base: nat)
    requires 0 < base && base % 4 == 0
    requires size == 1 || size == 2 || size == 4
    requires (size == 4 ==> addr % 4 == 0) && (size == 2 ==> addr % 2 == 0)
    ensures addr % base + size <= base
  {
    var off, m, k := addr % base, (addr / base) * (base / 4), base / 4;
    assert addr == 4 * m + off by {
      SplitBack(addr, base);
      Reassociate(addr / base, k);
    }
    if size == 4 {
      WordInside(m, off, k);
    } else if size == 2 {
      HalfInside(m, off, k);
    }
  }

  lemma WordInside(m: int, off: int, k: int)
    requires 0 <= off < 4 * k && (4 * m + off) % 4 == 0
    ensures off + 4 <= 4 * k
  {
    Mod4(m, off);
  }

  lemma HalfInside(m: int, off: int, k: int)
    requires 0 <= off < 4 * k && (4 * m + off) % 2 == 0
    ensures off + 2 <= 4 * k
  {
    Mod2(m, off);
  }

  lemma Mod4(m: int, off: int)
    ensures (4 * m + off) % 4 == off % 4
  {
  }

  lemma Mod2(m: int, off: int)
    ensures (4 * m + off) % 2 == off % 2
  {
    assert 4 * m == 2 * (2 * m);
  }

  lemma Reassociate(q: int, k: int)
    ensures q * (4 * k) == 4 * (q * k)
  {
  }

  function Zeros(n: nat): (r: seq<Byte>)
    ensures |r| == n
  {
    seq(n, _ => 0)
  }

  /** The bytes of s with new written over it from position at. */
  function Overwrite<T>(s: seq<T>, at: nat, new_: seq<T>): (r: seq<T>)
    requires at + |new_| <= |s|
    ensures |r| == |s|
    ensures forall i :: 0 <= i < |s| ==> r[i] == if at <= i < at + |new_| then new_[i - at] else s[i]
  {
    s[..at] + new_ + s[at + |new_|..]
  }
}
