/** Machine words as numbers, with their bitwise operators. */
module Words {
  import opened Common

  predicate BitSet(x: nat, d: nat)
    decreases d
  {
    if d == 0 then x % 2 == 1 else BitSet(x / 2, d - 1)
  }

  function Or(x: nat, y: nat): nat {
    if x == 0 then y else (if x % 2 == 1 || y % 2 == 1 then 1 else 0) + 2 * Or(x / 2, y / 2)
  }

  function And(x: nat, y: nat): nat {
    if x == 0 then 0 else (if x % 2 == 1 && y % 2 == 1 then 1 else 0) + 2 * And(x / 2, y / 2)
  }

  /** The low n bits of x. */
  function Truncated(x: nat, n: nat): nat
    decreases n, x
  {
    if n == 0 then 0 else x % 2 + 2 * Truncated(x / 2, n - 1)
  }

  /** x << n on a word of w bits: the bits that leave it are lost. */
  function ShiftLeft(w: nat, x: nat, n: nat): nat
    decreases n, x
  {
    if n == 0 then x else Truncated(2 * ShiftLeft(w, x, n - 1), w)
  }

  lemma {:induction false} ZeroBit(d: nat)
    ensures !BitSet(0, d)
  {
    if d > 0 { ZeroBit(d - 1); }
  }

  lemma {:induction false} NoBits(x: nat)
    requires forall d: nat :: !BitSet(x, d)
    ensures x == 0
  {
    if x != 0 {
      forall d: nat ensures !BitSet(x / 2, d) { assert !BitSet(x, d + 1); }
      assert !BitSet(x, 0);
      NoBits(x / 2);
    }
  }

  lemma {:induction false} OrBit(x: nat, y: nat, d: nat)
    ensures BitSet(Or(x, y), d) <==> BitSet(x, d) || BitSet(y, d)
    decreases d
  {
    if x == 0 {
      ZeroBit(d);
    } else if d > 0 {
      OrBit(x / 2, y / 2, d - 1);
    }
  }

  lemma {:induction false} AndBit(x: nat, y: nat, d: nat)
    ensures BitSet(And(x, y), d) <==> BitSet(x, d) && BitSet(y, d)
    decreases d
  {
    if x == 0 {
      ZeroBit(d);
    } else if d > 0 {
      AndBit(x / 2, y / 2, d - 1);
    }
  }

  lemma {:induction false} TruncatedBit(x: nat, n: nat, d: nat)
    ensures BitSet(Truncated(x, n), d) <==> d < n && BitSet(x, d)
    decreases n
  {
    if n == 0 {
      ZeroBit(d);
    } else if d > 0 {
      TruncatedBit(x / 2, n - 1, d - 1);
    }
  }

  lemma {:induction false} ShiftBit(w: nat, x: nat, n: nat, d: nat)
    ensures BitSet(ShiftLeft(w, x, n), d) <==> n <= d && (n == 0 || d < w) && BitSet(x, d - n)
    decreases n
  {
    if n > 0 {
      TruncatedBit(2 * ShiftLeft(w, x, n - 1), w, d);
      if d > 0 { ShiftBit(w, x, n - 1, d - 1); }
    }
  }

  lemma OneBit(d: nat)
    ensures BitSet(1, d) <==> d == 0
  {
    if d > 0 { ZeroBit(d - 1); }
  }

  /** The test the code makes: word & (1 << d) != 0. */
  lemma TestReadsBit(w: nat, x: nat, d: nat)
    requires d < w
    ensures And(x, ShiftLeft(w, 1, d)) != 0 <==> BitSet(x, d)
  {
    var z := And(x, ShiftLeft(w, 1, d));
    forall e: nat ensures BitSet(z, e) <==> e == d && BitSet(x, e) {
      AndBit(x, ShiftLeft(w, 1, d), e);
      ShiftBit(w, 1, d, e);
      if d <= e { OneBit(e - d); }
    }
    if !BitSet(x, d) {
      NoBits(z);
    } else if z == 0 {
      ZeroBit(d);
    }
  }

  // ----- Against arithmetic -----

  function Pow2(n: nat): (p: nat)
    ensures p > 0
    decreases n
  {
    if n == 0 then 1 else 2 * Pow2(n - 1)
  }

  function AndNot(x: nat, y: nat): nat {
    if x == 0 then 0 else (if x % 2 == 1 && y % 2 == 0 then 1 else 0) + 2 * AndNot(x / 2, y / 2)
  }

  /** The low n bits of x are zero. */
  predicate Aligned(x: nat, n: nat) { Truncated(x, n) == 0 }

  /** x fits n bits. */
  predicate Within(x: nat, n: nat) { x < Pow2(n) }

  lemma {:induction false} Pow2Grows(n: nat, m: nat)
    requires n < m
    ensures Pow2(n) < Pow2(m)
    decreases m
  {
    if n < m - 1 { Pow2Grows(n, m - 1); }
  }

  lemma {:induction false} Pow2Sum(n: nat, m: nat)
    ensures Pow2(n + m) == Pow2(n) * Pow2(m)
    decreases m
  {
    if m > 0 {
      Pow2Sum(n, m - 1);
      assert Pow2(n) * (2 * Pow2(m - 1)) == 2 * (Pow2(n) * Pow2(m - 1));
    }
  }

  lemma Pow2Values()
    ensures Pow2(8) == 0x100 && Pow2(16) == 0x1_0000 && Pow2(22) == 0x40_0000 && Pow2(23) == 0x80_0000
    ensures Pow2(24) == 0x100_0000 && Pow2(32) == 0x1_0000_0000
  {
    assert Pow2(4) == 16;
    Pow2Sum(4, 4);
    Pow2Sum(8, 8);
    Pow2Sum(16, 8);
    Pow2Sum(16, 16);
    assert Pow2(23) * 2 == Pow2(24) && Pow2(22) * 2 == Pow2(23);
  }

  lemma {:induction false} TruncatedBound(x: nat, n: nat)
    ensures Within(Truncated(x, n), n) && Truncated(x, n) <= x
    decreases n
  {
    if n > 0 { TruncatedBound(x / 2, n - 1); }
  }

  lemma {:induction false} TruncatedSmall(x: nat, n: nat)
    requires Within(x, n)
    ensures Truncated(x, n) == x
    decreases n
  {
    if n > 0 { TruncatedSmall(x / 2, n - 1); }
  }

  /** What is left after the low n bits are taken away has none. */
  lemma {:induction false} TruncatedCleared(x: nat, n: nat)
    ensures Truncated(x, n) <= x && Aligned(x - Truncated(x, n), n)
    decreases n
  {
    if n > 0 {
      TruncatedCleared(x / 2, n - 1);
      assert x - Truncated(x, n) == 2 * (x / 2 - Truncated(x / 2, n - 1));
    }
  }

  lemma {:induction false} TruncatedSum(x: nat, y: nat, n: nat)
    requires Aligned(x, n) && Within(y, n)
    ensures Truncated(x + y, n) == y
    decreases n
  {
    if n > 0 {
      TruncatedSum(x / 2, y / 2, n - 1);
      assert (x + y) / 2 == x / 2 + y / 2;
    }
  }

  lemma {:induction false} MultipleTruncated(q: nat, n: nat)
    ensures Aligned(q * Pow2(n), n)
    decreases n
  {
    if n > 0 {
      MultipleTruncated(q, n - 1);
      assert q * Pow2(n) == 2 * (q * Pow2(n - 1));
    }
  }

  /** An aligned block of 2^n that starts below 2^m ends there. */
  lemma {:induction false} BlockFits(x: nat, n: nat, m: nat)
    requires n <= m && Aligned(x, n) && Within(x, m)
    ensures x + Pow2(n) <= Pow2(m)
    decreases n
  {
    if n > 0 { BlockFits(x / 2, n - 1, m - 1); }
  }

  lemma {:induction false} AlignedLess(x: nat, n: nat, m: nat)
    requires m <= n && Aligned(x, n)
    ensures Aligned(x, m)
    decreases n
  {
    if m > 0 { AlignedLess(x / 2, n - 1, m - 1); }
  }

  lemma {:induction false} AlignedSum(x: nat, y: nat, n: nat)
    requires Aligned(x, n)
    ensures Aligned(x + y, n) <==> Aligned(y, n)
    decreases n
  {
    if n > 0 {
      AlignedSum(x / 2, y / 2, n - 1);
      assert y % 2 == 0 ==> (x + y) / 2 == x / 2 + y / 2;
    }
  }

  /** 1 << n */
  lemma {:induction false} OneShifted(w: nat, n: nat)
    requires n < w
    ensures ShiftLeft(w, 1, n) == Pow2(n)
    decreases n
  {
    if n > 0 {
      OneShifted(w, n - 1);
      Pow2Grows(n, w);
      TruncatedSmall(Pow2(n), w);
    }
  }

  /** Masking with n ones keeps the low n bits. */
  lemma {:induction false} AndOnes(x: nat, n: nat)
    ensures And(x, Pow2(n) - 1) == Truncated(x, n)
    decreases n, x
  {
    if n == 0 {
      AndZero(x);
    } else if x != 0 {
      AndOnes(x / 2, n - 1);
    } else {
      TruncatedBound(0, n);
    }
  }

  lemma {:induction false} AndZero(x: nat)
    ensures And(x, 0) == 0
  {
    if x != 0 { AndZero(x / 2); }
  }

  lemma {:induction false} AndNotZero(x: nat)
    ensures AndNot(x, 0) == x
  {
    if x != 0 { AndNotZero(x / 2); }
  }

  lemma AndNotThree(x: nat)
    ensures Truncated(x, 2) <= x && AndNot(x, 3) == x - Truncated(x, 2)
  {
    AndNotZero(x / 2 / 2);
    assert AndNot(x / 2, 1) == 2 * (x / 2 / 2);
    assert Truncated(x / 2, 1) == x / 2 % 2;
  }

  /** Or with a number below the lowest bit of x is addition. */
  lemma {:induction false} OrIsSum(x: nat, y: nat, n: nat)
    requires Aligned(x, n) && Within(y, n)
    ensures Or(x, y) == x + y
    decreases n
  {
    if x != 0 {
      if n == 0 {
        OrZero(x);
      } else {
        OrIsSum(x / 2, y / 2, n - 1);
      }
    }
  }

  lemma {:induction false} OrZero(x: nat)
    ensures Or(x, 0) == x
  {
    if x != 0 { OrZero(x / 2); }
  }

  /** (1 << n) - 1 in a word of w bits cut down to v bits. */
  lemma OnesMask(w: nat, v: nat, n: nat)
    requires n < w && n <= v
    ensures ShiftLeft(w, 1, n) > 0 && Truncated(ShiftLeft(w, 1, n) - 1, v) == Pow2(n) - 1
  {
    OneShifted(w, n);
    if n < v { Pow2Grows(n, v); }
    TruncatedSmall(Pow2(n) - 1, v);
  }

  /** random & ones &^ 3 */
  lemma MaskedWord(random: nat, ones: nat, n: nat)
    requires ones == Pow2(n) - 1
    ensures var r := Truncated(random, n); Truncated(r, 2) <= r && AndNot(And(random, ones), 3) == r - Truncated(r, 2)
    ensures Within(AndNot(And(random, ones), 3), n)
  {
    AndOnes(random, n);
    TruncatedBound(random, n);
    AndNotThree(Truncated(random, n));
  }

  // ----- Numbers as bytes -----

  function Power(width: nat): nat { if width == 0 then 1 else 256 * Power(width - 1) }

  /** The low `width` bytes of n, most significant first. */
  function BigEndian(n: nat, width: nat): (b: Bytes)
    ensures |b| == width
  {
    if width == 0 then [] else BigEndian(n / 256, width - 1) + [n % 256]
  }

  function Number(b: Bytes): nat {
    if b == [] then 0 else 256 * Number(b[..|b| - 1]) + b[|b| - 1]
  }

  lemma {:induction false} NumberOfBigEndian(n: nat, width: nat)
    requires n < Power(width)
    ensures Number(BigEndian(n, width)) == n
  {
    if width > 0 {
      NumberOfBigEndian(n / 256, width - 1);
      assert BigEndian(n, width)[..width - 1] == BigEndian(n / 256, width - 1);
    }
  }

  lemma {:induction false} BigEndianOfNumber(b: Bytes)
    ensures b == BigEndian(Number(b), |b|)
  {
    if b != [] {
      BigEndianOfNumber(b[..|b| - 1]);
      assert b == b[..|b| - 1] + [b[|b| - 1]];
    }
  }

  lemma FourBytes(a: Byte, b: Byte, c: Byte, d: Byte)
    ensures Number([a, b, c, d]) == ((a as int * 256 + b) * 256 + c) * 256 + d
  {
    NumberExtends([], a);
    NumberExtends([a], b);
    NumberExtends([a, b], c);
    NumberExtends([a, b, c], d);
    assert [] + [a] == [a] && [a] + [b] == [a, b] && [a, b] + [c] == [a, b, c] && [a, b, c] + [d] == [a, b, c, d];
  }

  lemma NumberExtends(s: Bytes, d: Byte)
    ensures Number(s + [d]) == 256 * Number(s) + d
  {
    assert (s + [d])[..|s|] == s;
  }
}
