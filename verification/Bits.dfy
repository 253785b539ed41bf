/** Powers of two, natural alignment and the two bit operations the kernel uses on
    indexes and addresses: flipping one bit (`idx ^ (1 << k)`) and masking low bits. */
module Bits {
  /** PAGE_SIZE. */
  const PAGE: nat := 0x1000

  newtype byte = x: int | 0 <= x < 0x100

  function Pow2(k: nat): (p: nat)
    ensures p >= 1
  {
    if k == 0 then 1 else 2 * Pow2(k - 1)
  }

  lemma {:induction false} Pow2Add(a: nat, b: nat)
    ensures Pow2(a + b) == Pow2(a) * Pow2(b)
  {
    if a == 0 {
    } else {
      Pow2Add(a - 1, b);
      assert Pow2(a + b) == 2 * Pow2(a - 1 + b);
    }
  }

  lemma {:induction false} Pow2Monotone(a: nat, b: nat)
    requires a <= b
    ensures Pow2(a) <= Pow2(b)
    ensures a < b ==> 2 * Pow2(a) <= Pow2(b)
  {
    if a < b { Pow2Monotone(a, b - 1); }
  }

  /** Bitwise exclusive or, digit by digit. */
  function Xor(a: nat, b: nat): nat {
    if a == 0 && b == 0 then 0
    else 2 * Xor(a / 2, b / 2) + if a % 2 != b % 2 then 1 else 0
  }

  /** Bitwise and, digit by digit. */
  function And(a: nat, b: nat): nat {
    if a == 0 || b == 0 then 0
    else 2 * And(a / 2, b / 2) + if a % 2 == 1 && b % 2 == 1 then 1 else 0
  }

  /** The value of bit `k` of `a`. */
  predicate Bit(a: nat, k: nat) {
    a / Pow2(k) % 2 == 1
  }

  predicate Aligned(h: nat, k: nat) {
    h % Pow2(k) == 0
  }

  lemma MulSmall(d: int, e: int)
    requires d > 0 && -d < d * e < d
    ensures e == 0
  {
    if e >= 1 { assert d * e == d + d * (e - 1); MulNonNeg(d, e - 1); }
    if e <= -1 { assert d * e == -d - d * (-e - 1); MulNonNeg(d, -e - 1); }
  }
  lemma MulNonNeg(d: int, e: int)
    requires d >= 0 && e >= 0
    ensures d * e >= 0
  {}
  lemma DivUnique(a: int, d: int, q: int, r: int)
    requires d > 0 && a == d * q + r && 0 <= r < d
    ensures a / d == q && a % d == r
  {
    var s, t := a / d, a % d;
    assert a == d * s + t;
    assert d * (s - q) == d * s - d * q;
    MulSmall(d, s - q);
  }
  lemma DivDiv(a: nat, b: nat, c: nat)
    requires b > 0 && c > 0
    ensures b * c > 0 && a / (b * c) == a / b / c
  {
    var q, r := a / b, a % b;
    var s, t := q / c, q % c;
    DivDivParts(a, b, c, q, r, s, t);
  }
  lemma DivDivParts(a: nat, b: nat, c: nat, q: nat, r: nat, s: nat, t: nat)
    requires b > 0 && c > 0 && a == b * q + r && q == c * s + t && r < b && t < c
    ensures b * c > 0 && a / (b * c) == s
  {
    assert b * q == (b * c) * s + b * t by {
      assert b * (c * s + t) == b * (c * s) + b * t;
      assert b * (c * s) == (b * c) * s;
    }
    assert b * c == b * t + b * (c - t - 1) + b;
    MulNonNeg(b, c - t - 1); MulNonNeg(b, t);
    DivUnique(a, b * c, s, b * t + r);
  }

  lemma Multiple(d: int, q: int)
    requires d > 0
    ensures d * q % d == 0 && d * q / d == q
  {
    DivUnique(d * q, d, q, 0);
  }

  lemma {:induction false} XorZero(a: nat)
    ensures Xor(a, 0) == a
  {
    if a > 0 { XorZero(a / 2); }
  }

  /** Flipping bit `k` adds the bit's weight when it is clear and subtracts it when it is set. */
  lemma {:induction false} XorOneBit(a: nat, k: nat)
    ensures !Bit(a, k) ==> Xor(a, Pow2(k)) == a + Pow2(k)
    ensures Bit(a, k) ==> a >= Pow2(k) && Xor(a, Pow2(k)) == a - Pow2(k)
  {
    if k == 0 {
      XorZero(a / 2);
    } else {
      XorOneBit(a / 2, k - 1);
      DivDiv(a, 2, Pow2(k - 1));
      assert Pow2(k) / 2 == Pow2(k - 1) && Pow2(k) % 2 == 0;
    }
  }

  lemma {:induction false} AndOneBit(a: nat, k: nat)
    ensures And(a, Pow2(k)) != 0 <==> Bit(a, k)
  {
    if a == 0 {
    } else if k == 0 {
    } else {
      AndOneBit(a / 2, k - 1);
      DivDiv(a, 2, Pow2(k - 1));
    }
  }

  /** Two multiples of `d` that differ are at least `d` apart. */
  lemma MultiplesApart(d: nat, a: nat, b: nat)
    requires d > 0 && a % d == 0 && b % d == 0 && a < b
    ensures a + d <= b
  {
    var i, j := a / d, b / d;
    assert b - a == d * (j - i);
    if b < a + d { MulSmall(d, j - i); }
  }

  lemma MultipleSum(d: nat, a: int, b: int)
    requires d > 0 && a % d == 0 && b % d == 0
    ensures (a + b) % d == 0 && (a - b) % d == 0
  {
    var i, j := a / d, b / d;
    assert a + b == d * (i + j) && a - b == d * (i - j);
    Multiple(d, i + j);
    Multiple(d, i - j);
  }

  lemma MultipleFactor(h: nat, d: nat, e: nat)
    requires d > 0 && e > 0 && d * e > 0 && h % (d * e) == 0
    ensures h % d == 0
  {
    var q := h / (d * e);
    assert h == (d * e) * q == d * (e * q);
    Multiple(d, e * q);
  }

  /** Alignment to a larger power implies alignment to a smaller one. */
  lemma AlignedDown(h: nat, j: nat, k: nat)
    requires j <= k && Aligned(h, k)
    ensures Aligned(h, j) && Pow2(k) % Pow2(j) == 0
  {
    Pow2Add(j, k - j);
    MultipleFactor(h, Pow2(j), Pow2(k - j));
    Multiple(Pow2(j), Pow2(k - j));
  }

  /** A number aligned to 2^k is aligned to 2^(k+1) exactly when bit k is clear. */
  lemma AlignedUp(h: nat, k: nat)
    requires Aligned(h, k)
    ensures Aligned(h, k + 1) <==> !Bit(h, k)
    ensures Bit(h, k) ==> h >= Pow2(k) && Aligned(h - Pow2(k), k + 1)
  {
    var p, q := Pow2(k), h / Pow2(k);
    var s, t := q / 2, q % 2;
    assert h == (2 * p) * s + p * t by { assert q == 2 * s + t; assert p * q == p * (2 * s) + p * t; }
    MulNonNeg(2 * p, s);
    DivUnique(h, 2 * p, s, p * t);
    Multiple(2 * p, s);
  }

  /** Bitwise or, digit by digit. */
  function Or(a: nat, b: nat): nat {
    if a == 0 && b == 0 then 0
    else 2 * Or(a / 2, b / 2) + if a % 2 == 1 || b % 2 == 1 then 1 else 0
  }

  lemma {:induction false} OrZero(a: nat)
    ensures Or(a, 0) == a
  {
    if a > 0 { OrZero(a / 2); }
  }

  /** An offset below 2^k or-ed into a multiple of 2^k is added. */
  lemma {:induction false} OrLow(a: nat, b: nat, k: nat)
    requires Aligned(a, k) && b < Pow2(k)
    ensures Or(a, b) == a + b
  {
    if k == 0 {
      OrZero(a);
    } else {
      HalfAligned(a, k);
      OrLow(a / 2, b / 2, k - 1);
    }
  }

  lemma HalfAligned(a: nat, k: nat)
    requires k > 0 && Aligned(a, k)
    ensures a % 2 == 0 && Aligned(a / 2, k - 1)
  {
    var p, q := Pow2(k - 1), a / Pow2(k);
    assert a == 2 * (p * q) by { assert a == (2 * p) * q; }
    Multiple(p, q);
  }

  /** Masking with 2^k - 1 keeps the remainder. */
  lemma {:induction false} AndLow(a: nat, k: nat)
    ensures And(a, Pow2(k) - 1) == a % Pow2(k)
  {
    if a == 0 {
      DivUnique(0, Pow2(k), 0, 0);
    } else if k == 0 {
      DivUnique(a, 1, a, 0);
    } else {
      Pow2Even(k);
      AndLow(a / 2, k - 1);
      hide *;
      AndLowStep(a, Pow2(k - 1));
    }
  }

  lemma AndLowStep(a: nat, p: nat)
    requires p > 0 && And(a / 2, p - 1) == a / 2 % p
    ensures And(a, 2 * p - 1) == a % (2 * p)
  {
    hide And;
    AndOdd(a, p);
    HalfMod(a, p);
  }

  lemma AndOdd(a: nat, p: nat)
    requires p > 0
    ensures And(a, 2 * p - 1) == 2 * And(a / 2, p - 1) + a % 2
  {
    assert (2 * p - 1) / 2 == p - 1 && (2 * p - 1) % 2 == 1;
  }

  lemma HalfMod(a: nat, p: nat)
    requires p > 0
    ensures a % (2 * p) == 2 * (a / 2 % p) + a % 2
  {
    var q, r := a / 2 / p, a / 2 % p;
    assert a == (2 * p) * q + (2 * r + a % 2) by { assert a / 2 == p * q + r; assert (2 * p) * q == 2 * (p * q); }
    DivUnique(a, 2 * p, q, 2 * r + a % 2);
  }

  lemma Pow2Even(k: nat)
    requires k > 0
    ensures Pow2(k) == 2 * Pow2(k - 1)
  {}

  /** Masking an n-bit word with ~(2^k - 1) drops the remainder. */
  lemma {:induction false} AndHigh(a: nat, k: nat, n: nat)
    requires k <= n && a < Pow2(n)
    ensures Pow2(k) <= Pow2(n) && And(a, Pow2(n) - Pow2(k)) == a - a % Pow2(k)
    decreases k
  {
    hide And;
    Pow2Monotone(k, n);
    if k == 0 {
      AndLow(a, n);
      DivUnique(a, Pow2(n), 0, a);
      DivUnique(a, 1, a, 0);
    } else {
      Pow2Even(k);
      Pow2Even(n);
      hide Pow2;
      AndHigh(a / 2, k - 1, n - 1);
      AndHighStep(a, Pow2(k - 1), Pow2(n - 1));
    }
  }

  lemma AndHighStep(a: nat, p: nat, q: nat)
    requires 0 < p <= q && And(a / 2, q - p) == a / 2 - a / 2 % p
    ensures And(a, 2 * q - 2 * p) == a - a % (2 * p)
  {
    hide And;
    AndEven(a, 2 * q - 2 * p);
    assert (2 * q - 2 * p) / 2 == q - p;
    HalfMod(a, p);
  }

  lemma AndEven(a: nat, m: nat)
    requires m % 2 == 0
    ensures And(a, m) == 2 * And(a / 2, m / 2)
  {}

  /** `x + align - 1` rounded down to a multiple of `align`: balloc_align_up, slab_align_up. */
  function AlignUp(x: nat, align: nat): nat
    requires align > 0
  {
    x + align - 1 - (x + align - 1) % align
  }

  lemma AlignUpFacts(x: nat, align: nat)
    requires align > 0
    ensures x <= AlignUp(x, align) < x + align && AlignUp(x, align) % align == 0
  {
    var y := x + align - 1;
    assert y - y % align == align * (y / align);
    Multiple(align, y / align);
  }

  /** It is the least multiple of `align` at or above `x`. */
  lemma AlignUpLeast(x: nat, align: nat, a: nat)
    requires align > 0 && a % align == 0 && x <= a
    ensures AlignUp(x, align) <= a
  {
    AlignUpFacts(x, align);
    var b := AlignUp(x, align);
    hide AlignUp;
    if a < b { MultiplesApart(align, a, b); }
  }
}
