/**
 Bitwise operators of C on unsigned integers, defined bit by bit on `nat`, and the
 arithmetic they amount to when one operand is a mask of low bits.
 */
module Bits {

  function Pow2(k: nat): (p: nat)
    ensures p >= 1
  {
    if k == 0 then 1 else 2 * Pow2(k - 1)
  }

  /** `x & y` */
  function And(x: nat, y: nat): nat
  {
    if x == 0 || y == 0 then 0
    else 2 * And(x / 2, y / 2) + (if x % 2 == 1 && y % 2 == 1 then 1 else 0)
  }

  /** `x | y` */
  function Or(x: nat, y: nat): nat
  {
    if x == 0 then y
    else if y == 0 then x
    else 2 * Or(x / 2, y / 2) + (if x % 2 == 1 || y % 2 == 1 then 1 else 0)
  }

  /** `x >> k` */
  function Shr(x: nat, k: nat): nat
  {
    if k == 0 then x else Shr(x / 2, k - 1)
  }

  lemma {:induction false} ShrIsDiv(x: nat, k: nat)
    ensures Shr(x, k) == x / Pow2(k)
  {
    if k > 0 {
      ShrIsDiv(x / 2, k - 1);
      HalveQuotient(x, Pow2(k - 1));
    }
  }

  lemma MulAtLeast(e: int, d: int)
    requires d > 0
    ensures e >= 1 ==> e * d >= d
    ensures e <= -1 ==> e * d <= -d
  {
  }

  lemma DivUnique(x: int, d: int, q: int, r: int)
    requires d > 0 && 0 <= r < d && x == q * d + r
    ensures x / d == q && x % d == r
  {
    var e := x / d - q;
    assert e * d == (x / d) * d - q * d;
    MulAtLeast(e, d);
  }

  lemma HalveQuotient(x: nat, p: nat)
    requires p >= 1
    ensures x / (2 * p) == (x / 2) / p
    ensures x % (2 * p) == 2 * ((x / 2) % p) + x % 2
  {
    var h, b := x / 2, x % 2;
    var q, r := h / p, h % p;
    assert h == q * p + r;
    assert q * (2 * p) == 2 * (q * p);
    DivUnique(x, 2 * p, q, 2 * r + b);
  }

  lemma {:induction false} AndLowMask(x: nat, k: nat)
    ensures And(x, Pow2(k) - 1) == x % Pow2(k)
  {
    if k > 0 {
      AndLowMask(x / 2, k - 1);
      HalveQuotient(x, Pow2(k - 1));
      AndUnfoldOdd(x, Pow2(k - 1));
    }
  }

  lemma AndUnfoldOdd(x: nat, p: nat)
    requires p >= 1
    ensures And(x, 2 * p - 1) == 2 * And(x / 2, p - 1) + x % 2
  {
    assert (2 * p - 1) / 2 == p - 1 && (2 * p - 1) % 2 == 1;
  }

  lemma {:induction false} OrAndSum(x: nat, y: nat)
    ensures Or(x, y) + And(x, y) == x + y
  {
    if x != 0 && y != 0 {
      OrAndSum(x / 2, y / 2);
    }
  }

  lemma OrLowMask(x: nat, k: nat)
    ensures Or(x, Pow2(k) - 1) == x - x % Pow2(k) + Pow2(k) - 1
  {
    OrAndSum(x, Pow2(k) - 1);
    AndLowMask(x, k);
  }

  /** Two numbers agree once their low `k` bits are set exactly when their quotients agree. */
  lemma OrMaskSameQuotient(x: nat, y: nat, k: nat)
    ensures Or(x, Pow2(k) - 1) == Or(y, Pow2(k) - 1) <==> x / Pow2(k) == y / Pow2(k)
  {
    OrLowMask(x, k);
    OrLowMask(y, k);
    SameFloor(x, y, Pow2(k));
  }

  lemma SameFloor(x: nat, y: nat, p: nat)
    requires p >= 1
    ensures x - x % p == y - y % p <==> x / p == y / p
  {
    var e := x / p - y / p;
    assert x - x % p == (x / p) * p && y - y % p == (y / p) * p;
    assert e * p == (x / p) * p - (y / p) * p;
    MulAtLeast(e, p);
  }

  /** `x & ~(2^k - 1)` on a `w`-bit word clears the low `k` bits. */
  lemma {:induction false} AndHighMask(x: nat, k: nat, w: nat)
    requires k <= w && x < Pow2(w)
    ensures Pow2(k) <= Pow2(w)
    ensures And(x, Pow2(w) - Pow2(k)) == x - x % Pow2(k)
    decreases w
  {
    if k == 0 {
      AndLowMask(x, w);
      DivUnique(x, Pow2(w), 0, x);
    } else {
      AndHighMask(x / 2, k - 1, w - 1);
      HalveQuotient(x, Pow2(k - 1));
      AndUnfold(x, Pow2(w - 1) - Pow2(k - 1));
    }
  }

  lemma AndUnfold(x: nat, m: nat)
    ensures And(x, 2 * m) == 2 * And(x / 2, m)
  {
  }

  lemma {:induction false} Pow2Mono(j: nat, k: nat)
    requires j <= k
    ensures Pow2(j) <= Pow2(k)
  {
    if j < k {
      Pow2Mono(j, k - 1);
    }
  }

  lemma {:induction false} Pow2Add(j: nat, k: nat)
    ensures Pow2(j + k) == Pow2(j) * Pow2(k)
  {
    if j > 0 {
      Pow2Add(j - 1, k);
    }
  }
}
