/** Bitwise operations on unsigned numbers, bit by bit, and what they are in arithmetic. */
module Bits {

  function Pow2(k: nat): (p: nat)
    ensures p >= 1
  {
    if k == 0 then 1 else 2 * Pow2(k - 1)
  }

  function BitAnd(a: nat, b: nat): nat
    decreases a
  {
    if a == 0 then 0 else 2 * BitAnd(a / 2, b / 2) + if a % 2 == 1 && b % 2 == 1 then 1 else 0
  }

  function BitOr(a: nat, b: nat): nat
    decreases a + b
  {
    if a == 0 && b == 0 then 0 else 2 * BitOr(a / 2, b / 2) + if a % 2 == 1 || b % 2 == 1 then 1 else 0
  }

  function BitXor(a: nat, b: nat): nat
    decreases a + b
  {
    if a == 0 && b == 0 then 0 else 2 * BitXor(a / 2, b / 2) + if a % 2 != b % 2 then 1 else 0
  }

  /** Masking the low `k` bits takes the remainder. */
  lemma {:induction false} MaskIsMod(a: nat, k: nat)
    ensures BitAnd(a, Pow2(k) - 1) == a % Pow2(k)
    decreases k
  {
    if k == 0 {
      AndZero(a);
    } else {
      MaskIsMod(a / 2, k - 1);
      var p := Pow2(k - 1);
      assert (2 * p - 1) / 2 == p - 1 && (2 * p - 1) % 2 == 1;
      HalfMod(a, p);
    }
  }

  lemma {:induction false} AndZero(a: nat)
    ensures BitAnd(a, 0) == 0
    decreases a
  {
    if a > 0 {
      AndZero(a / 2);
    }
  }

  lemma HalfMod(a: nat, p: nat)
    requires p >= 1
    ensures a % (2 * p) == 2 * (a / 2 % p) + a % 2
  {
    var h := a / 2;
    var q, r := h / p, h % p;
    assert a == 2 * h + a % 2 && h == p * q + r;
    assert a == (2 * p) * q + (2 * r + a % 2) by { assert 2 * (p * q) == (2 * p) * q; }
    Remainder(a, 2 * p, q, 2 * r + a % 2);
  }

  lemma Remainder(v: nat, m: nat, k: nat, r: nat)
    requires m >= 1 && v == m * k + r && r < m
    ensures v % m == r && v / m == k
  {
    var q, rest := v / m, v % m;
    assert v == m * q + rest;
    if q > k {
      Scale(m, k + 1, q);
    } else if q < k {
      Scale(m, q + 1, k);
    }
  }

  lemma Scale(m: nat, a: int, b: int)
    requires a <= b
    ensures m * a <= m * b && m * a == m * (a - 1) + m
  {
  }

  lemma Small(v: nat, m: nat)
    requires v < m
    ensures v % m == v
  {
  }

  /** Or-ing numbers without a common bit adds them. */
  lemma {:induction false} DisjointOr(a: nat, k: nat, c: nat)
    requires a < Pow2(k)
    ensures BitOr(a, Pow2(k) * c) == a + Pow2(k) * c
    decreases k
  {
    if k == 0 {
      OrZero(c);
    } else {
      var p := Pow2(k - 1);
      DisjointOr(a / 2, k - 1, c);
      Doubled(p, c);
    }
  }

  lemma Doubled(p: nat, c: nat)
    ensures 2 * p * c == 2 * (p * c) && (2 * p * c) / 2 == p * c && (2 * p * c) % 2 == 0
  {
    assert 2 * p * c == 2 * (p * c);
  }

  lemma {:induction false} OrZero(c: nat)
    ensures BitOr(0, c) == c
    decreases c
  {
    if c > 0 {
      OrZero(c / 2);
    }
  }

  /** Xor with nothing keeps, xor with all ones complements. */
  lemma {:induction false} XorZero(a: nat)
    ensures BitXor(a, 0) == a
    decreases a
  {
    if a > 0 {
      XorZero(a / 2);
    }
  }

  lemma {:induction false} XorOnes(a: nat, k: nat)
    requires a < Pow2(k)
    ensures BitXor(a, Pow2(k) - 1) == Pow2(k) - 1 - a
    decreases k
  {
    if k > 0 {
      var p := Pow2(k - 1);
      XorOnes(a / 2, k - 1);
      assert (2 * p - 1) / 2 == p - 1 && (2 * p - 1) % 2 == 1;
    }
  }
}
