/**
  Unsigned machine arithmetic used by the native shim, written on naturals.

  The bitwise operators are defined digit by digit, so that masking with a
  power of two minus one and packing two fields into one word are theorems
  here and not primitive facts.
*/
module Bits {

  function Pow2(k: nat): (p: nat)
    ensures p > 0
  {
    if k == 0 then 1 else 2 * Pow2(k - 1)
  }

  /** Bitwise "and" of two naturals. */
  function And(x: nat, y: nat): nat
    decreases x
  {
    if x == 0 then 0
    else 2 * And(x / 2, y / 2) + (if x % 2 == 1 && y % 2 == 1 then 1 else 0)
  }

  /** Bitwise "or" of two naturals. */
  function Or(x: nat, y: nat): nat
    decreases x + y
  {
    if x == 0 then y
    else if y == 0 then x
    else 2 * Or(x / 2, y / 2) + (if x % 2 == 1 || y % 2 == 1 then 1 else 0)
  }

  /** Left shift, before truncation to the word size. */
  function Shl(x: nat, k: nat): nat {
    x * Pow2(k)
  }

  lemma {:induction false} Pow2Adds(a: nat, b: nat)
    ensures Pow2(a + b) == Pow2(a) * Pow2(b)
  {
    if a > 0 {
      Pow2Adds(a - 1, b);
      assert Pow2(a + b) == 2 * Pow2(a - 1 + b);
    }
  }

  lemma {:induction false} Pow2Grows(a: nat, b: nat)
    requires a <= b
    ensures Pow2(a) <= Pow2(b)
  {
    if a < b {
      Pow2Grows(a, b - 1);
    }
  }

  /** Halving commutes with taking a remainder by an even modulus. */
  lemma HalfMod(x: nat, m: nat)
    requires m > 0
    ensures x % (2 * m) == 2 * ((x / 2) % m) + x % 2
  {
    var h := x / 2;
    var q, r := h / m, h % m;
    assert x == (2 * m) * q + (2 * r + x % 2) by {
      assert h == m * q + r;
      assert (2 * m) * q == 2 * (m * q);
    }
    RemainderUnique(x, 2 * m, q, 2 * r + x % 2);
  }

  lemma MultipleIsFar(m: int, d: int)
    requires m > 0
    ensures d >= 1 ==> m * d >= m
    ensures d <= -1 ==> m * d <= -m
  {
  }

  lemma RemainderUnique(x: int, m: int, q: int, r: int)
    requires m > 0 && 0 <= r < m && x == m * q + r
    ensures x % m == r && x / m == q
  {
    var d := x / m - q;
    assert x == m * (x / m) + x % m;
    assert m * d == r - x % m by {
      assert m * d == m * (x / m) - m * q;
    }
    MultipleIsFar(m, d);
  }

  /** Masking with `2^k - 1` keeps exactly the low `k` bits. */
  lemma {:induction false} MaskIsMod(x: nat, k: nat)
    ensures And(x, Pow2(k) - 1) == x % Pow2(k)
    decreases x
  {
    if x != 0 {
      if k == 0 {
        AndZero(x);
      } else {
        MaskIsMod(x / 2, k - 1);
        HalfMod(x, Pow2(k - 1));
        assert (Pow2(k) - 1) / 2 == Pow2(k - 1) - 1;
        assert (Pow2(k) - 1) % 2 == 1;
      }
    } else {
      assert 0 % Pow2(k) == 0 by { RemainderUnique(0, Pow2(k), 0, 0); }
    }
  }

  lemma {:induction false} AndZero(x: nat)
    ensures And(x, 0) == 0
  {
    if x != 0 {
      AndZero(x / 2);
    }
  }

  /** A field below `2^k` fits under a value shifted left by `k`. */
  lemma {:induction false} PackIsSum(high: nat, low: nat, k: nat)
    requires low < Pow2(k)
    ensures Or(Shl(high, k), low) == Shl(high, k) + low
    decreases k
  {
    if high == 0 {
      assert Shl(high, k) == 0;
    } else if low != 0 {
      assert k > 0;
      var half := Shl(high, k - 1);
      assert Shl(high, k) == 2 * half by {
        assert high * (2 * Pow2(k - 1)) == 2 * (high * Pow2(k - 1));
      }
      assert half > 0 by { assert high * Pow2(k - 1) >= 1; }
      PackIsSum(high, low / 2, k - 1);
      assert Or(2 * half, low) == 2 * Or(half, low / 2) + low % 2;
    }
  }
}
