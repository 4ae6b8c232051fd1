/** Bitwise "and" on natural numbers, and what masks of powers of two compute. */
module Bits {

  function Pow2(k: nat): (p: nat)
    ensures p >= 1
  {
    if k == 0 then 1 else 2 * Pow2(k - 1)
  }

  ghost predicate IsPow2(n: nat) {
    exists k: nat :: n == Pow2(k)
  }

  function And(x: nat, y: nat): (r: nat)
  {
    if x == 0 || y == 0 then 0
    else (if x % 2 == 1 && y % 2 == 1 then 1 else 0) + 2 * And(x / 2, y / 2)
  }

  lemma ModDouble(x: nat, p: nat)
    requires p > 0
    ensures x % (2 * p) == 2 * ((x / 2) % p) + x % 2
  {
    var q, r := (x / 2) / p, (x / 2) % p;
    assert x / 2 == q * p + r;
    var m := 2 * r + x % 2;
    assert x == q * (2 * p) + m by {
      assert q * (2 * p) == 2 * (q * p);
    }
    ModUnique(x, 2 * p, q, m);
  }

  lemma ModUnique(x: int, n: int, q: int, m: int)
    requires n > 0 && x == q * n + m && 0 <= m < n
    ensures x % n == m && x / n == q
  {
    var d := x / n - q;
    assert x == n * (x / n) + x % n;
    assert n * d == m - x % n by {
      assert n * d == n * (x / n) - n * q;
      assert n * q == q * n;
    }
    if d >= 1 {
      MulGrows(n, d);
    } else if d <= -1 {
      MulGrows(n, -d);
    }
  }

  lemma MulGrows(n: int, d: int)
    requires n > 0 && d >= 1
    ensures n * d >= n && n * -d <= -n
  {
  }

  /** `x & (2^k - 1)` is the remainder: the probe and the wheel's slot arithmetic. */
  lemma {:induction false} MaskIsMod(x: nat, k: nat)
    ensures And(x, Pow2(k) - 1) == x % Pow2(k)
  {
    if k > 0 {
      var p := Pow2(k - 1);
      MaskIsMod(x / 2, k - 1);
      ModDouble(x, p);
      assert (2 * p - 1) / 2 == p - 1 && (2 * p - 1) % 2 == 1;
      if p == 1 {
        assert And(x / 2, 0) == 0;
      }
    }
  }

  lemma AndDoubled(x: nat, y: nat)
    ensures And(x, 2 * y) == 2 * And(x / 2, y)
  {
    if x > 0 && y > 0 {
      assert (2 * y) / 2 == y && (2 * y) % 2 == 0;
    }
  }

  /** `x & ~(2^k - 1)` in `m` bits rounds down to a multiple of 2^k. */
  lemma {:induction false} HighMaskRoundsDown(x: nat, m: nat, k: nat)
    requires k <= m && x < Pow2(m)
    ensures Pow2(k) <= Pow2(m)
    ensures And(x, Pow2(m) - Pow2(k)) == x - x % Pow2(k)
  {
    hide And;
    Pow2Grows(k, m);
    if k == 0 {
      MaskIsMod(x, m);
      ModUnique(x, Pow2(m), 0, x);
    } else {
      var p, q := Pow2(k - 1), Pow2(m - 1);
      Pow2Grows(k - 1, m - 1);
      HighMaskRoundsDown(x / 2, m - 1, k - 1);
      ModDouble(x, p);
      AndDoubled(x, q - p);
    }
  }

  lemma {:induction false} Pow2Grows(a: nat, b: nat)
    requires a <= b
    ensures Pow2(a) <= Pow2(b)
  {
    if a < b {
      Pow2Grows(a, b - 1);
    }
  }
}
