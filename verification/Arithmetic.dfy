/** Divisibility facts used where the sources rely on static assertions.

    Widths are parameters here, so % would be nonlinear.  Rem and Multiple are the
    same notions written as repeated subtraction; RemIsMod and MultipleIsMod say so.
  */
module Arithmetic {
  function Rem(k: nat, n: nat): (r: nat)
    requires n > 0
    ensures r < n && r <= k
    ensures k < n ==> r == k
  {
    if k < n then k else Rem(k - n, n)
  }

  predicate Multiple(k: nat, n: nat)
    requires n > 0
  {
    k == 0 || (k >= n && Multiple(k - n, n))
  }

  lemma MultipleAdd(a: nat, b: nat, n: nat)
    requires n > 0 && Multiple(a, n)
    ensures Multiple(a + b, n) <==> Multiple(b, n)
  {
    if a > 0 { MultipleAdd(a - n, b, n); }
  }

  lemma RemAdd(a: nat, b: nat, n: nat)
    requires n > 0 && Multiple(a, n)
    ensures Rem(a + b, n) == Rem(b, n)
  {
    if a > 0 { RemAdd(a - n, b, n); }
  }

  /** Rounding down leaves a multiple. */
  lemma RemBase(k: nat, n: nat)
    requires n > 0
    ensures Multiple(k - Rem(k, n), n)
  {
    if k >= n {
      RemBase(k - n, n);
    }
  }

  /** A divisor of a divisor is a divisor. */
  lemma MultipleTransitive(x: nat, m: nat, n: nat)
    requires n > 0 && m > 0 && Multiple(x, m) && Multiple(m, n)
    ensures Multiple(x, n)
  {
    if x > 0 {
      MultipleTransitive(x - m, m, n);
      MultipleAdd(m, x - m, n);
    }
  }

  /** Multiples of n that lie below a multiple of n leave room for n more. */
  lemma MultipleRoom(k: nat, a: nat, n: nat)
    requires n > 0 && Multiple(k, n) && Multiple(a, n) && k < a
    ensures k + n <= a && Multiple(k + n, n)
  {
    if k > 0 { MultipleRoom(k - n, a - n, n); }
  }

  /** k / n, counted. */
  function Quot(k: nat, n: nat): nat
    requires n > 0
  {
    if k < n then 0 else 1 + Quot(k - n, n)
  }

  /** q * n, counted. */
  function Times(q: nat, n: nat): nat {
    if q == 0 then 0 else n + Times(q - 1, n)
  }

  lemma TimesOne(n: nat)
    ensures Times(1, n) == n && Times(0, n) == 0
  {
  }

  lemma TimesSum(p: nat, q: nat, n: nat)
    ensures Times(p + q, n) == Times(p, n) + Times(q, n)
  {
    if p > 0 { TimesSum(p - 1, q, n); }
  }

  lemma TimesIsMul(q: nat, n: nat)
    ensures Times(q, n) == n * q
  {
    if q > 0 {
      TimesIsMul(q - 1, n);
      assert n * q == n * (q - 1) + n;
    }
  }

  lemma QuotStep(k: nat, n: nat)
    requires n > 0
    ensures Quot(k, n) == if k < n then 0 else 1 + Quot(k - n, n)
  {
  }

  lemma QuotTimes(k: nat, n: nat)
    requires n > 0
    ensures Times(Quot(k, n), n) == k - Rem(k, n)
  {
  }

  lemma QuotOfTimes(q: nat, n: nat)
    requires n > 0
    ensures Quot(Times(q, n), n) == q
  {
  }

  lemma TimesMonotone(p: nat, q: nat, n: nat)
    requires n > 0
    ensures p <= q <==> Times(p, n) <= Times(q, n)
  {
    if p > 0 && q > 0 { TimesMonotone(p - 1, q - 1, n); }
  }

  lemma TimesInjective(p: nat, q: nat, n: nat)
    requires n > 0 && Times(p, n) == Times(q, n)
    ensures p == q
  {
    TimesMonotone(p, q, n);
    TimesMonotone(q, p, n);
  }

  lemma MultipleMul(q: nat, n: nat)
    requires n > 0
    ensures 0 <= n * q && Multiple(n * q, n)
  {
    if q > 0 {
      MultipleMul(q - 1, n);
      assert n * q - n == n * (q - 1);
    }
  }

  lemma RemIsMod(k: nat, n: nat)
    requires n > 0
    ensures Rem(k, n) == k % n
  {
    if k >= n {
      RemIsMod(k - n, n);
      var q := (k - n) / n;
      assert k == n * (q + 1) + (k - n) % n;
      DivModUnique(k, n, q + 1, (k - n) % n);
    } else {
      DivModUnique(k, n, 0, k);
    }
  }

  lemma QuotIsDiv(k: nat, n: nat)
    requires n > 0
    ensures Quot(k, n) == k / n
  {
    QuotTimes(k, n);
    TimesIsMul(Quot(k, n), n);
    DivModUnique(k, n, Quot(k, n), Rem(k, n));
  }

  lemma MultipleIsMod(k: nat, n: nat)
    requires n > 0
    ensures Multiple(k, n) <==> k % n == 0
  {
    RemIsMod(k, n);
    MultipleIffRem(k, n);
  }

  lemma MultipleIffRem(k: nat, n: nat)
    requires n > 0
    ensures Multiple(k, n) <==> Rem(k, n) == 0
  {
  }

  lemma MulLe(n: int, a: int, b: int)
    requires n >= 0 && a <= b
    ensures n * a <= n * b
  {
  }

  lemma DivModUnique(x: int, n: int, q: int, r: int)
    requires n > 0 && 0 <= r < n && x == n * q + r
    ensures x / n == q && x % n == r
  {
    var d := x / n - q;
    assert n * d == r - x % n;
    if d >= 1 {
      MulLe(n, 1, d);
    } else if d <= -1 {
      MulLe(n, d, -1);
    }
  }

  lemma MultipleOfOne(n: nat)
    ensures Multiple(n, 1)
  {
  }

  // ---- Powers of two

  function Pow2(n: nat): (p: nat)
    ensures p > 0
  {
    if n == 0 then 1 else 2 * Pow2(n - 1)
  }

  lemma {:induction false} PowAtLeast(a: nat, b: nat)
    requires a <= b
    ensures Pow2(a) <= Pow2(b)
  {
    if a < b { PowAtLeast(a, b - 1); }
  }

  lemma {:induction false} PowMultiple(m: nat, n: nat)
    requires n <= m
    ensures Multiple(Pow2(m), Pow2(n)) && Pow2(n) <= Pow2(m)
    decreases m - n
  {
    if n == m {
      MultipleAdd(Pow2(m), 0, Pow2(m));
    } else {
      PowMultiple(m - 1, n);
      MultipleAdd(Pow2(m - 1), Pow2(m - 1), Pow2(n));
    }
  }

  lemma {:induction false} PowSum(a: nat, b: nat)
    ensures Pow2(a + b) == Pow2(a) * Pow2(b)
  {
    if a > 0 {
      PowSum(a - 1, b);
      MulDouble(Pow2(a - 1), Pow2(b));
    }
  }

  lemma MulDouble(x: nat, y: nat)
    ensures (2 * x) * y == 2 * (x * y)
  {
  }
}
