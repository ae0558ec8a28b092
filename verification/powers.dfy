/** Powers of two and the few division facts that the dyadic arithmetic of the DAG needs. */
module Powers {

  function Pow2(n: nat): (p: nat)
    ensures p >= 1
  {
    if n == 0 then 1 else 2 * Pow2(n - 1)
  }

  lemma {:induction false} Pow2Sum(a: nat, b: nat)
    ensures Pow2(a + b) == Pow2(a) * Pow2(b)
  {
    if a == 0 {
    } else {
      Pow2Sum(a - 1, b);
    }
  }

  lemma {:induction false} Pow2Grows(a: nat, b: nat)
    requires a < b
    ensures 2 * Pow2(a) <= Pow2(b)
  {
    if b == a + 1 {
    } else {
      Pow2Grows(a, b - 1);
    }
  }

  lemma ProductBounds(d: int, m: int)
    requires m > 0
    ensures d >= 1 ==> d * m >= m
    ensures d <= -1 ==> d * m <= -m
  {
    if d >= 1 {
      assert d * m == (d - 1) * m + m;
    }
    if d <= -1 {
      assert d * m == (d + 1) * m - m;
    }
  }

  lemma ProductMonotone(a: nat, b: nat, m: nat)
    requires a <= b
    ensures a * m <= b * m
  {
    assert b * m == a * m + (b - a) * m;
  }

  /** Quotient and remainder are determined by the equation they satisfy. */
  lemma DivModUnique(x: int, m: int, q: int, r: int)
    requires m > 0 && x == q * m + r && 0 <= r < m
    ensures x / m == q && x % m == r
  {
    var d := x / m - q;
    assert d * m == (x / m) * m - q * m == r - x % m;
    ProductBounds(d, m);
  }

  /** Division by a power of two, one factor at a time: the meaning of a right shift by a + b. */
  lemma {:induction false} DivDiv(x: nat, a: nat, b: nat)
    ensures x / Pow2(a + b) == x / Pow2(a) / Pow2(b)
  {
    SplitQuotient(x, Pow2(a), Pow2(b));
    Pow2Sum(a, b);
  }

  lemma SplitQuotient(x: nat, m: nat, n: nat)
    requires m > 0 && n > 0 && m * n > 0
    ensures x / (m * n) == x / m / n
  {
    var q, r := x / m, x % m;
    var q2, r2 := q / n, q % n;
    calc {
      x;
      q * m + r;
      (q2 * n + r2) * m + r;
      { assert (q2 * n + r2) * m == q2 * (m * n) + r2 * m; }
      q2 * (m * n) + (r2 * m + r);
    }
    ProductMonotone(r2 + 1, n, m);
    assert (r2 + 1) * m == r2 * m + m;
    DivModUnique(x, m * n, q2, r2 * m + r);
  }

  lemma DivBound(x: nat, a: nat, m: nat)
    requires m > 0 && x < a * m
    ensures 0 <= x / m < a
  {
    var q, r := x / m, x % m;
    assert x == q * m + r;
    if q >= a {
      ProductMonotone(a, q, m);
    }
    if q < 0 {
      ProductBounds(q, m);
    }
  }

  /** A start aligned to 2^h is aligned to 2^(h-1) as well, and so is the start of its upper half,
      which in turn is not aligned to 2^h. */
  lemma HalvesAligned(r: nat, h: nat)
    requires h >= 1 && r % Pow2(h) == 0
    ensures r % Pow2(h - 1) == 0
    ensures (r + Pow2(h - 1)) % Pow2(h - 1) == 0
    ensures (r + Pow2(h - 1)) % Pow2(h) == Pow2(h - 1)
  {
    var q, p := r / Pow2(h), Pow2(h - 1);
    assert r == q * (2 * p);
    assert q * (2 * p) == (2 * q) * p && (2 * q) * p + p == (2 * q + 1) * p;
    DivModUnique(r, p, 2 * q, 0);
    DivModUnique(r + p, p, 2 * q + 1, 0);
    DivModUnique(r + p, Pow2(h), q, p);
  }

  /** An aligned start below 2^n leaves room for the whole aligned interval. */
  lemma AlignedFits(r: nat, h: nat, n: nat)
    requires h <= n && r < Pow2(n) && r % Pow2(h) == 0
    ensures r + Pow2(h) <= Pow2(n)
  {
    Pow2Sum(n - h, h);
    MultiplesApart(r, Pow2(h), Pow2(n - h));
  }

  lemma MultiplesApart(r: nat, p: nat, m: nat)
    requires p > 0 && r % p == 0 && r < m * p
    ensures r + p <= m * p
  {
    var q := r / p;
    var d := q - m;
    assert r == q * p;
    assert d * p == q * p - m * p;
    ProductBounds(d, p);
    assert d <= -1;
  }

  /** For an aligned start, membership in the interval is equality of the shifted values. */
  lemma AlignedInterval(v: nat, r: nat, h: nat)
    requires r % Pow2(h) == 0
    ensures r <= v < r + Pow2(h) <==> v / Pow2(h) == r / Pow2(h)
  {
    var p := Pow2(h);
    var q := r / p;
    assert r == q * p;
    if r <= v < r + p {
      DivModUnique(v, p, q, v - r);
    }
    if v / p == q {
      assert v == q * p + v % p;
    }
  }
}
