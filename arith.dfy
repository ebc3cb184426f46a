/** Facts about integer multiplication and Euclidean division, kept in small
    lemmas so that each proof that uses them stays cheap. */
module Arithmetic {

  /** Division and remainder are determined by any decomposition
      v == k * m + r with 0 <= r < m. */
  lemma ModUnique(v: int, m: int, k: int, r: int)
    requires m > 0 && v == k * m + r && 0 <= r < m
    ensures v % m == r && v / m == k
  {
    var k', r' := v / m, v % m;
    assert (k - k') * m == r' - r;
    ProductBound(k - k', m);
  }

  /** A value below the modulus is its own remainder. */
  lemma ModOfSmall(v: int, m: int)
    requires 0 <= v < m
    ensures v % m == v && v / m == 0
  {
    ModUnique(v, m, 0, v);
  }

  /** The remainder of a natural number is at most the number itself. */
  lemma ModAtMost(v: int, m: int)
    requires v >= 0 && m > 0
    ensures 0 <= v % m <= v
  {
    if v < m {
      ModOfSmall(v, m);
    }
  }

  /** A positive modulus leaves no remainder on itself. */
  lemma ModSelf(m: int)
    requires m > 0
    ensures m % m == 0 && m / m == 1
  {
    ModUnique(m, m, 1, 0);
  }

  lemma ProductBound(d: int, m: int)
    requires m > 0 && -m < d * m < m
    ensures d == 0
  {
    MulGrows(d, m);
    MulGrows(-d, m);
  }

  lemma {:induction false} MulGrows(d: int, m: int)
    ensures d >= 1 && m >= 0 ==> d * m >= m
  {
    if d > 1 && m >= 0 {
      MulGrows(d - 1, m);
      assert d * m == (d - 1) * m + m;
    }
  }

  lemma MulMonotone(a: int, b: int, h: int)
    ensures a <= b && h >= 0 ==> a * h <= b * h
  {
    assert b * h - a * h == (b - a) * h;
    MulNonNegative(b - a, h);
  }

  lemma MulNonNegative(x: int, y: int)
    ensures x >= 0 && y >= 0 ==> x * y >= 0
  {
  }

  /** v < q * h implies v / h < q. */
  lemma QuotientBelow(v: nat, h: nat, q: nat)
    requires h >= 1 && v < q * h
    ensures v / h < q
  {
    assert v / h * h <= v;
    MulMonotone(q, v / h, h);
  }

  /** Rounding v down to a multiple of h, when v < m * h: the multiple is at
      most (m - 1) * h and has the same quotient as v. */
  lemma FloorMultiple(v: nat, h: nat, m: nat)
    requires h >= 1 && v < m * h
    ensures v - v % h + h <= m * h
    ensures (v - v % h) % h == 0 && (v - v % h) / h == v / h
  {
    QuotientBelow(v, h, m);
    MulMonotone(v / h + 1, m, h);
    ModUnique(v - v % h, h, v / h, 0);
  }

  lemma DivModIdentity(v: int, m: int)
    requires m > 0
    ensures v == v / m * m + v % m
  {
  }

  /** Inside the block of h values that starts at a multiple n of h, the
      quotient stays that of n and the remainder is the offset. */
  lemma OffsetInBlock(n: int, h: int, k: int)
    requires h > 0 && n % h == 0 && 0 <= k < h
    ensures (n + k) / h == n / h && (n + k) % h == k
  {
    DivModIdentity(n, h);
    ModUnique(n + k, h, n / h, k);
  }

  /** One block further, the quotient goes up by one. */
  lemma NextBlock(n: int, h: int)
    requires h > 0 && n % h == 0
    ensures (n + h) / h == n / h + 1
  {
    DivModIdentity(n, h);
    ModUnique(n + h, h, n / h + 1, 0);
  }

  /** A value with the quotient of the multiple n lies in n's block. */
  lemma SameQuotient(n: int, h: int, v: int)
    requires h > 0 && n % h == 0
    ensures v / h == n / h ==> n <= v < n + h
  {
    DivModIdentity(n, h);
    DivModIdentity(v, h);
  }
}
