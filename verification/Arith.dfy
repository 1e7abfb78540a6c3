/** The few facts about products the solver should not search for. */
module Arith {
  lemma MulMono(a: nat, b: nat, n: nat)
    requires a <= b
    ensures a * n <= b * n
  {
    assert (b - a) * n >= 0;
  }

  lemma MulStep(a: int, n: int)
    ensures (a + 1) * n == a * n + n
  {
  }

  lemma Distribute(n: nat, a: nat, b: nat)
    ensures n * (a + b) == n * a + n * b
  {
  }

  /** Fewer copies of something nonempty are fewer bytes. */
  lemma Shortfall(n: nat, q: nat, len: nat)
    requires q <= n && 0 < len
    ensures q * len <= n * len && (q * len == n * len <==> q == n)
  {
    MulMono(q, n, len);
    if q < n {
      MulMono(q + 1, n, len);
      MulStep(q, len);
    }
  }

  lemma DivMul(a: nat, n: nat)
    requires n > 0
    ensures a == (a / n) * n + a % n
  {
  }

  lemma ModOfMultiple(m: nat, n: nat)
    requires n > 0
    ensures (m * n) % n == 0
  {
    var q := (m * n) / n;
    DivMul(m * n, n);
    if q < m {
      MulMono(q + 1, m, n);
      MulStep(q, n);
    } else if m < q {
      MulMono(m + 1, q, n);
      MulStep(m, n);
    }
  }

  lemma ModSmall(c: nat, m: nat)
    requires m > 0
    ensures c % m <= c && c % m < m && (c < m ==> c % m == c)
  {
  }

  lemma NextFits(p: nat, q: nat, n: nat, limit: nat)
    requires p < q && q * n <= limit
    ensures p * n + n <= limit
  {
    MulMono(p + 1, q, n);
    MulStep(p, n);
  }

  lemma NextMod(c: nat, m: nat)
    requires m > 0
    ensures (c + 1) % m == if c % m + 1 == m then 0 else c % m + 1
  {
    DivMul(c, m);
    DivMul(c + 1, m);
    var q, q' := c / m, (c + 1) / m;
    if q' > q { MulMono(q + 1, q', m); MulStep(q, m); if q' > q + 1 { MulMono(q + 2, q', m); MulStep(q + 1, m); } }
    if q' < q { MulMono(q' + 1, q, m); MulStep(q', m); }
  }
}
