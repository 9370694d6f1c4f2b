/** Facts about quotients and remainders by a variable divisor, kept away from everything else. */
module Arith {

  lemma MulMono(i: nat, j: nat, f: nat)
    requires i <= j
    ensures i * f <= j * f
  {
  }

  lemma MulStep(i: nat, f: nat)
    ensures (i + 1) * f == i * f + f
  {
  }

  lemma SplitUnique(q: nat, r: nat, k: nat, m: nat, f: nat)
    requires r < f && m < f && q * f + r == k * f + m
    ensures q == k && r == m
  {
    if q < k {
      MulMono(q + 1, k, f);
      MulStep(q, f);
    } else if k < q {
      MulMono(k + 1, q, f);
      MulStep(k, f);
    }
  }

  lemma DivModUnique(q: nat, r: nat, f: nat)
    requires r < f
    ensures (q * f + r) / f == q && (q * f + r) % f == r
  {
    var x := q * f + r;
    SplitUnique(q, r, x / f, x % f, f);
  }

  lemma QuotientIff(x: nat, q: nat, d: nat)
    requires d > 0
    ensures x / d == q <==> q * d <= x < q * d + d
  {
    if q * d <= x < q * d + d { DivModUnique(q, x - q * d, d); }
  }

  /** Quotients rounded up, one divisor at a time. */
  lemma CeilingSmall(n: nat, m: nat)
    requires 0 < m && n <= m
    ensures (n + m - 1) / m == if n == 0 then 0 else 1
  {
    if n == 0 { DivModUnique(0, m - 1, m); } else { DivModUnique(1, n - 1, m); }
  }

  lemma CeilingStep(n: nat, m: nat)
    requires 0 < m < n
    ensures (n + m - 1) / m == 1 + (n - 1) / m
  {
    MulStep((n - 1) / m, m);
    DivModUnique((n - 1) / m + 1, (n - 1) % m, m);
  }
}
