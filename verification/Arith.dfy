/** Facts about multiplication, division and remainder by a symbolic divisor. */
module Arith {

  lemma MulMono(a: int, b: int, d: nat)
    ensures a <= b ==> a * d <= b * d
  {
    if a <= b { assert (b - a) * d >= 0; }
  }

  lemma DivModUnique(n: int, d: int, q: int, r: int)
    requires 0 < d && n == q * d + r && 0 <= r < d
    ensures n / d == q && n % d == r
  {
    var q', r' := n / d, n % d;
    assert n == q' * d + r';
    MulMono(q' + 1, q, d);
    MulMono(q + 1, q', d);
    assert (q' + 1) * d == q' * d + d && (q + 1) * d == q * d + d;
  }

  function Times(n: nat, b: nat): nat { n * b }

  lemma TimesSucc(n: nat, b: nat)
    ensures Times(n + 1, b) == Times(n, b) + b && Times(0, b) == 0
  {
  }

  lemma TimesMono(n: nat, m: nat, b: nat, c: nat)
    requires n <= m && b <= c
    ensures Times(n, b) <= Times(m, c)
  {
    MulMono(n, m, b);
    MulMono(b, c, m);
  }

  lemma MulMod(q: int, d: int)
    requires 0 < d
    ensures (q * d) % d == 0 && (q * d) / d == q
  {
    DivModUnique(q * d, d, q, 0);
  }

  /** Fewer than d apart, so different remainders. */
  lemma ModDistinct(i: int, j: int, d: nat)
    requires 0 < d && i < j < i + d
    ensures i % d != j % d
  {
    assert i == (i / d) * d + i % d && j == (j / d) * d + j % d;
    MulMono(i / d + 1, j / d, d);
    MulMono(j / d, i / d, d);
    assert (i / d + 1) * d == (i / d) * d + d;
  }

  lemma ModSmall(n: nat, d: nat)
    requires n < d
    ensures n % d == n && n / d == 0
  {
    DivModUnique(n, d, 0, n);
  }

  // ---- wrapped counters ----

  /** The remainder of a counter by d, counted down lap by lap. */
  function Index(n: nat, d: nat): (r: nat)
    requires 0 < d
    ensures r < d
    decreases n
  {
    if n < d then n else Index(n - d, d)
  }

  lemma {:induction false} IndexIsMod(n: nat, d: nat)
    requires 0 < d
    ensures Index(n, d) == n % d
    decreases n
  {
    var q, r := n / d, n % d;
    if n < d {
      ModSmall(n, d);
    } else {
      IndexIsMod(n - d, d);
      var m := n - d;
      assert m == (m / d) * d + m % d && (m / d + 1) * d == (m / d) * d + d;
      DivModUnique(n, d, m / d + 1, m % d);
    }
  }

  /** Stepping a counter. */
  lemma {:induction false} IndexSucc(n: nat, d: nat)
    requires 0 < d
    ensures Index(n + 1, d) == if Index(n, d) + 1 == d then 0 else Index(n, d) + 1
    decreases n
  {
    if n >= d { IndexSucc(n - d, d); }
  }

  lemma {:induction false} IndexAdd(n: nat, k: nat, d: nat)
    requires 0 < d
    ensures Index(Index(n, d) + k, d) == Index(n + k, d)
    decreases n
  {
    if n >= d { IndexAdd(n - d, k, d); }
  }

  /** Counters less than a lap apart share an index only if they are equal. */
  lemma {:induction false} IndexDistinct(i: nat, j: nat, d: nat)
    requires 0 < d && i < j < i + d
    ensures Index(i, d) != Index(j, d)
    decreases i
  {
    if i >= d { IndexDistinct(i - d, j - d, d); }
  }

  /** Subtraction of wrapped values in d-valued unsigned arithmetic. */
  function Sub(a: nat, b: nat, d: nat): nat {
    if b <= a then a - b else if b <= a + d then a + d - b else 0
  }

  /** The wrapped difference of two counters is their true difference while that fits. */
  lemma SubExact(a: nat, b: nat, d: nat)
    requires b <= a < b + d
    ensures Sub(Index(a, d), Index(b, d), d) == a - b
  {
    IndexAdd(b, a - b, d);
  }
}
