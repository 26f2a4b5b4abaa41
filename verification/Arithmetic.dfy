/** Whole-number division and remainders, in the form in which the other models use them. */
module Arithmetic {
  import opened Common

  lemma MulMonotone(x: nat, y: nat, z: nat)
    requires x <= y
    ensures x * z <= y * z
  {
  }

  lemma QuotientUnique(n: nat, q: int, r: nat, m: nat)
    requires m > 0 && n == q * m + r && r < m
    ensures n / m == q
  {
    var q', r' := n / m, n % m;
    assert n == q' * m + r' && 0 <= r' < m;
    assert (q - q') * m == q * m - q' * m;
    if q > q' {
      MulMonotone(1, q - q', m);
    } else if q < q' {
      MulMonotone(1, q' - q, m);
    }
  }

  lemma ModUnique(n: nat, q: int, r: nat, m: nat)
    requires m > 0 && n == q * m + r && r < m
    ensures n % m == r
  {
    QuotientUnique(n, q, r, m);
    assert n == (n / m) * m + n % m;
  }

  /** a / b rounded up, by repeated subtraction. */
  function DivCeil(a: nat, b: nat): (r: nat)
    requires b > 0
    ensures r <= a && (a > 0 ==> r > 0)
  {
    if a <= b then Min(a, 1) else 1 + DivCeil(a - b, b)
  }

  lemma {:induction false} DivCeilIs(a: nat, b: nat)
    requires b > 0
    ensures DivCeil(a, b) == (a + b - 1) / b
  {
    if a > b {
      DivCeilIs(a - b, b);
      var q, r := (a - 1) / b, (a - 1) % b;
      assert a + b - 1 == (q + 1) * b + r;
      QuotientUnique(a + b - 1, q + 1, r, b);
    } else if a > 0 {
      QuotientUnique(a + b - 1, 1, a - 1, b);
    } else {
      QuotientUnique(b - 1, 0, b - 1, b);
    }
  }

  /**
   * n % m, by repeated subtraction. Proofs about batches recurse with it; what
   * they establish is stated with %, and RestIsMod leads from one to the other.
   */
  function Rest(n: nat, m: nat): (r: nat)
    requires m > 0
    ensures r < m
  {
    if n < m then n else Rest(n - m, m)
  }

  lemma {:induction false} RestIsMod(n: nat, m: nat)
    requires m > 0
    ensures Rest(n, m) == n % m
  {
    if n >= m {
      RestIsMod(n - m, m);
      var q, r := (n - m) / m, (n - m) % m;
      assert n == (q + 1) * m + r;
      ModUnique(n, q + 1, r, m);
    } else {
      ModUnique(n, 0, n, m);
    }
  }

  lemma {:induction false} RestNext(n: nat, m: nat)
    requires m > 0
    ensures Rest(n + 1, m) == if Rest(n, m) + 1 == m then 0 else Rest(n, m) + 1
  {
    if n >= m {
      RestNext(n - m, m);
    }
  }

  lemma {:induction false} RestOne(n: nat, m: nat)
    requires m > 0
    ensures m == 1 ==> Rest(n, m) == 0
  {
  }

  /** n / m, by repeated subtraction. */
  function Wholes(n: nat, m: nat): nat
    requires m > 0
  {
    if n < m then 0 else 1 + Wholes(n - m, m)
  }

  lemma {:induction false} WholesTimes(n: nat, m: nat)
    requires m > 0
    ensures n == Wholes(n, m) * m + Rest(n, m)
  {
    if n >= m {
      WholesTimes(n - m, m);
      assert (1 + Wholes(n - m, m)) * m == m + Wholes(n - m, m) * m;
    }
  }

  lemma {:induction false} WholePart(k: nat, m: nat)
    requires m > 0
    ensures Rest(k * m, m) == 0 && Wholes(k * m, m) == k
  {
    if k > 0 {
      assert k * m == m + (k - 1) * m;
      WholePart(k - 1, m);
    }
  }
}
