/** The few facts about division and sums that several models lean on. */
module Arithmetic {
  function Max(a: int, b: int): int { if a > b then a else b }

  function Min(a: int, b: int): int { if a < b then a else b }

  lemma Monotone(a: int, b: int, k: nat)
    requires a <= b
    ensures a * k <= b * k
  {
  }

  lemma Cancel(a: int, b: int, k: nat)
    requires a * k < b * k
    ensures a < b
  {
    if b <= a { Monotone(b, a, k); }
  }

  lemma Distribute(k: int, m: int)
    ensures m + k * m == (k + 1) * m
  {
  }

  /** Quotient and remainder are determined by a = k*q + r with 0 <= r < k. */
  lemma DivModUnique(a: int, k: nat, q: int, r: int)
    requires k > 0 && a == k * q + r && 0 <= r < k
    ensures a / k == q && a % k == r
  {
    var q', r' := a / k, a % k;
    assert a == k * q' + r';
    assert k * (q - q') == r' - r;
    if q > q' {
      Monotone(1, q - q', k);
      assert false;
    } else if q < q' {
      Monotone(1, q' - q, k);
      assert false;
    }
  }

  /** Taking one divisor away from a multiple leaves a multiple. */
  lemma DropMultiple(n: nat, k: nat)
    requires k > 0 && n % k == 0
    ensures n < k ==> n == 0
    ensures n >= k ==> (n - k) % k == 0 && (n - k) / k == n / k - 1
  {
    var q := n / k;
    assert n == k * q;
    assert k * (q - 1) == n - k;
    if n >= k {
      DivModUnique(n - k, k, q - 1, 0);
    } else if q > 0 {
      Monotone(1, q, k);
      assert false;
    }
  }

  lemma MultipleMod(q: nat, k: nat)
    requires k > 0
    ensures (k * q) % k == 0 && (k * q) / k == q
  {
    DivModUnique(k * q, k, q, 0);
  }

  /** Between a multiple and the next one there is no other. */
  lemma NextMultiple(start: nat, k: nat, n: nat)
    requires k > 0 && start % k == 0 && start <= n < start + k
    ensures n % k == 0 <==> n == start
  {
    DivModUnique(n, k, start / k, n - start);
  }

  function Sum(x: seq<real>): real {
    if x == [] then 0.0 else x[0] + Sum(x[1..])
  }
}
