/** How often each residue occurs among consecutive numbers: the arithmetic behind
    round-robin fairness and balanced partition assignment. */
module Counting {

  /** How many `i` with `a <= i < a + n` leave remainder `j` modulo `k`. */
  function CountMod(a: nat, n: nat, k: nat, j: nat): nat
    requires k > 0
  {
    if n == 0 then 0
    else CountMod(a, n - 1, k, j) + if (a + n - 1) % k == j then 1 else 0
  }

  /** The count below `n`, in closed form. */
  function Below(n: nat, k: nat, j: nat): nat
    requires k > 0
  {
    n / k + if j < n % k then 1 else 0
  }

  lemma DivModUnique(n: nat, k: nat, q: nat, r: nat)
    requires k > 0 && n == q * k + r && r < k
    ensures n / k == q && n % k == r
  {
    assert n == (n / k) * k + n % k;
    var x := n / k - q;
    assert x * k == r - n % k;
    MulBounds(x, k);
  }

  lemma MulBounds(x: int, k: int)
    requires k >= 0
    ensures x >= 1 ==> x * k >= k
    ensures x <= -1 ==> x * k <= -k
  {
  }

  lemma NextDivMod(n: nat, k: nat)
    requires k > 0
    ensures n % k == k - 1 ==> (n + 1) / k == n / k + 1 && (n + 1) % k == 0
    ensures n % k < k - 1 ==> (n + 1) / k == n / k && (n + 1) % k == n % k + 1
  {
    NextParts(n, k, n / k, n % k);
  }

  lemma NextParts(n: nat, k: nat, q: nat, r: nat)
    requires k > 0 && n == q * k + r && r < k
    ensures r == k - 1 ==> (n + 1) / k == q + 1 && (n + 1) % k == 0
    ensures r < k - 1 ==> (n + 1) / k == q && (n + 1) % k == r + 1
  {
    if r == k - 1 {
      Distribute(q, 0, 1, k);
      DivModUnique(n + 1, k, q + 1, 0);
    } else {
      DivModUnique(n + 1, k, q, r + 1);
    }
  }

  lemma {:induction false} CountIsDifference(a: nat, n: nat, k: nat, j: nat)
    requires k > 0 && j < k
    ensures CountMod(a, n, k, j) == Below(a + n, k, j) - Below(a, k, j)
  {
    if n > 0 {
      CountIsDifference(a, n - 1, k, j);
      NextDivMod(a + n - 1, k);
    }
  }

  lemma SumDivMod(a: nat, n: nat, k: nat)
    requires k > 0
    ensures a % k + n % k < k ==> (a + n) / k == a / k + n / k && (a + n) % k == a % k + n % k
    ensures a % k + n % k >= k ==> (a + n) / k == a / k + n / k + 1 && (a + n) % k == a % k + n % k - k
  {
    SumParts(a, n, k, a / k, n / k, a % k, n % k);
  }

  lemma SumParts(a: nat, n: nat, k: nat, p: nat, q: nat, r: nat, s: nat)
    requires k > 0 && a == p * k + r && n == q * k + s && r < k && s < k
    ensures r + s < k ==> (a + n) / k == p + q && (a + n) % k == r + s
    ensures r + s >= k ==> (a + n) / k == p + q + 1 && (a + n) % k == r + s - k
  {
    Distribute(p, q, 0, k);
    Distribute(p, q, 1, k);
    if r + s < k {
      DivModUnique(a + n, k, p + q, r + s);
    } else {
      DivModUnique(a + n, k, p + q + 1, r + s - k);
    }
  }

  lemma Distribute(p: int, q: int, c: int, k: int)
    ensures (p + q + c) * k == p * k + q * k + c * k
  {
  }

  /** Every residue occurs floor(n/k) or ceil(n/k) times among any n consecutive numbers. */
  lemma CountIsBalanced(a: nat, n: nat, k: nat, j: nat)
    requires k > 0 && j < k
    ensures n / k <= CountMod(a, n, k, j) <= n / k + (if n % k == 0 then 0 else 1)
  {
    CountIsDifference(a, n, k, j);
    SumDivMod(a, n, k);
  }
}
