/** A few notions about numbers and sequences that several components share. */
module Common {

  function Min(a: nat, b: nat): nat { if a <= b then a else b }

  function Max(a: nat, b: nat): nat { if a >= b then a else b }

  ghost predicate NoRepeat<T>(s: seq<T>) {
    forall i, j | 0 <= i < j < |s| :: s[i] != s[j]
  }

  ghost predicate Rising(s: seq<nat>) {
    forall i, j | 0 <= i < j < |s| :: s[i] < s[j]
  }

  lemma MulMono(d: int, a: int, b: int)
    requires d >= 0
    ensures a <= b ==> d * a <= d * b
  {
  }

  lemma Quotient(n: int, d: int, k: int)
    requires d > 0 && k * d <= n < k * d + d
    ensures n / d == k
  {
    var r := n - k * d;
    assert n == k * d + r;
    QuotientUnique(n, d, k, n / d, n % d);
  }

  lemma QuotientUnique(n: int, d: int, k: int, q: int, r: int)
    requires d > 0 && n == d * q + r && 0 <= r < d && k * d <= n < k * d + d
    ensures q == k
  {
    MulMono(d, q, k - 1);
    MulMono(d, k + 1, q);
  }

  lemma Remainder(n: int, d: int, k: int, r: int)
    requires d > 0 && n == d * k + r && 0 <= r < d
    ensures n % d == r
  {
    QuotientUnique(n, d, k, n / d, n % d);
  }
}
