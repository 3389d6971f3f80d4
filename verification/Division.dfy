/** One step of integer division. */
module Division {

  lemma MultipleSize(k: int, d: int)
    requires 0 < d
    ensures k >= 1 ==> k * d >= d
    ensures k <= -1 ==> k * d <= -d
  {
  }

  lemma DivStep(n: nat, d: nat)
    requires 0 < d <= n
    ensures (n - d) / d == n / d - 1 && (n - d) % d == n % d
  {
    var q, r, q', r' := n / d, n % d, (n - d) / d, (n - d) % d;
    assert n == q * d + r && n - d == q' * d + r';
    assert (q - 1 - q') * d == q * d - d - q' * d == r' - r;
    MultipleSize(q - 1 - q', d);
  }
}
