/** Division that rounds up. */
module Arithmetic {

  function CeilDiv(n: nat, d: nat): nat
    requires d >= 1
  {
    (n + d - 1) / d
  }

  lemma ProductStep(p: nat, q: nat, d: nat)
    requires p < q
    ensures p * d + d <= q * d
  {
    assert q * d == p * d + d + (q - p - 1) * d;
  }

  lemma ProductMonotone(a: nat, b: nat, d: nat)
    requires a <= b
    ensures a * d <= b * d
  {
  }

  /** The quotient is the one number with these bounds. */
  lemma CeilDivIs(n: nat, d: nat, q: nat)
    requires d >= 1 && q * d < n + d <= q * d + d
    ensures CeilDiv(n, d) == q
  {
    var p := CeilDiv(n, d);
    assert p * d <= n + d - 1 < p * d + d;
    if p < q {
      ProductStep(p, q, d);
    } else if p > q {
      ProductStep(q, p, d);
    }
  }

  lemma CeilDivBounds(n: nat, d: nat) returns (q: nat)
    requires d >= 1
    ensures q == CeilDiv(n, d) && q * d < n + d <= q * d + d
  {
    q := CeilDiv(n, d);
  }

  lemma CeilDivStep(n: nat, d: nat)
    requires d >= 1
    ensures n > d ==> CeilDiv(n, d) == 1 + CeilDiv(n - d, d)
    ensures 1 <= n <= d ==> CeilDiv(n, d) == 1
  {
    if n > d {
      var q := CeilDivBounds(n - d, d);
      assert (q + 1) * d == q * d + d;
      CeilDivIs(n, d, q + 1);
    } else if n >= 1 {
      CeilDivIs(n, d, 1);
    }
  }
}
