// Facts about products and quotients that the solver is better told than left to find.
module Arithmetic {
  lemma Distribute(a: int, b: int, n: int)
    ensures (a + b) * n == a * n + b * n
  {
  }

  lemma MulOrder(a: int, b: int, n: nat)
    requires a <= b
    ensures a * n <= b * n
  {
  }

  lemma DivIs(a: int, n: nat, q: int, r: nat)
    requires r < n && a == q * n + r
    ensures a / n == q && a % n == r
  {
    var p := a / n;
    assert a == p * n + a % n;
    if p < q {
      Distribute(q - p, p, n);
      MulOrder(1, q - p, n);
    } else if q < p {
      Distribute(p - q, q, n);
      MulOrder(1, p - q, n);
    }
  }

  function CeilDiv(a: nat, b: nat): nat
    requires b > 0
  {
    (a + b - 1) / b
  }
}
