/** Division and remainder where neither operand is a literal. */
module Arithmetic {

  function Times(a: nat, b: nat): nat {
    a * b
  }

  function Quotient(n: nat, d: nat): nat
    requires d > 0
  {
    n / d
  }

  function Rest(n: nat, d: nat): nat
    requires d > 0
  {
    n % d
  }

  lemma MulAtLeast(d: int, k: int)
    requires d >= 0 && k >= 1
    ensures d * k >= d
  {
    assert d * k == d * (k - 1) + d;
  }

  lemma MulSmall(d: int, k: int)
    requires -d < d * k < d
    ensures k == 0
  {
    if k >= 1 {
      MulAtLeast(d, k);
    }
    if k <= -1 {
      Opposite(d, k);
      MulAtLeast(d, -k);
    }
  }

  lemma Opposite(d: int, k: int)
    ensures d * -k == -(d * k)
  {
  }

  lemma QuotientAndRest(n: nat, d: nat)
    requires d > 0
    ensures n == d * (n / d) + n % d && n % d < d
  {
  }

  /** Quotient and remainder are determined by what they add up to. */
  lemma DivUnique(n: nat, d: nat, q: nat, r: nat)
    requires d > 0 && n == d * q + r && r < d
    ensures n / d == q && n % d == r
  {
    var q', r' := n / d, n % d;
    QuotientAndRest(n, d);
    assert d * (q' - q) == d * q' - d * q;
    MulSmall(d, q' - q);
  }

  lemma DivAdd(d: nat, x: nat, y: nat)
    requires d > 0
    ensures (d * x + y) / d == x + y / d && (d * x + y) % d == y % d
  {
    QuotientAndRest(y, d);
    assert d * (x + y / d) == d * x + d * (y / d);
    DivUnique(d * x + y, d, x + y / d, y % d);
  }

  lemma DivDiv(n: nat, a: nat, b: nat)
    requires a > 0 && b > 0
    ensures a * b > 0 && n / (a * b) == n / a / b
  {
    var q, r := n / a, n % a;
    var p, s := q / b, q % b;
    QuotientAndRest(n, a);
    QuotientAndRest(q, b);
    assert a * q == a * (b * p) + a * s;
    assert a * (b * p) == (a * b) * p;
    MulAtLeast(a, b - s);
    assert a * (b - s) == a * b - a * s;
    DivUnique(n, a * b, p, a * s + r);
  }

  lemma MulMono(a: nat, b: nat, c: nat)
    requires a <= b
    ensures a * c <= b * c
  {
    Distribute(b - a, a, c);
    var more := Times(b - a, c);
  }

  lemma Distribute(a: int, b: int, c: int)
    ensures (a + b) * c == a * c + b * c
  {
  }

  lemma Associate(a: int, b: int, c: int)
    ensures a * b * c == a * (b * c)
  {
  }

  lemma ProductPositive(a: nat, b: nat)
    requires a * b > 0
    ensures a > 0 && b > 0
  {
  }

  lemma Below(p: nat, rest: nat, low: nat, d: nat)
    requires low < rest && d < p
    ensures low * p + d < p * rest
  {
    MulAtLeast(p, rest - low);
    Distribute(rest - low, low, p);
  }
}
