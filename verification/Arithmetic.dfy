/** Quotients and remainders behind names, so that nonlinear facts are used one at a time. */
module Arithmetic {

  /** Floor division, kept behind a name so that only the lemmas below reason about it. */
  function Quotient(x: nat, d: nat): nat
    requires d > 0
  {
    x / d
  }

  function Remainder(x: nat, d: nat): (r: nat)
    requires d > 0
    ensures r < d && r <= x
  {
    assert x == d * (x / d) + x % d;
    x % d
  }

  lemma MulStep(d: int, k: int)
    requires d > 0
    ensures k >= 1 ==> d * k >= d
    ensures k <= -1 ==> d * k <= 0 - d
  {}

  lemma QuotientUnique(x: nat, d: nat, q: nat, r: nat)
    requires r < d && x == d * q + r
    ensures Quotient(x, d) == q
  {
    var k, m := x / d, x % d;
    assert x == d * k + m;
    assert d * (k - q) == d * k - d * q;
    MulStep(d, k - q);
  }

  lemma QuotientRemainder(x: nat, d: nat) returns (r: nat)
    requires d > 0
    ensures r == Remainder(x, d) && x == d * Quotient(x, d) + r
  {
    r := Remainder(x, d);
  }

  lemma QuotientTwice(x: nat, a: nat, b: nat)
    requires a > 0 && b > 0
    ensures a * b > 0 && Quotient(x, a * b) == Quotient(Quotient(x, a), b)
  {
    var y := Quotient(x, a);
    var r1 := QuotientRemainder(x, a);
    var r2 := QuotientRemainder(y, b);
    var q := Quotient(y, b);
    MulBound(a, b, r1, r2);
    MulRegroup(a, b, q, r2);
    QuotientUnique(x, a * b, q, a * r2 + r1);
  }

  lemma MulBound(a: nat, b: nat, r1: nat, r2: nat)
    requires r1 < a && r2 < b
    ensures 0 <= a * r2 + r1 < a * b
  {
    MulStep(a, b - r2);
    assert a * (b - r2) == a * b - a * r2;
  }

  lemma MulRegroup(a: nat, b: nat, q: nat, r: nat)
    ensures a * (b * q + r) == a * b * q + a * r
  {}
}
