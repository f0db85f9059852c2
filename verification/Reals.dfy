// Products and quotients of real numbers by name, so that a proof meets one law of
// arithmetic at a time.
module Reals {

  function MinReal(a: real, b: real): real { if a < b then a else b }

  function MaxReal(a: real, b: real): real { if a < b then b else a }

  function ClampReal(x: real, lo: real, hi: real): real {
    if x < lo then lo else if hi < x then hi else x
  }

  function Product(x: real, y: real): real { x * y }

  function Ratio(x: real, d: real): real
    requires d != 0.0
  {
    x / d
  }

  lemma {:induction false} RatioTimes(x: real, d: real)
    requires d != 0.0
    ensures Product(Ratio(x, d), d) == x
  {}

  lemma {:induction false} ProductKeepsOrder(x: real, y: real, d: real)
    requires x <= y && d > 0.0
    ensures Product(x, d) <= Product(y, d)
    ensures x < y ==> Product(x, d) < Product(y, d)
  {
    ProductOfDifference(x, y, d);
    PositiveProduct(y - x, d);
  }

  lemma {:induction false} ProductOfDifference(x: real, y: real, d: real)
    ensures Product(y - x, d) == Product(y, d) - Product(x, d)
  {}

  lemma {:induction false} PositiveProduct(x: real, d: real)
    requires x >= 0.0 && d > 0.0
    ensures Product(x, d) >= 0.0
    ensures x > 0.0 ==> Product(x, d) > 0.0
  {}

  lemma {:induction false} ProductNext(x: real, d: real)
    ensures Product(x + 1.0, d) == Product(x, d) + d
  {}

  /** A larger product has a larger factor. */
  lemma {:induction false} FactorsKeepOrder(x: real, y: real, d: real)
    requires d > 0.0
    ensures Product(x, d) < Product(y, d) ==> x < y
    ensures Product(x, d) <= Product(y, d) ==> x <= y
  {
    if x < y { ProductKeepsOrder(x, y, d); } else { ProductKeepsOrder(y, x, d); }
  }

  /** The floor of a quotient is the whole number of divisors that fit. */
  lemma {:induction false} FloorOfRatio(x: real, d: real)
    requires d > 0.0
    ensures var n := Ratio(x, d).Floor as real; Product(n, d) <= x < Product(n, d) + d
  {
    var q := Ratio(x, d);
    var n := q.Floor as real;
    RatioTimes(x, d);
    ProductKeepsOrder(n, q, d);
    ProductKeepsOrder(q, n + 1.0, d);
    ProductNext(n, d);
  }

  /** For a dividend that is not negative it is a natural number. */
  lemma {:induction false} FloorIsNotNegative(x: real, d: real)
    requires d > 0.0 && x >= 0.0
    ensures Ratio(x, d).Floor >= 0
  {
    ZeroProduct(d);
    RatioTimes(x, d);
    FactorsKeepOrder(0.0, Ratio(x, d), d);
  }

  lemma {:induction false} ZeroProduct(d: real)
    ensures Product(0.0, d) == 0.0
  {}

  lemma {:induction false} RatioKeepsOrder(x: real, y: real, d: real)
    requires d > 0.0 && x <= y
    ensures Ratio(x, d) <= Ratio(y, d)
  {
    RatioTimes(x, d);
    RatioTimes(y, d);
    FactorsKeepOrder(Ratio(x, d), Ratio(y, d), d);
  }
}
