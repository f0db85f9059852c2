// Remainders by a divisor that is not a constant, taken by repeated subtraction.
module Remainders {

  function Remainder(k: nat, n: nat): (r: nat)
    requires 0 < n
    ensures r < n
  {
    if k < n then k else Remainder(k - n, n)
  }

  /** Repeated subtraction gives the ordinary remainder. */
  lemma {:induction false} RemainderIsModulus(k: nat, n: nat)
    requires 0 < n
    ensures Remainder(k, n) == k % n
  {
    if k < n {
      QuotientIsUnique(k / n, k % n, 0, k, n);
    } else {
      RemainderIsModulus(k - n, n);
      var q, r := (k - n) / n, (k - n) % n;
      assert (k / n) * n + k % n == (q + 1) * n + r by {
        assert (q + 1) * n == q * n + n;
      }
      QuotientIsUnique(k / n, k % n, q + 1, r, n);
    }
  }

  function CommonBit(a: nat, b: nat): nat { if a % 2 == 1 && b % 2 == 1 then 1 else 0 }

  /** The bits two numbers have in common. */
  function And(a: nat, b: nat): nat {
    if a == 0 || b == 0 then 0 else 2 * And(a / 2, b / 2) + CommonBit(a, b)
  }

  /** The compile-time test of the capacity of a ring, for one with cells. */
  predicate IsPowerOfTwo(n: nat) { n > 0 && And(n, n - 1) == 0 }

  lemma {:induction false} AndItself(a: nat)
    ensures And(a, a) == a
  {
    if a > 0 { AndItself(a / 2); }
  }

  /** A power of two above one is twice a power of two. */
  lemma {:induction false} HalfAPowerOfTwo(n: nat) returns (m: nat)
    requires IsPowerOfTwo(n) && n > 1
    ensures 0 < m < n && n == 2 * m && IsPowerOfTwo(m)
  {
    m := n / 2;
    if n % 2 == 1 {
      AndItself(m);
    } else {
      assert (n - 1) / 2 == m - 1;
    }
  }

  /** Masking by a power of two less one, as the ring finds a cell, takes the remainder. */
  lemma {:induction false} MaskIsRemainder(k: nat, n: nat)
    requires IsPowerOfTwo(n)
    ensures And(k, n - 1) == Remainder(k, n)
    decreases n
  {
    RemainderIsModulus(k, n);
    if n > 1 {
      var m := HalfAPowerOfTwo(n);
      MaskIsRemainder(k / 2, m);
      RemainderIsModulus(k / 2, m);
      HalfMask(k, m);
      HalfRemainder(k, m);
    }
  }

  lemma {:induction false} HalfMask(k: nat, m: nat)
    requires m > 0
    ensures And(k, 2 * m - 1) == 2 * And(k / 2, m - 1) + k % 2
  {
    assert (2 * m - 1) / 2 == m - 1 && (2 * m - 1) % 2 == 1;
  }

  lemma {:induction false} HalfRemainder(k: nat, m: nat)
    requires m > 0
    ensures k % (2 * m) == 2 * ((k / 2) % m) + k % 2
  {
    var q, r := (k / 2) / m, (k / 2) % m;
    assert k == q * (2 * m) + (2 * r + k % 2);
    QuotientIsUnique(k / (2 * m), k % (2 * m), q, 2 * r + k % 2, 2 * m);
  }

  lemma {:induction false} QuotientIsUnique(q: int, r: nat, q': int, r': nat, n: nat)
    requires r < n && r' < n && q * n + r == q' * n + r'
    ensures r == r'
  {
    MoreQuotientIsMore(q, if q < q' then q' - q else 1, n);
    MoreQuotientIsMore(q', if q' < q then q - q' else 1, n);
  }

  lemma {:induction false} MoreQuotientIsMore(q: int, d: nat, n: nat)
    requires 0 < d
    ensures (q + d) * n >= q * n + n
  {
    if d > 1 { MoreQuotientIsMore(q, d - 1, n); }
    assert (q + d) * n == (q + d - 1) * n + n;
  }

  /** Counting up, the remainder counts up and wraps. */
  lemma {:induction false} RemainderNext(k: nat, n: nat)
    requires 0 < n
    ensures Remainder(k + 1, n) == if Remainder(k, n) + 1 == n then 0 else Remainder(k, n) + 1
  {
    if k >= n { RemainderNext(k - n, n); }
  }

  function Times(a: nat, b: nat): nat { a * b }

  lemma {:induction false} TimesOneMore(a: nat, b: nat)
    ensures Times(a + 1, b) == Times(a, b) + b
  {}

  lemma {:induction false} TimesKeepsOrder(a: nat, b: nat, c: nat)
    requires a <= b
    ensures Times(a, c) <= Times(b, c)
    decreases b - a
  {
    if a < b {
      TimesKeepsOrder(a, b - 1, c);
      TimesOneMore(b - 1, c);
    }
  }

  function Quotient(a: nat, b: nat): nat
    requires b > 0
  {
    a / b
  }

  /** q is the quotient when q n <= x < q n + n. */
  lemma {:induction false} QuotientBounds(x: nat, n: nat, q: nat)
    requires n > 0 && q * n <= x < q * n + n
    ensures Quotient(x, n) == q
  {
    QuotientReaches(x, n, q);
    var p := x / n;
    MoreQuotientIsMore(q, if q < p then p - q else 1, n);
  }

  /** Adding a divisor or more raises the quotient. */
  lemma {:induction false} QuotientGrows(x: nat, y: nat, n: nat)
    requires n > 0 && x + n <= y
    ensures Quotient(x, n) + 1 <= Quotient(y, n)
  {
    var p := x / n;
    assert (p + 1) * n == p * n + n;
    QuotientReaches(y, n, p + 1);
  }

  lemma {:induction false} QuotientReaches(y: nat, n: nat, m: nat)
    requires n > 0 && m * n <= y
    ensures Quotient(y, n) >= m
  {
    var q := y / n;
    MoreQuotientIsMore(q, if q < m then m - q else 1, n);
  }

  lemma {:induction false} QuotientIsMonotone(x: nat, y: nat, n: nat)
    requires n > 0 && x <= y
    ensures Quotient(x, n) <= Quotient(y, n)
  {
    QuotientReaches(y, n, x / n);
  }
}
