// Stable orderings of sequences by an integer key, shared by the write
// scheduler and the SID bus queue.
module StableOrder {

  /** The elements of s with key k, in their order in s. */
  function Select<T>(s: seq<T>, key: T -> int, k: int): seq<T> {
    if s == [] then []
    else
      var rest, last := Select(s[..|s| - 1], key, k), s[|s| - 1];
      if key(last) == k then rest + [last] else rest
  }

  ghost predicate SortedBy<T>(s: seq<T>, key: T -> int) {
    forall i, j :: 0 <= i < j < |s| ==> key(s[i]) <= key(s[j])
  }

  /** output is input in nondecreasing key order, ties in their input order.
      Equal selections say both that nothing is lost or invented and that equal
      keys keep their order. */
  ghost predicate IsStableSort<T>(input: seq<T>, output: seq<T>, key: T -> int) {
    && SortedBy(output, key)
    && forall k :: Select(output, key, k) == Select(input, key, k)
  }

  lemma {:induction false} SelectAppend<T>(s: seq<T>, t: seq<T>, key: T -> int, k: int)
    ensures Select(s + t, key, k) == Select(s, key, k) + Select(t, key, k)
  {
    if t == [] {
      assert s + t == s;
    } else {
      var n := |t| - 1;
      SelectAppend(s, t[..n], key, k);
      assert (s + t)[..|s + t| - 1] == s + t[..n];
    }
  }

  lemma {:induction false} SelectMembers<T>(s: seq<T>, key: T -> int, k: int)
    ensures forall x :: x in Select(s, key, k) <==> x in s && key(x) == k
    ensures forall m :: 0 <= m < |Select(s, key, k)| ==> key(Select(s, key, k)[m]) == k && Select(s, key, k)[m] in s
    ensures |Select(s, key, k)| <= |s|
  {
    if s != [] {
      SelectMembers(s[..|s| - 1], key, k);
      assert s == s[..|s| - 1] + [s[|s| - 1]];
    }
  }

  lemma {:induction false} SelectSnoc<T>(s: seq<T>, x: T, key: T -> int, k: int)
    ensures Select(s + [x], key, k) == if key(x) == k then Select(s, key, k) + [x] else Select(s, key, k)
  {
    assert (s + [x])[..|s + [x]| - 1] == s;
  }

  lemma {:induction false} SelectCommutes<T>(s: seq<T>, f: T -> int, a: int, g: T -> int, b: int)
    ensures Select(Select(s, f, a), g, b) == Select(Select(s, g, b), f, a)
  {
    if s != [] {
      var rest, last := s[..|s| - 1], s[|s| - 1];
      SelectCommutes(rest, f, a, g, b);
      SelectSnoc(Select(rest, f, a), last, g, b);
      SelectSnoc(Select(rest, g, b), last, f, a);
    }
  }

  /** both orders by high first and by low among equal highs. */
  ghost predicate Lexicographic<T(!new)>(high: T -> int, low: T -> int, both: T -> int) {
    forall x, y :: both(x) <= both(y) <==> high(x) < high(y) || (high(x) == high(y) && low(x) <= low(y))
  }

  /** Selecting by a two-digit key is selecting by its high digit, then its low digit. */
  lemma {:induction false} SelectTwoDigits<T(!new)>(s: seq<T>, high: T -> int, low: T -> int, both: T -> int, w: T)
    requires Lexicographic(high, low, both)
    ensures Select(s, both, both(w)) == Select(Select(s, high, high(w)), low, low(w))
  {
    if s != [] {
      var rest, last := s[..|s| - 1], s[|s| - 1];
      SelectTwoDigits(rest, high, low, both, w);
      SelectSnoc(Select(rest, high, high(w)), last, low, low(w));
      assert both(last) <= both(w) && both(w) <= both(last) <==> both(last) == both(w);
    }
  }

  /** Two elements of equal key keep their order in the selection. */
  lemma {:induction false} SelectKeepsOrder<T>(s: seq<T>, key: T -> int, i: nat, j: nat) returns (p: nat, q: nat)
    requires i < j < |s| && key(s[i]) == key(s[j])
    ensures p < q < |Select(s, key, key(s[i]))|
    ensures Select(s, key, key(s[i]))[p] == s[i] && Select(s, key, key(s[i]))[q] == s[j]
  {
    var n, k := |s| - 1, key(s[i]);
    if j < n {
      p, q := SelectKeepsOrder(s[..n], key, i, j);
    } else {
      SelectMembers(s[..n], key, k);
      assert s[..n][i] == s[i];
      p :| 0 <= p < |Select(s[..n], key, k)| && Select(s[..n], key, k)[p] == s[i];
      q := |Select(s[..n], key, k)|;
    }
  }

  /** Two positions of a selection come from two positions of the sequence, in order. */
  lemma {:induction false} SelectOrigins<T>(s: seq<T>, key: T -> int, k: int, p: nat, q: nat) returns (i: nat, j: nat)
    requires p < q < |Select(s, key, k)|
    ensures i < j < |s| && key(s[i]) == k && key(s[j]) == k
    ensures s[i] == Select(s, key, k)[p] && s[j] == Select(s, key, k)[q]
  {
    var n := |s| - 1;
    var rest := Select(s[..n], key, k);
    if q < |rest| {
      i, j := SelectOrigins(s[..n], key, k, p, q);
    } else {
      SelectMembers(s[..n], key, k);
      assert rest[p] in s[..n];
      i :| 0 <= i < n && s[..n][i] == rest[p];
      j := n;
    }
  }

  /** A stable sort has exactly one result. */
  lemma {:induction false} StableSortIsUnique<T>(input: seq<T>, a: seq<T>, b: seq<T>, key: T -> int)
    requires IsStableSort(input, a, key) && IsStableSort(input, b, key)
    ensures a == b
  {
    forall k ensures Select(a, key, k) == Select(b, key, k) {
      assert Select(a, key, k) == Select(input, key, k);
    }
    SortedSelectionsDetermine(a, b, key);
  }

  lemma {:induction false} SortedSelectionsDetermine<T>(a: seq<T>, b: seq<T>, key: T -> int)
    requires SortedBy(a, key) && SortedBy(b, key)
    requires forall k :: Select(a, key, k) == Select(b, key, k)
    ensures a == b
  {
    if a == [] || b == [] {
      if a != [] {
        var x := LastIsSelected(a, b, key);
      } else if b != [] {
        var x := LastIsSelected(b, a, key);
      }
    } else {
      var x := LastsAgree(a, b, key);
      var a', b' := a[..|a| - 1], b[..|b| - 1];
      assert a == a' + [x] && b == b' + [x];
      forall k ensures Select(a', key, k) == Select(b', key, k) {
        SelectSnoc(a', x, key, k);
        SelectSnoc(b', x, key, k);
        assert Select(a, key, k) == Select(b, key, k);
        CancelLast(Select(a', key, k), Select(b', key, k), x);
      }
      SortedSelectionsDetermine(a', b', key);
    }
  }

  lemma {:induction false} CancelLast<T>(a: seq<T>, b: seq<T>, x: T)
    requires a + [x] == b + [x] || a == b
    ensures a == b
  {
    if a + [x] == b + [x] {
      assert a == (a + [x])[..|a + [x]| - 1];
      assert b == (b + [x])[..|b + [x]| - 1];
    }
  }

  lemma {:induction false} LastIsSelected<T>(a: seq<T>, b: seq<T>, key: T -> int) returns (x: T)
    requires a != []
    requires forall k :: Select(a, key, k) == Select(b, key, k)
    ensures x == a[|a| - 1] && x in b
    ensures Select(a, key, key(x)) != [] && Select(a, key, key(x))[|Select(a, key, key(x))| - 1] == x
  {
    x := a[|a| - 1];
    SelectMembers(b, key, key(x));
    assert Select(a, key, key(x)) == Select(b, key, key(x));
    assert x in Select(b, key, key(x));
  }

  lemma {:induction false} LastsAgree<T>(a: seq<T>, b: seq<T>, key: T -> int) returns (x: T)
    requires a != [] && b != []
    requires SortedBy(a, key) && SortedBy(b, key)
    requires forall k :: Select(a, key, k) == Select(b, key, k)
    ensures a[|a| - 1] == x == b[|b| - 1]
  {
    x := LastIsSelected(a, b, key);
    var y := LastIsSelected(b, a, key);
    assert key(x) == key(y);
    assert Select(a, key, key(x)) == Select(b, key, key(x));
  }

  /** One least-significant-digit-first step: stably sorting by the next digit a
      sequence already stably sorted by the lower digits sorts it stably by both. */
  lemma {:induction false} LsdStep<T(!new)>(input: seq<T>, mid: seq<T>, output: seq<T>, high: T -> int, low: T -> int,
                                     both: T -> int)
    requires Lexicographic(high, low, both)
    requires IsStableSort(input, mid, low) && IsStableSort(mid, output, high)
    ensures IsStableSort(input, output, both)
  {
    forall k ensures Select(output, both, k) == Select(input, both, k) {
      SelectMembers(output, both, k);
      SelectMembers(input, both, k);
      if Select(output, both, k) != [] {
        LsdClass(input, mid, output, high, low, both, Select(output, both, k)[0]);
      } else if Select(input, both, k) != [] {
        LsdClass(input, mid, output, high, low, both, Select(input, both, k)[0]);
      }
    }
    forall i, j | 0 <= i < j < |output| ensures both(output[i]) <= both(output[j]) {
      var a, b := output[i], output[j];
      if high(a) == high(b) {
        var p, q := SelectKeepsOrder(output, high, i, j);
        assert Select(output, high, high(a)) == Select(mid, high, high(a));
        var i', j' := SelectOrigins(mid, high, high(a), p, q);
      }
    }
  }

  lemma {:induction false} LsdClass<T(!new)>(input: seq<T>, mid: seq<T>, output: seq<T>, high: T -> int,
                                      low: T -> int, both: T -> int, w: T)
    requires Lexicographic(high, low, both)
    requires IsStableSort(input, mid, low) && IsStableSort(mid, output, high)
    ensures Select(output, both, both(w)) == Select(input, both, both(w))
  {
    var h, l := high(w), low(w);
    SelectTwoDigits(output, high, low, both, w);
    SelectTwoDigits(input, high, low, both, w);
    assert Select(output, high, h) == Select(mid, high, h);
    SelectCommutes(mid, high, h, low, l);
    assert Select(mid, low, l) == Select(input, low, l);
    SelectCommutes(input, low, l, high, h);
  }

  /** The pairs of positions that a stable sort by f reverses are those it reverses by g. */
  ghost predicate SameInversions<T>(s: seq<T>, f: T -> int, g: T -> int) {
    forall i, j :: 0 <= i < j < |s| ==> (f(s[j]) < f(s[i]) <==> g(s[j]) < g(s[i]))
  }

  /** When g is a function of f, a stable sort by g is also one by f exactly when
      f and g reverse the same pairs of the input. */
  lemma {:induction false} SortsByBothIff<T(!new)>(input: seq<T>, output: seq<T>, f: T -> int, g: T -> int)
    requires IsStableSort(input, output, g)
    requires forall x, y :: f(x) == f(y) ==> g(x) == g(y)
    ensures IsStableSort(input, output, f) <==> SameInversions(input, f, g)
  {
    if IsStableSort(input, output, f) {
      forall i, j | 0 <= i < j < |input| ensures f(input[j]) < f(input[i]) <==> g(input[j]) < g(input[i]) {
        if g(input[i]) <= g(input[j]) { KeptPairsStayOrdered(input, output, g, f, i, j); }
        if f(input[i]) <= f(input[j]) { KeptPairsStayOrdered(input, output, f, g, i, j); }
      }
    }
    if SameInversions(input, f, g) {
      SameInversionsSort(input, output, f, g);
    }
  }

  lemma {:induction false} KeptPairsStayOrdered<T(!new)>(input: seq<T>, output: seq<T>, f: T -> int, g: T -> int,
                                                  i: nat, j: nat)
    requires IsStableSort(input, output, f) && SortedBy(output, g)
    requires i < j < |input| && f(input[i]) <= f(input[j])
    ensures g(input[i]) <= g(input[j])
  {
    var x, y := input[i], input[j];
    if f(x) == f(y) {
      var p, q := SelectKeepsOrder(input, f, i, j);
      assert Select(output, f, f(x)) == Select(input, f, f(x));
      var i', j' := SelectOrigins(output, f, f(x), p, q);
    } else {
      SelectMembers(input, f, f(x));
      SelectMembers(input, f, f(y));
      SelectMembers(output, f, f(x));
      SelectMembers(output, f, f(y));
      assert Select(output, f, f(x)) == Select(input, f, f(x));
      assert Select(output, f, f(y)) == Select(input, f, f(y));
      var i' :| 0 <= i' < |output| && output[i'] == x;
      var j' :| 0 <= j' < |output| && output[j'] == y;
    }
  }

  lemma {:induction false} SameInversionsSort<T(!new)>(input: seq<T>, output: seq<T>, f: T -> int, g: T -> int)
    requires IsStableSort(input, output, g) && SameInversions(input, f, g)
    requires forall x, y :: f(x) == f(y) ==> g(x) == g(y)
    ensures IsStableSort(input, output, f)
  {
    forall k ensures Select(output, f, k) == Select(input, f, k) {
      SelectWithin(output, input, f, g, k);
    }
    forall p, q | 0 <= p < q < |output| ensures f(output[p]) <= f(output[q]) {
      var x, y := output[p], output[q];
      if g(x) == g(y) {
        var p', q' := SelectKeepsOrder(output, g, p, q);
        assert Select(output, g, g(x)) == Select(input, g, g(x));
        var i, j := SelectOrigins(input, g, g(x), p', q');
      } else {
        SelectMembers(output, g, g(x));
        SelectMembers(output, g, g(y));
        SelectMembers(input, g, g(x));
        SelectMembers(input, g, g(y));
        assert Select(output, g, g(x)) == Select(input, g, g(x));
        assert Select(output, g, g(y)) == Select(input, g, g(y));
        var i :| 0 <= i < |input| && input[i] == x;
        var j :| 0 <= j < |input| && input[j] == y;
        assert i != j;
      }
    }
  }

  lemma {:induction false} SelectWithin<T(!new)>(a: seq<T>, b: seq<T>, f: T -> int, g: T -> int, k: int)
    requires forall x, y :: f(x) == f(y) ==> g(x) == g(y)
    requires forall c :: Select(a, g, c) == Select(b, g, c)
    ensures Select(a, f, k) == Select(b, f, k)
  {
    if Select(a, f, k) != [] || Select(b, f, k) != [] {
      var x := if Select(a, f, k) != [] then Select(a, f, k)[0] else Select(b, f, k)[0];
      SelectMembers(a, f, k);
      SelectMembers(b, f, k);
      assert x in Select(a, f, k) || x in Select(b, f, k);
      assert f(x) == k;
      SelectThrough(a, f, g, k, g(x));
      SelectThrough(b, f, g, k, g(x));
      assert Select(a, g, g(x)) == Select(b, g, g(x));
    }
  }

  lemma {:induction false} SelectThrough<T(!new)>(s: seq<T>, f: T -> int, g: T -> int, k: int, c: int)
    requires forall x :: f(x) == k ==> g(x) == c
    ensures Select(s, f, k) == Select(Select(s, g, c), f, k)
  {
    if s != [] {
      SelectThrough(s[..|s| - 1], f, g, k, c);
      SelectSnoc(Select(s[..|s| - 1], g, c), s[|s| - 1], f, k);
    }
  }
}
