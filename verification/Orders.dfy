// Lists of distinct numbers below a count: how many there are, and when they are all of them.
module Orders {
  import opened Basics

  function NumbersBelow(count: nat): set<nat> { if count == 0 then {} else NumbersBelow(count - 1) + {count - 1} }

  lemma {:induction false} InNumbersBelow(count: nat, i: nat)
    ensures i in NumbersBelow(count) <==> i < count
  {
    if count > 0 { InNumbersBelow(count - 1, i); }
  }

  lemma {:induction false} NumbersBelowSize(count: nat)
    ensures |NumbersBelow(count)| == count
  {
    if count > 0 {
      NumbersBelowSize(count - 1);
      InNumbersBelow(count - 1, count - 1);
    }
  }

  lemma {:induction false} FullSubset(a: set<nat>, count: nat)
    requires a <= NumbersBelow(count) && |a| == count
    ensures a == NumbersBelow(count)
  {
    NumbersBelowSize(count);
    if i :| i in NumbersBelow(count) && i !in a {
      assert a <= NumbersBelow(count) - {i};
      SubsetSize(a, NumbersBelow(count) - {i});
    }
  }

  function Members(order: seq<nat>): set<nat> {
    if order == [] then {} else Members(order[..|order| - 1]) + {order[|order| - 1]}
  }

  lemma {:induction false} InMembers(order: seq<nat>, slot: nat)
    ensures slot in Members(order) <==> slot in order
  {
    if order != [] {
      var n := |order| - 1;
      InMembers(order[..n], slot);
      assert order == order[..n] + [order[n]];
    }
  }

  lemma {:induction false} MembersSize(order: seq<nat>)
    requires Distinct(order)
    ensures |Members(order)| == |order|
  {
    if order != [] {
      var n := |order| - 1;
      MembersSize(order[..n]);
      InMembers(order[..n], order[n]);
    }
  }

  predicate InRange(order: seq<nat>, count: nat) { forall i :: 0 <= i < |order| ==> order[i] < count }

  predicate IsOrder(order: seq<nat>, count: nat) { |order| == count && Distinct(order) && InRange(order, count) }

  lemma {:induction false} OrderCovers(order: seq<nat>, count: nat, slot: nat)
    requires IsOrder(order, count) && slot < count
    ensures slot in order
  {
    forall s | s in Members(order) ensures s in NumbersBelow(count) {
      InMembers(order, s);
      InNumbersBelow(count, s);
    }
    MembersSize(order);
    FullSubset(Members(order), count);
    InNumbersBelow(count, slot);
    InMembers(order, slot);
  }
}
