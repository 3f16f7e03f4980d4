// Sequences without repetition: fewer than n numbers below n leave one out, and
// n of them are all.

module Permutations {

  predicate Distinct(s: seq<int>) {
    forall i, j :: 0 <= i < j < |s| ==> s[i] != s[j]
  }

  // s holds different numbers below n.
  predicate SomeSlots(s: seq<int>, n: nat) {
    Distinct(s) && forall k <- s :: 0 <= k < n
  }

  function Upto(n: nat): (r: set<int>) {
    set k | 0 <= k < n && IsSlot(k, n)
  }

  predicate IsSlot(k: int, n: nat) {
    0 <= k < n
  }

  lemma {:induction false} UptoSize(n: nat)
    ensures |Upto(n)| == n
  {
    if n > 0 {
      UptoSize(n - 1);
      assert Upto(n) == Upto(n - 1) + {n - 1};
    }
  }

  function Values(s: seq<int>): set<int> {
    set k | k in s
  }

  lemma {:induction false} DistinctSize(s: seq<int>)
    requires Distinct(s)
    ensures |Values(s)| == |s|
  {
    if s != [] {
      var last := |s| - 1;
      DistinctSize(s[..last]);
      assert s == s[..last] + [s[last]];
      assert Values(s) == Values(s[..last]) + {s[last]};
      assert s[last] !in s[..last];
    }
  }

  // Fewer than n different slots leave one; n of them are all.
  lemma SlotLeft(s: seq<int>, n: nat) returns (k: nat)
    requires SomeSlots(s, n) && |s| < n
    ensures k < n && k !in s
  {
    UptoSize(n);
    DistinctSize(s);
    if Upto(n) <= Values(s) {
      Subset(Upto(n), Values(s));
      assert false;
    }
    var j :| j in Upto(n) && j !in Values(s);
    k := j;
  }

  lemma AllSlots(s: seq<int>, n: nat, k: nat)
    requires SomeSlots(s, n) && |s| == n && k < n
    ensures k in s
  {
    UptoSize(n);
    DistinctSize(s);
    assert Values(s) <= Upto(n);
    if k !in s {
      assert Values(s) <= Upto(n) - {k};
      Subset(Values(s), Upto(n) - {k});
    }
  }

  lemma Subset(a: set<int>, b: set<int>)
    requires a <= b
    ensures |a| <= |b|
  {
    assert b == a + (b - a);
  }
}
