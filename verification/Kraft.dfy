// Optimal codes by Kraft sums: the part of Huffman's argument that does not
// depend on how the tree is stored.
//
// A code is abstracted to a list of items, one per symbol: its weight (how
// often it occurs) and the length of its codeword.  A list "fits" when the
// codewords can all be told apart, that is, when the sum of 2^-len is at most 1.

module Kraft {
  import opened BitStrings

  datatype Item = Item(weight: nat, len: nat)

  // weight * len, by repeated addition.
  function Bill(weight: int, len: nat): int {
    if len == 0 then 0 else weight + Bill(weight, len - 1)
  }

  lemma {:induction false} BillIsProduct(weight: int, len: nat)
    ensures Bill(weight, len) == weight * len
  {
    if len != 0 {
      BillIsProduct(weight, len - 1);
      assert weight * len == weight * (len - 1) + weight;
    }
  }

  lemma {:induction false} BillAdds(a: int, b: int, len: nat)
    ensures Bill(a + b, len) == Bill(a, len) + Bill(b, len)
  {
    if len != 0 { BillAdds(a, b, len - 1); }
  }

  // Total number of bits the code spends.
  function Cost(items: seq<Item>): int {
    if |items| == 0 then 0 else Bill(items[0].weight, items[0].len) + Cost(items[1..])
  }

  // 2^-len, scaled by 2^top.
  function Share(len: nat, top: nat): nat {
    if len <= top then Pow2(top - len) else 0
  }

  // The Kraft sum, scaled by 2^top.
  function KraftSum(items: seq<Item>, top: nat): nat {
    if |items| == 0 then 0 else Share(items[0].len, top) + KraftSum(items[1..], top)
  }

  predicate Below(items: seq<Item>, top: nat) {
    forall k :: 0 <= k < |items| ==> items[k].len <= top
  }

  predicate Fits(items: seq<Item>, top: nat) {
    Below(items, top) && KraftSum(items, top) <= Pow2(top)
  }

  function Weights(items: seq<Item>): multiset<int> {
    if |items| == 0 then multiset{} else multiset{items[0].weight} + Weights(items[1..])
  }

  // No code that fits and serves these weights is cheaper than c.
  ghost predicate LowerBound(ws: multiset<int>, c: int) {
    forall items: seq<Item>, top: nat :: Fits(items, top) && Weights(items) == ws ==> Cost(items) >= c
  }

  // ---------- sums over a list whose items are replaced, removed or permuted

  lemma {:induction false} Concat(a: seq<Item>, b: seq<Item>, top: nat)
    ensures Cost(a + b) == Cost(a) + Cost(b)
    ensures KraftSum(a + b, top) == KraftSum(a, top) + KraftSum(b, top)
    ensures Weights(a + b) == Weights(a) + Weights(b)
  {
    ConcatCost(a, b);
    ConcatKraft(a, b, top);
    ConcatWeights(a, b);
  }

  lemma {:induction false} ConcatCost(a: seq<Item>, b: seq<Item>)
    ensures Cost(a + b) == Cost(a) + Cost(b)
  {
    if |a| == 0 {
      assert a + b == b;
    } else {
      ConcatCost(a[1..], b);
      assert (a + b)[1..] == a[1..] + b;
    }
  }

  lemma {:induction false} ConcatKraft(a: seq<Item>, b: seq<Item>, top: nat)
    ensures KraftSum(a + b, top) == KraftSum(a, top) + KraftSum(b, top)
  {
    if |a| == 0 {
      assert a + b == b;
    } else {
      ConcatKraft(a[1..], b, top);
      assert (a + b)[1..] == a[1..] + b;
    }
  }

  lemma Regroup(a: multiset<int>, b: multiset<int>, c: multiset<int>)
    ensures a + (b + c) == (a + b) + c
  {
  }

  lemma WeightsStep(a: seq<Item>)
    ensures |a| == 0 ==> Weights(a) == multiset{}
    ensures |a| > 0 ==> Weights(a) == multiset{a[0].weight} + Weights(a[1..])
  {
  }

  lemma {:induction false} ConcatWeights(a: seq<Item>, b: seq<Item>)
    ensures Weights(a + b) == Weights(a) + Weights(b)
  {
    hide *;
    WeightsStep(a);
    if |a| == 0 {
      assert a + b == b;
    } else {
      ConcatWeights(a[1..], b);
      var c := a + b;
      assert c[1..] == a[1..] + b && c[0] == a[0];
      WeightsStep(c);
      Regroup(multiset{a[0].weight}, Weights(a[1..]), Weights(b));
    }
  }

  lemma Single(x: Item, top: nat)
    ensures Cost([x]) == Bill(x.weight, x.len)
    ensures KraftSum([x], top) == Share(x.len, top)
    ensures Weights([x]) == multiset{x.weight}
  {
  }

  function Without<T>(s: seq<T>, k: nat): (r: seq<T>)
    requires k < |s|
    ensures |r| == |s| - 1
    ensures forall j :: 0 <= j < |r| ==> r[j] == s[if j < k then j else j + 1]
  {
    s[..k] + s[k + 1..]
  }

  lemma WithoutBag<T>(s: seq<T>, k: nat)
    requires k < |s|
    ensures multiset(Without(s, k)) == multiset(s) - multiset{s[k]}
  {
    assert s == s[..k] + [s[k]] + s[k + 1..];
  }

  // What one item contributes.
  lemma {:induction false} Remove(items: seq<Item>, k: nat, top: nat)
    requires k < |items|
    ensures Cost(items) == Cost(Without(items, k)) + Bill(items[k].weight, items[k].len)
    ensures KraftSum(items, top) == KraftSum(Without(items, k), top) + Share(items[k].len, top)
    ensures Weights(items) == Weights(Without(items, k)) + multiset{items[k].weight}
  {
    var a, x, b := items[..k], [items[k]], items[k + 1..];
    assert items == (a + x) + b;
    Concat(a + x, b, top);
    Concat(a, x, top);
    Concat(a, b, top);
    Single(items[k], top);
  }

  lemma {:induction false} Replace(items: seq<Item>, k: nat, x: Item, top: nat)
    requires k < |items|
    ensures Cost(items[k := x]) + Bill(items[k].weight, items[k].len) == Cost(items) + Bill(x.weight, x.len)
    ensures KraftSum(items[k := x], top) + Share(items[k].len, top) == KraftSum(items, top) + Share(x.len, top)
    ensures items[k].weight in Weights(items)
    ensures Weights(items[k := x]) == Weights(items) - multiset{items[k].weight} + multiset{x.weight}
  {
    Remove(items, k, top);
    Remove(items[k := x], k, top);
    assert Without(items[k := x], k) == Without(items, k);
  }

  lemma {:induction false} ReplaceLength(items: seq<Item>, k: nat, len: nat, top: nat)
    requires k < |items|
    ensures Weights(items[k := Item(items[k].weight, len)]) == Weights(items)
    ensures Cost(items[k := Item(items[k].weight, len)]) + Bill(items[k].weight, items[k].len)
         == Cost(items) + Bill(items[k].weight, len)
    ensures KraftSum(items[k := Item(items[k].weight, len)], top) + Share(items[k].len, top)
         == KraftSum(items, top) + Share(len, top)
  {
    Replace(items, k, Item(items[k].weight, len), top);
  }

  lemma Cancel(a: multiset<int>, b: multiset<int>, x: int)
    requires a + multiset{x} == b + multiset{x}
    ensures a == b
  {
    assert a == (a + multiset{x}) - multiset{x};
    assert b == (b + multiset{x}) - multiset{x};
  }

  lemma {:induction false} Permuted(a: seq<Item>, b: seq<Item>, top: nat)
    requires multiset(a) == multiset(b)
    ensures Cost(a) == Cost(b) && KraftSum(a, top) == KraftSum(b, top) && Weights(a) == Weights(b)
    decreases |a|
  {
    if |a| == 0 {
      assert |b| == |multiset(b)| == 0;
    } else {
      assert a[0] in multiset(b);
      var k :| 0 <= k < |b| && b[k] == a[0];
      assert a == [a[0]] + a[1..];
      WithoutBag(b, k);
      Permuted(a[1..], Without(b, k), top);
      Remove(b, k, top);
    }
  }

  lemma {:induction false} WeightAt(items: seq<Item>, w: int) returns (k: nat)
    requires w in Weights(items)
    ensures k < |items| && items[k].weight == w
  {
    if items[0].weight == w {
      k := 0;
    } else {
      k := WeightAt(items[1..], w);
      k := k + 1;
    }
  }

  // ---------- two siblings at the deepest level

  // How many items have length exactly top.
  function AtTop(items: seq<Item>, top: nat): nat {
    if |items| == 0 then 0 else (if items[0].len == top then 1 else 0) + AtTop(items[1..], top)
  }

  // Only the deepest items contribute odd terms to the Kraft sum.
  lemma {:induction false} Parity(items: seq<Item>, top: nat)
    requires Below(items, top)
    ensures KraftSum(items, top) % 2 == AtTop(items, top) % 2
  {
    if |items| != 0 { Parity(items[1..], top); }
  }

  lemma {:induction false} TopIndex(items: seq<Item>, top: nat) returns (k: nat)
    requires AtTop(items, top) >= 1
    ensures k < |items| && items[k].len == top
  {
    if items[0].len == top {
      k := 0;
    } else {
      k := TopIndex(items[1..], top);
      k := k + 1;
    }
  }

  lemma {:induction false} TwoTops(items: seq<Item>, top: nat) returns (i: nat, j: nat)
    requires AtTop(items, top) >= 2
    ensures i < j < |items| && items[i].len == top && items[j].len == top
  {
    if items[0].len == top {
      i := 0;
      j := TopIndex(items[1..], top);
      j := j + 1;
    } else {
      i, j := TwoTops(items[1..], top);
      i, j := i + 1, j + 1;
    }
  }

  // Nobody at the top: the sum can be measured one level lower.
  lemma {:induction false} Lower(items: seq<Item>, top: nat)
    requires top >= 1 && Below(items, top) && AtTop(items, top) == 0
    ensures Below(items, top - 1) && KraftSum(items, top) == 2 * KraftSum(items, top - 1)
  {
    if |items| != 0 { Lower(items[1..], top); }
  }

  lemma {:induction false} AllAtZero(items: seq<Item>)
    requires Below(items, 0)
    ensures KraftSum(items, 0) == |items|
  {
    if |items| != 0 { AllAtZero(items[1..]); }
  }

  lemma {:induction false} TopsReplace(items: seq<Item>, k: nat, x: Item, top: nat)
    requires k < |items| && items[k].len == top && x.len != top
    ensures AtTop(items[k := x], top) == AtTop(items, top) - 1
  {
    if k == 0 {
      assert items[k := x][1..] == items[1..];
    } else {
      TopsReplace(items[1..], k - 1, x, top);
      assert items[k := x][1..] == items[1..][k - 1 := x];
    }
  }

  // A lone deepest codeword can be shortened by one bit: the parity of the
  // Kraft sum leaves room for it.
  lemma {:induction false} Shorten(items: seq<Item>, top: nat) returns (shorter: seq<Item>)
    requires Fits(items, top) && top >= 1 && AtTop(items, top) == 1
    ensures Fits(shorter, top - 1) && |shorter| == |items|
    ensures Weights(shorter) == Weights(items) && Cost(shorter) <= Cost(items)
  {
    Parity(items, top);
    assert Pow2(top) == 2 * Pow2(top - 1);
    var k := TopIndex(items, top);
    var x := Item(items[k].weight, top - 1);
    ReplaceLength(items, k, top - 1, top);
    assert Share(top, top) == 1 && Share(top - 1, top) == Pow2(1) == 2;
    shorter := items[k := x];
    TopsReplace(items, k, x, top);
    Lower(shorter, top);
  }

  // Any code that fits can be made no more expensive and given two codewords of
  // one greatest length; the rest of the code is returned beside their weights.
  lemma {:induction false} PairTops(items: seq<Item>, top: nat)
    returns (rest: seq<Item>, level: nat, u: nat, v: nat)
    requires Fits(items, top) && |items| >= 2
    ensures level >= 1 && Below(rest, level) && KraftSum(rest, level) + 2 <= Pow2(level)
    ensures Weights(rest) + multiset{u} + multiset{v} == Weights(items)
    ensures Cost(rest) + Bill(u, level) + Bill(v, level) <= Cost(items)
    decreases top
  {
    var m := AtTop(items, top);
    if top == 0 {
      AllAtZero(items);
      assert false;
    } else if m == 0 {
      Lower(items, top);
      rest, level, u, v := PairTops(items, top - 1);
    } else if m == 1 {
      var shorter := Shorten(items, top);
      rest, level, u, v := PairTops(shorter, top - 1);
    } else {
      var i, j := TwoTops(items, top);
      level, u, v := top, items[i].weight, items[j].weight;
      var most := Without(items, j);
      rest := Without(most, i);
      Remove(items, j, top);
      Remove(most, i, top);
      assert Share(top, top) == 1;
    }
  }

  // ---------- the exchange argument

  lemma {:induction false} ExchangeGain(light: int, heavy: int, short: nat, long: nat)
    requires light <= heavy && short <= long
    ensures Bill(light, long) + Bill(heavy, short) <= Bill(light, short) + Bill(heavy, long)
    decreases long
  {
    if short < long { ExchangeGain(light, heavy, short, long - 1); }
  }

  // Giving the lightest symbol the longest codeword never costs more.
  lemma {:induction false} Promote(rest: seq<Item>, level: nat, u: nat, x: nat) returns (other: seq<Item>)
    requires Below(rest, level)
    requires x == u || x in Weights(rest)
    requires x <= u
    ensures Below(other, level) && KraftSum(other, level) == KraftSum(rest, level)
    ensures Weights(other) + multiset{x} == Weights(rest) + multiset{u}
    ensures Cost(other) + Bill(x, level) <= Cost(rest) + Bill(u, level)
  {
    if x == u {
      other := rest;
    } else {
      var k := WeightAt(rest, x);
      var len := rest[k].len;
      Replace(rest, k, Item(u, len), level);
      ExchangeGain(x, u, len, level);
      other := rest[k := Item(u, len)];
    }
  }

  lemma {:induction false} CountItems(items: seq<Item>)
    ensures |items| == |Weights(items)|
  {
    if |items| != 0 { CountItems(items[1..]); }
  }

  lemma ContractBill(x: nat, y: nat, level: nat)
    requires level >= 1
    ensures Bill(x + y, level - 1) + x + y == Bill(x, level) + Bill(y, level)
    ensures Share(level - 1, level) == 2
  {
    BillAdds(x, y, level - 1);
    assert Share(level - 1, level) == Pow2(1) == 2;
  }

  // A merged pair of deepest siblings is one codeword, one bit shorter.
  lemma {:induction false} Contract(rest: seq<Item>, level: nat, x: nat, y: nat) returns (r: seq<Item>)
    requires level >= 1 && Below(rest, level) && KraftSum(rest, level) + 2 <= Pow2(level)
    ensures Fits(r, level)
    ensures Cost(r) + x + y == Cost(rest) + Bill(x, level) + Bill(y, level)
    ensures Weights(r) == Weights(rest) + multiset{x + y}
  {
    var m := Item(x + y, level - 1);
    r := rest + [m];
    Concat(rest, [m], level);
    Single(m, level);
    ContractBill(x, y, level);
    hide Cost, KraftSum, Weights, Bill, Pow2;
  }

  // The two lightest weights may as well sit side by side at the deepest level.
  lemma {:induction false} LightestDeepest(items: seq<Item>, top: nat, others: multiset<int>, x: nat, y: nat)
    returns (rest: seq<Item>, level: nat)
    requires forall z :: z in others ==> x <= z && y <= z
    requires x <= y && Fits(items, top) && Weights(items) == others + multiset{y} + multiset{x}
    ensures level >= 1 && Below(rest, level) && KraftSum(rest, level) + 2 <= Pow2(level)
    ensures Weights(rest) == others
    ensures Cost(rest) + Bill(x, level) + Bill(y, level) <= Cost(items)
  {
    CountItems(items);
    var rest0, u, v;
    rest0, level, u, v := PairTops(items, top);
    var all := Weights(rest0) + multiset{u} + multiset{v};
    assert u in all && v in all && x in all && y in all;
    if v == x {
      u, v := v, u;
    }
    assert (Weights(rest0) + multiset{u}) + multiset{v} == (others + multiset{y}) + multiset{x};
    var rest1 := Promote(rest0, level, u, x);
    assert (Weights(rest1) + multiset{v}) + multiset{x} == (Weights(rest0) + multiset{u}) + multiset{v};
    Cancel(Weights(rest1) + multiset{v}, others + multiset{y}, x);
    assert v in others + multiset{y} && y in Weights(rest1) + multiset{v};
    rest := Promote(rest1, level, v, y);
    Cancel(Weights(rest), others, y);
  }

  // Merging the two lightest weights: what bounds the merged problem from
  // below bounds the original one, with the merged weight added.
  lemma {:induction false} MergeStep(others: multiset<int>, x: nat, y: nat, c: int)
    requires forall z :: z in others ==> x <= z && y <= z
    requires x <= y
    requires LowerBound(others + multiset{x + y}, c)
    ensures LowerBound(others + multiset{y} + multiset{x}, c + x + y)
  {
    forall items: seq<Item>, top: nat | Fits(items, top) && Weights(items) == others + multiset{y} + multiset{x}
      ensures Cost(items) >= c + x + y
    {
      var rest, level := LightestDeepest(items, top, others, x, y);
      var r := Contract(rest, level, x, y);
      assert Fits(r, level) && Weights(r) == others + multiset{x + y};
    }
  }
}
