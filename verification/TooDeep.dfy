// pack.c:260-264: the shortest text whose code has too many levels.
//
// Byte value k, for k from 0 to 24, occurs Fib(k + 1) times.  Whichever optimal
// code is taken, END gets 25 bits in it.

module TooDeep {
  import opened BitStrings
  import opened Kraft
  import opened Forest
  import opened Huffman
  import opened Lengths
  import opened EndDeepest
  import opened Packing
  import opened PackSize
  import opened RoundTrip

  // ---------- what an optimal code does with the two lightest weights

  lemma {:induction false} LongestOf(items: seq<Item>) returns (p: nat)
    requires |items| > 0
    ensures p < |items| && Below(items, items[p].len)
  {
    if |items| == 1 {
      p := 0;
    } else {
      var q := LongestOf(items[1..]);
      p := if items[q + 1].len < items[0].len then 0 else q + 1;
      assert items == [items[0]] + items[1..];
    }
  }

  lemma {:induction false} InWeights(items: seq<Item>, k: nat)
    requires k < |items|
    ensures items[k].weight in Weights(items)
  {
    if k > 0 { InWeights(items[1..], k - 1); }
  }

  // At least two codewords have the greatest length.
  lemma TwoLongest(items: seq<Item>, top: nat) returns (i: nat, j: nat, level: nat)
    requires KraftExact(items, top) && |items| >= 2
    ensures i < j < |items| && items[i].len == items[j].len == level >= 1
    ensures KraftExact(items, level)
  {
    var p := LongestOf(items);
    level := items[p].len;
    NoEmptyCodeword(items, top, p);
    ExactAt(items, top, level);
    Parity(items, level);
    assert Pow2(level) == 2 * Pow2(level - 1);
    if AtTop(items, level) == 0 {
      AboveAll(items, level, p);
    }
    i, j := TwoTops(items, level);
  }

  lemma {:induction false} AboveAll(items: seq<Item>, top: nat, p: nat)
    requires p < |items| && items[p].len == top
    ensures AtTop(items, top) >= 1
  {
    if p > 0 { AboveAll(items[1..], top, p - 1); }
  }

  // The two lightest weights are at the greatest length, in every optimal code.
  lemma DeepPair(items: seq<Item>, top: nat, others: multiset<int>, u: int, v: int) returns (p: nat, q: nat, level: nat)
    requires KraftExact(items, top) && LowerBound(Weights(items), Cost(items))
    requires Weights(items) == others + multiset{u} + multiset{v} && u < v
    requires forall z :: z in others ==> u < z && v <= z
    ensures p < |items| && q < |items| && p != q && items[p].weight == u && items[q].weight == v
    ensures items[p].len == items[q].len == level >= 1
    ensures KraftExact(items, level)
  {
    hide Weights, Cost, KraftExact, LowerBound;
    CountItems(items);
    var i, j;
    i, j, level := TwoLongest(items, top);
    assert u in Weights(items) && v in Weights(items);
    p := WeightAt(items, u);
    LightestLongest(items, top, others, u, v, p, i, level);
    if i == p {
      q := SecondLongest(items, top, others, u, v, p, j, level);
    } else {
      q := SecondLongest(items, top, others, u, v, p, i, level);
    }
  }

  lemma LightestLongest(items: seq<Item>, top: nat, others: multiset<int>, u: int, v: int, p: nat, i: nat, level: nat)
    requires KraftExact(items, top) && LowerBound(Weights(items), Cost(items)) && KraftExact(items, level)
    requires Weights(items) == others + multiset{u} + multiset{v} && u < v
    requires forall z :: z in others ==> u < z && v <= z
    requires p < |items| && items[p].weight == u && i < |items| && items[i].len == level
    ensures items[p].len == level
  {
    hide Weights, Cost, LowerBound, KraftSum;
    InWeights(items, i);
    if items[i].weight != u { LighterIsDeeper(items, top, p, i); } else if i != p { OnlyOnce(items, others, u, v, p, i); }
  }

  // The lightest weight occurs once.
  lemma OnlyOnce(items: seq<Item>, others: multiset<int>, u: int, v: int, p: nat, i: nat)
    requires Weights(items) == others + multiset{u} + multiset{v} && u < v && u !in others
    requires p < |items| && i < |items| && items[p].weight == u
    ensures items[i].weight == u ==> i == p
  {
    if items[i].weight == u && i != p {
      Remove(items, p, 0);
      var rest := Without(items, p);
      var k := if i < p then i else i - 1;
      assert rest[k] == items[i];
      InWeights(rest, k);
      assert Weights(rest) + multiset{u} == (others + multiset{v}) + multiset{u};
      Cancel(Weights(rest), others + multiset{v}, u);
    }
  }

  lemma SecondLongest(items: seq<Item>, top: nat, others: multiset<int>, u: int, v: int, p: nat, j: nat, level: nat)
    returns (q: nat)
    requires KraftExact(items, top) && LowerBound(Weights(items), Cost(items)) && KraftExact(items, level)
    requires Weights(items) == others + multiset{u} + multiset{v} && u < v
    requires forall z :: z in others ==> u < z && v <= z
    requires p < |items| && items[p].weight == u && j < |items| && j != p && items[j].len == level
    ensures q < |items| && q != p && items[q].weight == v && items[q].len == level
  {
    hide Weights, Cost, LowerBound, KraftSum;
    InWeights(items, j);
    OnlyOnce(items, others, u, v, p, j);
    assert v in Weights(items);
    if items[j].weight == v {
      q := j;
    } else {
      q := WeightAt(items, v);
      LighterIsDeeper(items, top, q, j);
    }
  }

  // ---------- merging them leaves an optimal code

  lemma Raise(items: seq<Item>, top: nat)
    requires Below(items, top)
    ensures Below(items, top + 1) && KraftSum(items, top + 1) == 2 * KraftSum(items, top)
  {
    NoneAtTop(items, top + 1);
    Lower(items, top + 1);
  }

  // A codeword for u + v split into codewords for u and v, one bit longer.
  lemma Split(items: seq<Item>, top: nat, others: multiset<int>, u: nat, v: nat) returns (two: seq<Item>)
    requires Fits(items, top) && Weights(items) == others + multiset{u + v}
    ensures Fits(two, top + 1) && Weights(two) == others + multiset{u} + multiset{v}
    ensures Cost(two) == Cost(items) + u + v
  {
    hide Cost, Weights, KraftSum, Bill, Share, Pow2, Below;
    var k := WeightAt(items, u + v);
    var rest, l := Without(items, k), items[k].len;
    Remove(items, k, top);
    Cancel(Weights(rest), others, u + v);
    WithoutBelow(items, k, top);
    Raise(rest, top);
    var x, y := Item(u, l + 1), Item(v, l + 1);
    two := rest + [x] + [y];
    AddItem(rest, x, top + 1);
    AddItem(rest + [x], y, top + 1);
    ContractBill(u, v, l + 1);
    SplitFits(items, rest, two, top, l);
  }

  lemma WithoutBelow(items: seq<Item>, k: nat, top: nat)
    requires k < |items| && Below(items, top)
    ensures Below(Without(items, k), top) && items[k].len <= top
  {
  }

  lemma AddItem(items: seq<Item>, x: Item, top: nat)
    ensures Cost(items + [x]) == Cost(items) + Bill(x.weight, x.len)
    ensures KraftSum(items + [x], top) == KraftSum(items, top) + Share(x.len, top)
    ensures Weights(items + [x]) == Weights(items) + multiset{x.weight}
  {
    hide Cost, KraftSum, Weights, Bill, Share;
    Concat(items, [x], top);
    Single(x, top);
  }

  lemma SplitFits(items: seq<Item>, rest: seq<Item>, two: seq<Item>, top: nat, l: nat)
    requires Below(items, top) && l <= top && KraftSum(items, top) <= Pow2(top)
    requires Below(rest, top + 1) && KraftSum(items, top) == KraftSum(rest, top) + Share(l, top)
    requires KraftSum(rest, top + 1) == 2 * KraftSum(rest, top)
    requires KraftSum(two, top + 1) == KraftSum(rest, top + 1) + Share(l + 1, top + 1) + Share(l + 1, top + 1)
    requires |two| == |rest| + 2 && two[..|rest|] == rest && two[|rest|].len == two[|rest| + 1].len == l + 1
    ensures Fits(two, top + 1)
  {
    assert Pow2(top + 1) == 2 * Pow2(top);
    assert Share(l, top) == Share(l + 1, top + 1) == Pow2(top - l);
    forall i | 0 <= i < |two| ensures two[i].len <= top + 1 {
      if i < |rest| { assert two[i] == two[..|rest|][i]; }
    }
  }

  lemma MergedBound(ws: multiset<int>, others: multiset<int>, u: nat, v: nat, c: int)
    requires LowerBound(ws, c) && ws == others + multiset{u} + multiset{v}
    ensures LowerBound(others + multiset{u + v}, c - u - v)
  {
    forall items: seq<Item>, top: nat | Fits(items, top) && Weights(items) == others + multiset{u + v}
      ensures Cost(items) >= c - u - v
    {
      hide Fits, Weights, Cost;
      var two := Split(items, top, others, u, v);
      UseBound(ws, c, two, top + 1);
    }
  }

  // Merging the two lightest symbols of an optimal code leaves an optimal code.
  lemma MergedOptimal(items: seq<Item>, top: nat, others: multiset<int>, u: nat, v: nat)
    returns (rest: seq<Item>, q: nat, level: nat)
    requires KraftExact(items, top) && LowerBound(Weights(items), Cost(items))
    requires Weights(items) == others + multiset{u} + multiset{v} && u < v
    requires forall z :: z in others ==> u < z && v <= z
    ensures level >= 1 && Weights(rest) == others
    ensures Item(u, level) in items && Item(v, level) in items
    ensures
      var r := rest + [Item(u + v, level - 1)];
      Weights(r) == others + multiset{u + v} && KraftExact(r, level) && LowerBound(Weights(r), Cost(r))
  {
    hide LowerBound, Weights, Cost, KraftSum;
    var p;
    p, q, level := DeepPair(items, top, others, u, v);
    rest := TakeTwo(items, others, u, v, p, q, level);
    var m := Item(u + v, level - 1);
    MergeItem(rest, m, level);
    ContractBill(u, v, level);
    MergedBound(Weights(items), others, u, v, Cost(items));
    assert items[p] in items && items[q] in items;
  }

  lemma MergeItem(rest: seq<Item>, m: Item, level: nat)
    requires level >= 1 && m.len == level - 1 && Below(rest, level) && KraftSum(rest, level) + 2 == Pow2(level)
    ensures KraftExact(rest + [m], level)
    ensures Weights(rest + [m]) == Weights(rest) + multiset{m.weight}
    ensures Cost(rest + [m]) == Cost(rest) + Bill(m.weight, level - 1)
  {
    hide Cost, KraftSum, Weights, Bill, Pow2;
    AddItem(rest, m, level);
    ContractBill(0, 0, level);
  }

  lemma TakeTwo(items: seq<Item>, others: multiset<int>, u: nat, v: nat, p: nat, q: nat, level: nat)
    returns (rest: seq<Item>)
    requires KraftExact(items, level) && Weights(items) == others + multiset{u} + multiset{v}
    requires p < |items| && q < |items| && p != q && items[p] == Item(u, level) && items[q] == Item(v, level)
    ensures Weights(rest) == others && Below(rest, level) && KraftSum(rest, level) + 2 == Pow2(level)
    ensures Cost(items) == Cost(rest) + Bill(u, level) + Bill(v, level)
  {
    hide Weights, Cost, KraftSum, Bill, Pow2;
    var one := Without(items, q);
    Remove(items, q, level);
    var p' := if p < q then p else p - 1;
    assert one[p'] == items[p];
    rest := Without(one, p');
    Remove(one, p', level);
    Cancel(Weights(one), others + multiset{u}, v);
    Cancel(Weights(rest), others, u);
    Tip(level);
  }

  lemma Tip(level: nat)
    ensures Share(level, level) == 1
  {
  }

  // ---------- the counts

  // Byte values k to 24.
  function Tail(k: nat): multiset<int>
    decreases 25 - k
  {
    if k >= 25 then multiset{} else Tail(k + 1) + multiset{2 * Fib(k + 1)}
  }

  // END and the byte values below k, merged.
  function Merged(k: nat): int {
    2 * Fib(k + 2) - 1
  }

  lemma {:induction false} FibGrows(k: nat)
    requires k >= 1
    ensures Fib(k) >= 1
  {
    if k > 2 { FibGrows(k - 1); }
  }

  lemma {:induction false} TailAbove(k: nat, z: int)
    requires z in Tail(k)
    ensures z >= 2 * Fib(k + 1) && z % 2 == 0
    decreases 25 - k
  {
    hide Fib;
    if z in Tail(k + 1) {
      TailAbove(k + 1, z);
      FibMono(k + 1, k + 2);
    }
  }

  lemma FibFacts(k: nat)
    ensures Fib(k + 3) == Fib(k + 2) + Fib(k + 1)
    ensures k > 0 ==> Fib(k + 2) > Fib(k + 1) >= 1
    ensures k == 0 ==> Fib(k + 2) == 1 == Fib(k + 1)
  {
    FibGrows(k + 1);
    if k > 0 { FibGrows(k); }
  }

  lemma TailStep(k: nat)
    requires k < 25
    ensures Tail(k) == Tail(k + 1) + multiset{2 * Fib(k + 1)}
  {
  }

  lemma MergedIs(k: nat)
    ensures Merged(k) == 2 * Fib(k + 2) - 1
  {
  }

  // The two lightest weights after k merges, the lighter one first.
  lemma NextTwo(k: nat, others: multiset<int>) returns (u: int, v: int)
    requires k < 25 && others == Tail(k + 1)
    ensures 0 < u < v && u + v == Merged(k + 1)
    ensures u == Merged(k) || v == Merged(k)
    ensures multiset{Merged(k)} + Tail(k) == others + multiset{u} + multiset{v}
    ensures forall z :: z in others ==> u < z && v <= z
  {
    hide *;
    FibFacts(k);
    MergedIs(k);
    MergedIs(k + 1);
    TailStep(k);
    var x, y := Merged(k), 2 * Fib(k + 1);
    forall z | z in others ensures z > x && z >= y {
      TailAbove(k + 1, z);
    }
    if k == 0 {
      u, v := x, y;
    } else {
      u, v := y, x;
    }
    Reorder(others, x, y);
  }

  lemma Reorder(others: multiset<int>, x: int, y: int)
    ensures multiset{x} + (others + multiset{y}) == others + multiset{x} + multiset{y}
    ensures multiset{x} + (others + multiset{y}) == others + multiset{y} + multiset{x}
  {
  }

  // In an optimal code for what is left after k merges the merged symbol has
  // 25 - k bits.
  lemma {:induction false} MergedDeep(items: seq<Item>, top: nat, k: nat) returns (i: nat)
    requires k <= 25 && KraftExact(items, top) && LowerBound(Weights(items), Cost(items))
    requires Weights(items) == multiset{Merged(k)} + Tail(k)
    ensures i < |items| && items[i].weight == Merged(k) && items[i].len >= 25 - k
    decreases 25 - k
  {
    hide *;
    if k == 25 {
      assert Merged(k) in Weights(items);
      i := WeightAt(items, Merged(k));
    } else {
      var others := Tail(k + 1);
      var u, v := NextTwo(k, others);
      var rest, q, level := MergedOptimal(items, top, others, u, v);
      var m := Item(u + v, level - 1);
      Swap(others, u + v);
      var j := MergedDeep(rest + [m], level, k + 1);
      if j < |rest| { NotOdd(rest, j, k); }
      var x := Item(Merged(k), level);
      assert x in items;
      i :| 0 <= i < |items| && items[i] == x;
    }
  }

  lemma Swap(others: multiset<int>, x: int)
    ensures others + multiset{x} == multiset{x} + others
  {
  }

  lemma NotOdd(rest: seq<Item>, j: nat, k: nat)
    requires j < |rest| && Weights(rest) == Tail(k + 1)
    ensures rest[j].weight != Merged(k + 1)
  {
    hide Weights, Tail, Fib;
    InWeights(rest, j);
    TailAbove(k + 1, rest[j].weight);
  }

  // ---------- the text

  function Repeat(b: Byte, n: nat): (s: seq<Byte>)
    ensures |s| == n && forall i :: 0 <= i < n ==> s[i] == b
  {
    seq(n, _ => b)
  }

  function Fibonacci(k: nat): seq<Byte>
    requires k <= 25
  {
    if k == 0 then [] else Fibonacci(k - 1) + Repeat((k - 1) as Byte, Fib(k))
  }

  lemma {:induction false} FibonacciLength(k: nat)
    requires k <= 25
    ensures |Fibonacci(k)| == Fib(k + 2) - 1
  {
    if k == 0 {
      assert Fib(2) == 1;
    } else {
      FibonacciLength(k - 1);
    }
  }

  lemma {:induction false} RepeatBag(b: Byte, n: nat, c: Byte)
    ensures multiset(Repeat(b, n))[c] == if c == b then n else 0
  {
    if n == 0 {
      assert Repeat(b, n) == [];
    } else {
      RepeatBag(b, n - 1, c);
      assert Repeat(b, n) == Repeat(b, n - 1) + [b];
      BagConcat(Repeat(b, n - 1), [b], c);
    }
  }

  lemma BagConcat(s: seq<Byte>, t: seq<Byte>, c: Byte)
    ensures multiset(s + t)[c] == multiset(s)[c] + multiset(t)[c]
  {
  }

  lemma {:induction false} FibonacciBag(k: nat, c: Byte)
    requires k <= 25
    ensures multiset(Fibonacci(k))[c] == if (c as int) < k then Fib(c as int + 1) else 0
  {
    hide *;
    FibonacciStep(k);
    if k > 0 {
      FibonacciBag(k - 1, c);
      RepeatBag((k - 1) as Byte, Fib(k), c);
      BagConcat(Fibonacci(k - 1), Repeat((k - 1) as Byte, Fib(k)), c);
    }
  }

  lemma FibonacciStep(k: nat)
    requires k <= 25
    ensures Fibonacci(k) == if k == 0 then [] else Fibonacci(k - 1) + Repeat((k - 1) as Byte, Fib(k))
  {
  }

  lemma FibonacciTable(c: nat)
    requires c <= END
    ensures CountTable(Fibonacci(25))[c] == if c == END then 1 else if c < 25 then 2 * Fib(c + 1) else 0
  {
    if c < END { FibonacciBag(25, c as Byte); }
  }

  lemma TableSize()
    ensures |CountTable(Fibonacci(25))| == END + 1
  {
  }

  lemma SymbolsStep(count: seq<int>, s: nat)
    requires |count| == END + 1 && s <= END
    ensures Symbols(count, s) == Symbols(count, s + 1) + if count[s] > 0 then [s] else []
  {
  }

  lemma SymbolsEnd(count: seq<int>)
    requires |count| == END + 1
    ensures Symbols(count, END + 1) == []
  {
  }

  lemma NoTailFrom(s: nat)
    requires s >= 25 || s == END
    ensures Tail(s) == Tail(s + 1) == multiset{}
  {
  }

  lemma ItemsSnoc(syms: seq<int>, s: nat, count: seq<int>, len: seq<int>)
    requires |count| == END + 1 && s <= END && count[s] >= 0
    ensures Weights(ItemsOf(syms + [s], count, len)) == Weights(ItemsOf(syms, count, len)) + multiset{count[s]}
    ensures syms + [] == syms
  {
    hide Weights;
    var items := ItemsOf(syms, count, len);
    var x := ItemOf(s, count, len);
    assert ItemsOf(syms + [s], count, len) == items + [x];
    AddItem(items, x, 0);
  }

  lemma {:induction false} FibonacciWeights(len: seq<int>, s: nat)
    requires s <= END
    ensures Weights(ItemsOf(Symbols(CountTable(Fibonacci(25)), s), CountTable(Fibonacci(25)), len))
      == multiset{1} + Tail(s)
    decreases END - s
  {
    hide *;
    var cs := CountTable(Fibonacci(25));
    TableSize();
    var syms := Symbols(cs, s + 1);
    SymbolsStep(cs, s);
    FibonacciTable(s);
    ItemsSnoc(syms, s, cs, len);
    if s == END {
      NoTailFrom(s);
      SymbolsEnd(cs);
      WeightsStep(ItemsOf(syms, cs, len));
    } else {
      FibonacciWeights(len, s + 1);
      if s < 25 {
        FibGrows(s + 1);
        TailStep(s);
        Regroup(multiset{1}, Tail(s + 1), multiset{2 * Fib(s + 1)});
      } else {
        NoTailFrom(s);
      }
    }
  }

  // No optimal code for this text stays within 24 bits.
  lemma EveryCodeDeep(len: seq<int>)
    requires |len| == END + 1 && Optimal(CountTable(Fibonacci(25)), len)
    ensures len[END] >= 25
  {
    hide KraftExact, LowerBound, CountTable, Fibonacci, Symbols, Fib, Tail, Weights, Cost;
    var items := SymbolItems(CountTable(Fibonacci(25)), len);
    var top: nat :| KraftExact(items, top);
    FibonacciWeights(len, 0);
    FibonacciMerged();
    var i := MergedDeep(items, top, 0);
    OddSymbol(len, i);
  }

  lemma FibonacciMerged()
    ensures Merged(0) == 1
  {
  }

  lemma OddSymbol(len: seq<int>, i: nat)
    requires |len| == END + 1 && i < |SymbolItems(CountTable(Fibonacci(25)), len)|
    requires SymbolItems(CountTable(Fibonacci(25)), len)[i].weight == 1
    requires SymbolItems(CountTable(Fibonacci(25)), len)[i].len >= 25
    ensures len[END] >= 25
  {
    hide CountTable, Symbols, Fib, Fibonacci;
    var cs := CountTable(Fibonacci(25));
    SymbolsRange(cs, 0);
    var c := Symbols(cs, 0)[i];
    assert c in Symbols(cs, 0);
    FibonacciTable(c);
  }

  lemma FibonacciNotTrivial()
    ensures |Symbols(CountTable(Fibonacci(25)), 0)| > 2
  {
    hide CountTable, Fib, Fibonacci;
    var cs := CountTable(Fibonacci(25));
    FibonacciTable(END);
    FibonacciTable(0);
    FibonacciTable(1);
    FibGrows(1);
    FibGrows(2);
    ThreeSymbols(cs, 0, 1, 0);
  }

  // 196417 bytes that pack refuses, with -f or without.
  method RefuseDeep(force: bool) returns (text: seq<Byte>, r: Outcome)
    ensures |text| == 196417 && r.TooManyLevels?
  {
    hide CountTable, Fib, Fibonacci, Symbols, Optimal;
    text := Fibonacci(25);
    FibonacciLength(25);
    DeepTree();
    FibonacciNotTrivial();
    var packer := new Packer();
    r := packer.Packfile(text, force);
    EveryCodeDeep(packer.length[..]);
  }
}
