// Code lengths (att.rel.2/cmd/pack.c:245-258): what the depths read off the
// finished tree are worth.

module Lengths {
  import opened BitStrings
  import opened Kraft
  import opened PrefixCodes
  import opened Huffman
  import opened Forest

  // The symbols that occur, from END down to s.
  function Symbols(count: seq<int>, s: nat): seq<int>
    requires |count| == END + 1 && s <= END + 1
    decreases END + 1 - s
  {
    if s == END + 1 then [] else Symbols(count, s + 1) + if count[s] > 0 then [s] else []
  }

  lemma {:induction false} SymbolsRange(count: seq<int>, s: nat)
    requires |count| == END + 1 && s <= END + 1
    ensures forall x :: x in Symbols(count, s) <==> s <= x <= END && count[x] > 0
    decreases END + 1 - s
  {
    if s <= END { SymbolsRange(count, s + 1); }
  }

  function ItemOf(s: int, count: seq<int>, len: seq<int>): Item {
    Item(CountOf(count, s), CountOf(len, s))
  }

  function ItemsOf(syms: seq<int>, count: seq<int>, len: seq<int>): (items: seq<Item>)
    ensures |items| == |syms| && forall i :: 0 <= i < |syms| ==> items[i] == ItemOf(syms[i], count, len)
  {
    seq(|syms|, i requires 0 <= i < |syms| => ItemOf(syms[i], count, len))
  }

  lemma {:induction false} ItemsPermute(a: seq<int>, b: seq<int>, count: seq<int>, len: seq<int>)
    requires multiset(a) == multiset(b)
    ensures multiset(ItemsOf(a, count, len)) == multiset(ItemsOf(b, count, len))
    decreases |a|
  {
    hide ItemOf;
    if |a| == 0 {
      assert |b| == |multiset(b)| == 0;
      assert ItemsOf(a, count, len) == ItemsOf(b, count, len);
    } else {
      assert a[0] in multiset(b);
      var k :| 0 <= k < |b| && b[k] == a[0];
      assert Without(a, 0) == a[1..];
      WithoutBag(a, 0);
      WithoutBag(b, k);
      ItemsPermute(a[1..], Without(b, k), count, len);
      ItemsWithout(a, 0, count, len);
      ItemsWithout(b, k, count, len);
    }
  }

  lemma ItemsWithout(a: seq<int>, k: nat, count: seq<int>, len: seq<int>)
    requires k < |a|
    ensures multiset(ItemsOf(a, count, len))
      == multiset(ItemsOf(Without(a, k), count, len)) + multiset{ItemOf(a[k], count, len)}
  {
    hide ItemOf;
    var items := ItemsOf(a, count, len);
    assert ItemsOf(Without(a, k), count, len) == Without(items, k);
    WithoutBag(items, k);
    assert items[k] in multiset(items);
  }

  // The code with lengths len for the symbols with counts count.
  function SymbolItems(count: seq<int>, len: seq<int>): seq<Item>
    requires |count| == END + 1
  {
    ItemsOf(Symbols(count, 0), count, len)
  }

  // The counts of the symbols that occur, in the order of Symbols.
  function SymbolCounts(count: seq<int>): (ws: seq<nat>)
    requires |count| == END + 1
    ensures |ws| == |Symbols(count, 0)|
  {
    seq(|Symbols(count, 0)|, i requires 0 <= i < |Symbols(count, 0)| => CountOf(count, Symbols(count, 0)[i]))
  }

  // The lengths fill the code space exactly and no code that fits is cheaper.
  ghost predicate Optimal(count: seq<int>, len: seq<int>)
    requires |count| == END + 1
  {
    (exists top :: KraftExact(SymbolItems(count, len), top)) &&
    LowerBound(Weights(SymbolItems(count, len)), Cost(SymbolItems(count, len)))
  }

  predicate KraftExact(items: seq<Item>, top: nat) {
    Below(items, top) && KraftSum(items, top) == Pow2(top)
  }

  // No prefix code for the occurring symbols spends fewer bits.
  lemma OptimalBeatsPrefixCodes(count: seq<int>, len: seq<int>, codes: seq<Codeword>)
    requires |count| == END + 1 && Optimal(count, len)
    requires |codes| == |Symbols(count, 0)| && PrefixFree(codes)
    ensures Cost(SymbolItems(count, len)) <= Cost(CodeItems(SymbolCounts(count), codes))
  {
    var other := CodeItems(SymbolCounts(count), codes);
    var top := PrefixCodeFits(SymbolCounts(count), codes);
    SameWeights(SymbolItems(count, len), other);
  }

  lemma {:induction false} SameWeights(a: seq<Item>, b: seq<Item>)
    requires |a| == |b| && forall i :: 0 <= i < |a| ==> a[i].weight == b[i].weight
    ensures Weights(a) == Weights(b)
  {
    if |a| != 0 { SameWeights(a[1..], b[1..]); }
  }

  // ---------- from the finished tree to its lengths

  // len holds the tree's depths.
  predicate DepthsOf(len: seq<int>, parent: seq<int>, last: int) {
    |len| == END + 1 && END <= last < |parent| && Upward(parent[..last + 1]) &&
    forall s :: 0 <= s <= END ==> len[s] == Depth(parent[..last + 1], s)
  }

  lemma {:induction false} LinkedPrefix(t: Tree, parent: seq<int>, m: int)
    requires Linked(t, parent) && 0 <= m <= |parent|
    requires forall x :: x in NonRoots(t) ==> x < m
    ensures Linked(t, parent[..m])
  {
    match t
    case Leaf(_) =>
    case Node(_, l, r) =>
      assert l.node in NonRoots(t) && r.node in NonRoots(t);
      LinkedPrefix(l, parent, m);
      LinkedPrefix(r, parent, m);
  }

  lemma FinishedLinks(t: Tree, count: seq<int>, parent: seq<int>, last: int, linked: set<int>)
    requires ForestOk([t], count, parent, last, linked) && t.node == last && parent[last] == 0
    ensures Upward(parent[..last + 1]) && Linked(t, parent[..last + 1])
    ensures forall x :: x in NonRoots(t) ==> 0 <= x <= last && parent[x] != 0
  {
    hide Balanced, Linked, NonRoots;
    assert [t][0] == t;
    assert TreeOk(t, count, parent, last, linked);
    assert Roots([t]) == {last};
    LinkedPrefix(t, parent, last + 1);
  }

  lemma {:induction false} LeafBag(fs: seq<Tree>, syms: seq<int>)
    requires |fs| == |syms| && forall i :: 0 <= i < |fs| ==> fs[i].Leaf? && fs[i].node == syms[i]
    ensures AllLeaves(fs) == multiset(syms)
  {
    if |fs| != 0 {
      LeafBag(fs[1..], syms[1..]);
      assert syms == [syms[0]] + syms[1..];
      assert Leaves(fs[0]) == [syms[0]];
    }
  }

  // The depths in the finished tree are optimal lengths.
  lemma TreeLengthsOptimal(t: Tree, count: seq<int>, parent: seq<int>, last: int, linked: set<int>, len: seq<int>,
                           fs0: seq<Tree>)
    requires |count| == END + 1
    requires ForestOk([t], count, parent, last, linked) && t.node == last && parent[last] == 0
    requires DepthsOf(len, parent, last)
    requires multiset(Leaves(t)) == multiset(Symbols(count, 0))
    requires RootWeights(fs0, count) == Weights(SymbolItems(count, len))
    requires Reduces(RootWeights(fs0, count), multiset{Weight(t, count)}, Internal(t, count))
    ensures Optimal(count, len)
    ensures KraftExact(SymbolItems(count, len), Height(t))
  {
    hide *;
    var items, leafItems := SymbolItems(count, len), LeafItems(t, count, 0);
    LeafItemsAreSymbolItems(t, count, parent, last, linked, len);
    ItemsKraft(t, count, 0, Height(t));
    ItemsCost(t, count, 0);
    BillAtRoot(Weight(t, count));
    Permuted(leafItems, items, Height(t));
    BelowPermuted(leafItems, items, Height(t));
    KraftExactIntro(items, Height(t));
    RootBound(Weight(t, count));
    ReducesTo(Weights(items), multiset{Weight(t, count)}, Internal(t, count));
    OptimalIntro(count, len, Height(t));
  }

  lemma BillAtRoot(w: int)
    ensures Bill(w, 0) == 0
  {
  }

  lemma KraftExactIntro(items: seq<Item>, top: nat)
    requires Below(items, top) && KraftSum(items, top) == Pow2(top - 0)
    ensures KraftExact(items, top)
  {
  }

  lemma OptimalIntro(count: seq<int>, len: seq<int>, top: nat)
    requires |count| == END + 1 && KraftExact(SymbolItems(count, len), top)
    requires LowerBound(Weights(SymbolItems(count, len)), Cost(SymbolItems(count, len)))
    ensures Optimal(count, len)
  {
  }

  lemma RootBound(w: nat)
    ensures LowerBound(multiset{w}, 0)
  {
    forall items: seq<Item>, top: nat | Fits(items, top) && Weights(items) == multiset{w} ensures Cost(items) >= 0 {
      CostNonNegative(items);
    }
  }

  lemma {:induction false} CostNonNegative(items: seq<Item>)
    ensures Cost(items) >= 0
  {
    if |items| != 0 {
      CostNonNegative(items[1..]);
      BillIsProduct(items[0].weight, items[0].len);
      assert items[0].weight * items[0].len >= 0;
    }
  }

  lemma ReducesTo(ws: multiset<int>, cur: multiset<int>, spent: int)
    requires Reduces(ws, cur, spent) && LowerBound(cur, 0)
    ensures LowerBound(ws, spent)
  {
    assert LowerBound(ws, 0 + spent);
  }

  lemma BelowPermuted(a: seq<Item>, b: seq<Item>, top: nat)
    requires multiset(a) == multiset(b) && Below(a, top)
    ensures Below(b, top)
  {
    forall i | 0 <= i < |b| ensures b[i].len <= top {
      assert b[i] in multiset(a);
    }
  }

  lemma LeafItemsAreSymbolItems(t: Tree, count: seq<int>, parent: seq<int>, last: int, linked: set<int>, len: seq<int>)
    requires |count| == END + 1
    requires ForestOk([t], count, parent, last, linked) && t.node == last && parent[last] == 0
    requires DepthsOf(len, parent, last)
    requires multiset(Leaves(t)) == multiset(Symbols(count, 0))
    ensures multiset(LeafItems(t, count, 0)) == multiset(SymbolItems(count, len))
  {
    hide LeafItems, Leaves, Symbols, Linked, NonRoots, ForestOk, Upward, Depth;
    FinishedLinks(t, count, parent, last, linked);
    var links, ls := parent[..last + 1], Leaves(t);
    RootDepth(links, last);
    DepthsAreTreeDepths(t, count, links, 0);
    SymbolsRange(count, 0);
    forall k | 0 <= k < |ls| ensures LeafItems(t, count, 0)[k] == ItemsOf(ls, count, len)[k] {
      assert ls[k] in multiset(Symbols(count, 0));
      assert ls[k] in Symbols(count, 0);
      assert len[ls[k]] == Depth(links, ls[k]);
    }
    assert LeafItems(t, count, 0) == ItemsOf(ls, count, len);
    ItemsPermute(ls, Symbols(count, 0), count, len);
  }

  lemma RootDepth(links: seq<int>, last: nat)
    requires Upward(links) && last < |links| && links[last] == 0
    ensures Depth(links, last) == 0
  {
  }

  // ---------- how heavy a deep tree is

  function TotalWeight(items: seq<Item>): int {
    if |items| == 0 then 0 else items[0].weight + TotalWeight(items[1..])
  }

  lemma {:induction false} TotalConcat(a: seq<Item>, b: seq<Item>)
    ensures TotalWeight(a + b) == TotalWeight(a) + TotalWeight(b)
  {
    if |a| == 0 {
      assert a + b == b;
    } else {
      TotalConcat(a[1..], b);
      assert (a + b)[1..] == a[1..] + b;
    }
  }

  lemma TotalOne(x: Item)
    ensures TotalWeight([x]) == x.weight
  {
  }

  lemma TakenApart(b: seq<Item>, k: nat)
    requires k < |b|
    ensures b == b[..k] + ([b[k]] + b[k + 1..]) && Without(b, k) == b[..k] + b[k + 1..]
  {
  }

  lemma TotalWithout(b: seq<Item>, k: nat)
    requires k < |b|
    ensures TotalWeight(b) == b[k].weight + TotalWeight(Without(b, k))
  {
    hide TotalWeight, Without;
    TakenApart(b, k);
    TotalOne(b[k]);
    TotalConcat(b[..k], [b[k]] + b[k + 1..]);
    TotalConcat([b[k]], b[k + 1..]);
    TotalConcat(b[..k], b[k + 1..]);
  }

  lemma {:induction false} TotalPermuted(a: seq<Item>, b: seq<Item>)
    requires multiset(a) == multiset(b)
    ensures TotalWeight(a) == TotalWeight(b)
    decreases |a|
  {
    if |a| == 0 {
      assert |b| == |multiset(b)| == 0;
    } else {
      assert a[0] in multiset(b);
      var k :| 0 <= k < |b| && b[k] == a[0];
      TotalWithout(a, 0);
      TotalWithout(b, k);
      hide TotalWeight;
      WithoutBag(a, 0);
      WithoutBag(b, k);
      TotalPermuted(Without(a, 0), Without(b, k));
    }
  }

  lemma {:induction false} TreeTotal(t: Tree, count: seq<int>, d: nat)
    ensures TotalWeight(LeafItems(t, count, d)) == Weight(t, count)
  {
    match t
    case Leaf(_) =>
    case Node(_, l, r) =>
      TreeTotal(l, count, d + 1);
      TreeTotal(r, count, d + 1);
      TotalConcat(LeafItems(l, count, d + 1), LeafItems(r, count, d + 1));
  }

  lemma {:induction false} FibMono(m: nat, n: nat)
    requires m <= n
    ensures Fib(m) <= Fib(n)
    decreases n
  {
    if m < n {
      FibMono(m, n - 1);
      assert n == 1 || Fib(n) == Fib(n - 1) + Fib(n - 2);
    }
  }

  // Whatever the input, a codeword of L bits takes a total count of at least
  // Fib(L + 2).
  lemma DepthCosts(t: Tree, count: seq<int>, parent: seq<int>, last: int, linked: set<int>, len: seq<int>, c: nat)
    requires |count| == END + 1
    requires ForestOk([t], count, parent, last, linked) && t.node == last && parent[last] == 0
    requires DepthsOf(len, parent, last)
    requires multiset(Leaves(t)) == multiset(Symbols(count, 0))
    requires |len| == END + 1 && c <= END && count[c] > 0 && len[c] >= 0
    ensures TotalWeight(SymbolItems(count, len)) >= Fib(len[c] + 2)
  {
    hide *;
    var leafItems, items := LeafItems(t, count, 0), SymbolItems(count, len);
    LeafItemsAreSymbolItems(t, count, parent, last, linked, len);
    ItemsKraft(t, count, 0, Height(t));
    BelowPermuted(leafItems, items, Height(t));
    TotalPermuted(leafItems, items);
    TreeTotal(t, count, 0);
    OnlyTree(t, count, parent, last, linked);
    FibonacciWeight(t, count);
    HasLength(count, len, c, Height(t));
    FibMono(len[c] + 2, Height(t) + 2);
  }

  // Where the counts add up to an odd number, some symbol with an odd count has
  // a codeword of L bits, and the total is 2 * Fib(L + 2) - 1 at least.
  lemma OddDepthCosts(t: Tree, count: seq<int>, parent: seq<int>, last: int, linked: set<int>, len: seq<int>)
    returns (c: nat)
    requires |count| == END + 1
    requires ForestOk([t], count, parent, last, linked) && t.node == last && parent[last] == 0
    requires DepthsOf(len, parent, last)
    requires multiset(Leaves(t)) == multiset(Symbols(count, 0))
    requires TotalWeight(SymbolItems(count, len)) % 2 == 1
    ensures c <= END < |len| && count[c] > 0 && count[c] % 2 == 1 && len[c] >= 0
    ensures TotalWeight(SymbolItems(count, len)) >= 2 * Fib(len[c] + 2) - 1
  {
    hide *;
    var leafItems, items := LeafItems(t, count, 0), SymbolItems(count, len);
    LeafItemsAreSymbolItems(t, count, parent, last, linked, len);
    TotalPermuted(leafItems, items);
    TreeTotal(t, count, 0);
    OnlyTree(t, count, parent, last, linked);
    OddWeight(t, count);
    var i := OddLeaf(t, count, 0);
    assert leafItems[i] in multiset(items);
    var k :| 0 <= k < |items| && items[k] == leafItems[i];
    NoNegativeDepth(len, parent, last);
    c := ItemSymbol(count, len, k);
  }

  lemma NoNegativeDepth(len: seq<int>, parent: seq<int>, last: int)
    requires DepthsOf(len, parent, last)
    ensures |len| == END + 1 && forall s :: 0 <= s <= END ==> len[s] >= 0
  {
  }

  lemma ItemSymbol(count: seq<int>, len: seq<int>, k: nat) returns (c: nat)
    requires |count| == END + 1 && k < |SymbolItems(count, len)|
    requires |len| == END + 1 && forall s :: 0 <= s <= END ==> len[s] >= 0
    ensures c <= END && count[c] > 0 && SymbolItems(count, len)[k] == Item(count[c], len[c])
  {
    hide Symbols;
    SymbolsRange(count, 0);
    assert Symbols(count, 0)[k] in Symbols(count, 0);
    c := Symbols(count, 0)[k];
  }

  lemma OnlyTree(t: Tree, count: seq<int>, parent: seq<int>, last: int, linked: set<int>)
    requires ForestOk([t], count, parent, last, linked)
    ensures Balanced(t, count)
  {
    assert [t][0] == t;
    assert TreeOk(t, count, parent, last, linked);
  }

  lemma HasLength(count: seq<int>, len: seq<int>, c: nat, top: nat)
    requires |count| == END + 1 && |len| == END + 1 && c <= END && count[c] > 0 && len[c] >= 0
    requires Below(SymbolItems(count, len), top)
    ensures len[c] <= top
  {
    SymbolsRange(count, 0);
    var i :| 0 <= i < |Symbols(count, 0)| && Symbols(count, 0)[i] == c;
    assert SymbolItems(count, len)[i].len == len[c];
  }
}
