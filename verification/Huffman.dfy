// The trees pack builds (att.rel.2/cmd/pack.c:226-243), as values.
//
// While the packer runs, every node in its heap is the root of one of these
// trees, and the `parent` array links exactly the trees' inner edges.

module Huffman {
  import opened BitStrings
  import opened Kraft

  datatype Tree =
    | Leaf(node: nat)
    | Node(node: nat, left: Tree, right: Tree)

  // What a heap slot holds: a root and the weight of its tree.
  datatype Entry = Entry(count: int, node: int)

  function CountOf(count: seq<int>, s: int): nat {
    if 0 <= s < |count| && count[s] >= 0 then count[s] else 0
  }

  function Weight(t: Tree, count: seq<int>): nat {
    match t
    case Leaf(s) => CountOf(count, s)
    case Node(_, l, r) => Weight(l, count) + Weight(r, count)
  }

  function Leaves(t: Tree): seq<int> {
    match t
    case Leaf(s) => [s]
    case Node(_, l, r) => Leaves(l) + Leaves(r)
  }

  // Sum of the weights of the inner nodes: what all the merges added up to.
  function Internal(t: Tree, count: seq<int>): int {
    match t
    case Leaf(_) => 0
    case Node(_, l, r) => Weight(t, count) + Internal(l, count) + Internal(r, count)
  }

  // The code a tree stands for, its root at depth d.
  function LeafItems(t: Tree, count: seq<int>, d: nat): seq<Item> {
    match t
    case Leaf(s) => [Item(CountOf(count, s), d)]
    case Node(_, l, r) => LeafItems(l, count, d + 1) + LeafItems(r, count, d + 1)
  }

  function Height(t: Tree): nat {
    match t
    case Leaf(_) => 0
    case Node(_, l, r) => 1 + if Height(l) < Height(r) then Height(r) else Height(l)
  }

  // The code's cost is the sum of all merged weights.
  lemma {:induction false} ItemsCost(t: Tree, count: seq<int>, d: nat)
    ensures Cost(LeafItems(t, count, d)) == Bill(Weight(t, count), d) + Internal(t, count)
  {
    match t
    case Leaf(s) => Single(Item(CountOf(count, s), d), 0);
    case Node(_, l, r) =>
      ItemsCost(l, count, d + 1);
      ItemsCost(r, count, d + 1);
      ConcatCost(LeafItems(l, count, d + 1), LeafItems(r, count, d + 1));
      BillAdds(Weight(l, count), Weight(r, count), d);
      var a, b := Weight(l, count), Weight(r, count);
      assert Bill(a, d + 1) == a + Bill(a, d) && Bill(b, d + 1) == b + Bill(b, d);
  }

  lemma BelowConcat(a: seq<Item>, b: seq<Item>, top: nat)
    requires Below(a, top) && Below(b, top)
    ensures Below(a + b, top)
  {
  }

  // A full binary tree fills the code space exactly.
  lemma {:induction false} ItemsKraft(t: Tree, count: seq<int>, d: nat, top: nat)
    requires d + Height(t) <= top
    ensures Below(LeafItems(t, count, d), top)
    ensures KraftSum(LeafItems(t, count, d), top) == Pow2(top - d)
  {
    match t
    case Leaf(s) => Single(Item(CountOf(count, s), d), top);
    case Node(_, l, r) =>
      ItemsKraft(l, count, d + 1, top);
      ItemsKraft(r, count, d + 1, top);
      var a, b := LeafItems(l, count, d + 1), LeafItems(r, count, d + 1);
      ConcatKraft(a, b, top);
      BelowConcat(a, b, top);
  }

  // ---------- links

  // parent[] holds the inner edges of t.
  predicate Linked(t: Tree, parent: seq<int>) {
    match t
    case Leaf(_) => true
    case Node(n, l, r) =>
      l.node < |parent| && parent[l.node] == n &&
      r.node < |parent| && parent[r.node] == n &&
      Linked(l, parent) && Linked(r, parent)
  }

  function NonRoots(t: Tree): set<int> {
    match t
    case Leaf(_) => {}
    case Node(_, l, r) => {l.node, r.node} + NonRoots(l) + NonRoots(r)
  }

  lemma {:induction false} LinkedFrame(t: Tree, before: seq<int>, after: seq<int>)
    requires Linked(t, before) && |before| == |after|
    requires forall x :: x in NonRoots(t) && 0 <= x < |before| ==> after[x] == before[x]
    ensures Linked(t, after)
  {
    match t
    case Leaf(_) =>
    case Node(_, l, r) =>
      LinkedFrame(l, before, after);
      LinkedFrame(r, before, after);
  }

  // Links lead upwards, so that following them ends.
  predicate Upward(parent: seq<int>) {
    forall x :: 0 <= x < |parent| ==> parent[x] == 0 || x < parent[x] < |parent|
  }

  // How many links lead from x to a root.
  function Depth(parent: seq<int>, x: nat): nat
    requires Upward(parent) && x < |parent|
    decreases |parent| - x
  {
    if parent[x] == 0 then 0 else 1 + Depth(parent, parent[x])
  }

  // The depths read off parent[] are the depths in the tree.
  lemma {:induction false} DepthsAreTreeDepths(t: Tree, count: seq<int>, parent: seq<int>, d: nat)
    requires Upward(parent) && Linked(t, parent) && t.node < |parent| && Depth(parent, t.node) == d
    requires forall x :: x in NonRoots(t) && 0 <= x < |parent| ==> parent[x] != 0
    ensures |LeafItems(t, count, d)| == |Leaves(t)|
    ensures forall k :: 0 <= k < |Leaves(t)| ==> 0 <= Leaves(t)[k] < |parent|
    ensures forall k :: 0 <= k < |Leaves(t)| ==>
      LeafItems(t, count, d)[k] == Item(CountOf(count, Leaves(t)[k]), Depth(parent, Leaves(t)[k]))
  {
    match t
    case Leaf(_) =>
    case Node(_, l, r) =>
      assert l.node in NonRoots(t) && r.node in NonRoots(t);
      DepthsAreTreeDepths(l, count, parent, d + 1);
      DepthsAreTreeDepths(r, count, parent, d + 1);
      var a, b := Leaves(l), Leaves(r);
      forall k | 0 <= k < |Leaves(t)|
        ensures 0 <= Leaves(t)[k] < |parent|
        ensures LeafItems(t, count, d)[k] == Item(CountOf(count, Leaves(t)[k]), Depth(parent, Leaves(t)[k]))
      {
        if k < |a| {
          assert Leaves(t)[k] == a[k];
          assert LeafItems(t, count, d)[k] == LeafItems(l, count, d + 1)[k];
        } else {
          assert Leaves(t)[k] == b[k - |a|];
          assert LeafItems(t, count, d)[k] == LeafItems(r, count, d + 1)[k - |a|];
        }
      }
  }

  // ---------- Fibonacci growth

  function Fib(n: nat): nat {
    if n == 0 then 0 else if n == 1 then 1 else Fib(n - 1) + Fib(n - 2)
  }

  function Max(a: int, b: int): int {
    if a < b then b else a
  }

  // The heaviest node of t below its root.
  function KidMax(t: Tree, count: seq<int>): int {
    match t
    case Leaf(_) => 0
    case Node(_, l, r) =>
      Max(Max(Weight(l, count), Weight(r, count)), Max(KidMax(l, count), KidMax(r, count)))
  }

  // What taking the two lightest roots at every merge leaves behind:
  // nothing below a node is heavier than the node's sibling.
  predicate Balanced(t: Tree, count: seq<int>) {
    match t
    case Leaf(s) => CountOf(count, s) >= 1
    case Node(_, l, r) =>
      KidMax(l, count) <= Weight(r, count) && KidMax(r, count) <= Weight(l, count) &&
      Balanced(l, count) && Balanced(r, count)
  }

  lemma {:induction false} Positive(t: Tree, count: seq<int>)
    requires Balanced(t, count)
    ensures Weight(t, count) >= 1
  {
    match t
    case Leaf(_) =>
    case Node(_, l, r) => Positive(l, count);
  }

  lemma FibStep(n: nat, deep: int, other: int)
    requires deep >= Fib(n + 1) && other >= Fib(n)
    ensures deep + other >= Fib(n + 2)
  {
  }

  // A tree this deep is at least this heavy.
  lemma {:induction false} FibonacciWeight(t: Tree, count: seq<int>)
    requires Balanced(t, count)
    ensures Weight(t, count) >= Fib(Height(t) + 2)
    decreases t, 1
  {
    match t
    case Leaf(_) => assert Fib(2) == 1;
    case Node(_, l, r) =>
      var deep, other := if Height(l) < Height(r) then r else l, if Height(l) < Height(r) then l else r;
      FibonacciWeight(deep, count);
      Positive(other, count);
      FibonacciKid(deep, other, count);
      FibStep(Height(deep) + 1, Weight(deep, count), Weight(other, count));
  }

  lemma {:induction false} FibonacciKid(deep: Tree, other: Tree, count: seq<int>)
    requires Balanced(deep, count)
    requires KidMax(deep, count) <= Weight(other, count) && Weight(other, count) >= 1
    ensures Weight(other, count) >= Fib(Height(deep) + 1)
    decreases deep, 0
  {
    match deep
    case Leaf(_) =>
    case Node(_, l, r) =>
      if Height(l) < Height(r) {
        FibonacciWeight(r, count);
      } else {
        FibonacciWeight(l, count);
      }
  }

  // Down the odd weights: in a tree of odd weight this leads to a leaf that
  // occurs an odd number of times.
  function OddDepth(t: Tree, count: seq<int>): nat {
    match t
    case Leaf(_) => 0
    case Node(_, l, r) => 1 + if Weight(l, count) % 2 == 1 then OddDepth(l, count) else OddDepth(r, count)
  }

  // One of the two halves of an odd tree is odd, the other even.
  lemma Halves(t: Tree, count: seq<int>) returns (odd: Tree, even: Tree)
    requires t.Node? && Balanced(t, count) && Weight(t, count) % 2 == 1
    ensures odd < t && Balanced(odd, count) && Weight(odd, count) % 2 == 1
    ensures Weight(even, count) % 2 == 0 && Weight(even, count) >= 1
    ensures Weight(t, count) == Weight(odd, count) + Weight(even, count)
    ensures OddDepth(t, count) == 1 + OddDepth(odd, count)
    ensures KidMax(odd, count) <= Weight(even, count) && Weight(odd, count) <= KidMax(t, count)
  {
    hide KidMax, Fib;
    if Weight(t.left, count) % 2 == 1 {
      odd, even := t.left, t.right;
    } else {
      odd, even := t.right, t.left;
    }
    Positive(even, count);
    HalfBelow(t, count);
  }

  lemma HalfBelow(t: Tree, count: seq<int>)
    requires t.Node?
    ensures Weight(t.left, count) <= KidMax(t, count) && Weight(t.right, count) <= KidMax(t, count)
  {
  }

  // Where one leaf counts odd and all others even, depth is dearer: twice the
  // Fibonacci number, less one.
  lemma {:induction false} OddWeight(t: Tree, count: seq<int>)
    requires Balanced(t, count) && Weight(t, count) % 2 == 1
    ensures Weight(t, count) >= 2 * Fib(OddDepth(t, count) + 2) - 1
  {
    hide *;
    Smallest();
    if t.Leaf? {
      LeafDepth(t, count);
    } else {
      var odd, even := Halves(t, count);
      OddWeight(odd, count);
      if odd.Leaf? {
        LeafDepth(odd, count);
        OddStep(1, Weight(odd, count), Weight(even, count));
      } else {
        var odder, other := Halves(odd, count);
        OddWeight(odder, count);
        OddStep(OddDepth(odder, count) + 2, Weight(odd, count), Weight(even, count));
      }
    }
  }

  lemma LeafDepth(t: Tree, count: seq<int>)
    requires t.Leaf?
    ensures OddDepth(t, count) == 0
  {
  }

  lemma Smallest()
    ensures Fib(1) == 1 && Fib(2) == 1
  {
  }

  lemma OddStep(n: nat, odd: int, even: int)
    requires odd >= 2 * Fib(n + 1) - 1 && even >= 2 * Fib(n) - 1 && even % 2 == 0
    ensures odd + even >= 2 * Fib(n + 2) - 1
  {
  }

  // The leaf that OddDepth leads to.
  lemma {:induction false} OddLeaf(t: Tree, count: seq<int>, d: nat) returns (i: nat)
    requires Weight(t, count) % 2 == 1
    ensures i < |LeafItems(t, count, d)|
    ensures LeafItems(t, count, d)[i].weight % 2 == 1 && LeafItems(t, count, d)[i].len == d + OddDepth(t, count)
  {
    match t
    case Leaf(_) => i := 0;
    case Node(_, l, r) =>
      if Weight(l, count) % 2 == 1 {
        i := OddLeaf(l, count, d + 1);
      } else {
        i := OddLeaf(r, count, d + 1);
        i := i + |LeafItems(l, count, d + 1)|;
      }
  }

  // ---------- forests

  // The heap's contents: one entry per tree.
  function Entries(fs: seq<Tree>, count: seq<int>): (es: seq<Entry>)
    ensures |es| == |fs|
    ensures forall i :: 0 <= i < |fs| ==> es[i] == Entry(Weight(fs[i], count), fs[i].node)
  {
    seq(|fs|, i requires 0 <= i < |fs| => Entry(Weight(fs[i], count), fs[i].node))
  }

  function RootWeights(fs: seq<Tree>, count: seq<int>): multiset<int> {
    if |fs| == 0 then multiset{} else multiset{Weight(fs[0], count)} + RootWeights(fs[1..], count)
  }

  function InternalSum(fs: seq<Tree>, count: seq<int>): int {
    if |fs| == 0 then 0 else Internal(fs[0], count) + InternalSum(fs[1..], count)
  }

  function AllLeaves(fs: seq<Tree>): multiset<int> {
    if |fs| == 0 then multiset{} else multiset(Leaves(fs[0])) + AllLeaves(fs[1..])
  }

  lemma {:induction false} TakeInternal(fs: seq<Tree>, p: nat, count: seq<int>)
    requires p < |fs|
    ensures InternalSum(fs, count) == InternalSum(Without(fs, p), count) + Internal(fs[p], count)
  {
    if p == 0 {
      assert Without(fs, 0) == fs[1..];
    } else {
      TakeInternal(fs[1..], p - 1, count);
      assert Without(fs, p)[1..] == Without(fs[1..], p - 1);
    }
  }

  lemma {:induction false} TakeWeight(fs: seq<Tree>, p: nat, count: seq<int>)
    requires p < |fs|
    ensures RootWeights(fs, count) == RootWeights(Without(fs, p), count) + multiset{Weight(fs[p], count)}
  {
    if p == 0 {
      assert Without(fs, 0) == fs[1..];
    } else {
      TakeWeight(fs[1..], p - 1, count);
      var rest := Without(fs, p);
      assert rest[0] == fs[0] && rest[1..] == Without(fs[1..], p - 1);
      hide Leaves, Weight;
      Regroup(multiset{Weight(fs[0], count)}, RootWeights(rest[1..], count), multiset{Weight(fs[p], count)});
    }
  }

  lemma LeavesStep(fs: seq<Tree>)
    requires |fs| > 0
    ensures AllLeaves(fs) == multiset(Leaves(fs[0])) + AllLeaves(fs[1..])
  {
  }

  lemma {:induction false} TakeLeaves(fs: seq<Tree>, p: nat)
    requires p < |fs|
    ensures AllLeaves(fs) == AllLeaves(Without(fs, p)) + multiset(Leaves(fs[p]))
  {
    var rest := Without(fs, p);
    LeavesStep(fs);
    if p == 0 {
      assert rest == fs[1..];
    } else {
      TakeLeaves(fs[1..], p - 1);
      assert rest[0] == fs[0] && rest[1..] == Without(fs[1..], p - 1);
      LeavesStep(rest);
      hide *;
      Regroup(multiset(Leaves(fs[0])), AllLeaves(rest[1..]), multiset(Leaves(fs[p])));
    }
  }

  lemma {:induction false} AddTree(fs: seq<Tree>, t: Tree, count: seq<int>)
    ensures InternalSum(fs + [t], count) == InternalSum(fs, count) + Internal(t, count)
    ensures RootWeights(fs + [t], count) == RootWeights(fs, count) + multiset{Weight(t, count)}
    ensures AllLeaves(fs + [t]) == AllLeaves(fs) + multiset(Leaves(t))
  {
    assert Without(fs + [t], |fs|) == fs;
    TakeInternal(fs + [t], |fs|, count);
    TakeWeight(fs + [t], |fs|, count);
    TakeLeaves(fs + [t], |fs|);
  }

  lemma {:induction false} RootWeightOrigin(fs: seq<Tree>, count: seq<int>, z: int) returns (k: nat)
    requires z in RootWeights(fs, count)
    ensures k < |fs| && Weight(fs[k], count) == z
  {
    if Weight(fs[0], count) == z {
      k := 0;
    } else {
      k := RootWeightOrigin(fs[1..], count, z);
      k := k + 1;
    }
  }

  // A lower bound for the weights cur is, with spent added, one for ws.
  ghost predicate Reduces(ws: multiset<int>, cur: multiset<int>, spent: int) {
    forall c: int :: LowerBound(cur, c) ==> LowerBound(ws, c + spent)
  }

  lemma ReducesStart(ws: multiset<int>)
    ensures Reduces(ws, ws, 0)
  {
  }

  lemma {:induction false} ReducesStep(ws: multiset<int>, others: multiset<int>, x: nat, y: nat, z: int, spent: int)
    requires forall z :: z in others ==> x <= z && y <= z
    requires x <= y
    requires Reduces(ws, others + multiset{y} + multiset{x}, spent)
    requires z == x + y
    ensures Reduces(ws, others + multiset{z}, spent + z)
  {
    var cur, total := others + multiset{z}, spent + z;
    forall c: int | LowerBound(cur, c)
      ensures LowerBound(ws, c + total)
    {
      MergeStep(others, x, y, c);
      assert (c + x + y) + spent == c + total;
    }
  }

  // One merge of the two lightest weights x and y into z; ws are the weights of all
  // the symbols.
  lemma MergeOptimal(ws: multiset<int>, others: multiset<int>, x: nat, y: nat, z: int, before: multiset<int>, after: multiset<int>,
                     spent: int, spent': int)
    requires x <= y && forall w :: w in others ==> y <= w
    requires before == others + multiset{y} + multiset{x}
    requires z == x + y && after == others + multiset{z} && spent' == spent + z
    requires Reduces(ws, before, spent)
    ensures Reduces(ws, after, spent')
  {
    hide *;
    ReducesStep(ws, others, x, y, z, spent);
  }

  lemma {:induction false} OthersHeavier(rest: seq<Tree>, count: seq<int>, y: int)
    requires forall k :: 0 <= k < |rest| ==> y <= Weight(rest[k], count)
    ensures forall z :: z in RootWeights(rest, count) ==> y <= z
  {
    forall z | z in RootWeights(rest, count) ensures y <= z {
      var k := RootWeightOrigin(rest, count, z);
    }
  }
}
