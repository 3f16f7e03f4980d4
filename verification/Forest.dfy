// The invariant of the tree-building loop (att.rel.2/cmd/pack.c:230-243): what
// the forest, the `parent` array and the node counter mean to each other.

module Forest {
  import opened Kraft
  import opened Huffman

  const END := 256
  const PARENTS := 513

  // t is a root: its inner edges are in parent[], its own link is not made yet.
  predicate TreeOk(t: Tree, count: seq<int>, parent: seq<int>, last: int, linked: set<int>) {
    Linked(t, parent) && NonRoots(t) <= linked && t.node !in linked && t.node <= last && Balanced(t, count) &&
    (t.Node? ==> t.node > END)
  }

  predicate DistinctRoots(fs: seq<Tree>) {
    forall i, j :: 0 <= i < j < |fs| ==> fs[i].node != fs[j].node
  }

  function Roots(fs: seq<Tree>): (s: set<int>)
    ensures forall i :: 0 <= i < |fs| ==> fs[i].node in s
    ensures forall x :: x in s ==> exists i :: 0 <= i < |fs| && fs[i].node == x
  {
    set i | 0 <= i < |fs| :: fs[i].node
  }

  // Links already made lead upwards; symbols not linked have no link; inner
  // nodes are linked or roots.
  predicate LinksOk(roots: set<int>, parent: seq<int>, last: int, linked: set<int>) {
    |parent| == PARENTS && END <= last < PARENTS &&
    (forall x :: x in linked ==> 0 <= x <= last && x < parent[x] <= last) &&
    (forall x :: 0 <= x <= END && x !in linked ==> parent[x] == 0) &&
    (forall x :: END < x <= last && x !in linked ==> x in roots)
  }

  // Symbols that are linked occur.
  predicate OnlyOccurring(linked: set<int>, count: seq<int>) {
    forall x :: x in linked && x <= END ==> CountOf(count, x) > 0
  }

  predicate ForestOk(fs: seq<Tree>, count: seq<int>, parent: seq<int>, last: int, linked: set<int>) {
    LinksOk(Roots(fs), parent, last, linked) && DistinctRoots(fs) && OnlyOccurring(linked, count) &&
    forall i :: 0 <= i < |fs| ==> TreeOk(fs[i], count, parent, last, linked)
  }

  // Every root weighs at least m, every node below a root at most m.
  predicate Level(fs: seq<Tree>, count: seq<int>, m: int) {
    forall i :: 0 <= i < |fs| ==> KidMax(fs[i], count) <= m <= Weight(fs[i], count)
  }

  lemma TreeFrame(t: Tree, count: seq<int>, parent: seq<int>, last: int, linked: set<int>,
                  parent': seq<int>, last': int, linked': set<int>)
    requires TreeOk(t, count, parent, last, linked) && |parent'| == |parent|
    requires last <= last' && linked <= linked' && t.node !in linked'
    requires forall x :: 0 <= x < |parent| && x in linked ==> parent'[x] == parent[x]
    ensures TreeOk(t, count, parent', last', linked')
  {
    LinkedFrame(t, parent, parent');
  }

  // Linking the roots a and b under the new node last + 1.
  lemma MergeLinks(rest: seq<Tree>, a: Tree, b: Tree, all: seq<Tree>, count: seq<int>,
                   parent: seq<int>, last: int, linked: set<int>)
    requires ForestOk(all, count, parent, last, linked) && last + 1 < PARENTS
    requires a.node != b.node && a in all && b in all
    requires Roots(all) == Roots(rest) + {a.node, b.node}
    ensures LinksOk(Roots(rest) + {last + 1}, parent[a.node := last + 1][b.node := last + 1], last + 1,
                    linked + {a.node, b.node})
  {
  }

  lemma MergedTree(a: Tree, b: Tree, count: seq<int>, parent: seq<int>, last: int, linked: set<int>, m: int)
    requires |parent| == PARENTS && END <= last && last + 1 < PARENTS
    requires TreeOk(a, count, parent, last, linked) && TreeOk(b, count, parent, last, linked)
    requires forall x :: x in linked ==> 0 <= x <= last
    requires a.node != b.node
    requires Level([a, b], count, m)
    ensures TreeOk(Node(last + 1, a, b), count, parent[a.node := last + 1][b.node := last + 1], last + 1,
                   linked + {a.node, b.node})
  {
    var parent' := parent[a.node := last + 1][b.node := last + 1];
    LinkedFrame(a, parent, parent');
    LinkedFrame(b, parent, parent');
    assert [a, b][0] == a && [a, b][1] == b;
  }

  lemma MergedLevel(rest: seq<Tree>, a: Tree, b: Tree, id: nat, count: seq<int>, m: int)
    requires Level(rest, count, m) && Level([a, b], count, m)
    requires Weight(a, count) <= Weight(b, count)
    requires forall k :: 0 <= k < |rest| ==> Weight(b, count) <= Weight(rest[k], count)
    ensures Level(rest + [Node(id, a, b)], count, Weight(b, count))
  {
    assert [a, b][0] == a && [a, b][1] == b;
  }

  lemma RemoveRoot(fs: seq<Tree>, p: nat)
    requires p < |fs| && DistinctRoots(fs)
    ensures Roots(fs) == Roots(Without(fs, p)) + {fs[p].node}
    ensures DistinctRoots(Without(fs, p))
    ensures forall t :: t in Without(fs, p) ==> t in fs && t.node != fs[p].node
  {
    var rest := Without(fs, p);
    forall i | 0 <= i < |fs| && i != p ensures fs[i].node in Roots(rest) {
      assert rest[if i < p then i else i - 1] == fs[i];
    }
  }

  lemma RootsSnoc(rest: seq<Tree>, t: Tree)
    ensures Roots(rest + [t]) == Roots(rest) + {t.node}
  {
    var fs := rest + [t];
    assert fs[|rest|] == t;
    forall k | 0 <= k < |rest| ensures rest[k].node in Roots(fs) {
      assert fs[k] == rest[k];
    }
  }

  lemma KeptTrees(all: seq<Tree>, rest: seq<Tree>, a: Tree, b: Tree, count: seq<int>, parent: seq<int>, last: int,
                  linked: set<int>)
    requires ForestOk(all, count, parent, last, linked) && last + 1 < PARENTS
    requires a in all && b in all
    requires forall t :: t in rest ==> t in all && t.node != a.node && t.node != b.node
    ensures forall k :: 0 <= k < |rest| ==>
      rest[k].node <= last &&
      TreeOk(rest[k], count, parent[a.node := last + 1][b.node := last + 1], last + 1, linked + {a.node, b.node})
  {
    forall k | 0 <= k < |rest|
      ensures rest[k].node <= last
      ensures TreeOk(rest[k], count, parent[a.node := last + 1][b.node := last + 1], last + 1, linked + {a.node, b.node})
    {
      TreeFrame(rest[k], count, parent, last, linked,
                parent[a.node := last + 1][b.node := last + 1], last + 1, linked + {a.node, b.node});
    }
  }

  lemma SnocForest(rest: seq<Tree>, t: Tree, count: seq<int>, parent: seq<int>, last: int, linked: set<int>)
    requires LinksOk(Roots(rest) + {t.node}, parent, last, linked) && DistinctRoots(rest)
    requires forall k :: 0 <= k < |rest| ==> rest[k].node != t.node && TreeOk(rest[k], count, parent, last, linked)
    requires TreeOk(t, count, parent, last, linked) && OnlyOccurring(linked, count)
    ensures ForestOk(rest + [t], count, parent, last, linked)
  {
    hide TreeOk, LinksOk, OnlyOccurring;
    RootsSnoc(rest, t);
  }

  lemma SublistLevel(all: seq<Tree>, some: seq<Tree>, count: seq<int>, m: int)
    requires Level(all, count, m) && forall t :: t in some ==> t in all
    ensures Level(some, count, m)
  {
    forall i | 0 <= i < |some| ensures KidMax(some[i], count) <= m <= Weight(some[i], count) {
      assert some[i] in all;
    }
  }

  lemma MergeKnown(fs: seq<Tree>, rest: seq<Tree>, a: Tree, b: Tree, count: seq<int>, parent: seq<int>, last: int,
                   linked: set<int>, m: int)
    requires ForestOk(fs, count, parent, last, linked) && Level(fs, count, m) && last + 1 < PARENTS
    requires a in fs && b in fs && a.node != b.node && DistinctRoots(rest)
    requires Roots(fs) == Roots(rest) + {a.node, b.node}
    requires forall t :: t in rest ==> t in fs && t.node != a.node && t.node != b.node
    ensures a.node <= last && b.node <= last
    ensures ForestOk(rest + [Node(last + 1, a, b)], count, parent[a.node := last + 1][b.node := last + 1], last + 1,
                     linked + {a.node, b.node})
  {
    assert TreeOk(a, count, parent, last, linked) && TreeOk(b, count, parent, last, linked);
    assert LinksOk(Roots(fs), parent, last, linked);
    assert OnlyOccurring(linked + {a.node, b.node}, count);
    SublistLevel(fs, [a, b], count, m);
    hide OnlyOccurring, Linked, NonRoots, Balanced, KidMax, Weight, Without, Level, ForestOk, DistinctRoots;
    KeptTrees(fs, rest, a, b, count, parent, last, linked);
    MergeLinks(rest, a, b, fs, count, parent, last, linked);
    MergedTree(a, b, count, parent, last, linked, m);
    SnocForest(rest, Node(last + 1, a, b), count, parent[a.node := last + 1][b.node := last + 1], last + 1,
               linked + {a.node, b.node});
  }

  lemma RemoveTwo(fs: seq<Tree>, p: nat, q: nat, a: Tree, b: Tree, rest: seq<Tree>)
    requires DistinctRoots(fs) && p < |fs| && q < |fs| - 1
    requires a == fs[p] && b == Without(fs, p)[q] && rest == Without(Without(fs, p), q)
    ensures a in fs && b in fs && a.node != b.node && DistinctRoots(rest)
    ensures Roots(fs) == Roots(rest) + {a.node, b.node}
    ensures forall t :: t in rest ==> t in fs && t.node != a.node && t.node != b.node
  {
    RemoveRoot(fs, p);
    hide *;
    RemoveRoot(Without(fs, p), q);
    assert b in Without(fs, p);
  }

  // One round of the loop keeps the invariant.
  lemma Merge(fs: seq<Tree>, p: nat, q: nat, a: Tree, b: Tree, rest: seq<Tree>,
              count: seq<int>, parent: seq<int>, last: int, linked: set<int>, m: int)
    requires ForestOk(fs, count, parent, last, linked) && Level(fs, count, m) && last + 1 < PARENTS
    requires p < |fs| && q < |fs| - 1
    requires a == fs[p] && b == Without(fs, p)[q] && rest == Without(Without(fs, p), q)
    requires Weight(a, count) <= Weight(b, count)
    requires forall k :: 0 <= k < |rest| ==> Weight(b, count) <= Weight(rest[k], count)
    ensures a.node != b.node && a.node <= last && b.node <= last
    ensures ForestOk(rest + [Node(last + 1, a, b)], count, parent[a.node := last + 1][b.node := last + 1], last + 1,
                     linked + {a.node, b.node})
    ensures Level(rest + [Node(last + 1, a, b)], count, Weight(b, count))
  {
    RemoveTwo(fs, p, q, a, b, rest);
    MergeKnown(fs, rest, a, b, count, parent, last, linked, m);
    hide *;
    SublistLevel(fs, rest, count, m);
    SublistLevel(fs, [a, b], count, m);
    MergedLevel(rest, a, b, last + 1, count, m);
  }

  lemma MergeWeights(fs: seq<Tree>, p: nat, q: nat, fs1: seq<Tree>, rest: seq<Tree>, count: seq<int>)
    requires p < |fs| && q < |fs| - 1 && fs1 == Without(fs, p) && rest == Without(fs1, q)
    ensures RootWeights(fs, count)
      == RootWeights(rest, count) + multiset{Weight(fs1[q], count)} + multiset{Weight(fs[p], count)}
    ensures InternalSum(fs, count) == InternalSum(rest, count) + Internal(fs1[q], count) + Internal(fs[p], count)
  {
    hide *;
    TakeWeight(fs, p, count);
    TakeWeight(fs1, q, count);
    TakeInternal(fs, p, count);
    TakeInternal(fs1, q, count);
  }

  lemma MergeLeaves(fs: seq<Tree>, p: nat, q: nat, fs1: seq<Tree>, rest: seq<Tree>, t: Tree)
    requires p < |fs| && q < |fs| - 1 && fs1 == Without(fs, p) && rest == Without(fs1, q)
    requires t.Node? && t.left == fs[p] && t.right == fs1[q]
    ensures AllLeaves(rest + [t]) == AllLeaves(fs)
  {
    assert Leaves(t) == Leaves(fs[p]) + Leaves(fs1[q]);
    hide *;
    var la, lb := multiset(Leaves(fs[p])), multiset(Leaves(fs1[q]));
    assert multiset(Leaves(t)) == lb + la;
    TakeLeaves(fs, p);
    TakeLeaves(fs1, q);
    AddTree(rest, t, []);
    Regroup(AllLeaves(rest), lb, la);
  }

  lemma NodeSums(t: Tree, count: seq<int>)
    requires t.Node?
    ensures Weight(t, count) == Weight(t.left, count) + Weight(t.right, count)
    ensures Internal(t, count) == Weight(t, count) + Internal(t.left, count) + Internal(t.right, count)
  {
  }

  // What the merge does to the lower bound for all codes: one step further.
  lemma MergeSums(ws: multiset<int>, fs: seq<Tree>, p: nat, q: nat, a: Tree, b: Tree, fs1: seq<Tree>, rest: seq<Tree>,
                  t: Tree, count: seq<int>)
    requires p < |fs| && q < |fs| - 1
    requires a == fs[p] && fs1 == Without(fs, p) && b == fs1[q] && rest == Without(fs1, q)
    requires t.Node? && t.left == a && t.right == b
    requires Weight(a, count) <= Weight(b, count)
    requires forall k :: 0 <= k < |rest| ==> Weight(b, count) <= Weight(rest[k], count)
    requires Reduces(ws, RootWeights(fs, count), InternalSum(fs, count))
    ensures Reduces(ws, RootWeights(rest + [t], count), InternalSum(rest + [t], count))
  {
    hide *;
    OthersHeavier(rest, count, Weight(b, count));
    MergedSums(fs, p, q, a, b, fs1, rest, t, count);
    MergeOptimal(ws, RootWeights(rest, count), Weight(a, count), Weight(b, count), Weight(t, count),
                 RootWeights(fs, count), RootWeights(rest + [t], count), InternalSum(fs, count), InternalSum(rest + [t], count));
  }

  lemma MergedSums(fs: seq<Tree>, p: nat, q: nat, a: Tree, b: Tree, fs1: seq<Tree>, rest: seq<Tree>, t: Tree, count: seq<int>)
    requires p < |fs| && q < |fs| - 1
    requires a == fs[p] && fs1 == Without(fs, p) && b == fs1[q] && rest == Without(fs1, q)
    requires t.Node? && t.left == a && t.right == b
    ensures Weight(t, count) == Weight(a, count) + Weight(b, count)
    ensures RootWeights(fs, count) == RootWeights(rest, count) + multiset{Weight(b, count)} + multiset{Weight(a, count)}
    ensures RootWeights(rest + [t], count) == RootWeights(rest, count) + multiset{Weight(t, count)}
    ensures InternalSum(rest + [t], count) == InternalSum(fs, count) + Weight(t, count)
  {
    hide *;
    NodeSums(t, count);
    MergeWeights(fs, p, q, fs1, rest, count);
    AddTree(rest, t, count);
  }

  lemma RootsInRange(fs: seq<Tree>, count: seq<int>, parent: seq<int>, last: int, linked: set<int>)
    requires ForestOk(fs, count, parent, last, linked)
    ensures forall k :: 0 <= k < |fs| ==> 0 <= fs[k].node <= last < PARENTS
  {
  }

  lemma RootsInRangeWithout(fs: seq<Tree>, p: nat, last: int)
    requires p < |fs| && forall k :: 0 <= k < |fs| ==> 0 <= fs[k].node <= last < PARENTS
    ensures forall k :: 0 <= k < |fs| - 1 ==> 0 <= Without(fs, p)[k].node <= last < PARENTS
  {
    hide *;
    forall k | 0 <= k < |fs| - 1 ensures 0 <= Without(fs, p)[k].node <= last < PARENTS {
      var j := if k < p then k else k + 1;
      assert Without(fs, p)[k] == fs[j];
      assert 0 <= fs[j].node <= last < PARENTS;
    }
  }

  lemma LightAmong(fs: seq<Tree>, p: nat, count: seq<int>, w: int)
    requires p < |fs| && forall k :: 0 <= k < |fs| ==> w <= Weight(fs[k], count)
    ensures forall k :: 0 <= k < |fs| - 1 ==> w <= Weight(Without(fs, p)[k], count)
  {
    hide *;
    forall k | 0 <= k < |fs| - 1 ensures w <= Weight(Without(fs, p)[k], count) {
      var j := if k < p then k else k + 1;
      assert Without(fs, p)[k] == fs[j];
      assert w <= Weight(fs[j], count);
    }
  }

  // Clearing the link of the root changes nothing below it (pack.c:243).
  lemma RootLink(t: Tree, count: seq<int>, parent: seq<int>, last: int, linked: set<int>)
    requires ForestOk([t], count, parent, last, linked) && t.node == last
    ensures ForestOk([t], count, parent[last := 0], last, linked)
  {
    assert [t][0] == t;
    TreeFrame(t, count, parent, last, linked, parent[last := 0], last, linked);
  }

  // The forest of single symbols meets the invariant.
  lemma SinglesOk(fs: seq<Tree>, count: seq<int>, parent: seq<int>)
    requires |parent| == PARENTS && forall k :: 0 <= k <= END ==> parent[k] == 0
    requires forall t :: t in fs ==> t.Leaf? && t.node <= END && CountOf(count, t.node) > 0
    requires DistinctRoots(fs)
    ensures ForestOk(fs, count, parent, END, {}) && Level(fs, count, 0)
  {
    forall i | 0 <= i < |fs| ensures TreeOk(fs[i], count, parent, END, {}) && KidMax(fs[i], count) <= 0 <= Weight(fs[i], count) {
      assert fs[i] in fs;
    }
  }
}
