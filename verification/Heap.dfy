// The packer's array heap (att.rel.2/cmd/pack.c:81-87, 179-197), as sequences.
// Slot 0 is unused; slots 1..n hold the heap, lightest entry first.

module Heap {
  import opened Kraft
  import opened Huffman

  // Entry p is no heavier than its children.
  predicate OrderedAt(h: seq<Entry>, p: int, n: int) {
    0 <= p && n < |h| &&
    (2 * p <= n ==> h[p].count <= h[2 * p].count) &&
    (2 * p + 1 <= n ==> h[p].count <= h[2 * p + 1].count)
  }

  // Slots lo..n are heap-ordered.
  predicate IsHeap(h: seq<Entry>, lo: int, n: int) {
    1 <= lo && n < |h| && forall p :: lo <= p <= n ==> OrderedAt(h, p, n)
  }

  // Sifting x down from slot lo: slot i is a hole for x, all other slots are
  // ordered, and whatever ends up in slot i will not upset the slot above it.
  predicate Hole(h: seq<Entry>, lo: int, i: int, n: int, x: Entry) {
    1 <= lo <= i <= n < |h| &&
    (forall p :: lo <= p <= n && p != i ==> OrderedAt(h, p, n)) &&
    (i > lo ==> h[i].count <= x.count && OrderedAt(h, i, n))
  }

  // The lighter child of the hole.
  predicate LighterChild(h: seq<Entry>, i: int, k: int, n: int) {
    1 <= i && (k == 2 * i || k == 2 * i + 1) && k <= n < |h| &&
    h[k].count <= h[2 * i].count && (2 * i + 1 <= n ==> h[k].count <= h[2 * i + 1].count)
  }

  lemma HoleMoves(h: seq<Entry>, lo: int, i: int, k: int, n: int, x: Entry)
    requires Hole(h, lo, i, n, x) && LighterChild(h, i, k, n) && h[k].count <= x.count
    ensures Hole(h[i := h[k]], lo, k, n, x)
  {
    var h' := h[i := h[k]];
    forall p | lo <= p <= n ensures OrderedAt(h', p, n) {
      assert p != i ==> OrderedAt(h, p, n);
      assert i > lo ==> OrderedAt(h, i, n);
      if 2 * p == i || 2 * p + 1 == i {
        assert OrderedAt(h, p, n) && OrderedAt(h, i, n);
      }
    }
  }

  lemma HoleFills(h: seq<Entry>, lo: int, i: int, n: int, x: Entry)
    requires Hole(h, lo, i, n, x)
    requires 2 * i <= n ==> exists k :: LighterChild(h, i, k, n) && x.count < h[k].count
    ensures IsHeap(h[i := x], lo, n)
  {
    var h' := h[i := x];
    forall p | lo <= p <= n ensures OrderedAt(h', p, n) {
      assert p != i ==> OrderedAt(h, p, n);
      if 2 * i <= n {
        var k :| LighterChild(h, i, k, n) && x.count < h[k].count;
      }
    }
  }

  function Slots(h: seq<Entry>, n: int): seq<Entry>
    requires 0 <= n < |h|
  {
    h[1..n + 1]
  }

  lemma {:induction false} RootIsLightest(h: seq<Entry>, n: int, k: int)
    requires IsHeap(h, 1, n) && 1 <= k <= n
    ensures h[1].count <= h[k].count
    decreases k
  {
    if k > 1 {
      RootIsLightest(h, n, k / 2);
      assert OrderedAt(h, k / 2, n);
    }
  }

  // Moving an entry into a hole and the hole to where it came from.
  lemma MoveHole<T>(s: seq<T>, i: int, k: int, x: T)
    requires 0 <= i < |s| && 0 <= k < |s|
    ensures multiset(s[i := s[k]][k := x]) == multiset(s[i := x])
  {
    if i == k {
      assert s[i := s[k]][k := x] == s[i := x];
    }
  }

  lemma SlotsUpdate(h: seq<Entry>, n: int, i: int, x: Entry)
    requires 0 <= n < |h| && 1 <= i <= n
    ensures Slots(h[i := x], n) == Slots(h, n)[i - 1 := x]
  {
  }

  lemma HeapBelow(h: seq<Entry>, n: int, m: int, x: Entry)
    requires IsHeap(h, 1, n) && 1 <= m <= n
    ensures IsHeap(h[1 := x], 2, m)
  {
    var h' := h[1 := x];
    forall p | 2 <= p <= m ensures OrderedAt(h', p, m) {
      assert OrderedAt(h, p, n);
    }
  }

  // What slots 1..n hold once x fills the hole.
  function Filled(h: seq<Entry>, n: int, i: int, x: Entry): multiset<Entry>
    requires 0 <= n < |h| && 1 <= i <= n
  {
    multiset(Slots(h[i := x], n))
  }

  lemma FilledMoves(h: seq<Entry>, n: int, i: int, k: int, x: Entry)
    requires 0 <= n < |h| && 1 <= i <= n && 1 <= k <= n
    ensures Filled(h[i := h[k]], n, k, x) == Filled(h, n, i, x)
  {
    var s := Slots(h, n);
    MoveHole(s, i - 1, k - 1, x);
    assert Slots(h[i := h[k]][k := x], n) == s[i - 1 := s[k - 1]][k - 1 := x];
    assert Slots(h[i := x], n) == s[i - 1 := x];
  }

  lemma FilledIs(h: seq<Entry>, n: int, i: int, x: Entry)
    requires 0 <= n < |h| && 1 <= i <= n
    ensures multiset(Slots(h[i := x], n)) == Filled(h, n, i, x)
  {
  }

  lemma HoleStarts(h: seq<Entry>, lo: int, n: int)
    requires IsHeap(h, lo + 1, n) && 1 <= lo <= n
    ensures Hole(h, lo, lo, n, h[lo])
    ensures Filled(h, n, lo, h[lo]) == multiset(Slots(h, n))
  {
    assert h[lo := h[lo]] == h;
  }

  lemma SlotsPush(h: seq<Entry>, n: int, e: Entry)
    requires 0 <= n && n + 1 < |h|
    ensures Slots(h[n + 1 := e], n + 1) == Slots(h, n) + [e]
  {
  }

  // The heap's slots list exactly the trees of the forest.
  predicate Lists(h: seq<Entry>, n: int, fs: seq<Tree>, count: seq<int>) {
    0 <= n < |h| && multiset(Slots(h, n)) == multiset(Entries(fs, count))
  }

  lemma ListsLength(h: seq<Entry>, n: int, fs: seq<Tree>, count: seq<int>)
    requires Lists(h, n, fs, count)
    ensures |fs| == n
  {
    assert |multiset(Slots(h, n))| == n;
    assert |multiset(Entries(fs, count))| == |fs|;
  }

  lemma ListsSame(h: seq<Entry>, h': seq<Entry>, n: int, fs: seq<Tree>, count: seq<int>)
    requires Lists(h, n, fs, count) && |h'| == |h| && multiset(Slots(h', n)) == multiset(Slots(h, n))
    ensures Lists(h', n, fs, count)
  {
  }

  // The lightest entry belongs to a tree of the forest, and no tree is lighter.
  lemma LightestTree(h: seq<Entry>, n: int, fs: seq<Tree>, count: seq<int>) returns (p: nat)
    requires Lists(h, n, fs, count) && n >= 1 && IsHeap(h, 1, n)
    ensures p < |fs| && h[1] == Entry(Weight(fs[p], count), fs[p].node)
    ensures forall k :: 0 <= k < |fs| ==> Weight(fs[p], count) <= Weight(fs[k], count)
  {
    var es := Entries(fs, count);
    assert Slots(h, n)[0] == h[1];
    assert h[1] in multiset(es);
    p :| 0 <= p < |es| && es[p] == h[1];
    forall k | 0 <= k < |fs| ensures Weight(fs[p], count) <= Weight(fs[k], count) {
      assert es[k] in multiset(Slots(h, n));
      var j :| 0 <= j < n && Slots(h, n)[j] == es[k];
      RootIsLightest(h, n, j + 1);
    }
  }

  // Overwriting slot 1 by the last slot and dropping that one.
  lemma DropRoot(h: seq<Entry>, n: int, fs: seq<Tree>, count: seq<int>, p: nat)
    requires Lists(h, n, fs, count) && n >= 2
    requires p < |fs| && h[1] == Entry(Weight(fs[p], count), fs[p].node)
    ensures Lists(h[1 := h[n]], n - 1, Without(fs, p), count)
  {
    hide Slots, Entries, Without, Weight;
    EntriesWithout(fs, count, p);
    SlotsDropped(h, n);
    DropBag(Slots(h, n), Entries(fs, count), p);
  }

  lemma EntriesWithout(fs: seq<Tree>, count: seq<int>, p: nat)
    requires p < |fs|
    ensures Entries(Without(fs, p), count) == Without(Entries(fs, count), p)
  {
    hide Weight;
  }

  lemma SlotsDropped(h: seq<Entry>, n: int)
    requires 2 <= n < |h|
    ensures |Slots(h, n)| == n && Slots(h, n)[0] == h[1]
    ensures Slots(h[1 := h[n]], n - 1) == Slots(h, n)[..n - 1][0 := Slots(h, n)[n - 1]]
  {
  }

  lemma DropBag(s: seq<Entry>, es: seq<Entry>, p: nat)
    requires |s| >= 2 && multiset(s) == multiset(es) && p < |es| && s[0] == es[p]
    ensures multiset(s[..|s| - 1][0 := s[|s| - 1]]) == multiset(Without(es, p))
  {
    hide *;
    var n := |s| - 1;
    var x, y, mid := s[0], s[n], s[1..n];
    WithoutBag(es, p);
    assert s == [x] + mid + [y];
    assert s[..n][0 := y] == [y] + mid;
    TakeOut(multiset(mid), x, y);
  }

  lemma TakeOut(mid: multiset<Entry>, x: Entry, y: Entry)
    ensures multiset{y} + mid == (multiset{x} + mid + multiset{y}) - multiset{x}
  {
  }

  // Replacing the entry of tree b in slot 1 by the entry of a new tree.
  lemma ReplaceRoot(h: seq<Entry>, n: int, fs: seq<Tree>, count: seq<int>, q: nat, t: Tree)
    requires Lists(h, n, fs, count) && n >= 1
    requires q < |fs| && h[1] == Entry(Weight(fs[q], count), fs[q].node)
    ensures Lists(h[1 := Entry(Weight(t, count), t.node)], n, Without(fs, q) + [t], count)
  {
    var e := Entry(Weight(t, count), t.node);
    EntriesWithout(fs, count, q);
    EntriesMore(Without(fs, q), count, t);
    SlotsUpdate(h, n, 1, e);
    hide Slots, Entries, Without, Weight;
    ReplaceBag(Slots(h, n), Entries(fs, count), q, e);
  }

  lemma EntriesMore(fs: seq<Tree>, count: seq<int>, t: Tree)
    ensures Entries(fs + [t], count) == Entries(fs, count) + [Entry(Weight(t, count), t.node)]
  {
    hide Weight;
  }

  lemma ReplaceBag(s: seq<Entry>, es: seq<Entry>, q: nat, e: Entry)
    requires |s| >= 1 && multiset(s) == multiset(es) && q < |es| && s[0] == es[q]
    ensures multiset(s[0 := e]) == multiset(Without(es, q) + [e])
  {
    hide *;
    WithoutBag(es, q);
    assert multiset(s[0 := e]) == multiset(s) - multiset{s[0]} + multiset{e};
  }
}
