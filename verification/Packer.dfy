// pack.c's packer: the global arrays and counters as fields, its functions as
// methods.  C's long and int counters are unbounded integers here.

module Packing {
  import opened BitStrings
  import opened Kraft
  import opened Huffman
  import opened Heap
  import opened Forest
  import opened Lengths
  import opened Canon
  import opened PackFormat
  import opened EndDeepest
  import opened PackSize

  const MAXDEPTH := 24

  // The symbols that occur, from END down to symbol s (the order of pack.c:213-221).
  function Occurring(count: seq<int>, s: nat): seq<Tree>
    requires |count| == END + 1 && s <= END + 1
    decreases END + 1 - s
  {
    if s == END + 1 then []
    else Occurring(count, s + 1) + if count[s] > 0 then [Leaf(s)] else []
  }

  // All roots weights, leaves and nothing spent: the forest of single symbols.
  lemma {:induction false} OccurringOk(count: seq<int>, s: nat)
    requires |count| == END + 1 && s <= END + 1
    ensures forall t :: t in Occurring(count, s) ==> t.Leaf? && s <= t.node <= END && count[t.node] > 0
    ensures DistinctRoots(Occurring(count, s))
    decreases END + 1 - s
  {
    if s <= END {
      OccurringOk(count, s + 1);
      var fs := Occurring(count, s + 1);
      forall i | 0 <= i < |fs| ensures fs[i].node != s { assert fs[i] in fs; }
    }
  }

  lemma {:induction false} OccurringSums(count: seq<int>, s: nat)
    requires |count| == END + 1 && s <= END + 1
    ensures InternalSum(Occurring(count, s), count) == 0
    decreases END + 1 - s
  {
    if s <= END {
      OccurringSums(count, s + 1);
      if count[s] > 0 {
        AddTree(Occurring(count, s + 1), Leaf(s), count);
      } else {
        assert Occurring(count, s) == Occurring(count, s + 1);
      }
    }
  }

  // What packfile() comes to (pack.c:200-288), I/O errors aside.
  datatype Outcome =
    | Trivial                 // one distinct byte only
    | TooManyLevels
    | NoSaving
    | Done(out: seq<Byte>)    // the file written

  class Packer {
    const count: array<int>
    const heap: array<Entry>
    const parent: array<int>
    const levcount: array<int>
    const length: array<int>
    const bits: array<int>
    const outbuff: array<Byte>
    var n: int
    var diffbytes: int
    var insize: int
    var lastnode: int
    var maxlev: int
    var outsize: int
    var dictsize: int
    var outside: bool         // something was counted outside levcount[]

    ghost predicate Valid()
      reads this
    {
      count.Length == END + 1 && heap.Length == END + 2 && parent.Length == PARENTS &&
      levcount.Length == MAXDEPTH + 1 && length.Length == END + 1 && bits.Length == END + 1 &&
      outbuff.Length == BLKSIZE + 4 &&
      count != parent && count != levcount && count != length && count != bits &&
      parent != levcount && parent != length && parent != bits &&
      levcount != length && levcount != bits && length != bits
    }

    constructor ()
      ensures Valid()
      ensures fresh(count) && fresh(heap) && fresh(parent) && fresh(levcount) && fresh(length) && fresh(bits) && fresh(outbuff)
    {
      count := new int[END + 1](_ => 0);
      heap := new Entry[END + 2](_ => Entry(0, 0));
      parent := new int[PARENTS](_ => 0);
      levcount := new int[MAXDEPTH + 1](_ => 0);
      length := new int[END + 1](_ => 0);
      bits := new int[END + 1](_ => 0);
      outbuff := new Byte[BLKSIZE + 4](_ => 0);
      n, diffbytes, insize, lastnode, maxlev, outsize, dictsize, outside := 0, 0, 0, 0, 0, 0, 0, false;
    }

    // pack.c:91-103: count every byte twice, block by block and each block
    // from its end.
    method Input(data: seq<Byte>)
      requires Valid()
      modifies count
      ensures forall c: Byte :: count[c as int] == 2 * multiset(data)[c]
      ensures count[END] == old(count[END])
    {
      hide Tallied;
      for i := 0 to END
        invariant forall k :: 0 <= k < i ==> count[k] == 0
        invariant count[END] == old(count[END])
      {
        count[i] := 0;
      }
      var pos := 0;
      TallyNone(count[..], data[..0]);
      while pos < |data|
        invariant 0 <= pos <= |data|
        invariant Tallied(count[..], multiset(data[..pos]))
        invariant count[END] == old(count[END])
      {
        var got := if |data| - pos < BLKSIZE then |data| - pos else BLKSIZE;
        var inbuff := data[pos..pos + got];
        var i := got;
        ghost var seen := multiset(data[..pos]);
        assert seen + multiset(inbuff[i..]) == seen;
        while i > 0
          invariant 0 <= i <= got
          invariant Tallied(count[..], seen + multiset(inbuff[i..]))
          invariant count[END] == old(count[END])
        {
          i := i - 1;
          ghost var was := count[..];
          TallyStep(was, seen, inbuff, i);
          count[inbuff[i] as int] := count[inbuff[i] as int] + 2;
          assert count[..] == was[inbuff[i] as int := was[inbuff[i] as int] + 2];
        }
        assert inbuff[0..] == inbuff;
        assert data[..pos + got] == data[..pos] + inbuff;
        pos := pos + got;
      }
      assert data[..pos] == data;
      TallyAll(count[..], data);
    }

    // pack.c:180-197: makes a heap out of slots i..n, slots i+1..n being one.
    method Heapify(i0: int)
      requires Valid() && 1 <= i0 <= n < heap.Length && IsHeap(heap[..], i0 + 1, n)
      modifies heap
      ensures IsHeap(heap[..], i0, n)
      ensures multiset(Slots(heap[..], n)) == multiset(Slots(old(heap[..]), n))
    {
      var i := i0;
      var heapsubi := heap[i];
      var lastparent := n / 2;
      HoleStarts(heap[..], i0, n);
      ghost var bag := multiset(Slots(heap[..], n));
      hide IsHeap, Hole, OrderedAt, Slots, Filled;
      while i <= lastparent
        invariant i0 <= i <= n
        invariant Hole(heap[..], i0, i, n, heapsubi)
        invariant Filled(heap[..], n, i, heapsubi) == bag
        decreases n - i
      {
        var k := 2 * i;
        if heap[k].count > heap[k + 1].count && k < n {
          k := k + 1;
        }
        ghost var h := heap[..];
        assert LighterChild(h, i, k, n);
        if heapsubi.count < heap[k].count {
          break;
        }
        HoleMoves(h, i0, i, k, n, heapsubi);
        FilledMoves(h, n, i, k, heapsubi);
        heap[i] := heap[k];
        assert heap[..] == h[i := h[k]];
        i := k;
      }
      ghost var h := heap[..];
      HoleFills(h, i0, i, n, heapsubi);
      FilledIs(h, n, i, heapsubi);
      heap[i] := heapsubi;
      assert heap[..] == h[i := heapsubi];
    }

    // pack.c:215-220: symbol i enters the heap if it occurs.
    method Enter(i: int, ghost cs: seq<int>)
      requires Valid() && 0 <= i <= END && |cs| == END + 1 && cs[i] == count[i] >= 0
      requires 0 <= n <= END - i
      requires Slots(heap[..], n) == Entries(Occurring(cs, i + 1), cs)
      modifies this`n, this`diffbytes, this`insize, heap
      ensures n == old(n) + if count[i] > 0 then 1 else 0
      ensures diffbytes == old(diffbytes) + (n - old(n)) && insize == old(insize) + count[i]
      ensures n < heap.Length && Slots(heap[..], n) == Entries(Occurring(cs, i), cs)
    {
      hide Occurring, SumFrom, Entries, Slots;
      OccurringStep(cs, i);
      if count[i] > 0 {
        ghost var h := heap[..];
        diffbytes := diffbytes + 1;
        insize := insize + count[i];
        n := n + 1;
        heap[n] := Entry(count[i], i);
        assert heap[..] == h[n := Entry(count[i], i)];
        SlotsPush(h, n - 1, Entry(count[i], i));
      }
    }

    // pack.c:209-221: put the occurring symbols into the heap's slots.
    method Gather(data: seq<Byte>)
      requires Valid() && count[..] == CountTable(data)
      modifies this, heap, parent
      ensures Valid() && count[..] == old(count[..])
      ensures n == |Occurring(count[..], 0)| && 1 <= n < heap.Length
      ensures diffbytes == n - 1 && insize == 2 * |data| + 1
      ensures Lists(heap[..], n, Occurring(count[..], 0), count[..])
      ensures Unlinked(parent[..], 0)
    {
      hide Occurring, SumFrom, CountTable, Slots, Entries, Unlinked, Lists, Tallied;
      diffbytes, insize, n := -1, 0, 0;
      ghost var cs := CountTable(data);
      TableLength(data);
      OccurringLast(cs);
      UnlinkedStart(parent[..]);
      NoSlots(heap[..], cs);
      var i := END;
      while i >= 0
        invariant -1 <= i <= END && count[..] == cs
        invariant 0 <= n == |Occurring(cs, i + 1)| <= END - i
        invariant diffbytes == n - 1 && insize == SumFrom(cs, i + 1)
        invariant n < heap.Length && Slots(heap[..], n) == Entries(Occurring(cs, i + 1), cs)
        invariant Unlinked(parent[..], i + 1)
      {
        ghost var links := parent[..];
        parent[i] := 0;
        assert parent[..] == links[i := 0];
        UnlinkedStep(links, i);
        OccurringStep(cs, i);
        assert cs[i] == count[i];
        Enter(i, cs);
        i := i - 1;
      }
      SumOfTable(data);
      OccurringEnd(cs);
      ListsIntro(heap[..], n, Occurring(cs, 0), cs);
    }

    // pack.c:233-237: unlink the lightest root from the heap.
    method TakeLightest(ghost fs: seq<Tree>, ghost cs: seq<int>) returns (inc: int, ghost p: nat)
      requires Valid() && 2 <= n < heap.Length && Lists(heap[..], n, fs, cs) && IsHeap(heap[..], 1, n)
      requires |fs| == n && forall k :: 0 <= k < |fs| ==> 0 <= fs[k].node < PARENTS
      modifies this`n, heap, parent
      ensures n == old(n) - 1 && p < |fs| && inc == Weight(fs[p], cs)
      ensures forall k :: 0 <= k < |fs| ==> inc <= Weight(fs[k], cs)
      ensures Lists(heap[..], n, Without(fs, p), cs) && IsHeap(heap[..], 1, n)
      ensures parent[..] == old(parent[..])[fs[p].node := lastnode]
    {
      hide Lists, IsHeap, Weight, Without, Slots, Entries;
      ghost var h := heap[..];
      p := LightestTree(h, n, fs, cs);
      DropRoot(h, n, fs, cs, p);
      HeapBelow(h, n, n - 1, h[n]);
      parent[heap[1].node] := lastnode;
      inc := heap[1].count;
      heap[1] := heap[n];
      n := n - 1;
      assert heap[..] == h[1 := h[n + 1]];
      ghost var h1 := heap[..];
      Heapify(1);
      ListsSame(h1, heap[..], n, Without(fs, p), cs);
    }

    // pack.c:238-241: put the merged node in the place of the next lightest root.
    method PutMerged(inc: int, ghost a: Tree, ghost fs: seq<Tree>, ghost cs: seq<int>) returns (ghost q: nat)
      requires Valid() && 1 <= n < heap.Length && Lists(heap[..], n, fs, cs) && IsHeap(heap[..], 1, n)
      requires |fs| == n && forall k :: 0 <= k < |fs| ==> 0 <= fs[k].node < PARENTS
      requires inc == Weight(a, cs) && lastnode >= 0
      modifies heap, parent
      ensures q < |fs| && forall k :: 0 <= k < |fs| ==> Weight(fs[q], cs) <= Weight(fs[k], cs)
      ensures Lists(heap[..], n, Without(fs, q) + [Node(lastnode, a, fs[q])], cs) && IsHeap(heap[..], 1, n)
      ensures parent[..] == old(parent[..])[fs[q].node := lastnode]
    {
      ghost var h := heap[..];
      q := LightestTree(h, n, fs, cs);
      ghost var node := Node(lastnode, a, fs[q]);
      assert Weight(node, cs) == Weight(a, cs) + Weight(fs[q], cs);
      ReplaceRoot(h, n, fs, cs, q, node);
      HeapBelow(h, n, n, Entry(Weight(node, cs), lastnode));
      hide Lists, IsHeap, Weight, Without, Slots, Entries;
      parent[heap[1].node] := lastnode;
      heap[1] := Entry(heap[1].count + inc, lastnode);
      assert heap[..] == h[1 := Entry(Weight(node, cs), lastnode)];
      ghost var h1 := heap[..];
      Heapify(1);
      ListsSame(h1, heap[..], n, Without(fs, q) + [node], cs);
    }

    // pack.c:232-242: one round of the loop, the two lightest roots merged.
    method MergeTwo(ghost fs: seq<Tree>, ghost cs: seq<int>, ghost linked: set<int>, ghost m: int, ghost ws: multiset<int>)
      returns (ghost fs': seq<Tree>, ghost linked': set<int>, ghost m': int)
      requires Valid() && 2 <= n < heap.Length && |fs| == n && lastnode + 1 < PARENTS
      requires Lists(heap[..], n, fs, cs) && IsHeap(heap[..], 1, n)
      requires ForestOk(fs, cs, parent[..], lastnode, linked) && Level(fs, cs, m)
      requires Reduces(ws, RootWeights(fs, cs), InternalSum(fs, cs))
      modifies this`n, this`lastnode, heap, parent
      ensures n == old(n) - 1 == |fs'| && lastnode == old(lastnode) + 1 && fs'[n - 1].node == lastnode
      ensures Lists(heap[..], n, fs', cs) && IsHeap(heap[..], 1, n)
      ensures ForestOk(fs', cs, parent[..], lastnode, linked') && Level(fs', cs, m')
      ensures Reduces(ws, RootWeights(fs', cs), InternalSum(fs', cs)) && AllLeaves(fs') == AllLeaves(fs)
    {
      hide Lists, IsHeap, ForestOk, Level, Reduces, RootWeights, InternalSum, AllLeaves, Weight, Without;
      ghost var ps := parent[..];
      RootsInRange(fs, cs, ps, lastnode, linked);
      lastnode := lastnode + 1;
      var inc;
      ghost var p, q;
      inc, p := TakeLightest(fs, cs);
      ghost var a, fs1 := fs[p], Without(fs, p);
      RootsInRangeWithout(fs, p, lastnode - 1);
      q := PutMerged(inc, a, fs1, cs);
      ghost var b, rest := fs1[q], Without(fs1, q);
      ghost var node := Node(lastnode, a, b);
      LightAmong(fs, p, cs, inc);
      LightAmong(fs1, q, cs, Weight(b, cs));
      Forest.Merge(fs, p, q, a, b, rest, cs, ps, lastnode - 1, linked, m);
      MergeSums(ws, fs, p, q, a, b, fs1, rest, node, cs);
      MergeLeaves(fs, p, q, fs1, rest, node);
      fs', linked', m' := rest + [node], linked + {a.node, b.node}, Weight(b, cs);
    }

    // pack.c:230-243: build the Huffman tree.  The tree itself is a ghost; the
    // code keeps only its parent links.
    method BuildTree(ghost fs0: seq<Tree>, ghost cs: seq<int>) returns (ghost t: Tree, ghost linked: set<int>, ghost m: int)
      requires Valid() && 1 <= n <= END + 1
      requires Lists(heap[..], n, fs0, cs) && IsHeap(heap[..], 1, n)
      requires ForestOk(fs0, cs, parent[..], END, {}) && Level(fs0, cs, 0)
      requires |fs0| > 0 && InternalSum(fs0, cs) == 0 && fs0[0].node == END
      modifies this`n, this`lastnode, heap, parent
      ensures t.node == lastnode && END <= lastnode < PARENTS && parent[lastnode] == 0
      ensures ForestOk([t], cs, parent[..], lastnode, linked) && Level([t], cs, m)
      ensures Reduces(RootWeights(fs0, cs), RootWeights([t], cs), InternalSum([t], cs))
      ensures AllLeaves([t]) == AllLeaves(fs0)
    {
      hide Lists, IsHeap, ForestOk, Level, Reduces, RootWeights, InternalSum, AllLeaves, Weight;
      lastnode := END;
      ghost var ws, n0, fs := RootWeights(fs0, cs), n, fs0;
      linked, m := {}, 0;
      ReducesStart(ws);
      ListsLength(heap[..], n, fs0, cs);
      while n > 1
        invariant 1 <= n <= n0 <= END + 1 && lastnode == END + n0 - n && |fs| == n
        invariant Lists(heap[..], n, fs, cs) && IsHeap(heap[..], 1, n)
        invariant ForestOk(fs, cs, parent[..], lastnode, linked) && Level(fs, cs, m)
        invariant Reduces(ws, RootWeights(fs, cs), InternalSum(fs, cs)) && AllLeaves(fs) == AllLeaves(fs0)
        invariant if n == n0 then fs == fs0 else fs[n - 1].node == lastnode
      {
        fs, linked, m := MergeTwo(fs, cs, linked, m, ws);
      }
      t := fs[0];
      assert fs == [t];
      ghost var ps := parent[..];
      parent[lastnode] := 0;
      assert parent[..] == ps[lastnode := 0];
      RootLink(t, cs, ps, lastnode, linked);
    }

    // pack.c:251-252: count the links up to the root.
    method ReadDepth(i: nat) returns (c: nat)
      requires Valid() && i <= END <= lastnode < PARENTS && Upward(parent[..lastnode + 1])
      ensures c == Depth(parent[..lastnode + 1], i) <= lastnode
    {
      ghost var links := parent[..lastnode + 1];
      c := 0;
      var p := parent[i];
      assert p == links[i];
      DepthBound(links, i);
      while p != 0
        invariant 0 <= p <= lastnode
        invariant Depth(links, i) == c + if p == 0 then 0 else 1 + Depth(links, p)
        decreases if p == 0 then 0 else 1 + Depth(links, p)
      {
        c := c + 1;
        assert parent[p] == links[p];
        p := parent[p];
      }
    }

    // pack.c:245-258: assign lengths to the symbols. A depth for which levcount[]
    // has no place is counted outside of it.
    method AssignLengths() returns (bitsout: int)
      requires Valid() && END <= lastnode < PARENTS && Upward(parent[..lastnode + 1])
      modifies this`maxlev, this`outside, levcount, length
      ensures outside <==> maxlev > MAXDEPTH
      ensures DepthsOf(length[..], parent[..], lastnode)
      ensures Counted(levcount[..], length[..], END + 1)
      ensures Highest(length[..], maxlev, END + 1)
      ensures bitsout == BitsOut(length[..], count[..], END + 1)
    {
      hide Counted, Highest, Depth, Upward, DepthsUpTo;
      bitsout, maxlev, outside := 0, 0, false;
      for i := 1 to MAXDEPTH + 1
        invariant maxlev == 0 && !outside && forall k :: 1 <= k < i ==> levcount[k] == 0
      {
        levcount[i] := 0;
      }
      ghost var links, cs := parent[..lastnode + 1], count[..];
      CountedStart(levcount[..], length[..]);
      assert BitsOut(length[..], cs, 0) == 0;
      hide BitsOut;
      DepthsStart(length[..], links);
      for i := 0 to END + 1
        invariant DepthsUpTo(length[..], links, i) && Highest(length[..], maxlev, i)
        invariant Counted(levcount[..], length[..], i) && (outside <==> maxlev > MAXDEPTH)
        invariant bitsout == BitsOut(length[..], cs, i)
        invariant parent[..lastnode + 1] == links && count[..] == cs
      {
        var c := ReadDepth(i);
        ghost var len, lev := length[..], levcount[..];
        if c <= MAXDEPTH {
          levcount[c] := levcount[c] + 1;
        } else {
          outside := true;
        }
        length[i] := c;
        assert length[..] == len[i := c] && levcount[..] == OneMore(lev, c);
        LengthStep(len, lev, cs, links, maxlev, i, c);
        if c > maxlev {
          maxlev := c;
        }
        bitsout := bitsout + c * (count[i] / 2);
      }
      DepthsEnd(length[..], parent[..], lastnode);
    }

    // pack.c:273-285: compute the bit patterns.
    method AssignCodes()
      requires Valid() && 0 <= maxlev <= MAXDEPTH && CodeLengths(length[..], maxlev)
      modifies bits
      ensures Numbered(bits[..], length[..], maxlev, 1, END + 1)
    {
      ghost var len := length[..];
      var inc := Shr(0x100_0000, maxlev);
      Pow2Of24();
      ShrPow2(WIDTH, maxlev);
      var mask := 0;
      MaskStart(len, maxlev);
      NumberedStart(bits[..], len, maxlev);
      var i := maxlev;
      assert maxlev >= 1;
      hide Numbered, MaskAt, CodeValue, CodeLengths, Pow2, Inner, LevCount;
      while i > 0
        invariant 0 <= i <= maxlev && length[..] == len
        invariant i > 0 ==> mask == MaskAt(len, maxlev, i, 0) && inc == Pow2(WIDTH - i)
        invariant if i > 0 then Numbered(bits[..], len, maxlev, i, 0) else Numbered(bits[..], len, maxlev, 1, END + 1)
      {
        for c := 0 to END + 1
          invariant mask == MaskAt(len, maxlev, i, c) && inc == Pow2(WIDTH - i)
          invariant Numbered(bits[..], len, maxlev, i, c) && length[..] == len
        {
          MaskStep(len, maxlev, i, c);
          assert length[c] == len[c];
          ghost var was := bits[..];
          if length[c] == i {
            bits[c] := mask;
            assert bits[..] == was[c := mask];
            NumberedSet(was, len, maxlev, i, c, mask);
            mask := mask + inc;
          } else {
            NumberedSkip(was, len, maxlev, i, c);
          }
        }
        MaskNext(len, maxlev, i);
        mask := ClearBits(mask, inc);
        inc := inc * 2;
        Pow2Step(WIDTH - i);
        if i > 1 { NumberedNext(bits[..], len, maxlev, i); }
        i := i - 1;
      }
    }

    // pack.c:150-159: put the bits of mask into outbuff at outp, whose last
    // bitsleft bits are free; 8 means the byte at outp is not started.
    method PutMask(mask: int, n: int, outp0: int, bitsleft0: int,
                   ghost before: seq<Byte>, ghost stream: seq<Bit>, ghost code: seq<Bit>, ghost tail: seq<Bit>)
      returns (outp: int, bitsleft: int)
      requires outbuff.Length == BLKSIZE + 4 && 0 <= outp0 < BLKSIZE
      requires MaskReady(mask, bitsleft0, code, tail) && n == |code| >= 1
      requires StreamIs(before, outbuff[..], outp0, bitsleft0, stream)
      modifies outbuff
      ensures outp0 <= outp <= outp0 + 3 && 0 <= bitsleft < 8
      ensures StreamIs(before, outbuff[..], outp, bitsleft, stream + code)
      ensures outbuff[..outp0] == old(outbuff[..outp0])
    {
      hide Bits, Shr, BitOr, ByteBits, StreamIs, Pow2, ToByte, MaskByte;
      TailStep(mask, bitsleft0, code, tail, 1);
      outp, bitsleft := outp0, bitsleft0;
      ghost var out := outbuff[..];
      if bitsleft == 8 {
        outbuff[outp] := MaskByte(mask, 0);
      } else {
        outbuff[outp] := ToByte(BitOr(outbuff[outp] as int, MaskByte(mask, 0) as int));
      }
      assert outbuff[..] == out[outp := outbuff[outp]];
      StreamFirst(before, out, outp, bitsleft, stream, MaskByte(mask, 0), outbuff[outp]);
      var q := 1;
      bitsleft := bitsleft - n;
      while bitsleft < 0
        invariant 1 <= q <= 4 && outp == outp0 + q - 1 && bitsleft == bitsleft0 - n + 8 * (q - 1) && bitsleft < 8
        invariant ByteBits(before + outbuff[..outp + 1]) == stream + tail[..bitsleft0 + 8 * (q - 1)]
        invariant outbuff[..outp0] == old(outbuff[..outp0])
      {
        out := outbuff[..];
        TailStep(mask, bitsleft0, code, tail, q);
        StreamNext(before, out, outp, MaskByte(mask, q));
        outp := outp + 1;
        outbuff[outp] := MaskByte(mask, q);
        assert outbuff[..] == out[outp := MaskByte(mask, q)];
        q := q + 1;
        bitsleft := bitsleft + 8;
      }
      StreamDone(before, outbuff[..], outp, bitsleft, stream, code, WIDTH - n + bitsleft0, tail);
    }

    // pack.c:149-159 for the symbol c.
    method PutCode(c: nat, outp0: int, bitsleft0: int, ghost before: seq<Byte>, ghost stream: seq<Bit>)
      returns (outp: int, bitsleft: int)
      requires Valid() && 0 <= maxlev <= MAXDEPTH && Numbered(bits[..], length[..], maxlev, 1, END + 1)
      requires c <= END && length[c] >= 1
      requires 0 <= outp0 < BLKSIZE && 0 <= bitsleft0 <= 8
      requires StreamIs(before, outbuff[..], outp0, bitsleft0, stream)
      modifies outbuff
      ensures outp0 <= outp <= outp0 + 3 && 0 <= bitsleft < 8
      ensures StreamIs(before, outbuff[..], outp, bitsleft, stream + Code(length[..], maxlev, c))
      ensures outbuff[..outp0] == old(outbuff[..outp0])
    {
      ghost var len := length[..];
      assert bits[c] == bits[..][c] == CodeValue(len, maxlev, c);
      ghost var tail := Code(len, maxlev, c) + Zeros(WIDTH - len[c] + bitsleft0);
      var mask := bits[c] * Pow2(bitsleft0);
      MaskOf(len, maxlev, c, bitsleft0, mask, tail);
      outp, bitsleft := PutMask(mask, length[c], outp0, bitsleft0, before, stream, Code(len, maxlev, c), tail);
    }

    // Appending to outbuff: *outp++ = b.
    method PutByte(outp0: int, b: Byte) returns (outp: int)
      requires 0 <= outp0 < outbuff.Length
      modifies outbuff
      ensures outp == outp0 + 1 && outbuff[..outp] == old(outbuff[..outp0]) + [b]
    {
      outbuff[outp0] := b;
      outp := outp0 + 1;
    }

    // pack.c:115-133: the header.
    method PutHeader() returns (outp: int)
      requires Valid() && 0 <= maxlev <= MAXDEPTH && insize >= 0
      requires Counted(levcount[..], length[..], END + 1)
      requires maxlev >= 1
      modifies this`dictsize, outbuff
      ensures outp == dictsize == |Header(insize, length[..], maxlev)| < BLKSIZE
      ensures outbuff[..outp] == Header(insize, length[..], maxlev)
    {
      ghost var len := length[..];
      outp := PutPreamble();
      ghost var pre := outbuff[..outp];
      var i := 1;
      while i < maxlev
        invariant 1 <= i <= maxlev && outp == 6 + i && length[..] == len
        invariant outbuff[..outp] == pre + LevelBytes(len, maxlev, i - 1)
      {
        assert levcount[i] == levcount[..][i];
        outp := PutByte(outp, ToByte(levcount[i]));
        i := i + 1;
      }
      assert levcount[maxlev] == levcount[..][maxlev];
      outp := PutByte(outp, ToByte(levcount[maxlev] - 2));
      outp := PutDictionary(outp, pre + LevelBytes(len, maxlev, maxlev));
      dictsize := outp;
      HeaderSize(insize, len, maxlev);
    }

    // pack.c:116-125.
    method PutPreamble() returns (outp: int)
      requires Valid() && insize >= 0 && maxlev >= 0
      modifies outbuff
      ensures outp == 7 && outbuff[..outp] == Preamble(insize, maxlev)
    {
      outbuff[0] := 0x1f;
      outbuff[1] := 0x1e;
      var temp := insize;
      var i := 5;
      while i >= 2
        invariant 1 <= i <= 5 && outbuff[0] == 0x1f && outbuff[1] == 0x1e
        invariant temp == [0, insize / 0x1_0000_0000, insize / 0x100_0000, insize / 0x1_0000, insize / 0x100, insize][i]
        invariant forall k :: i < k <= 5 ==> outbuff[k] == SizeBytes(insize)[k - 2]
      {
        outbuff[i] := ToByte(temp);
        temp := temp / 256;
        i := i - 1;
      }
      assert outbuff[..6] == [0x1f, 0x1e] + SizeBytes(insize);
      outp := PutByte(6, ToByte(maxlev));
    }

    // pack.c:129-132.
    method PutDictionary(outp0: int, ghost pre: seq<Byte>) returns (outp: int)
      requires Valid() && 0 <= maxlev <= MAXDEPTH
      requires outp0 == |pre| <= 7 + MAXDEPTH && outbuff[..outp0] == pre
      modifies outbuff
      ensures outp == |pre| + |Dict(length[..], maxlev)| < BLKSIZE
      ensures outbuff[..outp] == pre + Dict(length[..], maxlev)
    {
      outp := outp0;
      ghost var len := length[..];
      assert pre + Dict(len, 0) == pre;
      hide Dict, DictLevel;
      for i := 1 to maxlev + 1
        invariant length[..] == len && outp == |pre| + |Dict(len, i - 1)| <= BLKSIZE
        invariant outbuff[..outp] == pre + Dict(len, i - 1)
      {
        DictLevelStart(len, i);
        for c := 0 to END
          invariant length[..] == len && outp == |pre| + |Dict(len, i - 1)| + |DictLevel(len, i, c)| <= BLKSIZE
          invariant outbuff[..outp] == (pre + Dict(len, i - 1)) + DictLevel(len, i, c)
        {
          DictSoFar(len, i, c);
          DictLevelStep(len, i, c);
          assert length[c] == len[c];
          if length[c] == i {
            outp := PutByte(outp, c as Byte);
          }
        }
        DictStep(len, i);
        assert (pre + Dict(len, i - 1)) + DictLevel(len, i, END) == pre + Dict(len, i);
      }
      DictSize(len, maxlev);
    }

    // pack.c:141-148: the next symbol of the file, END when read() yields nothing.
    method NextSymbol(data: seq<Byte>, pos0: int, inbuff0: seq<Byte>, inp0: int, inleft0: int)
      returns (c: int, pos: int, inbuff: seq<Byte>, inp: int, inleft: int)
      requires Reading(data, pos0, inbuff0, inp0, inleft0)
      ensures Reading(data, pos, inbuff, inp, inleft)
      ensures 0 <= pos0 - inleft0 <= pos - inleft <= |data|
      ensures var k := pos0 - inleft0;
        if k < |data| then c == data[k] as int && pos - inleft == k + 1 else c == END && pos - inleft == k
    {
      pos, inbuff, inp, inleft := pos0, inbuff0, inp0, inleft0;
      if inleft <= 0 {
        inleft := if |data| - pos < BLKSIZE then |data| - pos else BLKSIZE;
        inbuff, inp := data[pos..pos + inleft], 0;
        pos := pos + inleft;
      }
      inleft := inleft - 1;
      if inleft < 0 {
        c := END;
        inleft := 0;
      } else {
        c := inbuff[inp] as int;
        inp := inp + 1;
      }
    }

    // pack.c:160-168: write a full block out.
    method Flush(outp0: int, ghost bitsleft: int, out0: seq<Byte>, ghost stream: seq<Bit>)
      returns (outp: int, out: seq<Byte>)
      requires Valid() && 0 <= outp0 <= BLKSIZE + 2 && 0 <= bitsleft < 8 && outsize == |out0|
      requires StreamIs(out0, outbuff[..], outp0, bitsleft, stream)
      modifies this`outsize, outbuff
      ensures 0 <= outp < BLKSIZE && outsize == |out|
      ensures StreamIs(out, outbuff[..], outp, bitsleft, stream)
      ensures out + outbuff[..outp] == out0 + old(outbuff[..outp0])
    {
      hide StreamIs;
      outp, out := outp0, out0;
      if outp >= BLKSIZE {
        ghost var buf := outbuff[..];
        out := out + outbuff[..BLKSIZE];
        outbuff[0], outbuff[1], outbuff[2], outbuff[3] :=
          outbuff[BLKSIZE], outbuff[BLKSIZE + 1], outbuff[BLKSIZE + 2], outbuff[BLKSIZE + 3];
        assert outbuff[..4] == buf[BLKSIZE..];
        StreamFlush(out0, buf, outbuff[..], outp, bitsleft, stream, BLKSIZE);
        outp := outp - BLKSIZE;
        outsize := outsize + BLKSIZE;
        assert outbuff[..outp] == outbuff[..4][..outp] == buf[BLKSIZE..][..outp];
        assert buf[..outp0] == buf[..BLKSIZE] + buf[BLKSIZE..][..outp];
      }
    }

    // pack.c:149-168: one symbol, and what is written and buffered stays in front.
    method PutSymbol(c: nat, outp0: int, bitsleft0: int, out0: seq<Byte>, ghost stream: seq<Bit>)
      returns (outp: int, bitsleft: int, out: seq<Byte>)
      requires Valid() && 0 <= maxlev <= MAXDEPTH && Numbered(bits[..], length[..], maxlev, 1, END + 1)
      requires c <= END && length[c] >= 1
      requires 0 <= outp0 < BLKSIZE && 0 <= bitsleft0 <= 8 && outsize == |out0|
      requires StreamIs(out0, outbuff[..], outp0, bitsleft0, stream)
      modifies this`outsize, outbuff
      ensures 0 <= outp < BLKSIZE && 0 <= bitsleft < 8 && outsize == |out|
      ensures StreamIs(out, outbuff[..], outp, bitsleft, stream + Code(length[..], maxlev, c))
      ensures out0 + old(outbuff[..outp0]) <= out + outbuff[..outp]
    {
      hide StreamIs, CodeLengths, Numbered, Code;
      NumberedLengths(bits[..], length[..], maxlev);
      outp, bitsleft := PutCode(c, outp0, bitsleft0, out0, stream);
      assert outbuff[..outp0] == outbuff[..outp][..outp0];
      outp, out := Flush(outp, bitsleft, out0, stream + Code(length[..], maxlev, c));
    }

    // pack.c:135-175: the text, block by block.
    method PutText(data: seq<Byte>, outp0: int, ghost h: seq<Byte>) returns (out: seq<Byte>, ghost pad: nat)
      requires Valid() && 0 <= maxlev <= MAXDEPTH && Numbered(bits[..], length[..], maxlev, 1, END + 1)
      requires Covers(length[..], data)
      requires outp0 == |h| < BLKSIZE && outbuff[..outp0] == h
      modifies this`outsize, outbuff
      ensures outsize == |out| > |h| && h <= out && pad < 8
      ensures ByteBits(out)
        == ByteBits(h) + TextBits(length[..], maxlev, data) + Code(length[..], maxlev, END) + Zeros(pad)
    {
      hide StreamIs, TextBits, CodeLengths, Numbered, Code, ByteBits, Covers, Reading;
      ghost var len, bs := length[..], bits[..];
      NumberedLengths(bs, len, maxlev);
      out := [];
      outsize := 0;
      var outp, bitsleft := outp0, 8;
      var pos, inbuff, inp, inleft := 0, [], 0, 0;
      var more := true;
      ghost var stream := ByteBits(h);
      TextStart(out, outbuff[..], outp, h, len, maxlev, data);
      while more
        invariant 0 <= outp < BLKSIZE && outsize == |out| && h <= out + outbuff[..outp]
        invariant length[..] == len && bits[..] == bs
        invariant Reading(data, pos, inbuff, inp, inleft) && 0 <= pos - inleft <= |data|
        invariant 0 <= bitsleft <= 8 && StreamIs(out, outbuff[..], outp, bitsleft, stream)
        invariant more ==> Covers(len, data[..pos - inleft]) &&
                           stream == ByteBits(h) + TextBits(len, maxlev, data[..pos - inleft])
        invariant !more ==> bitsleft < 8 &&
                            stream == ByteBits(h) + TextBits(len, maxlev, data) + Code(len, maxlev, END)
        decreases if more then 1 else 0, |data| - (pos - inleft)
      {
        var c;
        ghost var k := pos - inleft;
        c, pos, inbuff, inp, inleft := NextSymbol(data, pos, inbuff, inp, inleft);
        if k < |data| {
          TextStep(len, maxlev, data, k, bs);
        } else {
          assert data[..k] == data;
          EndCovered(len, maxlev, bs);
        }
        outp, bitsleft, out := PutSymbol(c, outp, bitsleft, out, stream);
        stream := stream + Code(len, maxlev, c);
        more := c != END;
      }
      if bitsleft < 8 {
        outp := outp + 1;
      }
      TextDone(out, outbuff[..], outp, bitsleft, stream);
      pad := bitsleft;
      assert out + outbuff[..outp - 1] <= out + outbuff[..outp];
      out := out + outbuff[..outp];
      outsize := outsize + outp;
    }

    // pack.c:107-177.
    method Output(data: seq<Byte>) returns (out: seq<Byte>)
      requires Valid() && 1 <= maxlev <= MAXDEPTH && insize == |data|
      requires Numbered(bits[..], length[..], maxlev, 1, END + 1) && Covers(length[..], data)
      requires Counted(levcount[..], length[..], END + 1)
      modifies this`dictsize, this`outsize, outbuff
      ensures Packed(out, data, length[..], maxlev) && outsize == |out|
      ensures dictsize == |Header(insize, length[..], maxlev)|
    {
      var outp := PutHeader();
      ghost var h, pad := outbuff[..outp], 0;
      out, pad := PutText(data, outp, h);
      PackedIntro(out, data, length[..], maxlev, h, pad, bits[..]);
    }

    // pack.c:107-177 when nothing but END occurs: no levels, no codeword, and
    // the level count written is whatever the depth loop left in levcount[0].
    method OutputEmpty() returns (out: seq<Byte>)
      requires Valid() && maxlev == 0 && insize == 0
      modifies this`dictsize, this`outsize, outbuff
      ensures |out| == 8 && out[..7] == Preamble(0, 0) && outsize == 8
    {
      var outp := PutPreamble();
      outp := PutByte(outp, ToByte(levcount[0] - 2));
      dictsize := outp;
      out := outbuff[..outp];
      outsize := outp;
    }

    // pack.c:206 and 211: all the counts.
    method Tally(data: seq<Byte>)
      requires Valid()
      modifies count
      ensures count[..] == CountTable(data)
    {
      Input(data);
      count[END] := 1;
      CountsAre(count[..], data);
    }

    // pack.c:205-243: counts, heap and tree; false for a trivial file.
    method MakeTree(data: seq<Byte>) returns (ok: bool, ghost t: Tree, ghost linked: set<int>)
      requires Valid()
      modifies this, count, heap, parent
      ensures Valid() && count[..] == CountTable(data)
      ensures !ok <==> |Symbols(CountTable(data), 0)| == 2
      ensures ok ==> insize == |data| && diffbytes == |Symbols(CountTable(data), 0)| - 1
      ensures ok ==> TreeFor(data, t, parent[..], lastnode, linked)
    {
      hide CountTable, Occurring, Symbols, Lists, Slots, IsHeap, Unlinked, ForestOk, Level, Reduces, Entries, TreeFor,
        AllLeaves, RootWeights, InternalSum;
      ghost var cs, fs0 := CountTable(data), Occurring(CountTable(data), 0);
      Tally(data);
      Gather(data);
      StartForest(data, parent[..]);
      t, linked := Leaf(END), {};
      if diffbytes == 1 {
        ok := false;
        return;
      }
      ok := true;
      insize := insize / 2;
      ghost var h, m := heap[..], 0;
      MakeHeap();
      ListsSame(h, heap[..], n, fs0, cs);
      t, linked, m := BuildTree(fs0, cs);
      TreeForIntro(data, t, parent[..], lastnode, linked);
    }

    // pack.c:205-258: ... and lengths.
    method MeasureLengths(data: seq<Byte>) returns (ok: bool, bitsout: int)
      requires Valid()
      modifies this, count, heap, parent, levcount, length
      ensures Valid()
      ensures !ok <==> |Symbols(CountTable(data), 0)| == 2
      ensures ok ==> Measured(data, length[..], maxlev) && Counted(levcount[..], length[..], END + 1)
      ensures ok ==> insize == |data| && diffbytes == |Symbols(CountTable(data), 0)| - 1
      ensures ok ==> bitsout == BitsOut(length[..], CountTable(data), END + 1) && (outside <==> maxlev > MAXDEPTH)
    {
      hide CountTable, Symbols, Counted, TreeFor, Measured, BitsOut, Upward, DepthsOf, Highest;
      ghost var t, linked;
      ok, t, linked := MakeTree(data);
      bitsout := 0;
      if ok {
        LinksLeadUp(data, t, parent[..], lastnode, linked);
        bitsout := AssignLengths();
        TreeResult(data, t, linked, parent[..], lastnode, length[..], maxlev);
      }
    }

    // pack.c:200-288.
    method Packfile(data: seq<Byte>, force: bool) returns (r: Outcome)
      requires Valid()
      modifies this, count, heap, parent, levcount, length, bits, outbuff
      ensures Valid()
      ensures r.Trivial? <==> |Symbols(CountTable(data), 0)| == 2
      ensures !r.Trivial? ==> Optimal(CountTable(data), length[..]) && PackLengths(CountTable(data), length[..], maxlev)
      ensures !r.Trivial? ==> maxlev >= 0 && |data| + 1 >= Fib(maxlev + 2)
      ensures r.TooManyLevels? <==> !r.Trivial? && maxlev > MAXDEPTH
      ensures !r.Trivial? ==> (outside <==> r.TooManyLevels?)
      ensures r.TooManyLevels? ==> |data| + 1 >= Fib(MAXDEPTH + 3)
      ensures r.NoSaving? ==> !force && !Saves(data, length[..], maxlev)
      ensures r.NoSaving? ==> Covers(length[..], data) && |data| < PackedLength(data, length[..], maxlev) + 512
      ensures r.Done? && !force ==> |r.out| < |data| + 4
      ensures r.Done? ==> force || Saves(data, length[..], maxlev)
      ensures r.Done? && data != [] ==> OnlyThese(length[..], data)
      ensures r.Done? && data == [] ==> force && |r.out| == 8 && r.out[..7] == Preamble(0, 0)
      ensures r.Done? && data != [] ==>
        1 <= maxlev <= MAXDEPTH && Packed(r.out, data, length[..], maxlev)
      ensures r.Done? ==> outsize == |r.out|
    {
      hide CountTable, Symbols, Optimal, Packed, Fib, CodeLengths, Counted, BitsOut, OnlyThese, PackedLength, Covers;
      var ok, bitsout := MeasureLengths(data);
      if !ok {
        return Trivial;
      }
      MeasuredMeans(data, length[..], maxlev);
      MeasuredBits(data, length[..], maxlev);
      if maxlev > MAXDEPTH {
        FibMono(MAXDEPTH + 3, maxlev + 2);
        return TooManyLevels;
      }
      outsize := (bitsout + 7) / 8 + 6 + maxlev + diffbytes;
      if (insize + BLKSIZE - 1) / BLKSIZE <= (outsize + BLKSIZE - 1) / BLKSIZE && !force {
        NotWorthIt(data, length[..], maxlev);
        return NoSaving;
      }
      MeasuredOnly(data, length[..], maxlev);
      var out;
      if maxlev > 0 {
        AssignCodes();
        out := Output(data);
      } else {
        out := OutputEmpty();
      }
      if data != [] && !force { WorthIt(out, data, length[..], maxlev); }
      return Done(out);
    }

    // pack.c:227-228.
    method MakeHeap()
      requires Valid() && 1 <= n < heap.Length
      modifies heap
      ensures IsHeap(heap[..], 1, n)
      ensures multiset(Slots(heap[..], n)) == multiset(Slots(old(heap[..]), n))
    {
      var i := n / 2;
      ghost var bag := multiset(Slots(heap[..], n));
      while i >= 1
        invariant 0 <= i <= n / 2
        invariant IsHeap(heap[..], i + 1, n)
        invariant multiset(Slots(heap[..], n)) == bag
      {
        Heapify(i);
        i := i - 1;
      }
    }
  }

  lemma Pow2Step(n: nat)
    ensures Pow2(n + 1) == 2 * Pow2(n)
  {
  }

  lemma {:induction false} DepthBound(links: seq<int>, x: nat)
    requires Upward(links) && x < |links|
    ensures Depth(links, x) + x < |links|
    decreases |links| - x
  {
    if links[x] != 0 { DepthBound(links, links[x]); }
  }

  // Levels 1 to 24 of levcount, for the symbols below i.
  predicate Counted(levcount: seq<int>, len: seq<int>, i: nat) {
    |levcount| == MAXDEPTH + 1 && i <= |len| &&
    forall k :: 1 <= k <= MAXDEPTH ==> levcount[k] == LevCount(len, k, i)
  }

  function OneMore(levcount: seq<int>, c: nat): seq<int> {
    if c < |levcount| then levcount[c := levcount[c] + 1] else levcount
  }

  // m is the greatest length below i, or 0.
  predicate Highest(len: seq<int>, m: int, i: nat) {
    i <= |len| && m >= 0 && (forall c :: 0 <= c < i ==> 0 <= len[c] <= m) &&
    (m > 0 ==> exists c :: 0 <= c < i && len[c] == m)
  }

  predicate DepthsUpTo(len: seq<int>, links: seq<int>, i: nat) {
    i <= |len| == END + 1 && END < |links| && Upward(links) &&
    forall s :: 0 <= s < i ==> len[s] == Depth(links, s)
  }

  lemma {:induction false} BitsOutFrame(a: seq<int>, b: seq<int>, count: seq<int>, i: nat)
    requires i <= |a| && i <= |b| && i <= |count| && a[..i] == b[..i]
    ensures BitsOut(a, count, i) == BitsOut(b, count, i)
  {
    if i > 0 {
      assert a[..i][i - 1] == b[..i][i - 1];
      assert a[..i - 1] == a[..i][..i - 1] && b[..i - 1] == b[..i][..i - 1];
      BitsOutFrame(a, b, count, i - 1);
    }
  }

  lemma CountedStart(lev: seq<int>, len: seq<int>)
    requires |lev| == MAXDEPTH + 1 && forall k :: 1 <= k <= MAXDEPTH ==> lev[k] == 0
    ensures Counted(lev, len, 0) && Highest(len, 0, 0)
  {
  }

  lemma DepthsStart(len: seq<int>, links: seq<int>)
    requires |len| == END + 1 && END < |links| && Upward(links)
    ensures DepthsUpTo(len, links, 0)
  {
  }

  lemma DepthsEnd(len: seq<int>, parent: seq<int>, last: int)
    requires END <= last < |parent| && DepthsUpTo(len, parent[..last + 1], END + 1)
    ensures DepthsOf(len, parent, last)
  {
  }

  lemma LengthStep(len: seq<int>, lev: seq<int>, count: seq<int>, links: seq<int>, m: int, i: nat, c: nat)
    requires i <= END && |count| == END + 1 && DepthsUpTo(len, links, i) && Highest(len, m, i) && Counted(lev, len, i)
    requires c == Depth(links, i)
    ensures DepthsUpTo(len[i := c], links, i + 1)
    ensures Highest(len[i := c], if c > m then c else m, i + 1)
    ensures Counted(OneMore(lev, c), len[i := c], i + 1)
    ensures BitsOut(len[i := c], count, i + 1) == BitsOut(len, count, i) + c * (count[i] / 2)
  {
    var len' := len[i := c];
    assert len'[..i] == len[..i];
    BitsOutFrame(len', len, count, i);
    HighestStep(len, m, i, c);
    CountedStep(len, lev, i, c);
  }

  lemma HighestStep(len: seq<int>, m: int, i: nat, c: nat)
    requires i < |len| && Highest(len, m, i)
    ensures Highest(len[i := c], if c > m then c else m, i + 1)
  {
    var len' := len[i := c];
    if c > m {
      assert len'[i] == c;
    } else if m > 0 {
      var k :| 0 <= k < i && len[k] == m;
      assert len'[k] == m;
    }
  }

  lemma CountedStep(len: seq<int>, lev: seq<int>, i: nat, c: nat)
    requires i < |len| && Counted(lev, len, i)
    ensures Counted(OneMore(lev, c), len[i := c], i + 1)
  {
    var len', lev' := len[i := c], OneMore(lev, c);
    forall k | 1 <= k <= MAXDEPTH ensures lev'[k] == LevCount(len', k, i + 1) {
      assert len'[..i] == len[..i];
      LevCountFrame(len', len, k, i);
    }
  }

  lemma DictSoFar(len: seq<int>, lev: nat, c: nat)
    requires |len| == END + 1 && lev >= 1 && c <= END
    ensures |Dict(len, lev - 1)| + |DictLevel(len, lev, c)| <= END
    ensures c < END && len[c] == lev ==> |Dict(len, lev - 1)| + |DictLevel(len, lev, c)| < END
  {
    hide *;
    DictSize(len, lev - 1);
    BetweenStep(len, lev, END);
    LevCountMono(len, lev, c, END);
    if c < END {
      LevCountNext(len, lev, c);
      LevCountMono(len, lev, c + 1, END);
    }
  }

  lemma LevCountNext(len: seq<int>, lev: int, c: nat)
    requires c < |len|
    ensures LevCount(len, lev, c + 1) == LevCount(len, lev, c) + if len[c] == lev then 1 else 0
  {
  }

  lemma DictLevelStart(len: seq<int>, lev: int)
    requires |len| == END + 1
    ensures DictLevel(len, lev, 0) == []
  {
  }

  lemma DictLevelStep(len: seq<int>, lev: int, c: nat)
    requires |len| == END + 1 && c < END
    ensures DictLevel(len, lev, c + 1) == DictLevel(len, lev, c) + if len[c] == lev then [c as Byte] else []
  {
  }

  lemma DictStep(len: seq<int>, lev: nat)
    requires |len| == END + 1 && lev >= 1
    ensures Dict(len, lev) == Dict(len, lev - 1) + DictLevel(len, lev, END)
  {
  }

  lemma PackedIntro(out: seq<Byte>, data: seq<Byte>, len: seq<int>, maxlev: int, h: seq<Byte>, pad: nat, bits: seq<int>)
    requires maxlev >= 0 && Numbered(bits, len, maxlev, 1, END + 1) && Covers(len, data)
    requires h == Header(|data|, len, maxlev) && h <= out && |out| > |h| && pad < 8
    requires ByteBits(out) == ByteBits(h) + TextBits(len, maxlev, data) + Code(len, maxlev, END) + Zeros(pad)
    ensures Packed(out, data, len, maxlev)
  {
    NumberedLengths(bits, len, maxlev);
    EndCovered(len, maxlev, bits);
    var text := TextBits(len, maxlev, data) + Code(len, maxlev, END) + Zeros(pad);
    BodyBits(out, h, text, TextBits(len, maxlev, data), Code(len, maxlev, END), Zeros(pad));
  }

  lemma BodyBits(out: seq<Byte>, h: seq<Byte>, text: seq<Bit>, a: seq<Bit>, b: seq<Bit>, c: seq<Bit>)
    requires h <= out && text == a + b + c && ByteBits(out) == ByteBits(h) + a + b + c
    ensures ByteBits(out[|h|..]) == text
  {
    hide *;
    var body := out[|h|..];
    assert out == h + body;
    ByteBitsConcat(h, body);
    assert ByteBits(h) + a + b + c == ByteBits(h) + text;
    assert ByteBits(body) == ByteBits(out)[|ByteBits(h)|..];
  }

  // ---------- what the tree amounts to

  lemma {:induction false} OccurringSymbols(count: seq<int>, s: nat)
    requires |count| == END + 1 && s <= END + 1
    ensures |Occurring(count, s)| == |Symbols(count, s)|
    ensures forall i :: 0 <= i < |Symbols(count, s)| ==>
      Occurring(count, s)[i].Leaf? && Occurring(count, s)[i].node == Symbols(count, s)[i]
    decreases END + 1 - s
  {
    if s <= END { OccurringSymbols(count, s + 1); }
  }

  lemma {:induction false} LeafWeights(fs: seq<Tree>, syms: seq<int>, count: seq<int>, len: seq<int>)
    requires |fs| == |syms| && forall i :: 0 <= i < |fs| ==> fs[i].Leaf? && fs[i].node == syms[i]
    ensures RootWeights(fs, count) == Weights(ItemsOf(syms, count, len))
  {
    if |fs| != 0 {
      LeafWeights(fs[1..], syms[1..], count, len);
      assert ItemsOf(syms, count, len)[1..] == ItemsOf(syms[1..], count, len);
    }
  }

  lemma {:induction false} TotalIsSum(count: seq<int>, len: seq<int>, s: nat)
    requires |count| == END + 1 && s <= END + 1 && forall i :: 0 <= i <= END ==> count[i] >= 0
    ensures TotalWeight(ItemsOf(Symbols(count, s), count, len)) == SumFrom(count, s)
    decreases END + 1 - s
  {
    if s <= END {
      TotalIsSum(count, len, s + 1);
      var items := ItemsOf(Symbols(count, s + 1), count, len);
      if count[s] > 0 {
        assert ItemsOf(Symbols(count, s), count, len) == items + [ItemOf(s, count, len)];
        TotalConcat(items, [ItemOf(s, count, len)]);
      } else {
        assert ItemsOf(Symbols(count, s), count, len) == items;
      }
    }
  }

  // What BuildTree starts from.
  lemma StartForest(data: seq<Byte>, parent: seq<int>)
    requires |parent| == PARENTS && Unlinked(parent, 0)
    ensures
      var cs := CountTable(data);
      var fs0 := Occurring(cs, 0);
      ForestOk(fs0, cs, parent, END, {}) && Level(fs0, cs, 0) && InternalSum(fs0, cs) == 0 &&
      |fs0| > 0 && fs0[0].node == END && |fs0| == |Symbols(cs, 0)|
  {
    var cs := CountTable(data);
    OccurringOk(cs, 0);
    OccurringSums(cs, 0);
    OccurringHead(cs, 0);
    OccurringSymbols(cs, 0);
    SinglesOk(Occurring(cs, 0), cs, parent);
  }

  lemma {:induction false} OccurringHead(count: seq<int>, s: nat)
    requires |count| == END + 1 && s <= END && count[END] == 1
    ensures |Occurring(count, s)| > 0 && Occurring(count, s)[0] == Leaf(END)
    decreases END - s
  {
    if s < END { OccurringHead(count, s + 1); } else { assert Occurring(count, END + 1) == []; }
  }

  // The lengths of data's symbols are worked out.
  ghost predicate Measured(data: seq<Byte>, len: seq<int>, maxlev: int) {
    var cs := CountTable(data);
    |len| == END + 1 && maxlev >= 0 && Optimal(cs, len) && |data| + 1 >= Fib(maxlev + 2) &&
    PackLengths(cs, len, maxlev) && exists top :: KraftExact(SymbolItems(cs, len), top)
  }

  lemma CountsAre(count: seq<int>, data: seq<Byte>)
    requires |count| == END + 1 && count[END] == 1 && forall c: Byte :: count[c as int] == 2 * multiset(data)[c]
    ensures count == CountTable(data)
  {
    forall i | 0 <= i <= END ensures count[i] == CountTable(data)[i] {
      if i < END { assert count[i] == count[(i as Byte) as int]; }
    }
  }

  // The finished tree for data's symbols, as BuildTree leaves it.
  ghost predicate TreeFor(data: seq<Byte>, t: Tree, parent: seq<int>, last: int, linked: set<int>) {
    var cs := CountTable(data);
    ForestOk([t], cs, parent, last, linked) && t.node == last && parent[last] == 0 &&
    AllLeaves([t]) == AllLeaves(Occurring(cs, 0)) &&
    Reduces(RootWeights(Occurring(cs, 0), cs), RootWeights([t], cs), InternalSum([t], cs))
  }

  lemma TreeForIntro(data: seq<Byte>, t: Tree, parent: seq<int>, last: int, linked: set<int>)
    requires
      var cs := CountTable(data);
      0 <= last < |parent| &&
      ForestOk([t], cs, parent, last, linked) && t.node == last && parent[last] == 0 &&
      AllLeaves([t]) == AllLeaves(Occurring(cs, 0)) &&
      Reduces(RootWeights(Occurring(cs, 0), cs), RootWeights([t], cs), InternalSum([t], cs))
    ensures TreeFor(data, t, parent, last, linked)
  {
  }

  lemma LinksLeadUp(data: seq<Byte>, t: Tree, parent: seq<int>, last: int, linked: set<int>)
    requires TreeFor(data, t, parent, last, linked)
    ensures END <= last < |parent| && Upward(parent[..last + 1])
  {
    FinishedLinks(t, CountTable(data), parent, last, linked);
  }

  lemma SameLeaves(data: seq<Byte>, t: Tree)
    requires AllLeaves([t]) == AllLeaves(Occurring(CountTable(data), 0))
    ensures multiset(Leaves(t)) == multiset(Symbols(CountTable(data), 0))
  {
    var cs := CountTable(data);
    OccurringSymbols(cs, 0);
    LeafBag(Occurring(cs, 0), Symbols(cs, 0));
    assert AllLeaves([]) == multiset{};
    assert [t][1..] == [];
  }

  lemma OneTree(t: Tree, count: seq<int>)
    ensures RootWeights([t], count) == multiset{Weight(t, count)} && InternalSum([t], count) == Internal(t, count)
  {
    assert [t][1..] == [];
  }

  lemma TreeResult(data: seq<Byte>, t: Tree, linked: set<int>, parent: seq<int>, last: int, len: seq<int>, maxlev: int)
    requires TreeFor(data, t, parent, last, linked)
    requires DepthsOf(len, parent, last) && Highest(len, maxlev, END + 1)
    ensures Measured(data, len, maxlev)
  {
    hide *;
    TreeForMeans(data, t, parent, last, linked);
    var cs := CountTable(data);
    var fs0 := Occurring(cs, 0);
    SameLeaves(data, t);
    OneTree(t, cs);
    OccurringSymbols(cs, 0);
    LeafWeights(fs0, Symbols(cs, 0), cs, len);
    ItemsAre(cs, len);
    TreeLengthsOptimal(t, cs, parent, last, linked, len, fs0);
    FinishedLinks(t, cs, parent, last, linked);
    AbsentHaveNone(data, t, parent, last, linked, len, maxlev);
    TotalIsSum(cs, len, 0);
    SumOfTable(data);
    var c := OddDepthCosts(t, cs, parent, last, linked, len);
    OddIsEnd(data, c);
    EndIsDeepest(data, len, maxlev, Height(t));
    MeasuredIntro(data, len, maxlev, Height(t));
  }

  lemma OddIsEnd(data: seq<Byte>, c: nat)
    requires c <= END && CountTable(data)[c] % 2 == 1
    ensures c == END
  {
    if c < END { assert CountTable(data)[c] == CountTable(data)[(c as Byte) as int]; }
  }

  lemma EndIsDeepest(data: seq<Byte>, len: seq<int>, maxlev: int, top: nat)
    requires Optimal(CountTable(data), len) && PackLengths(CountTable(data), len, maxlev)
    requires KraftExact(SymbolItems(CountTable(data), len), top)
    ensures len[END] == maxlev
  {
    hide Optimal, KraftExact, SymbolItems, Symbols, CountTable;
    if data == [] {
      EmptyLength(len, maxlev, top);
    } else {
      SeveralSymbols(data);
      EndDominates(CountTable(data), len, maxlev, top);
    }
  }

  lemma TreeForMeans(data: seq<Byte>, t: Tree, parent: seq<int>, last: int, linked: set<int>)
    requires TreeFor(data, t, parent, last, linked)
    ensures
      var cs := CountTable(data);
      ForestOk([t], cs, parent, last, linked) && t.node == last && parent[last] == 0 &&
      AllLeaves([t]) == AllLeaves(Occurring(cs, 0)) &&
      Reduces(RootWeights(Occurring(cs, 0), cs), RootWeights([t], cs), InternalSum([t], cs))
  {
  }

  lemma ItemsAre(count: seq<int>, len: seq<int>)
    requires |count| == END + 1
    ensures SymbolItems(count, len) == ItemsOf(Symbols(count, 0), count, len)
  {
  }

  // A symbol that occurs is no higher than any other: if all lengths are 0 this is END.
  lemma DeepestSymbol(count: seq<int>, len: seq<int>, maxlev: int) returns (c: nat)
    requires PackLengths(count, len, maxlev)
    ensures c <= END && count[c] > 0 && len[c] == maxlev >= 0
  {
    c :| 0 <= c <= END && len[c] == maxlev;
    if count[c] == 0 { c := END; }
  }

  // Symbols that do not occur are linked to nothing.
  lemma AbsentHaveNone(data: seq<Byte>, t: Tree, parent: seq<int>, last: int, linked: set<int>, len: seq<int>, maxlev: int)
    requires ForestOk([t], CountTable(data), parent, last, linked) && t.node == last && parent[last] == 0
    requires DepthsOf(len, parent, last) && Highest(len, maxlev, END + 1)
    ensures PackLengths(CountTable(data), len, maxlev)
  {
    var cs, links := CountTable(data), parent[..last + 1];
    forall c | 0 <= c <= END
      ensures 0 <= len[c] <= maxlev && (cs[c] == 0 ==> len[c] == 0)
    {
      assert len[c] == Depth(links, c);
      if cs[c] == 0 {
        assert CountOf(cs, c) == 0;
        assert c !in linked;
        assert links[c] == 0;
      }
    }
    if maxlev == 0 { assert len[END] == maxlev; }
    CountsArePackCounts(data);
  }

  lemma CountsArePackCounts(data: seq<Byte>)
    ensures PackCounts(CountTable(data))
  {
    forall c | 0 <= c < END ensures CountTable(data)[c] == 0 || CountTable(data)[c] >= 2 {
      assert CountTable(data)[c] == CountTable(data)[(c as Byte) as int];
    }
  }

  lemma MeasuredIntro(data: seq<Byte>, len: seq<int>, maxlev: int, top: nat)
    requires Optimal(CountTable(data), len) && maxlev >= 0 && |data| + 1 >= Fib(maxlev + 2)
    requires PackLengths(CountTable(data), len, maxlev) && KraftExact(SymbolItems(CountTable(data), len), top)
    ensures Measured(data, len, maxlev)
  {
  }

  lemma SeveralSymbols(data: seq<Byte>)
    requires data != []
    ensures |Symbols(CountTable(data), 0)| >= 2
  {
    var cs := CountTable(data);
    SymbolsRange(cs, 0);
    assert data[0] in multiset(data);
    assert cs[data[0] as int] > 0;
    hide *;
    TwoMembers(Symbols(cs, 0), data[0] as int, END);
  }

  lemma TwoMembers(s: seq<int>, a: int, b: int)
    requires a in s && b in s && a != b
    ensures |s| >= 2
  {
  }

  // Only END occurs in an empty file.
  lemma {:induction false} EmptySymbols(s: nat)
    requires s <= END
    ensures Symbols(CountTable([]), s) == [END]
    decreases END - s
  {
    var cs := CountTable([]);
    if s < END {
      EmptySymbols(s + 1);
      assert cs[s] == cs[(s as Byte) as int] == 0;
    } else {
      assert Symbols(cs, END + 1) == [];
    }
  }

  lemma EmptyLength(len: seq<int>, maxlev: int, top: nat)
    requires PackLengths(CountTable([]), len, maxlev) && KraftExact(SymbolItems(CountTable([]), len), top)
    ensures maxlev == 0
  {
    hide KraftExact, SymbolItems, Symbols, CountTable;
    var cs := CountTable([]);
    EmptySymbols(0);
    EmptyTable(cs);
    var c := DeepestSymbol(cs, len, maxlev);
    SymbolsRange(cs, 0);
    assert c in Symbols(cs, 0);
    OneItem(cs, len);
    AloneHasNoCode(SymbolItems(cs, len)[0], top);
  }

  lemma EmptyTable(count: seq<int>)
    requires count == CountTable([])
    ensures |count| == END + 1
  {
  }

  lemma OneItem(count: seq<int>, len: seq<int>)
    requires |count| == END + 1 && Symbols(count, 0) == [END]
    ensures |SymbolItems(count, len)| == 1 && SymbolItems(count, len) == [SymbolItems(count, len)[0]]
    ensures |len| == END + 1 && len[END] >= 0 ==> SymbolItems(count, len)[0].len == len[END]
  {
  }

  lemma AloneHasNoCode(x: Item, top: nat)
    requires KraftExact([x], top)
    ensures x.len == 0
  {
    Single(x, top);
    if x.len > 0 {
      assert Pow2(top) == 2 * Pow2(top - 1);
      Pow2Mono(top - x.len, top - 1);
    }
  }

  // Every byte counted twice.
  predicate Tallied(count: seq<int>, bag: multiset<Byte>) {
    |count| == END + 1 && forall c: Byte :: count[c as int] == 2 * bag[c]
  }

  lemma TallyNone(count: seq<int>, none: seq<Byte>)
    requires |count| == END + 1 && (forall k :: 0 <= k < END ==> count[k] == 0) && |none| == 0
    ensures Tallied(count, multiset(none))
  {
    forall c: Byte ensures count[c as int] == 2 * multiset(none)[c] {}
  }

  lemma TallyStep(count: seq<int>, seen: multiset<Byte>, inbuff: seq<Byte>, i: nat)
    requires i < |inbuff| && Tallied(count, seen + multiset(inbuff[i + 1..]))
    ensures Tallied(count[inbuff[i] as int := count[inbuff[i] as int] + 2], seen + multiset(inbuff[i..]))
  {
    assert inbuff[i..] == [inbuff[i]] + inbuff[i + 1..];
    var b, bag := inbuff[i], seen + multiset(inbuff[i + 1..]);
    var more := seen + multiset(inbuff[i..]);
    forall c: Byte ensures count[b as int := count[b as int] + 2][c as int] == 2 * more[c] {
      assert count[c as int] == 2 * bag[c];
      assert more[c] == bag[c] + if c == b then 1 else 0;
    }
  }

  lemma TallyAll(count: seq<int>, data: seq<Byte>)
    requires Tallied(count, multiset(data))
    ensures |count| == END + 1 && forall c: Byte :: count[c as int] == 2 * multiset(data)[c]
  {
  }

  // What the rest of packfile() needs.
  lemma MeasuredMeans(data: seq<Byte>, len: seq<int>, maxlev: int)
    requires Measured(data, len, maxlev)
    ensures maxlev >= 0 && Optimal(CountTable(data), len) && PackLengths(CountTable(data), len, maxlev)
    ensures |data| + 1 >= Fib(maxlev + 2)
    ensures data != [] ==> CodeLengths(len, maxlev) && Covers(len, data)
    ensures data == [] <==> maxlev == 0
  {
    if data == [] {
      var top: nat :| KraftExact(SymbolItems(CountTable(data), len), top);
      EmptyLength(len, maxlev, top);
    } else {
      MeasuredCode(data, len, maxlev);
    }
  }

  // What the refusal means in bytes, and what it means that there is none.
  lemma NotWorthIt(data: seq<Byte>, len: seq<int>, maxlev: int)
    requires Measured(data, len, maxlev) && 0 <= maxlev <= MAXDEPTH && !Saves(data, len, maxlev)
    ensures Covers(len, data) && |data| < PackedLength(data, len, maxlev) + 512
  {
    hide Optimal, PackedLength, Saves, CodeLengths, CountTable, OnlyThese;
    MeasuredMeans(data, len, maxlev);
    MeasuredOnly(data, len, maxlev);
    if data == [] {
      NothingPacked(len, maxlev);
    } else {
      Saving(data, len, maxlev);
    }
  }

  lemma NothingPacked(len: seq<int>, maxlev: nat)
    requires Covers(len, [])
    ensures PackedLength([], len, maxlev) >= 0
  {
  }

  lemma WorthIt(out: seq<Byte>, data: seq<Byte>, len: seq<int>, maxlev: nat)
    requires Packed(out, data, len, maxlev) && OnlyThese(len, data) && Saves(data, len, maxlev)
    ensures |out| < |data| + 4
  {
    hide Packed, PackedLength, Saves, CodeLengths, CountTable, OnlyThese;
    LengthIs(out, data, len, maxlev);
    Saving(data, len, maxlev);
  }

  lemma MeasuredCode(data: seq<Byte>, len: seq<int>, maxlev: int)
    requires Measured(data, len, maxlev) && data != []
    ensures maxlev >= 1 && CodeLengths(len, maxlev) && Covers(len, data)
  {
    var cs := CountTable(data);
    SeveralSymbols(data);
    var top: nat :| KraftExact(SymbolItems(cs, len), top);
    hide Optimal, KraftExact, SymbolItems, Symbols;
    OptimalIsCanonical(cs, len, maxlev, top);
    forall i | 0 <= i < |data| ensures len[data[i] as int] >= 1 {
      assert data[i] in multiset(data);
      assert cs[data[i] as int] > 0;
    }
  }

  lemma MeasuredOnly(data: seq<Byte>, len: seq<int>, maxlev: int)
    requires Measured(data, len, maxlev)
    ensures OnlyThese(len, data)
  {
    hide Optimal, SymbolItems, KraftExact, Fib;
    var cs := CountTable(data);
    forall c | 0 <= c < END && len[c] != 0 ensures c as Byte in data {
      assert cs[c] == cs[(c as Byte) as int];
    }
  }

  // pack.c:266's estimate of the text is not negative.
  lemma MeasuredBits(data: seq<Byte>, len: seq<int>, maxlev: int)
    requires Measured(data, len, maxlev)
    ensures BitsOut(len, CountTable(data), END + 1) >= 0
  {
    BitsOutPositive(len, CountTable(data), END + 1);
  }

  lemma {:induction false} BitsOutPositive(len: seq<int>, count: seq<int>, i: nat)
    requires i <= |len| && i <= |count| && forall k :: 0 <= k < i ==> len[k] >= 0 && count[k] >= 0
    ensures BitsOut(len, count, i) >= 0
  {
    if i > 0 {
      BitsOutPositive(len, count, i - 1);
      assert len[i - 1] * (count[i - 1] / 2) >= 0;
    }
  }

  // The input side: pos bytes read, of which the last inleft still wait in inbuff.
  predicate Reading(data: seq<Byte>, pos: int, inbuff: seq<Byte>, inp: int, inleft: int) {
    0 <= inp && 0 <= inleft == |inbuff| - inp && |inbuff| <= pos <= |data| && inbuff == data[pos - |inbuff|..pos]
  }

  lemma TextStart(out: seq<Byte>, buf: seq<Byte>, outp: int, h: seq<Byte>, len: seq<int>, maxlev: int,
                  data: seq<Byte>)
    requires out == [] && 0 <= outp < |buf| && buf[..outp] == h && maxlev >= 0 && CodeLengths(len, maxlev)
    ensures StreamIs(out, buf, outp, 8, ByteBits(h)) && Reading(data, 0, [], 0, 0)
    ensures Covers(len, data[..0]) && ByteBits(h) == ByteBits(h) + TextBits(len, maxlev, data[..0])
  {
    assert out + buf[..outp] == h;
    assert ByteBits(h) + Zeros(0) == ByteBits(h);
  }

  lemma NumberedLengths(bits: seq<int>, len: seq<int>, maxlev: int)
    requires maxlev >= 0 && Numbered(bits, len, maxlev, 1, END + 1)
    ensures CodeLengths(len, maxlev) && maxlev <= WIDTH
  {
  }

  lemma EndCovered(len: seq<int>, maxlev: int, bits: seq<int>)
    requires maxlev >= 0 && Numbered(bits, len, maxlev, 1, END + 1)
    ensures len[END] >= 1
  {
  }

  lemma TextStep(len: seq<int>, maxlev: int, data: seq<Byte>, k: nat, bits: seq<int>)
    requires maxlev >= 0 && Numbered(bits, len, maxlev, 1, END + 1) && Covers(len, data) && k < |data|
    ensures Covers(len, data[..k]) && Covers(len, data[..k + 1]) && len[data[k] as int] >= 1
    ensures TextBits(len, maxlev, data[..k + 1]) == TextBits(len, maxlev, data[..k]) + Code(len, maxlev, data[k] as int)
  {
    assert data[..k + 1] == data[..k] + [data[k]];
    TextBitsSnoc(len, maxlev, data[..k], data[k]);
  }

  lemma TextDone(out: seq<Byte>, buf: seq<Byte>, outp: int, bitsleft: int, stream: seq<Bit>)
    requires outp >= 1 && StreamIs(out, buf, outp - 1, bitsleft, stream) && bitsleft < 8
    ensures outp <= |buf| && ByteBits(out + buf[..outp]) == stream + Zeros(bitsleft)
  {
  }

  // Symbols s and up have no link yet.
  predicate Unlinked(parent: seq<int>, s: int) {
    |parent| > END && forall k :: 0 <= s <= k <= END ==> parent[k] == 0
  }

  lemma UnlinkedStart(parent: seq<int>)
    requires |parent| > END
    ensures Unlinked(parent, END + 1)
  {
  }

  lemma UnlinkedStep(parent: seq<int>, s: nat)
    requires Unlinked(parent, s + 1) && s <= END
    ensures Unlinked(parent[s := 0], s)
  {
  }

  lemma TableLength(data: seq<Byte>)
    ensures |CountTable(data)| == END + 1 && CountTable(data)[END] == 1 && forall i :: 0 <= i <= END ==> CountTable(data)[i] >= 0
  {
  }

  lemma NoSlots(h: seq<Entry>, count: seq<int>)
    requires |h| > 0
    ensures Slots(h, 0) == Entries([], count)
  {
  }

  lemma ListsIntro(h: seq<Entry>, n: int, fs: seq<Tree>, count: seq<int>)
    requires 0 <= n < |h| && Slots(h, n) == Entries(fs, count)
    ensures Lists(h, n, fs, count)
  {
  }

  lemma OccurringLast(count: seq<int>)
    requires |count| == END + 1
    ensures Occurring(count, END + 1) == [] && SumFrom(count, END + 1) == 0
  {
  }

  lemma OccurringStep(count: seq<int>, s: nat)
    requires |count| == END + 1 && s <= END && count[s] >= 0
    ensures Occurring(count, s) == Occurring(count, s + 1) + if count[s] > 0 then [Leaf(s)] else []
    ensures SumFrom(count, s) == count[s] + SumFrom(count, s + 1)
    ensures Entries(Occurring(count, s), count)
         == Entries(Occurring(count, s + 1), count) + if count[s] > 0 then [Entry(count[s], s)] else []
  {
    if count[s] > 0 { assert Weight(Leaf(s), count) == count[s]; }
  }

  // The sum of the counts of symbols s and up.
  function SumFrom(count: seq<int>, s: nat): int
    requires s <= |count|
    decreases |count| - s
  {
    if s == |count| then 0 else count[s] + SumFrom(count, s + 1)
  }

  lemma {:induction false} SumBump(a: seq<int>, b: seq<int>, s: nat, k: nat, d: int)
    requires |a| == |b| && s <= |a| && k < |a| && b == a[k := a[k] + d]
    ensures SumFrom(b, s) == SumFrom(a, s) + if s <= k then d else 0
    decreases |a| - s
  {
    if s < |a| { SumBump(a, b, s + 1, k, d); }
  }

  lemma {:induction false} SumZeros(a: seq<int>, s: nat)
    requires |a| == END + 1 && s <= END && a[END] == 1 && forall k :: 0 <= k < END ==> a[k] == 0
    ensures SumFrom(a, s) == 1
    decreases |a| - s
  {
    if s < END { SumZeros(a, s + 1); } else { assert SumFrom(a, END + 1) == 0; }
  }

  lemma {:induction false} SumOfTable(data: seq<Byte>)
    ensures SumFrom(CountTable(data), 0) == 2 * |data| + 1
  {
    if |data| == 0 {
      SumZeros(CountTable(data), 0);
    } else {
      var c, rest := data[0], data[1..];
      SumOfTable(rest);
      assert data == [c] + rest;
      var a, b := CountTable(rest), CountTable(data);
      forall k | 0 <= k <= END ensures b[k] == a[c as int := a[c as int] + 2][k] {
        if k < END { assert b[k] == b[(k as Byte) as int]; }
      }
      assert b == a[c as int := a[c as int] + 2];
      SumBump(a, b, 0, c as int, 2);
    }
  }

  lemma OccurringEnd(count: seq<int>)
    requires |count| == END + 1 && count[END] == 1
    ensures |Occurring(count, 0)| >= 1
  {
    OccurringGrows(count, 0);
    assert Occurring(count, END + 1) == [];
    assert Occurring(count, END) == [Leaf(END)];
  }

  lemma {:induction false} OccurringGrows(count: seq<int>, s: nat)
    requires |count| == END + 1 && s <= END
    ensures |Occurring(count, s)| >= |Occurring(count, END)|
    decreases END - s
  {
    if s < END { OccurringGrows(count, s + 1); }
  }
}
