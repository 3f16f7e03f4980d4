// dcopy.c's freelist(): all blocks that alloc() still has, on a free list from
// which df.c's and the system's alloc() take them in the same order.

module NewFreeList {
  import opened FreeList
  import opened Permutations
  import Cylinders

  // The list yields s; where it goes on is in the chunk of the last block of s,
  // which is not written yet.
  predicate Open(nfree: int, free: seq<int>, disk: Disk, s: seq<int>)
    decreases |s|
  {
    |free| == NICFREE && 1 <= nfree <= NICFREE && s != [] && free[nfree - 1] == s[0] != 0 &&
    if |s| == 1 then nfree == 1
    else if nfree == 1 then s[0] in disk && disk[s[0]].Free? && Open(disk[s[0]].nfree, disk[s[0]].free, disk, s[1..])
    else Open(nfree - 1, free, disk, s[1..])
  }

  // The blocks of one chunk, taken from entry n - 1 down.
  predicate Holds(free: seq<int>, n: int, t: seq<int>) {
    |free| == NICFREE && 0 <= |t| <= n <= NICFREE &&
    forall k :: 0 <= k < |t| ==> free[n - 1 - k] == t[k] != 0
  }

  // A chunk that ends the list.
  lemma {:induction false} LastChunk(free: seq<int>, n: int, t: seq<int>, disk: Disk)
    requires Holds(free, n, t) && n == |t| + 1 && free[0] == 0
    ensures Chain(n, free, disk, t)
    decreases |t|
  {
    if t != [] {
      assert free[n - 1 - 0] == t[0];
      forall k | 0 <= k < |t| - 1 ensures free[n - 2 - k] == t[1..][k] != 0 {
        assert free[n - 1 - (k + 1)] == t[k + 1];
      }
      LastChunk(free, n - 1, t[1..], disk);
    }
  }

  // A chunk that is full.
  lemma {:induction false} FullChunk(free: seq<int>, n: int, t: seq<int>, disk: Disk)
    requires Holds(free, n, t) && n == |t| && t != []
    ensures Open(n, free, disk, t)
    decreases |t|
  {
    assert free[n - 1 - 0] == t[0];
    if |t| > 1 {
      forall k | 0 <= k < |t| - 1 ensures free[n - 2 - k] == t[1..][k] != 0 {
        assert free[n - 1 - (k + 1)] == t[k + 1];
      }
      FullChunk(free, n - 1, t[1..], disk);
    }
  }

  // disk' has what disk has in the blocks of s but the last, which holds c.
  predicate Closes(disk: Disk, disk': Disk, s: seq<int>, c: Block) {
    s != [] && c.Free? && s[|s| - 1] in disk' && disk'[s[|s| - 1]] == c &&
    forall k :: 0 <= k < |s| - 1 && s[k] in disk ==> s[k] in disk' && disk'[s[k]] == disk[s[k]]
  }

  lemma ClosesTail(disk: Disk, disk': Disk, s: seq<int>, c: Block)
    requires Closes(disk, disk', s, c) && |s| > 1
    ensures Closes(disk, disk', s[1..], c) && (s[0] in disk ==> s[0] in disk' && disk'[s[0]] == disk[s[0]])
  {
  }

  lemma {:induction false} CloseList(nfree: int, free: seq<int>, disk: Disk, disk': Disk, s: seq<int>, t: seq<int>, c: Block)
    requires Open(nfree, free, disk, s) && Closes(disk, disk', s, c) && Chain(c.nfree, c.free, disk', t)
    ensures Chain(nfree, free, disk', s + t)
    decreases |s|
  {
    assert (s + t)[1..] == s[1..] + t && (s + t)[0] == s[0];
    if |s| == 1 {
      assert s[1..] + t == t;
    } else {
      ClosesTail(disk, disk', s, c);
      if nfree == 1 {
        CloseList(disk[s[0]].nfree, disk[s[0]].free, disk, disk', s[1..], t, c);
      } else {
        CloseList(nfree - 1, free, disk, disk', s[1..], t, c);
      }
    }
  }

  lemma {:induction false} ExtendList(nfree: int, free: seq<int>, disk: Disk, disk': Disk, s: seq<int>, t: seq<int>, c: Block)
    requires Open(nfree, free, disk, s) && Closes(disk, disk', s, c) && Open(c.nfree, c.free, disk', t)
    ensures Open(nfree, free, disk', s + t)
    decreases |s|
  {
    assert (s + t)[1..] == s[1..] + t && (s + t)[0] == s[0];
    if |s| == 1 {
      assert s[1..] + t == t;
    } else {
      ClosesTail(disk, disk', s, c);
      if nfree == 1 {
        ExtendList(disk[s[0]].nfree, disk[s[0]].free, disk, disk', s[1..], t, c);
      } else {
        ExtendList(nfree - 1, free, disk, disk', s[1..], t, c);
      }
    }
  }

  // ---------- freelist() under way

  // s is on the list already, frblk the block its next chunk goes to; cur stands
  // at the top of buf.
  predicate Building(nfree: int, free: seq<int>, disk: Disk, s: seq<int>, frblk: int, buf: seq<int>, cur: seq<int>) {
    Distinct(s + cur) && (forall b <- s + cur :: b != 0) &&
    Holds(buf, NICFREE, cur) && (forall k :: 0 <= k < NICFREE - |cur| ==> buf[k] == 0) &&
    if s == [] then frblk == 0 else frblk == s[|s| - 1] && Open(nfree, free, disk, s)
  }

  // One more block for the chunk.
  lemma OneMore(nfree: int, free: seq<int>, free': seq<int>, disk: Disk, s: seq<int>, frblk: int, buf: seq<int>, cur: seq<int>,
                blk: int)
    requires Building(nfree, free, disk, s, frblk, buf, cur) && |cur| < NICFREE && blk != 0 && blk !in s + cur
    requires free' == if frblk == 0 then buf[NICFREE - 1 - |cur| := blk] else free
    ensures Building(nfree, free', disk, s, frblk, buf[NICFREE - 1 - |cur| := blk], cur + [blk])
  {
    assert s != [] ==> (s + cur)[|s| - 1] in s + cur;
    assert s + (cur + [blk]) == (s + cur) + [blk];
  }

  // The chunk is full: it goes to the superblock or to the block frblk, and
  // the list goes on in its last block.
  lemma ChunkDone(nfree: int, free: seq<int>, disk: Disk, s: seq<int>, frblk: int, buf: seq<int>, cur: seq<int>,
                  nfree': int, free': seq<int>, disk': Disk, zeros: seq<int>)
    requires Building(nfree, free, disk, s, frblk, buf, cur) && |cur| == NICFREE
    requires s == [] ==> nfree' == NICFREE && free' == buf && disk' == disk
    requires s != [] ==> nfree' == nfree && free' == free && disk' == disk[frblk := Free(NICFREE, buf)]
    requires |zeros| == NICFREE && forall k :: 0 <= k < NICFREE ==> zeros[k] == 0
    ensures buf[0] != 0 && Building(nfree', free', disk', s + cur, buf[0], zeros, [])
  {
    FullChunk(buf, NICFREE, cur, disk');
    assert buf[0] == buf[NICFREE - 1 - (NICFREE - 1)] == cur[NICFREE - 1];
    assert (s + cur) + [] == s + cur;
    if s == [] {
      assert s + cur == cur;
    } else {
      forall k | 0 <= k < |s| - 1 ensures s[k] != frblk { assert (s + cur)[k] != (s + cur)[|s| - 1]; }
      ExtendList(nfree, free, disk, disk', s, cur, Free(NICFREE, buf));
    }
  }

  // alloc() has no more: the chunk is moved down and ends the list. What is
  // written to the first block of it afterwards does no harm.
  lemma ListDone(nfree: int, free: seq<int>, disk: Disk, s: seq<int>, frblk: int, buf: seq<int>, cur: seq<int>,
                 moved: seq<int>, nfree': int, free': seq<int>, disk': Disk, b: Block)
    requires Building(nfree, free, disk, s, frblk, buf, cur) && |cur| < NICFREE
    requires Holds(moved, |cur| + 1, cur) && moved[0] == 0
    requires s == [] ==> nfree' == |cur| + 1 && free' == moved && disk' == disk
    requires s != [] ==> nfree' == nfree && free' == free && disk' == disk[frblk := Free(|cur| + 1, moved)]
    ensures Chain(nfree', free', disk', s + cur)
    ensures cur != [] ==> Chain(nfree', free', disk'[cur[0] := b], s + cur)
  {
    ListEnds(nfree, free, disk, s, frblk, buf, cur, moved, nfree', free', disk');
    if cur != [] {
      if s == [] {
        LastChunk(moved, |cur| + 1, cur, disk'[cur[0] := b]);
        assert s + cur == cur;
      } else {
        var c := Free(|cur| + 1, moved);
        LastChunk(moved, |cur| + 1, cur, disk'[cur[0] := b]);
        assert (s + cur)[|s|] == cur[0];
        forall k | 0 <= k < |s| ensures s[k] != cur[0] { assert (s + cur)[k] != (s + cur)[|s|]; }
        forall k | 0 <= k < |s| - 1 ensures s[k] != frblk { assert (s + cur)[k] != (s + cur)[|s| - 1]; }
        CloseList(nfree, free, disk, disk'[cur[0] := b], s, cur, c);
      }
    }
  }

  lemma ListEnds(nfree: int, free: seq<int>, disk: Disk, s: seq<int>, frblk: int, buf: seq<int>, cur: seq<int>,
                 moved: seq<int>, nfree': int, free': seq<int>, disk': Disk)
    requires Building(nfree, free, disk, s, frblk, buf, cur) && |cur| < NICFREE
    requires Holds(moved, |cur| + 1, cur) && moved[0] == 0
    requires s == [] ==> nfree' == |cur| + 1 && free' == moved && disk' == disk
    requires s != [] ==> nfree' == nfree && free' == free && disk' == disk[frblk := Free(|cur| + 1, moved)]
    ensures Chain(nfree', free', disk', s + cur)
  {
    LastChunk(moved, |cur| + 1, cur, disk');
    if s == [] {
      assert s + cur == cur;
    } else {
      forall k | 0 <= k < |s| - 1 ensures s[k] != frblk { assert (s + cur)[k] != (s + cur)[|s| - 1]; }
      CloseList(nfree, free, disk, disk', s, cur, Free(|cur| + 1, moved));
    }
  }

  // dcopy.c's new superblock and disk, with the buffer for one chunk.
  class NewFileSystem {
    var nfree: int
    const free: array<int>
    const inb: array<int>
    var tfree: int
    var disk: Disk

    constructor (disk: Disk)
      ensures Valid() && this.disk == disk && (forall k :: 0 <= k < NICFREE ==> free[k] == 0) && fresh(free) && fresh(inb)
    {
      nfree, tfree, this.disk := 0, 0, disk;
      free := new int[NICFREE](_ => 0);
      inb := new int[NICFREE](_ => 0);
    }

    predicate Valid() {
      free.Length == inb.Length == NICFREE && free != inb
    }

    // dcopy.c:1147-1150: the i entries above p are moved to 1 and up.
    static method MoveDown(buf: array<int>, p0: int, i: int) returns (p: int)
      requires buf.Length == NICFREE && p0 == NICFREE - 1 - i && 0 <= i < NICFREE
      modifies buf
      ensures p == NICFREE - 1 && DownFrom(old(buf[..]), buf[..], i)
    {
      p := p0;
      var cfp, k := 0, i;
      while k > 0
        invariant 0 <= k <= i && cfp == i - k && p == p0 + cfp
        invariant forall j :: 0 <= j < NICFREE ==> buf[j] == if 1 <= j <= cfp then old(buf[p0 + j]) else old(buf[j])
      {
        k := k - 1;
        cfp := cfp + 1;
        p := p + 1;
        buf[cfp] := buf[p];
      }
    }

    // clear(&in.b_free, BSIZE)
    method ClearChunk()
      requires Valid()
      modifies inb
      ensures forall k :: 0 <= k < NICFREE ==> inb[k] == 0
    {
      for k := 0 to NICFREE
        invariant forall j :: 0 <= j < k ==> inb[j] == 0
      {
        inb[k] := 0;
      }
    }

    // dcopy.c:1142-1158: the chunk of i blocks goes out.
    method PutChunk(buf: array<int>, p0: int, i0: int, frblk0: int) returns (frblk: int)
      requires Valid() && (buf == free || buf == inb) && 0 <= i0 <= NICFREE
      requires if i0 == NICFREE then p0 == 0 && buf[p0] != 0 else p0 == NICFREE - 1 - i0 && buf[p0] == 0
      modifies this`nfree, this`disk, buf
      ensures old(buf[p0]) == 0 ==> DownFrom(old(buf[..]), buf[..], i0) && frblk == buf[NICFREE - 1]
      ensures old(buf[p0]) != 0 ==> buf[..] == old(buf[..]) && frblk == buf[p0]
      ensures PutOut(old(nfree), old(disk), frblk0, if old(buf[p0]) == 0 then i0 + 1 else i0, buf[..], nfree, disk)
    {
      var p, i := p0, i0;
      if buf[p] == 0 {
        p := MoveDown(buf, p, i);
        i := i + 1;
      }
      if frblk0 != 0 {
        disk := disk[frblk0 := Free(i, buf[..])];
      } else {
        nfree := i;
      }
      frblk := buf[p];
    }

    // What alloc() has left.
    static ghost predicate Supply(a: Cylinders.Allocator, left: set<int>)
      requires |a.all| == 2
      reads a.Footprint()
    {
      a.Valid() && Cylinders.Sound(a.d, a.Now()) && Cylinders.Remaining(a.d, a.Now()) == left && a.Told()
    }

    // The loop of freelist(): s is on the list, cur in buf. Once done, all are on
    // the list, and only the empty chunk is still to go to frblk.
    ghost predicate Going(s: seq<int>, cur: seq<int>, done: bool, frblk: int, buf: array<int>, i: int)
      requires Valid()
      reads this, free, inb, buf
    {
      buf == (if frblk == 0 then free else inb) && 0 <= i < NICFREE &&
      if done then i == 0 && frblk != 0 && buf[..] == ZEROS && Chain(nfree, free[..], disk[frblk := Free(1, ZEROS)], s + cur)
      else i == |cur| && Building(nfree, free[..], disk, s, frblk, buf[..], cur)
    }

    // dcopy.c:1138-1141.
    method TakeBlock(a: Cylinders.Allocator, buf: array<int>, p: int, i: int, frblk: int, ghost s: seq<int>, ghost cur: seq<int>,
                     ghost done: bool, ghost all: set<int>, ghost left: set<int>) returns (blk: int)
      requires Valid() && |a.all| == 2 && Supply(a, left) && {this, free, inb} !! a.Footprint()
      requires Going(s, cur, done, frblk, buf, i) && p == NICFREE - 1 - i && (done ==> left == {})
      requires Accounted(all, left, s + cur)
      modifies this`tfree, buf, a.Footprint()
      ensures Supply(a, left - {blk}) && buf[p] == blk
      ensures blk == 0 ==> Going(s, cur, done, frblk, buf, i) && left == {} && left - {blk} == {} && a.log == old(a.log) && tfree == old(tfree)
      ensures a.asked == old(a.asked) + Young(if blk == 0 then 0 else 1)
      ensures blk != 0 ==>
        Building(nfree, free[..], disk, s, frblk, buf[..], cur + [blk]) && !done && blk in left &&
        Accounted(all, left - {blk}, s + (cur + [blk])) && a.log == old(a.log) + [blk] && tfree == old(tfree) + 1
    {
      hide Cylinders.Sound, Cylinders.Remaining, Cylinders.Kept, Open, Chain, Building, Accounted, Holds, ZEROS, Distinct;
      ghost var buf0, free0 := buf[..], free[..];
      blk := a.Alloc(false, false);
      buf[p] := blk;
      assert buf[..] == buf0[p := blk];
      if blk != 0 {
        tfree := tfree + 1;
        Account(all, left, s + cur, blk);
        OneMore(nfree, free0, free[..], disk, s, frblk, buf0, cur, blk);
        assert s + (cur + [blk]) == (s + cur) + [blk];
      } else {
        if done { AllZeros(p); } else { ZeroAbove(nfree, free0, disk, s, frblk, buf0, cur); }
        Same(buf0, p);
        assert buf == free ==> free[..] == free0;
      }
    }

    // dcopy.c:1142-1162.
    method EndOfChunk(buf0: array<int>, p: int, i: int, frblk0: int, ghost s0: seq<int>, ghost cur0: seq<int>,
                      ghost done0: bool, ghost more: bool)
      returns (frblk: int, buf: array<int>, ghost s: seq<int>, ghost cur: seq<int>, ghost done: bool)
      requires Valid() && (buf0 == if frblk0 == 0 then free else inb)
      requires more ==> !done0 && Building(nfree, free[..], disk, s0, frblk0, buf0[..], cur0) && i == |cur0| == NICFREE && p == 0
      requires !more ==> Going(s0, cur0, done0, frblk0, buf0, i) && p == NICFREE - 1 - i && buf0[p] == 0
      modifies this`nfree, this`disk, free, inb
      ensures s + cur == s0 + cur0
      ensures if frblk == 0 then !more && Chain(nfree, free[..], disk, s + cur) else Going(s, cur, done, frblk, buf, 0)
      ensures frblk != 0 ==> done == !more && (!more ==> i > 0) && buf == inb && (more ==> cur == [])
    {
      hide Open, Chain, Building, Holds, DownFrom, ZEROS, PutOut, Distinct;
      s, cur, done := s0, cur0, done0;
      ghost var b0, free0, nfree0, disk0 := buf0[..], free[..], nfree, disk;
      if more { FullIsNotZero(nfree, free0, disk, s, frblk0, b0, cur); }
      frblk := PutChunk(buf0, p, i, frblk0);
      ghost var moved := buf0[..];
      if done {
        LastWrite(b0, moved, p);
        DonePut(nfree0, disk0, frblk0, 1, moved, nfree, disk);
      } else if !more {
        ListStep(nfree0, free0, disk0, s, frblk0, b0, cur, moved, nfree, free[..], disk, Free(1, ZEROS));
      }
      buf := buf0;
      if frblk == 0 {
        return;
      }
      ghost var free2 := free[..];
      buf := inb;
      ClearChunk();
      IsClear(inb[..]);
      if !more {
        done := true;
      } else {
        FullStep(nfree0, free0, disk0, s, frblk0, b0, cur, nfree, free2, disk, inb[..]);
        assert (s + cur) + [] == s + cur;
        s, cur := s + cur, [];
      }
    }

    // dcopy.c:1137-1164, once round the loop.
    method AddBlock(a: Cylinders.Allocator, buf0: array<int>, i0: int, frblk0: int, ghost s0: seq<int>, ghost cur0: seq<int>,
                    ghost done0: bool, ghost all: set<int>, ghost left0: set<int>)
      returns (over: bool, buf: array<int>, i: int, frblk: int, ghost s: seq<int>, ghost cur: seq<int>,
               ghost done: bool, ghost left: set<int>, ghost got: seq<int>)
      requires Valid() && |a.all| == 2 && Supply(a, left0) && {this, free, inb} !! a.Footprint()
      requires Going(s0, cur0, done0, frblk0, buf0, i0) && (done0 ==> left0 == {}) && Accounted(all, left0, s0 + cur0)
      modifies this, free, inb, a.Footprint()
      ensures Supply(a, left) && Accounted(all, left, s + cur) && s + cur == s0 + cur0 + got
      ensures a.log == old(a.log) + got && tfree == old(tfree) + |got| && a.asked == old(a.asked) + Young(|got|)
      ensures over ==> Chain(nfree, free[..], disk, s + cur) && left == {}
      ensures !over ==> Going(s, cur, done, frblk, buf, i) && (done ==> left == {})
      ensures left <= left0 && (!over && left == left0 ==> 0 <= i < i0)
    {
      hide Open, Chain, Building, Accounted, Holds, ZEROS, Distinct;
      buf, i, frblk, s, cur, done, over := buf0, i0, frblk0, s0, cur0, done0, false;
      var p := NICFREE - 1 - i;
      var blk := TakeBlock(a, buf, p, i, frblk, s, cur, done, all, left0);
      left, got := left0 - {blk}, if blk == 0 then [] else [blk];
      if blk != 0 {
        i := i + 1;
        assert s + (cur + [blk]) == (s + cur) + [blk];
        cur := cur + [blk];
      }
      if i == NICFREE || buf[p] == 0 {
        frblk, buf, s, cur, done := EndOfChunk(buf, p, i, frblk, s, cur, done, blk != 0);
        i := 0;
        over := frblk == 0;
      }
    }

    // dcopy.c:1107-1166.
    method Freelist(a: Cylinders.Allocator) returns (ghost list: seq<int>)
      requires Valid() && a.Valid() && Cylinders.Sound(a.d, a.Now()) && a.Told() && {this, free, inb} !! a.Footprint()
      requires forall k :: 0 <= k < NICFREE ==> free[k] == 0
      modifies this, free, inb, a.Footprint()
      ensures Chain(nfree, free[..], disk, list) && tfree == |list| && Distinct(list)
      ensures a.log == old(a.log) + list && a.asked == old(a.asked) + Young(|list|) && a.Valid() && a.Told()
      ensures forall b :: b in list <==> b in old(Cylinders.Remaining(a.d, a.Now()))
    {
      hide Cylinders.Sound, Cylinders.Remaining, Cylinders.Kept, Open, Chain, Building, Accounted, Holds, ZEROS, Distinct, Young;
      ghost var all, s, cur, done := Cylinders.Remaining(a.d, a.Now()), [], [], false;
      ghost var left := all;
      var buf, i, frblk, over := free, 0, 0, false;
      nfree, tfree := 0, 0;
      Begin(nfree, free[..], disk, all);
      YoungNone();
      assert Going(s, cur, done, frblk, buf, i) && Supply(a, left);
      while !over
        invariant Supply(a, left) && Accounted(all, left, s + cur) && a.log == old(a.log) + (s + cur) && tfree == |s + cur|
        invariant a.asked == old(a.asked) + Young(|s + cur|)
        invariant over ==> Chain(nfree, free[..], disk, s + cur) && left == {}
        invariant !over ==> Going(s, cur, done, frblk, buf, i) && (done ==> left == {})
        decreases !over, left, i
      {
        ghost var before, got := s + cur, [];
        over, buf, i, frblk, s, cur, done, left, got := AddBlock(a, buf, i, frblk, s, cur, done, all, left);
        Longer(old(a.log), old(a.asked), before, got, s + cur);
      }
      list := s + cur;
      AllThere(all, left, list);
    }
  }

  // freelist() asks for its blocks as for n blocks of a young file that is not to
  // be contiguous.
  function Young(n: nat): seq<(bool, bool)> {
    seq(n, _ => (false, false))
  }

  lemma YoungNone()
    ensures Young(0) == []
  {
  }

  lemma YoungMore(m: nat, n: nat)
    ensures Young(m + n) == Young(m) + Young(n)
  {
  }

  lemma Longer(log: seq<int>, asked: seq<(bool, bool)>, before: seq<int>, got: seq<int>, now: seq<int>)
    requires now == before + got
    ensures (log + before) + got == log + now && (asked + Young(|before|)) + Young(|got|) == asked + Young(|now|)
  {
    YoungMore(|before|, |got|);
    hide Young;
  }

  // dcopy.c:1147-1150, as a whole.
  predicate DownFrom(was: seq<int>, moved: seq<int>, i: int) {
    |was| == |moved| == NICFREE && 0 <= i < NICFREE &&
    (forall k :: 1 <= k <= i ==> moved[k] == was[NICFREE - 1 - i + k]) &&
    moved[0] == was[0] && forall k :: i < k < NICFREE ==> moved[k] == was[k]
  }

  // dcopy.c:1153-1158.
  predicate PutOut(nfree: int, disk: Disk, frblk: int, n: int, chunk: seq<int>, nfree': int, disk': Disk) {
    if frblk != 0 then nfree' == nfree && disk' == disk[frblk := Free(n, chunk)]
    else nfree' == n && disk' == disk
  }

  lemma DonePut(nfree: int, disk: Disk, frblk: int, n: int, chunk: seq<int>, nfree': int, disk': Disk)
    requires PutOut(nfree, disk, frblk, n, chunk, nfree', disk') && frblk != 0
    ensures nfree' == nfree && disk' == disk[frblk := Free(n, chunk)]
  {
  }

  lemma FullStep(nfree: int, free: seq<int>, disk: Disk, s: seq<int>, frblk: int, buf: seq<int>, cur: seq<int>,
                 nfree': int, free': seq<int>, disk': Disk, zeros: seq<int>)
    requires Building(nfree, free, disk, s, frblk, buf, cur) && |cur| == NICFREE
    requires PutOut(nfree, disk, frblk, NICFREE, buf, nfree', disk') && free' == if frblk == 0 then buf else free
    requires zeros == ZEROS
    ensures buf[0] != 0 && Building(nfree', free', disk', s + cur, buf[0], zeros, [])
  {
    assert s != [] ==> (s + cur)[|s| - 1] in s + cur;
    ChunkDone(nfree, free, disk, s, frblk, buf, cur, nfree', free', disk', zeros);
  }

  lemma ListStep(nfree: int, free: seq<int>, disk: Disk, s: seq<int>, frblk: int, buf: seq<int>, cur: seq<int>,
                 moved: seq<int>, nfree': int, free': seq<int>, disk': Disk, b: Block)
    requires Building(nfree, free, disk, s, frblk, buf, cur) && |cur| < NICFREE && DownFrom(buf, moved, |cur|)
    requires PutOut(nfree, disk, frblk, |cur| + 1, moved, nfree', disk') && free' == if frblk == 0 then moved else free
    ensures Chain(nfree', free', disk', s + cur) && moved[NICFREE - 1] == if cur == [] then 0 else cur[0]
    ensures cur != [] ==> cur[0] != 0 && Chain(nfree', free', disk'[cur[0] := b], s + cur)
  {
    assert s != [] ==> (s + cur)[|s| - 1] in s + cur;
    assert cur != [] ==> (s + cur)[|s|] == cur[0];
    MovedDown(nfree, free, disk, s, frblk, buf, cur, moved);
    ListDone(nfree, free, disk, s, frblk, buf, cur, moved, nfree', free', disk', b);
  }

  lemma AllZeros(p: int)
    requires 0 <= p < NICFREE
    ensures |ZEROS| == NICFREE && ZEROS[p] == 0
  {
  }

  lemma ZeroAbove(nfree: int, free: seq<int>, disk: Disk, s: seq<int>, frblk: int, buf: seq<int>, cur: seq<int>)
    requires Building(nfree, free, disk, s, frblk, buf, cur) && |cur| < NICFREE
    ensures |buf| == NICFREE && buf[NICFREE - 1 - |cur|] == 0
  {
  }

  lemma LastWrite(buf: seq<int>, moved: seq<int>, p: int)
    requires buf == ZEROS && p == NICFREE - 1 && DownFrom(buf, moved, 0)
    ensures moved == ZEROS && moved[NICFREE - 1] == 0
  {
  }

  lemma IsClear(s: seq<int>)
    requires |s| == NICFREE && forall k :: 0 <= k < NICFREE ==> s[k] == 0
    ensures s == ZEROS
  {
  }

  lemma AllThere(all: set<int>, left: set<int>, blks: seq<int>)
    requires Accounted(all, left, blks) && left == {}
    ensures Distinct(blks) && forall b :: b in blks <==> b in all
  {
  }

  const ZEROS: seq<int> := seq(NICFREE, _ => 0)

  lemma Same(buf: seq<int>, p: int)
    requires 0 <= p < |buf| && buf[p] == 0
    ensures buf[p := 0] == buf
  {
  }

  lemma MovedDown(nfree: int, free: seq<int>, disk: Disk, s: seq<int>, frblk: int, buf: seq<int>, cur: seq<int>, moved: seq<int>)
    requires Building(nfree, free, disk, s, frblk, buf, cur) && |cur| < NICFREE && DownFrom(buf, moved, |cur|)
    ensures Holds(moved, |cur| + 1, cur) && moved[0] == 0 && moved[NICFREE - 1] == if cur == [] then 0 else cur[0]
    ensures cur != [] ==> cur[0] != 0
  {
    MovedHolds(buf, moved, cur);
  }

  lemma FullIsNotZero(nfree: int, free: seq<int>, disk: Disk, s: seq<int>, frblk: int, buf: seq<int>, cur: seq<int>)
    requires Building(nfree, free, disk, s, frblk, buf, cur)
    ensures |cur| == NICFREE ==> buf[0] != 0
  {
    if |cur| == NICFREE { assert buf[NICFREE - 1 - (NICFREE - 1)] == cur[NICFREE - 1]; }
  }

  lemma MovedHolds(was: seq<int>, moved: seq<int>, cur: seq<int>)
    requires Holds(was, NICFREE, cur) && |cur| < NICFREE && |moved| == NICFREE
    requires forall k :: 0 <= k < NICFREE - |cur| ==> was[k] == 0
    requires DownFrom(was, moved, |cur|)
    ensures Holds(moved, |cur| + 1, cur) && moved[0] == 0
    ensures moved[NICFREE - 1] == if cur == [] then 0 else cur[0]
  {
    assert cur != [] ==> was[NICFREE - 1 - 0] == cur[0];
    assert cur == [] ==> was[NICFREE - 1] == 0;
    var i := |cur|;
    if 1 <= i == NICFREE - 1 { assert moved[i] == was[NICFREE - 1 - i + i]; }
    forall k | 0 <= k < i ensures moved[i - k] == cur[k] != 0 {
      assert moved[i - k] == was[NICFREE - 1 - i + (i - k)];
    }
  }

  // All blocks are on the list or still to come.
  predicate Accounted(all: set<int>, left: set<int>, blks: seq<int>) {
    Distinct(blks) && (forall b <- blks :: b != 0 && b !in left && b in all) &&
    left <= all && forall b <- all :: b in blks || b in left
  }

  lemma Account(all: set<int>, left: set<int>, blks: seq<int>, blk: int)
    requires Accounted(all, left, blks) && blk in left && blk != 0
    ensures Accounted(all, left - {blk}, blks + [blk]) && blk !in blks
  {
  }

  lemma Begin(nfree: int, free: seq<int>, disk: Disk, all: set<int>)
    requires |free| == NICFREE && forall k :: 0 <= k < NICFREE ==> free[k] == 0
    ensures Building(nfree, free, disk, [], 0, free, []) && Accounted(all, all, [] + [])
  {
  }

  // A whole copy: blocks for the files, the free list from what is left, and df
  // reading that list. Every data block is used or free and none is both; df
  // sees the free ones in the order in which alloc() gave them, which is what log
  // holds: the blocks of the files first. Their number is the one in the superblock.
  // As long as two blocks a cylinder apart are to be had those of the old files are
  // above all others, used or free.
  method CopyAndCount(d: Cylinders.Disk, stepsize: nat, bsize: int, files: seq<(bool, bool)>)
    returns (used: seq<int>, free: seq<int>, n: nat, tfree: int, ghost log: seq<int>)
    requires Cylinders.Fits(d)
    ensures log == Cylinders.Given(used) + free
    ensures |used| <= |files| && Cylinders.TwoEnds(d, Cylinders.Asked(files, used) + Young(|free|), log)
    ensures |used| == |files| && n == tfree == |free| && Distinct(free)
    ensures forall b :: Cylinders.InRange(d, b) <==> (b in used && b != 0) || b in free
    ensures forall b <- free :: b !in used
    ensures forall i, j :: 0 <= i < j < |used| && used[j] != 0 ==> used[i] != used[j]
  {
    hide Cylinders.Sound, Cylinders.Remaining, Cylinders.HandedOut, Cylinders.DataBlocks, Cylinders.Kept, Cylinders.TwoEnds, Chain, Distinct;
    var a;
    a, used := Cylinders.AllocateFiles(d, stepsize, bsize, files);
    ghost var left := Cylinders.Remaining(d, a.Now());
    var fs := new NewFileSystem(map[]);
    ghost var list := fs.Freelist(a);
    log := a.log;
    Cylinders.KeptTwoEnds(d, a.asked, a.log, a.Now());
    UsedAndFree(d, left, used, list);
    var df := new Reader(fs.nfree, fs.free[..], d.fmin, d.fsize, fs.disk);
    n, free := df.Count(list);
    tfree := fs.tfree;
  }

  lemma UsedAndFree(d: Cylinders.Disk, left: set<int>, used: seq<int>, free: seq<int>)
    requires Cylinders.HandedOut(Cylinders.DataBlocks(d), left, used) && d.fmin > 0 && forall b :: b in free <==> b in left
    ensures forall b <- free :: d.fmin <= b < d.fsize && b !in used
    ensures forall b :: Cylinders.InRange(d, b) <==> (b in used && b != 0) || b in free
    ensures forall i, j :: 0 <= i < j < |used| && used[j] != 0 ==> used[i] != used[j]
  {
    forall b ensures Cylinders.InRange(d, b) <==> b in Cylinders.DataBlocks(d) {}
    forall i, j | 0 <= i < j < |used| && used[j] != 0 ensures used[i] != used[j] {
      assert j < |Cylinders.DataBlocks(d)|;
    }
  }
}
