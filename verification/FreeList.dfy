// The chunked free list of a System V file system: NICFREE block numbers in the
// superblock, the others in chunks that are kept in free blocks themselves.
// mkfs.c and dcopy.c write it, mkfs.c and df.c read it.

module FreeList {
  import opened Permutations

  const NICFREE := 50

  datatype Block =
    | Free(nfree: int, free: seq<int>)    // struct fblk
    | Indirect(addr: seq<int>)
    | Data

  type Disk = map<int, Block>

  // Taking blocks off the list yields s, in this order, and then none.
  predicate Chain(nfree: int, free: seq<int>, disk: Disk, s: seq<int>)
    decreases |s|
  {
    |free| == NICFREE && 1 <= nfree <= NICFREE &&
    if s == [] then free[nfree - 1] == 0
    else
      free[nfree - 1] == s[0] != 0 &&
      if nfree == 1 then s[0] in disk && disk[s[0]].Free? && Chain(disk[s[0]].nfree, disk[s[0]].free, disk, s[1..])
      else Chain(nfree - 1, free, disk, s[1..])
  }

  // What is written to blocks that are not on the list does not matter.
  lemma {:induction false} ChainFrame(nfree: int, free: seq<int>, disk: Disk, disk': Disk, s: seq<int>)
    requires Chain(nfree, free, disk, s)
    requires forall b <- s :: b in disk ==> b in disk' && disk'[b] == disk[b]
    ensures Chain(nfree, free, disk', s)
    decreases |s|
  {
    if s != [] {
      assert s[0] in s && forall b <- s[1..] :: b in s;
      if nfree == 1 {
        ChainFrame(disk[s[0]].nfree, disk[s[0]].free, disk, disk', s[1..]);
      } else {
        ChainFrame(nfree - 1, free, disk, disk', s[1..]);
      }
    }
  }

  // The list is in the superblock and the chunks, and nowhere else.
  lemma {:induction false} ChainUnique(nfree: int, free: seq<int>, disk: Disk, s: seq<int>, t: seq<int>)
    requires Chain(nfree, free, disk, s) && Chain(nfree, free, disk, t)
    ensures s == t
    decreases |s|
  {
    if s != [] && t != [] {
      if nfree == 1 {
        ChainUnique(disk[s[0]].nfree, disk[s[0]].free, disk, s[1..], t[1..]);
      } else {
        ChainUnique(nfree - 1, free, disk, s[1..], t[1..]);
      }
      assert s == [s[0]] + s[1..] && t == [t[0]] + t[1..];
    }
  }

  lemma {:induction false} ChainAbove(nfree: int, free: seq<int>, free': seq<int>, disk: Disk, s: seq<int>)
    requires Chain(nfree, free, disk, s) && |free'| == NICFREE && free[..nfree] == free'[..nfree]
    ensures Chain(nfree, free', disk, s)
    decreases |s|
  {
    assert free[nfree - 1] == free[..nfree][nfree - 1] == free'[..nfree][nfree - 1];
    if s != [] && nfree > 1 {
      assert free[..nfree - 1] == free[..nfree][..nfree - 1] == free'[..nfree - 1];
      ChainAbove(nfree - 1, free, free', disk, s[1..]);
    }
  }

  // What bfree() makes of the list.
  lemma Pushed(nfree: int, free: seq<int>, disk: Disk, s: seq<int>, bno: int)
    requires Chain(nfree, free, disk, s) && bno != 0 && bno !in s
    ensures nfree < NICFREE ==> Chain(nfree + 1, free[nfree := bno], disk, [bno] + s)
    ensures nfree == NICFREE ==> Chain(1, free[0 := bno], disk[bno := Free(nfree, free)], [bno] + s)
  {
    assert ([bno] + s)[1..] == s;
    if nfree < NICFREE {
      assert free[nfree := bno][..nfree] == free[..nfree];
      ChainAbove(nfree, free, free[nfree := bno], disk, s);
    } else {
      ChainFrame(nfree, free, disk, disk[bno := Free(nfree, free)], s);
    }
  }

  // mkfs.c's superblock and disk. The ghost field holds the list.
  class FileSystem {
    var nfree: int
    const free: array<int>
    var tfree: int
    var disk: Disk
    ghost var list: seq<int>

    ghost predicate Valid()
      reads this, free
    {
      free.Length == NICFREE && Chain(nfree, free[..], disk, list) && Distinct(list)
    }

    // The superblock before the first bfree(), then bfree(0): the end of the list.
    constructor (disk: Disk)
      ensures Valid() && fresh(free) && list == [] && tfree == 0 && this.disk == disk
    {
      nfree, tfree, list, this.disk := 1, 0, [], disk;
      free := new int[NICFREE](_ => 0);
    }

    // mkfs.c:593-611; 0 where the program ends.
    method Alloc() returns (bno: int)
      requires Valid()
      modifies this, free
      ensures disk == old(disk) && tfree == old(tfree) - 1
      ensures old(list) == [] ==> bno == 0
      ensures old(list) != [] ==> Valid() && bno == old(list)[0] != 0 && list == old(list)[1..]
    {
      tfree := tfree - 1;
      nfree := nfree - 1;
      bno := free[nfree];
      if bno == 0 {
        return;
      }
      if nfree <= 0 {
        var buf := disk[bno];
        assert Chain(buf.nfree, buf.free, disk, list[1..]);
        nfree := buf.nfree;
        for i := 0 to NICFREE
          invariant nfree == buf.nfree && list == old(list) && disk == old(disk) && tfree == old(tfree) - 1
          invariant free[..i] == buf.free[..i]
        {
          free[i] := buf.free[i];
        }
        assert free[..] == buf.free;
      }
      list := list[1..];
    }

    // mkfs.c:646-665.
    method Bfree(bno: int)
      requires Valid() && bno != 0 && bno !in list
      modifies this, free
      ensures Valid() && list == [bno] + old(list) && tfree == old(tfree) + 1
      ensures disk == if old(nfree) < NICFREE then old(disk) else old(disk)[bno := Free(NICFREE, old(free[..]))]
    {
      tfree := tfree + 1;
      Pushed(nfree, free[..], disk, list, bno);
      ghost var was, n := free[..], nfree;
      if nfree >= NICFREE {
        disk := disk[bno := Free(nfree, free[..])];
        nfree := 0;
      }
      free[nfree] := bno;
      assert free[..] == was[nfree := bno];
      nfree := nfree + 1;
      list := [bno] + list;
    }

    // wtfs() of a block that is not free: no harm to the list.
    method Write(bno: int, b: Block)
      requires Valid() && bno !in list
      modifies this`disk
      ensures Valid() && disk == old(disk)[bno := b]
    {
      disk := disk[bno := b];
      ChainFrame(nfree, free[..], old(disk), disk, list);
    }
  }

  // df.c's superblock.
  class Reader {
    var nfree: int
    const free: array<int>
    const isize: int
    const fsize: int
    const disk: Disk

    constructor (nfree: int, free: seq<int>, isize: int, fsize: int, disk: Disk)
      requires |free| == NICFREE
      ensures this.nfree == nfree && this.free[..] == free && this.isize == isize && this.fsize == fsize && this.disk == disk
      ensures fresh(this.free)
    {
      this.nfree, this.isize, this.fsize, this.disk := nfree, isize, fsize, disk;
      this.free := new int[NICFREE](i requires 0 <= i < NICFREE => free[i]);
    }

    // df.c:186-213: the next block of the list, 0 at its end or when it is bad.
    method Alloc(ghost s: seq<int>) returns (b: int)
      requires free.Length == NICFREE && Chain(nfree, free[..], disk, s)
      modifies this`nfree, free
      ensures s == [] ==> b == 0
      ensures s != [] && isize <= s[0] < fsize ==> b == s[0] != 0 && Chain(nfree, free[..], disk, s[1..])
      ensures s != [] && !(isize <= s[0] < fsize) ==> b == 0
    {
      nfree := nfree - 1;
      var i := nfree;
      if i < 0 || i >= NICFREE {
        return 0;
      }
      b := free[i];
      if b == 0 {
        return 0;
      }
      if b < isize || b >= fsize {
        return 0;
      }
      if nfree <= 0 {
        var buf := disk[b];
        assert Chain(buf.nfree, buf.free, disk, s[1..]);
        nfree := buf.nfree;
        for k := 0 to NICFREE
          invariant nfree == buf.nfree && free[..k] == buf.free[..k]
        {
          free[k] := buf.free[k];
        }
        assert free[..] == buf.free;
      }
    }

    // df.c:173-175: df -f counts the blocks of the list, and ends with it.
    method Count(ghost s: seq<int>) returns (n: nat, blks: seq<int>)
      requires free.Length == NICFREE && Chain(nfree, free[..], disk, s) && forall b <- s :: isize <= b < fsize
      modifies this`nfree, free
      ensures n == |s| && blks == s
    {
      n, blks := 0, [];
      ghost var rest := s;
      while true
        invariant Chain(nfree, free[..], disk, rest) && blks + rest == s && n == |blks|
        decreases |rest|
      {
        assert rest != [] ==> rest[0] in blks + rest;
        var b := Alloc(rest);
        if b == 0 {
          break;
        }
        rest := rest[1..];
        n, blks := n + 1, blks + [b];
      }
    }
  }
}
