// The block map of a file: ten direct blocks, a single and a double indirect
// block. mkfs.c's iput() writes it, dcopy.c's bmap() reads it, and du.c's
// nblock() knows how many blocks it takes.

module BlockMap {
  import opened BitStrings
  import opened FreeList
  import opened Permutations

  const LADDR := 10
  const NADDR := 13
  const NIDIR := 128
  const NSHIFT := 7
  const SINGLE := LADDR + NIDIR            // blocks up to the single indirect
  const DOUBLE := SINGLE + NIDIR * NIDIR   // and up to the double indirect block

  // ---------- reading

  // What getindir() finds in block nb; a block that is none of addresses counts
  // as one of zeros.
  function Addresses(disk: Disk, nb: int): (a: seq<int>)
    ensures |a| == NIDIR
  {
    if nb in disk && disk[nb].Indirect? && |disk[nb].addr| == NIDIR then disk[nb].addr else seq(NIDIR, _ => 0)
  }

  // No address, no block.
  function OrNone(nb: int): int {
    if nb == 0 then -1 else nb
  }

  // Entry i of the indirect block nb, if there is such a block.
  function Entry(disk: Disk, nb: int, i: nat): int
    requires i < NIDIR
  {
    if nb == -1 then -1 else OrNone(Addresses(disk, nb)[i])
  }

  // Block bn of a file.
  function BlockOf(dp: seq<int>, disk: Disk, bn: nat): int
    requires |dp| == NADDR
  {
    if bn < LADDR then OrNone(dp[bn])
    else if bn < SINGLE then Entry(disk, OrNone(dp[LADDR]), bn - LADDR)
    else if bn < DOUBLE then
      var b := bn - SINGLE;
      Entry(disk, Entry(disk, OrNone(dp[LADDR + 1]), b / NIDIR), b % NIDIR)
    else if bn < DOUBLE + NIDIR * NIDIR * NIDIR then
      var b := bn - DOUBLE;
      Entry(disk, Entry(disk, Entry(disk, OrNone(dp[LADDR + 2]), b / (NIDIR * NIDIR)), b / NIDIR % NIDIR), b % NIDIR)
    else -1
  }

  lemma ShrBy(b: nat)
    ensures Shr(b, 0) == b && Shr(b, 7) == b / 128 && Shr(b, 14) == b / 16384
  {
    ShrDivides(b, 7);
    ShrDivides(b, 14);
    assert Pow2(4) == 16;
    Pow2Add(4, 3);
    Pow2Add(7, 7);
  }

  lemma Indices(b: nat)
    ensures b < 128 ==> b % 128 == b
    ensures b < 16384 ==> b / 128 < 128 && b / 128 % 128 == b / 128
    ensures b < 2097152 ==> b / 16384 < 128 && b / 16384 % 128 == b / 16384
  {
  }

  // The index into the indirect block at distance 3 - l from the data.
  function Digit(b: nat, l: nat): (i: nat)
    requires 1 <= l <= 3
    ensures i < NIDIR
  {
    (if l == 3 then b else if l == 2 then b / 128 else b / 16384) % 128
  }

  // The address that bmap() has when it comes to index l.
  function Walk(dp: seq<int>, disk: Disk, b: nat, level: nat, l: nat): int
    requires |dp| == NADDR && 1 <= level <= l <= 4 && level <= 3
    decreases l
  {
    if l == level then OrNone(dp[NADDR - level]) else Entry(disk, Walk(dp, disk, b, level, l - 1), Digit(b, l - 1))
  }

  lemma {:induction false} WalkNone(dp: seq<int>, disk: Disk, b: nat, level: nat, l: nat)
    requires |dp| == NADDR && 1 <= level <= l <= 4 && level <= 3 && Walk(dp, disk, b, level, l) == -1
    ensures Walk(dp, disk, b, level, 4) == -1
    decreases 4 - l
  {
    if l < 4 { WalkNone(dp, disk, b, level, l + 1); }
  }

  lemma WalkEnds(dp: seq<int>, disk: Disk, bn: nat, b: nat, level: nat)
    requires |dp| == NADDR && 1 <= level <= 3
    requires b == bn - (if level == 3 then LADDR else if level == 2 then SINGLE else DOUBLE)
    requires b < if level == 3 then NIDIR else if level == 2 then NIDIR * NIDIR else NIDIR * NIDIR * NIDIR
    ensures BlockOf(dp, disk, bn) == Walk(dp, disk, b, level, 4)
  {
    Indices(b);
    hide Entry;
    if level == 3 {
      assert Walk(dp, disk, b, 3, 4) == Entry(disk, Walk(dp, disk, b, 3, 3), Digit(b, 3));
    } else if level == 2 {
      assert Walk(dp, disk, b, 2, 4) == Entry(disk, Walk(dp, disk, b, 2, 3), Digit(b, 3));
      assert Walk(dp, disk, b, 2, 3) == Entry(disk, Walk(dp, disk, b, 2, 2), Digit(b, 2));
    } else {
      assert Walk(dp, disk, b, 1, 4) == Entry(disk, Walk(dp, disk, b, 1, 3), Digit(b, 3));
      assert Walk(dp, disk, b, 1, 3) == Entry(disk, Walk(dp, disk, b, 1, 2), Digit(b, 2));
      assert Walk(dp, disk, b, 1, 2) == Entry(disk, Walk(dp, disk, b, 1, 1), Digit(b, 1));
    }
  }

  lemma WalkStep(dp: seq<int>, disk: Disk, b: nat, level: nat, l: nat, nb: int)
    requires |dp| == NADDR && 1 <= level <= l <= 3 && nb == Walk(dp, disk, b, level, l) != -1
    ensures Walk(dp, disk, b, level, l + 1) == OrNone(Addresses(disk, nb)[Digit(b, l)])
  {
  }

  lemma NotNone(disk: Disk, nb: int, i: nat)
    requires i < NIDIR && Proper(disk)
    ensures Addresses(disk, nb)[i] != -1
  {
  }

  // dcopy.c:819-893, for reading.
  method Bmap(dp: seq<int>, disk: Disk, bn0: nat) returns (nb: int)
    requires |dp| == NADDR && -1 !in dp && Proper(disk)
    ensures nb == BlockOf(dp, disk, bn0)
  {
    var bn := bn0;
    if bn < NADDR - 3 {
      nb := dp[bn];
      return if nb == 0 then -1 else nb;
    }
    var sh, j := 0, 3;
    nb := 1;
    bn := bn - (NADDR - 3);
    while j > 0
      invariant 0 <= j <= 3 && bn >= 0
      invariant j == 3 ==> sh == 0 && nb == 1 && bn == bn0 - LADDR
      invariant j == 2 ==> sh == 7 && nb == 128 && bn == bn0 - SINGLE
      invariant j == 1 ==> sh == 14 && nb == 16384 && bn == bn0 - DOUBLE
      invariant j == 0 ==> bn0 >= DOUBLE + NIDIR * NIDIR * NIDIR
    {
      sh := sh + NSHIFT;
      nb := nb * 128;
      if bn < nb {
        break;
      }
      bn := bn - nb;
      j := j - 1;
    }
    if j == 0 {
      return -1;
    }
    nb := Descend(dp, disk, bn0, bn, j, sh);
  }

  // dcopy.c:867-893: from the inode's address down.
  method Descend(dp: seq<int>, disk: Disk, ghost bn0: nat, bn: nat, j0: nat, sh0: nat) returns (nb: int)
    requires |dp| == NADDR && -1 !in dp && 1 <= j0 <= 3 && sh0 == NSHIFT * (4 - j0)
    requires Proper(disk)
    requires bn == bn0 - (if j0 == 3 then LADDR else if j0 == 2 then SINGLE else DOUBLE)
    requires bn < if j0 == 3 then NIDIR else if j0 == 2 then NIDIR * NIDIR else NIDIR * NIDIR * NIDIR
    ensures nb == BlockOf(dp, disk, bn0)
  {
    WalkEnds(dp, disk, bn0, bn, j0);
    ShrBy(bn);
    hide Shr, BlockOf, Entry, Addresses;
    nb := dp[NADDR - j0];
    if nb == 0 {
      WalkNone(dp, disk, bn, j0, j0);
      return -1;
    }
    var j, sh := j0, sh0;
    while j <= 3
      invariant j0 <= j <= 4 && sh == NSHIFT * (4 - j) && nb != 0 && nb != -1
      invariant nb == Walk(dp, disk, bn, j0, j)
    {
      var inp := Addresses(disk, nb);
      sh := sh - NSHIFT;
      var i := Shr(bn, sh) % 128;
      WalkStep(dp, disk, bn, j0, j, nb);
      NotNone(disk, nb, i);
      nb := inp[i];
      j := j + 1;
      if nb == 0 {
        WalkNone(dp, disk, bn, j0, j);
        return -1;
      }
    }
  }

  // ---------- writing

  // The blocks s from i on, as many as an indirect block holds.
  function Chunk(s: seq<int>, i: nat): (c: seq<int>)
    ensures |c| == NIDIR
  {
    seq(NIDIR, j requires 0 <= j => if i + j < |s| then s[i + j] else 0)
  }

  // How many indirect blocks iput() takes for n blocks, within a double
  // indirect one's reach.
  function Doubles(n: nat): nat {
    if n <= SINGLE then 0 else if n >= DOUBLE then NIDIR else (n - SINGLE + (NIDIR - 1)) / NIDIR
  }

  function Indirects(n: nat): nat {
    (if n > LADDR then 1 else 0) + if n > SINGLE then Doubles(n) + 1 else 0
  }

  // The map of the blocks s, its indirect blocks being those in list.
  predicate Mapped(dp: seq<int>, disk: Disk, s: seq<int>, list: seq<int>) {
    |dp| == NADDR && |list| >= Indirects(|s|) &&
    (forall k :: 0 <= k < LADDR ==> dp[k] == if k < |s| then s[k] else 0) && dp[LADDR + 2] == 0 &&
    (if |s| > LADDR then dp[LADDR] == list[0] && list[0] in disk && disk[list[0]] == Indirect(Chunk(s, LADDR)) else dp[LADDR] == 0) &&
    if |s| > SINGLE then
      var m := Doubles(|s|);
      dp[LADDR + 1] == list[m + 1] && list[m + 1] in disk && disk[list[m + 1]] == Indirect(Chunk(list[1..m + 1], 0)) &&
      forall t :: 0 <= t < m ==> list[t + 1] in disk && disk[list[t + 1]] == Indirect(Chunk(s, SINGLE + NIDIR * t))
    else dp[LADDR + 1] == 0
  }

  lemma DoublesReach(n: nat, b: nat)
    requires n > SINGLE && b < NIDIR * NIDIR
    ensures SINGLE + b < n ==> b / NIDIR < Doubles(n)
    ensures b / NIDIR >= Doubles(n) ==> SINGLE + b >= n
    ensures 1 <= Doubles(n) <= NIDIR
  {
  }

  // Block k of the map is block k of the file, and there is none after the last.
  // Of a file too big for this map the rest is lost.
  lemma MapReads(dp: seq<int>, disk: Disk, s: seq<int>, list: seq<int>, k: nat)
    requires Mapped(dp, disk, s, list) && 0 !in s && 0 !in list && -1 !in list
    ensures BlockOf(dp, disk, k) == if k < |s| && k < DOUBLE then s[k] else -1
  {
    if k < LADDR {
    } else if k < SINGLE {
    } else if k < DOUBLE {
      if |s| > SINGLE {
        var m, b := Doubles(|s|), k - SINGLE;
        var t, j := b / NIDIR, b % NIDIR;
        assert b == NIDIR * t + j;
        DoublesReach(|s|, b);
        if t < m {
          assert Chunk(list[1..m + 1], 0)[t] == list[t + 1];
          assert Entry(disk, OrNone(dp[LADDR + 1]), t) == list[t + 1];
          assert Chunk(s, SINGLE + NIDIR * t)[j] == if k < |s| then s[k] else 0;
        }
      }
    }
  }

  // Address nb leads to the addresses a; 0 stands for a block of zeros.
  predicate Holds(disk: Disk, nb: int, a: seq<int>) {
    if nb == 0 then forall x :: 0 <= x < |a| ==> a[x] == 0 else nb != -1 && nb in disk && disk[nb] == Indirect(a)
  }

  // The map of a file of any size, with holes: s are its blocks, doubles the
  // single indirect blocks that the double one leads to, triples those that the
  // triple one leads to by way of tops.
  predicate MapOf(dp: seq<int>, disk: Disk, s: seq<int>, doubles: seq<int>, tops: seq<int>, triples: seq<int>) {
    |dp| == NADDR && |doubles| == |tops| == NIDIR && |triples| == NIDIR * NIDIR &&
    (forall k :: 0 <= k < LADDR ==> dp[k] == if k < |s| then s[k] else 0) &&
    Holds(disk, dp[LADDR], Chunk(s, LADDR)) &&
    Holds(disk, dp[LADDR + 1], doubles) &&
    (forall t :: 0 <= t < NIDIR ==> Holds(disk, doubles[t], Chunk(s, SINGLE + NIDIR * t))) &&
    Holds(disk, dp[LADDR + 2], tops) &&
    (forall t :: 0 <= t < NIDIR ==> Holds(disk, tops[t], Chunk(triples, NIDIR * t))) &&
    forall t :: 0 <= t < NIDIR * NIDIR ==> Holds(disk, triples[t], Chunk(s, DOUBLE + NIDIR * t))
  }

  lemma EntryHolds(disk: Disk, nb: int, a: seq<int>, i: nat)
    requires Holds(disk, nb, a) && |a| == NIDIR && i < NIDIR
    ensures Entry(disk, OrNone(nb), i) == OrNone(a[i])
  {
  }

  lemma ThreeDigits(b: nat)
    requires b < 128 * 128 * 128
    ensures 0 <= b / 16384 < 128 && 128 * (b / 16384) + b / 128 % 128 == b / 128 < 16384
    ensures 128 * (b / 128) + b % 128 == b
  {
  }

  lemma ChunkAt(s: seq<int>, i: nat, j: nat)
    requires j < NIDIR
    ensures Chunk(s, i)[j] == if i + j < |s| then s[i + j] else 0
  {
  }

  // bmap() finds every block of such a file, and -1 for a hole, past the end,
  // and behind what three indirections reach.
  lemma MapOfReads(dp: seq<int>, disk: Disk, s: seq<int>, doubles: seq<int>, tops: seq<int>, triples: seq<int>, k: nat)
    requires MapOf(dp, disk, s, doubles, tops, triples)
    ensures BlockOf(dp, disk, k) == if k < |s| && k < 10 + 128 + 128 * 128 + 128 * 128 * 128 && s[k] != 0 then s[k] else -1
  {
    hide Holds, Entry, Chunk;
    if LADDR <= k < SINGLE {
      EntryHolds(disk, dp[LADDR], Chunk(s, LADDR), k - LADDR);
      ChunkAt(s, LADDR, k - LADDR);
    } else if SINGLE <= k < DOUBLE {
      var b := k - SINGLE;
      ThreeDigits(b);
      EntryHolds(disk, dp[LADDR + 1], doubles, b / 128);
      EntryHolds(disk, doubles[b / 128], Chunk(s, SINGLE + NIDIR * (b / 128)), b % 128);
      ChunkAt(s, SINGLE + NIDIR * (b / 128), b % 128);
    } else if DOUBLE <= k < DOUBLE + NIDIR * NIDIR * NIDIR {
      var b := k - DOUBLE;
      ThreeDigits(b);
      var t, u := b / 16384, b / 128;
      EntryHolds(disk, dp[LADDR + 2], tops, t);
      EntryHolds(disk, tops[t], Chunk(triples, NIDIR * t), u % 128);
      ChunkAt(triples, NIDIR * t, u % 128);
      EntryHolds(disk, triples[u], Chunk(s, DOUBLE + NIDIR * u), b % 128);
      ChunkAt(s, DOUBLE + NIDIR * u, b % 128);
    }
  }

  // alloc() and wtfs() of an indirect block; 0 where the program ends.
  method PutIndirect(fs: FileSystem, addr: seq<int>) returns (bno: int)
    requires fs.Valid()
    modifies fs, fs.free
    ensures old(fs.list) == [] ==> bno == 0
    ensures old(fs.list) != [] ==>
      fs.Valid() && bno == old(fs.list)[0] != 0 && fs.list == old(fs.list)[1..] && fs.disk == old(fs.disk)[bno := Indirect(addr)]
  {
    bno := fs.Alloc();
    if bno != 0 {
      fs.Write(bno, Indirect(addr));
    }
  }

  // mkfs.c:824-827 and 836-839: the next blocks, moved down in ib to its start.
  method MoveDown(ib: array<int>, i0: nat, aibc: nat, ghost s: seq<int>) returns (i: nat)
    requires ib.Length >= NIDIR && 0 < i0 < aibc == |s| <= ib.Length
    requires forall x :: i0 <= x < aibc ==> ib[x] == s[x]
    modifies ib
    ensures ib[..NIDIR] == Chunk(s, i0) && i == if i0 + NIDIR < aibc then i0 + NIDIR else aibc
    ensures forall x :: i <= x < aibc ==> ib[x] == s[x]
  {
    hide Chunk;
    i := i0;
    var j := 0;
    while i < aibc && j < NIDIR
      invariant 0 <= j <= NIDIR && i == i0 + j <= aibc
      invariant forall x :: i <= x < aibc ==> ib[x] == s[x]
      invariant forall x :: 0 <= x < j ==> ib[x] == s[i0 + x]
    {
      ib[j] := ib[i];
      j, i := j + 1, i + 1;
    }
    ghost var full := j;
    while j < NIDIR
      invariant full <= j <= NIDIR && (full < NIDIR ==> i == aibc)
      invariant full == NIDIR ==> forall x :: i <= x < aibc ==> ib[x] == s[x]
      invariant forall x :: 0 <= x < full ==> ib[x] == s[i0 + x]
      invariant forall x :: full <= x < j ==> ib[x] == 0
    {
      ib[j] := 0;
      j := j + 1;
    }
    ChunkIs(ib[..NIDIR], s, i0);
  }

  lemma ChunkIs(buf: seq<int>, s: seq<int>, i: nat)
    requires |buf| == NIDIR && forall x :: 0 <= x < NIDIR ==> buf[x] == if i + x < |s| then s[i + x] else 0
    ensures buf == Chunk(s, i)
  {
  }

  // Only the blocks of list have been written.
  ghost predicate SameOutside(disk: Disk, disk': Disk, list: seq<int>) {
    forall b :: b !in list ==> (b in disk <==> b in disk') && (b in disk ==> disk[b] == disk'[b])
  }

  // The first k chunks of what is left for the double indirect block.
  predicate Chunks(disk: Disk, s: seq<int>, list: seq<int>, k: nat) {
    k <= |list| && forall t :: 0 <= t < k ==> list[t] in disk && disk[list[t]] == Indirect(Chunk(s, SINGLE + NIDIR * t))
  }

  lemma ChunksNext(disk: Disk, disk': Disk, s: seq<int>, list: seq<int>, k: nat)
    requires Chunks(disk, s, list, k) && k < |list| && Distinct(list)
    requires disk' == disk[list[k] := Indirect(Chunk(s, SINGLE + NIDIR * k))]
    ensures Chunks(disk', s, list, k + 1)
  {
  }

  // mkfs.c:834-842; false where the program ends.
  method PutChunks(fs: FileSystem, ib: array<int>, ib2: array<int>, aibc: nat, ghost s: seq<int>) returns (ok: bool, k: nat)
    requires fs.Valid() && ib != fs.free && ib2 != ib && ib2 != fs.free && ib.Length >= NIDIR == ib2.Length
    requires SINGLE < aibc == |s| <= ib.Length && forall x :: SINGLE <= x < aibc ==> ib[x] == s[x]
    modifies fs, fs.free, ib, ib2
    ensures !ok ==> |old(fs.list)| < Doubles(aibc)
    ensures ok ==> k == Doubles(aibc) <= |old(fs.list)| && fs.Valid() && fs.list == old(fs.list)[k..]
    ensures ok ==> ib2[..k] == old(fs.list)[..k] && Chunks(fs.disk, s, old(fs.list), k)
    ensures ok ==> SameOutside(old(fs.disk), fs.disk, old(fs.list)[..k])
  {
    hide Chunk, Chunks, Chain;
    var i := SINGLE;
    k := 0;
    ghost var list := fs.list;
    NoChunks(fs.disk, s, list);
    while k < NIDIR && i < aibc
      invariant 0 <= k <= NIDIR && i == if SINGLE + NIDIR * k < aibc then SINGLE + NIDIR * k else aibc
      invariant k <= Doubles(aibc) && (i < aibc && k < NIDIR ==> k < Doubles(aibc)) && (i == aibc ==> k == Doubles(aibc))
      invariant forall x :: i <= x < aibc ==> ib[x] == s[x]
      invariant fs.Valid() && k <= |list| && fs.list == list[k..] && Distinct(list)
      invariant ib2[..k] == list[..k] && Chunks(fs.disk, s, list, k) && SameOutside(old(fs.disk), fs.disk, list[..k])
    {
      ghost var disk, front := fs.disk, ib2[..k];
      i := MoveDown(ib, i, aibc, s);
      var nb := PutIndirect(fs, ib[..NIDIR]);
      if nb == 0 {
        return false, k;
      }
      ChunksNext(disk, fs.disk, s, list, k);
      ib2[k] := nb;
      assert ib2[..k + 1] == front + [nb] && list[..k + 1] == list[..k] + [list[k]];
      k := k + 1;
    }
    ok := true;
  }

  lemma NoChunks(disk: Disk, s: seq<int>, list: seq<int>)
    ensures Chunks(disk, s, list, 0)
  {
  }

  // mkfs.c:832-847.
  method PutDoubles(fs: FileSystem, ib: array<int>, aibc: nat, ghost s: seq<int>) returns (bno: int)
    requires fs.Valid() && ib != fs.free && ib.Length >= NIDIR
    requires SINGLE < aibc == |s| <= ib.Length && forall x :: SINGLE <= x < aibc ==> ib[x] == s[x]
    modifies fs, fs.free, ib
    ensures bno != 0 <==> |old(fs.list)| >= Doubles(aibc) + 1
    ensures bno != 0 ==> fs.Valid() && fs.list == old(fs.list)[Doubles(aibc) + 1..] && DoublesAt(fs.disk, s, old(fs.list), bno)
    ensures bno != 0 ==> SameOutside(old(fs.disk), fs.disk, old(fs.list)[..Doubles(aibc) + 1])
  {
    hide Chunk, Chunks, Chain, DoublesAt;
    var ib2 := new int[NIDIR](_ => 0);
    ghost var list := fs.list;
    var ok, k := PutChunks(fs, ib, ib2, aibc, s);
    if !ok {
      return 0;
    }
    ghost var m, front := k, ib2[..k];
    while k < NIDIR
      invariant m <= k <= NIDIR && ib2[..m] == front && forall x :: m <= x < k ==> ib2[x] == 0
      modifies ib2
    {
      ib2[k] := 0;
      k := k + 1;
    }
    IsChunk(ib2[..], list[..m]);
    ghost var disk := fs.disk;
    bno := PutIndirect(fs, ib2[..]);
    if bno != 0 {
      DoublesDone(disk, fs.disk, s, list);
      assert list[..m + 1] == list[..m] + [list[m]];
    }
  }

  lemma IsChunk(a: seq<int>, s: seq<int>)
    requires |s| <= |a| == NIDIR && a[..|s|] == s && forall x :: |s| <= x < NIDIR ==> a[x] == 0
    ensures a == Chunk(s, 0)
  {
  }

  predicate DoublesAt(disk: Disk, s: seq<int>, list: seq<int>, bno: int) {
    var m := Doubles(|s|);
    |list| >= m + 1 && bno == list[m] && bno in disk && disk[bno] == Indirect(Chunk(list[..m], 0)) && Chunks(disk, s, list, m)
  }

  lemma DoublesDone(disk: Disk, disk': Disk, s: seq<int>, list: seq<int>)
    requires Distinct(list) && |list| >= Doubles(|s|) + 1 && Chunks(disk, s, list, Doubles(|s|))
    requires disk' == disk[list[Doubles(|s|)] := Indirect(Chunk(list[..Doubles(|s|)], 0))]
    ensures DoublesAt(disk', s, list, list[Doubles(|s|)])
  {
  }

  // mkfs.c:814-853, for a file or directory whose blocks are in ib; false where
  // the program ends for want of free blocks.
  method Iput(fs: FileSystem, ib: array<int>, aibc: nat, faddr: array<int>) returns (ok: bool)
    requires fs.Valid() && ib != fs.free && faddr != fs.free && faddr != ib
    requires aibc <= ib.Length && ib.Length >= NIDIR && faddr.Length == NADDR && forall k :: 0 <= k < NADDR ==> faddr[k] == 0
    modifies fs, fs.free, ib, faddr
    ensures ok <==> |old(fs.list)| >= Indirects(aibc)
    ensures ok ==> fs.Valid() && fs.list == old(fs.list)[Indirects(aibc)..]
    ensures ok ==> SameOutside(old(fs.disk), fs.disk, old(fs.list)[..Indirects(aibc)])
    ensures ok ==> Mapped(faddr[..], fs.disk, old(ib[..aibc]), old(fs.list))
  {
    hide Chunk, Chunks, Chain, DoublesAt, Doubles;
    ghost var s, list := ib[..aibc], fs.list;
    var i := 0;
    while i < aibc && i < LADDR
      invariant 0 <= i <= aibc && i <= LADDR && forall x :: i <= x < aibc ==> ib[x] == s[x]
      invariant forall k :: 0 <= k < NADDR ==> faddr[k] == if k < i then s[k] else 0
      modifies ib, faddr
    {
      faddr[i] := ib[i];
      ib[i] := 0;
      i := i + 1;
    }
    ok := true;
    if i < aibc {
      i := MoveDown(ib, i, aibc, s);
      var bno := PutIndirect(fs, ib[..NIDIR]);
      if bno == 0 {
        return false;
      }
      faddr[LADDR] := bno;
    }
    if i < aibc {
      ghost var list1, disk1 := fs.list, fs.disk;
      var bno := PutDoubles(fs, ib, aibc, s);
      if bno == 0 {
        return false;
      }
      faddr[LADDR + 1] := bno;
      MapDone(faddr[..], disk1, fs.disk, s, list);
      assert list[..Doubles(aibc) + 2] == [list[0]] + list[1..][..Doubles(aibc) + 1];
    }
  }

  lemma MapDone(dp: seq<int>, disk: Disk, disk': Disk, s: seq<int>, list: seq<int>)
    requires |s| > SINGLE && |list| >= 1 && Distinct(list) && |dp| == NADDR
    requires forall k :: 0 <= k < LADDR ==> dp[k] == s[k]
    requires dp[LADDR] == list[0] && list[0] in disk && disk[list[0]] == Indirect(Chunk(s, LADDR)) && dp[LADDR + 2] == 0
    requires DoublesAt(disk', s, list[1..], dp[LADDR + 1])
    requires SameOutside(disk, disk', list[1..][..Doubles(|s|) + 1])
    ensures Mapped(dp, disk', s, list)
  {
    var m := Doubles(|s|);
    assert list[1..][..m] == list[1..m + 1];
    assert list[0] !in list[1..][..m + 1];
    forall t | 0 <= t < m ensures list[t + 1] in disk' && disk'[list[t + 1]] == Indirect(Chunk(s, SINGLE + NIDIR * t)) {
      assert list[1..][t] == list[t + 1];
    }
  }

  // du.c:191-204, with blocks of 512 bytes.
  function NBlock(size: nat): nat {
    var blocks := (size + 511) / 512;
    blocks
    + (if blocks > LADDR then (blocks - LADDR - 1) / NIDIR + 1 else 0)
    + (if blocks > SINGLE then (blocks - SINGLE - 1) / (NIDIR * NIDIR) + 1 else 0)
    + if blocks > DOUBLE then 1 else 0
  }

  // du counts just the blocks that iput() takes.
  lemma DuAgrees(size: nat, n: nat)
    requires n == (size + 511) / 512 <= DOUBLE
    ensures NBlock(size) == n + Indirects(n)
  {
  }

  // No block number is -1.
  ghost predicate Proper(disk: Disk) {
    forall b <- disk :: disk[b].Indirect? ==> -1 !in disk[b].addr
  }

  lemma ChunkProper(s: seq<int>, i: nat)
    requires -1 !in s
    ensures -1 !in Chunk(s, i)
  {
  }

  lemma MapProper(dp: seq<int>, disk: Disk, disk': Disk, s: seq<int>, list: seq<int>)
    requires Mapped(dp, disk', s, list) && SameOutside(disk, disk', list[..Indirects(|s|)]) && Proper(disk)
    requires -1 !in s && -1 !in list
    ensures Proper(disk') && -1 !in dp
  {
    var m := Doubles(|s|);
    forall b | b in disk' && disk'[b].Indirect? ensures -1 !in disk'[b].addr {
      if b in list[..Indirects(|s|)] {
        var x :| 0 <= x < Indirects(|s|) && list[x] == b;
        if x == 0 {
          ChunkProper(s, LADDR);
        } else if x == m + 1 {
          ChunkProper(list[1..m + 1], 0);
        } else {
          assert list[(x - 1) + 1] == b;
          ChunkProper(s, SINGLE + NIDIR * (x - 1));
        }
      }
    }
  }

  // What mkfs writes, dcopy reads: block k of a file is the k-th block that was
  // put into it, and past the end there is none.
  method PutAndGet(fs: FileSystem, ib: array<int>, aibc: nat, k: nat) returns (ok: bool, nb: int)
    requires fs.Valid() && ib != fs.free && aibc <= ib.Length && ib.Length >= NIDIR
    requires 0 !in ib[..aibc] && -1 !in ib[..aibc] && -1 !in fs.list && 0 !in fs.list && Proper(fs.disk)
    modifies fs, fs.free, ib
    ensures ok <==> |old(fs.list)| >= Indirects(aibc)
    ensures ok ==> nb == if k < aibc && k < DOUBLE then old(ib[k]) else -1
  {
    ghost var s, list, disk := ib[..aibc], fs.list, fs.disk;
    hide Mapped, Chain, Proper, Indirects;
    var faddr := new int[NADDR](_ => 0);
    ok := Iput(fs, ib, aibc, faddr);
    if !ok {
      return false, 0;
    }
    MapReads(faddr[..], fs.disk, s, list, k);
    MapProper(faddr[..], disk, fs.disk, s, list);
    nb := Bmap(faddr[..], fs.disk, k);
  }
}
