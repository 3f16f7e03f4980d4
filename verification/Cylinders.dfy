// dcopy.c's block allocator: young files are laid out from the first cylinder
// up, old files from the last cylinder down, until the two meet.

module Cylinders {
  import opened BitStrings

  // The data blocks of the new file system, fmin to fsize - 1, on cylinders of
  // cyl blocks each.
  datatype Disk = Disk(fmin: int, fsize: int, cyl: int)

  predicate InRange(d: Disk, blk: int) {
    d.fmin <= blk < d.fsize
  }

  function DataBlocks(d: Disk): set<int> {
    set blk | d.fmin <= blk < d.fsize && InRange(d, blk)
  }

  // What alloc()'s search finds: the first free slot from i on, around the
  // cylinder at base, whose block is in range; -1 when there is none among n.
  function Next(d: Disk, flg: seq<bool>, base: int, i: nat, n: nat): (r: int)
    requires i < |flg|
    ensures r == -1 || (0 <= r < |flg| && !flg[r] && InRange(d, base + r))
    decreases n
  {
    if n == 0 then -1
    else if !flg[i] && InRange(d, base + i) then i
    else Next(d, flg, base, (i + 1) % |flg|, n - 1)
  }

  // Going on from slot i, around the cylinder at base, r is the first free
  // slot whose block is in range.
  predicate FirstFree(d: Disk, flg: seq<bool>, base: int, i: int, r: int) {
    0 <= r < |flg| && !flg[r] && d.fmin <= base + r < d.fsize &&
    forall k :: 0 <= k < |flg| && (if i <= r then i <= k < r else i <= k || k < r) && d.fmin <= base + k < d.fsize ==> flg[k]
  }

  // The free slots in range, among the first k.
  function Room(d: Disk, flg: seq<bool>, base: int, k: nat): (n: nat)
    requires k <= |flg|
    ensures n <= k
  {
    if k == 0 then 0
    else Room(d, flg, base, k - 1) + if !flg[k - 1] && InRange(d, base + k - 1) then 1 else 0
  }

  // A cylinder as one of the two allocators sees it.
  datatype View = View(base: int, nalloc: int, flg: seq<bool>)

  predicate Unused(v: View, blk: int) {
    0 <= blk - v.base < |v.flg| && !v.flg[blk - v.base]
  }

  // a_nalloc tells how much room there is.
  predicate Tallied(d: Disk, v: View) {
    |v.flg| == d.cyl && v.nalloc >= 0 &&
    Room(d, v.flg, v.base, d.cyl) == if v.nalloc >= d.cyl then 0 else d.cyl - v.nalloc
  }

  // The two views, and what lies between them: which of them is in use once
  // they have met.
  datatype State = State(views: seq<View>, overlap: bool, ovw: int)

  predicate Shaped(s: State) {
    |s.views| == 2 && 0 <= s.ovw <= 1
  }

  // a and b are different cylinders.
  predicate Apart(a: int, b: int, cyl: int)
    requires cyl > 0
  {
    a < b && (b - a) % cyl == 0
  }

  predicate Sound(d: Disk, s: State) {
    d.cyl > 0 && Shaped(s) &&
    if s.overlap then Tallied(d, s.views[s.ovw])
    else
      Tallied(d, s.views[0]) && Tallied(d, s.views[1]) &&
      Apart(s.views[0].base, s.views[1].base, d.cyl) &&
      d.fmin <= s.views[0].base + d.cyl && s.views[1].base <= d.fsize
  }

  // Not yet handed out.
  predicate Left(d: Disk, s: State, blk: int)
    requires Shaped(s)
  {
    InRange(d, blk) &&
    if s.overlap then Unused(s.views[s.ovw], blk)
    else
      Unused(s.views[0], blk) || Unused(s.views[1], blk) ||
      s.views[0].base + d.cyl <= blk < s.views[1].base
  }

  ghost function Remaining(d: Disk, s: State): set<int>
    requires Shaped(s)
  {
    set blk | d.fmin <= blk < d.fsize && Left(d, s, blk)
  }

  // ---------- the search

  lemma {:induction false} RoomIsFound(d: Disk, flg: seq<bool>, base: int, k: nat) returns (j: nat)
    requires k <= |flg| && Room(d, flg, base, k) > 0
    ensures j < k && !flg[j] && InRange(d, base + j)
  {
    if !flg[k - 1] && InRange(d, base + k - 1) {
      j := k - 1;
    } else {
      j := RoomIsFound(d, flg, base, k - 1);
    }
  }

  // From i the slot j is n - 1 steps off at most.
  lemma {:induction false} NextFinds(d: Disk, flg: seq<bool>, base: int, i: nat, n: nat, j: nat)
    requires i < |flg| && j < |flg| && !flg[j] && InRange(d, base + j)
    requires n > if j >= i then j - i else j - i + |flg|
    ensures Next(d, flg, base, i, n) >= 0
    decreases n
  {
    NextStep(d, flg, base, i, n);
    if i != j {
      hide *;
      NextSlot(i, |flg|);
      NextFinds(d, flg, base, (i + 1) % |flg|, n - 1, j);
    }
  }

  lemma NextStep(d: Disk, flg: seq<bool>, base: int, i: nat, n: nat)
    requires i < |flg| && n > 0
    ensures 0 <= (i + 1) % |flg| < |flg|
    ensures Next(d, flg, base, i, n) == if !flg[i] && InRange(d, base + i) then i else Next(d, flg, base, (i + 1) % |flg|, n - 1)
  {
  }

  lemma NextSlot(i: nat, n: nat)
    requires i < n
    ensures (i + 1) % n == if i + 1 == n then 0 else i + 1
  {
  }

  // Nothing that could be had is passed over.
  lemma {:induction false} NextIsFirst(d: Disk, flg: seq<bool>, base: int, i: nat, n: nat)
    requires i < |flg| && Next(d, flg, base, i, n) >= 0
    ensures FirstFree(d, flg, base, i, Next(d, flg, base, i, n))
    decreases n
  {
    if n > 0 && (flg[i] || !InRange(d, base + i)) {
      NextStep(d, flg, base, i, n);
      NextSlot(i, |flg|);
      hide *;
      NextIsFirst(d, flg, base, (i + 1) % |flg|, n - 1);
      FirstBefore(d, flg, base, i, Next(d, flg, base, (i + 1) % |flg|, n - 1));
    }
  }

  lemma FirstBefore(d: Disk, flg: seq<bool>, base: int, i: nat, r: int)
    requires i < |flg| && (flg[i] || !InRange(d, base + i))
    requires FirstFree(d, flg, base, if i + 1 == |flg| then 0 else i + 1, r)
    ensures FirstFree(d, flg, base, i, r)
  {
  }

  lemma NextExists(d: Disk, flg: seq<bool>, base: int, i: nat)
    requires i < |flg| && Room(d, flg, base, |flg|) > 0
    ensures Next(d, flg, base, i, |flg|) >= 0
  {
    var j := RoomIsFound(d, flg, base, |flg|);
    NextFinds(d, flg, base, i, |flg|, j);
  }

  // Slots out of range may be marked on the way.
  predicate MarkedOutside(d: Disk, was: seq<bool>, flg: seq<bool>, base: int) {
    |flg| == |was| && forall k :: 0 <= k < |was| && InRange(d, base + k) ==> flg[k] == was[k]
  }

  lemma {:induction false} RoomTaken(d: Disk, was: seq<bool>, flg: seq<bool>, base: int, r: nat, k: nat)
    requires r < |was| && !was[r] && InRange(d, base + r) && k <= |was| == |flg|
    requires flg[r] && forall j :: 0 <= j < |was| && j != r && InRange(d, base + j) ==> flg[j] == was[j]
    ensures Room(d, flg, base, k) == Room(d, was, base, k) - if r < k then 1 else 0
    decreases k
  {
    if k > 0 { RoomTaken(d, was, flg, base, r, k - 1); }
  }

  lemma MarkNone(d: Disk, flg: seq<bool>, base: int)
    ensures MarkedOutside(d, flg, flg, base)
  {
  }

  lemma NextSkip(d: Disk, was: seq<bool>, flg: seq<bool>, base: int, i: nat, m: int, r: int)
    requires MarkedOutside(d, was, flg, base) && i < |flg| && flg[i] && m >= 0 && Next(d, was, base, i, m) == r >= 0
    ensures m > 0 && Next(d, was, base, (i + 1) % |was|, m - 1) == r
  {
  }

  lemma NextHit(d: Disk, was: seq<bool>, flg: seq<bool>, base: int, i: nat, m: int, r: int)
    requires MarkedOutside(d, was, flg, base) && i < |flg| && !flg[i] && m >= 0 && Next(d, was, base, i, m) == r >= 0
    ensures d.fmin <= base + i < d.fsize ==> r == i && TookSlot(d, was, flg[i := true], base, r)
    ensures !(d.fmin <= base + i < d.fsize) ==> MarkedOutside(d, was, flg[i := true], base)
  {
  }

  // ---------- moving on to the next cylinder

  lemma {:induction false} RoomOfEmpty(d: Disk, base: int, flg: seq<bool>, k: nat)
    requires k <= |flg| && forall j :: 0 <= j < |flg| ==> !flg[j]
    ensures d.fmin <= base && base + k <= d.fsize ==> Room(d, flg, base, k) == k
    ensures base + k <= d.fmin ==> Room(d, flg, base, k) == 0
    ensures base <= d.fmin < base + k <= d.fsize ==> Room(d, flg, base, k) == base + k - d.fmin
    ensures d.fmin <= base <= d.fsize < base + k ==> Room(d, flg, base, k) == d.fsize - base
    decreases k
  {
    if k > 0 { RoomOfEmpty(d, base, flg, k - 1); }
  }

  lemma {:induction false} NoRoom(d: Disk, flg: seq<bool>, base: int, k: nat, j: nat)
    requires j < k <= |flg| && Room(d, flg, base, k) == 0
    ensures flg[j] || !InRange(d, base + j)
    decreases k
  {
    if j < k - 1 { NoRoom(d, flg, base, k - 1, j); }
  }

  // A full view holds nothing any more.
  lemma FullView(d: Disk, v: View, blk: int)
    requires Tallied(d, v) && v.nalloc >= d.cyl && InRange(d, blk)
    ensures !Unused(v, blk)
  {
    if Unused(v, blk) { NoRoom(d, v.flg, v.base, d.cyl, blk - v.base); }
  }

  lemma StepUp(a: int, b: int, c: int)
    requires c > 0 && Apart(a, b, c)
    ensures a < b && a + c <= b
    ensures a + c < b ==> Apart(a + c, b, c) && Apart(a, b - c, c) && a + 2 * c <= b
  {
    var q: nat := (b - a) / c - 1;
    assert b - (a + c) == q * c;
    DivUnique(b - (a + c), c, q, 0);
    if q > 0 { MulAtLeast(q, c); }
  }

  // dcopy.c:711-727: view w, full, is moved to the neighbouring cylinder.
  function Moved(d: Disk, s: State, w: int): State
    requires |s.views| == 2 && 0 <= w <= 1 && d.cyl >= 0
  {
    var base := s.views[w].base + if w == 1 then -d.cyl else d.cyl;
    var v := View(base, 0, seq(d.cyl, _ => false));
    var met := base == s.views[1 - w].base;
    State(s.views[w := v], s.overlap || met, if met then 1 - w else s.ovw)
  }

  lemma EmptyTallied(d: Disk, v: View)
    requires d.cyl > 0 && |v.flg| == d.cyl && v.nalloc == 0 && forall j :: 0 <= j < d.cyl ==> !v.flg[j]
    requires d.fmin <= v.base && v.base + d.cyl <= d.fsize
    ensures Tallied(d, v)
  {
    RoomOfEmpty(d, v.base, v.flg, d.cyl);
  }

  lemma MovedSound(d: Disk, s: State, w: int)
    requires Sound(d, s) && !s.overlap && 0 <= w <= 1 && s.views[w].nalloc >= d.cyl
    ensures Sound(d, Moved(d, s, w))
    ensures !Moved(d, s, w).overlap ==> InRange(d, Moved(d, s, w).views[w].base)
  {
    var t := Moved(d, s, w);
    var a, b := s.views[0].base, s.views[1].base;
    hide Tallied, Room, Apart;
    StepUp(a, b, d.cyl);
    assert t.views[1 - w] == s.views[1 - w];
    if !t.overlap {
      EmptyTallied(d, t.views[w]);
    }
  }

  lemma MovedLeft(d: Disk, s: State, w: int, blk: int)
    requires d.cyl > 0 && |s.views| == 2 && 0 <= s.ovw <= 1 && !s.overlap && 0 <= w <= 1 && InRange(d, blk)
    requires !Unused(s.views[w], blk)
    requires s.views[0].base + d.cyl == s.views[1].base || s.views[0].base + 2 * d.cyl <= s.views[1].base
    requires |s.views[1 - w].flg| == d.cyl
    ensures Left(d, s, blk) == Left(d, Moved(d, s, w), blk)
  {
    var t := Moved(d, s, w);
    if w == 0 {
      assert Unused(t.views[0], blk) <==> s.views[0].base + d.cyl <= blk < s.views[0].base + 2 * d.cyl;
    } else {
      assert Unused(t.views[1], blk) <==> s.views[1].base - d.cyl <= blk < s.views[1].base;
    }
  }

  // Nothing is lost or gained on the way.
  lemma MovedKeeps(d: Disk, s: State, w: int)
    requires Sound(d, s) && !s.overlap && 0 <= w <= 1 && s.views[w].nalloc >= d.cyl
    ensures Remaining(d, Moved(d, s, w)) == Remaining(d, s)
  {
    var t := Moved(d, s, w);
    var a, b := s.views[0].base, s.views[1].base;
    StepUp(a, b, d.cyl);
    assert |s.views[1 - w].flg| == d.cyl;
    forall blk | InRange(d, blk) ensures Left(d, s, blk) == Left(d, t, blk) {
      FullView(d, s.views[w], blk);
      hide *;
      MovedLeft(d, s, w, blk);
    }
  }

  // ---------- handing a block out

  // View w is one of those in use.
  predicate Live(s: State, w: int) {
    0 <= w <= 1 && (s.overlap ==> w == s.ovw)
  }

  // Slot r of view w is handed out; other slots in range are as before.
  function Took(s: State, w: int, flg: seq<bool>): State
    requires |s.views| == 2 && 0 <= w <= 1
  {
    State(s.views[w := View(s.views[w].base, s.views[w].nalloc + 1, flg)], s.overlap, s.ovw)
  }

  predicate TookSlot(d: Disk, was: seq<bool>, flg: seq<bool>, base: int, r: int) {
    |flg| == |was| && 0 <= r < |was| && !was[r] && InRange(d, base + r) && flg[r] &&
    forall j :: 0 <= j < |was| && j != r && InRange(d, base + j) ==> flg[j] == was[j]
  }

  lemma TookTallied(d: Disk, v: View, flg: seq<bool>, r: int)
    requires Tallied(d, v) && v.nalloc < d.cyl && TookSlot(d, v.flg, flg, v.base, r)
    ensures Tallied(d, View(v.base, v.nalloc + 1, flg))
  {
    RoomTaken(d, v.flg, flg, v.base, r, d.cyl);
  }

  lemma TookSound(d: Disk, s: State, w: int, flg: seq<bool>, r: int)
    requires Sound(d, s) && Live(s, w) && s.views[w].nalloc < d.cyl && TookSlot(d, s.views[w].flg, flg, s.views[w].base, r)
    ensures Sound(d, Took(s, w, flg))
  {
    TookTallied(d, s.views[w], flg, r);
    hide Tallied;
    assert forall k :: 0 <= k < 2 && k != w ==> Took(s, w, flg).views[k] == s.views[k];
  }

  lemma TookLeft(d: Disk, s: State, w: int, flg: seq<bool>, r: int, blk: int)
    requires d.cyl > 0 && |s.views| == 2 && 0 <= s.ovw <= 1 && Live(s, w)
    requires s.overlap || (s.views[0].base + d.cyl <= s.views[1].base && |s.views[0].flg| == |s.views[1].flg| == d.cyl)
    requires |s.views[w].flg| == d.cyl && TookSlot(d, s.views[w].flg, flg, s.views[w].base, r)
    ensures Left(d, Took(s, w, flg), blk) <==> Left(d, s, blk) && blk != s.views[w].base + r
    ensures Left(d, s, s.views[w].base + r)
  {
    var t := Took(s, w, flg);
    assert forall k :: 0 <= k < 2 && k != w ==> t.views[k] == s.views[k];
    if InRange(d, blk) && blk != s.views[w].base + r {
      var k := blk - s.views[w].base;
      assert 0 <= k < d.cyl ==> InRange(d, s.views[w].base + k) && flg[k] == s.views[w].flg[k];
    }
  }

  lemma TookKeeps(d: Disk, s: State, w: int, flg: seq<bool>, r: int)
    requires Sound(d, s) && Live(s, w) && s.views[w].nalloc < d.cyl && TookSlot(d, s.views[w].flg, flg, s.views[w].base, r)
    ensures s.views[w].base + r in Remaining(d, s)
    ensures Remaining(d, Took(s, w, flg)) == Remaining(d, s) - {s.views[w].base + r}
  {
    if !s.overlap { StepUp(s.views[0].base, s.views[1].base, d.cyl); }
    forall blk
      ensures Left(d, Took(s, w, flg), blk) <==> Left(d, s, blk) && blk != s.views[w].base + r
      ensures Left(d, s, s.views[w].base + r)
    {
      TookLeft(d, s, w, flg, r, blk);
    }
  }

  // One more taken from view w, or one more try.
  function Bump(s: State, w: int): (t: State)
    requires Shaped(s) && 0 <= w <= 1
    ensures Shaped(t)
  {
    State(s.views[w := View(s.views[w].base, s.views[w].nalloc + 1, s.views[w].flg)], s.overlap, s.ovw)
  }

  // A counter that has run over may run further.
  lemma Bumped(d: Disk, s: State, w: int)
    requires Sound(d, s) && 0 <= w <= 1 && s.views[w].nalloc >= d.cyl
    ensures Sound(d, Bump(s, w)) && Remaining(d, Bump(s, w)) == Remaining(d, s)
  {
    var t := Bump(s, w);
    assert forall k :: 0 <= k < 2 && k != w ==> t.views[k] == s.views[k];
    hide Room;
    forall blk ensures Left(d, t, blk) == Left(d, s, blk) {}
  }

  lemma BumpShape(s: State, w: int)
    requires Shaped(s) && 0 <= w <= 1
    ensures
      var t := Bump(s, w);
      t.overlap == s.overlap && t.ovw == s.ovw && t.views[1 - w] == s.views[1 - w] &&
      t.views[w] == View(s.views[w].base, s.views[w].nalloc + 1, s.views[w].flg)
  {
  }

  lemma MovedShape(d: Disk, s: State, w: int)
    requires Shaped(s) && 0 <= w <= 1 && d.cyl >= 0 && !s.overlap
    ensures
      var t := Moved(d, s, w);
      Shaped(t) && t.views[1 - w] == s.views[1 - w] && |t.views[w].flg| == d.cyl && t.views[w].nalloc == 0 &&
      t.views[w].base == s.views[w].base + (if w == 1 then -d.cyl else d.cyl) &&
      (t.overlap <==> s.views[1].base - s.views[0].base == d.cyl) && (t.overlap ==> t.ovw == 1 - w) &&
      forall j :: 0 <= j < d.cyl ==> !t.views[w].flg[j]
  {
  }

  lemma TookIsBumped(s: State, w: int, flg: seq<bool>)
    requires Shaped(s) && 0 <= w <= 1
    ensures
      var t := Took(s, w, flg);
      t.overlap == s.overlap && t.ovw == s.ovw && |t.views| == 2 && t.views[1 - w] == s.views[1 - w] &&
      t.views[w] == View(s.views[w].base, s.views[w].nalloc + 1, flg)
  {
  }

  lemma BlocksAreReal(d: Disk, s: State)
    requires Shaped(s) && d.fmin > 0
    ensures 0 !in Remaining(d, s)
  {
  }

  lemma Exhausted(d: Disk, s: State)
    requires Sound(d, s) && s.overlap && s.views[s.ovw].nalloc >= d.cyl
    ensures Remaining(d, s) == {}
  {
    forall blk | InRange(d, blk) ensures !Left(d, s, blk) {
      FullView(d, s.views[s.ovw], blk);
    }
  }

  lemma TookAll(d: Disk, s: State, w: int, flg: seq<bool>, i: nat, r: int)
    requires Sound(d, s) && Live(s, w) && s.views[w].nalloc < d.cyl && TookSlot(d, s.views[w].flg, flg, s.views[w].base, r)
    requires i < d.cyl == |s.views[w].flg| && r == Next(d, s.views[w].flg, s.views[w].base, i, d.cyl)
    ensures
      var t, blk := Took(s, w, flg), s.views[w].base + r;
      Sound(d, t) && blk in Remaining(d, s) && Remaining(d, t) == Remaining(d, s) - {blk} && 0 <= r < d.cyl
    ensures FirstFree(d, s.views[w].flg, s.views[w].base, i, r)
  {
    NextIsFirst(d, s.views[w].flg, s.views[w].base, i, d.cyl);
    TookSound(d, s, w, flg, r);
    TookKeeps(d, s, w, flg, r);
  }

  lemma FreshFirst(d: Disk, v: View, r: int)
    requires |v.flg| > 0 && !v.flg[0] && InRange(d, v.base) && FirstFree(d, v.flg, v.base, 0, r)
    ensures r == 0
  {
    assert d.fmin <= v.base + 0 < d.fsize;
  }

  lemma RoomLeft(d: Disk, s: State, w: int, i: nat)
    requires Sound(d, s) && Live(s, w) && s.views[w].nalloc < d.cyl && i < d.cyl
    ensures Shaped(s) && |s.views[w].flg| == d.cyl && Next(d, s.views[w].flg, s.views[w].base, i, d.cyl) >= 0
  {
    NextExists(d, s.views[w].flg, s.views[w].base, i);
  }

  // ---------- the start

  // howmany(a, b) * b
  function Roundup(a: int, b: int): int
    requires b > 0
  {
    (a + (b - 1)) / b * b
  }

  lemma RoundupIs(a: int, b: int)
    requires a > 0 && b > 0
    ensures a <= Roundup(a, b) < a + b && Roundup(a, b) % b == 0
    ensures Roundup(a, b) == if a % b == 0 then a else a - a % b + b
  {
    var q, r := a / b, a % b;
    assert a == q * b + r;
    if r == 0 {
      DivUnique(a + (b - 1), b, q, b - 1);
      DivUnique(q * b, b, q, 0);
    } else {
      assert (q + 1) * b == q * b + b;
      DivUnique(a + (b - 1), b, q + 1, r - 1);
      DivUnique((q + 1) * b, b, q + 1, 0);
    }
  }

  // dcopy.c:341-347.
  function Start(d: Disk): (s: State)
    requires d.cyl > 0
    ensures Shaped(s)
  {
    var clear := seq(d.cyl, _ => false);
    var top := Roundup(d.fsize, d.cyl);
    State([View(Roundup(d.fmin, d.cyl) - d.cyl, d.fmin % d.cyl, clear), View(top - d.cyl, top - d.fsize, clear)], false, 0)
  }

  // The data area starts inside a cylinder, and ends in another one.
  predicate Fits(d: Disk) {
    d.cyl > 0 && 0 < d.fmin < d.fsize && d.fmin % d.cyl != 0 && d.fmin / d.cyl < (d.fsize - 1) / d.cyl
  }

  lemma LastCylinder(n: int, c: int)
    requires n > 0 && c > 0
    ensures Roundup(n, c) - c == (n - 1) / c * c
  {
    var q, r := (n - 1) / c, (n - 1) % c;
    assert n + (c - 1) == (q + 1) * c + r by { assert (q + 1) * c == q * c + c; }
    DivUnique(n + (c - 1), c, q + 1, r);
    assert (q + 1) * c == q * c + c;
  }

  lemma Ordered(a: int, b: int, c: int)
    requires c > 0
    ensures a < b ==> a * c + c <= b * c && (b * c - a * c) % c == 0
    ensures a >= b ==> a * c >= b * c
  {
    if a < b {
      var k: nat := b - a - 1;
      assert b * c == a * c + c + k * c;
      MulAtLeast(b - a, c);
      DivUnique(b * c - a * c, c, b - a, 0);
    } else {
      assert a * c == b * c + (a - b) * c;
      assert (a - b) * c >= 0;
    }
  }

  lemma StartBases(d: Disk)
    requires d.cyl > 0 && 0 < d.fmin < d.fsize
    ensures
      var a, b := Start(d).views[0].base, Start(d).views[1].base;
      b == (d.fsize - 1) / d.cyl * d.cyl && b < d.fsize <= b + d.cyl &&
      a == d.fmin - (if d.fmin % d.cyl == 0 then d.cyl else d.fmin % d.cyl) &&
      (d.fmin % d.cyl != 0 ==> a == d.fmin / d.cyl * d.cyl)
  {
    RoundupIs(d.fmin, d.cyl);
    RoundupIs(d.fsize, d.cyl);
    LastCylinder(d.fsize, d.cyl);
  }

  lemma StartSound(d: Disk)
    requires Fits(d)
    ensures Sound(d, Start(d))
    ensures Remaining(d, Start(d)) == DataBlocks(d)
    ensures Start(d).views[0].base == d.fmin / d.cyl * d.cyl && Start(d).views[1].base == (d.fsize - 1) / d.cyl * d.cyl
  {
    var s := Start(d);
    var a, b := s.views[0].base, s.views[1].base;
    RoundupIs(d.fmin, d.cyl);
    RoundupIs(d.fsize, d.cyl);
    StartBases(d);
    Ordered(d.fmin / d.cyl, (d.fsize - 1) / d.cyl, d.cyl);
    hide Roundup;
    RoomOfEmpty(d, a, s.views[0].flg, d.cyl);
    RoomOfEmpty(d, b, s.views[1].flg, d.cyl);
    forall blk | InRange(d, blk) ensures Left(d, s, blk) {
      assert a <= blk < a + d.cyl || a + d.cyl <= blk < b || b <= blk < b + d.cyl;
    }
  }

  lemma {:induction false} NextNone(d: Disk, flg: seq<bool>, base: int, i: nat, n: nat)
    requires i < |flg| && forall blk :: base <= blk < base + |flg| ==> !InRange(d, blk)
    ensures Next(d, flg, base, i, n) == -1
    decreases n
  {
    if n > 0 { NextNone(d, flg, base, (i + 1) % |flg|, n - 1); }
  }

  // Otherwise alloc() fails. Where fmin begins a cylinder, the first young file
  // sends the search around a cylinder with no slot in range, without end; and
  // where there is one cylinder only, young and old files get the same blocks.
  lemma StartFails(d: Disk, i: nat, young: View, other: View)
    requires d.cyl > 0 && 0 < d.fmin < d.fsize && !Fits(d) && i < d.cyl
    requires young == Start(d).views[0] && other == Start(d).views[1]
    ensures young.nalloc < d.cyl && other.nalloc < d.cyl && |young.flg| == |other.flg| == d.cyl
    ensures d.fmin % d.cyl == 0 ==> forall n: nat :: Next(d, young.flg, young.base, i, n) == -1
    ensures d.fmin % d.cyl != 0 ==>
      young.base == other.base && Next(d, young.flg, young.base, i, d.cyl) == Next(d, other.flg, other.base, i, d.cyl) >= 0
  {
    RoundupIs(d.fmin, d.cyl);
    RoundupIs(d.fsize, d.cyl);
    StartBases(d);
    hide Roundup;
    if d.fmin % d.cyl == 0 {
      forall n: nat ensures Next(d, young.flg, young.base, i, n) == -1 {
        NextNone(d, young.flg, young.base, i, n);
      }
    } else {
      Quotients(d.fmin, d.fsize - 1, d.cyl);
      hide Next;
      NextFinds(d, young.flg, young.base, i, d.cyl, d.fmin - young.base);
    }
  }

  lemma Quotients(a: int, b: int, c: int)
    requires 0 <= a <= b && c > 0
    ensures a / c <= b / c
  {
    if a / c > b / c { Ordered(b / c, a / c, c); }
  }

  // Two blocks a cylinder or more apart are still to be had.
  predicate Wide(d: Disk, blks: seq<int>) {
    exists x, y | d.fmin <= x < d.fsize && d.fmin <= y < d.fsize :: x !in blks && y !in blks && x + d.cyl <= y
  }

  // As long as that is so the young files' blocks are all below the old ones'.
  predicate TwoEnds(d: Disk, files: seq<(bool, bool)>, blks: seq<int>) {
    |blks| <= |files| &&
    forall m :: 0 <= m <= |blks| && Wide(d, blks[..m]) ==> BelowTheOld(files, blks, m)
  }

  predicate BelowTheOld(files: seq<(bool, bool)>, blks: seq<int>, m: nat)
    requires m <= |blks| <= |files|
  {
    forall i, j :: 0 <= i < m && 0 <= j < m && !files[i].0 && files[j].0 ==> blks[i] < blks[j]
  }

  // Young blocks are below top, old ones not below bottom.
  predicate Sides(files: seq<(bool, bool)>, blks: seq<int>, top: int, bottom: int)
    requires |blks| <= |files|
  {
    forall i :: 0 <= i < |blks| ==> if files[i].0 then bottom <= blks[i] else blks[i] < top
  }

  // The blocks handed out so far, and what was asked for each.
  ghost predicate Kept(d: Disk, asked: seq<(bool, bool)>, log: seq<int>, s: State) {
    Shaped(s) && |asked| == |log| && (forall x :: InRange(d, x) && x !in log ==> Left(d, s, x)) && TwoEnds(d, asked, log) &&
    (!s.overlap ==> Sides(asked, log, s.views[0].base + d.cyl, s.views[1].base))
  }

  lemma KeptNone(d: Disk, s: State)
    requires Shaped(s) && Remaining(d, s) == DataBlocks(d)
    ensures Kept(d, [], [], s)
  {
    forall x | InRange(d, x) ensures Left(d, s, x) {
      assert x in DataBlocks(d);
    }
  }

  // When the views meet one cylinder at most is left.
  lemma MetNarrow(d: Disk, s: State, log: seq<int>)
    requires Sound(d, s) && s.overlap && forall x :: InRange(d, x) && x !in log ==> Left(d, s, x)
    ensures !Wide(d, log)
  {
    forall x | InRange(d, x) && x !in log
      ensures s.views[s.ovw].base <= x < s.views[s.ovw].base + d.cyl
    {
      assert Left(d, s, x);
    }
  }

  lemma SidesOrdered(d: Disk, s: State, files: seq<(bool, bool)>, blks: seq<int>)
    requires Sound(d, s) && !s.overlap && |blks| <= |files|
    requires Sides(files, blks, s.views[0].base + d.cyl, s.views[1].base)
    ensures BelowTheOld(files, blks, |blks|)
  {
    StepUp(s.views[0].base, s.views[1].base, d.cyl);
  }

  lemma SidesMore(files: seq<(bool, bool)>, blks: seq<int>, top: int, bottom: int, file: (bool, bool), blk: int, top': int, bottom': int)
    requires |blks| == |files| && Sides(files, blks, top, bottom) && top <= top' && bottom' <= bottom
    requires if file.0 then bottom' <= blk else blk < top'
    ensures Sides(files + [file], blks + [blk], top', bottom')
  {
  }

  // One call more, before or after they have met.
  lemma TwoEndsMore(d: Disk, files: seq<(bool, bool)>, blks: seq<int>, file: (bool, bool), blk: int)
    requires |blks| == |files| && TwoEnds(d, files, blks)
    requires !Wide(d, blks + [blk]) || BelowTheOld(files + [file], blks + [blk], |blks| + 1)
    ensures TwoEnds(d, files + [file], blks + [blk])
  {
    var more, asked := blks + [blk], files + [file];
    forall m | 0 <= m <= |more| && Wide(d, more[..m]) ensures BelowTheOld(asked, more, m) {
      if m <= |blks| {
        assert more[..m] == blks[..m];
        assert BelowTheOld(files, blks, m);
      } else {
        assert more[..m] == more;
      }
    }
  }

  lemma LeftMore(d: Disk, s: State, s': State, log: seq<int>, blk: int)
    requires Shaped(s) && Shaped(s') && Remaining(d, s') == Remaining(d, s) - {blk}
    requires forall x :: InRange(d, x) && x !in log ==> Left(d, s, x)
    ensures forall x :: InRange(d, x) && x !in log + [blk] ==> Left(d, s', x)
  {
    forall x | InRange(d, x) && x !in log + [blk] ensures Left(d, s', x) {
      assert x in Remaining(d, s) && x in Remaining(d, s');
    }
  }

  lemma KeptMore(d: Disk, asked: seq<(bool, bool)>, log: seq<int>, s: State, s': State, file: (bool, bool), blk: int)
    requires Kept(d, asked, log, s) && Sound(d, s') && Remaining(d, s') == Remaining(d, s) - {blk} && (s.overlap ==> s'.overlap)
    requires !s'.overlap ==>
      (if file.0 then s'.views[1].base <= blk else blk < s'.views[0].base + d.cyl) &&
      s.views[0].base <= s'.views[0].base && s'.views[1].base <= s.views[1].base
    ensures Kept(d, asked + [file], log + [blk], s')
  {
    LeftMore(d, s, s', log, blk);
    hide Sides, TwoEnds, Wide, BelowTheOld, Remaining, Left, Tallied, Apart;
    if s'.overlap {
      MetNarrow(d, s', log + [blk]);
    } else {
      SidesMore(asked, log, s.views[0].base + d.cyl, s.views[1].base, file, blk, s'.views[0].base + d.cyl, s'.views[1].base);
      SidesOrdered(d, s', asked + [file], log + [blk]);
    }
    TwoEndsMore(d, asked, log, file, blk);
  }

  // When no block was left nothing changes.
  lemma KeptEmpty(d: Disk, asked: seq<(bool, bool)>, log: seq<int>, s: State, s': State)
    requires Kept(d, asked, log, s) && Shaped(s') && s'.overlap && Remaining(d, s') == Remaining(d, s) == {}
    ensures Kept(d, asked, log, s')
  {
    forall x ensures InRange(d, x) && x !in log ==> Left(d, s', x) { NoneIsLeft(d, s, x); }
  }

  lemma NoneIsLeft(d: Disk, s: State, x: int)
    requires Shaped(s) && Remaining(d, s) == {}
    ensures !(InRange(d, x) && Left(d, s, x))
  {
    assert x !in Remaining(d, s);
  }

  // struct all
  class Cylinder {
    var baseblock: int
    var pblk: int
    var nalloc: int
    var lastb: nat
    const flg: array<bool>

    constructor (cyl: nat, baseblock: int, nalloc: int)
      ensures this.baseblock == baseblock && pblk == 1 && this.nalloc == nalloc && lastb == 0
      ensures fresh(flg) && flg.Length == cyl && forall k :: 0 <= k < cyl ==> !flg[k]
    {
      this.baseblock, pblk, this.nalloc, lastb := baseblock, 1, nalloc, 0;
      flg := new bool[cyl](_ => false);
    }

    ghost function Seen(): View
      reads this, flg
    {
      View(baseblock, nalloc, flg[..])
    }
  }

  class Allocator {
    const d: Disk
    const stepsize: nat
    const bsize: int
    const all: seq<Cylinder>
    var overlap: bool
    var ovw: int
    ghost var log: seq<int>    // the blocks handed out, in order
    ghost var asked: seq<(bool, bool)>    // for an old file or a young one, contiguous or not

    ghost predicate Valid()
      reads this
    {
      d.fmin > 0 && d.cyl > 0 && |all| == 2 && all[0] != all[1] && all[0].flg != all[1].flg &&
      all[0].flg.Length == all[1].flg.Length == d.cyl && 0 <= ovw <= 1
    }

    ghost function Footprint(): set<object>
      requires |all| == 2
    {
      {this, all[0], all[1], all[0].flg, all[1].flg}
    }

    ghost function Now(): (s: State)
      requires Valid()
      reads this, all[0], all[1], all[0].flg, all[1].flg
      ensures Shaped(s)
    {
      State([all[0].Seen(), all[1].Seen()], overlap, ovw)
    }

    ghost predicate Told()
      requires Valid()
      reads this, all[0], all[1], all[0].flg, all[1].flg
    {
      Kept(d, asked, log, Now())
    }

    constructor (d: Disk, stepsize: nat, bsize: int)
      requires 0 < d.fmin < d.fsize && d.cyl > 0
      ensures Valid() && this.d == d && this.stepsize == stepsize && this.bsize == bsize
      ensures Now() == Start(d) && fresh(Footprint()) && log == [] && asked == []
      ensures all[0].pblk == all[1].pblk == 1 && all[0].lastb == all[1].lastb == 0
    {
      var young := new Cylinder(d.cyl, Roundup(d.fmin, d.cyl) - d.cyl, d.fmin % d.cyl);
      var top := Roundup(d.fsize, d.cyl);
      var old_ := new Cylinder(d.cyl, top - d.cyl, top - d.fsize);
      this.d, this.stepsize, this.bsize, overlap, ovw := d, stepsize, bsize, false, 0;
      all, log, asked := [young, old_], [], [];
      new;
      assert young.flg[..] == old_.flg[..] == seq(d.cyl, _ => false);
    }

    // dcopy.c:737-744: the search for a free slot in range.
    method Search(ap: Cylinder, i0: nat) returns (blk: int)
      requires Valid() && ap in all && i0 < d.cyl && Next(d, ap.flg[..], ap.baseblock, i0, d.cyl) >= 0
      modifies ap`lastb, ap.flg
      ensures blk == ap.baseblock + old(Next(d, ap.flg[..], ap.baseblock, i0, d.cyl))
      ensures TookSlot(d, old(ap.flg[..]), ap.flg[..], ap.baseblock, blk - ap.baseblock)
      ensures ap.lastb == blk - ap.baseblock
    {
      hide Next, MarkedOutside, InRange, TookSlot;
      var i := i0;
      MarkNone(d, ap.flg[..], ap.baseblock);
      ghost var m, was, base, r := d.cyl, ap.flg[..], ap.baseblock, Next(d, ap.flg[..], ap.baseblock, i0, d.cyl);
      while true
        invariant 0 <= i < d.cyl && m >= 0 && Next(d, was, base, i, m) == r >= 0 && MarkedOutside(d, was, ap.flg[..], base)
        decreases 2 * m - if ap.flg[i] then 1 else 0
      {
        ghost var m0, j0, flg := m, i, ap.flg[..];
        while ap.flg[i]
          invariant 0 <= i < d.cyl && 0 <= m <= m0 && Next(d, was, base, i, m) == r && MarkedOutside(d, was, ap.flg[..], base)
          invariant (m < m0 || i == j0) && ap.flg[..] == flg
          decreases m
        {
          NextSkip(d, was, ap.flg[..], base, i, m, r);
          i := (i + 1) % d.cyl;
          m := m - 1;
        }
        NextHit(d, was, flg, base, i, m, r);
        ap.flg[i] := true;
        assert ap.flg[..] == flg[i := true];
        blk := ap.baseblock + i;
        ap.lastb := i;
        if !(blk < d.fmin || blk >= d.fsize) {
          break;
        }
      }
    }

    // dcopy.c:711-727: on to the neighbouring cylinder, or over to the other
    // view when that is there already.
    method Advance(which: int) returns (w: int)
      requires Valid() && 0 <= which <= 1 && !overlap
      modifies Footprint()
      ensures log == old(log) && asked == old(asked)
      ensures Valid() && Now() == Moved(d, old(Now()), which)
      ensures w == if overlap then 1 - which else which
      ensures all[which].pblk == 1 && unchanged(all[1 - which], all[1 - which].flg)
    {
      w := which;
      var ap := all[w];
      for k := 0 to d.cyl
        invariant Valid() && forall j :: 0 <= j < k ==> !ap.flg[j]
        modifies ap.flg
      {
        ap.flg[k] := false;
      }
      assert ap.flg[..] == seq(d.cyl, _ => false);
      ap.pblk := 1;
      ap.nalloc := 0;
      ap.baseblock := ap.baseblock + if which == 1 then -d.cyl else d.cyl;
      if all[0].baseblock == all[1].baseblock {
        overlap := true;
        ovw := 1 - which;
        w := ovw;
      }
    }

    // a_nalloc++
    method Count(ap: Cylinder, ghost w: int) returns (was: int)
      requires Valid() && 0 <= w <= 1 && ap == all[w]
      modifies ap`nalloc
      ensures was == old(ap.nalloc) && Now() == Bump(old(Now()), w)
    {
      was := ap.nalloc;
      ap.nalloc := was + 1;
    }

    ghost method Record(before: State, file: (bool, bool), blk: int)
      requires Valid() && Shaped(before) && Sound(d, Now()) && Remaining(d, Now()) == Remaining(d, before) - {blk}
      requires !overlap ==>
        !before.overlap && before.views[0].base <= all[0].baseblock && all[1].baseblock <= before.views[1].base &&
        if file.0 then all[1].baseblock <= blk else blk < all[0].baseblock + d.cyl
      modifies this`log, this`asked
      ensures Valid() && Now() == old(Now()) && log == old(log) + [blk] && asked == old(asked) + [file]
      ensures Kept(d, old(asked), old(log), before) ==> Told()
    {
      hide Sound, Remaining, Kept;
      if Kept(d, asked, log, before) { KeptMore(d, asked, log, before, Now(), file, blk); }
      log, asked := log + [blk], asked + [file];
    }

    lemma Unrecorded(before: State)
      requires Valid() && Shaped(before) && overlap && Remaining(d, Now()) == Remaining(d, before) == {}
      ensures Kept(d, asked, log, before) ==> Told()
    {
      if Kept(d, asked, log, before) { KeptEmpty(d, asked, log, before, Now()); }
    }

    // A block of view w, where there is one.
    method TakeFrom(ap: Cylinder, i: nat, ghost w: int, ghost s: State, ghost before: State, ghost file: (bool, bool)) returns (blk: int)
      requires Valid() && 0 <= w <= 1 && ap == all[w] && Sound(d, s) && Live(s, w) && s.views[w].nalloc < d.cyl && Now() == Bump(s, w) && i < d.cyl
      requires Shaped(before) && Remaining(d, s) == Remaining(d, before)
      requires !overlap ==>
        w == (if file.0 then 1 else 0) && !before.overlap &&
        before.views[0].base <= all[0].baseblock && all[1].baseblock <= before.views[1].base
      modifies ap`lastb, ap.flg, this`log, this`asked
      ensures log == old(log) + [blk] && asked == old(asked) + [file]
      ensures Kept(d, old(asked), old(log), before) ==> Told()
      ensures Sound(d, Now()) && blk in Remaining(d, s) && Remaining(d, Now()) == Remaining(d, s) - {blk}
      ensures FirstFree(d, s.views[w].flg, s.views[w].base, i, blk - s.views[w].base) && ap.lastb == blk - s.views[w].base
      ensures s.views[w].base <= blk < s.views[w].base + d.cyl
    {
      hide Sound, Remaining, Next, TookSlot, Took, Bump, FirstFree, Left, InRange, Kept;
      RoomLeft(d, s, w, i);
      BumpShape(s, w);
      assert ap.flg[..] == s.views[w].flg && ap.baseblock == s.views[w].base;
      blk := Search(ap, i);
      TookIsBumped(s, w, ap.flg[..]);
      assert Now().views == Took(s, w, ap.flg[..]).views;
      TookAll(d, s, w, ap.flg[..], i, blk - ap.baseblock);
      Record(before, file, blk);
    }

    // dcopy.c:704-728: on to a cylinder with room, if there is one.
    method NextCylinder(which: int, ghost s0: State) returns (found: bool, w: int, ghost s: State)
      requires Valid() && 0 <= which <= 1 && Sound(d, s0) && Live(s0, which) && s0.views[which].nalloc >= d.cyl
      requires Shaped(s0) && Now() == Bump(s0, which)
      modifies Footprint()
      ensures Valid() && log == old(log) && asked == old(asked)
      ensures found ==> Sound(d, s) && Shaped(s) && Remaining(d, s) == Remaining(d, s0) && Live(s, w) && s.views[w].nalloc < d.cyl
      ensures found ==> Now() == Bump(s, w) && all[w].baseblock == s.views[w].base
      ensures !found ==> Sound(d, Now()) && Remaining(d, Now()) == Remaining(d, s0) == {}
      ensures old(overlap) ==> !found && overlap && ovw == old(ovw)
      ensures !old(overlap) ==> (overlap <==> old(all[1].baseblock - all[0].baseblock) == d.cyl) && (!overlap ==> found)
      ensures overlap && !old(overlap) ==> ovw == 1 - which
      ensures found && overlap ==>
        w == ovw == 1 - which && s.views[w] == s0.views[w] && all[w].pblk == old(all[w].pblk)
      ensures found && !overlap ==>
        w == which && InRange(d, s.views[w].base) && s.views[w].base == s0.views[w].base + (if w == 1 then -d.cyl else d.cyl) && all[w].pblk == 1 &&
        |s.views[w].flg| == d.cyl && (forall k :: 0 <= k < d.cyl ==> !s.views[w].flg[k]) && unchanged(all[1 - w], all[1 - w].flg)
    {
      hide Sound, Remaining, Took, Moved, Bump;
      w, s := which, s0;
      BumpShape(s, w);
      while true
        invariant Valid() && 0 <= w <= 1 && log == old(log) && asked == old(asked)
        invariant Sound(d, s) && Shaped(s) && Remaining(d, s) == Remaining(d, s0) && Live(s, w)
        invariant s.views[w].nalloc >= d.cyl && (overlap || w == which)
        invariant Now() == Bump(s, w)
        invariant old(overlap) ==> overlap && ovw == old(ovw)
        invariant !overlap ==> s == s0 && unchanged(this, all[0], all[1], all[0].flg, all[1].flg)
        invariant overlap && !old(overlap) ==> ovw == 1 - which && old(all[1].baseblock - all[0].baseblock) == d.cyl
        decreases !overlap
      {
        Bumped(d, s, w);
        BumpShape(s, w);
        if overlap {
          Exhausted(d, s);
          found := false;
          return;
        }
        s := Now();
        w := Advance(which);
        MovedSound(d, s, which);
        MovedKeeps(d, s, which);
        MovedShape(d, s, which);
        s := Now();
        BumpShape(s, w);
        var nalloc := Count(all[w], w);
        if nalloc < d.cyl {
          found := true;
          return;
        }
      }
    }

    // dcopy.c:729-735: a_pblk++, and the slot to search from.
    method NextPlace(ap: Cylinder, run: bool) returns (i: nat)
      requires Valid() && ap in all
      modifies ap`pblk
      ensures i == (ap.lastb + if run || old(ap.pblk) < bsize then 1 else stepsize) % d.cyl
      ensures ap.pblk == if run || old(ap.pblk) < bsize then old(ap.pblk) + 1 else 1
    {
      var pblk := ap.pblk;
      ap.pblk := pblk + 1;
      if pblk < bsize || run {
        i := ap.lastb + 1;
      } else {
        ap.pblk := 1;
        i := ap.lastb + stepsize;
      }
      i := i % d.cyl;
    }

    // dcopy.c:692-762. The file is old or young; run says that it is to be
    // contiguous.
    method Alloc(old_: bool, run: bool) returns (blk: int)
      requires Valid() && Sound(d, Now())
      modifies Footprint()
      ensures Valid() && Sound(d, Now())
      ensures blk == 0 <==> old(Remaining(d, Now())) == {}
      ensures blk != 0 ==> blk in old(Remaining(d, Now()))
      ensures Remaining(d, Now()) == old(Remaining(d, Now())) - {blk}
      ensures log == old(log) + if blk == 0 then [] else [blk]
      ensures asked == old(asked) + if blk == 0 then [] else [(old_, run)]
      ensures old(Told()) ==> Told()
      // On a cylinder with room it is the first free slot from the one after
      // the last block on, or from stepsize slots after it.
      ensures
        var w := if old(overlap) then old(ovw) else if old_ then 1 else 0;
        var ap, was := all[w], old(all[w].pblk);
        var step := if run || was < bsize then 1 else stepsize;
        old(all[w].nalloc) < d.cyl ==>
          FirstFree(d, old(all[w].flg[..]), old(all[w].baseblock), (old(all[w].lastb) + step) % d.cyl, blk - ap.baseblock) &&
          ap.baseblock == old(all[w].baseblock) && ap.pblk == (if run || was < bsize then was + 1 else 1) &&
          ap.lastb == blk - ap.baseblock && overlap == old(overlap) && ovw == old(ovw) &&
          unchanged(all[1 - w], all[1 - w].flg)
      // Otherwise young files go one cylinder up and old ones one down, until
      // that is the cylinder of the others.
      ensures
        var w := if old_ then 1 else 0;
        var ap, met := all[w], old(all[1].baseblock - all[0].baseblock) == d.cyl;
        !old(overlap) && old(all[w].nalloc) >= d.cyl ==>
          overlap == met &&
          if met then
            ovw == 1 - w &&
            (blk != 0 ==> FirstFree(d, old(all[1 - w].flg[..]), old(all[1 - w].baseblock), 0, blk - old(all[1 - w].baseblock)))
          else
            blk == ap.baseblock == old(all[w].baseblock) + (if old_ then -d.cyl else d.cyl) &&
            ap.pblk == 1 && ap.lastb == 0 && unchanged(all[1 - w], all[1 - w].flg)
      ensures old(overlap) ==> overlap && ovw == old(ovw)
      ensures blk == 0 ==> overlap
      ensures !overlap ==>
        (if old_ then all[1].baseblock <= blk else blk < all[0].baseblock + d.cyl) &&
        old(all[0].baseblock) <= all[0].baseblock && all[1].baseblock <= old(all[1].baseblock)
    {
      hide Sound, Remaining, Next, TookSlot, Took, Moved, Bump, FirstFree, Kept;
      ghost var before := Now();
      var w, i := if overlap then ovw else if old_ then 1 else 0, 0;
      ghost var s, anew := Now(), false;
      BlocksAreReal(d, s);
      BumpShape(s, w);
      var nalloc := Count(all[w], w);
      if nalloc >= d.cyl {
        var found;
        found, w, s := NextCylinder(w, s);
        if !found {
          Unrecorded(before);
          return 0;
        }
        anew := !overlap;
      } else {
        i := NextPlace(all[w], run);
      }
      blk := TakeFrom(all[w], i, w, s, before, (old_, run));
      if anew { FreshFirst(d, s.views[w], blk - s.views[w].base); }
    }
  }

  lemma {:induction false} DataSize(d: Disk)
    requires d.fmin <= d.fsize
    ensures |DataBlocks(d)| == d.fsize - d.fmin
    decreases d.fsize - d.fmin
  {
    if d.fmin < d.fsize {
      var less := d.(fsize := d.fsize - 1);
      DataSize(less);
      assert DataBlocks(d) == DataBlocks(less) + {d.fsize - 1};
    }
  }

  // Of all, the blocks blks have gone and left remain.
  predicate HandedOut(all: set<int>, left: set<int>, blks: seq<int>) {
    (forall blk <- all :: blk in left || blk in blks) && left <= all &&
    (forall i :: 0 <= i < |blks| ==> blks[i] !in left) &&
    (forall i :: 0 <= i < |blks| ==> if i < |all| then blks[i] in all else blks[i] == 0) &&
    (forall i, j :: 0 <= i < j < |blks| && j < |all| ==> blks[i] != blks[j]) &&
    |left| == if |blks| < |all| then |all| - |blks| else 0
  }

  lemma HandOut(all: set<int>, left: set<int>, blks: seq<int>, blk: int)
    requires HandedOut(all, left, blks) && 0 !in all
    requires (blk == 0 <==> left == {}) && (blk != 0 ==> blk in left)
    ensures HandedOut(all, left - {blk}, blks + [blk])
  {
  }

  // The blocks among these answers of alloc(), and what they were for.
  function Given(blks: seq<int>): seq<int> {
    if |blks| == 0 then []
    else
      var n := |blks| - 1;
      Given(blks[..n]) + if blks[n] == 0 then [] else [blks[n]]
  }

  function Asked(files: seq<(bool, bool)>, blks: seq<int>): seq<(bool, bool)>
    requires |blks| <= |files|
  {
    if |blks| == 0 then []
    else
      var n := |blks| - 1;
      Asked(files, blks[..n]) + if blks[n] == 0 then [] else [files[n]]
  }

  lemma GivenMore(files: seq<(bool, bool)>, blks: seq<int>, blk: int)
    requires |blks| < |files|
    ensures Given(blks + [blk]) == Given(blks) + if blk == 0 then [] else [blk]
    ensures Asked(files, blks + [blk]) == Asked(files, blks) + if blk == 0 then [] else [files[|blks|]]
  {
    assert (blks + [blk])[..|blks|] == blks;
  }

  lemma {:induction false} GivenAre(files: seq<(bool, bool)>, blks: seq<int>, n: nat)
    requires |blks| <= |files| && forall i :: 0 <= i < |blks| ==> (blks[i] != 0 <==> i < n)
    ensures
      var k := if n < |blks| then n else |blks|;
      Given(blks) == blks[..k] && Asked(files, blks) == files[..k]
    decreases |blks|
  {
    if |blks| > 0 {
      var m := |blks| - 1;
      GivenAre(files, blks[..m], n);
      if m < n { assert blks == blks[..m] + [blks[m]] && files[..m + 1] == files[..m] + [files[m]]; }
    }
  }

  // When all blocks have gone none is left to be had.
  lemma AllGone(d: Disk, left: set<int>, blks: seq<int>, m: nat)
    requires HandedOut(DataBlocks(d), left, blks) && 0 !in DataBlocks(d) && |DataBlocks(d)| <= m <= |blks|
    ensures !Wide(d, blks[..m])
  {
    forall x | InRange(d, x) ensures x in blks[..m] {
      assert x in DataBlocks(d);
      assert x in blks;
      var j :| 0 <= j < |blks| && blks[j] == x;
      assert blks[..m][j] == x;
    }
  }

  lemma FilesTwoEnds(d: Disk, left: set<int>, files: seq<(bool, bool)>, blks: seq<int>)
    requires HandedOut(DataBlocks(d), left, blks) && 0 !in DataBlocks(d) && |blks| == |files|
    requires TwoEnds(d, Asked(files, blks), Given(blks))
    ensures TwoEnds(d, files, blks)
  {
    var n := |DataBlocks(d)|;
    var k := if n < |blks| then n else |blks|;
    Answers(d, left, blks);
    GivenAre(files, blks, n);
    hide HandedOut, DataBlocks, Given, Asked, Wide, BelowTheOld;
    forall m | 0 <= m <= |blks| && Wide(d, blks[..m]) ensures BelowTheOld(files, blks, m) {
      if m >= n { AllGone(d, left, blks, m); }
      assert m <= k && blks[..k][..m] == blks[..m];
      BelowAll(files, blks, k, m);
    }
  }

  lemma Answers(d: Disk, left: set<int>, blks: seq<int>)
    requires HandedOut(DataBlocks(d), left, blks) && 0 !in DataBlocks(d)
    ensures forall i :: 0 <= i < |blks| ==> (blks[i] != 0 <==> i < |DataBlocks(d)|)
  {
    hide DataBlocks;
  }

  lemma BelowAll(files: seq<(bool, bool)>, blks: seq<int>, k: nat, m: nat)
    requires m <= k <= |blks| == |files| && BelowTheOld(files[..k], blks[..k], m)
    ensures BelowTheOld(files, blks, m)
  {
    forall i, j | 0 <= i < m && 0 <= j < m && !files[i].0 && files[j].0 ensures blks[i] < blks[j] {
      assert !files[..k][i].0 && files[..k][j].0 && blks[..k][i] < blks[..k][j];
    }
  }

  lemma NothingYet(d: Disk, files: seq<(bool, bool)>)
    ensures HandedOut(DataBlocks(d), DataBlocks(d), []) && Given([]) == [] && Asked(files, []) == []
  {
  }

  lemma KeptTwoEnds(d: Disk, asked: seq<(bool, bool)>, log: seq<int>, s: State)
    requires Kept(d, asked, log, s)
    ensures TwoEnds(d, asked, log)
  {
  }

  // alloc() for one file's block after the other.
  method AllocateFiles(d: Disk, stepsize: nat, bsize: int, files: seq<(bool, bool)>) returns (a: Allocator, blks: seq<int>)
    requires Fits(d)
    ensures fresh(a) && a.Valid() && a.d == d && Sound(d, a.Now()) && fresh(a.Footprint()) && |blks| == |files|
    ensures HandedOut(DataBlocks(d), Remaining(d, a.Now()), blks) && a.log == Given(blks) && a.asked == Asked(files, blks)
    ensures TwoEnds(d, files, blks) && a.Told()
  {
    hide Sound, Remaining, HandedOut, DataBlocks, Start, TwoEnds, Kept, Given, Asked;
    a := new Allocator(d, stepsize, bsize);
    StartSound(d);
    KeptNone(d, a.Now());
    blks := [];
    NothingYet(d, files);
    NoBlockZero(d);
    for k := 0 to |files|
      invariant a.Valid() && a.d == d && Sound(d, a.Now()) && |blks| == k && fresh(a.Footprint()) && a.Told()
      invariant HandedOut(DataBlocks(d), Remaining(d, a.Now()), blks) && a.log == Given(blks) && a.asked == Asked(files, blks)
    {
      ghost var left := Remaining(d, a.Now());
      var blk := a.Alloc(files[k].0, files[k].1);
      HandOut(DataBlocks(d), left, blks, blk);
      GivenMore(files, blks, blk);
      blks := blks + [blk];
    }
    KeptTwoEnds(d, a.asked, a.log, a.Now());
    FilesTwoEnds(d, Remaining(d, a.Now()), files, blks);
  }

  // Young or old, contiguous or not: however the files come, alloc() hands out
  // every block of the data area once, then none.
  method AllocateAll(d: Disk, stepsize: nat, bsize: int, files: seq<(bool, bool)>) returns (blks: seq<int>)
    requires Fits(d)
    ensures |blks| == |files|
    ensures forall i :: 0 <= i < |blks| ==> if i < d.fsize - d.fmin then InRange(d, blks[i]) else blks[i] == 0
    ensures forall i, j :: 0 <= i < j < |blks| && j < d.fsize - d.fmin ==> blks[i] != blks[j]
    ensures |files| >= d.fsize - d.fmin ==> forall blk | InRange(d, blk) :: blk in blks
    ensures
      forall m, x, y, i, j | 0 <= m <= |blks| && InRange(d, x) && InRange(d, y) && x + d.cyl <= y && 0 <= i < m && 0 <= j < m ::
        x !in blks[..m] && y !in blks[..m] && !files[i].0 && files[j].0 ==> blks[i] < blks[j]
  {
    hide Sound, Remaining;
    var a;
    a, blks := AllocateFiles(d, stepsize, bsize, files);
    DataSize(d);
  }

  lemma NoBlockZero(d: Disk)
    requires d.fmin > 0
    ensures 0 !in DataBlocks(d)
  {
  }
}
