// mkfs.c's bflist(): the first free list of a new file system, laid out so that
// blocks taken one after the other are f_m apart on their cylinder of f_n.

module Interleave {
  import opened BitStrings
  import opened FreeList
  import opened Permutations

  // ---------- the order of the blocks on a cylinder

  // Slot i + step of a cylinder of n.
  function Around(i: nat, step: nat, n: nat): (r: nat)
    requires n > 0
    ensures r < n && (i < n && step == 1 ==> r == if i + 1 == n then 0 else i + 1)
  {
    (i + step) % n
  }

  // The first slot from i on, around the cylinder, that is not taken.
  function Probe(taken: seq<int>, i: nat, n: nat, tries: nat): (r: int)
    requires i < n
    ensures r == -1 || (0 <= r < n && r !in taken)
    decreases tries
  {
    if tries == 0 then -1 else if i !in taken then i else Probe(taken, Around(i, 1, n), n, tries - 1)
  }

  // The first j slots in order, m apart where they are not taken.
  function Slots(n: nat, m: nat, j: nat): (s: seq<int>)
    requires j <= n
    ensures |s| == j && forall k :: 0 <= k < j ==> -1 <= s[k] < n
  {
    if j == 0 then []
    else
      var s := Slots(n, m, j - 1);
      s + [Probe(s, if j == 1 || s[j - 2] < 0 then 0 else Around(s[j - 2], m, n), n, n)]
  }

  lemma {:induction false} ProbeFinds(taken: seq<int>, i: nat, n: nat, tries: nat, k: nat)
    requires i < n && k < n && k !in taken && tries > if k >= i then k - i else k - i + n
    ensures Probe(taken, i, n, tries) >= 0
    decreases tries
  {
    if i != k {
      ProbeFinds(taken, Around(i, 1, n), n, tries - 1, k);
    }
  }

  // No slot that is not taken is passed over.
  lemma {:induction false} ProbeIsFirst(taken: seq<int>, i: nat, n: nat, tries: nat, q: int)
    requires i < n && Probe(taken, i, n, tries) >= 0 && 0 <= q < n
    requires var r := Probe(taken, i, n, tries); if i <= r then i <= q < r else i <= q || q < r
    ensures q in taken
    decreases tries
  {
    if i in taken && q != i { ProbeIsFirst(taken, Around(i, 1, n), n, tries - 1, q); }
  }

  // Whatever the gap and the size, the probe ends and every slot gets its turn.
  lemma {:induction false} SlotsDistinct(n: nat, m: nat, j: nat)
    requires j <= n
    ensures SomeSlots(Slots(n, m, j), n)
  {
    if j > 0 {
      SlotsDistinct(n, m, j - 1);
      var s := Slots(n, m, j - 1);
      var k := SlotLeft(s, n);
      var i := if j == 1 || s[j - 2] < 0 then 0 else Around(s[j - 2], m, n);
      ProbeFinds(s, i, n, n, k);
    }
  }

  lemma SlotsPermutation(n: nat, m: nat, k: nat)
    requires k < n
    ensures SomeSlots(Slots(n, m, n), n) && k in Slots(n, m, n)
  {
    SlotsDistinct(n, m, n);
    AllSlots(Slots(n, m, n), n, k);
  }

  // ---------- the list

  // What is freed of the cylinder below d, adr[k - 1] last and so to be taken first.
  function Cylinder(adr: seq<int>, d: int, lo: int, hi: int, k: nat): seq<int>
    requires k <= |adr|
  {
    if k == 0 then []
    else
      var f := d - adr[k - 1];
      (if lo <= f < hi then [f] else []) + Cylinder(adr, d, lo, hi, k - 1)
  }

  // The cylinders from the one below d up to the one below top.
  function Laid(adr: seq<int>, d: int, top: int, lo: int, hi: int): seq<int>
    decreases top - d
  {
    if d > top || |adr| == 0 then [] else Cylinder(adr, d, lo, hi, |adr|) + Laid(adr, d + |adr|, top, lo, hi)
  }

  // adr holds 1 to n in some order.
  predicate IsOrder(adr: seq<int>, n: nat) {
    |adr| == n && Distinct(adr) && (forall a <- adr :: 1 <= a <= n) && forall a :: 1 <= a <= n ==> a in adr
  }

  lemma {:induction false} CylinderHolds(adr: seq<int>, d: int, lo: int, hi: int, k: nat, f: int)
    requires k <= |adr| && Distinct(adr)
    ensures f in Cylinder(adr, d, lo, hi, k) <==> lo <= f < hi && d - f in adr[..k]
    ensures Distinct(Cylinder(adr, d, lo, hi, k))
    decreases k
  {
    if k > 0 {
      var g := d - adr[k - 1];
      CylinderHolds(adr, d, lo, hi, k - 1, f);
      CylinderHolds(adr, d, lo, hi, k - 1, g);
      assert adr[..k] == adr[..k - 1] + [adr[k - 1]];
      assert adr[k - 1] !in adr[..k - 1];
    }
  }

  lemma {:induction false} LaidHolds(adr: seq<int>, n: nat, d: int, top: int, lo: int, hi: int, f: int)
    requires n > 0 && IsOrder(adr, n) && (d <= top ==> (top - d) % n == 0)
    ensures f in Laid(adr, d, top, lo, hi) <==> lo <= f < hi && d - n <= f < top && d <= top
    ensures Distinct(Laid(adr, d, top, lo, hi))
    decreases top - d
  {
    if d <= top {
      var c, rest := Cylinder(adr, d, lo, hi, n), Laid(adr, d + n, top, lo, hi);
      NextCylinder(top, d, n);
      LaidHolds(adr, n, d + n, top, lo, hi, f);
      CylinderHolds(adr, d, lo, hi, n, f);
      assert adr[..n] == adr;
      forall i, j | 0 <= i < |c| && 0 <= j < |rest| ensures c[i] != rest[j] {
        LaidHolds(adr, n, d + n, top, lo, hi, rest[j]);
        CylinderHolds(adr, d, lo, hi, n, c[i]);
      }
    }
  }

  lemma NextCylinder(top: int, d: int, n: int)
    requires n > 0 && (top - d) % n == 0 && d <= top
    ensures d + n <= top ==> (top - (d + n)) % n == 0
    ensures d + n > top ==> d == top
  {
    var q := (top - d) / n;
    assert top - d == q * n;
    if q > 0 {
      DivUnique(top - (d + n), n, q - 1, 0);
    }
  }

  // adr[]: the slots, counted from 1.
  function Order(n: nat, m: nat): (adr: seq<int>)
    ensures |adr| == n
  {
    seq(n, k requires 0 <= k < n => Slots(n, m, n)[k] + 1)
  }

  lemma OrderIsPermutation(n: nat, m: nat)
    ensures IsOrder(Order(n, m), n)
  {
    var s, adr := Slots(n, m, n), Order(n, m);
    SlotsDistinct(n, m, n);
    hide Slots;
    forall a | 1 <= a <= n ensures a in adr {
      AllSlots(s, n, a - 1);
      var k :| 0 <= k < n && s[k] == a - 1;
      assert adr[k] == a;
    }
    forall a | a in adr ensures 1 <= a <= n {
      var k :| 0 <= k < n && adr[k] == a;
      assert s[k] in s;
    }
  }

  lemma {:induction false} SlotsBegin(n: nat, m: nat, j: nat, k: nat)
    requires k <= j <= n
    ensures Slots(n, m, j)[..k] == Slots(n, m, k)
    decreases j
  {
    if k < j { SlotsBegin(n, m, j - 1, k); }
  }

  // The order begins with 1 and goes on m places further, around the cylinder,
  // or at the first place after that which had no turn yet.
  lemma OrderGap(n: nat, m: nat, k: nat)
    requires k < n
    ensures Order(n, m)[0] == 1 && Order(n, m)[k] !in Order(n, m)[..k]
    ensures k > 0 ==>
      var adr := Order(n, m);
      var t, r := (adr[k - 1] - 1 + m) % n + 1, adr[k];
      forall a :: 1 <= a <= n && (if t <= r then t <= a < r else t <= a || a < r) ==> a in adr[..k]
  {
    hide Slots, Probe, Around;
    OrderIsPermutation(n, m);
    FirstIs(n, m);
    if k > 0 {
      var adr := Order(n, m);
      var t, r := (adr[k - 1] - 1 + m) % n + 1, adr[k];
      GapStep(n, m, k, t - 1);
      forall a | 1 <= a <= n && (if t <= r then t <= a < r else t <= a || a < r) ensures a in adr[..k] {
        ProbeIsFirst(Slots(n, m, k), t - 1, n, n, a - 1);
        TurnIs(n, m, k, a);
      }
    }
  }

  lemma FirstIs(n: nat, m: nat)
    requires n > 0
    ensures Order(n, m)[0] == 1
  {
    SlotsBegin(n, m, n, 1);
    assert Slots(n, m, n)[0] == Slots(n, m, 1)[0];
  }

  lemma TurnIs(n: nat, m: nat, k: nat, a: int)
    requires k <= n && a - 1 in Slots(n, m, k)
    ensures a in Order(n, m)[..k]
  {
    SlotsBegin(n, m, n, k);
    hide Slots;
    var j :| 0 <= j < k && Slots(n, m, k)[j] == a - 1;
    assert Slots(n, m, n)[..k][j] == Slots(n, m, n)[j];
    assert Order(n, m)[..k][j] == a;
  }

  lemma GapStep(n: nat, m: nat, k: nat, t: int)
    requires 0 < k < n && t == (Order(n, m)[k - 1] - 1 + m) % n
    ensures Order(n, m)[k] - 1 == Probe(Slots(n, m, k), t, n, n) >= 0
  {
    SlotIs(n, m, k - 1, k);
    SlotIs(n, m, k, k + 1);
    SlotsMore(n, m, k);
    hide Slots, Probe, Order;
  }

  lemma SlotIs(n: nat, m: nat, k: nat, j: nat)
    requires k < j <= n
    ensures Slots(n, m, j)[k] == Order(n, m)[k] - 1 >= 0
  {
    SlotsBegin(n, m, n, j);
    SlotsDistinct(n, m, n);
    hide Slots;
    assert Slots(n, m, n)[..j][k] == Slots(n, m, n)[k];
    assert Slots(n, m, n)[k] in Slots(n, m, n);
  }

  // bflist() starts with the last block, rounded up to a whole cylinder.
  function Top(fsize: int, n: int): int
    requires n > 0
  {
    if (fsize - 1) % n == 0 then fsize - 1 else fsize - 1 - (fsize - 1) % n + n
  }

  lemma TopIs(fsize: int, n: int)
    requires n > 0 && fsize > 0
    ensures Top(fsize, n) % n == 0 && fsize - 1 <= Top(fsize, n) < fsize - 1 + n
  {
    var q, r := (fsize - 1) / n, (fsize - 1) % n;
    assert fsize - 1 == q * n + r;
    if r != 0 {
      assert (q + 1) * n == q * n + n;
      DivUnique((q + 1) * n, n, q + 1, 0);
    }
  }

  // Two multiples less than n apart are one.
  lemma OneMultiple(a: int, b: int, n: int)
    requires n > 0 && a % n == 0 && b % n == 0 && a <= b < a + n
    ensures a == b
  {
    var p, q := a / n, b / n;
    assert a == p * n && b == q * n;
    assert b - a == (q - p) * n;
    if q > p { MulAtLeast(q - p, n); }
    if q < p { MulAtLeast(p - q, n); }
  }

  // The multiple before.
  lemma StepDown(d: int, n: int, top: int)
    requires Lined(d, top, n) && d > 0
    ensures d <= top && Lined(d - n, top, n) && d - n >= 0
  {
    OneLess(d, n);
    OneLonger(top - d, n);
  }

  lemma OneLess(d: int, n: int)
    requires n > 0 && d > 0 && d % n == 0
    ensures d - n >= 0 && (d - n) % n == 0
  {
    var q := d / n;
    assert d == q * n;
    assert q >= 1;
    assert (q - 1) * n == q * n - n;
    DivUnique(d - n, n, q - 1, 0);
    if q > 1 { MulAtLeast(q - 1, n); }
  }

  lemma OneLonger(d: int, n: int)
    requires n > 0 && d % n == 0
    ensures (d + n) % n == 0
  {
    var q := d / n;
    assert d == q * n && (q + 1) * n == q * n + n;
    DivUnique(d + n, n, q + 1, 0);
  }

  // adr[] up to j, and flg[] with it.
  predicate Ordering(flg: seq<bool>, adr: seq<int>, n: nat, m: nat, j: nat, i: int) {
    |flg| == |adr| == n && j <= n &&
    var s := Slots(n, m, j);
    SomeSlots(s, n) && (forall k :: 0 <= k < n ==> (flg[k] <==> k in s)) &&
    (forall k :: 0 <= k < j ==> adr[k] == s[k] + 1) &&
    i == if j == 0 || s[j - 1] < 0 then 0 else Around(s[j - 1], m, n)
  }

  lemma OrderStep(flg: seq<bool>, adr: seq<int>, n: nat, m: nat, j: nat, i: int, r: int)
    requires Ordering(flg, adr, n, m, j, i) && j < n && 0 <= i < n && r == Probe(Slots(n, m, j), i, n, n)
    ensures 0 <= r < n && Ordering(flg[r := true], adr[j := r + 1], n, m, j + 1, Around(r, m, n))
  {
    SlotsDistinct(n, m, j);
    SlotsDistinct(n, m, j + 1);
    SlotsMore(n, m, j);
    var s := Slots(n, m, j);
    var k := SlotLeft(s, n);
    ProbeFinds(s, i, n, n, k);
    hide Slots, Probe, Around, SomeSlots;
    assert forall x :: 0 <= x < n && x != r ==> (x in s <==> x in s + [r]);
  }

  lemma SlotsMore(n: nat, m: nat, j: nat)
    requires j < n
    ensures
      var s := Slots(n, m, j);
      var i := if j == 0 || s[j - 1] < 0 then 0 else Around(s[j - 1], m, n);
      Slots(n, m, j + 1) == s + [Probe(s, i, n, n)]
  {
    hide Probe, Around;
  }

  lemma OrderDone(flg: seq<bool>, adr: seq<int>, n: nat, m: nat, i: int)
    requires Ordering(flg, adr, n, m, n, i)
    ensures adr == Order(n, m)
  {
  }

  lemma FlagsAre(flg: seq<bool>, adr: seq<int>, n: nat, m: nat, j: nat, i: int)
    requires Ordering(flg, adr, n, m, j, i)
    ensures |flg| == |adr| == n && forall k :: 0 <= k < n ==> (flg[k] <==> k in Slots(n, m, j))
  {
  }

  lemma ProbeOn(taken: seq<int>, i: nat, n: nat, tries: nat)
    requires i < n && Probe(taken, i, n, tries) >= 0
    ensures tries > 0
    ensures i in taken ==> Probe(taken, i, n, tries) == Probe(taken, Around(i, 1, n), n, tries - 1)
    ensures i !in taken ==> Probe(taken, i, n, tries) == i
  {
  }

  // mkfs.c:734-735.
  method FreeSlot(flg: array<bool>, i0: nat, ghost s: seq<int>) returns (i: nat)
    requires i0 < flg.Length && Probe(s, i0, flg.Length, flg.Length) >= 0
    requires forall k :: 0 <= k < flg.Length ==> (flg[k] <==> k in s)
    ensures i < flg.Length && i == Probe(s, i0, flg.Length, flg.Length)
  {
    hide Probe, Around;
    var n := flg.Length;
    ghost var tries := n;
    i := i0;
    while flg[i]
      invariant i < n && tries >= 0 && Probe(s, i, n, tries) == Probe(s, i0, n, n)
      decreases tries
    {
      ProbeOn(s, i, n, tries);
      i := Around(i, 1, n);
      tries := tries - 1;
    }
    ProbeOn(s, i, n, tries);
  }

  // mkfs.c:730-739.
  method MakeOrder(f_n: nat, f_m: nat) returns (adr: array<int>)
    requires f_n > 0
    ensures fresh(adr) && adr[..] == Order(f_n, f_m)
  {
    hide Ordering, Slots, Probe, Around, Order;
    var flg := new bool[f_n](_ => false);
    adr := new int[f_n](_ => 0);
    var i := 0;
    OrderBegins(flg[..], adr[..], f_n, f_m);
    for j := 0 to f_n
      invariant 0 <= i < f_n && Ordering(flg[..], adr[..], f_n, f_m, j, i)
    {
      ghost var s, r := Slots(f_n, f_m, j), Probe(Slots(f_n, f_m, j), i, f_n, f_n);
      ghost var flg0, adr0 := flg[..], adr[..];
      OrderStep(flg0, adr0, f_n, f_m, j, i, r);
      FlagsAre(flg0, adr0, f_n, f_m, j, i);
      i := FreeSlot(flg, i, s);
      adr[j] := i + 1;
      flg[i] := true;
      assert flg[..] == flg0[r := true] && adr[..] == adr0[j := r + 1];
      i := Around(i, f_m, f_n);
    }
    OrderDone(flg[..], adr[..], f_n, f_m, i);
  }

  lemma OrderBegins(flg: seq<bool>, adr: seq<int>, n: nat, m: nat)
    requires |flg| == |adr| == n && forall k :: 0 <= k < n ==> !flg[k]
    ensures Ordering(flg, adr, n, m, 0, 0)
  {
  }

  lemma CylinderNone(adr: seq<int>, d: int, lo: int, hi: int, rest: seq<int>)
    ensures Cylinder(adr, d, lo, hi, 0) + rest == rest
  {
  }

  lemma CylinderStep(adr: seq<int>, d: int, lo: int, hi: int, i: nat, rest: seq<int>)
    requires i < |adr|
    ensures
      var f := d - adr[i];
      Cylinder(adr, d, lo, hi, i + 1) + rest ==
      if lo <= f < hi then [f] + (Cylinder(adr, d, lo, hi, i) + rest) else Cylinder(adr, d, lo, hi, i) + rest
  {
  }

  lemma LaidStep(adr: seq<int>, d: int, top: int, lo: int, hi: int)
    requires d <= top && |adr| > 0
    ensures Laid(adr, d, top, lo, hi) == Cylinder(adr, d, lo, hi, |adr|) + Laid(adr, d + |adr|, top, lo, hi)
  {
  }

  lemma LaidNone(adr: seq<int>, d: int, top: int, lo: int, hi: int)
    requires d > top
    ensures Laid(adr, d, top, lo, hi) == []
  {
  }

  // d is the top of a cylinder, or 0.
  predicate Lined(d: int, top: int, n: int) {
    n > 0 && 0 <= d <= top && d % n == 0 && (top - d) % n == 0
  }

  // mkfs.c:757-759.
  method RoundUp(fsize: int, f_n: nat) returns (d: int)
    requires f_n > 0 && fsize > 1
    ensures d == Top(fsize, f_n) > 0 && Lined(d, d, f_n)
  {
    d := fsize - 1;
    TopIs(fsize, f_n);
    while d % f_n != 0
      invariant fsize - 1 <= d <= Top(fsize, f_n)
      decreases Top(fsize, f_n) - d
    {
      d := d + 1;
    }
    OneMultiple(d, Top(fsize, f_n), f_n);
  }

  // mkfs.c:755-775: frees every block from isize on, up to the last one or the
  // one before it, just once.
  method Bflist(fs: FileSystem, f_n: nat, f_m: nat, isize: int, fsize: int)
    requires fs.Valid() && fs.list == [] && f_n > 0 && 0 < isize < fsize
    modifies fs, fs.free
    ensures fs.Valid() && fs.tfree == |fs.list|
    ensures fs.list == Laid(Order(f_n, f_m), f_n, Top(fsize, f_n), isize, fsize)
  {
    hide Laid, Cylinder, Order, Top, IsOrder, Distinct, Chain, Lined;
    var adr := MakeOrder(f_n, f_m);
    fs.tfree := 0;
    var d := RoundUp(fsize, f_n);
    ghost var order, top := adr[..], d;
    OrderIsPermutation(f_n, f_m);
    LaidNone(order, d + f_n, top, isize, fsize);
    while d > 0
      invariant fs.Valid() && fs.tfree == |fs.list| && adr[..] == order && Lined(d, top, f_n) && d >= 0
      invariant fs.list == Laid(order, d + f_n, top, isize, fsize)
    {
      CylinderNone(order, d, isize, fsize, Laid(order, d + f_n, top, isize, fsize));
      for i := 0 to f_n
        invariant fs.Valid() && fs.tfree == |fs.list| && adr[..] == order
        invariant fs.list == Cylinder(order, d, isize, fsize, i) + Laid(order, d + f_n, top, isize, fsize)
      {
        var f := d - adr[i];
        if f < fsize && f >= isize {
          NotYet(order, f_n, d, top, isize, fsize, i, f);
          fs.Bfree(f);
        }
        CylinderStep(order, d, isize, fsize, i, Laid(order, d + f_n, top, isize, fsize));
      }
      StepDown(d, f_n, top);
      LaidStep(order, d, top, isize, fsize);
      d := d - f_n;
    }
  }

  lemma NotYet(adr: seq<int>, n: nat, d: int, top: int, lo: int, hi: int, i: nat, f: int)
    requires IsOrder(adr, n) && Lined(d, top, n) && i < n && f == d - adr[i]
    ensures f !in Cylinder(adr, d, lo, hi, i) + Laid(adr, d + n, top, lo, hi)
  {
    NextCylinder(top, d, n);
    CylinderHolds(adr, d, lo, hi, i, f);
    LaidHolds(adr, n, d + n, top, lo, hi, f);
    assert adr[i] in adr && adr[i] !in adr[..i];
  }

  // The new list holds each block from isize on once, but it lacks the very last
  // block just when the cylinder size divides that block's number.
  lemma FreshList(n: nat, m: nat, isize: int, fsize: int, f: int)
    requires n > 0 && 0 < isize < fsize
    ensures
      var list := Laid(Order(n, m), n, Top(fsize, n), isize, fsize);
      Distinct(list) && (f in list <==> isize <= f < fsize && f < Top(fsize, n))
    ensures
      var list := Laid(Order(n, m), n, Top(fsize, n), isize, fsize);
      fsize - 1 in list <==> (fsize - 1) % n != 0
  {
    var top := Top(fsize, n);
    OrderIsPermutation(n, m);
    TopIs(fsize, n);
    if n <= top { FirstCylinder(top, n); }
    LaidHolds(Order(n, m), n, n, top, isize, fsize, f);
    LaidHolds(Order(n, m), n, n, top, isize, fsize, fsize - 1);
    if n > top { OneMultiple(0, top, n); }
  }

  lemma {:induction false} CylinderPlaces(adr: seq<int>, d: int, lo: int, hi: int, k: nat, i: nat, j: nat) returns (p: nat, q: nat)
    requires k <= |adr| && i < j < |Cylinder(adr, d, lo, hi, k)|
    ensures q < p < k
    ensures Cylinder(adr, d, lo, hi, k)[i] == d - adr[p] && Cylinder(adr, d, lo, hi, k)[j] == d - adr[q]
    decreases k
  {
    if k > 0 { CylinderStep(adr, d, lo, hi, k - 1, []); }
    CylinderNone(adr, d, lo, hi, []);
    hide *;
    var x := if lo <= d - adr[k - 1] < hi then 1 else 0;
    if i < x {
      p := k - 1;
      q := CylinderPlace(adr, d, lo, hi, k - 1, j - x);
    } else {
      p, q := CylinderPlaces(adr, d, lo, hi, k - 1, i - x, j - x);
    }
  }

  lemma {:induction false} CylinderPlace(adr: seq<int>, d: int, lo: int, hi: int, k: nat, i: nat) returns (p: nat)
    requires k <= |adr| && i < |Cylinder(adr, d, lo, hi, k)|
    ensures p < k && Cylinder(adr, d, lo, hi, k)[i] == d - adr[p]
    decreases k
  {
    if k > 0 { CylinderStep(adr, d, lo, hi, k - 1, []); }
    CylinderNone(adr, d, lo, hi, []);
    hide *;
    var x := if lo <= d - adr[k - 1] < hi then 1 else 0;
    if i < x {
      p := k - 1;
    } else {
      p := CylinderPlace(adr, d, lo, hi, k - 1, i - x);
    }
  }

  // f comes before g: its cylinder is a lower one, or the same and adr names
  // f's place there after that of g.
  predicate Before(adr: seq<int>, n: int, f: int, g: int)
    requires n > 0
  {
    f / n < g / n ||
    (f / n == g / n && exists p, q | 0 <= q < p < |adr| :: adr[p] == n - f % n && adr[q] == n - g % n)
  }

  // adr[p] is a block of the cylinder below d.
  lemma PlaceOf(adr: seq<int>, n: int, d: int, p: int)
    requires n > 0 && d % n == 0 && IsOrder(adr, n) && 0 <= p < n
    ensures (d - adr[p]) / n == d / n - 1 && n - (d - adr[p]) % n == adr[p]
  {
    var a := adr[p];
    assert a in adr;
    hide IsOrder;
    var q := d / n;
    assert d == q * n && (q - 1) * n == q * n - n;
    DivUnique(d - a, n, q - 1, n - a);
  }

  lemma {:induction false} LaidOrder(adr: seq<int>, n: nat, d: int, top: int, lo: int, hi: int, i: nat, j: nat)
    requires n > 0 && IsOrder(adr, n) && d % n == 0 && (d <= top ==> (top - d) % n == 0)
    requires i < j < |Laid(adr, d, top, lo, hi)|
    ensures Before(adr, n, Laid(adr, d, top, lo, hi)[i], Laid(adr, d, top, lo, hi)[j])
    decreases top - d
  {
    if d > top { LaidNone(adr, d, top, lo, hi); }
    LaidStep(adr, d, top, lo, hi);
    hide Laid, Cylinder, IsOrder;
    var c, rest := Cylinder(adr, d, lo, hi, n), Laid(adr, d + n, top, lo, hi);
    var f, g := Laid(adr, d, top, lo, hi)[i], Laid(adr, d, top, lo, hi)[j];
    NextCylinder(top, d, n);
    OneLonger(d, n);
    if i >= |c| {
      LaidOrder(adr, n, d + n, top, lo, hi, i - |c|, j - |c|);
    } else if j < |c| {
      var p, q := CylinderPlaces(adr, d, lo, hi, n, i, j);
      PlaceOf(adr, n, d, p);
      PlaceOf(adr, n, d, q);
    } else {
      var p := CylinderPlace(adr, d, lo, hi, n, i);
      PlaceOf(adr, n, d, p);
      assert g == rest[j - |c|] && g in rest;
      LaidHolds(adr, n, d + n, top, lo, hi, g);
      Quotient(d, g, n);
    }
  }

  lemma Quotient(d: int, g: int, n: int)
    requires n > 0 && d <= g
    ensures d / n <= g / n
  {
    if d / n > g / n {
      assert d == d / n * n + d % n && g == g / n * n + g % n;
      assert (d / n - g / n) * n == d / n * n - g / n * n;
      MulAtLeast(d / n - g / n, n);
    }
  }

  // Blocks are taken cylinder by cylinder from the lowest up, and on a cylinder
  // in the order of adr, the last of it first.
  lemma FreshOrder(n: nat, m: nat, isize: int, fsize: int, i: nat, j: nat)
    requires n > 0 && 0 < isize < fsize && i < j < |Laid(Order(n, m), n, Top(fsize, n), isize, fsize)|
    ensures
      var list := Laid(Order(n, m), n, Top(fsize, n), isize, fsize);
      list[i] / n < list[j] / n ||
      (list[i] / n == list[j] / n &&
       exists p, q | 0 <= q < p < n :: Order(n, m)[p] == n - list[i] % n && Order(n, m)[q] == n - list[j] % n)
  {
    OrderIsPermutation(n, m);
    TopIs(fsize, n);
    if n <= Top(fsize, n) { FirstCylinder(Top(fsize, n), n); }
    DivUnique(n, n, 1, 0);
    LaidOrder(Order(n, m), n, n, Top(fsize, n), isize, fsize, i, j);
  }

  lemma FirstCylinder(top: int, n: int)
    requires n > 0 && top >= n && top % n == 0
    ensures (top - n) % n == 0
  {
    var q := top / n;
    assert top == q * n && (q - 1) * n == q * n - n;
    DivUnique(top - n, n, q - 1, 0);
  }
}
