// Canonical codes.  pack.c:273-285 numbers the codewords level by level from
// the deepest level up; unpack.c:122-132 and 157-189 find them again from the
// number of leaves on each level alone.

module Canon {
  import opened BitStrings
  import opened PrefixCodes
  import opened Forest

  // How many of the symbols below c have length lev.
  function LevCount(len: seq<int>, lev: int, c: nat): nat
    requires c <= |len|
  {
    if c == 0 then 0 else LevCount(len, lev, c - 1) + if len[c - 1] == lev then 1 else 0
  }

  lemma {:induction false} LevCountFrame(a: seq<int>, b: seq<int>, lev: int, c: nat)
    requires c <= |a| && c <= |b| && a[..c] == b[..c]
    ensures LevCount(a, lev, c) == LevCount(b, lev, c)
  {
    if c > 0 {
      assert a[..c][c - 1] == b[..c][c - 1];
      assert a[..c - 1] == a[..c][..c - 1] && b[..c - 1] == b[..c][..c - 1];
      LevCountFrame(a, b, lev, c - 1);
    }
  }

  // The part of the code space, in units of 2^-lev, taken by the symbols below
  // c whose codewords have at most lev bits.
  function Taken(len: seq<int>, lev: nat, c: nat): nat
    requires c <= |len|
  {
    if c == 0 then 0
    else Taken(len, lev, c - 1) + if 1 <= len[c - 1] <= lev then Pow2(lev - len[c - 1]) else 0
  }

  // Lengths that can be told apart and waste nothing, END being a deepest leaf.
  predicate CodeLengths(len: seq<int>, maxlev: nat) {
    |len| == END + 1 && 1 <= maxlev == len[END] &&
    (forall c :: 0 <= c <= END ==> 0 <= len[c] <= maxlev) &&
    Taken(len, maxlev, END + 1) == Pow2(maxlev)
  }

  lemma {:induction false} TakenStep(len: seq<int>, lev: nat, c: nat)
    requires c <= |len| && lev >= 1
    ensures Taken(len, lev, c) == 2 * Taken(len, lev - 1, c) + LevCount(len, lev, c)
  {
    if c > 0 {
      TakenStep(len, lev, c - 1);
      assert len[c - 1] == lev ==> Pow2(0) == 1;
    }
  }

  lemma {:induction false} TakenBound(len: seq<int>, maxlev: nat, lev: nat)
    requires CodeLengths(len, maxlev) && lev <= maxlev
    ensures Taken(len, lev, END + 1) <= Pow2(lev)
    decreases maxlev - lev
  {
    if lev < maxlev {
      TakenBound(len, maxlev, lev + 1);
      TakenStep(len, lev + 1, END + 1);
    }
  }

  // The number of inner nodes on level lev.
  function Inner(len: seq<int>, maxlev: nat, lev: nat): nat
    requires CodeLengths(len, maxlev) && lev <= maxlev
  {
    TakenBound(len, maxlev, lev);
    Pow2(lev) - Taken(len, lev, END + 1)
  }

  // unpack.c's recurrence: the nodes of a level are the children of the inner
  // nodes one level up.
  lemma InnerStep(len: seq<int>, maxlev: nat, lev: nat)
    requires CodeLengths(len, maxlev) && 1 <= lev <= maxlev
    ensures Inner(len, maxlev, lev) + LevCount(len, lev, END + 1) == 2 * Inner(len, maxlev, lev - 1)
  {
    TakenStep(len, lev, END + 1);
    TakenBound(len, maxlev, lev - 1);
  }

  lemma InnerDeepest(len: seq<int>, maxlev: nat)
    requires CodeLengths(len, maxlev)
    ensures Inner(len, maxlev, maxlev) == 0
  {
  }

  lemma {:induction false} LevCountMono(len: seq<int>, lev: int, c: nat, d: nat)
    requires c <= d <= |len|
    ensures LevCount(len, lev, c) <= LevCount(len, lev, d)
    decreases d
  {
    if c < d { LevCountMono(len, lev, c, d - 1); }
  }

  lemma LevCountRank(len: seq<int>, c: nat)
    requires c < |len|
    ensures LevCount(len, len[c], c) < LevCount(len, len[c], |len|)
  {
    LevCountMono(len, len[c], c + 1, |len|);
  }

  lemma {:induction false} LevCountInjective(len: seq<int>, c: nat, d: nat)
    requires c < d < |len| && len[c] == len[d]
    ensures LevCount(len, len[c], c) < LevCount(len, len[d], d)
  {
    LevCountMono(len, len[c], c + 1, d);
  }

  // The number of symbol c on its level: after the inner nodes, in symbol order.
  function CodeNumber(len: seq<int>, maxlev: nat, c: nat): (v: nat)
    requires CodeLengths(len, maxlev) && c <= END && len[c] >= 1
  {
    Inner(len, maxlev, len[c]) + LevCount(len, len[c], c)
  }

  function Code(len: seq<int>, maxlev: nat, c: nat): (w: Codeword)
    requires CodeLengths(len, maxlev) && c <= END && len[c] >= 1
    ensures |w| == len[c]
  {
    Bits(CodeNumber(len, maxlev, c), len[c])
  }

  lemma CodeNumberBound(len: seq<int>, maxlev: nat, c: nat)
    requires CodeLengths(len, maxlev) && c <= END && len[c] >= 1
    ensures CodeNumber(len, maxlev, c) < 2 * Inner(len, maxlev, len[c] - 1) <= Pow2(len[c])
  {
    InnerStep(len, maxlev, len[c]);
    LevCountRank(len, c);
  }

  // END is the very last of the deepest leaves.
  lemma EndIsLast(len: seq<int>, maxlev: nat)
    requires CodeLengths(len, maxlev)
    ensures LevCount(len, maxlev, END) == LevCount(len, maxlev, END + 1) - 1
  {
  }

  // The deepest leaves come in pairs.
  lemma DeepestPair(len: seq<int>, maxlev: nat)
    requires CodeLengths(len, maxlev)
    ensures LevCount(len, maxlev, END + 1) % 2 == 0 && LevCount(len, maxlev, END + 1) >= 2
  {
    InnerStep(len, maxlev, maxlev);
    InnerDeepest(len, maxlev);
    EndIsLast(len, maxlev);
  }

  // ---------- decoding (unpack.c:157-189)

  datatype Found = Found(level: nat, index: nat, rest: seq<Bit>) | Starved

  // One symbol: shift bits in until the number read is past the inner nodes.
  function Descend(inner: seq<int>, lev: nat, i: int, bits: seq<Bit>): Found
    decreases |bits|
  {
    if |bits| == 0 || lev >= |inner| then Starved
    else
      var i' := 2 * i + if bits[0] then 1 else 0;
      if i' - inner[lev] >= 0 then Found(lev, i' - inner[lev], bits[1..])
      else Descend(inner, lev + 1, i', bits[1..])
  }

  function InnerTable(len: seq<int>, maxlev: nat): (t: seq<int>)
    requires CodeLengths(len, maxlev)
    ensures |t| == maxlev + 1 && forall l :: 0 <= l <= maxlev ==> t[l] == Inner(len, maxlev, l)
  {
    seq(maxlev + 1, l requires 0 <= l <= maxlev => Inner(len, maxlev, l))
  }

  // Every proper ancestor of a leaf is an inner node.
  lemma {:induction false} Ancestor(len: seq<int>, maxlev: nat, c: nat, k: nat)
    requires CodeLengths(len, maxlev) && c <= END && 1 <= k <= len[c]
    ensures Shr(CodeNumber(len, maxlev, c), k) < Inner(len, maxlev, len[c] - k)
    decreases k
  {
    var v := CodeNumber(len, maxlev, c);
    if k == 1 {
      CodeNumberBound(len, maxlev, c);
    } else {
      Ancestor(len, maxlev, c, k - 1);
      InnerStep(len, maxlev, len[c] - k + 1);
      ShrOnce(v, k - 1);
    }
  }

  lemma {:induction false} ShrOnce(v: nat, k: nat)
    ensures Shr(v, k + 1) == Shr(v, k) / 2
  {
    if k > 0 { ShrOnce(v / 2, k - 1); }
  }

  // Reading a codeword from any stream finds its symbol's place, whatever follows.
  lemma {:induction false} DescendCode(len: seq<int>, maxlev: nat, c: nat, k: nat, rest: seq<Bit>)
    requires CodeLengths(len, maxlev) && c <= END && 1 <= k <= len[c]
    ensures
      var v := CodeNumber(len, maxlev, c);
      Descend(InnerTable(len, maxlev), len[c] - k + 1, Shr(v, k), Bits(v, k) + rest)
        == Found(len[c], LevCount(len, len[c], c), rest)
    decreases k
  {
    CodeNumberIs(len, maxlev, c);
    hide *;
    var v, t := CodeNumber(len, maxlev, c), InnerTable(len, maxlev);
    var lev := len[c] - k + 1;
    TopBit(v, k);
    ShrOnce(v, k - 1);
    var bits := Bits(v, k) + rest;
    assert bits[1..] == Bits(v, k)[1..] + rest && bits[0] == Bits(v, k)[0];
    assert Shr(v, k - 1) == 2 * Shr(v, k) + if bits[0] then 1 else 0;
    DescendStep(t, lev, Shr(v, k), bits);
    if k == 1 {
      NoShift(v);
      assert bits[1..] == rest;
    } else {
      Ancestor(len, maxlev, c, k - 1);
      DescendCode(len, maxlev, c, k - 1, rest);
    }
  }

  lemma CodeNumberIs(len: seq<int>, maxlev: nat, c: nat)
    requires CodeLengths(len, maxlev) && c <= END && len[c] >= 1
    ensures |len| == END + 1 && len[c] <= maxlev
    ensures CodeNumber(len, maxlev, c) == Inner(len, maxlev, len[c]) + LevCount(len, len[c], c)
  {
    hide Inner, LevCount, Taken;
  }

  lemma DescendStep(inner: seq<int>, lev: nat, i: int, bits: seq<Bit>)
    requires |bits| > 0 && lev < |inner|
    ensures
      var i' := 2 * i + if bits[0] then 1 else 0;
      Descend(inner, lev, i, bits) ==
        if i' - inner[lev] >= 0 then Found(lev, i' - inner[lev], bits[1..]) else Descend(inner, lev + 1, i', bits[1..])
  {
  }

  lemma NoShift(v: nat)
    ensures Shr(v, 0) == v && Bits(v, 0) == []
  {
  }

  lemma {:induction false} TopBit(v: nat, k: nat)
    requires k >= 1
    ensures Bits(v, k)[0] <==> Shr(v, k - 1) % 2 == 1
    ensures Bits(v, k)[1..] == Bits(v, k - 1)
  {
    if k > 1 {
      TopBit(v / 2, k - 1);
      assert Bits(v, k) == Bits(v / 2, k - 1) + [v % 2 == 1];
      assert Bits(v, k)[1..] == Bits(v / 2, k - 1)[1..] + [v % 2 == 1];
    }
  }

  lemma {:induction false} ShrAll(v: nat, n: nat)
    requires v < Pow2(n)
    ensures Shr(v, n) == 0
  {
    if n > 0 { ShrAll(v / 2, n - 1); }
  }

  lemma DescendWhole(len: seq<int>, maxlev: nat, c: nat, rest: seq<Bit>)
    requires CodeLengths(len, maxlev) && c <= END && len[c] >= 1
    ensures Descend(InnerTable(len, maxlev), 1, 0, Code(len, maxlev, c) + rest)
      == Found(len[c], LevCount(len, len[c], c), rest)
  {
    CodeNumberBound(len, maxlev, c);
    ShrAll(CodeNumber(len, maxlev, c), len[c]);
    DescendCode(len, maxlev, c, len[c], rest);
  }

  // No codeword is a prefix of another symbol's codeword.
  lemma CodesPrefixFree(len: seq<int>, maxlev: nat, c: nat, d: nat)
    requires CodeLengths(len, maxlev) && c <= END && d <= END && c != d && len[c] >= 1 && len[d] >= 1
    ensures !(Code(len, maxlev, c) <= Code(len, maxlev, d))
  {
    var wc, wd := Code(len, maxlev, c), Code(len, maxlev, d);
    if wc <= wd {
      var rest := wd[|wc|..];
      DescendWhole(len, maxlev, c, rest);
      DescendWhole(len, maxlev, d, []);
      assert wc + rest == wd == wd + [];
      if c < d { LevCountInjective(len, c, d); } else { LevCountInjective(len, d, c); }
      assert false;
    }
  }

  // Of two numbers of n bits the smaller one has a 0 where they first differ.
  lemma {:induction false} BitsLess(u: nat, v: nat, n: nat) returns (k: nat)
    requires u < v < Pow2(n)
    ensures k < n && Bits(u, n)[..k] == Bits(v, n)[..k] && !Bits(u, n)[k] && Bits(v, n)[k]
  {
    assert Bits(u, n) == Bits(u / 2, n - 1) + [u % 2 == 1] && Bits(v, n) == Bits(v / 2, n - 1) + [v % 2 == 1];
    if u / 2 < v / 2 {
      k := BitsLess(u / 2, v / 2, n - 1);
      assert Bits(u, n)[..k] == Bits(u / 2, n - 1)[..k] && Bits(v, n)[..k] == Bits(v / 2, n - 1)[..k];
    } else {
      k := n - 1;
      assert Bits(u, n)[..k] == Bits(u / 2, n - 1) && Bits(v, n)[..k] == Bits(v / 2, n - 1);
    }
  }

  // The codewords, read as binary fractions, are in the order of their lengths,
  // the longest first, and those of one length in the order of the symbols.
  lemma CanonicalOrder(len: seq<int>, maxlev: nat, c: nat, d: nat) returns (k: nat)
    requires CodeLengths(len, maxlev) && c <= END && d <= END && len[c] >= 1 && len[d] >= 1
    requires len[c] > len[d] || (len[c] == len[d] && c < d)
    ensures k < len[d] <= len[c]
    ensures Code(len, maxlev, c)[..k] == Code(len, maxlev, d)[..k] && !Code(len, maxlev, c)[k] && Code(len, maxlev, d)[k]
  {
    var u, v, n: nat := CodeNumber(len, maxlev, c), CodeNumber(len, maxlev, d), len[c] - len[d];
    CodeNumberBound(len, maxlev, d);
    CodeNumberIs(len, maxlev, d);
    CutAt(u, len[d], n);
    if n == 0 {
      NoShift(u);
      LevCountInjective(len, c, d);
      CodeNumberIs(len, maxlev, c);
    } else {
      Ancestor(len, maxlev, c, n);
    }
    hide *;
    k := BitsLess(Shr(u, n), v, len[d]);
    CodeIs(len, maxlev, c);
    CodeIs(len, maxlev, d);
    assert Bits(u, len[c])[..k] == Bits(Shr(u, n), len[d])[..k];
  }

  lemma CodeIs(len: seq<int>, maxlev: nat, c: nat)
    requires CodeLengths(len, maxlev) && c <= END && len[c] >= 1
    ensures Code(len, maxlev, c) == Bits(CodeNumber(len, maxlev, c), len[c])
  {
  }

  // ---------- the 24-bit numbers pack.c keeps in bits[]

  const WIDTH := 24

  function CodeValue(len: seq<int>, maxlev: nat, c: nat): int
    requires CodeLengths(len, maxlev) && maxlev <= WIDTH && c <= END && len[c] >= 1
  {
    CodeNumber(len, maxlev, c) * Pow2(WIDTH - len[c])
  }

  // The symbols longer than lev, and those of length lev below upto, have got
  // their numbers.
  predicate Numbered(bits: seq<int>, len: seq<int>, maxlev: nat, lev: int, upto: int) {
    CodeLengths(len, maxlev) && maxlev <= WIDTH && |bits| == END + 1 &&
    forall c :: 0 <= c <= END && len[c] >= 1 && (len[c] > lev || (len[c] == lev && c < upto))
      ==> bits[c] == CodeValue(len, maxlev, c)
  }

  lemma NumberedStart(bits: seq<int>, len: seq<int>, maxlev: nat)
    requires CodeLengths(len, maxlev) && maxlev <= WIDTH && |bits| == END + 1
    ensures Numbered(bits, len, maxlev, maxlev, 0)
  {
  }

  lemma NumberedNext(bits: seq<int>, len: seq<int>, maxlev: nat, lev: nat)
    requires Numbered(bits, len, maxlev, lev, END + 1) && lev >= 1
    ensures Numbered(bits, len, maxlev, lev - 1, 0)
  {
  }

  lemma NumberedSkip(bits: seq<int>, len: seq<int>, maxlev: nat, lev: nat, c: nat)
    requires Numbered(bits, len, maxlev, lev, c) && c <= END && len[c] != lev
    ensures Numbered(bits, len, maxlev, lev, c + 1)
  {
  }

  lemma NumberedSet(bits: seq<int>, len: seq<int>, maxlev: nat, lev: nat, c: nat, v: int)
    requires Numbered(bits, len, maxlev, lev, c) && c <= END && len[c] == lev >= 1
    requires v == CodeValue(len, maxlev, c)
    ensures Numbered(bits[c := v], len, maxlev, lev, c + 1)
  {
  }

  // What mask holds while level lev is numbered, c symbols done.
  function MaskAt(len: seq<int>, maxlev: nat, lev: nat, c: nat): int
    requires CodeLengths(len, maxlev) && 1 <= lev <= maxlev <= WIDTH && c <= END + 1
  {
    (Inner(len, maxlev, lev) + LevCount(len, lev, c)) * Pow2(WIDTH - lev)
  }

  lemma MaskStep(len: seq<int>, maxlev: nat, lev: nat, c: nat)
    requires CodeLengths(len, maxlev) && 1 <= lev <= maxlev <= WIDTH && c <= END
    ensures len[c] != lev ==> MaskAt(len, maxlev, lev, c + 1) == MaskAt(len, maxlev, lev, c)
    ensures len[c] == lev ==> MaskAt(len, maxlev, lev, c + 1) == MaskAt(len, maxlev, lev, c) + Pow2(WIDTH - lev)
    ensures len[c] == lev ==> MaskAt(len, maxlev, lev, c) == CodeValue(len, maxlev, c)
  {
    var k, p := Inner(len, maxlev, lev) + LevCount(len, lev, c), Pow2(WIDTH - lev);
    assert (k + 1) * p == k * p + p;
  }

  lemma MaskEnd(len: seq<int>, maxlev: nat, lev: nat)
    requires CodeLengths(len, maxlev) && 1 <= lev <= maxlev <= WIDTH
    ensures MaskAt(len, maxlev, lev, END + 1) == Inner(len, maxlev, lev - 1) * Pow2(WIDTH - lev + 1)
  {
    InnerStep(len, maxlev, lev);
    var m, p := Inner(len, maxlev, lev - 1), Pow2(WIDTH - lev);
    assert Inner(len, maxlev, lev) + LevCount(len, lev, END + 1) == 2 * m;
    hide *;
    Double(m, p, WIDTH - lev);
  }

  lemma Double(m: nat, p: nat, k: nat)
    requires p == Pow2(k)
    ensures (2 * m) * p == m * Pow2(k + 1)
  {
    assert Pow2(k + 1) == 2 * p;
  }

  // At the end of a level the mask is where the next level starts, and its bit
  // inc is clear: the code space is used up without a gap.
  lemma MaskNext(len: seq<int>, maxlev: nat, lev: nat)
    requires CodeLengths(len, maxlev) && 1 <= lev <= maxlev <= WIDTH
    ensures MaskAt(len, maxlev, lev, END + 1) >= 0
    ensures ClearBits(MaskAt(len, maxlev, lev, END + 1), Pow2(WIDTH - lev)) == MaskAt(len, maxlev, lev, END + 1)
    ensures lev > 1 ==> MaskAt(len, maxlev, lev, END + 1) == MaskAt(len, maxlev, lev - 1, 0)
    ensures lev == 1 ==> MaskAt(len, maxlev, lev, END + 1) == Inner(len, maxlev, 0) * Pow2(WIDTH)
  {
    MaskEnd(len, maxlev, lev);
    if lev > 1 { MaskBegin(len, maxlev, lev - 1); }
    hide *;
    var m := Inner(len, maxlev, lev - 1);
    ClearNothing(m, WIDTH - lev);
  }

  lemma MaskBegin(len: seq<int>, maxlev: nat, lev: nat)
    requires CodeLengths(len, maxlev) && 1 <= lev <= maxlev <= WIDTH
    ensures MaskAt(len, maxlev, lev, 0) == Inner(len, maxlev, lev) * Pow2(WIDTH - lev)
  {
    assert LevCount(len, lev, 0) == 0;
  }

  lemma MaskStart(len: seq<int>, maxlev: nat)
    requires CodeLengths(len, maxlev) && maxlev <= WIDTH
    ensures MaskAt(len, maxlev, maxlev, 0) == 0
  {
    InnerDeepest(len, maxlev);
  }

  // Nothing of the code space is left at the root.
  lemma RootIsInner(len: seq<int>, maxlev: nat)
    requires CodeLengths(len, maxlev)
    ensures Inner(len, maxlev, 0) == 1
  {
    NothingTaken(len, END + 1);
  }

  lemma {:induction false} NothingTaken(len: seq<int>, c: nat)
    requires c <= |len|
    ensures Taken(len, 0, c) == 0
  {
    if c > 0 { NothingTaken(len, c - 1); }
  }
}
