// unpack.c's decoder for pack.c's format: getdict() rebuilds the code from the
// header, decode() shifts the text through it.

module Unpacking {
  import opened BitStrings
  import opened Forest
  import opened Canon
  import opened PackFormat

  const US: Byte := 0x1f
  const RS: Byte := 0x1e

  // What getdict() and decode() return, and what they wrote.
  datatype Result =
    | NotPacked               // "not in packed format"
    | OldStyle                // the previous algorithm's format, left to expand()
    | Broken                  // "unpacking error"
    | Wild                    // led outside its tables by a header of no full code
    | Unpacked(text: seq<Byte>)

  // ---------- the decoding tables, as values

  // intnodes[], tree[] as places in characters[], and characters[] up to eof.
  datatype Tables = Tables(inner: seq<int>, start: seq<int>, chars: seq<Byte>)

  // The tables for a code with lengths len.
  predicate TablesFor(t: Tables, len: seq<int>, maxlev: nat) {
    CodeLengths(len, maxlev) && |t.inner| == |t.start| == maxlev + 1 && t.chars == Dict(len, maxlev) &&
    forall l :: 1 <= l <= maxlev ==> t.inner[l] == Inner(len, maxlev, l) && t.start[l] == |Dict(len, l - 1)|
  }

  // Where symbol c stands in characters[]; END stands at eof.
  lemma {:induction false} PlaceInLevel(len: seq<int>, lev: int, c: nat, d: nat)
    requires |len| == END + 1 && c < d <= END && len[c] == lev
    ensures LevCount(len, lev, c) < LevCount(len, lev, d) == |DictLevel(len, lev, d)|
    ensures DictLevel(len, lev, d)[LevCount(len, lev, c)] as int == c
    decreases d
  {
    if c < d - 1 { PlaceInLevel(len, lev, c, d - 1); }
  }

  lemma {:induction false} DictPrefix(len: seq<int>, a: nat, b: nat)
    requires |len| == END + 1 && a <= b
    ensures Dict(len, a) <= Dict(len, b)
    decreases b
  {
    if a < b { DictPrefix(len, a, b - 1); }
  }

  lemma Place(len: seq<int>, maxlev: nat, c: nat, p: int)
    requires CodeLengths(len, maxlev) && c <= END && len[c] >= 1
    requires p == |Dict(len, len[c] - 1)| + LevCount(len, len[c], c)
    ensures c == END ==> p == |Dict(len, maxlev)|
    ensures c < END ==> 0 <= p < |Dict(len, maxlev)| && Dict(len, maxlev)[p] as int == c
  {
    CodeLengthsMean(len, maxlev, c);
    hide *;
    var lev := len[c];
    if c < END {
      PlaceInLevel(len, lev, c, END);
      DictPrefix(len, lev, maxlev);
      DictIs(len, lev);
    }
  }

  lemma CodeLengthsMean(len: seq<int>, maxlev: nat, c: nat)
    requires CodeLengths(len, maxlev) && c <= END
    ensures |len| == END + 1 && len[c] <= maxlev && len[END] == maxlev
    ensures c == END ==> |Dict(len, maxlev - 1)| + LevCount(len, maxlev, END) == |Dict(len, maxlev)|
  {
    DictIs(len, maxlev);
  }

  lemma DictIs(len: seq<int>, lev: nat)
    requires |len| == END + 1 && lev >= 1
    ensures Dict(len, lev) == Dict(len, lev - 1) + DictLevel(len, lev, END)
  {
    hide DictLevel;
  }

  // The text a bit stream stands for; Cut when it ends before END does, Lost
  // when it leads outside the tables.
  datatype Text = Text(text: seq<Byte>) | Cut | Lost

  function Prepend(a: seq<Byte>, r: Text): Text {
    match r
    case Text(b) => Text(a + b)
    case _ => r
  }

  function Decoded(t: Tables, lev: nat, i: int, bits: seq<Bit>): Text
    decreases |bits|, 0
  {
    if |bits| == 0 then Cut
    else if lev >= |t.inner| || lev >= |t.start| then Lost
    else
      var i' := 2 * i + if bits[0] then 1 else 0;
      var j := i' - t.inner[lev];
      if j < 0 then Decoded(t, lev + 1, i', bits[1..]) else Landed(t, t.start[lev] + j, bits[1..])
  }

  // Place p of characters[] has been reached.
  function Landed(t: Tables, p: int, rest: seq<Bit>): Text
    decreases |rest|, 1
  {
    if p == |t.chars| then Text([])
    else if !(0 <= p < |t.chars|) then Lost
    else Prepend([t.chars[p]], Decoded(t, 1, 0, rest))
  }

  // The walk down one codeword.
  lemma {:induction false} DecodedWalk(t: Tables, len: seq<int>, maxlev: nat, lev: nat, i: int, bits: seq<Bit>, f: Found)
    requires TablesFor(t, len, maxlev) && lev >= 1
    requires f == Descend(InnerTable(len, maxlev), lev, i, bits) && f.Found?
    ensures 1 <= f.level <= maxlev && f.index >= 0
    ensures Decoded(t, lev, i, bits) == Landed(t, t.start[f.level] + f.index, f.rest)
    decreases |bits|
  {
    hide Landed, Dict, CodeLengths, Inner, LevCount;
    var i' := 2 * i + if bits[0] then 1 else 0;
    assert lev <= maxlev;
    if i' - t.inner[lev] < 0 {
      DecodedWalk(t, len, maxlev, lev + 1, i', bits[1..], f);
    }
  }

  lemma DecodedSymbol(t: Tables, len: seq<int>, maxlev: nat, c: nat, rest: seq<Bit>)
    requires TablesFor(t, len, maxlev) && c <= END && len[c] >= 1
    ensures c == END ==> Decoded(t, 1, 0, Code(len, maxlev, c) + rest) == Text([])
    ensures c < END ==>
      Decoded(t, 1, 0, Code(len, maxlev, c) + rest) == Prepend([c as Byte], Decoded(t, 1, 0, rest))
  {
    CodeLengthsOf(t, len, maxlev);
    hide *;
    DescendWhole(len, maxlev, c, rest);
    var bits := Code(len, maxlev, c) + rest;
    var f := Descend(InnerTable(len, maxlev), 1, 0, bits);
    DecodedWalk(t, len, maxlev, 1, 0, bits, f);
    PlaceOf(t, len, maxlev, c, rest);
  }

  lemma CodeLengthsOf(t: Tables, len: seq<int>, maxlev: nat)
    requires TablesFor(t, len, maxlev)
    ensures CodeLengths(len, maxlev) && |len| == END + 1 && |t.start| == maxlev + 1
  {
  }

  lemma PlaceOf(t: Tables, len: seq<int>, maxlev: nat, c: nat, rest: seq<Bit>)
    requires TablesFor(t, len, maxlev) && c <= END && 1 <= len[c] <= maxlev
    ensures
      Landed(t, t.start[len[c]] + LevCount(len, len[c], c), rest) ==
        if c == END then Text([]) else Prepend([c as Byte], Decoded(t, 1, 0, rest))
  {
    hide *;
    CodeLengthsOf(t, len, maxlev);
    TablesAt(t, len, maxlev, len[c]);
    var p := t.start[len[c]] + LevCount(len, len[c], c);
    Place(len, maxlev, c, p);
    LandedAt(t, p, rest);
    if c < END { assert t.chars[p] == c as Byte; }
  }

  lemma TablesAt(t: Tables, len: seq<int>, maxlev: nat, lev: nat)
    requires TablesFor(t, len, maxlev) && 1 <= lev <= maxlev
    ensures lev < |t.start| && t.start[lev] == |Dict(len, lev - 1)| && t.chars == Dict(len, maxlev)
  {
    hide Dict, CodeLengths, Inner;
  }

  lemma LandedAt(t: Tables, p: int, rest: seq<Bit>)
    requires 0 <= p <= |t.chars|
    ensures Landed(t, p, rest) == if p == |t.chars| then Text([]) else Prepend([t.chars[p]], Decoded(t, 1, 0, rest))
  {
    hide Decoded, Prepend;
  }

  lemma {:induction false} TextBitsCons(len: seq<int>, maxlev: nat, b: Byte, data: seq<Byte>)
    requires CodeLengths(len, maxlev) && Covers(len, [b] + data)
    ensures Covers(len, data) && len[b as int] >= 1
    ensures TextBits(len, maxlev, [b] + data) == Code(len, maxlev, b as int) + TextBits(len, maxlev, data)
  {
    var all := [b] + data;
    assert all[0] == b;
    forall i | 0 <= i < |data| ensures len[data[i] as int] >= 1 { assert data[i] == all[i + 1]; }
    if |data| == 0 {
      assert all[..0] == [];
      assert TextBits(len, maxlev, all) == [] + Code(len, maxlev, b as int);
    } else {
      var n := |data| - 1;
      assert all[..n + 1] == [b] + data[..n] && all[n + 1] == data[n];
      TextBitsCons(len, maxlev, b, data[..n]);
      assert Code(len, maxlev, b as int) + TextBits(len, maxlev, data[..n]) + Code(len, maxlev, data[n] as int)
        == Code(len, maxlev, b as int) + (TextBits(len, maxlev, data[..n]) + Code(len, maxlev, data[n] as int));
    }
  }

  lemma Regroup(a: seq<Bit>, b: seq<Bit>, c: seq<Bit>, d: seq<Bit>)
    ensures (a + b) + c + d == a + (b + c + d)
  {
  }

  lemma NoText(len: seq<int>, maxlev: nat, data: seq<Byte>)
    requires CodeLengths(len, maxlev) && Covers(len, data) && |data| == 0
    ensures TextBits(len, maxlev, data) == []
  {
  }

  lemma PrependText(b: Byte, more: seq<Byte>)
    ensures Prepend([b], Text(more)) == Text([b] + more)
  {
  }

  lemma DeepestIsEnd(len: seq<int>, maxlev: nat)
    requires CodeLengths(len, maxlev)
    ensures |len| == END + 1 && len[END] == maxlev >= 1
  {
  }

  // What decode() makes of a packed text, whatever follows it.
  lemma {:induction false} DecodedText(t: Tables, len: seq<int>, maxlev: nat, data: seq<Byte>, rest: seq<Bit>)
    requires TablesFor(t, len, maxlev) && Covers(len, data)
    ensures Decoded(t, 1, 0, TextBits(len, maxlev, data) + Code(len, maxlev, END) + rest) == Text(data)
  {
    CodeLengthsOf(t, len, maxlev);
    DeepestIsEnd(len, maxlev);
    hide *;
    if |data| == 0 {
      NoText(len, maxlev, data);
      assert TextBits(len, maxlev, data) + Code(len, maxlev, END) + rest == Code(len, maxlev, END) + rest;
      DecodedSymbol(t, len, maxlev, END, rest);
    } else {
      var b, more := data[0], data[1..];
      assert data == [b] + more;
      TextBitsCons(len, maxlev, b, more);
      DecodedText(t, len, maxlev, more, rest);
      var tail := TextBits(len, maxlev, more) + Code(len, maxlev, END) + rest;
      Regroup(Code(len, maxlev, b as int), TextBits(len, maxlev, more), Code(len, maxlev, END), rest);
      DecodedSymbol(t, len, maxlev, b as int, tail);
      PrependText(b, more);
    }
  }

  // ---------- one bit of decode()

  lemma DecodeBit(t: Tables, lev: nat, i: int, bits: seq<Bit>, i': int, end: int)
    requires |bits| > 0 && i' == 2 * i + (if bits[0] then 1 else 0) && |t.inner| == |t.start| && end == |t.chars|
    ensures lev >= |t.inner| ==> Decoded(t, lev, i, bits) == Lost
    ensures lev < |t.inner| && i' < t.inner[lev] ==> Decoded(t, lev, i, bits) == Decoded(t, lev + 1, i', bits[1..])
    ensures lev < |t.inner| && i' >= t.inner[lev] ==>
      var p := t.start[lev] + (i' - t.inner[lev]);
      Decoded(t, lev, i, bits) ==
        if p == end then Text([])
        else if !(0 <= p < end) then Lost
        else Prepend([t.chars[p]], Decoded(t, 1, 0, bits[1..]))
  {
  }

  lemma ScaledQuotient(b: nat, m: nat, d: nat)
    requires m >= 1 && d >= 1
    ensures m * d >= 1 && (m * b) / (m * d) == b / d
  {
    var q, r := b / d, b % d;
    assert b == q * d + r;
    assert m * b == q * (m * d) + m * r;
    MulAtLeast(d, m);
    MulAtLeast(d - r, m);
    assert m * d == m * r + m * (d - r);
    DivUnique(m * b, m * d, q, m * r);
  }

  lemma ShiftPair(k: nat)
    requires 1 <= k <= 8
    ensures Pow2(8 - k) * Pow2(k - 1) == 128 && Pow2(8 - (k - 1)) == 2 * Pow2(8 - k)
  {
    Pow2Add(8 - k, k - 1);
    assert Pow2(4) == 16;
    Pow2Add(4, 3);
    assert 8 - k + (k - 1) == 7 == 4 + 3;
    assert 8 - (k - 1) == (8 - k) + 1;
    PowStep(8 - k);
  }

  lemma ShiftedOnce(b: nat, m: nat, d: nat, c: int)
    requires m >= 1 && d >= 1 && m * d == 128 && c == b * m
    ensures c / 128 == b / d && c * 2 == b * (2 * m)
  {
    ScaledQuotient(b, m, d);
    assert c == m * b;
  }

  // c & 0200 after some shifts is the next bit of the byte b.
  lemma TestBit(b: nat, k: nat, c: int)
    requires b < 256 && 1 <= k <= 8 && c == b * Pow2(8 - k)
    ensures ((c / 128) % 2 == 1) <==> Bits(b, k)[0]
    ensures Bits(b, k)[1..] == Bits(b, k - 1) && c * 2 == b * Pow2(8 - (k - 1))
  {
    hide *;
    TopBit(b, k);
    ShrDivides(b, k - 1);
    ShiftPair(k);
    ShiftedOnce(b, Pow2(8 - k), Pow2(k - 1), c);
  }

  lemma PowStep(n: nat)
    ensures Pow2(n + 1) == 2 * Pow2(n)
  {
  }

  lemma {:induction false} ByteBitsCons(b: Byte, rest: seq<Byte>)
    ensures ByteBits([b] + rest) == Bits(b as int, 8) + ByteBits(rest)
  {
    ByteBitsConcat([b], rest);
    assert [b][..0] == [];
  }

  lemma PrependTwice(a: seq<Byte>, b: seq<Byte>, r: Text)
    ensures Prepend(a, Prepend(b, r)) == Prepend(a + b, r)
  {
    if r.Text? { assert a + (b + r.text) == (a + b) + r.text; }
  }

  const WORD := 0x1_0000_0000

  lemma SizeRoundTrip(size: nat)
    ensures
      var s := SizeBytes(size);
      s[0] as int * 0x100_0000 + s[1] as int * 0x1_0000 + s[2] as int * 0x100 + s[3] as int == size % WORD
  {
    SizeDigits(size);
    DivUnique(size, WORD, size / WORD,
              (size / 0x100_0000 % 256) * 0x100_0000 + (size / 0x1_0000 % 256) * 0x1_0000 + (size / 0x100 % 256) * 0x100 + size % 256);
  }

  lemma SizeDigits(size: nat)
    ensures size == WORD * (size / WORD) +
      (size / 0x100_0000 % 256) * 0x100_0000 + (size / 0x1_0000 % 256) * 0x1_0000 + (size / 0x100 % 256) * 0x100 + size % 256
  {
    Digit(size, 0x100);
    Digit(size, 0x1_0000);
    Digit(size, 0x100_0000);
  }

  // The next digit in base 256.
  lemma Digit(size: nat, d: nat)
    requires d > 0
    ensures size / d == 256 * (size / (d * 256)) + size / d % 256
  {
    var x := size / d;
    DivParts(size, d);
    DigitParts(d, x / 256, x % 256, size % d);
    DivUnique(size, d * 256, x / 256, d * (x % 256) + size % d);
  }

  lemma DivParts(n: nat, d: nat)
    requires d > 0
    ensures n == (n / d) * d + n % d && 0 <= n % d < d
  {
  }

  lemma DigitParts(d: nat, q: nat, s: nat, e: nat)
    requires s < 256 && e < d
    ensures (256 * q + s) * d + e == q * (d * 256) + (d * s + e) && 0 <= d * s + e < d * 256
  {
    assert (256 * q + s) * d == 256 * q * d + s * d;
    assert 256 * q * d == q * (d * 256);
    assert (255 - s) * d >= 0 && (255 - s) * d == 255 * d - s * d;
  }

  // The leaves of levels 1 to i.
  function Sum(counts: seq<int>, i: nat): int
    requires i < |counts|
  {
    if i == 0 then 0 else Sum(counts, i - 1) + counts[i]
  }

  lemma {:induction false} SumGrows(counts: seq<int>, i: nat, j: nat)
    requires i <= j < |counts| && forall k :: i < k <= j ==> counts[k] >= 0
    ensures Sum(counts, i) <= Sum(counts, j)
    decreases j
  {
    if i < j { SumGrows(counts, i, j - 1); }
  }

  // What origsize is when n characters have been written, modulo 2^32.
  predicate SizeLeft(left: int, orig: int, n: nat) {
    left == (orig - n) % WORD
  }

  lemma SizeStarts(orig: int)
    requires 0 <= orig < WORD
    ensures SizeLeft(orig, orig, 0)
  {
  }

  lemma SizeLess(left: int, orig: int, n: nat, b: nat)
    requires SizeLeft(left, orig, n)
    ensures SizeLeft((left - b) % WORD, orig, n + b)
  {
    ModTwice(orig - n, b);
  }

  lemma SizeEnds(left: int, orig: int, text: seq<Byte>)
    requires SizeLeft(left, orig, |text|) && 0 <= orig < WORD
    ensures Verdict(Text(text), orig) == if left != 0 then Broken else Unpacked(text)
  {
    SameSize(orig, |text|);
  }

  lemma ModTwice(a: int, b: int)
    ensures (a % WORD - b) % WORD == (a - b) % WORD
  {
  }

  lemma SameSize(orig: int, n: nat)
    requires 0 <= orig < WORD
    ensures (orig - n) % WORD == 0 <==> n % WORD == orig
  {
  }

  lemma NoBits(v: nat)
    ensures Bits(v, 0) == []
  {
  }

  lemma PowZero()
    ensures Pow2(0) == 1
  {
  }

  lemma PrependNothing(r: Text)
    ensures Prepend([], r) == r
  {
    if r.Text? { assert [] + r.text == r.text; }
  }

  // What decode() reports: the text counts only if it has the size the header gave.
  function Verdict(r: Text, size: int): Result {
    match r
    case Text(text) => if |text| % WORD == size then Unpacked(text) else Broken
    case Cut => Broken
    case Lost => Wild
  }

  lemma CopyStep(buf: seq<Byte>, was: seq<Byte>, from: seq<Byte>, k: nat)
    requires k < |from| && k < |buf| == |was| && buf[..k] == from[..k] && buf[k..] == was[k..]
    ensures buf[k := from[k]][..k + 1] == from[..k + 1] && buf[k := from[k]][k + 1..] == was[k + 1..]
  {
    assert buf[k..][1..] == was[k..][1..];
  }

  lemma SplitFirst(buf: seq<Byte>, at: nat, n: nat, rest: seq<Byte>)
    requires n >= 1 && at + n <= |buf|
    ensures buf[at..at + n] + rest == [buf[at]] + (buf[at + 1..at + n] + rest)
  {
  }

  lemma NothingLeft(t: Tables, lev: nat, i: int, pre: seq<Byte>)
    ensures Prepend(pre, Decoded(t, lev, i, ByteBits([]))) == Decoded(t, lev, i, ByteBits([])) == Cut
  {
  }

  datatype Step = More | Stop | Off

  // getdict()'s way out: on to decode(), or not.
  datatype Opening = Go | Refused(why: Result)

  // A header as pack writes it in front of a packed text.
  ghost predicate Headed(file: seq<Byte>, size: nat, len: seq<int>, maxlev: nat) {
    CodeLengths(len, maxlev) && maxlev <= WIDTH && Header(size, len, maxlev) <= file
  }

  // What the header holds, byte by byte.
  lemma HeaderBytes(file: seq<Byte>, size: nat, len: seq<int>, maxlev: nat, k: nat)
    requires Headed(file, size, len, maxlev) && k == |Dict(len, maxlev)|
    ensures 1 <= maxlev <= 24 && k <= 256 && |Header(size, len, maxlev)| == 7 + maxlev + k <= |file|
    ensures file[0] == US && file[1] == RS && file[2..6] == SizeBytes(size) && file[6] as int == maxlev
    ensures file[7..7 + maxlev] == LevelBytes(len, maxlev, maxlev)
    ensures file[7 + maxlev..7 + maxlev + k] == Dict(len, maxlev)
  {
    HeadedMeans(file, size, len, maxlev);
    hide *;
    var p, b, d := Preamble(size, maxlev), LevelBytes(len, maxlev, maxlev), Dict(len, maxlev);
    CutInThree(file, p, b, d);
    PreambleBytes(size, maxlev, file[..7]);
    assert file[2..6] == file[..7][2..6];
  }

  lemma HeadedMeans(file: seq<Byte>, size: nat, len: seq<int>, maxlev: nat)
    requires Headed(file, size, len, maxlev)
    ensures 1 <= maxlev <= 24 && |len| == END + 1 && |Dict(len, maxlev)| <= 256 && |LevelBytes(len, maxlev, maxlev)| == maxlev
    ensures Preamble(size, maxlev) + LevelBytes(len, maxlev, maxlev) + Dict(len, maxlev) <= file
    ensures Header(size, len, maxlev) == Preamble(size, maxlev) + LevelBytes(len, maxlev, maxlev) + Dict(len, maxlev)
  {
    DictSize(len, maxlev);
    hide Dict, LevelBytes, Preamble;
  }

  lemma CutInThree(file: seq<Byte>, p: seq<Byte>, b: seq<Byte>, d: seq<Byte>)
    requires p + b + d <= file
    ensures |p + b + d| == |p| + |b| + |d| <= |file| && file[..|p|] == p
    ensures file[|p|..|p| + |b|] == b && file[|p| + |b|..|p| + |b| + |d|] == d
  {
    var h := p + b + d;
    assert file[..|h|] == h;
    assert file[..|p|] == h[..|p|] == p;
    assert file[|p|..|p| + |b|] == h[|p|..|p| + |b|] == b;
    assert file[|p| + |b|..|h|] == h[|p| + |b|..] == d;
  }

  lemma PreambleBytes(size: nat, maxlev: nat, p: seq<Byte>)
    requires p == Preamble(size, maxlev) && maxlev < 256
    ensures |p| == 7 && p[0] == US && p[1] == RS && p[2..6] == SizeBytes(size) && p[6] as int == maxlev
  {
    hide SizeBytes;
  }

  lemma {:induction false} LevelByte(len: seq<int>, maxlev: nat, i: nat, j: nat)
    requires |len| == END + 1 && 1 <= i <= j <= maxlev
    ensures LevelBytes(len, maxlev, j)[i - 1] == ToByte(LevCount(len, i, END + 1) - if i == maxlev then 2 else 0)
    decreases j
  {
    if i < j { LevelByte(len, maxlev, i, j - 1); }
  }

  // The counts getdict() reads, level by level.
  predicate CountsOf(counts: seq<int>, len: seq<int>, maxlev: nat) {
    |counts| > maxlev && |len| == END + 1 &&
    forall i :: 1 <= i <= maxlev ==> counts[i] == LevCount(len, i, END + 1) - if i == maxlev then 2 else 0
  }

  lemma ReadCounts(counts: seq<int>, len: seq<int>, maxlev: nat)
    requires CodeLengths(len, maxlev) && |counts| > maxlev
    requires forall i :: 1 <= i <= maxlev ==> counts[i] == LevelBytes(len, maxlev, maxlev)[i - 1] as int
    ensures CountsOf(counts, len, maxlev)
  {
    forall i | 1 <= i <= maxlev
      ensures counts[i] == LevCount(len, i, END + 1) - if i == maxlev then 2 else 0
    {
      LevelByte(len, maxlev, i, maxlev);
      LevelBytesFit(len, maxlev, i);
    }
  }

  // Where each level's characters start.
  lemma {:induction false} StartOfLevel(counts: seq<int>, len: seq<int>, maxlev: nat, i: nat)
    requires CodeLengths(len, maxlev) && CountsOf(counts, len, maxlev) && i <= maxlev
    ensures Sum(counts, i) == |Dict(len, i)| - if i == maxlev then 1 else 0
  {
    if i > 0 {
      StartOfLevel(counts, len, maxlev, i - 1);
      assert LevCount(len, i, END + 1) == LevCount(len, i, END) + if len[END] == i then 1 else 0;
    }
  }

  // getdict() before it takes the characters, on a header that pack wrote.
  lemma HeaderRead(file: seq<Byte>, buf: seq<Byte>, inleft: int, size: nat, len: seq<int>, maxlev: nat, counts: seq<int>)
    requires Headed(file, size, len, maxlev) && |buf| >= 512 && 0 <= inleft <= |file| && inleft <= |buf|
    requires file[..inleft] == buf[..inleft] && (|buf| <= |file| ==> inleft == |buf|) && (|buf| > |file| ==> inleft == |file|)
    requires |counts| == 25 && forall i :: 1 <= i <= maxlev ==> counts[i] == buf[6 + i] as int
    ensures CountsOf(counts, len, maxlev) && Sum(counts, maxlev) == |Dict(len, maxlev)| - 1
    ensures |Dict(len, maxlev)| <= 256 && 7 + maxlev + |Dict(len, maxlev)| <= inleft
    ensures buf[7 + maxlev..7 + maxlev + |Dict(len, maxlev)|] == Dict(len, maxlev)
  {
    var k := |Dict(len, maxlev)|;
    HeaderBytes(file, size, len, maxlev, k);
    SamePart(file, buf, inleft, 7, 7 + maxlev);
    SamePart(file, buf, inleft, 7 + maxlev, 7 + maxlev + k);
    CountsRead(buf[7..7 + maxlev], counts, buf, maxlev);
    ReadCounts(counts, len, maxlev);
    hide Dict, LevelBytes, Sum, LevCount, Headed;
    StartOfLevel(counts, len, maxlev, maxlev);
  }

  lemma CountsRead(levels: seq<Byte>, counts: seq<int>, buf: seq<Byte>, maxlev: nat)
    requires |buf| >= 7 + maxlev && levels == buf[7..7 + maxlev] && |counts| == 25 && maxlev <= 24
    requires forall i :: 1 <= i <= maxlev ==> counts[i] == buf[6 + i] as int
    ensures |levels| == maxlev && forall i :: 1 <= i <= maxlev ==> counts[i] == levels[i - 1] as int
  {
  }

  lemma HeaderSeen(file: seq<Byte>, buf: seq<Byte>, inleft: int, size: nat, len: seq<int>, maxlev: nat)
    requires Headed(file, size, len, maxlev) && |buf| >= 512 && 0 <= inleft <= |file| && inleft <= |buf|
    requires file[..inleft] == buf[..inleft] && (|buf| <= |file| ==> inleft == |buf|) && (|buf| > |file| ==> inleft == |file|)
    ensures buf[2..6] == SizeBytes(size) && buf[6] as int == maxlev
  {
    HeaderBytes(file, size, len, maxlev, |Dict(len, maxlev)|);
    hide *;
    assert inleft >= 7;
    SamePart(file, buf, inleft, 2, 6);
    SamePart(file, buf, inleft, 6, 7);
  }

  lemma SamePart(file: seq<Byte>, buf: seq<Byte>, n: nat, i: nat, j: nat)
    requires n <= |file| && n <= |buf| && file[..n] == buf[..n] && i <= j <= n
    ensures file[i..j] == buf[i..j] && (i < j ==> file[i] == buf[i])
  {
    assert file[i..j] == file[..n][i..j] == buf[..n][i..j] == buf[i..j];
    assert i < j ==> file[i] == file[..n][i] == buf[..n][i] == buf[i];
  }

  lemma HeaderLength(file: seq<Byte>, size: nat, len: seq<int>, maxlev: nat)
    requires Headed(file, size, len, maxlev)
    ensures |len| == END + 1 && |Header(size, len, maxlev)| == 7 + maxlev + |Dict(len, maxlev)|
  {
    HeaderBytes(file, size, len, maxlev, |Dict(len, maxlev)|);
  }

  lemma HeadedIsCode(file: seq<Byte>, size: nat, len: seq<int>, maxlev: nat)
    requires Headed(file, size, len, maxlev)
    ensures CodeLengths(len, maxlev) && |len| == END + 1
  {
  }

  lemma Leftover(file: seq<Byte>, buf: seq<Byte>, got: int, inp: int, inleft: int, part: seq<Byte>)
    requires 0 <= got <= |file| && got <= |buf| && file[..got] == buf[..got] && 0 <= inp && 0 <= inleft == got - inp
    requires part == buf[inp..inp + inleft]
    ensures part + file[got..] == file[inp..]
  {
    assert part == buf[..got][inp..got] == file[inp..got];
  }

  predicate LeavesOf(full: seq<int>, len: seq<int>, maxlev: nat) {
    |full| > maxlev && |len| == END + 1 && forall i :: 1 <= i <= maxlev ==> full[i] == LevCount(len, i, END + 1)
  }

  predicate InnerOf(inner: seq<int>, len: seq<int>, maxlev: nat) {
    CodeLengths(len, maxlev) && |inner| > maxlev && forall i :: 1 <= i <= maxlev ==> inner[i] == Inner(len, maxlev, i)
  }

  predicate StartsOf(tree: seq<int>, counts: seq<int>, maxlev: nat) {
    |tree| > maxlev && |counts| > maxlev && forall i :: 1 <= i <= maxlev ==> tree[i] == Sum(counts, i - 1)
  }

  lemma TablesIn(intnodes: seq<int>, tree: seq<int>, characters: seq<Byte>, eof: int, counts: seq<int>, len: seq<int>, maxlev: nat)
    requires CodeLengths(len, maxlev) && CountsOf(counts, len, maxlev)
    requires InnerOf(intnodes, len, maxlev) && StartsOf(tree, counts, maxlev)
    requires 0 <= eof <= |characters| && characters[..eof] == Dict(len, maxlev)
    ensures TablesFor(Tables(intnodes[..maxlev + 1], tree[..maxlev + 1], characters[..eof]), len, maxlev)
  {
    hide Inner, Dict, CodeLengths, CountsOf, Sum;
    TablesMade(Tables(intnodes[..maxlev + 1], tree[..maxlev + 1], characters[..eof]), counts, len, maxlev);
  }

  lemma NoLeaves(counts: seq<int>)
    requires |counts| > 0
    ensures Sum(counts, 0) == 0
  {
  }

  lemma CountsFull(counts: seq<int>, full: seq<int>, len: seq<int>, maxlev: nat)
    requires CountsOf(counts, len, maxlev) && full == counts[maxlev := counts[maxlev] + 2]
    ensures LeavesOf(full, len, maxlev)
  {
  }

  // The tables that getdict() sets up, put together.
  lemma TablesMade(t: Tables, counts: seq<int>, len: seq<int>, maxlev: nat)
    requires CodeLengths(len, maxlev) && CountsOf(counts, len, maxlev)
    requires |t.inner| == |t.start| == maxlev + 1 && t.chars == Dict(len, maxlev)
    requires forall i :: 1 <= i <= maxlev ==> t.inner[i] == Inner(len, maxlev, i)
    requires forall i :: 1 <= i <= maxlev ==> t.start[i] == Sum(counts, i - 1)
    ensures TablesFor(t, len, maxlev)
  {
    forall l | 1 <= l <= maxlev ensures t.start[l] == |Dict(len, l - 1)| {
      StartOfLevel(counts, len, maxlev, l - 1);
    }
  }

  class Unpacker {
    const file: seq<Byte>        // the packed file
    const bufsiz: nat            // <stdio.h>'s BUFSIZ
    const inbuff: array<Byte>
    const outbuff: array<Byte>
    const intnodes: array<int>
    const tree: array<int>
    const characters: array<Byte>
    var pos: nat                 // bytes of the file read so far
    var inleft: int
    var inp: int
    var origsize: int
    var maxlev: int
    var eof: int

    ghost predicate Valid()
      reads this
    {
      bufsiz >= 512 && inbuff.Length == bufsiz && outbuff.Length == bufsiz && intnodes.Length == 25 && tree.Length == 25 &&
      characters.Length == 256 && inbuff != outbuff && inbuff != characters && outbuff != characters && intnodes != tree
    }

    constructor (file: seq<Byte>, bufsiz: nat)
      requires bufsiz >= 512
      ensures Valid() && this.file == file && this.bufsiz == bufsiz && pos == 0
      ensures fresh(inbuff) && fresh(outbuff) && fresh(intnodes) && fresh(tree) && fresh(characters)
    {
      this.file, this.bufsiz := file, bufsiz;
      inbuff := new Byte[bufsiz](_ => 0);
      outbuff := new Byte[bufsiz](_ => 0);
      intnodes := new int[25](_ => 0);
      tree := new int[25](_ => 0);
      characters := new Byte[256](_ => 0);
      pos, inleft, inp, origsize, maxlev, eof := 0, 0, 0, 0, 0, 0;
    }

    ghost predicate Buffered()
      reads this
    {
      0 <= inp && 0 <= inleft && inp + inleft <= bufsiz && pos <= |file|
    }

    // What decode() has still to read.
    ghost function Unread(): seq<Byte>
      requires Valid() && Buffered()
      reads this, inbuff
    {
      inbuff[inp..inp + inleft] + file[pos..]
    }

    // read(infile, &inbuff[0], BUFSIZ)
    method Fill()
      requires Valid() && pos <= |file|
      modifies this`pos, this`inleft, this`inp, inbuff
      ensures inp == 0 && 0 <= inleft <= bufsiz && pos == old(pos) + inleft <= |file|
      ensures inleft == 0 <==> old(pos) == |file|
      ensures inbuff[..inleft] == file[old(pos)..pos]
      ensures inleft <= bufsiz && inbuff[inleft..] == old(inbuff[..])[inleft..]
      ensures bufsiz <= |file| - old(pos) ==> inleft == bufsiz
      ensures bufsiz > |file| - old(pos) ==> pos == |file|
    {
      var got := if |file| - pos < bufsiz then |file| - pos else bufsiz;
      ghost var was := inbuff[..];
      var start := pos;
      for k := 0 to got
        invariant inbuff[..k] == file[start..start + k] && inbuff[k..] == was[k..] && pos == start
      {
        ghost var before := inbuff[..];
        inbuff[k] := file[start + k];
        assert inbuff[..] == before[k := file[start + k]];
        CopyStep(before, was, file[start..], k);
        assert file[start..][..k + 1] == file[start..start + k + 1] && file[start..][..k] == file[start..start + k];
      }
      inleft, inp, pos := got, 0, pos + got;
    }

    // unpack.c:179-184: one decoded character.
    method PutChar(ch: Byte, outp0: int, out0: seq<Byte>, ghost orig: int) returns (outp: int, out: seq<Byte>)
      requires Valid() && 0 <= outp0 < bufsiz && SizeLeft(origsize, orig, |out0|)
      modifies this`origsize, outbuff
      ensures 0 <= outp < bufsiz && SizeLeft(origsize, orig, |out|)
      ensures out + outbuff[..outp] == out0 + old(outbuff[..outp0]) + [ch]
    {
      hide SizeLeft;
      outp, out := outp0, out0;
      outbuff[outp] := ch;
      outp := outp + 1;
      assert outbuff[..outp] == old(outbuff[..outp0]) + [ch];
      if outp == bufsiz {
        out := out + outbuff[..bufsiz];
        outp := 0;
        SizeLess(origsize, orig, |out0|, bufsiz);
        origsize := (origsize - bufsiz) % WORD;
      }
    }

    // unpack.c:162-188 for one bit.
    method DecodeOne(bit: bool, lev0: nat, i0: int, outp0: int, out0: seq<Byte>, ghost orig: int,
                     ghost t: Tables, ghost bits: seq<Bit>, ghost whole: Text)
      returns (s: Step, lev: nat, i: int, outp: int, out: seq<Byte>)
      requires Valid() && Holds(t) && 0 <= outp0 < bufsiz && SizeLeft(origsize, orig, |out0|)
      requires |bits| > 0 && bits[0] == bit
      requires Prepend(out0 + outbuff[..outp0], Decoded(t, lev0, i0, bits)) == whole
      modifies this`origsize, outbuff
      ensures 0 <= outp < bufsiz && SizeLeft(origsize, orig, |out|)
      ensures s.Stop? ==> whole == Text(out + outbuff[..outp])
      ensures s.Off? ==> whole == Lost
      ensures s.More? ==> Prepend(out + outbuff[..outp], Decoded(t, lev, i, bits[1..])) == whole
    {
      hide Decoded, SizeLeft;
      lev, i, outp, out, s := lev0, i0, outp0, out0, More;
      i := i * 2;
      if bit {
        i := i + 1;
      }
      DecodeBit(t, lev, i0, bits, i, eof);
      if lev > maxlev {
        return Off, lev, i, outp, out;
      }
      var j := i - intnodes[lev];
      if j >= 0 {
        var p := tree[lev] + j;
        if p == eof {
          assert (out + outbuff[..outp]) + [] == out + outbuff[..outp];
          return Stop, lev, i, outp, out;
        }
        if !(0 <= p < eof) {
          return Off, lev, i, outp, out;
        }
        PrependTwice(out + outbuff[..outp], [characters[p]], Decoded(t, 1, 0, bits[1..]));
        outp, out := PutChar(characters[p], outp, out, orig);
        lev := 1;
        i := 0;
      } else {
        lev := lev + 1;
      }
    }

    // unpack.c:159-189 for one byte: its eight bits.
    method DecodeByte(b: Byte, lev0: nat, i0: int, outp0: int, out0: seq<Byte>, ghost orig: int,
                      ghost t: Tables, ghost rest: seq<Bit>, ghost whole: Text)
      returns (s: Step, lev: nat, i: int, outp: int, out: seq<Byte>)
      requires Valid() && Holds(t) && 0 <= outp0 < bufsiz && SizeLeft(origsize, orig, |out0|)
      requires Prepend(out0 + outbuff[..outp0], Decoded(t, lev0, i0, Bits(b as int, 8) + rest)) == whole
      modifies this`origsize, outbuff
      ensures 0 <= outp < bufsiz && SizeLeft(origsize, orig, |out|)
      ensures s.Stop? ==> whole == Text(out + outbuff[..outp])
      ensures s.Off? ==> whole == Lost
      ensures s.More? ==> Prepend(out + outbuff[..outp], Decoded(t, lev, i, rest)) == whole
    {
      hide Decoded, Bits, Pow2, Prepend, SizeLeft;
      lev, i, outp, out, s := lev0, i0, outp0, out0, More;
      var c := b as int;
      var bitsleft := 8;
      PowZero();
      while bitsleft > 0 && s.More?
        invariant 0 <= bitsleft <= 8 && c == b as int * Pow2(8 - bitsleft)
        invariant 0 <= outp < bufsiz && SizeLeft(origsize, orig, |out|)
        invariant s.Stop? ==> whole == Text(out + outbuff[..outp])
        invariant s.Off? ==> whole == Lost
        invariant s.More? ==> Prepend(out + outbuff[..outp], Decoded(t, lev, i, Bits(b as int, bitsleft) + rest)) == whole
        decreases bitsleft
      {
        TestBit(b as int, bitsleft, c);
        ghost var bits := Bits(b as int, bitsleft) + rest;
        assert bits[1..] == Bits(b as int, bitsleft - 1) + rest;
        bitsleft := bitsleft - 1;
        s, lev, i, outp, out := DecodeOne((c / 128) % 2 == 1, lev, i, outp, out, orig, t, bits, whole);
        c := c * 2;
      }
      NoBits(b as int);
      assert [] + rest == rest;
    }

    // unpack.c:148-159: the next byte of the file; false at its end.
    method NextByte() returns (ok: bool, c: Byte)
      requires Valid() && Buffered()
      modifies this`pos, this`inleft, this`inp, inbuff
      ensures Buffered() && (ok <==> old(Unread()) != [])
      ensures ok ==> old(Unread()) == [c] + Unread()
    {
      ok, c := true, 0;
      if inleft <= 0 {
        Refill();
      }
      inleft := inleft - 1;
      if inleft < 0 {
        inleft := 0;
        ok := false;
      } else {
        c := inbuff[inp];
        inp := inp + 1;
        SplitFirst(inbuff[..], inp - 1, inleft + 1, file[pos..]);
      }
    }

    // unpack.c:149: read the next block; nothing of the file is lost.
    method Refill()
      requires Valid() && Buffered() && inleft == 0
      modifies this`pos, this`inleft, this`inp, inbuff
      ensures Buffered() && Unread() == old(Unread()) && (inleft == 0 ==> Unread() == [])
    {
      ghost var start := pos;
      assert Unread() == file[start..];
      Fill();
      assert inbuff[inp..inp + inleft] == inbuff[..inleft] == file[start..pos];
      assert file[start..pos] + file[pos..] == file[start..];
    }

    // unpack.c:138-191.
    method Decode(ghost t: Tables) returns (r: Result)
      requires Valid() && Holds(t) && 0 <= origsize < WORD && Buffered()
      modifies this`pos, this`inleft, this`inp, this`origsize, inbuff, outbuff
      ensures r == Verdict(Decoded(t, 1, 0, ByteBits(old(Unread()))), old(origsize))
    {
      hide Decoded, ByteBits, Prepend, SizeLeft, Verdict, Bits;
      var outp, out, lev, i := 0, [], 1, 0;
      SizeStarts(origsize);
      ghost var orig, whole := origsize, Decoded(t, 1, 0, ByteBits(Unread()));
      PrependNothing(whole);
      assert out + outbuff[..outp] == [];
      while true
        invariant 0 <= outp < bufsiz && lev >= 0 && SizeLeft(origsize, orig, |out|) && Buffered()
        invariant Prepend(out + outbuff[..outp], Decoded(t, lev, i, ByteBits(Unread()))) == whole
        decreases |Unread()|
      {
        var ok, c := NextByte();
        if !ok {
          NothingLeft(t, lev, i, out + outbuff[..outp]);
          CutShort(orig);
          return Broken;
        }
        ByteBitsCons(c, Unread());
        var s;
        s, lev, i, outp, out := DecodeByte(c, lev, i, outp, out, orig, t, ByteBits(Unread()), whole);
        if s.Off? {
          CutShort(orig);
          return Wild;
        }
        if s.Stop? {
          SizeLess(origsize, orig, |out|, outp);
          origsize := (origsize - outp) % WORD;
          out := out + outbuff[..outp];
          SizeEnds(origsize, orig, out);
          return if origsize != 0 then Broken else Unpacked(out);
        }
      }
    }

    // unpack.c:97-101.
    method GetSize(ghost size: nat)
      requires Valid() && inp == 2
      modifies this`inp, this`origsize
      ensures inp == 6 && 0 <= origsize < WORD
      ensures inbuff[2..6] == SizeBytes(size) ==> origsize == size % WORD
    {
      origsize := 0;
      assert inbuff[2..6][0] == inbuff[2] && inbuff[2..6][1] == inbuff[3] && inbuff[2..6][2] == inbuff[4] &&
        inbuff[2..6][3] == inbuff[5];
      for i := 0 to 4
        invariant inp == 2 + i
        invariant origsize == [0, inbuff[2] as int, inbuff[2] as int * 0x100 + inbuff[3] as int,
          inbuff[2] as int * 0x1_0000 + inbuff[3] as int * 0x100 + inbuff[4] as int,
          inbuff[2] as int * 0x100_0000 + inbuff[3] as int * 0x1_0000 + inbuff[4] as int * 0x100 + inbuff[5] as int][i]
      {
        origsize := origsize * 256 + inbuff[inp] as int;
        inp := inp + 1;
      }
      SizeRoundTrip(size);
    }

    // unpack.c:106-107.
    method GetLevels()
      requires Valid() && 0 <= maxlev <= 24 && inp == 7
      modifies this`inp, intnodes
      ensures inp == 7 + maxlev && forall i :: 1 <= i <= maxlev ==> 0 <= intnodes[i] == inbuff[6 + i] as int < 256
    {
      for i := 1 to maxlev + 1
        invariant inp == 6 + i && forall k :: 1 <= k < i ==> 0 <= intnodes[k] == inbuff[6 + k] as int < 256
      {
        intnodes[i] := inbuff[inp] as int;
        inp := inp + 1;
      }
    }

    // unpack.c:108-116: the dictionary; false when it does not fit.
    method GetCharacters() returns (ok: bool)
      requires Valid() && 0 <= maxlev <= 24 && inp == 7 + maxlev && eof == 0
      requires forall i :: 1 <= i <= maxlev ==> 0 <= intnodes[i] < 256
      modifies this`inp, this`eof, tree, characters
      ensures inp == 7 + maxlev + eof && 0 <= eof <= 256
      ensures ok ==> eof >= 1 && eof == Sum(intnodes[..], maxlev) + 1 && characters[..eof] == inbuff[7 + maxlev..inp]
      ensures ok ==> StartsOf(tree[..], intnodes[..], maxlev)
      ensures Sum(intnodes[..], maxlev) <= 255 ==> ok
    {
      ok := true;
      ghost var base, counts := inp, intnodes[..];
      assert characters[..0] == inbuff[base..base];
      for i := 1 to maxlev + 1
        invariant inp == base + eof && 0 <= eof == Sum(counts, i - 1) <= 255 && intnodes[..] == counts
        invariant characters[..eof] == inbuff[base..inp]
        invariant forall k :: 1 <= k < i ==> tree[k] == Sum(counts, k - 1)
      {
        tree[i] := eof;
        var c := intnodes[i];
        assert c == counts[i];
        while c > 0
          invariant 0 <= c <= counts[i] && inp == base + eof && 0 <= eof == Sum(counts, i - 1) + counts[i] - c <= 255
          invariant characters[..eof] == inbuff[base..inp] && intnodes[..] == counts
          invariant forall k :: 1 <= k <= i ==> tree[k] == Sum(counts, k - 1)
        {
          if eof >= 255 {
            ok := false;
            SumGrows(counts, i, maxlev);
            return;
          }
          characters[eof] := inbuff[inp];
          assert characters[..eof + 1] == characters[..eof] + [inbuff[inp]];
          assert inbuff[base..inp + 1] == inbuff[base..inp] + [inbuff[inp]];
          eof := eof + 1;
          inp := inp + 1;
          c := c - 1;
        }
      }
      characters[eof] := inbuff[inp];
      assert characters[..eof + 1] == characters[..eof] + [inbuff[inp]];
      assert inbuff[base..inp + 1] == inbuff[base..inp] + [inbuff[inp]];
      eof := eof + 1;
      inp := inp + 1;
    }

    // unpack.c:127-132: from leaves to inner nodes, level by level.
    method CountInner(ghost len: seq<int>, ghost headed: bool)
      requires Valid() && 0 <= maxlev <= 24
      requires headed ==> CodeLengths(len, maxlev) && LeavesOf(intnodes[..], len, maxlev)
      modifies intnodes
      ensures headed ==> InnerOf(intnodes[..], len, maxlev)
    {
      var nchildren := 0;
      if headed { InnerDeepest(len, maxlev); }
      var i := maxlev;
      while i >= 1
        invariant 0 <= i <= maxlev && (headed ==> nchildren == 2 * Inner(len, maxlev, i))
        invariant headed ==> forall k :: 1 <= k <= i ==> intnodes[k] == LevCount(len, k, END + 1)
        invariant headed ==> forall k :: i < k <= maxlev ==> intnodes[k] == Inner(len, maxlev, k)
      {
        var c := intnodes[i];
        if headed { InnerStep(len, maxlev, i); }
        nchildren := nchildren / 2;
        intnodes[i] := nchildren;
        nchildren := nchildren + c;
        i := i - 1;
      }
    }

    // unpack.c:78-96: the two magic bytes.
    method GetMagic() returns (r: Opening)
      requires Valid() && pos == 0
      modifies this`pos, this`inleft, this`inp, inbuff
      ensures r.Go? ==> inp == 2 && 0 <= inleft <= bufsiz && pos == inleft <= |file| && file[..inleft] == inbuff[..inleft]
      ensures r.Go? ==> (bufsiz <= |file| ==> inleft == bufsiz) && (bufsiz > |file| ==> inleft == |file|)
      ensures r.Go? ==> inbuff[0] == US && inbuff[1] == RS && (inleft < 7 ==> inbuff[6] == 25)
      ensures r.Refused? ==> r.why == NotPacked || r.why == OldStyle
      ensures |file| >= 2 ==> (r.Go? <==> file[0] == US && file[1] == RS)
      ensures |file| >= 2 ==> (r == Refused(OldStyle) <==> file[0] == US && file[1] == US)
    {
      inbuff[6] := 25;
      ghost var was := inbuff[..];
      Fill();
      assert inleft < 7 ==> inbuff[inleft..][6 - inleft] == was[inleft..][6 - inleft];
      assert |file| >= 2 ==> inbuff[..inleft][0] == file[0] && inbuff[..inleft][1] == file[1];
      if inbuff[0] != US {
        return Refused(NotPacked);
      }
      if inbuff[1] == US {
        return Refused(OldStyle);
      }
      if inbuff[1] != RS {
        return Refused(NotPacked);
      }
      inp := 2;
      return Go;
    }

    // unpack.c:78-105: all before the level counts.
    method GetPreamble(ghost size: nat, ghost len: seq<int>, ghost ml: nat) returns (r: Opening)
      requires Valid() && pos == 0
      modifies this`pos, this`inleft, this`inp, this`origsize, this`maxlev, inbuff
      ensures r.Go? ==> inp == 7 && 0 <= inleft <= bufsiz && pos == inleft <= |file| && file[..inleft] == inbuff[..inleft]
      ensures r.Go? ==> (bufsiz <= |file| ==> inleft == bufsiz) && (bufsiz > |file| ==> inleft == |file|)
      ensures r.Go? ==> 0 <= maxlev <= 24 && 0 <= origsize < WORD
      ensures r.Refused? ==> r.why == NotPacked || r.why == OldStyle
      ensures |file| >= 2 ==> (r == Refused(OldStyle) <==> file[0] == US && file[1] == US)
      ensures |file| >= 2 && r.Go? ==> file[0] == US && file[1] == RS
      ensures |file| >= 8 && file[0] == US && file[1] == RS && file[6] == 0 ==> r.Go? && maxlev == 0
      ensures Headed(file, size, len, ml) ==> r.Go? && maxlev == ml && origsize == size % WORD
    {
      ghost var headed := Headed(file, size, len, ml);
      if headed { HeaderBytes(file, size, len, ml, |Dict(len, ml)|); }
      hide Headed, CodeLengths, Dict, DictLevel, LevelBytes, SizeBytes, Header;
      r := GetMagic();
      if r.Refused? {
        return;
      }
      assert |file| >= 8 ==> inbuff[6] == inbuff[..inleft][6] == file[6];
      if headed { HeaderSeen(file, inbuff[..], inleft, size, len, ml); }
      GetSize(size);
      maxlev := inbuff[inp] as int;
      inp := inp + 1;
      if maxlev > 24 {
        return Refused(NotPacked);
      }
    }

    // unpack.c:68-133.
    method GetDict(ghost size: nat, ghost len: seq<int>, ghost ml: nat) returns (r: Opening)
      requires Valid() && pos == 0
      modifies this, inbuff, intnodes, tree, characters
      ensures r.Refused? ==> r.why == NotPacked || r.why == OldStyle
      ensures |file| >= 2 ==> (r == Refused(OldStyle) <==> file[0] == US && file[1] == US)
      ensures |file| >= 2 && r.Go? ==> file[0] == US && file[1] == RS
      ensures |file| >= 8 && file[0] == US && file[1] == RS && file[6] == 0 ==> r.Go? && maxlev == 0 && eof == 1
      ensures r.Go? ==> Buffered() && 0 <= maxlev <= 24 && 1 <= eof <= 256 && 0 <= origsize < WORD
      ensures r.Go? ==> 7 + maxlev + eof <= |file| && Unread() == file[7 + maxlev + eof..]
      ensures Headed(file, size, len, ml) ==>
        r.Go? && maxlev == ml && origsize == size % WORD && 7 + maxlev + eof == |Header(size, len, ml)| &&
        TablesFor(Tables(intnodes[..maxlev + 1], tree[..maxlev + 1], characters[..eof]), len, ml)
    {
      ghost var headed := Headed(file, size, len, ml);
      if headed { HeaderLength(file, size, len, ml); }
      hide Headed, CodeLengths, Dict, Header, TablesFor;
      r := GetPreamble(size, len, ml);
      if r.Refused? {
        return;
      }
      r := GetTables(size, len, headed);
      if r.Go? {
        Leftover(file, inbuff[..], pos, inp, inleft, inbuff[inp..inp + inleft]);
      }
    }

    // unpack.c:106-132: level counts and dictionary, made into tables.
    method GetTables(ghost size: nat, ghost len: seq<int>, ghost headed: bool) returns (r: Opening)
      requires Valid() && 0 <= maxlev <= 24 && inp == 7 && 0 <= inleft <= bufsiz && pos == inleft <= |file|
      requires file[..inleft] == inbuff[..inleft]
      requires (bufsiz <= |file| ==> inleft == bufsiz) && (bufsiz > |file| ==> inleft == |file|)
      requires headed ==> Headed(file, size, len, maxlev)
      modifies this`inp, this`inleft, this`eof, intnodes, tree, characters
      ensures r.Refused? ==> r.why == NotPacked
      ensures r.Go? ==> 1 <= eof <= 256 && inp == 7 + maxlev + eof && 0 <= inleft == old(inleft) - inp
      ensures maxlev == 0 && old(inleft) >= 8 ==> r.Go? && eof == 1
      ensures headed ==>
        r.Go? && eof == |Dict(len, maxlev)| &&
        TablesFor(Tables(intnodes[..maxlev + 1], tree[..maxlev + 1], characters[..eof]), len, maxlev)
    {
      if headed { HeadedIsCode(file, size, len, maxlev); }
      hide Headed, CodeLengths, Dict, DictLevel, LevelBytes, SizeBytes, Header, TablesFor, CountsOf, LevCount, Inner, Sum, LeavesOf, InnerOf, StartsOf;
      ReadLevels(size, len, headed);
      ghost var counts := intnodes[..];
      NoLeaves(counts);
      eof := 0;
      var ok := GetCharacters();
      if !ok {
        return Refused(NotPacked);
      }
      intnodes[maxlev] := intnodes[maxlev] + 2;
      inleft := inleft - inp;
      if inleft < 0 {
        return Refused(NotPacked);
      }
      CountNodes(counts, len, headed);
      if headed { TablesIn(intnodes[..], tree[..], characters[..], eof, counts, len, maxlev); }
      return Go;
    }

    // unpack.c:108-112: the counts of each level, less two on the last.
    method ReadLevels(ghost size: nat, ghost len: seq<int>, ghost headed: bool)
      requires Valid() && 0 <= maxlev <= 24 && inp == 7 && 0 <= inleft <= bufsiz && inleft <= |file|
      requires file[..inleft] == inbuff[..inleft]
      requires (bufsiz <= |file| ==> inleft == bufsiz) && (bufsiz > |file| ==> inleft == |file|)
      requires headed ==> Headed(file, size, len, maxlev)
      modifies this`inp, intnodes
      ensures inp == 7 + maxlev && forall i :: 1 <= i <= maxlev ==> 0 <= intnodes[i] < 256
      ensures headed ==>
        |len| == END + 1 && CountsOf(intnodes[..], len, maxlev) && Sum(intnodes[..], maxlev) == |Dict(len, maxlev)| - 1 &&
        |Dict(len, maxlev)| <= 256 && 7 + maxlev + |Dict(len, maxlev)| <= inleft &&
        inbuff[7 + maxlev..7 + maxlev + |Dict(len, maxlev)|] == Dict(len, maxlev)
    {
      if headed { HeadedIsCode(file, size, len, maxlev); }
      hide Headed, CodeLengths, Dict, CountsOf, Sum;
      GetLevels();
      if headed { HeaderRead(file, inbuff[..], inleft, size, len, maxlev, intnodes[..]); }
    }

    // unpack.c:122-132, with two leaves more on the last level than counts says.
    method CountNodes(ghost counts: seq<int>, ghost len: seq<int>, ghost headed: bool)
      requires Valid() && 0 <= maxlev <= 24 && |counts| == 25 && intnodes[..] == counts[maxlev := counts[maxlev] + 2]
      requires headed ==> CodeLengths(len, maxlev) && CountsOf(counts, len, maxlev)
      modifies intnodes
      ensures headed ==> InnerOf(intnodes[..], len, maxlev)
    {
      hide CodeLengths, CountsOf, LeavesOf, InnerOf;
      if headed { CountsFull(counts, intnodes[..], len, maxlev); }
      CountInner(len, headed);
    }

    // The arrays hold the tables t.
    ghost predicate Holds(t: Tables)
      requires Valid()
      reads this, intnodes, tree, characters
    {
      0 <= maxlev <= 24 && 0 <= eof <= 256 &&
      t == Tables(intnodes[..maxlev + 1], tree[..maxlev + 1], characters[..eof])
    }

    // unpack.c:66-192 on one file: getdict() and decode().
    method Unpack(ghost data: seq<Byte>, ghost len: seq<int>, ghost ml: nat) returns (r: Result)
      requires Valid() && pos == 0
      modifies this, inbuff, outbuff, intnodes, tree, characters
      ensures Packed(file, data, len, ml) ==> r == Unpacked(data)
      ensures |file| == 8 && file[..7] == Preamble(0, 0) ==> r == Broken
      ensures |file| >= 2 && !(file[0] == US && file[1] == RS) ==> r == if file[0] == US && file[1] == US then OldStyle else NotPacked
    {
      if Packed(file, data, len, ml) { PackedHeaded(file, data, len, ml); }
      if |file| == 8 && file[..7] == Preamble(0, 0) { PreambleMagic(file); }
      hide Packed, Headed, TablesFor, Decoded, ByteBits, Header, Preamble, Verdict, Prepend;
      var o := GetDict(|data|, len, ml);
      if o.Refused? {
        return o.why;
      }
      ghost var t := Tables(intnodes[..maxlev + 1], tree[..maxlev + 1], characters[..eof]);
      Foreseen(t, file, data, len, ml, 7 + maxlev + eof, origsize, Unread());
      r := Decode(t);
    }
  }

  lemma CutShort(size: int)
    ensures Verdict(Cut, size) == Broken && Verdict(Lost, size) == Wild
  {
  }

  lemma VerdictOf(data: seq<Byte>, size: int)
    ensures Verdict(Cut, size) == Broken
    ensures |data| % WORD == size ==> Verdict(Text(data), size) == Unpacked(data)
  {
  }

  // What decode() will find behind the n bytes that getdict() has taken.
  lemma Foreseen(t: Tables, file: seq<Byte>, data: seq<Byte>, len: seq<int>, maxlev: nat, n: nat, size: int, rest: seq<Byte>)
    requires n <= |file| && rest == file[n..]
    requires Packed(file, data, len, maxlev) ==>
      |len| == END + 1 && n == |Header(|data|, len, maxlev)| && TablesFor(t, len, maxlev) && size == |data| % WORD
    ensures Packed(file, data, len, maxlev) ==> Verdict(Decoded(t, 1, 0, ByteBits(rest)), size) == Unpacked(data)
    ensures n == |file| ==> Verdict(Decoded(t, 1, 0, ByteBits(rest)), size) == Broken
  {
    hide Packed, TablesFor, Decoded, ByteBits, Header, Verdict, Prepend;
    VerdictOf(data, size);
    if Packed(file, data, len, maxlev) { DecodedFile(t, file, data, len, maxlev, ByteBits(rest)); }
    if n == |file| { NothingMore(t, rest, size); }
  }

  lemma NothingMore(t: Tables, rest: seq<Byte>, size: int)
    requires |rest| == 0
    ensures Verdict(Decoded(t, 1, 0, ByteBits(rest)), size) == Broken
  {
    hide Verdict, Decoded, ByteBits;
    assert rest == [];
    CutShort(size);
    NothingLeft(t, 1, 0, []);
  }

  lemma PackedHeaded(file: seq<Byte>, data: seq<Byte>, len: seq<int>, maxlev: nat)
    requires Packed(file, data, len, maxlev)
    ensures Headed(file, |data|, len, maxlev)
  {
  }

  lemma PreambleMagic(file: seq<Byte>)
    requires |file| == 8 && file[..7] == Preamble(0, 0)
    ensures file[0] == US && file[1] == RS && file[6] == 0
  {
    assert file[..7][0] == US && file[..7][1] == RS && file[..7][6] == 0;
  }

  // What decode() finds behind the header of a packed file.
  lemma DecodedFile(t: Tables, file: seq<Byte>, data: seq<Byte>, len: seq<int>, maxlev: nat, bits: seq<Bit>)
    requires Packed(file, data, len, maxlev) && TablesFor(t, len, maxlev)
    requires bits == ByteBits(file[|Header(|data|, len, maxlev)|..])
    ensures Decoded(t, 1, 0, bits) == Text(data)
  {
    var pad :| 0 <= pad < 8 && bits == TextBits(len, maxlev, data) + Code(len, maxlev, END) + Zeros(pad);
    DecodedText(t, len, maxlev, data, Zeros(pad));
  }
}
