// The layout of a packed file (att.rel.2/cmd/pack.c:115-176): header, level
// counts, dictionary, then the codewords of the text and of END.

module PackFormat {
  import opened BitStrings
  import opened Forest
  import opened Canon

  // Storing an int in a char.
  function ToByte(x: int): Byte {
    (x % 256) as Byte
  }

  // The size, most significant byte first (pack.c:119-123).
  function SizeBytes(n: nat): (s: seq<Byte>)
    ensures |s| == 4
  {
    [ToByte(n / 0x100_0000), ToByte(n / 0x1_0000), ToByte(n / 0x100), ToByte(n)]
  }

  // The number of leaves on every level, two less on the last (pack.c:126-128).
  function LevelBytes(len: seq<int>, maxlev: nat, i: nat): (s: seq<Byte>)
    requires |len| == END + 1 && i <= maxlev
    ensures |s| == i
  {
    if i == 0 then []
    else LevelBytes(len, maxlev, i - 1) + [ToByte(LevCount(len, i, END + 1) - if i == maxlev then 2 else 0)]
  }

  // The bytes below c on level lev, in order (pack.c:130-132).
  function DictLevel(len: seq<int>, lev: int, c: nat): (s: seq<Byte>)
    requires |len| == END + 1 && c <= END
    ensures |s| == LevCount(len, lev, c)
  {
    if c == 0 then [] else DictLevel(len, lev, c - 1) + if len[c - 1] == lev then [(c - 1) as Byte] else []
  }

  // The dictionary up to level lev.
  function Dict(len: seq<int>, lev: nat): seq<Byte>
    requires |len| == END + 1
  {
    if lev == 0 then [] else Dict(len, lev - 1) + DictLevel(len, lev, END)
  }

  function Preamble(size: nat, maxlev: nat): (s: seq<Byte>)
    ensures |s| == 7
  {
    [0x1f, 0x1e] + SizeBytes(size) + [ToByte(maxlev)]
  }

  function Header(size: nat, len: seq<int>, maxlev: nat): seq<Byte>
    requires |len| == END + 1
  {
    Preamble(size, maxlev) + LevelBytes(len, maxlev, maxlev) + Dict(len, maxlev)
  }

  // The codewords of the text.
  function TextBits(len: seq<int>, maxlev: nat, data: seq<Byte>): seq<Bit>
    requires CodeLengths(len, maxlev) && Covers(len, data)
  {
    if |data| == 0 then []
    else TextBits(len, maxlev, data[..|data| - 1]) + Code(len, maxlev, data[|data| - 1] as int)
  }

  // Every byte of the text has a codeword.
  predicate Covers(len: seq<int>, data: seq<Byte>) {
    |len| == END + 1 && forall i :: 0 <= i < |data| ==> len[data[i] as int] >= 1
  }

  // out is data packed with the code of these lengths.
  predicate Packed(out: seq<Byte>, data: seq<Byte>, len: seq<int>, maxlev: nat) {
    CodeLengths(len, maxlev) && maxlev <= WIDTH && Covers(len, data) &&
    var h := Header(|data|, len, maxlev);
    h <= out && |out| > |h| &&
    exists pad :: 0 <= pad < 8 &&
      ByteBits(out[|h|..]) == TextBits(len, maxlev, data) + Code(len, maxlev, END) + Zeros(pad)
  }

  // ---------- sizes

  // How many of the bytes below c have a codeword of at most lev bits.
  function Between(len: seq<int>, lev: nat, c: nat): (n: nat)
    requires c <= |len|
    ensures n <= c
  {
    if c == 0 then 0 else Between(len, lev, c - 1) + if 1 <= len[c - 1] <= lev then 1 else 0
  }

  lemma {:induction false} BetweenStep(len: seq<int>, lev: nat, c: nat)
    requires c <= |len| && lev >= 1
    ensures Between(len, lev, c) == Between(len, lev - 1, c) + LevCount(len, lev, c)
  {
    if c > 0 { BetweenStep(len, lev, c - 1); }
  }

  lemma {:induction false} BetweenZero(len: seq<int>, c: nat)
    requires c <= |len|
    ensures Between(len, 0, c) == 0
  {
    if c > 0 { BetweenZero(len, c - 1); }
  }

  lemma {:induction false} DictSize(len: seq<int>, lev: nat)
    requires |len| == END + 1
    ensures |Dict(len, lev)| == Between(len, lev, END) <= END
  {
    if lev == 0 {
      BetweenZero(len, END);
    } else {
      DictSize(len, lev - 1);
      BetweenStep(len, lev, END);
    }
  }

  lemma HeaderSize(size: nat, len: seq<int>, maxlev: nat)
    requires |len| == END + 1
    ensures |Header(size, len, maxlev)| == 7 + maxlev + Between(len, maxlev, END)
  {
    DictSize(len, maxlev);
  }

  // Two levels together hold no more than all symbols.
  lemma {:induction false} TwoLevels(len: seq<int>, a: int, b: int, c: nat)
    requires c <= |len| && a != b
    ensures LevCount(len, a, c) + LevCount(len, b, c) <= c
  {
    if c > 0 { TwoLevels(len, a, b, c - 1); }
  }

  // Every level count written fits its byte.
  lemma LevelBytesFit(len: seq<int>, maxlev: nat, i: nat)
    requires CodeLengths(len, maxlev) && 1 <= i <= maxlev
    ensures 0 <= LevCount(len, i, END + 1) - (if i == maxlev then 2 else 0) <= 255
  {
    DeepestPair(len, maxlev);
    if i < maxlev {
      TwoLevels(len, i, maxlev, END + 1);
    } else {
      TwoLevels(len, maxlev, maxlev + 1, END + 1);
    }
  }

  // ---------- text, symbol by symbol

  lemma TextBitsSnoc(len: seq<int>, maxlev: nat, data: seq<Byte>, b: Byte)
    requires CodeLengths(len, maxlev) && Covers(len, data) && len[b as int] >= 1
    ensures Covers(len, data + [b])
    ensures TextBits(len, maxlev, data + [b]) == TextBits(len, maxlev, data) + Code(len, maxlev, b as int)
  {
    assert (data + [b])[..|data|] == data;
  }

  // ---------- one codeword in a byte stream

  // Byte q of a 32-bit number, most significant first: what **q++ yields.
  function MaskByte(mask: nat, q: nat): Byte
    requires q <= 3
  {
    ToByte(Shr(mask, 8 * (3 - q)))
  }

  lemma LowByte(v: nat)
    ensures Bits(ToByte(v) as int, 8) == Bits(v, 8)
  {
    var h, l := v / 256, v % 256;
    Pow2Of24();
    assert v == h * 256 + l;
    BitsLow(h, l, 8);
  }

  lemma {:induction false} ShrTwice(v: nat, m: nat, n: nat)
    ensures Shr(Shr(v, m), n) == Shr(v, m + n)
  {
    if m > 0 { ShrTwice(v / 2, m - 1, n); }
  }

  // The low bits of a number, cut into its first part and whole bytes.
  lemma MaskParts(mask: nat, k: nat)
    ensures Bits(mask, k + 24) == Bits(Shr(mask, 24), k)
      + Bits(MaskByte(mask, 1) as int, 8) + Bits(MaskByte(mask, 2) as int, 8) + Bits(MaskByte(mask, 3) as int, 8)
  {
    assert k + 24 == (k + 16) + 8 && k + 16 == (k + 8) + 8;
    CutAt(mask, k + 16, 8);
    CutAt(Shr(mask, 8), k + 8, 8);
    ShrTwice(mask, 8, 8);
    CutAt(Shr(mask, 16), k, 8);
    ShrTwice(mask, 16, 8);
    LowByte(mask);
    LowByte(Shr(mask, 8));
    LowByte(Shr(mask, 16));
    assert Shr(mask, 0) == mask;
  }

  // A number shifted left.
  lemma ShiftedBits(w: nat, v: nat, n: nat, m: nat)
    requires w == v * Pow2(m)
    ensures Bits(w, n + m) == Bits(v, n) + Zeros(m)
  {
    hide *;
    Pow2AtLeast(m);
    BitsConcat(v, n, 0, m);
    BitsOfZero(m);
  }

  // bits[c] << bitsleft, bit by bit: w is bits[c], mask its shift.
  lemma MaskBits(v: nat, n: nat, k: nat, w: nat, mask: nat)
    requires n <= WIDTH && k <= 8 && w == v * Pow2(WIDTH - n) && mask == w * Pow2(k)
    ensures Bits(mask, k + 24) == Bits(v, n) + Zeros(WIDTH - n + k)
  {
    assert WIDTH == 24;
    hide *;
    var m := WIDTH - n;
    ShiftedBits(w, v, n, m);
    ShiftedBits(mask, w, 24, k);
    assert Zeros(m) + Zeros(k) == Zeros(m + k);
    assert (Bits(v, n) + Zeros(m)) + Zeros(k) == Bits(v, n) + (Zeros(m) + Zeros(k));
  }

  lemma Pow2AtLeast(n: nat)
    ensures Pow2(n) > 0
  {
  }

  lemma BelowPower(v: nat, n: nat, m: nat)
    requires v < Pow2(n)
    ensures v * Pow2(m) < Pow2(n + m)
  {
    Pow2Add(n, m);
    var d := Pow2(n) - v;
    assert Pow2(n) * Pow2(m) == v * Pow2(m) + d * Pow2(m);
    MulAtLeast(d, Pow2(m));
  }

  // The first byte of the mask has no more than k significant bits.
  lemma FirstByte(w: nat, k: nat, mask: nat)
    requires w < Pow2(WIDTH) && k <= 8 && mask == w * Pow2(k)
    ensures Shr(mask, 24) < Pow2(k) <= 256
    ensures MaskByte(mask, 0) as int == Shr(mask, 24)
  {
    Pow2Of24();
    Pow2Mono(k, 8);
    BelowPower(w, WIDTH, k);
    assert MaskByte(mask, 0) == ToByte(Shr(mask, 24));
    assert WIDTH == 24;
    hide *;
    ShrBelow(mask, k, 24);
    SmallByte(Shr(mask, 24));
  }

  lemma {:induction false} ShrBelow(v: nat, k: nat, n: nat)
    requires v < Pow2(n + k)
    ensures Shr(v, n) < Pow2(k)
  {
    if n > 0 {
      assert Pow2(n + k) == 2 * Pow2(n - 1 + k);
      ShrBelow(v / 2, k, n - 1);
    }
  }

  lemma {:induction false} LowZeros(x: nat, k: nat)
    requires Bits(x, k) == Zeros(k)
    ensures x % Pow2(k) == 0 && x == Shr(x, k) * Pow2(k)
  {
    if k > 0 {
      assert Bits(x, k)[k - 1] == (x % 2 == 1);
      assert Bits(x, k)[..k - 1] == Bits(x / 2, k - 1);
      assert Zeros(k)[..k - 1] == Zeros(k - 1);
      LowZeros(x / 2, k - 1);
      var q, p := Shr(x / 2, k - 1), Pow2(k - 1);
      assert x == 2 * (q * p) == q * (2 * p);
      DivUnique(x, 2 * p, q, 0);
    }
  }

  // Or-ing new bits into the unused end of a byte.
  lemma OrByte(x: nat, head: seq<Bit>, y: nat, k: nat)
    requires k <= 8 && |head| == 8 - k && Bits(x, 8) == head + Zeros(k) && x < 256 && y < Pow2(k)
    ensures BitOr(x, y) < 256 && Bits(BitOr(x, y), 8) == head + Bits(y, k)
  {
    CutAt(x, 8 - k, k);
    assert Bits(x, k) == (head + Zeros(k))[8 - k..];
    LowZeros(x, k);
    OrIsSum(x, y, k);
    var q := Shr(x, k);
    BitsConcat(q, 8 - k, y, k);
    assert Bits(q, 8 - k) == (head + Zeros(k))[..8 - k];
    assert x + y < 256 by {
      Pow2Of24();
      Pow2Add(8 - k, k);
      RoomFor(q, y, Pow2(k), Pow2(8 - k));
    }
  }

  lemma Monotone(q: nat, r: nat, p: nat)
    ensures q >= r ==> q * p >= r * p
  {
    if q >= r {
      assert q * p == r * p + (q - r) * p;
      assert (q - r) * p >= 0;
    }
  }

  lemma RoomFor(q: nat, y: nat, p: nat, r: nat)
    requires y < p && q * p < r * p
    ensures q * p + y < r * p
  {
    Monotone(q, r, p);
    var d := r - q;
    assert r * p == q * p + d * p;
    MulAtLeast(d, p);
  }

  // What the inner loop of pack.c:149-159 has to work with.
  predicate MaskReady(mask: int, k: int, code: seq<Bit>, tail: seq<Bit>) {
    mask >= 0 && 0 <= k <= 8 && |code| <= WIDTH &&
    tail == code + Zeros(WIDTH - |code| + k) &&
    Shr(mask, 24) == MaskByte(mask, 0) as int < Pow2(k) &&
    tail == Bits(Shr(mask, 24), k)
      + Bits(MaskByte(mask, 1) as int, 8) + Bits(MaskByte(mask, 2) as int, 8) + Bits(MaskByte(mask, 3) as int, 8)
  }

  lemma MaskOf(len: seq<int>, maxlev: nat, c: nat, k: nat, mask: int, tail: seq<Bit>)
    requires CodeLengths(len, maxlev) && maxlev <= WIDTH && c <= END && len[c] >= 1 && k <= 8
    requires mask == CodeValue(len, maxlev, c) * Pow2(k)
    requires tail == Code(len, maxlev, c) + Zeros(WIDTH - len[c] + k)
    ensures MaskReady(mask, k, Code(len, maxlev, c), tail)
  {
    var v, n, w := CodeNumber(len, maxlev, c), len[c], CodeValue(len, maxlev, c);
    CodeNumberBound(len, maxlev, c);
    assert w == v * Pow2(WIDTH - n) && Code(len, maxlev, c) == Bits(v, n);
    assert n + (WIDTH - n) == WIDTH;
    hide *;
    BelowPower(v, n, WIDTH - n);
    Products(v, Pow2(WIDTH - n), w, Pow2(k), mask);
    MaskBits(v, n, k, w, mask);
    FirstByte(w, k, mask);
    MaskParts(mask, k);
    MaskReadyIntro(mask, k, Code(len, maxlev, c), tail);
  }

  lemma Products(v: nat, p: nat, w: int, q: nat, mask: int)
    requires w == v * p && mask == w * q
    ensures w >= 0 && mask >= 0
  {
    assert v * p >= 0;
    assert w * q >= 0;
  }

  lemma MaskReadyIntro(mask: int, k: int, code: seq<Bit>, tail: seq<Bit>)
    requires mask >= 0 && 0 <= k <= 8 && |code| <= WIDTH
    requires tail == code + Zeros(WIDTH - |code| + k)
    requires Shr(mask, 24) == MaskByte(mask, 0) as int < Pow2(k)
    requires tail == Bits(Shr(mask, 24), k)
      + Bits(MaskByte(mask, 1) as int, 8) + Bits(MaskByte(mask, 2) as int, 8) + Bits(MaskByte(mask, 3) as int, 8)
    ensures MaskReady(mask, k, code, tail)
  {
  }

  // ---------- the byte stream under construction

  // before followed by buf, up to and including the byte at outp of which
  // bitsleft bits are free (8: not started), holds exactly stream.
  predicate StreamIs(before: seq<Byte>, buf: seq<Byte>, outp: int, bitsleft: int, stream: seq<Bit>) {
    0 <= outp < |buf| && 0 <= bitsleft <= 8 &&
    ByteBits(before + buf[..outp + if bitsleft == 8 then 0 else 1]) == stream + Zeros(bitsleft % 8)
  }

  lemma AppendBits(pre: seq<Byte>, b: Byte)
    ensures ByteBits(pre + [b]) == ByteBits(pre) + Bits(b as int, 8)
  {
    ByteBitsSnoc(pre, b);
  }

  lemma StreamFresh(before: seq<Byte>, buf: seq<Byte>, outp: int, stream: seq<Bit>, y: Byte)
    requires StreamIs(before, buf, outp, 8, stream)
    ensures ByteBits(before + buf[outp := y][..outp + 1]) == stream + Bits(y as int, 8)
  {
    assert stream + Zeros(8 % 8) == stream;
    var pre := before + buf[..outp];
    assert ByteBits(pre) == stream;
    hide *;
    assert before + buf[outp := y][..outp + 1] == pre + [y];
    AppendBits(pre, y);
  }

  lemma StreamShared(before: seq<Byte>, buf: seq<Byte>, outp: int, bitsleft: int, stream: seq<Bit>, y: Byte, nb: Byte)
    requires StreamIs(before, buf, outp, bitsleft, stream) && bitsleft < 8 && y as int < Pow2(bitsleft)
    requires nb == ToByte(BitOr(buf[outp] as int, y as int))
    ensures ByteBits(before + buf[outp := nb][..outp + 1]) == stream + Bits(y as int, bitsleft)
  {
    var pre, x := before + buf[..outp], buf[outp];
    assert buf[..outp + 1] == buf[..outp] + [x];
    assert before + buf[..outp + 1] == pre + [x];
    assert ByteBits(pre + [x]) == stream + Zeros(bitsleft);
    hide *;
    Replaced(before, buf, outp, nb);
    SharedByte(pre, x, bitsleft, stream, y, nb);
  }

  lemma Replaced(before: seq<Byte>, buf: seq<Byte>, outp: int, nb: Byte)
    requires 0 <= outp < |buf|
    ensures before + buf[outp := nb][..outp + 1] == before + buf[..outp] + [nb]
  {
  }

  lemma SharedByte(pre: seq<Byte>, x: Byte, bitsleft: nat, stream: seq<Bit>, y: Byte, nb: Byte)
    requires bitsleft < 8 && y as int < Pow2(bitsleft) && ByteBits(pre + [x]) == stream + Zeros(bitsleft)
    requires nb == ToByte(BitOr(x as int, y as int))
    ensures ByteBits(pre + [nb]) == stream + Bits(y as int, bitsleft)
  {
    hide *;
    AppendBits(pre, nb);
    AppendBits(pre, x);
    SplitByte(ByteBits(pre), Bits(x as int, 8), stream, bitsleft);
    var head := Bits(x as int, 8)[..8 - bitsleft];
    OrByte(x as int, head, y as int, bitsleft);
    SmallByte(BitOr(x as int, y as int));
    assert (ByteBits(pre) + head) + Bits(y as int, bitsleft) == ByteBits(pre) + (head + Bits(y as int, bitsleft));
  }

  lemma SmallByte(v: nat)
    requires v < 256
    ensures ToByte(v) as int == v
  {
  }

  // The first byte of the mask goes into the free bits of the byte at outp.
  lemma StreamFirst(before: seq<Byte>, buf: seq<Byte>, outp: int, bitsleft: int, stream: seq<Bit>, y: Byte, nb: Byte)
    requires StreamIs(before, buf, outp, bitsleft, stream) && y as int < Pow2(bitsleft)
    requires nb == if bitsleft == 8 then y else ToByte(BitOr(buf[outp] as int, y as int))
    ensures ByteBits(before + buf[outp := nb][..outp + 1]) == stream + Bits(y as int, bitsleft)
  {
    hide *;
    if bitsleft == 8 {
      StreamFresh(before, buf, outp, stream, y);
    } else {
      StreamBound(before, buf, outp, bitsleft, stream);
      StreamShared(before, buf, outp, bitsleft, stream, y, nb);
    }
  }

  lemma StreamBound(before: seq<Byte>, buf: seq<Byte>, outp: int, bitsleft: int, stream: seq<Bit>)
    requires StreamIs(before, buf, outp, bitsleft, stream)
    ensures 0 <= outp < |buf| && 0 <= bitsleft <= 8
  {
  }

  lemma SplitByte(a: seq<Bit>, x: seq<Bit>, stream: seq<Bit>, k: nat)
    requires |x| == 8 && k < 8 && a + x == stream + Zeros(k)
    ensures x == x[..8 - k] + Zeros(k) && stream == a + x[..8 - k]
  {
    var all := a + x;
    assert all[..|all| - k] == stream && all[|all| - k..] == Zeros(k);
    assert all[..|all| - k] == a + x[..8 - k] && all[|all| - k..] == x[8 - k..];
  }

  lemma StreamNext(before: seq<Byte>, buf: seq<Byte>, outp: int, b: Byte)
    requires 0 <= outp && outp + 1 < |buf|
    ensures ByteBits(before + buf[outp + 1 := b][..outp + 2]) == ByteBits(before + buf[..outp + 1]) + Bits(b as int, 8)
  {
    AppendBits(before + buf[..outp + 1], b);
    assert before + buf[outp + 1 := b][..outp + 2] == (before + buf[..outp + 1]) + [b];
  }

  // Byte q of the mask continues its bits.
  lemma TailStep(mask: int, k: int, code: seq<Bit>, tail: seq<Bit>, q: nat)
    requires MaskReady(mask, k, code, tail) && 1 <= q <= 3
    ensures |tail| == 24 + k && tail[..k + 8 * q] == tail[..k + 8 * (q - 1)] + Bits(MaskByte(mask, q) as int, 8)
    ensures tail[..k] == Bits(MaskByte(mask, 0) as int, k)
  {
    Pieces(Bits(Shr(mask, 24), k), Bits(MaskByte(mask, 1) as int, 8), Bits(MaskByte(mask, 2) as int, 8),
           Bits(MaskByte(mask, 3) as int, 8), tail);
  }

  lemma Pieces(a: seq<Bit>, b: seq<Bit>, c: seq<Bit>, d: seq<Bit>, tail: seq<Bit>)
    requires |b| == |c| == |d| == 8 && tail == a + b + c + d
    ensures tail[..|a|] == a && tail[..|a| + 8] == tail[..|a|] + b
    ensures tail[..|a| + 16] == tail[..|a| + 8] + c && tail[..|a| + 24] == tail[..|a| + 16] + d
  {
  }

  lemma StreamDone(before: seq<Byte>, buf: seq<Byte>, outp: int, bitsleft: int, stream: seq<Bit>,
                   code: seq<Bit>, pad: nat, tail: seq<Bit>)
    requires 0 <= outp < |buf| && 0 <= bitsleft < 8 && bitsleft <= pad && tail == code + Zeros(pad)
    requires ByteBits(before + buf[..outp + 1]) == stream + tail[..|code| + bitsleft]
    ensures StreamIs(before, buf, outp, bitsleft, stream + code)
  {
    assert tail[..|code| + bitsleft] == code + Zeros(bitsleft);
    assert stream + (code + Zeros(bitsleft)) == (stream + code) + Zeros(bitsleft);
  }

  // The flush: 512 bytes go out, the four behind them move to the front.
  lemma StreamFlush(before: seq<Byte>, buf: seq<Byte>, buf': seq<Byte>, outp: int, bitsleft: int, stream: seq<Bit>, n: nat)
    requires StreamIs(before, buf, outp, bitsleft, stream) && bitsleft < 8
    requires |buf| == |buf'| == n + 4 && n <= outp && n >= 4
    requires buf'[..4] == buf[n..]
    ensures StreamIs(before + buf[..n], buf', outp - n, bitsleft, stream)
  {
    assert buf'[..outp - n + 1] == buf'[..4][..outp - n + 1];
    assert (before + buf[..n]) + buf'[..outp - n + 1] == before + buf[..outp + 1];
  }

  // ---------- the size of the result

  lemma {:induction false} TextBitsLength(len: seq<int>, maxlev: nat, data: seq<Byte>, bits: nat)
    requires CodeLengths(len, maxlev) && Covers(len, data)
    requires bits == SumLengths(len, data)
    ensures |TextBits(len, maxlev, data)| == bits
  {
    if |data| > 0 {
      var n := |data| - 1;
      TextBitsLength(len, maxlev, data[..n], SumLengths(len, data[..n]));
    }
  }

  // The codeword lengths of the text, added up.
  function SumLengths(len: seq<int>, data: seq<Byte>): nat
    requires Covers(len, data)
  {
    if |data| == 0 then 0 else SumLengths(len, data[..|data| - 1]) + len[data[|data| - 1] as int]
  }

  // A packed file is header, codewords and END, rounded up to bytes.
  lemma PackedSize(out: seq<Byte>, data: seq<Byte>, len: seq<int>, maxlev: nat)
    requires Packed(out, data, len, maxlev)
    ensures |out| == 7 + maxlev + Between(len, maxlev, END) + (SumLengths(len, data) + maxlev + 7) / 8
  {
    var h := Header(|data|, len, maxlev);
    HeaderSize(|data|, len, maxlev);
    TextBitsLength(len, maxlev, data, SumLengths(len, data));
    var pad :| 0 <= pad < 8 &&
      ByteBits(out[|h|..]) == TextBits(len, maxlev, data) + Code(len, maxlev, END) + Zeros(pad);
    var body := |out| - |h|;
    assert 8 * body == SumLengths(len, data) + maxlev + pad;
  }

  lemma SizeIs(n: nat)
    ensures
      var s := SizeBytes(n);
      ((s[0] as int * 256 + s[1] as int) * 256 + s[2] as int) * 256 + s[3] as int == n % 0x1_0000_0000
  {
    var a, b, c := n / 0x100, n / 0x1_0000, n / 0x100_0000;
    assert n == 256 * a + n % 256 && a == 256 * b + a % 256 && b == 256 * c + b % 256;
    assert c == 256 * (c / 256) + c % 256;
  }

  // A packed file begins with 037 036 and the size of the text, as a long with the
  // most significant byte first.
  predicate Begins(out: seq<Byte>, size: nat) {
    |out| >= 8 && out[0] == 31 && out[1] == 30 &&
    ((out[2] as int * 256 + out[3] as int) * 256 + out[4] as int) * 256 + out[5] as int == size % 0x1_0000_0000
  }

  lemma PreambleBegins(p: seq<Byte>, size: nat, maxlev: nat, rest: seq<Byte>)
    requires p == Preamble(size, maxlev) && |rest| > 0
    ensures Begins(p + rest, size)
  {
    SizeIs(size);
    assert p[2..6] == SizeBytes(size);
    hide SizeBytes;
    var out := p + rest;
    assert forall i :: 0 <= i < 4 ==> out[i + 2] == p[2..6][i];
  }

  lemma PackedBegins(out: seq<Byte>, data: seq<Byte>, len: seq<int>, maxlev: nat)
    requires Packed(out, data, len, maxlev)
    ensures Begins(out, |data|)
  {
    assert |len| == END + 1;
    hide CodeLengths, Covers, TextBits, Preamble, Begins;
    var h, p := Header(|data|, len, maxlev), Preamble(|data|, maxlev);
    var rest := LevelBytes(len, maxlev, maxlev) + Dict(len, maxlev) + out[|h|..];
    hide Packed, Header, LevelBytes, Dict;
    assert out == p + rest;
    PreambleBegins(p, |data|, maxlev, rest);
  }

  // pack.c:266 guesses too little, by one to four bytes: it leaves out END's
  // codeword and one byte of the header.
  lemma EstimateGap(bits: nat, maxlev: nat, diffbytes: nat)
    requires 1 <= maxlev <= WIDTH
    ensures
      var estimate := (bits + 7) / 8 + 6 + maxlev + diffbytes;
      var actual := 7 + maxlev + diffbytes + (bits + maxlev + 7) / 8;
      estimate + 1 <= actual <= estimate + 4
  {
  }
}
