// How long a packed file is, against what pack.c:266 reckons before it writes one.

module PackSize {
  import opened BitStrings
  import opened Forest
  import opened Lengths
  import opened Canon
  import opened PackFormat

  const BLKSIZE := 512

  // Twice the occurrences of every byte, and one END (pack.c:94-98, 211).
  function CountTable(data: seq<Byte>): (t: seq<int>)
    ensures |t| == END + 1 && t[END] == 1 && forall i :: 0 <= i <= END ==> t[i] >= 0
    ensures forall c: Byte :: t[c as int] == 2 * multiset(data)[c]
  {
    seq(END + 1, i requires 0 <= i <= END => if i == END then 1 else 2 * multiset(data)[i as Byte])
  }

  // The bits spent on the bytes of the file (pack.c:257).
  function BitsOut(len: seq<int>, count: seq<int>, i: nat): int
    requires i <= |len| && i <= |count|
  {
    if i == 0 then 0 else BitsOut(len, count, i - 1) + len[i - 1] * (count[i - 1] / 2)
  }

  // What pack.c:266 takes the packed file to come to.
  function Estimate(data: seq<Byte>, len: seq<int>, maxlev: int): int
    requires |len| == END + 1
  {
    (BitsOut(len, CountTable(data), END + 1) + 7) / 8 + 6 + maxlev + |Symbols(CountTable(data), 0)| - 1
  }

  // The blocks that n bytes take.
  function Blocks(n: int): (b: int)
    ensures BLKSIZE * (b - 1) < n <= BLKSIZE * b
  {
    (n + BLKSIZE - 1) / BLKSIZE
  }

  // pack.c:267.
  predicate Saves(data: seq<Byte>, len: seq<int>, maxlev: int)
    requires |len| == END + 1
  {
    Blocks(Estimate(data, len, maxlev)) < Blocks(|data|)
  }

  // The bytes with a codeword are those of the file.
  predicate OnlyThese(len: seq<int>, data: seq<Byte>) {
    |len| == END + 1 && forall c :: 0 <= c < END && len[c] != 0 ==> c as Byte in data
  }

  // One more byte c costs its codeword.
  lemma {:induction false} BitsOutMore(len: seq<int>, count: seq<int>, c: nat, i: nat)
    requires i <= |len| && i <= |count| && c < |count| && c < |len|
    ensures BitsOut(len, count[c := count[c] + 2], i) == BitsOut(len, count, i) + if c < i then len[c] else 0
  {
    if i > 0 {
      BitsOutMore(len, count, c, i - 1);
      if c == i - 1 {
        assert (count[c] + 2) / 2 == count[c] / 2 + 1;
        Distribute(len[c], count[c] / 2);
      }
    }
  }

  lemma Distribute(a: int, b: int)
    ensures a * (b + 1) == a * b + a
  {
  }

  lemma CountMore(data: seq<Byte>, b: Byte)
    ensures CountTable(data + [b]) == CountTable(data)[b as int := CountTable(data)[b as int] + 2]
  {
    var t, u := CountTable(data + [b]), CountTable(data)[b as int := CountTable(data)[b as int] + 2];
    forall i | 0 <= i <= END ensures t[i] == u[i] {
      if i < END {
        assert t[i] == t[(i as Byte) as int];
        assert multiset(data + [b])[i as Byte] == multiset(data)[i as Byte] + if i as Byte == b then 1 else 0;
      }
    }
  }

  lemma {:induction false} NoBits(len: seq<int>, count: seq<int>, i: nat)
    requires i <= |len| && i <= |count| && forall c :: 0 <= c < i ==> count[c] / 2 == 0
    ensures BitsOut(len, count, i) == 0
  {
    if i > 0 { NoBits(len, count, i - 1); }
  }

  // The bits that are reckoned for the text are those it takes.
  lemma {:induction false} TextLength(len: seq<int>, data: seq<Byte>)
    requires Covers(len, data)
    ensures BitsOut(len, CountTable(data), END + 1) == SumLengths(len, data)
  {
    if data == [] {
      forall c | 0 <= c <= END ensures CountTable([])[c] / 2 == 0 {
        if c < END { assert CountTable([])[c] == CountTable([])[(c as Byte) as int]; }
      }
      NoBits(len, CountTable([]), END + 1);
    } else {
      var n := |data| - 1;
      TextLength(len, data[..n]);
      CountMore(data[..n], data[n]);
      assert data[..n] + [data[n]] == data;
      BitsOutMore(len, CountTable(data[..n]), data[n] as int, END + 1);
    }
  }

  lemma {:induction false} DictEntries(len: seq<int>, maxlev: nat, count: seq<int>, s: nat)
    requires |len| == END + 1 == |count| && s <= END
    requires forall c :: 0 <= c < END ==> (1 <= len[c] <= maxlev <==> count[c] > 0)
    ensures Between(len, maxlev, s) + |Symbols(count, s)| == |Symbols(count, 0)|
  {
    hide *;
    BetweenAt(len, maxlev, s);
    if s > 0 {
      DictEntries(len, maxlev, count, s - 1);
      SymbolsAt(count, s - 1);
    }
  }

  lemma BetweenAt(len: seq<int>, maxlev: nat, s: nat)
    requires s <= |len|
    ensures Between(len, maxlev, s) == if s == 0 then 0 else Between(len, maxlev, s - 1) + if 1 <= len[s - 1] <= maxlev then 1 else 0
  {
  }

  lemma SymbolsAt(count: seq<int>, s: nat)
    requires |count| == END + 1 && s < END
    ensures |Symbols(count, s)| == |Symbols(count, s + 1)| + if count[s] > 0 then 1 else 0
  {
  }

  lemma DictIs(len: seq<int>, maxlev: nat, data: seq<Byte>)
    requires CodeLengths(len, maxlev) && Covers(len, data) && OnlyThese(len, data)
    ensures Between(len, maxlev, END) == |Symbols(CountTable(data), 0)| - 1
  {
    var cs := CountTable(data);
    forall c | 0 <= c < END ensures 1 <= len[c] <= maxlev <==> cs[c] > 0 {
      assert cs[c] == cs[(c as Byte) as int];
      assert cs[c] > 0 <==> c as Byte in data;
      if c as Byte in data {
        var i :| 0 <= i < |data| && data[i] == c as Byte;
        assert len[data[i] as int] >= 1;
      }
    }
    hide CodeLengths, Covers, OnlyThese;
    DictEntries(len, maxlev, cs, END);
    assert Symbols(cs, END) == [END];
  }

  // How long the packed file is (pack.c:107-177).
  function PackedLength(data: seq<Byte>, len: seq<int>, maxlev: int): int
    requires Covers(len, data) && maxlev >= 0
  {
    7 + maxlev + Between(len, maxlev, END) + (SumLengths(len, data) + maxlev + 7) / 8
  }

  // The estimate forgets a byte of the header and END's codeword: it falls short
  // by one byte at least and by four at most.
  lemma EstimateShort(data: seq<Byte>, len: seq<int>, maxlev: nat)
    requires CodeLengths(len, maxlev) && maxlev <= WIDTH && Covers(len, data) && OnlyThese(len, data)
    ensures 1 <= PackedLength(data, len, maxlev) - Estimate(data, len, maxlev) <= 4
  {
    CodeHasLevels(len, maxlev);
    hide OnlyThese, Covers, CodeLengths, BitsOut, CountTable, Symbols, Between;
    DictIs(len, maxlev, data);
    TextLength(len, data);
    EstimateGap(SumLengths(len, data), maxlev, Between(len, maxlev, END));
  }

  lemma CodeHasLevels(len: seq<int>, maxlev: nat)
    requires CodeLengths(len, maxlev)
    ensures |len| == END + 1 && maxlev >= 1
  {
  }

  lemma LengthIs(out: seq<Byte>, data: seq<Byte>, len: seq<int>, maxlev: nat)
    requires Packed(out, data, len, maxlev)
    ensures CodeLengths(len, maxlev) && maxlev <= WIDTH && Covers(len, data) && |out| == PackedLength(data, len, maxlev)
  {
    PackedSize(out, data, len, maxlev);
    hide Header, TextBits, Code, ByteBits, Zeros;
  }

  // In blocks: a file is packed if the end of a block lies between the estimate and
  // the end of the file. In bytes: a file is packed if that makes it shorter by a
  // block, and if it is packed it gets longer by three bytes at most.
  lemma Saving(data: seq<Byte>, len: seq<int>, maxlev: nat)
    requires CodeLengths(len, maxlev) && maxlev <= WIDTH && Covers(len, data) && OnlyThese(len, data)
    ensures Saves(data, len, maxlev) <==> exists k: int :: Estimate(data, len, maxlev) <= 512 * k < |data|
    ensures Saves(data, len, maxlev) ==> PackedLength(data, len, maxlev) < |data| + 4
    ensures PackedLength(data, len, maxlev) + 512 <= |data| ==> Saves(data, len, maxlev)
  {
    EstimateShort(data, len, maxlev);
    hide Estimate, Blocks, PackedLength;
    var e := Estimate(data, len, maxlev);
    if Saves(data, len, maxlev) {
      assert e <= 512 * Blocks(e) < |data|;
    }
    if k: int :| e <= 512 * k < |data| {
      InBlocks(e, k);
      InBlocks(|data|, k);
    }
    if e + 512 < |data| {
      InBlocks(e, Blocks(|data|) - 1);
    }
  }

  // k blocks are enough.
  lemma InBlocks(n: int, k: int)
    ensures n <= 512 * k <==> Blocks(n) <= k
  {
    hide Blocks;
  }
}
