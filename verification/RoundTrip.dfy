// pack, then unpack.

module RoundTrip {
  import opened BitStrings
  import opened Forest
  import opened Huffman
  import opened Lengths
  import opened PackFormat
  import opened Packing
  import opened PackSize
  import opened Unpacking

  datatype Trip = NotDone(why: Outcome) | Back(packed: seq<Byte>, text: Result)

  predicate OneByte(data: seq<Byte>) {
    data != [] && forall i :: 0 <= i < |data| ==> data[i] == data[0]
  }

  lemma {:induction false} ThreeSymbols(count: seq<int>, b: int, c: int, s: nat)
    requires |count| == END + 1 && count[END] > 0 && 0 <= b < c < END && count[b] > 0 && count[c] > 0 && s <= END
    ensures |Symbols(count, s)| >= 1 + (if s <= b then 1 else 0) + (if s <= c then 1 else 0)
    decreases END - s
  {
    if s < END { ThreeSymbols(count, b, c, s + 1); }
  }

  lemma {:induction false} TwoSymbols(count: seq<int>, b: int, s: nat)
    requires |count| == END + 1 && count[END] > 0 && 0 <= b < END && s <= END
    requires forall c :: 0 <= c < END ==> (count[c] > 0 <==> c == b)
    ensures |Symbols(count, s)| == 1 + if s <= b then 1 else 0
    decreases END - s
  {
    if s < END { TwoSymbols(count, b, s + 1); }
  }

  // A file is trivial when it is one byte repeated.
  lemma TrivialMeans(data: seq<Byte>)
    ensures |Symbols(CountTable(data), 0)| == 2 <==> OneByte(data)
  {
    var cs := CountTable(data);
    forall c | 0 <= c < END ensures cs[c] > 0 <==> c as Byte in data {
      assert cs[c] == cs[(c as Byte) as int];
    }
    if data == [] {
      EmptySymbols(0);
    } else if OneByte(data) {
      TwoSymbols(cs, data[0] as int, 0);
    } else {
      var i :| 0 <= i < |data| && data[i] != data[0];
      var b, c := data[0] as int, data[i] as int;
      ThreeSymbols(cs, if b < c then b else c, if b < c then c else b, 0);
    }
  }

  // Whatever pack writes, unpack gives back, byte for byte and whatever the
  // sizes of the blocks, with one exception: an empty file packed with -f.  With
  // -f nothing but a file of one byte repeated is refused, until there is room
  // for a tree of more than 24 levels.
  method PackAndUnpack(data: seq<Byte>, force: bool, bufsiz: nat) returns (r: Trip)
    requires bufsiz >= 512
    ensures r.Back? ==> (r.text == Unpacked(data) <==> data != [])
    ensures r.Back? && data == [] ==> r.text == Broken
    ensures r.NotDone? ==> !r.why.Done? && (r.why.Trivial? <==> OneByte(data)) && (r.why.NoSaving? ==> !force)
    ensures r.Back? && !force ==> |r.packed| < |data| + 4
    ensures r.Back? && data != [] ==> Begins(r.packed, |data|)
    ensures r.NotDone? && r.why.TooManyLevels? ==> |data| >= 196417
    ensures force && |data| < 196417 && !OneByte(data) ==> r.Back?
  {
    hide Fib, Symbols, CountTable, OneByte, Begins, Packed;
    TrivialMeans(data);
    var packer := new Packer();
    var packed := packer.Packfile(data, force);
    if !packed.Done? {
      DeepTree();
      return NotDone(packed);
    }
    if data != [] { PackedBegins(packed.out, data, packer.length[..], packer.maxlev); }
    var unpacker := new Unpacker(packed.out, bufsiz);
    var text := unpacker.Unpack(data, packer.length[..], if packer.maxlev >= 0 then packer.maxlev else 0);
    return Back(packed.out, text);
  }

  lemma DeepTree()
    ensures Fib(27) == 196418
  {
    assert Fib(9) == 34 && Fib(10) == 55;
    assert Fib(14) == 377 && Fib(15) == 610;
    assert Fib(19) == 4181 && Fib(20) == 6765;
    assert Fib(23) == 28657 && Fib(24) == 46368;
  }
}
