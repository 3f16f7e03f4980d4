// Codewords proper.  Every prefix-free list of codewords satisfies the Kraft
// inequality, so a bound on all lists that fit is a bound on all prefix codes.

module PrefixCodes {
  import opened BitStrings
  import opened Kraft

  type Codeword = seq<Bit>

  predicate Related(a: Codeword, b: Codeword) {
    a <= b || b <= a
  }

  // No codeword is a prefix of another one in the list.
  predicate PrefixFree(codes: seq<Codeword>) {
    forall i, j :: 0 <= i < j < |codes| ==> !Related(codes[i], codes[j])
  }

  predicate Short(codes: seq<Codeword>, top: nat) {
    forall i :: 0 <= i < |codes| ==> |codes[i]| <= top
  }

  function Shares(codes: seq<Codeword>, top: nat): nat {
    if |codes| == 0 then 0 else Share(|codes[0]|, top) + Shares(codes[1..], top)
  }

  // The codewords that begin with b, with that bit taken off.
  function Strip(codes: seq<Codeword>, b: Bit): seq<Codeword> {
    if |codes| == 0 then []
    else if codes[0] != [] && codes[0][0] == b then [codes[0][1..]] + Strip(codes[1..], b)
    else Strip(codes[1..], b)
  }

  lemma {:induction false} StripOrigin(codes: seq<Codeword>, b: Bit, i: nat) returns (k: nat)
    requires i < |Strip(codes, b)|
    ensures k < |codes| && codes[k] == [b] + Strip(codes, b)[i]
  {
    if codes[0] != [] && codes[0][0] == b {
      if i == 0 {
        k := 0;
      } else {
        k := StripOrigin(codes[1..], b, i - 1);
        k := k + 1;
      }
    } else {
      k := StripOrigin(codes[1..], b, i);
      k := k + 1;
    }
  }

  lemma RelatedTails(b: Bit, x: Codeword, y: Codeword)
    ensures Related(x, y) ==> Related([b] + x, [b] + y)
  {
    if x <= y {
      assert [b] + x <= [b] + y;
    } else if y <= x {
      assert [b] + y <= [b] + x;
    }
  }

  lemma {:induction false} StripOk(codes: seq<Codeword>, b: Bit, top: nat)
    requires PrefixFree(codes) && Short(codes, top + 1)
    ensures PrefixFree(Strip(codes, b)) && Short(Strip(codes, b), top)
  {
    if |codes| != 0 {
      StripOk(codes[1..], b, top);
      var tail := Strip(codes[1..], b);
      if codes[0] != [] && codes[0][0] == b {
        var head := codes[0][1..];
        assert codes[0] == [b] + head;
        forall i | 0 <= i < |tail| ensures !Related(head, tail[i]) {
          var k := StripOrigin(codes[1..], b, i);
          assert codes[1..][k] == codes[k + 1] == [b] + tail[i];
          assert !Related(codes[0], codes[k + 1]);
          RelatedTails(b, head, tail[i]);
        }
      }
    }
  }

  lemma {:induction false} StripShares(codes: seq<Codeword>, top: nat)
    requires forall i :: 0 <= i < |codes| ==> codes[i] != []
    ensures Shares(codes, top + 1) == Shares(Strip(codes, false), top) + Shares(Strip(codes, true), top)
  {
    if |codes| != 0 { StripShares(codes[1..], top); }
  }

  lemma {:induction false} KraftInequality(codes: seq<Codeword>, top: nat)
    requires PrefixFree(codes) && Short(codes, top)
    ensures Shares(codes, top) <= Pow2(top)
    decreases top
  {
    if |codes| == 0 {
    } else if |codes| == 1 {
      assert codes[1..] == [];
      if |codes[0]| > 0 { Pow2Mono(top - |codes[0]|, top); }
    } else {
      forall i | 0 <= i < |codes| ensures codes[i] != [] {
        if codes[i] == [] {
          var j := if i == 0 then 1 else 0;
          assert Related(codes[i], codes[j]);
          assert Related(codes[j], codes[i]);
        }
      }
      assert codes[0] != [];
      StripOk(codes, false, top - 1);
      StripOk(codes, true, top - 1);
      KraftInequality(Strip(codes, false), top - 1);
      KraftInequality(Strip(codes, true), top - 1);
      StripShares(codes, top - 1);
    }
  }

  // A code as a list of items, weight by weight.
  function CodeItems(weights: seq<nat>, codes: seq<Codeword>): (items: seq<Item>)
    requires |weights| == |codes|
    ensures |items| == |codes|
    ensures forall i :: 0 <= i < |items| ==> items[i] == Item(weights[i], |codes[i]|)
  {
    seq(|codes|, i requires 0 <= i < |codes| => Item(weights[i], |codes[i]|))
  }

  lemma {:induction false} CodeItemsKraft(weights: seq<nat>, codes: seq<Codeword>, top: nat)
    requires |weights| == |codes|
    ensures KraftSum(CodeItems(weights, codes), top) == Shares(codes, top)
  {
    if |codes| != 0 {
      CodeItemsKraft(weights[1..], codes[1..], top);
      assert CodeItems(weights, codes)[1..] == CodeItems(weights[1..], codes[1..]);
    }
  }

  lemma {:induction false} LongestCodeword(codes: seq<Codeword>) returns (top: nat)
    ensures Short(codes, top)
  {
    if |codes| == 0 {
      top := 0;
    } else {
      top := LongestCodeword(codes[1..]);
      top := if |codes[0]| > top then |codes[0]| else top;
      forall i | 0 <= i < |codes| ensures |codes[i]| <= top {
        assert i > 0 ==> codes[i] == codes[1..][i - 1];
      }
    }
  }

  // Every prefix code fits.
  lemma PrefixCodeFits(weights: seq<nat>, codes: seq<Codeword>) returns (top: nat)
    requires |weights| == |codes| && PrefixFree(codes)
    ensures Fits(CodeItems(weights, codes), top)
  {
    top := LongestCodeword(codes);
    KraftInequality(codes, top);
    CodeItemsKraft(weights, codes, top);
  }
}
