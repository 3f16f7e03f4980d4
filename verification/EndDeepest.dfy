// pack.c never says it, but its header depends on it: END, the symbol counted
// once while every byte is counted twice, is a deepest leaf.

module EndDeepest {
  import opened Kraft
  import opened Forest
  import opened Lengths
  import opened Canon

  // Counts as pack.c:211 leaves them: one END, bytes counted in twos.
  predicate PackCounts(count: seq<int>) {
    |count| == END + 1 && count[END] == 1 && forall c :: 0 <= c < END ==> count[c] == 0 || count[c] >= 2
  }

  // Lengths as the depth loop leaves them: 0 for what does not occur.
  predicate PackLengths(count: seq<int>, len: seq<int>, maxlev: int) {
    PackCounts(count) && |len| == END + 1 &&
    (forall c :: 0 <= c <= END ==> 0 <= len[c] <= maxlev && (count[c] == 0 ==> len[c] == 0)) &&
    exists c :: 0 <= c <= END && len[c] == maxlev
  }

  lemma {:induction false} PowPositive(items: seq<Item>, top: nat)
    requires Below(items, top)
    ensures KraftSum(items, top) >= |items|
  {
    if |items| != 0 { PowPositive(items[1..], top); }
  }

  // In a full code with two symbols or more no codeword is empty.
  lemma NoEmptyCodeword(items: seq<Item>, top: nat, i: nat)
    requires KraftExact(items, top) && |items| >= 2 && i < |items|
    ensures items[i].len >= 1
  {
    var others := Without(items, i);
    Remove(items, i, top);
    PowPositive(others, top);
  }

  lemma {:induction false} StrictExchange(light: int, heavy: int, short: nat, long: nat)
    requires light < heavy && short < long
    ensures Bill(light, long) + Bill(heavy, short) < Bill(light, short) + Bill(heavy, long)
    decreases long
  {
    if short + 1 < long { StrictExchange(light, heavy, short, long - 1); }
  }

  // Exchanging two codeword lengths.
  lemma SwapLengths(items: seq<Item>, top: nat, p: nat, q: nat) returns (two: seq<Item>)
    requires KraftExact(items, top) && p < |items| && q < |items| && items[p].weight < items[q].weight
    ensures Fits(two, top) && Weights(two) == Weights(items)
    ensures Cost(two) + Bill(items[p].weight, items[p].len) + Bill(items[q].weight, items[q].len)
         == Cost(items) + Bill(items[p].weight, items[q].len) + Bill(items[q].weight, items[p].len)
  {
    var x, y := items[p], items[q];
    var one := items[p := Item(x.weight, y.len)];
    two := one[q := Item(y.weight, x.len)];
    assert Below(two, top);
    hide Cost, Weights, Bill, KraftSum, Share;
    ReplaceLength(items, p, y.len, top);
    ReplaceLength(one, q, x.len, top);
  }

  // In an optimal code a lighter symbol is never higher than a heavier one.
  lemma LighterIsDeeper(items: seq<Item>, top: nat, p: nat, q: nat)
    requires KraftExact(items, top) && LowerBound(Weights(items), Cost(items))
    requires p < |items| && q < |items| && items[p].weight < items[q].weight
    ensures items[p].len >= items[q].len
  {
    hide *;
    var two := SwapLengths(items, top, p, q);
    UseBound(Weights(items), Cost(items), two, top);
    if items[p].len < items[q].len {
      StrictExchange(items[p].weight, items[q].weight, items[p].len, items[q].len);
    }
  }

  lemma UseBound(ws: multiset<int>, c: int, items: seq<Item>, top: nat)
    requires LowerBound(ws, c) && Fits(items, top) && Weights(items) == ws
    ensures Cost(items) >= c
  {
  }

  lemma {:induction false} SymbolIndex(count: seq<int>, s: nat, c: int) returns (i: nat)
    requires |count| == END + 1 && s <= c <= END && count[c] > 0
    ensures i < |Symbols(count, s)| && Symbols(count, s)[i] == c
    decreases END + 1 - s
  {
    SymbolsRange(count, s);
    i :| i < |Symbols(count, s)| && Symbols(count, s)[i] == c;
  }

  // Kraft equality holds at the deepest level itself.
  lemma {:induction false} ExactAt(items: seq<Item>, top: nat, maxlev: nat)
    requires KraftExact(items, top) && Below(items, maxlev) && maxlev <= top
    ensures KraftExact(items, maxlev)
    decreases top
  {
    if maxlev < top {
      NoneAtTop(items, top);
      Lower(items, top);
      ExactAt(items, top - 1, maxlev);
    }
  }

  lemma {:induction false} NoneAtTop(items: seq<Item>, top: nat)
    requires forall i :: 0 <= i < |items| ==> items[i].len < top
    ensures AtTop(items, top) == 0
  {
    if |items| != 0 { NoneAtTop(items[1..], top); }
  }

  // The Kraft sum over the occurring symbols, summed symbol by symbol.
  lemma {:induction false} TakenIsKraft(count: seq<int>, len: seq<int>, lev: nat, s: nat)
    requires |count| == END + 1 && |len| == END + 1 && s <= END + 1
    requires forall c :: 0 <= c <= END ==> (count[c] > 0 ==> len[c] >= 1) && (count[c] <= 0 ==> len[c] == 0)
    ensures KraftSum(ItemsOf(Symbols(count, s), count, len), lev) + Taken(len, lev, s) == Taken(len, lev, END + 1)
    decreases END + 1 - s
  {
    if s == END + 1 {
      assert ItemsOf(Symbols(count, s), count, len) == [];
    } else {
      TakenIsKraft(count, len, lev, s + 1);
      var items := ItemsOf(Symbols(count, s + 1), count, len);
      if count[s] > 0 {
        var x := ItemOf(s, count, len);
        assert ItemsOf(Symbols(count, s), count, len) == items + [x];
        ConcatKraft(items, [x], lev);
        Single(x, lev);
      } else {
        assert ItemsOf(Symbols(count, s), count, len) == items;
      }
    }
  }

  lemma EndDominates(count: seq<int>, len: seq<int>, maxlev: int, top: nat)
    requires PackLengths(count, len, maxlev) && Optimal(count, len)
    requires KraftExact(SymbolItems(count, len), top) && |Symbols(count, 0)| >= 2
    ensures len[END] == maxlev
    ensures forall c :: 0 <= c <= END && count[c] > 0 ==> len[c] >= 1
  {
    var items := SymbolItems(count, len);
    var p := SymbolIndex(count, 0, END);
    forall c | 0 <= c <= END && count[c] > 0
      ensures len[c] >= 1 && len[c] <= len[END]
    {
      var q := SymbolIndex(count, 0, c);
      NoEmptyCodeword(items, top, q);
      if c != END { LighterIsDeeper(items, top, p, q); }
    }
  }

  // The lengths pack.c computes drive the canonical code.
  lemma OptimalIsCanonical(count: seq<int>, len: seq<int>, maxlev: int, top: nat)
    requires PackLengths(count, len, maxlev) && Optimal(count, len)
    requires KraftExact(SymbolItems(count, len), top) && |Symbols(count, 0)| >= 2
    ensures CodeLengths(len, maxlev)
    ensures forall c :: 0 <= c <= END ==> (count[c] > 0 <==> len[c] >= 1)
  {
    EndDominates(count, len, maxlev, top);
    var items := SymbolItems(count, len);
    var syms := Symbols(count, 0);
    SymbolsRange(count, 0);
    forall i | 0 <= i < |items| ensures items[i].len <= maxlev {
      assert syms[i] in syms;
    }
    var e := SymbolIndex(count, 0, END);
    assert maxlev == items[e].len <= top;
    ExactAt(items, top, maxlev);
    TakenIsKraft(count, len, maxlev, 0);
  }
}
