// When cfail() has room for all states (fgrep.c:317-345), seen from the keywords.

module Overflows {
  import opened FgrepQueue
  import opened Fgrep
  import opened Permutations

  // ---------- no state comes twice

  // Kid i is behind a letter of the state.
  lemma {:induction false} KidNode(w: seq<Node>, name: seq<string>, head: seq<int>, s: int, i: nat) returns (j: int)
    requires Trie(w, name) && Shape(w, name, head) && 0 <= s < |head| && |head| == |name| && i < |Kids(w, name, s)|
    ensures s <= j < |head| && j < |w| && head[j] == head[s] && w[j].inp != NUL && w[j].nst == Kids(w, name, s)[i]
    ensures 0 < w[j].nst < |head| && head[w[j].nst] == w[j].nst
    decreases |head| - s
  {
    ShapeSize(w, name, head);
    KidsStep(w, name, s);
    Leads(w, name, s);
    HeadBehind(w, name, head, s);
    if w[s].inp != NUL && i == 0 {
      j := s;
    } else {
      j := KidNode(w, name, head, w[s].link, if w[s].inp != NUL then i - 1 else i);
    }
  }

  // Behind every letter of the state is a kid.
  lemma {:induction false} InKids(w: seq<Node>, name: seq<string>, head: seq<int>, s: int, j: int)
    requires Trie(w, name) && Shape(w, name, head) && |head| == |name| <= |w| && 0 <= s <= j < |head| && head[j] == head[s] && w[j].inp != NUL
    ensures w[j].nst in Kids(w, name, s)
    decreases j - s
  {
    KidsStep(w, name, s);
    if s < j {
      LinkOrder(w, name, head, s, j);
      HeadBehind(w, name, head, s);
      Leads(w, name, s);
      InKids(w, name, head, w[s].link, j);
    }
  }

  lemma {:induction false} KidsDistinct(w: seq<Node>, name: seq<string>, head: seq<int>, s: int)
    requires Trie(w, name) && Shape(w, name, head) && |head| == |name| && 0 <= s < |head|
    ensures Distinct(Kids(w, name, s))
    decreases |head| - s
  {
    KidsStep(w, name, s);
    Leads(w, name, s);
    HeadBehind(w, name, head, s);
    if w[s].link != 0 {
      var rest := Kids(w, name, w[s].link);
      KidsDistinct(w, name, head, w[s].link);
      if w[s].inp != NUL {
        forall i | 0 <= i < |rest| ensures rest[i] != w[s].nst {
          var j := KidNode(w, name, head, w[s].link, i);
          OneLetterEach(w, name, head, s, j);
        }
      }
    }
  }

  lemma OneLetterEach(w: seq<Node>, name: seq<string>, head: seq<int>, j: int, k: int)
    requires Shape(w, name, head) && 0 <= j < |head| <= |w| && 0 <= k < |head| && w[j].inp != NUL && w[k].inp != NUL
    ensures w[j].nst == w[k].nst ==> j == k
    ensures head[j] == head[k] && w[j].inp == w[k].inp ==> j == k
  {
  }

  // Led to from one of the states.
  predicate LedFrom(w: seq<Node>, head: seq<int>, states: seq<int>, e: int) {
    exists j :: 0 <= j < |head| && j < |w| && w[j].inp != NUL && w[j].nst == e && head[j] in states
  }

  // The first m states have been taken.
  predicate Taken(w: seq<Node>, head: seq<int>, order: seq<int>, m: nat) {
    m <= |order| && Distinct(order) && (forall e <- order :: 0 <= e < |head| && head[e] == e) &&
    forall i :: 0 < i < |order| ==> LedFrom(w, head, order[..m], order[i])
  }

  lemma {:induction false} OrderTaken(w: seq<Node>, name: seq<string>, head: seq<int>, m: nat)
    requires Trie(w, name) && Shape(w, name, head)
    ensures Taken(w, head, Order(w, name, m), if m <= |Order(w, name, m)| then m else |Order(w, name, m)|)
  {
    hide *;
    ShapeSize(w, name, head);
    if m == 0 {
      RootTaken(w, name, head);
    } else {
      var order := Order(w, name, m - 1);
      OrderTaken(w, name, head, m - 1);
      OrderStep(w, name, m - 1);
      KidsOfIs(w, name, m - 1);
      if m <= |order| {
        TakeOne(w, name, head, order, m - 1, order[m - 1]);
      } else {
        assert order + [] == order;
      }
    }
  }

  lemma RootTaken(w: seq<Node>, name: seq<string>, head: seq<int>)
    requires Trie(w, name) && Shape(w, name, head)
    ensures Order(w, name, 0) == [0] && Taken(w, head, [0], 0)
  {
    HeadIs(w, name, head, 0);
  }

  lemma KidsOfIs(w: seq<Node>, name: seq<string>, m: nat)
    requires Trie(w, name)
    ensures KidsOf(w, name, m) == if m < |Order(w, name, m)| then Kids(w, name, Order(w, name, m)[m]) else []
  {
  }

  lemma TakeOne(w: seq<Node>, name: seq<string>, head: seq<int>, order: seq<int>, m: nat, h: int)
    requires Trie(w, name) && Shape(w, name, head) && |head| == |name| <= |w| && Taken(w, head, order, m) && m < |order| && h == order[m] && order[0] == 0
    requires 0 <= h < |name|
    ensures Taken(w, head, order + Kids(w, name, h), m + 1)
  {
    hide Trie, Shape, Kids;
    var kids := Kids(w, name, h);
    KidsDistinct(w, name, head, h);
    forall i | 0 <= i < |kids| ensures 0 <= kids[i] < |head| && head[kids[i]] == kids[i] && kids[i] !in order && LedFrom(w, head, order[..m + 1], kids[i]) {
      var j := KidNode(w, name, head, h, i);
      assert order[..m + 1][m] == h;
      NotTaken(w, name, head, order, m, j);
    }
    var more := order + kids;
    forall i | 0 < i < |more| ensures LedFrom(w, head, more[..m + 1], more[i]) {
      assert more[..m + 1] == order[..m + 1];
      if i < |order| { StillFrom(w, head, order, m, order[i]); }
    }
    hide LedFrom;
    assert Distinct(more);
  }

  lemma StillFrom(w: seq<Node>, head: seq<int>, order: seq<int>, m: nat, e: int)
    requires m < |order| && LedFrom(w, head, order[..m], e)
    ensures LedFrom(w, head, order[..m + 1], e)
  {
    assert order[..m + 1] == order[..m] + [order[m]];
  }

  // What lies behind a letter of state m is new.
  lemma NotTaken(w: seq<Node>, name: seq<string>, head: seq<int>, order: seq<int>, m: nat, j: int)
    requires Shape(w, name, head) && Taken(w, head, order, m) && m < |order| && order[0] == 0
    requires 0 <= j < |head| <= |w| && head[j] == order[m] && w[j].inp != NUL && w[j].nst > 0
    ensures w[j].nst !in order
  {
    hide Shape;
    if w[j].nst in order {
      var i :| 0 <= i < |order| && order[i] == w[j].nst;
      assert i > 0 && LedFrom(w, head, order[..m], order[i]);
      var k :| 0 <= k < |head| && k < |w| && w[k].inp != NUL && w[k].nst == order[i] && head[k] in order[..m];
      OneLetterEach(w, name, head, j, k);
    }
  }

  function Firsts(head: seq<int>): set<int> {
    set k | 0 <= k < |head| && head[k] == k
  }

  lemma {:induction false} FirstsSize(head: seq<int>)
    requires forall k :: 0 <= k < |head| ==> head[k] <= k
    ensures |Firsts(head)| == StateCount(head)
  {
    if |head| > 0 {
      var n := |head| - 1;
      FirstsSize(head[..n]);
      assert Firsts(head) == Firsts(head[..n]) + if head[n] == n then {n} else {};
    }
  }

  // No more states come than there are.
  lemma OrderSize(w: seq<Node>, name: seq<string>, head: seq<int>, m: nat)
    requires Trie(w, name) && Shape(w, name, head)
    ensures |Order(w, name, m)| <= StateCount(head)
  {
    ShapeSize(w, name, head);
    OrderTaken(w, name, head, m);
    forall k | 0 <= k < |head| ensures head[k] <= k { HeadIs(w, name, head, k); }
    hide Trie, Shape, Order;
    var order := Order(w, name, m);
    FirstsSize(head);
    DistinctSize(order);
    assert Values(order) <= Firsts(head);
    Subset(Values(order), Firsts(head));
  }

  lemma RoomFor(w: seq<Node>, name: seq<string>, head: seq<int>, m: nat)
    requires Trie(w, name) && Shape(w, name, head) && StateCount(head) < QSIZE
    ensures !Crowded(w, name, m) && !Strays(w, name, m)
  {
    hide Trie, Shape, Order, KidsOf;
    OrderStep(w, name, m);
    OrderSize(w, name, head, m + 1);
    SomeKid(w, name, m);
    if m % QSIZE == QSIZE - 1 { assert m >= QSIZE - 1; }
  }

  lemma SomeKid(w: seq<Node>, name: seq<string>, m: nat)
    requires Trie(w, name)
    ensures KidsOf(w, name, m) != [] ==> m < |Order(w, name, m)|
  {
    hide Trie, Order, Kids;
  }

  // Fewer than QSIZE states always have room.
  lemma FewStates(w: seq<Node>, name: seq<string>, head: seq<int>, o: Outcome)
    requires Trie(w, name) && Shape(w, name, head) && Fares(w, name, o) && StateCount(head) < QSIZE
    ensures o.Made?
  {
    hide Trie, Shape, Smooth, Crowded, Strays;
    if !o.Made? {
      var m: nat :| Smooth(w, name, m) && (Crowded(w, name, m) || Strays(w, name, m));
      RoomFor(w, name, head, m);
    }
  }

  // ---------- one keyword

  // The trie of a single keyword.
  ghost predicate OnlyWord(w: seq<Node>, name: seq<string>, word: string)
    requires Trie(w, name)
  {
    NUL !in word && forall str :: NUL !in str ==> (Walk(w, name, 0, str) != -1 <==> str <= word)
  }

  // A state has the next letter of the word, and no other.
  lemma WordKids(w: seq<Node>, name: seq<string>, head: seq<int>, word: string, m: nat)
    requires Trie(w, name) && Shape(w, name, head) && OnlyWord(w, name, word) && m <= |word|
    ensures NUL !in word[..m] && 0 <= Walk(w, name, 0, word[..m]) < |name|
    ensures
      var kids := Kids(w, name, Walk(w, name, 0, word[..m]));
      if m < |word| then NUL !in word[..m + 1] && kids == [Walk(w, name, 0, word[..m + 1])] else kids == []
  {
    hide Trie, Shape, Kids, Walk, Step;
    ShapeSize(w, name, head);
    NameZero(w, name);
    WordPart(w, name, word, m);
    var h := Walk(w, name, 0, word[..m]);
    HeadIs(w, name, head, 0);
    WalkIsHead(w, name, head, 0, word[..m]);
    var kids := Kids(w, name, h);
    if m < |word| {
      WordPart(w, name, word, m + 1);
      assert word[..m + 1] == word[..m] + [word[m]];
      assert word[m] in word;
      WalkMore(w, name, 0, word[..m], word[m]);
      var j := StepNode(w, name, head, h, word[m]);
      HeadIs(w, name, head, j);
      InKids(w, name, head, h, j);
    }
    if |kids| > 0 { KidLetter(w, name, head, word, m, h, 0); }
    if |kids| > 1 {
      KidLetter(w, name, head, word, m, h, 1);
      KidsDistinct(w, name, head, h);
    }
  }

  lemma WordPart(w: seq<Node>, name: seq<string>, word: string, m: nat)
    requires Trie(w, name) && OnlyWord(w, name, word) && m <= |word|
    ensures NUL !in word[..m] && 0 <= Walk(w, name, 0, word[..m]) < |name|
  {
    forall i | 0 <= i < m ensures word[..m][i] != NUL { assert word[i] in word; }
  }

  lemma KidLetter(w: seq<Node>, name: seq<string>, head: seq<int>, word: string, m: nat, h: int, i: nat)
    requires Trie(w, name) && Shape(w, name, head) && OnlyWord(w, name, word) && m <= |word| && NUL !in word[..m]
    requires h == Walk(w, name, 0, word[..m]) && 0 <= h < |head| == |name| && head[h] == h && i < |Kids(w, name, h)|
    ensures m < |word| && word[m] != NUL && Kids(w, name, h)[i] == Step(w, name, h, word[m])
  {
    hide Shape, Kids, Walk, Step;
    ShapeSize(w, name, head);
    var j := KidNode(w, name, head, h, i);
    var c := w[j].inp;
    StepFinds(w, name, head, h, j, c);
    WalkMore(w, name, 0, word[..m], c);
    assert word[..m] + [c] <= word;
    assert (word[..m] + [c])[m] == c;
  }

  // The states come as the letters of the word do.
  lemma {:induction false} WordOrder(w: seq<Node>, name: seq<string>, head: seq<int>, word: string, m: nat)
    requires Trie(w, name) && Shape(w, name, head) && OnlyWord(w, name, word) && m <= |word|
    ensures |Order(w, name, m)| == m + 1 && NUL !in word[..m] && Order(w, name, m)[m] == Walk(w, name, 0, word[..m])
    ensures |KidsOf(w, name, m)| == if m < |word| then 1 else 0
  {
    hide Trie, Shape, Kids, Walk, OnlyWord;
    WordPart(w, name, word, m);
    if m == 0 {
      assert Order(w, name, 0) == [0];
      EmptyWord(w, name);
      assert word[..0] == "";
    } else {
      WordOrder(w, name, head, word, m - 1);
      WordKids(w, name, head, word, m - 1);
      OrderStep(w, name, m - 1);
    }
    WordKids(w, name, head, word, m);
  }

  lemma WordSmooth(w: seq<Node>, name: seq<string>, head: seq<int>, word: string, m: nat)
    requires Trie(w, name) && Shape(w, name, head) && OnlyWord(w, name, word)
    ensures !Crowded(w, name, m)
    ensures Strays(w, name, m) <==> 0 < m < |word| && m % QSIZE == QSIZE - 1
  {
    hide Trie, Shape, Order, OnlyWord, Kids;
    if m <= |word| {
      WordOrder(w, name, head, word, m);
    } else {
      WordOrder(w, name, head, word, |word|);
      OrderStep(w, name, |word|);
      OrderEnds(w, name, |word| + 1, m);
    }
  }

  // A single keyword has room if it is shorter than QSIZE letters.
  lemma OneWord(w: seq<Node>, name: seq<string>, head: seq<int>, word: string, o: Outcome)
    requires Trie(w, name) && Shape(w, name, head) && OnlyWord(w, name, word) && Fares(w, name, o)
    ensures o == if |word| < QSIZE then Made else Beyond
  {
    hide Trie, Shape, Order, OnlyWord, Kids, Crowded, Strays;
    if |word| < QSIZE {
      forall m: nat ensures Smooth(w, name, m) {
        forall k: nat | k < m ensures !Strays(w, name, k) && !Crowded(w, name, k) { WordSmooth(w, name, head, word, k); }
      }
      FaresOnce(w, name, o, Made);
    } else {
      forall k: nat | k < QSIZE - 1 ensures !Strays(w, name, k) && !Crowded(w, name, k) { WordSmooth(w, name, head, word, k); }
      WordSmooth(w, name, head, word, QSIZE - 1);
      assert Smooth(w, name, QSIZE - 1) && Strays(w, name, QSIZE - 1);
      FaresOnce(w, name, o, Beyond);
    }
  }
}
