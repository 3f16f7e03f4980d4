// fgrep.c: the trie of the keywords, its failure links, and the matching loop.
// Without -x, -v and -i.

module Fgrep {
  import opened FgrepQueue

  const MAXSIZ := 6000
  const NUL := '\0'

  // struct words; the root is node 0, and 0 is also the null pointer.
  datatype Node = Node(inp: char, out: bool, nst: int, link: int, fail: int)

  // ---------- what the nodes stand for

  // name[k] is the string that leads to the state of which node k is part.
  // A node has a letter and the state it leads to; link goes on to the next
  // letter of the same state.
  predicate NodeOk(n: Node, k: int, name: seq<string>)
    requires 0 <= k < |name|
  {
    (if n.inp == NUL then n.link == 0 else k < n.nst < |name| && name[n.nst] == name[k] + [n.inp]) &&
    (n.link != 0 ==> k < n.link < |name| && name[n.link] == name[k])
  }

  predicate Trie(w: seq<Node>, name: seq<string>) {
    0 < |name| <= |w| && name[0] == "" && forall k :: 0 <= k < |name| ==> NodeOk(w[k], k, name)
  }

  // Where letter c leads from the state at s; -1: nowhere.
  function Step(w: seq<Node>, name: seq<string>, s: int, c: char): (t: int)
    requires Trie(w, name) && 0 <= s < |name| && c != NUL
    ensures t == -1 || (s < t < |name| && name[t] == name[s] + [c])
    decreases |name| - s
  {
    if w[s].inp == c then w[s].nst else if w[s].link != 0 then Step(w, name, w[s].link, c) else -1
  }

  // Where a string leads.
  function Walk(w: seq<Node>, name: seq<string>, s: int, str: string): (t: int)
    requires Trie(w, name) && 0 <= s < |name| && NUL !in str
    ensures t == -1 || (s <= t < |name| && name[t] == name[s] + str)
    decreases |str|
  {
    if |str| == 0 then s
    else
      assert str[0] in str && str[1..] <= str[1..] && forall c <- str[1..] :: c in str;
      var t := Step(w, name, s, str[0]);
      if t == -1 then -1
      else
        var u := Walk(w, name, t, str[1..]);
        assert str == [str[0]] + str[1..];
        u
  }

  // The trie accepts just the words in kw.
  ghost predicate Spells(w: seq<Node>, name: seq<string>, kw: set<string>)
    requires Trie(w, name)
  {
    (forall k :: 0 <= k < |name| && w[k].out ==> name[k] in kw) &&
    forall str <- kw :: NUL !in str && Walk(w, name, 0, str) != -1 && w[Walk(w, name, 0, str)].out
  }

  // A string is accepted.
  ghost predicate Accepts(w: seq<Node>, name: seq<string>, str: string)
    requires Trie(w, name)
  {
    NUL !in str && Walk(w, name, 0, str) != -1 && w[Walk(w, name, 0, str)].out
  }

  lemma SpellsExactly(w: seq<Node>, name: seq<string>, kw: set<string>, str: string)
    requires Trie(w, name) && Spells(w, name, kw)
    ensures Accepts(w, name, str) <==> str in kw
  {
    if Accepts(w, name, str) { assert "" + str == str; }
  }

  // ---------- growing the trie

  // w' is w with new nodes, a letter in the empty node s or a link at the end of
  // the state of s.
  predicate Grown(w: seq<Node>, name: seq<string>, w': seq<Node>, name': seq<string>) {
    |name| <= |w| == |w'| && name <= name' &&
    forall k :: 0 <= k < |name| ==>
      (w[k].inp != NUL ==> w'[k].inp == w[k].inp && w'[k].nst == w[k].nst) &&
      (w[k].link != 0 ==> w'[k].link == w[k].link)
  }

  lemma {:induction false} StepKept(w: seq<Node>, name: seq<string>, w': seq<Node>, name': seq<string>, s: int, c: char)
    requires Trie(w, name) && Trie(w', name') && Grown(w, name, w', name') && 0 <= s < |name| && c != NUL
    requires Step(w, name, s, c) != -1
    ensures Step(w', name', s, c) == Step(w, name, s, c)
    decreases |name| - s
  {
    if w[s].inp != c { StepKept(w, name, w', name', w[s].link, c); }
  }

  lemma {:induction false} WalkKept(w: seq<Node>, name: seq<string>, w': seq<Node>, name': seq<string>, s: int, str: string)
    requires Trie(w, name) && Trie(w', name') && Grown(w, name, w', name') && 0 <= s < |name| && NUL !in str
    requires Walk(w, name, s, str) != -1
    ensures Walk(w', name', s, str) == Walk(w, name, s, str)
    decreases |str|
  {
    if |str| > 0 {
      assert str[0] in str && forall c <- str[1..] :: c in str;
      StepKept(w, name, w', name', s, str[0]);
      WalkKept(w, name, w', name', Step(w, name, s, str[0]), str[1..]);
    }
  }

  // A word with one more letter.
  lemma {:induction false} WalkMore(w: seq<Node>, name: seq<string>, s: int, str: string, c: char)
    requires Trie(w, name) && 0 <= s < |name| && NUL !in str && c != NUL && Walk(w, name, s, str) != -1
    ensures NUL !in str + [c] && Walk(w, name, s, str + [c]) == Step(w, name, Walk(w, name, s, str), c)
    decreases |str|
  {
    if |str| > 0 {
      assert str[0] in str && forall d <- str[1..] :: d in str;
      WalkMore(w, name, Step(w, name, s, str[0]), str[1..], c);
      assert (str + [c])[1..] == str[1..] + [c];
    }
  }

  // r is met in the search for c from s on, before c is.
  predicate Chain(w: seq<Node>, name: seq<string>, s: int, r: int, c: char)
    requires Trie(w, name) && 0 <= s < |name|
    decreases |name| - s
  {
    s == r || (w[s].inp != c && w[s].link != 0 && Chain(w, name, w[s].link, r, c))
  }

  lemma {:induction false} ChainKept(w: seq<Node>, name: seq<string>, w': seq<Node>, name': seq<string>, s: int, r: int, c: char)
    requires Trie(w, name) && Trie(w', name') && Grown(w, name, w', name') && 0 <= s < |name| && Chain(w, name, s, r, c)
    ensures Chain(w', name', s, r, c)
    decreases |name| - s
  {
    if s != r { ChainKept(w, name, w', name', w[s].link, r, c); }
  }

  lemma {:induction false} ChainMore(w: seq<Node>, name: seq<string>, s: int, r: int, c: char)
    requires Trie(w, name) && 0 <= s < |name| && Chain(w, name, s, r, c)
    ensures 0 <= r < |name| && name[r] == name[s]
    ensures w[r].inp != c && w[r].link != 0 ==> Chain(w, name, s, w[r].link, c)
    ensures c != NUL ==> Step(w, name, s, c) == Step(w, name, r, c)
    decreases |name| - s
  {
    if s != r { ChainMore(w, name, w[s].link, r, c); }
  }

  // ---------- the words

  // The words that end in a newline.
  function Words(text: string): seq<string> {
    if |text| == 0 then []
    else
      var n := |text| - 1;
      Words(text[..n]) + if text[n] == '\n' then [Tail(text[..n])] else []
  }

  // What follows the last newline.
  function Tail(text: string): string {
    if |text| == 0 || text[|text| - 1] == '\n' then "" else Tail(text[..|text| - 1]) + [text[|text| - 1]]
  }

  predicate IsPrefix(a: string, words: seq<string>) {
    exists k :: 0 <= k < |words| && a <= words[k]
  }

  // The words of text that get into the trie: all, only that a last one without
  // its newline does not when it begins another.
  ghost predicate Keyword(text: string, str: string) {
    str in Keywords(text)
  }

  ghost function Keywords(text: string): set<string> {
    Set(Words(text)) + if Tail(text) != "" && !IsPrefix(Tail(text), Words(text)) then {Tail(text)} else {}
  }

  // No failure links yet.
  predicate NoFails(w: seq<Node>) {
    forall k :: 0 <= k < |w| ==> w[k].fail == 0
  }

  const EMPTY := Node(NUL, false, 0, 0, 0)

  // Every state is on the way to a word.
  predicate Rooted(name: seq<string>, words: seq<string>, cur: string) {
    forall k :: 0 <= k < |name| ==> name[k] == "" || IsPrefix(name[k], words) || name[k] <= cur
  }

  // cgotofn() between two letters: the words have been entered, the letters cur
  // lead to s.
  ghost predicate Entering(w: seq<Node>, name: seq<string>, words: seq<string>, cur: string, s: int) {
    |w| == MAXSIZ && Trie(w, name) && Spells(w, name, Set(words)) && NUL !in cur && Walk(w, name, 0, cur) == s &&
    forall k :: |name| <= k < MAXSIZ ==> w[k] == EMPTY
  }

  // str begins a word of kw.
  ghost predicate Begins(kw: set<string>, str: string) {
    str == "" || exists word :: word in kw && str <= word
  }

  ghost predicate RootedIn(name: seq<string>, kw: set<string>) {
    forall k :: 0 <= k < |name| ==> Begins(kw, name[k])
  }

  ghost function Set(words: seq<string>): set<string> {
    set word | word in words
  }

  // A node linked to s, which was the last one of its state.
  lemma LinkAdded(w: seq<Node>, name: seq<string>, s: int)
    requires |name| < |w| && Trie(w, name) && 0 <= s < |name| && w[s].inp != NUL && w[s].link == 0 && w[|name|] == EMPTY
    ensures
      var w', name' := w[s := w[s].(link := |name|)], name + [name[s]];
      Trie(w', name') && Grown(w, name, w', name')
  {
    var w', name' := w[s := w[s].(link := |name|)], name + [name[s]];
    forall k | 0 <= k < |name'| ensures NodeOk(w'[k], k, name') {
      if k < |name| { assert NodeOk(w[k], k, name) && name'[k] == name[k]; }
    }
    assert forall k :: 0 <= k < |name| && k != s ==> w'[k] == w[k];
  }

  // A letter for the empty node s, and a new state.
  lemma LetterAdded(w: seq<Node>, name: seq<string>, s: int, c: char)
    requires |name| < |w| && Trie(w, name) && 0 <= s < |name| && w[s].inp == NUL && c != NUL && w[|name|] == EMPTY
    ensures
      var w', name' := w[s := w[s].(inp := c, nst := |name|)], name + [name[s] + [c]];
      Trie(w', name') && Grown(w, name, w', name')
  {
    var w', name' := w[s := w[s].(inp := c, nst := |name|)], name + [name[s] + [c]];
    forall k | 0 <= k < |name'| ensures NodeOk(w'[k], k, name') {
      if k < |name| { assert NodeOk(w[k], k, name) && name'[k] == name[k]; }
    }
    assert forall k :: 0 <= k < |name| && k != s ==> w'[k] == w[k];
  }

  lemma SpellsKept(w: seq<Node>, name: seq<string>, w': seq<Node>, name': seq<string>, kw: set<string>)
    requires Trie(w, name) && Trie(w', name') && Grown(w, name, w', name') && Spells(w, name, kw)
    requires forall k :: 0 <= k < |name'| ==> (w'[k].out ==> k < |name| && w[k].out)
    requires forall k :: 0 <= k < |name| ==> (w[k].out ==> w'[k].out)
    ensures Spells(w', name', kw)
  {
    forall str | str in kw ensures Walk(w', name', 0, str) == Walk(w, name, 0, str) {
      WalkKept(w, name, w', name', 0, str);
    }
  }

  lemma MarkedTrie(w: seq<Node>, name: seq<string>, s: int)
    requires Trie(w, name) && 0 <= s < |name|
    ensures
      var w' := w[s := w[s].(out := true)];
      Trie(w', name) && Grown(w, name, w', name)
  {
    var w' := w[s := w[s].(out := true)];
    forall k | 0 <= k < |name| ensures NodeOk(w'[k], k, name) { assert NodeOk(w[k], k, name); }
  }

  // A state is marked.
  lemma Marked(w: seq<Node>, name: seq<string>, w': seq<Node>, s: int, kw: set<string>, str: string)
    requires Trie(w, name) && Spells(w, name, kw) && NUL !in str && Walk(w, name, 0, str) == s != -1
    requires w' == w[s := w[s].(out := true)]
    ensures Trie(w', name) && Spells(w', name, kw + {str}) && Walk(w', name, 0, str) == s
  {
    MarkedTrie(w, name, s);
    NameIs(w, name, [], str, s);
    hide Trie, Grown, Walk, NodeOk;
    forall x | x in kw + {str} ensures NUL !in x && Walk(w', name, 0, x) != -1 && w'[Walk(w', name, 0, x)].out {
      MarkedWord(w, name, w', s, kw, str, x);
    }
    WalkKept(w, name, w', name, 0, str);
  }

  lemma MarkedState(w: seq<Node>, name: seq<string>, head: seq<int>, words: seq<string>, cur: string, s: int)
    requires Entering(w, name, words, cur, s) && s != -1 && Shape(w, name, head) && 0 <= s < |w|
    ensures
      var w' := w[s := w[s].(out := true)];
      Trie(w', name) && Shape(w', name, head) && Spells(w', name, Set(words) + {cur}) && NUL !in cur && 0 < |name| && Walk(w', name, 0, cur) == s
  {
    hide Spells, Walk, Shape, Set;
    var w' := w[s := w[s].(out := true)];
    NameZero(w, name);
    MarkedTrie(w, name, s);
    assert SameShape(w, w') by { hide Trie; }
    hide Trie, NodeOk, Grown, SameShape;
    Marked(w, name, w', s, Set(words), cur);
    ShapeKept(w, w', name, head);
  }

  lemma MarkedWord(w: seq<Node>, name: seq<string>, w': seq<Node>, s: int, kw: set<string>, str: string, x: string)
    requires Trie(w, name) && Spells(w, name, kw) && NUL !in str && Walk(w, name, 0, str) == s != -1
    requires w' == w[s := w[s].(out := true)] && Trie(w', name) && Grown(w, name, w', name) && (x in kw || x == str)
    ensures NUL !in x && Walk(w', name, 0, x) != -1 && w'[Walk(w', name, 0, x)].out
  {
    NameZero(w, name);
    if x in kw { SpellsWord(w, name, kw, x); }
    hide *;
    WalkKept(w, name, w', name, 0, x);
    OutStays(w, w', s, Walk(w, name, 0, x));
  }

  lemma SpellsWord(w: seq<Node>, name: seq<string>, kw: set<string>, x: string)
    requires Trie(w, name) && Spells(w, name, kw) && x in kw
    ensures NUL !in x && Walk(w, name, 0, x) != -1 && w[Walk(w, name, 0, x)].out
  {
  }

  lemma OutStays(w: seq<Node>, w': seq<Node>, s: int, k: int)
    requires 0 <= s < |w| && 0 <= k < |w| && w' == w[s := w[s].(out := true)] && (w[k].out || k == s)
    ensures w'[k].out
  {
  }

  lemma NameZero(w: seq<Node>, name: seq<string>)
    requires Trie(w, name)
    ensures 0 < |name| <= |w| && name[0] == ""
  {
  }

  lemma {:induction false} WalkPrefix(w: seq<Node>, name: seq<string>, s: int, a: string, b: string)
    requires Trie(w, name) && 0 <= s < |name| && NUL !in b && a <= b && Walk(w, name, s, b) != -1
    ensures NUL !in a && Walk(w, name, s, a) != -1
    decreases |a|
  {
    assert forall c <- a :: c in b;
    if |a| > 0 {
      assert b[0] in b && forall c <- b[1..] :: c in b;
      WalkPrefix(w, name, Step(w, name, s, b[0]), a[1..], b[1..]);
    }
  }

  // A letter that is not there begins no known word.
  lemma NoWord(w: seq<Node>, name: seq<string>, words: seq<string>, cur: string, s: int, c: char)
    requires Entering(w, name, words, cur, s) && s != -1 && c != NUL && Step(w, name, s, c) == -1
    ensures !IsPrefix(cur + [c], words)
  {
    if IsPrefix(cur + [c], words) {
      var k :| 0 <= k < |words| && cur + [c] <= words[k];
      assert words[k] in Set(words);
      WalkPrefix(w, name, 0, cur + [c], words[k]);
      WalkMore(w, name, 0, cur, c);
      assert false;
    }
  }

  // fgrep.c:296-299, seen from the word that is being entered.
  lemma LetterWalk(w: seq<Node>, name: seq<string>, w': seq<Node>, name': seq<string>, words: seq<string>, cur: string,
                   s: int, r: int, c: char, t: int)
    requires Entering(w, name, words, cur, s) && s != -1 && Chain(w, name, s, r, c) && c != NUL && c != '\n'
    requires |name| < MAXSIZ && 0 <= r < |name| && t == |name| && w[r].inp == NUL && w[t] == EMPTY
    requires w' == w[r := w[r].(inp := c, nst := t)] && name' == name + [name[r] + [c]] && Trie(w', name') && Grown(w, name, w', name')
    ensures Entering(w', name', words, cur + [c], t)
  {
    hide Trie, Walk, Step, Chain, Spells, Grown;
    SpellsKept(w, name, w', name', Set(words));
    WalkKept(w, name, w', name', 0, cur);
    ChainKept(w, name, w', name', s, r, c);
    ChainMore(w', name', s, r, c);
    StepHere(w', name', r, c);
    WalkMore(w', name', 0, cur, c);
  }

  lemma StepHere(w: seq<Node>, name: seq<string>, r: int, c: char)
    requires Trie(w, name) && 0 <= r < |name| && c != NUL && w[r].inp == c
    ensures Step(w, name, r, c) == w[r].nst
  {
  }

  lemma LinkWalk(w: seq<Node>, name: seq<string>, w': seq<Node>, name': seq<string>, words: seq<string>, cur: string,
                 s: int, r: int, c: char)
    requires Entering(w, name, words, cur, s) && s != -1 && Chain(w, name, s, r, c) && |name| < MAXSIZ && 0 <= r < |name|
    requires w[r].inp != c && w[|name|] == EMPTY
    requires w' == w[r := w[r].(link := |name|)] && name' == name + [name[r]] && Trie(w', name') && Grown(w, name, w', name')
    ensures Entering(w', name', words, cur, s) && Chain(w', name', s, |name|, c)
  {
    hide Trie, Walk, Step, Chain, Spells, Grown;
    SpellsKept(w, name, w', name', Set(words));
    WalkKept(w, name, w', name', 0, cur);
    ChainKept(w, name, w', name', s, r, c);
    ChainMore(w', name', s, r, c);
  }

  lemma CharOf(text: string, p: nat)
    requires p < |text| && NUL !in text
    ensures text[p] != NUL
  {
    assert text[p] in text;
  }

  lemma NameOf(w: seq<Node>, name: seq<string>, words: seq<string>, cur: string, s: int)
    requires Entering(w, name, words, cur, s) && s != -1
    ensures 0 <= s < |name| && name[s] == cur
  {
    assert "" + cur == cur;
  }

  // One letter more of a word.
  lemma LetterRead(text: string, p: nat, words: seq<string>, cur: string, name: seq<string>, name': seq<string>)
    requires p < |text| && text[p] != '\n' && words == Words(text[..p]) && cur == Tail(text[..p])
    requires Rooted(name, words, cur) && (name' == name || exists x :: name' == name + [x] && x <= cur + [text[p]])
    ensures words == Words(text[..p + 1]) && cur + [text[p]] == Tail(text[..p + 1]) && Rooted(name', words, cur + [text[p]])
  {
    assert text[..p + 1][..p] == text[..p];
    forall k | 0 <= k < |name'| ensures name'[k] == "" || IsPrefix(name'[k], words) || name'[k] <= cur + [text[p]] {
      if k < |name| { assert name[k] == "" || IsPrefix(name[k], words) || name[k] <= cur; }
    }
  }

  lemma LongerWord(words: seq<string>, cur: string, c: char)
    requires !IsPrefix(cur, words)
    ensures !IsPrefix(cur + [c], words)
  {
    if IsPrefix(cur + [c], words) {
      PrefixCut(words, cur, c);
      assert false;
    }
  }

  lemma PrefixCut(words: seq<string>, cur: string, c: char)
    requires IsPrefix(cur + [c], words)
    ensures IsPrefix(cur, words)
  {
    var k :| 0 <= k < |words| && cur + [c] <= words[k];
    assert cur <= words[k];
  }

  lemma Itself(w: seq<Node>, name: seq<string>, s: int, c: char)
    requires Trie(w, name) && 0 <= s < |name|
    ensures Chain(w, name, s, s, c)
  {
  }

  // In the middle of a word: letter p is to go to the empty node s.
  ghost predicate UnderWay(w: seq<Node>, name: seq<string>, text: string, words: seq<string>, cur: string, at: int, s: int, p: int) {
    0 <= p < |text| && NUL !in text && text[p] != '\n' && Entering(w, name, words, cur, at) && 0 <= at < |name| &&
    Chain(w, name, at, s, text[p]) && words == Words(text[..p]) && cur == Tail(text[..p]) && Rooted(name, words, cur) &&
    !IsPrefix(cur + [text[p]], words)
  }

  lemma AboutLetter(w: seq<Node>, name: seq<string>, text: string, words: seq<string>, cur: string, at: int, s: int, p: int)
    requires UnderWay(w, name, text, words, cur, at, s, p)
    ensures text[p] != NUL && 0 <= s < |name| && name[s] == cur
  {
    hide Words, Tail, Rooted, Spells, Walk, Step, IsPrefix;
    CharOf(text, p);
    ChainMore(w, name, at, s, text[p]);
    NameOf(w, name, words, cur, at);
  }

  // The letter and its word so far are entered, up to q.
  ghost predicate LetterIn(w: seq<Node>, name: seq<string>, text: string, words: seq<string>, cur: string, s: int, q: int) {
    0 < q <= |text| && Entering(w, name, words, cur, s) && 0 <= s < |name| && words == Words(text[..q]) && cur == Tail(text[..q]) != "" &&
    Rooted(name, words, cur) && !IsPrefix(cur, words)
  }

  lemma LetterDone(w: seq<Node>, name: seq<string>, w': seq<Node>, name': seq<string>, text: string, words: seq<string>,
                   cur: string, at: int, s: int, p: int, t: int)
    requires UnderWay(w, name, text, words, cur, at, s, p) && |name| < MAXSIZ && 0 <= s < |name| && t == |name| && w[s].inp == NUL
    requires |w| == MAXSIZ && w[t] == EMPTY
    requires w' == w[s := w[s].(inp := text[p], nst := t)] && name' == name + [name[s] + [text[p]]] && Trie(w', name') && Grown(w, name, w', name')
    ensures LetterIn(w', name', text, words, cur + [text[p]], t, p + 1)
  {
    AboutLetter(w, name, text, words, cur, at, s, p);
    hide Words, Tail, Rooted, Spells, Walk, Step, IsPrefix, Trie, Grown, Chain, Entering;
    LetterWalk(w, name, w', name', words, cur, at, s, text[p], t);
    LetterRead(text, p, words, cur, name, name');
  }

  lemma NextLetter(w: seq<Node>, name: seq<string>, text: string, words: seq<string>, cur: string, s: int, q: int)
    requires LetterIn(w, name, text, words, cur, s, q) && q < |text| && NUL !in text && text[q] != '\n'
    ensures UnderWay(w, name, text, words, cur, s, s, q)
  {
    hide Words, Tail, Rooted, Spells, Walk, Step, IsPrefix;
    LongerWord(words, cur, text[q]);
    Itself(w, name, s, text[q]);
  }

  // A new word is in, up to q.
  ghost predicate WordIn(w: seq<Node>, name: seq<string>, text: string, words: seq<string>, cur: string, q: int) {
    0 < q <= |text| && Trie(w, name) && words == Words(text[..q]) && cur == Tail(text[..q]) != "" && !IsPrefix(cur, words) &&
    NUL !in cur && Spells(w, name, Set(words) + {cur}) && Rooted(name, words, cur)
  }

  lemma WordDone(w: seq<Node>, name: seq<string>, text: string, words: seq<string>, cur: string, s: int, q: int)
    requires LetterIn(w, name, text, words, cur, s, q)
    ensures Entering(w, name, words, cur, s)
  {
  }

  lemma WordMarked(w: seq<Node>, w': seq<Node>, name: seq<string>, text: string, words: seq<string>, cur: string, s: int, q: int)
    requires LetterIn(w, name, text, words, cur, s, q) && Trie(w', name) && Spells(w', name, Set(words) + {cur}) && NUL !in cur
    ensures WordIn(w', name, text, words, cur, q)
  {
  }

  // ---------- cgotofn() from word to word

  // Up to p all is entered; the letters of the last word lead to s.
  ghost predicate Reading(w: seq<Node>, name: seq<string>, text: string, words: seq<string>, cur: string, s: int, p: int) {
    0 <= p <= |text| && NUL !in text && Entering(w, name, words, cur, s) && 0 <= s < |name| && words == Words(text[..p]) &&
    cur == Tail(text[..p]) && Rooted(name, words, "") && (cur == "" || IsPrefix(cur, words))
  }

  lemma NothingYet(w: seq<Node>, text: string)
    requires |w| == MAXSIZ && (forall k :: 0 <= k < MAXSIZ ==> w[k] == EMPTY) && NUL !in text
    ensures Trie(w, [""]) && Reading(w, [""], text, [], "", 0, 0)
  {
    assert text[..0] == "";
  }

  lemma ReadingMeans(w: seq<Node>, name: seq<string>, text: string, words: seq<string>, cur: string, s: int, p: int)
    requires Reading(w, name, text, words, cur, s, p)
    ensures Entering(w, name, words, cur, s)
  {
  }

  lemma ReadingLetter(w: seq<Node>, name: seq<string>, text: string, words: seq<string>, cur: string, s: int, p: int)
    requires Reading(w, name, text, words, cur, s, p) && p < |text|
    ensures text[p] != NUL
  {
    CharOf(text, p);
  }

  // A word that is in the trie already, or that begins another.
  lemma WordRepeated(w: seq<Node>, w': seq<Node>, name: seq<string>, text: string, words: seq<string>, cur: string, s: int, p: int)
    requires Reading(w, name, text, words, cur, s, p) && p < |text| && text[p] == '\n' && |w'| == MAXSIZ
    requires Trie(w', name) && Spells(w', name, Set(words) + {cur}) && forall k :: |name| <= k < MAXSIZ ==> w'[k] == EMPTY
    ensures Reading(w', name, text, words + [cur], "", 0, p + 1)
  {
    hide Walk, Trie, Spells, IsPrefix, Rooted, Set, Words, Tail;
    LineEnds(text, p);
    SetMore(words, cur);
    EmptyWord(w', name);
    RootedMore(name, words, cur, "");
  }

  lemma LineEnds(text: string, p: int)
    requires 0 <= p < |text| && text[p] == '\n'
    ensures Words(text[..p + 1]) == Words(text[..p]) + [Tail(text[..p])] && Tail(text[..p + 1]) == ""
  {
    assert text[..p + 1][..p] == text[..p];
  }

  lemma SetMore(words: seq<string>, cur: string)
    ensures Set(words + [cur]) == Set(words) + {cur}
  {
  }

  lemma EmptyWord(w: seq<Node>, name: seq<string>)
    requires Trie(w, name)
    ensures 0 < |name| && Walk(w, name, 0, "") == 0
  {
  }

  lemma RootedMore(name: seq<string>, words: seq<string>, cur: string, cur': string)
    requires Rooted(name, words, cur') && (cur' == "" || cur' == cur)
    ensures Rooted(name, words + [cur], "")
  {
    forall k | 0 <= k < |name| ensures name[k] == "" || IsPrefix(name[k], words + [cur]) {
      PrefixMore(name[k], words, cur);
    }
  }

  lemma PrefixMore(a: string, words: seq<string>, cur: string)
    ensures IsPrefix(a, words) ==> IsPrefix(a, words + [cur])
    ensures a <= cur ==> IsPrefix(a, words + [cur])
  {
    if IsPrefix(a, words) {
      var k :| 0 <= k < |words| && a <= words[k];
      assert (words + [cur])[k] == words[k];
    }
    assert (words + [cur])[|words|] == cur;
  }

  lemma LetterFound(w: seq<Node>, name: seq<string>, text: string, words: seq<string>, cur: string, first: int, s: int, p: int)
    requires Reading(w, name, text, words, cur, first, p) && p < |text| && text[p] != '\n' && text[p] != NUL && 0 <= s < |name|
    requires Step(w, name, first, text[p]) == Step(w, name, s, text[p]) && w[s].inp == text[p]
    ensures 0 <= w[s].nst < |name| && Reading(w, name, text, words, cur + [text[p]], w[s].nst, p + 1)
  {
    hide Rooted, Spells, IsPrefix, Walk;
    WalkMore(w, name, 0, cur, text[p]);
    StepHere(w, name, s, text[p]);
    assert text[..p + 1][..p] == text[..p];
    NameIs(w, name, words, cur + [text[p]], w[s].nst);
    RootedName(name, words, w[s].nst);
  }

  lemma NameIs(w: seq<Node>, name: seq<string>, words: seq<string>, str: string, t: int)
    requires Trie(w, name) && NUL !in str && Walk(w, name, 0, str) == t != -1
    ensures 0 <= t < |name| && name[t] == str
  {
    assert "" + str == str;
  }

  lemma RootedName(name: seq<string>, words: seq<string>, k: int)
    requires Rooted(name, words, "") && 0 <= k < |name|
    ensures name[k] == "" || IsPrefix(name[k], words)
  {
  }

  lemma NoStep(w: seq<Node>, name: seq<string>, s: int, c: char)
    requires Trie(w, name) && 0 <= s < |name| && c != NUL && w[s].inp != c && (w[s].inp == NUL || w[s].link == 0)
    ensures Step(w, name, s, c) == -1
  {
    assert NodeOk(w[s], s, name);
  }

  lemma RootedCur(name: seq<string>, words: seq<string>, cur: string)
    requires Rooted(name, words, "")
    ensures Rooted(name, words, cur)
  {
  }

  lemma LetterMissing(w: seq<Node>, name: seq<string>, text: string, words: seq<string>, cur: string, first: int, s: int, p: int)
    requires Reading(w, name, text, words, cur, first, p) && p < |text| && text[p] != '\n' && text[p] != NUL
    requires Chain(w, name, first, s, text[p]) && Step(w, name, first, text[p]) == -1
    ensures UnderWay(w, name, text, words, cur, first, s, p)
  {
    hide Spells, IsPrefix, Walk, Chain, Rooted, Trie;
    NoWord(w, name, words, cur, first, text[p]);
    RootedCur(name, words, cur);
  }

  lemma NewLink(w: seq<Node>, name: seq<string>, w': seq<Node>, name': seq<string>, text: string, words: seq<string>,
                cur: string, first: int, s: int, p: int)
    requires UnderWay(w, name, text, words, cur, first, s, p) && |name| < MAXSIZ && 0 <= s < |name| && w[s].inp != text[p]
    requires |w| == MAXSIZ && w[|name|] == EMPTY
    requires w' == w[s := w[s].(link := |name|)] && name' == name + [name[s]] && Trie(w', name') && Grown(w, name, w', name')
    ensures UnderWay(w', name', text, words, cur, first, |name|, p)
  {
    hide Spells, IsPrefix, Walk, Chain, Trie, Entering, Grown;
    LinkWalk(w, name, w', name', words, cur, first, s, text[p]);
    forall k | 0 <= k < |name'| ensures name'[k] == "" || IsPrefix(name'[k], words) || name'[k] <= cur {
      assert name'[k] == name[if k < |name| then k else s];
    }
  }

  lemma WordEnds(w: seq<Node>, name: seq<string>, text: string, words: seq<string>, cur: string, q: int)
    requires WordIn(w, name, text, words, cur, q) && q < |text| && text[q] == '\n' && NUL !in text
    requires |w| == MAXSIZ && forall k :: |name| <= k < MAXSIZ ==> w[k] == EMPTY
    ensures Reading(w, name, text, Words(text[..q + 1]), "", 0, q + 1)
  {
    hide Walk, Trie, Spells, IsPrefix, Rooted, Set, Words, Tail;
    LineEnds(text, q);
    SetMore(words, cur);
    EmptyWord(w, name);
    RootedMore(name, words, cur, cur);
  }

  lemma TextEnds(w: seq<Node>, name: seq<string>, text: string, words: seq<string>, cur: string)
    requires WordIn(w, name, text, words, cur, |text|)
    ensures Spells(w, name, Keywords(text)) && RootedIn(name, Keywords(text))
  {
    hide Spells, Trie, Walk, Words, Tail, IsPrefix, Rooted, RootedIn, Begins;
    assert text[..|text|] == text;
    RootedWords(name, words, cur, Keywords(text));
  }

  lemma RootedWords(name: seq<string>, words: seq<string>, cur: string, kw: set<string>)
    requires Rooted(name, words, cur) && Set(words) <= kw && (cur == "" || cur in kw)
    ensures RootedIn(name, kw)
  {
    forall k | 0 <= k < |name| ensures Begins(kw, name[k]) {
      if IsPrefix(name[k], words) {
        var i :| 0 <= i < |words| && name[k] <= words[i];
        assert words[i] in kw;
      }
    }
  }

  lemma AcceptsKeywords(w: seq<Node>, name: seq<string>, text: string)
    requires Trie(w, name) && Spells(w, name, Keywords(text))
    ensures forall str :: Accepts(w, name, str) <==> Keyword(text, str)
  {
    forall str ensures Accepts(w, name, str) <==> Keyword(text, str) {
      SpellsExactly(w, name, Keywords(text), str);
    }
  }

  lemma AllRead(w: seq<Node>, name: seq<string>, text: string, words: seq<string>, cur: string, s: int)
    requires Reading(w, name, text, words, cur, s, |text|)
    ensures Spells(w, name, Keywords(text)) && RootedIn(name, Keywords(text))
  {
    hide Spells, Trie, Walk, Words, Tail, IsPrefix, Rooted, RootedIn, Begins;
    assert text[..|text|] == text;
    assert Keywords(text) == Set(words);
    RootedWords(name, words, "", Keywords(text));
  }

  // ---------- states

  // head[k] is the first node of the state of which node k is part.
  predicate HeadOk(n: Node, k: int, name: seq<string>, head: seq<int>)
    requires 0 <= k < |head| == |name|
  {
    0 <= head[k] <= k && name[head[k]] == name[k] && (n.inp != NUL ==> 0 < n.nst < |head| && head[n.nst] == n.nst) &&
    (n.link != 0 ==> 0 < n.link < |head| && head[n.link] == head[k])
  }

  predicate LedTo(w: seq<Node>, k: int) {
    exists j :: 0 <= j < k && j < |w| && ((w[j].inp != NUL && w[j].nst == k) || w[j].link == k)
  }

  predicate Heads(w: seq<Node>, name: seq<string>, head: seq<int>) {
    0 < |head| == |name| <= |w| && head[0] == 0 && forall k :: 0 <= k < |head| ==> HeadOk(w[k], k, name, head)
  }

  // No two letters lead to the same state.
  predicate OneWay(w: seq<Node>, n: int) {
    n <= |w| && forall j, k :: 0 <= j < k < n && w[j].inp != NUL && w[k].inp != NUL ==> w[j].nst != w[k].nst
  }

  // No state has a letter twice.
  predicate OwnLetters(w: seq<Node>, head: seq<int>) {
    |head| <= |w| && forall j, k :: 0 <= j < k < |head| && head[j] == head[k] && w[j].inp != NUL ==> w[j].inp != w[k].inp
  }

  // Every node is led to.
  predicate AllLed(w: seq<Node>, n: int) {
    forall k :: 0 < k < n ==> LedTo(w, k)
  }

  predicate Shape(w: seq<Node>, name: seq<string>, head: seq<int>) {
    Heads(w, name, head) && OneWay(w, |head|) && OwnLetters(w, head) && AllLed(w, |head|)
  }

  // How many states there are.
  function StateCount(head: seq<int>): (n: nat)
    ensures n <= |head|
  {
    if |head| == 0 then 0
    else
      var n := |head| - 1;
      StateCount(head[..n]) + if head[n] == n then 1 else 0
  }

  lemma CountMore(head: seq<int>, h: int)
    ensures StateCount(head + [h]) == StateCount(head) + if h == |head| then 1 else 0
  {
    assert (head + [h])[..|head|] == head;
  }

  lemma ShapeStarts(w: seq<Node>)
    requires |w| == MAXSIZ && forall k :: 0 <= k < MAXSIZ ==> w[k] == EMPTY
    ensures Shape(w, [""], [0])
  {
  }

  lemma StillLed(w: seq<Node>, w': seq<Node>, k: int)
    requires LedTo(w, k) && k > 0 && |w'| == |w|
    requires forall j :: 0 <= j < |w| && j < k ==>
      (w[j].inp != NUL ==> w'[j].inp != NUL && w'[j].nst == w[j].nst) && (w[j].link != 0 ==> w'[j].link == w[j].link)
    ensures LedTo(w', k)
  {
  }

  lemma ShapeLinked(w: seq<Node>, name: seq<string>, head: seq<int>, s: int)
    requires |name| < |w| && Trie(w, name) && Shape(w, name, head) && 0 <= s < |name| && w[s].inp != NUL && w[s].link == 0 && w[|name|] == EMPTY
    ensures Shape(w[s := w[s].(link := |name|)], name + [name[s]], head + [head[s]])
  {
    var w', name', head' := w[s := w[s].(link := |name|)], name + [name[s]], head + [head[s]];
    hide Trie, OneWay, OwnLetters, AllLed;
    forall k | 0 <= k < |head'| ensures HeadOk(w'[k], k, name', head') {
      if k < |name| { assert HeadOk(w[k], k, name, head); }
    }
    LinkedRest(w, head, s);
  }

  lemma LinkedRest(w: seq<Node>, head: seq<int>, s: int)
    requires |head| < |w| && OneWay(w, |head|) && OwnLetters(w, head) && AllLed(w, |head|)
    requires 0 <= s < |head| && w[s].inp != NUL && w[s].link == 0 && w[|head|] == EMPTY
    ensures
      var w', head' := w[s := w[s].(link := |head|)], head + [head[s]];
      OneWay(w', |head'|) && OwnLetters(w', head') && AllLed(w', |head'|)
  {
    var w', head' := w[s := w[s].(link := |head|)], head + [head[s]];
    forall k | 0 < k < |head'| ensures LedTo(w', k) {
      if k < |head| { StillLed(w, w', k); } else { assert w'[s].link == k; }
    }
  }

  lemma ShapeLettered(w: seq<Node>, name: seq<string>, head: seq<int>, s: int, c: char)
    requires |name| < |w| && Trie(w, name) && Shape(w, name, head) && 0 <= s < |name| && w[s].inp == NUL && c != NUL && w[|name|] == EMPTY
    requires forall k :: 0 <= k < |head| && head[k] == head[s] ==> w[k].inp != c
    ensures Shape(w[s := w[s].(inp := c, nst := |name|)], name + [name[s] + [c]], head + [|name|])
  {
    hide Trie, Heads, OneWay, OwnLetters, AllLed, HeadOk;
    HeadRange(w, name, head);
    EmptyNode(w, name, s);
    LetteredHeads(w, name, head, s, c);
    LetteredLed(w, head, s, c);
    LetteredOne(w, head, s, c);
  }

  lemma HeadRange(w: seq<Node>, name: seq<string>, head: seq<int>)
    requires Heads(w, name, head)
    ensures |head| == |name| <= |w| && forall k :: 0 <= k < |head| ==> head[k] < |head| && (w[k].inp != NUL ==> w[k].nst < |head|)
  {
    forall k | 0 <= k < |head| ensures head[k] < |head| && (w[k].inp != NUL ==> w[k].nst < |head|) { assert HeadOk(w[k], k, name, head); }
  }

  lemma LetteredHeads(w: seq<Node>, name: seq<string>, head: seq<int>, s: int, c: char)
    requires |name| < |w| && Heads(w, name, head) && 0 <= s < |name| && w[s].link == 0 && c != NUL && w[|name|] == EMPTY
    ensures Heads(w[s := w[s].(inp := c, nst := |name|)], name + [name[s] + [c]], head + [|name|])
  {
    var w', name', head' := w[s := w[s].(inp := c, nst := |name|)], name + [name[s] + [c]], head + [|name|];
    forall k | 0 <= k < |head'| ensures HeadOk(w'[k], k, name', head') {
      if k < |name| { assert HeadOk(w[k], k, name, head); }
    }
  }

  lemma EmptyNode(w: seq<Node>, name: seq<string>, s: int)
    requires Trie(w, name) && 0 <= s < |name| && w[s].inp == NUL
    ensures w[s].link == 0
  {
    assert NodeOk(w[s], s, name);
  }

  lemma LetteredLed(w: seq<Node>, head: seq<int>, s: int, c: char)
    requires |head| < |w| && AllLed(w, |head|) && 0 <= s < |head| && w[s].inp == NUL && c != NUL && w[s].link == 0
    ensures AllLed(w[s := w[s].(inp := c, nst := |head|)], |head| + 1)
  {
    var w' := w[s := w[s].(inp := c, nst := |head|)];
    forall k | 0 < k < |head| + 1 ensures LedTo(w', k) {
      if k < |head| { assert LedTo(w, k); StillLed(w, w', k); } else { assert w'[s].nst == k; }
    }
  }

  lemma LetteredOne(w: seq<Node>, head: seq<int>, s: int, c: char)
    requires |head| < |w| && OneWay(w, |head|) && OwnLetters(w, head) && 0 <= s < |head| && w[s].inp == NUL && c != NUL && w[|head|] == EMPTY
    requires forall k :: 0 <= k < |head| ==> head[k] < |head| && (w[k].inp != NUL ==> w[k].nst < |head|)
    requires forall k :: 0 <= k < |head| && head[k] == head[s] ==> w[k].inp != c
    ensures
      var w', head' := w[s := w[s].(inp := c, nst := |head|)], head + [|head|];
      OneWay(w', |head'|) && OwnLetters(w', head')
  {
  }

  lemma ShapeKept(w: seq<Node>, w': seq<Node>, name: seq<string>, head: seq<int>)
    requires Shape(w, name, head) && SameShape(w, w')
    ensures Shape(w', name, head)
  {
    forall k | 0 <= k < |head| ensures HeadOk(w'[k], k, name, head) { assert HeadOk(w[k], k, name, head); }
    forall k | 0 < k < |head| ensures LedTo(w', k) { StillLed(w, w', k); }
  }

  // The links of a state pass over none of its nodes.
  lemma {:induction false} LinkOrder(w: seq<Node>, name: seq<string>, head: seq<int>, j: int, q: int)
    requires Trie(w, name) && Shape(w, name, head) && 0 <= j < q < |head| && head[j] == head[q]
    ensures 0 < w[j].link <= q
    decreases q
  {
    hide *;
    var i := LinkedFrom(w, name, head, j, q);
    if i < j {
      LinkOrder(w, name, head, i, j);
    } else if j < i {
      LinkOrder(w, name, head, j, i);
    }
  }

  // A node that is not the first of its state is linked to from one before.
  lemma LinkedFrom(w: seq<Node>, name: seq<string>, head: seq<int>, j: int, q: int) returns (i: int)
    requires Trie(w, name) && Shape(w, name, head) && 0 <= j < q < |head| && head[j] == head[q]
    ensures 0 <= i < q && |head| <= |w| && head[i] == head[q] && w[i].link == q
  {
    hide OneWay, OwnLetters, Trie;
    assert HeadOk(w[q], q, name, head) && HeadOk(w[j], j, name, head);
    assert LedTo(w, q);
    i :| 0 <= i < q && i < |w| && ((w[i].inp != NUL && w[i].nst == q) || w[i].link == q);
    assert HeadOk(w[i], i, name, head);
  }

  lemma {:induction false} WalkIsHead(w: seq<Node>, name: seq<string>, head: seq<int>, s: int, str: string)
    requires Trie(w, name) && Shape(w, name, head) && 0 <= s < |head| && head[s] == s && NUL !in str && Walk(w, name, s, str) != -1
    ensures head[Walk(w, name, s, str)] == Walk(w, name, s, str)
    decreases |str|
  {
    if str != "" {
      assert str[0] in str && forall c <- str[1..] :: c in str;
      StepIsHead(w, name, head, s, str[0]);
      WalkIsHead(w, name, head, Step(w, name, s, str[0]), str[1..]);
    }
  }

  lemma {:induction false} StepIsHead(w: seq<Node>, name: seq<string>, head: seq<int>, s: int, c: char)
    requires Trie(w, name) && Shape(w, name, head) && 0 <= s < |head| && c != NUL && Step(w, name, s, c) != -1
    ensures head[Step(w, name, s, c)] == Step(w, name, s, c)
    decreases |name| - s
  {
    assert HeadOk(w[s], s, name, head) && NodeOk(w[s], s, name);
    if w[s].inp != c { StepIsHead(w, name, head, w[s].link, c); }
  }

  // A letter that is not met up to the empty node is none of the state's.
  lemma {:induction false} NotMet(w: seq<Node>, name: seq<string>, head: seq<int>, a: int, s: int, c: char)
    requires Trie(w, name) && Shape(w, name, head) && 0 <= a < |head| && Chain(w, name, a, s, c) && 0 <= s < |head| && w[s].inp == NUL && c != NUL
    ensures head[s] == head[a] && forall k :: a <= k < |head| && head[k] == head[a] ==> w[k].inp != c
    decreases |head| - a
  {
    hide *;
    ShapeSize(w, name, head);
    ChainOn(w, name, a, s, c);
    NoneBetween(w, name, head, a);
    HeadBehind(w, name, head, a);
    if a != s {
      NotMet(w, name, head, w[a].link, s, c);
    } else {
      EmptyNode(w, name, s);
    }
  }

  lemma ShapeSize(w: seq<Node>, name: seq<string>, head: seq<int>)
    requires Shape(w, name, head)
    ensures 0 < |head| == |name| <= |w|
  {
  }

  lemma ChainOn(w: seq<Node>, name: seq<string>, a: int, s: int, c: char)
    requires Trie(w, name) && 0 <= a < |name| && Chain(w, name, a, s, c)
    ensures a == s || (w[a].inp != c && a < w[a].link < |name| && Chain(w, name, w[a].link, s, c))
  {
  }

  lemma NewLetter(w: seq<Node>, name: seq<string>, head: seq<int>, text: string, words: seq<string>, cur: string, at: int, s: int, p: int)
    requires UnderWay(w, name, text, words, cur, at, s, p) && Shape(w, name, head) && 0 <= s < |head| && |name| <= |w| && w[s].inp == NUL
    ensures 0 <= p < |text| && forall k :: 0 <= k < |head| && head[k] == head[s] ==> w[k].inp != text[p]
  {
    hide Words, Tail, Rooted, Spells, IsPrefix;
    CharOf(text, p);
    NameZero(w, name);
    WalkIsHead(w, name, head, 0, cur);
    NotMet(w, name, head, at, s, text[p]);
    forall k | 0 <= k < |head| ensures head[k] <= k { assert HeadOk(w[k], k, name, head); }
    hide Shape, Trie, Chain, Walk;
  }

  // The node that holds the letter c of the state at p.
  lemma {:induction false} StepNode(w: seq<Node>, name: seq<string>, head: seq<int>, p: int, c: char) returns (j: int)
    requires Trie(w, name) && Shape(w, name, head) && 0 <= p < |head| && c != NUL && Step(w, name, p, c) != -1
    ensures 0 <= j < |head| == |name| <= |w| && w[j].inp == c && w[j].nst == Step(w, name, p, c) && head[j] == head[p] && name[j] == name[p]
    decreases |head| - p
  {
    Leads(w, name, p);
    HeadBehind(w, name, head, p);
    if w[p].inp == c { j := p; } else { j := StepNode(w, name, head, w[p].link, c); }
  }

  lemma {:induction false} StepFinds(w: seq<Node>, name: seq<string>, head: seq<int>, a: int, j: int, c: char)
    requires Trie(w, name) && Shape(w, name, head) && 0 <= a <= j < |head| && head[j] == head[a] && w[j].inp == c != NUL
    ensures Step(w, name, a, c) == w[j].nst
    decreases j - a
  {
    if a < j {
      LinkOrder(w, name, head, a, j);
      HeadBehind(w, name, head, a);
      Leads(w, name, a);
      StepFinds(w, name, head, w[a].link, j, c);
    }
  }

  // ---------- failure

  predicate IsSuffix(a: string, b: string) {
    |a| <= |b| && b[|b| - |a|..] == a
  }

  // A shorter end.
  predicate Below(a: string, b: string) {
    |a| < |b| && IsSuffix(a, b)
  }

  // Failure leads to a shorter end of what has been read.
  predicate Failing(w: seq<Node>, name: seq<string>) {
    |name| <= |w| && forall k :: 0 <= k < |name| && w[k].fail != 0 ==> 0 < w[k].fail < |name| && Below(name[w[k].fail], name[k])
  }

  // An accepting state has read a word, at its end.
  ghost predicate Suffixed(w: seq<Node>, name: seq<string>, kw: set<string>) {
    |name| <= |w| && forall k :: 0 <= k < |name| && w[k].out ==> exists word :: word in kw && IsSuffix(word, name[k])
  }

  predicate SameShape(w: seq<Node>, w': seq<Node>) {
    |w| == |w'| && forall k :: 0 <= k < |w| ==> w'[k] == w[k].(fail := w'[k].fail, out := w'[k].out) && (w[k].out ==> w'[k].out)
  }

  predicate InQueue(queue: seq<int>, name: seq<string>) {
    forall i :: 0 <= i < |queue| ==> 0 < queue[i] < |name| && name[queue[i]] != ""
  }

  lemma Leads(w: seq<Node>, name: seq<string>, s: int)
    requires Trie(w, name) && 0 <= s < |name|
    ensures w[s].inp != NUL ==> s < w[s].nst < |name| && name[w[s].nst] == name[s] + [w[s].inp]
    ensures w[s].link != 0 ==> s < w[s].link < |name| && name[w[s].link] == name[s] && w[s].inp != NUL
  {
    assert NodeOk(w[s], s, name);
  }

  lemma FailName(w: seq<Node>, name: seq<string>, s: int)
    requires Trie(w, name) && Failing(w, name) && 0 <= s < |name|
    ensures 0 <= w[s].fail < |name| && (w[s].fail != 0 ==> Below(name[w[s].fail], name[s]))
    ensures w[s].fail == 0 && name[s] != "" ==> Below(name[w[s].fail], name[s])
  {
  }

  lemma BelowMore(a: string, b: string, c: char)
    requires Below(a, b)
    ensures Below(a + [c], b + [c])
  {
    assert (b + [c])[|b| - |a|..] == b[|b| - |a|..] + [c];
  }

  lemma SuffixOfSuffix(a: string, b: string, c: string)
    requires IsSuffix(a, b) && IsSuffix(b, c)
    ensures IsSuffix(a, c)
  {
    assert c[|c| - |a|..] == c[|c| - |b|..][|b| - |a|..];
  }

  lemma FailSet(w: seq<Node>, name: seq<string>, kw: set<string>, q: int, to: int)
    requires Trie(w, name) && Failing(w, name) && Suffixed(w, name, kw) && 0 <= q < |name| && 0 < to < |name| && Below(name[to], name[q])
    ensures
      var w' := w[q := w[q].(fail := to, out := w[q].out || w[to].out)];
      Trie(w', name) && Failing(w', name) && Suffixed(w', name, kw) && SameShape(w, w')
  {
    var w' := w[q := w[q].(fail := to, out := w[q].out || w[to].out)];
    forall k | 0 <= k < |name| ensures NodeOk(w'[k], k, name) { assert NodeOk(w[k], k, name); }
    if w[to].out {
      var word :| word in kw && IsSuffix(word, name[to]);
      SuffixOfSuffix(word, name[to], name[q]);
    }
  }

  lemma ShapeSame(w: seq<Node>)
    ensures SameShape(w, w)
  {
  }

  lemma ShapeTwice(w: seq<Node>, w': seq<Node>, w'': seq<Node>)
    requires SameShape(w, w') && SameShape(w', w'')
    ensures SameShape(w, w'')
  {
  }

  // ---------- the failure links that cfail() makes

  // Where the state behind node s is to fail: where the letter of s leads from the
  // state in which the state of s fails; at the root if it leads nowhere, and for
  // the letters of the root.
  function Fate(w: seq<Node>, name: seq<string>, s: int): (t: int)
    requires Trie(w, name) && 0 <= s < |name| && w[s].inp != NUL && 0 <= w[s].fail < |name|
    ensures 0 <= t < |name|
  {
    if name[s] == "" then 0
    else
      var t := Step(w, name, w[s].fail, w[s].inp);
      if t == -1 then 0 else t
  }

  // All nodes of the state that begins with node q fail to node t.
  predicate FailsTo(w: seq<Node>, head: seq<int>, q: int, t: int) {
    forall k :: 0 <= k < |head| && k < |w| && head[k] == q ==> w[k].fail == t
  }

  predicate Settled(w: seq<Node>, name: seq<string>, head: seq<int>, s: int)
    requires Trie(w, name) && 0 <= s < |name| && 0 <= w[s].fail < |name|
  {
    w[s].inp != NUL ==> FailsTo(w, head, w[s].nst, Fate(w, name, s))
  }

  // Every state fails where it should, and the root at itself.
  predicate FailureLinks(w: seq<Node>, name: seq<string>, head: seq<int>) {
    Trie(w, name) && FailsTo(w, head, 0, 0) && forall s :: 0 <= s < |name| ==> 0 <= w[s].fail < |name| && Settled(w, name, head, s)
  }

  // The state that begins with q is set to fail at to.
  predicate StateFails(w: seq<Node>, w': seq<Node>, head: seq<int>, q: int, to: int) {
    PartFails(w, w', head, q, to, |w|)
  }

  // ... up to node p.
  predicate PartFails(w: seq<Node>, w': seq<Node>, head: seq<int>, q: int, to: int, p: int) {
    |w'| == |w| && 0 <= to < |w| && |head| <= |w| &&
    forall k :: 0 <= k < |w| ==>
      w'[k] == if k < |head| && head[k] == q && k < p then w[k].(fail := to, out := w[k].out || w[to].out) else w[k]
  }

  lemma PartBegins(w: seq<Node>, name: seq<string>, head: seq<int>, q: int, to: int)
    requires Trie(w, name) && Shape(w, name, head) && 0 <= q < |head| && 0 <= to < |head|
    ensures PartFails(w, w, head, q, to, q)
  {
    forall k | 0 <= k < |head| ensures head[k] == q ==> k >= q { assert HeadOk(w[k], k, name, head); }
  }

  lemma PartMore(w: seq<Node>, v: seq<Node>, name: seq<string>, head: seq<int>, q: int, to: int, p: int)
    requires Trie(w, name) && Shape(w, name, head) && PartFails(w, v, head, q, to, p) && 0 <= p < |head| && head[p] == q && 0 <= to < |head|
    requires Below(name[to], name[p])
    ensures PartFails(w, v[p := v[p].(fail := to, out := v[p].out || v[to].out)], head, q, to, p + 1)
  {
    assert HeadOk(w[to], to, name, head) && HeadOk(w[p], p, name, head);
    assert head[to] != q;
    assert v[to] == w[to];
  }

  // From node p the link leads to the next node of the state.
  lemma PartOn(w: seq<Node>, v: seq<Node>, name: seq<string>, head: seq<int>, q: int, to: int, p: int)
    requires Trie(w, name) && Shape(w, name, head) && PartFails(w, v, head, q, to, p + 1) && 0 <= p < |head| && head[p] == q
    ensures w[p].link != 0 ==> PartFails(w, v, head, q, to, w[p].link)
    ensures w[p].link == 0 ==> StateFails(w, v, head, q, to)
  {
    NoneBetween(w, name, head, p);
    if w[p].link != 0 { assert HeadOk(w[p], p, name, head) && NodeOk(w[p], p, name); }
  }

  lemma NoneBetween(w: seq<Node>, name: seq<string>, head: seq<int>, p: int)
    requires Trie(w, name) && Shape(w, name, head) && 0 <= p < |head|
    ensures forall k :: p < k < |head| && head[k] == head[p] ==> 0 < w[p].link <= k
  {
    forall k | p < k < |head| && head[k] == head[p] ensures 0 < w[p].link <= k { LinkOrder(w, name, head, p, k); }
  }

  lemma StepOnce(w: seq<Node>, name: seq<string>, s: int, c: char)
    requires Trie(w, name) && 0 <= s < |name| && c != NUL
    ensures 0 <= w[s].link < |name| && (w[s].inp == c ==> 0 < w[s].nst < |name|)
    ensures Step(w, name, s, c) == if w[s].inp == c then w[s].nst else if w[s].link != 0 then Step(w, name, w[s].link, c) else -1
  {
    Leads(w, name, s);
  }

  lemma FateIs(w: seq<Node>, name: seq<string>, s: int)
    requires Trie(w, name) && 0 <= s < |name| && w[s].inp != NUL && 0 <= w[s].fail < |name| && name[s] != ""
    ensures Fate(w, name, s) == if Step(w, name, w[s].fail, w[s].inp) == -1 then 0 else Step(w, name, w[s].fail, w[s].inp)
    ensures Step(w, name, w[s].fail, w[s].inp) != 0
  {
  }

  lemma HeadBehind(w: seq<Node>, name: seq<string>, head: seq<int>, s: int)
    requires Shape(w, name, head) && 0 <= s < |head|
    ensures w[s].inp != NUL ==> 0 < w[s].nst < |head| && head[w[s].nst] == w[s].nst
    ensures w[s].link != 0 ==> 0 < w[s].link < |head| && head[w[s].link] == head[s]
  {
    assert HeadOk(w[s], s, name, head);
  }

  // One node of the state, and on to the next.
  lemma SetOne(w: seq<Node>, v: seq<Node>, name: seq<string>, head: seq<int>, kw: set<string>, q: int, to: int, p: int)
    requires Trie(w, name) && Shape(w, name, head) && SameShape(w, v) && PartFails(w, v, head, q, to, p) && 0 <= p < |head| && head[p] == q
    requires |head| == |name| <= |w| == |v| && 0 < to < |head| && Below(name[to], name[p])
    requires Trie(v, name) && Failing(v, name) && Suffixed(v, name, kw)
    ensures
      var v' := v[p := v[p].(fail := to, out := v[p].out || v[to].out)];
      Trie(v', name) && Failing(v', name) && Suffixed(v', name, kw) && SameShape(w, v') && Shape(v', name, head) &&
      (if v'[p].link == 0 then StateFails(w, v', head, q, to)
       else p < v'[p].link < |head| && head[v'[p].link] == q && Below(name[to], name[v'[p].link]) && PartFails(w, v', head, q, to, v'[p].link))
  {
    hide Failing, Suffixed, Trie, SameShape, Below, NodeOk, Shape, PartFails, StateFails;
    var v' := v[p := v[p].(fail := to, out := v[p].out || v[to].out)];
    ShapeKept(w, v, name, head);
    SameLink(w, v, p);
    FailSet(v, name, kw, p, to);
    ShapeKept(v, v', name, head);
    ShapeTwice(w, v, v');
    Leads(w, name, p);
    HeadBehind(w, name, head, p);
    PartMore(w, v, name, head, q, to, p);
    PartOn(w, v', name, head, q, to, p);
  }

  lemma SameLink(w: seq<Node>, v: seq<Node>, p: int)
    requires SameShape(w, v) && 0 <= p < |v|
    ensures |v| == |w| && v[p].link == w[p].link && v[p].nst == w[p].nst && v[p].inp == w[p].inp
  {
  }

  // A state accepts that did before, or that fails to one that does.
  predicate OutLinks(t: seq<Node>, w: seq<Node>, n: int) {
    0 <= n <= |t| == |w| &&
    forall k :: 0 <= k < n ==> 0 <= w[k].fail < |w| && (w[k].out <==> t[k].out || (w[k].fail != 0 && w[w[k].fail].out))
  }

  // What cfail() has made so far: the nodes of past have been dealt with, the
  // states of seen have got their links.
  predicate Ranged(w: seq<Node>, name: seq<string>, head: seq<int>, past: set<int>, seen: set<int>) {
    |head| == |name| <= |w| && (forall k <- past :: 0 <= k < |head| && head[k] in seen) &&
    (forall k :: 0 <= k < |head| ==> 0 <= w[k].fail < |head|) && forall k :: 0 <= k < |head| && w[k].fail != 0 ==>
      head[k] in seen && head[k] != 0 && head[w[k].fail] in seen
  }

  predicate Cause(w: seq<Node>, past: set<int>, e: int) {
    exists k :: k in past && 0 <= k < |w| && w[k].inp != NUL && w[k].nst == e
  }

  predicate Follows(w: seq<Node>, past: set<int>, seen: set<int>) {
    forall k <- past :: 0 <= k < |w| && (w[k].inp != NUL ==> w[k].nst in seen)
  }

  predicate Caused(w: seq<Node>, past: set<int>, seen: set<int>) {
    forall e <- seen :: e != 0 ==> Cause(w, past, e)
  }

  predicate AllSettled(w: seq<Node>, name: seq<string>, head: seq<int>, past: set<int>) {
    Trie(w, name) && forall k <- past :: 0 <= k < |name| && 0 <= w[k].fail < |name| && Settled(w, name, head, k)
  }

  predicate Going(t: seq<Node>, w: seq<Node>, name: seq<string>, head: seq<int>, past: set<int>, seen: set<int>) {
    Ranged(w, name, head, past, seen) && OutLinks(t, w, |head|) && Follows(w, past, seen) && Caused(w, past, seen) &&
    AllSettled(w, name, head, past)
  }

  lemma GoingStarts(t: seq<Node>, name: seq<string>, head: seq<int>)
    requires Trie(t, name) && Shape(t, name, head) && NoFails(t)
    ensures Going(t, t, name, head, {}, {0})
  {
  }

  // The state behind s is one that has not been seen.
  lemma NotSeen(w: seq<Node>, name: seq<string>, head: seq<int>, past: set<int>, seen: set<int>, s: int)
    requires Caused(w, past, seen) && Shape(w, name, head) && 0 <= s < |head| && s !in past && w[s].inp != NUL
    requires forall k <- past :: 0 <= k < |head|
    ensures 0 < w[s].nst < |head| && head[w[s].nst] == w[s].nst && w[s].nst !in seen
  {
    HeadBehind(w, name, head, s);
  }

  lemma CausedMore(w: seq<Node>, w': seq<Node>, past: set<int>, seen: set<int>, s: int)
    requires Caused(w, past, seen) && SameShape(w, w') && 0 <= s < |w|
    ensures Caused(w', past + {s}, seen) && (w[s].inp != NUL ==> Caused(w', past + {s}, seen + {w[s].nst}))
  {
    forall e | e in seen && e != 0 ensures Cause(w', past + {s}, e) {
      assert Cause(w, past, e);
      var k :| k in past && 0 <= k < |w| && w[k].inp != NUL && w[k].nst == e;
      assert w'[k].inp != NUL && w'[k].nst == e;
    }
    if w[s].inp != NUL { assert w'[s].inp != NUL && w'[s].nst == w[s].nst; }
  }

  lemma GoingIdle(t: seq<Node>, w: seq<Node>, name: seq<string>, head: seq<int>, past: set<int>, seen: set<int>, s: int)
    requires Going(t, w, name, head, past, seen) && 0 <= s < |head| && head[s] in seen && w[s].inp == NUL
    ensures Going(t, w, name, head, past + {s}, seen)
  {
    hide *;
    GoingParts(t, w, name, head, past, seen);
    ShapeSame(w);
    CausedMore(w, w, past, seen, s);
    PartsIdle(w, name, head, past, seen, s);
    GoingJoin(t, w, name, head, past + {s}, seen);
  }

  lemma PartsIdle(w: seq<Node>, name: seq<string>, head: seq<int>, past: set<int>, seen: set<int>, s: int)
    requires Ranged(w, name, head, past, seen) && Follows(w, past, seen) && AllSettled(w, name, head, past)
    requires 0 <= s < |head| && head[s] in seen && w[s].inp == NUL
    ensures Ranged(w, name, head, past + {s}, seen) && Follows(w, past + {s}, seen) && AllSettled(w, name, head, past + {s})
  {
    hide Trie, FailsTo, Fate;
  }

  lemma {:induction false} StepSame(w: seq<Node>, w': seq<Node>, name: seq<string>, s: int, c: char)
    requires Trie(w, name) && Trie(w', name) && SameShape(w, w') && 0 <= s < |name| && c != NUL
    ensures Step(w', name, s, c) == Step(w, name, s, c)
    decreases |name| - s
  {
    Leads(w, name, s);
    if w[s].inp != c && w[s].link != 0 { StepSame(w, w', name, w[s].link, c); }
  }

  // The letter at s has been dealt with: the state q behind it fails to to.
  predicate Dealt(w: seq<Node>, w': seq<Node>, name: seq<string>, head: seq<int>, q: int, to: int) {
    SameShape(w, w') && Trie(w, name) && Trie(w', name) && |head| == |name| && if to == 0 then w' == w else StateFails(w, w', head, q, to)
  }

  lemma OthersStay(w: seq<Node>, w': seq<Node>, name: seq<string>, head: seq<int>, q: int, to: int)
    requires Dealt(w, w', name, head, q, to)
    ensures |head| == |name| <= |w| == |w'| && forall k :: 0 <= k < |head| && head[k] != q ==> w'[k] == w[k]
    ensures FailsTo(w, head, q, 0) ==> FailsTo(w', head, q, to)
  {
  }

  lemma SettledStays(w: seq<Node>, w': seq<Node>, name: seq<string>, head: seq<int>, q: int, to: int, k: int)
    requires Dealt(w, w', name, head, q, to) && 0 <= k < |name| && 0 <= w[k].fail < |name| && head[k] != q
    requires w[k].inp != NUL ==> if w[k].nst == q then FailsTo(w', head, q, Fate(w, name, k)) else Settled(w, name, head, k)
    ensures 0 <= w'[k].fail < |name| && Settled(w', name, head, k)
  {
    OthersStay(w, w', name, head, q, to);
    hide StateFails, Trie, SameShape, Step;
    if w[k].inp != NUL { StepSame(w, w', name, w[k].fail, w[k].inp); }
  }

  lemma SettledOne(w: seq<Node>, name: seq<string>, head: seq<int>, past: set<int>, seen: set<int>, q: int, k: int)
    requires Ranged(w, name, head, past, seen) && Follows(w, past, seen) && AllSettled(w, name, head, past) && q !in seen && k in past
    ensures 0 <= k < |name| == |head| <= |w| && 0 <= w[k].fail < |name| && head[k] != q && Trie(w, name) && Settled(w, name, head, k)
    ensures w[k].inp != NUL ==> w[k].nst != q
  {
    hide Trie, Settled;
  }

  lemma FreshState(w: seq<Node>, name: seq<string>, head: seq<int>, past: set<int>, seen: set<int>, q: int, s: int)
    requires Ranged(w, name, head, past, seen) && q !in seen && 0 <= s < |head| && head[s] in seen
    ensures FailsTo(w, head, q, 0) && |head| == |name| && 0 <= w[s].fail < |name| && head[s] != q
  {
  }

  lemma SettledMore(w: seq<Node>, w': seq<Node>, name: seq<string>, head: seq<int>, past: set<int>, seen: set<int>, s: int, q: int, to: int)
    requires Ranged(w, name, head, past, seen) && Follows(w, past, seen) && AllSettled(w, name, head, past)
    requires 0 <= s < |head| && head[s] in seen && Dealt(w, w', name, head, q, to) && q !in seen && s < |name| && s < |w|
    requires w[s].inp != NUL && q == w[s].nst && 0 <= w[s].fail < |name| && Trie(w, name) && to == Fate(w, name, s)
    ensures AllSettled(w', name, head, past + {s})
  {
    hide *;
    FreshState(w, name, head, past, seen, q, s);
    OthersStay(w, w', name, head, q, to);
    TrieStays(w, w', name, head, q, to);
    forall k | k in past + {s} ensures 0 <= k < |name| && 0 <= w'[k].fail < |name| && Settled(w', name, head, k) {
      if k != s { SettledOne(w, name, head, past, seen, q, k); }
      SettledStays(w, w', name, head, q, to, k);
    }
    AllSettledIntro(w', name, head, past + {s});
  }

  lemma TrieStays(w: seq<Node>, w': seq<Node>, name: seq<string>, head: seq<int>, q: int, to: int)
    requires Dealt(w, w', name, head, q, to)
    ensures Trie(w', name)
  {
  }

  lemma AllSettledIntro(w: seq<Node>, name: seq<string>, head: seq<int>, past: set<int>)
    requires Trie(w, name) && |name| <= |w| && forall k <- past :: 0 <= k < |name| && 0 <= w[k].fail < |name| && Settled(w, name, head, k)
    ensures AllSettled(w, name, head, past)
  {
    hide Trie, Settled;
  }

  lemma RangedMore(w: seq<Node>, w': seq<Node>, name: seq<string>, head: seq<int>, past: set<int>, seen: set<int>, s: int, q: int, to: int)
    requires Ranged(w, name, head, past, seen) && Dealt(w, w', name, head, q, to) && 0 <= s < |head| && head[s] in seen
    requires 0 < q < |head| && q !in seen && 0 <= to < |head| && (to != 0 ==> head[to] in seen)
    ensures Ranged(w', name, head, past + {s}, seen + {q})
  {
    hide Trie, SameShape;
  }

  lemma OutsMore(t: seq<Node>, w: seq<Node>, w': seq<Node>, name: seq<string>, head: seq<int>, past: set<int>, seen: set<int>, q: int, to: int)
    requires Ranged(w, name, head, past, seen) && OutLinks(t, w, |head|) && Dealt(w, w', name, head, q, to)
    requires q !in seen && 0 <= to < |head| && (to != 0 ==> head[to] in seen)
    ensures OutLinks(t, w', |head|)
  {
    hide Trie, SameShape;
  }

  lemma FollowsMore(w: seq<Node>, w': seq<Node>, past: set<int>, seen: set<int>, s: int)
    requires Follows(w, past, seen) && SameShape(w, w') && 0 <= s < |w|
    ensures Follows(w', past + {s}, seen + {w[s].nst})
  {
  }

  lemma GoingParts(t: seq<Node>, w: seq<Node>, name: seq<string>, head: seq<int>, past: set<int>, seen: set<int>)
    requires Going(t, w, name, head, past, seen)
    ensures Ranged(w, name, head, past, seen) && |head| == |name| <= |w| && forall k <- past :: 0 <= k < |head|
    ensures OutLinks(t, w, |head|) && Follows(w, past, seen) && Caused(w, past, seen) && AllSettled(w, name, head, past)
  {
    hide OutLinks, Follows, Caused, AllSettled;
  }

  lemma GoingJoin(t: seq<Node>, w: seq<Node>, name: seq<string>, head: seq<int>, past: set<int>, seen: set<int>)
    requires Ranged(w, name, head, past, seen) && OutLinks(t, w, |head|) && Follows(w, past, seen) && Caused(w, past, seen)
    requires AllSettled(w, name, head, past)
    ensures Going(t, w, name, head, past, seen)
  {
    hide Ranged, OutLinks, Follows, Caused, AllSettled;
  }

  lemma DealtSame(w: seq<Node>, w': seq<Node>, name: seq<string>, head: seq<int>, q: int, to: int)
    requires Dealt(w, w', name, head, q, to)
    ensures SameShape(w, w')
  {
  }

  lemma GoingOn(t: seq<Node>, w: seq<Node>, w': seq<Node>, name: seq<string>, head: seq<int>, past: set<int>, seen: set<int>, s: int, q: int, to: int)
    requires Going(t, w, name, head, past, seen) && Shape(w, name, head) && 0 <= s < |head| && s !in past && head[s] in seen
    requires |head| == |name| <= |w| && 0 <= w[s].fail < |name| && w[s].inp != NUL && Trie(w, name)
    requires q == w[s].nst && to == Fate(w, name, s) && Dealt(w, w', name, head, q, to) && (to != 0 ==> head[to] in seen)
    ensures Going(t, w', name, head, past + {s}, seen + {q})
  {
    hide *;
    GoingParts(t, w, name, head, past, seen);
    NotSeen(w, name, head, past, seen, s);
    SettledMore(w, w', name, head, past, seen, s, q, to);
    RangedMore(w, w', name, head, past, seen, s, q, to);
    OutsMore(t, w, w', name, head, past, seen, q, to);
    DealtSame(w, w', name, head, q, to);
    CausedMore(w, w', past, seen, s);
    FollowsMore(w, w', past, seen, s);
    GoingJoin(t, w', name, head, past + {s}, seen + {q});
  }

  predicate Unpast(head: seq<int>, past: set<int>, e: int) {
    forall k <- past :: 0 <= k < |head| && head[k] != e
  }

  predicate AllPast(head: seq<int>, past: set<int>, e: int) {
    forall k :: 0 <= k < |head| && head[k] == e ==> k in past
  }

  // The queue holds the first nodes of states not dealt with; h is the first node of
  // the state at work, of which those before s are past; -1 stands for none.
  predicate Waiting(head: seq<int>, past: set<int>, seen: set<int>, queue: seq<int>, h: int) {
    (forall i :: 0 <= i < |queue| ==>
      queue[i] in seen && 0 < queue[i] < |head| && head[queue[i]] == queue[i] && queue[i] != h && Unpast(head, past, queue[i])) &&
    forall i, j :: 0 <= i < j < |queue| ==> queue[i] != queue[j]
  }

  predicate AtWork(head: seq<int>, past: set<int>, seen: set<int>, h: int, s: int) {
    0 <= h < |head| ==> h in seen && head[h] == h && forall k :: 0 <= k < |head| && head[k] == h ==> (k in past <==> k < s)
  }

  predicate Line(head: seq<int>, past: set<int>, seen: set<int>, queue: seq<int>, h: int, s: int) {
    -1 <= h < |head| && Waiting(head, past, seen, queue, h) && AtWork(head, past, seen, h, s) &&
    forall e <- seen :: e in queue || e == h || AllPast(head, past, e)
  }

  // States come in the order of their lengths; up to length n all have been seen.
  predicate Levels(name: seq<string>, head: seq<int>, seen: set<int>, queue: seq<int>, n: int) {
    |head| == |name| && (forall k :: 0 <= k < |head| && |name[k]| <= n ==> head[k] in seen) &&
    (forall i :: 0 <= i < |queue| ==> 0 <= queue[i] < |name| && n <= |name[queue[i]]| <= n + 1) &&
    forall i, j :: 0 <= i < j < |queue| ==> |name[queue[i]]| <= |name[queue[j]]|
  }

  // The first node of a state is led to by a letter, one level up.
  lemma HeadLed(w: seq<Node>, name: seq<string>, head: seq<int>, e: int) returns (j: int)
    requires Trie(w, name) && Shape(w, name, head) && 0 < e < |head| && head[e] == e
    ensures 0 <= j < e && w[j].inp != NUL && w[j].nst == e && |name[e]| == |name[j]| + 1
  {
    assert LedTo(w, e);
    j :| 0 <= j < e && j < |w| && ((w[j].inp != NUL && w[j].nst == e) || w[j].link == e);
    assert HeadOk(w[j], j, name, head) && NodeOk(w[j], j, name);
  }

  lemma HeadIs(w: seq<Node>, name: seq<string>, head: seq<int>, k: int)
    requires Trie(w, name) && Shape(w, name, head) && 0 <= k < |head|
    ensures 0 <= head[k] <= k && name[head[k]] == name[k] && head[head[k]] == head[k]
  {
    assert HeadOk(w[k], k, name, head);
    if head[k] != k {
      assert LedTo(w, k);
      var j :| 0 <= j < k && j < |w| && ((w[j].inp != NUL && w[j].nst == k) || w[j].link == k);
      assert HeadOk(w[j], j, name, head) && NodeOk(w[j], j, name);
      HeadIs(w, name, head, j);
    }
  }

  lemma LineBegins(w: seq<Node>, name: seq<string>, head: seq<int>)
    requires Trie(w, name) && Shape(w, name, head)
    ensures Line(head, {}, {0}, [], 0, 0) && Levels(name, head, {0}, [], 0)
  {
    forall k | 0 <= k < |head| && |name[k]| <= 0 ensures head[k] == 0 {
      HeadIs(w, name, head, k);
      if head[k] != 0 { var j := HeadLed(w, name, head, head[k]); }
    }
    forall k | 0 <= k < |head| ensures 0 <= head[k] <= k { assert HeadOk(w[k], k, name, head); }
  }

  lemma LinePushed(name: seq<string>, head: seq<int>, past: set<int>, seen: set<int>, queue: seq<int>, h: int, s: int, q: int)
    requires |head| == |name| && Line(head, past, seen, queue, h, s) && 0 <= h && 0 <= s < |head| && head[s] == h && s !in past
    requires 0 < q < |head| && head[q] == q && q !in seen && forall k <- past :: 0 <= k < |head| && head[k] in seen
    requires Levels(name, head, seen, queue, |name[h]|) && |name[q]| == |name[h]| + 1
    ensures Line(head, past + {s}, seen + {q}, queue + [q], h, s + 1)
    ensures Levels(name, head, seen + {q}, queue + [q], |name[h]|)
  {
  }

  lemma LineIdle(head: seq<int>, past: set<int>, seen: set<int>, queue: seq<int>, h: int, s: int)
    requires Line(head, past, seen, queue, h, s) && 0 <= h && 0 <= s < |head| && head[s] == h && s !in past
    ensures Line(head, past + {s}, seen, queue, h, s + 1)
  {
  }

  // On to the next node of the state, or done with it.
  lemma LineMoves(w: seq<Node>, name: seq<string>, head: seq<int>, past: set<int>, seen: set<int>, queue: seq<int>, h: int, s: int)
    requires Trie(w, name) && Shape(w, name, head) && Line(head, past, seen, queue, h, s + 1) && 0 <= h && 0 <= s < |head| && head[s] == h
    ensures if w[s].link != 0 then Line(head, past, seen, queue, h, w[s].link) && w[s].link !in past else Line(head, past, seen, queue, -1, 0)
  {
    NoneBetween(w, name, head, s);
    HeadBehind(w, name, head, s);
    if w[s].link != 0 { assert NodeOk(w[s], s, name); }
    hide Trie, Shape;
  }

  lemma LineOpens(w: seq<Node>, name: seq<string>, head: seq<int>, past: set<int>, seen: set<int>, queue: seq<int>)
    requires Trie(w, name) && Shape(w, name, head) && Line(head, past, seen, queue, -1, 0) && |queue| > 0
    ensures 0 < queue[0] < |head| && head[queue[0]] == queue[0] && Line(head, past, seen, queue[1..], queue[0], queue[0]) && queue[0] !in past
  {
    forall k | 0 <= k < |head| ensures 0 <= head[k] <= k { assert HeadOk(w[k], k, name, head); }
    hide Trie, Shape;
  }

  lemma LevelsOpen(w: seq<Node>, name: seq<string>, head: seq<int>, past: set<int>, seen: set<int>, queue: seq<int>, n: nat)
    requires Trie(w, name) && Shape(w, name, head) && Line(head, past, seen, queue, -1, 0) && |queue| > 0
    requires Levels(name, head, seen, queue, n) && Follows(w, past, seen)
    ensures 0 <= queue[0] < |name| && Levels(name, head, seen, queue[1..], |name[queue[0]]|)
  {
    if |name[queue[0]]| == n + 1 {
      forall k | 0 <= k < |head| && |name[k]| <= n + 1 ensures head[k] in seen {
        if |name[k]| == n + 1 {
          HeadIs(w, name, head, k);
          NextLevel(w, name, head, past, seen, queue, n, head[k]);
        }
      }
    }
  }

  lemma NextLevel(w: seq<Node>, name: seq<string>, head: seq<int>, past: set<int>, seen: set<int>, queue: seq<int>, n: int, e: int)
    requires Trie(w, name) && Shape(w, name, head) && Line(head, past, seen, queue, -1, 0) && |queue| > 0
    requires Levels(name, head, seen, queue, n) && Follows(w, past, seen) && n >= 0
    requires |name[queue[0]]| == n + 1 && 0 <= e < |head| && head[e] == e && |name[e]| == n + 1
    ensures e in seen
  {
    assert name[0] == "";
    var j := HeadLed(w, name, head, e);
    HeadIs(w, name, head, j);
    assert head[j] in seen;
    assert AllPast(head, past, head[j]);
  }

  lemma {:induction false} Covered(w: seq<Node>, name: seq<string>, head: seq<int>, past: set<int>, seen: set<int>, k: int)
    requires Trie(w, name) && Shape(w, name, head) && Line(head, past, seen, [], -1, 0) && Follows(w, past, seen) && 0 in seen && 0 <= k < |head|
    ensures k in past
    decreases k
  {
    HeadIs(w, name, head, k);
    if head[k] > 0 {
      var j := HeadLed(w, name, head, head[k]);
      Covered(w, name, head, past, seen, j);
    }
    assert AllPast(head, past, head[k]);
  }

  lemma LinksDone(t: seq<Node>, w: seq<Node>, name: seq<string>, head: seq<int>, past: set<int>, seen: set<int>)
    requires Going(t, w, name, head, past, seen) && Shape(w, name, head) && Line(head, past, seen, [], -1, 0) && 0 in seen
    ensures FailureLinks(w, name, head) && OutLinks(t, w, |head|)
  {
    forall k | 0 <= k < |head| ensures k in past { Covered(w, name, head, past, seen, k); }
    hide Line, Shape, Follows, Caused, OutLinks, Trie;
  }

  // What a state would fail at is less deep than what lies behind it, and has been seen.
  lemma FateSeen(w: seq<Node>, name: seq<string>, head: seq<int>, seen: set<int>, queue: seq<int>, s: int)
    requires Trie(w, name) && Failing(w, name) && 0 <= s < |name| && w[s].inp != NUL && 0 <= w[s].fail < |name|
    requires Levels(name, head, seen, queue, |name[s]|)
    ensures Fate(w, name, s) != 0 ==> head[Fate(w, name, s)] in seen
  {
    FailName(w, name, s);
  }

  // One letter of the state at work.
  lemma LetterSeen(t: seq<Node>, w: seq<Node>, w': seq<Node>, name: seq<string>, head: seq<int>, past: set<int>, seen: set<int>,
                   queue: seq<int>, h: int, s: int)
    requires Going(t, w, name, head, past, seen) && Shape(w, name, head) && Trie(w, name) && Failing(w, name)
    requires |head| == |name| <= |w| && 0 <= h < |head| && 0 <= s < |head| && head[s] == h && s !in past && 0 <= w[s].fail < |name|
    requires Line(head, past, seen, queue, h, s) && Levels(name, head, seen, queue, |name[s]|)
    requires if w[s].inp == NUL then w' == w else Dealt(w, w', name, head, w[s].nst, Fate(w, name, s))
    ensures
      var (seen', queue') := if w[s].inp == NUL then (seen, queue) else (seen + {w[s].nst}, queue + [w[s].nst]);
      Going(t, w', name, head, past + {s}, seen') && Line(head, past + {s}, seen', queue', h, s + 1) &&
      Levels(name, head, seen', queue', |name[s]|)
  {
    hide *;
    WorkSeen(head, past, seen, queue, h, s);
    GoingParts(t, w, name, head, past, seen);
    RangedMeans(w, name, head, past, seen);
    HeadIs(w, name, head, s);
    Leads(w, name, s);
    if w[s].inp == NUL {
      GoingIdle(t, w, name, head, past, seen, s);
      LineIdle(head, past, seen, queue, h, s);
    } else {
      NotSeen(w, name, head, past, seen, s);
      FateSeen(w, name, head, seen, queue, s);
      GoingOn(t, w, w', name, head, past, seen, s, w[s].nst, Fate(w, name, s));
      LinePushed(name, head, past, seen, queue, h, s, w[s].nst);
    }
  }

  lemma RootDealt(w: seq<Node>, name: seq<string>, head: seq<int>, s: int)
    requires Trie(w, name) && |head| == |name| && 0 <= s < |name| && name[s] == "" && 0 <= w[s].fail < |name|
    ensures w[s].inp != NUL ==> Dealt(w, w, name, head, w[s].nst, Fate(w, name, s))
  {
    ShapeSame(w);
  }

  lemma WorkSeen(head: seq<int>, past: set<int>, seen: set<int>, queue: seq<int>, h: int, s: int)
    requires Line(head, past, seen, queue, h, s) && 0 <= h
    ensures h in seen
  {
  }

  lemma RangedMeans(w: seq<Node>, name: seq<string>, head: seq<int>, past: set<int>, seen: set<int>)
    requires Ranged(w, name, head, past, seen)
    ensures forall k <- past :: 0 <= k < |head| && head[k] in seen
  {
  }

  // ---------- the order in which cfail() takes the states, and its queue

  // The states one letter away, from node s of a state on.
  function Kids(w: seq<Node>, name: seq<string>, s: int): (kids: seq<int>)
    requires Trie(w, name) && 0 <= s < |name|
    ensures forall i :: 0 <= i < |kids| ==> 0 < kids[i] < |name|
    decreases |name| - s
  {
    Leads(w, name, s);
    (if w[s].inp != NUL then [w[s].nst] else []) + if w[s].link != 0 then Kids(w, name, w[s].link) else []
  }

  // The states in their order, as far as they are known when m of them have been
  // taken: the root, and then what lies behind its letters, and so on.
  function Order(w: seq<Node>, name: seq<string>, m: nat): (order: seq<int>)
    requires Trie(w, name)
    ensures forall i :: 0 <= i < |order| ==> 0 <= order[i] < |name|
    ensures |order| > 0 && order[0] == 0 && forall i :: 0 < i < |order| ==> order[i] > 0
  {
    if m == 0 then
      [0]
    else
      var order := Order(w, name, m - 1);
      order + if m <= |order| then Kids(w, name, order[m - 1]) else []
  }

  // What state m leads to; of the states before, m have been taken.
  function KidsOf(w: seq<Node>, name: seq<string>, m: nat): seq<int>
    requires Trie(w, name)
  {
    var order := Order(w, name, m);
    if m < |order| then Kids(w, name, order[m]) else []
  }

  // When state m is taken none is left waiting, front and rear are at the last
  // place of the array, and something is to be put there.
  predicate Strays(w: seq<Node>, name: seq<string>, m: nat)
    requires Trie(w, name)
  {
    0 < m && |Order(w, name, m)| == m + 1 && m % QSIZE == QSIZE - 1 && KidsOf(w, name, m) != []
  }

  // There is no place for all that state m leads to; for the letters of the root
  // there is one place less.
  predicate Crowded(w: seq<Node>, name: seq<string>, m: nat)
    requires Trie(w, name)
  {
    |Order(w, name, m)| - 1 - m + |KidsOf(w, name, m)| >= if m == 0 then QSIZE - 1 else QSIZE
  }

  // Up to state m all goes well.
  predicate Smooth(w: seq<Node>, name: seq<string>, m: nat)
    requires Trie(w, name)
  {
    forall k: nat :: k < m ==> !Strays(w, name, k) && !Crowded(w, name, k)
  }

  // How cfail() fares with this trie.
  ghost predicate Fares(w: seq<Node>, name: seq<string>, o: Outcome)
    requires Trie(w, name)
  {
    match o
    case Made => forall m: nat :: Smooth(w, name, m)
    case TooLarge => exists m: nat :: Smooth(w, name, m) && !Strays(w, name, m) && Crowded(w, name, m)
    case Beyond => exists m: nat :: Smooth(w, name, m) && Strays(w, name, m)
  }

  lemma SmoothEnds(w: seq<Node>, name: seq<string>, m: nat)
    requires Trie(w, name) && (Crowded(w, name, m) || Strays(w, name, m))
    ensures !Smooth(w, name, m + 1)
  {
  }

  // In one way only.
  lemma FaresOnce(w: seq<Node>, name: seq<string>, o: Outcome, o': Outcome)
    requires Trie(w, name) && Fares(w, name, o) && Fares(w, name, o')
    ensures o == o'
  {
    hide Strays, Crowded, Trie;
    if !o.Made? && !o'.Made? {
      var m: nat :| Smooth(w, name, m) && if o.TooLarge? then !Strays(w, name, m) && Crowded(w, name, m) else Strays(w, name, m);
      var m': nat :| Smooth(w, name, m') && if o'.TooLarge? then !Strays(w, name, m') && Crowded(w, name, m') else Strays(w, name, m');
      assert m == m';
    } else if o.Made? && !o'.Made? {
      var m: nat :| Smooth(w, name, m) && (Crowded(w, name, m) || Strays(w, name, m));
      SmoothEnds(w, name, m);
    } else if o'.Made? && !o.Made? {
      var m: nat :| Smooth(w, name, m) && (Crowded(w, name, m) || Strays(w, name, m));
      SmoothEnds(w, name, m);
    }
  }

  lemma KidsStep(w: seq<Node>, name: seq<string>, s: int)
    requires Trie(w, name) && 0 <= s < |name|
    ensures 0 <= w[s].link < |name|
    ensures Kids(w, name, s) ==
      (if w[s].inp != NUL then [w[s].nst] else []) + if w[s].link != 0 then Kids(w, name, w[s].link) else []
  {
    Leads(w, name, s);
  }

  // Between two states: m have been taken, the root among them.
  predicate Round(w: seq<Node>, name: seq<string>, m: nat, front: int, rear: int, waiting: seq<int>)
    requires Trie(w, name)
  {
    0 < m <= |Order(w, name, m)| && waiting == Order(w, name, m)[m..] && front == (m - 1) % QSIZE &&
    if rear == QSIZE then |waiting| == 1 && front == QSIZE - 1 && Smooth(w, name, m - 1) && Strays(w, name, m - 1)
    else rear == (m - 1 + |waiting|) % QSIZE && Smooth(w, name, m)
  }

  // State m is at work; rest is still to be put.
  predicate Turn(w: seq<Node>, name: seq<string>, m: nat, front: int, rear: int, waiting: seq<int>, rest: seq<int>)
    requires Trie(w, name)
  {
    0 < m < |Order(w, name, m)| && waiting + rest == Order(w, name, m)[m + 1..] + KidsOf(w, name, m) && front == m % QSIZE &&
    Smooth(w, name, m) && |Order(w, name, m)| - 1 - m <= |waiting| < QSIZE &&
    if rear == QSIZE then |waiting| == 1 && front == QSIZE - 1 && Strays(w, name, m)
    else rear == (m + |waiting|) % QSIZE && (Strays(w, name, m) ==> waiting == [])
  }

  lemma RoundStarts(w: seq<Node>, name: seq<string>, waiting: seq<int>)
    requires Trie(w, name) && 0 < |name| && waiting == Kids(w, name, 0)
    ensures if |waiting| >= QSIZE - 1 then Fares(w, name, TooLarge) else Round(w, name, 1, 0, |waiting|, waiting)
  {
    assert Order(w, name, 0) == [0];
    assert Order(w, name, 1) == [0] + waiting;
    assert KidsOf(w, name, 0) == waiting;
    hide Kids, Trie;
    assert Smooth(w, name, 0) && !Strays(w, name, 0);
  }

  lemma TurnStarts(w: seq<Node>, name: seq<string>, m: nat, front: int, rear: int, waiting: seq<int>)
    requires Trie(w, name) && Round(w, name, m, front, rear, waiting) && rear < QSIZE && |waiting| > 0 && |waiting| < QSIZE
    ensures 0 <= waiting[0] < |name| && Turn(w, name, m, After(front), rear, waiting[1..], Kids(w, name, waiting[0]))
  {
    hide Trie, Kids, Strays, Crowded, Smooth;
    assert Order(w, name, m)[m..][1..] == Order(w, name, m)[m + 1..];
    hide Order;
    NextPlace(m - 1);
    assert m + |waiting[1..]| == m - 1 + |waiting|;
    StraysMeans(w, name, m);
  }

  lemma StraysMeans(w: seq<Node>, name: seq<string>, m: nat)
    requires Trie(w, name)
    ensures Strays(w, name, m) ==> |Order(w, name, m)| == m + 1 && m % QSIZE == QSIZE - 1
  {
  }

  lemma NextPlace(m: nat)
    ensures (m + 1) % QSIZE == After(m % QSIZE)
  {
  }

  // How a letter's state is put.
  lemma TurnPushes(w: seq<Node>, name: seq<string>, m: nat, front: int, rear: int, waiting: seq<int>, q: int, rest: seq<int>)
    requires Trie(w, name) && Turn(w, name, m, front, rear, waiting, [q] + rest)
    ensures rear == QSIZE ==> Fares(w, name, Beyond)
    ensures rear < QSIZE && |waiting| == QSIZE - 1 ==> Fares(w, name, TooLarge)
    ensures rear < QSIZE && |waiting| < QSIZE - 1 ==>
      Turn(w, name, m, front, if front == rear == QSIZE - 1 then QSIZE else After(rear), waiting + [q], rest)
  {
    var order, kids := Order(w, name, m), KidsOf(w, name, m);
    assert waiting + ([q] + rest) == (waiting + [q]) + rest;
    assert |kids| >= 1;
    hide Trie, Order, KidsOf, Smooth;
    if rear < QSIZE {
      NextPlace(m + |waiting|);
      if |waiting| == QSIZE - 1 {
        assert Crowded(w, name, m);
      } else {
        if front == rear == QSIZE - 1 { FullTurn(m, |waiting|); }
      }
    }
  }

  lemma FullTurn(m: nat, n: nat)
    requires (m + n) % QSIZE == m % QSIZE && n < QSIZE
    ensures n == 0
  {
  }

  lemma TurnEnds(w: seq<Node>, name: seq<string>, m: nat, front: int, rear: int, waiting: seq<int>)
    requires Trie(w, name) && Turn(w, name, m, front, rear, waiting, [])
    ensures Round(w, name, m + 1, front, rear, waiting)
  {
    hide *;
    TurnMeans(w, name, m, front, rear, waiting);
    OrderStep(w, name, m);
    var order, kids := Order(w, name, m), KidsOf(w, name, m);
    assert waiting + [] == waiting;
    assert (order + kids)[m + 1..] == order[m + 1..] + kids;
    if rear < QSIZE {
      NotCrowded(w, name, m, |waiting|);
    }
    RoundIntro(w, name, m, front, rear, waiting);
  }

  lemma TurnMeans(w: seq<Node>, name: seq<string>, m: nat, front: int, rear: int, waiting: seq<int>)
    requires Trie(w, name) && Turn(w, name, m, front, rear, waiting, [])
    ensures 0 < m < |Order(w, name, m)| && waiting + [] == Order(w, name, m)[m + 1..] + KidsOf(w, name, m) && front == m % QSIZE
    ensures Smooth(w, name, m) && |waiting| < QSIZE
    ensures rear == QSIZE ==> |waiting| == 1 && front == QSIZE - 1 && Strays(w, name, m)
    ensures rear != QSIZE ==> rear == (m + |waiting|) % QSIZE && (Strays(w, name, m) ==> waiting == [])
  {
    hide Order, KidsOf, Smooth, Strays, Trie;
  }

  lemma OrderStep(w: seq<Node>, name: seq<string>, m: nat)
    requires Trie(w, name)
    ensures Order(w, name, m + 1) == Order(w, name, m) + KidsOf(w, name, m)
  {
    hide Kids, Trie;
  }

  lemma NotCrowded(w: seq<Node>, name: seq<string>, m: nat, n: nat)
    requires Trie(w, name) && 0 < m && n < QSIZE && |Order(w, name, m)| - 1 - m + |KidsOf(w, name, m)| == n && Smooth(w, name, m)
    requires Strays(w, name, m) ==> n == 0
    ensures Smooth(w, name, m + 1)
  {
    hide Order, KidsOf, Trie;
  }

  lemma RoundIntro(w: seq<Node>, name: seq<string>, m: nat, front: int, rear: int, waiting: seq<int>)
    requires Trie(w, name) && m + 1 <= |Order(w, name, m + 1)| && waiting == Order(w, name, m + 1)[m + 1..] && front == m % QSIZE
    requires rear == QSIZE ==> |waiting| == 1 && front == QSIZE - 1 && Smooth(w, name, m) && Strays(w, name, m)
    requires rear != QSIZE ==> rear == (m + |waiting|) % QSIZE && Smooth(w, name, m + 1)
    ensures Round(w, name, m + 1, front, rear, waiting)
  {
    hide Order, Smooth, Strays, Trie;
  }

  lemma {:induction false} OrderEnds(w: seq<Node>, name: seq<string>, m: nat, k: nat)
    requires Trie(w, name) && |Order(w, name, m)| <= m <= k
    ensures Order(w, name, k) == Order(w, name, m)
  {
    if m < k { OrderEnds(w, name, m, k - 1); }
  }

  // Nothing is left.
  lemma RoundDone(w: seq<Node>, name: seq<string>, m: nat, front: int, rear: int)
    requires Trie(w, name) && Round(w, name, m, front, rear, [])
    ensures Fares(w, name, Made)
  {
    forall n: nat ensures Smooth(w, name, n) {
      forall k: nat | k < n ensures !Strays(w, name, k) && !Crowded(w, name, k) {
        if k >= m { OrderEnds(w, name, m, k); }
      }
    }
  }

  // The array between two states.
  predicate Loaded(t: seq<Node>, name: seq<string>, m: nat, ring: seq<int>, front: int, rear: int, waiting: seq<int>) {
    Trie(t, name) && |ring| == QSIZE && Places(ring, |name|) && 0 <= front < QSIZE && 0 <= rear <= QSIZE &&
    waiting == Held(ring, front, rear) && Round(t, name, m, front, rear, waiting) &&
    (rear == QSIZE ==> front == QSIZE - 1 && t[ring[QSIZE - 2]].inp != NUL)
  }

  lemma LoadedMeans(t: seq<Node>, name: seq<string>, m: nat, ring: seq<int>, front: int, rear: int, waiting: seq<int>)
    requires Loaded(t, name, m, ring, front, rear, waiting)
    ensures Trie(t, name) && |ring| == QSIZE && Places(ring, |name|) && 0 <= front < QSIZE && 0 <= rear <= QSIZE
    ensures waiting == Held(ring, front, rear) && Round(t, name, m, front, rear, waiting) && |name| <= |t|
    ensures rear == QSIZE ==> front == QSIZE - 1 && t[ring[QSIZE - 2]].inp != NUL
  {
    hide Round, Held;
  }

  lemma LoadedIntro(t: seq<Node>, name: seq<string>, m: nat, ring: seq<int>, front: int, rear: int, waiting: seq<int>)
    requires Trie(t, name) && |ring| == QSIZE && Places(ring, |name|) && 0 <= front < QSIZE && 0 <= rear <= QSIZE
    requires waiting == Held(ring, front, rear) && Round(t, name, m, front, rear, waiting)
    requires rear == QSIZE ==> front == QSIZE - 1 && t[ring[QSIZE - 2]].inp != NUL
    ensures Loaded(t, name, m, ring, front, rear, waiting)
  {
    hide Round, Held, Trie;
  }

  // The root's states are in the array.
  lemma NobodyQueued(name: seq<string>)
    ensures InQueue([], name)
  {
  }

  lemma RootQueued(queue: seq<int>, name: seq<string>, ring: seq<int>, rear: int, x: int)
    requires InQueue(queue, name) && Places(ring, |name|) && 0 < x < |name| && name[x] != ""
    requires 0 <= rear == |queue| < |ring| && ring[..rear] == queue
    ensures InQueue(queue + [x], name) && Places(ring[rear := x], |name|) && ring[rear := x][..rear + 1] == queue + [x]
  {
  }

  lemma LoadedFirst(t: seq<Node>, name: seq<string>, ring: seq<int>, rear: int, waiting: seq<int>)
    requires Trie(t, name) && 0 < |name| && |ring| == QSIZE && Places(ring, |name|) && 0 <= rear < QSIZE - 1 && ring[..rear] == waiting
    requires waiting == Kids(t, name, 0)
    ensures Loaded(t, name, 1, ring, 0, rear, waiting)
  {
    hide Round, Trie, Kids;
    RoundStarts(t, name, waiting);
  }

  // The array holds nodes.
  predicate Places(ring: seq<int>, n: int) {
    forall i :: 0 <= i < |ring| ==> 0 <= ring[i] < n
  }

  lemma PlacesMore(ring: seq<int>, n: int, i: int, q: int)
    requires Places(ring, n) && 0 <= i < |ring| && 0 <= q < n
    ensures Places(ring[i := q], n)
  {
  }

  lemma RootCrowded(w: seq<Node>, name: seq<string>, queue: seq<int>, s: int)
    requires Trie(w, name) && 0 <= s < |name| && w[s].inp != NUL && |queue| >= QSIZE - 1
    requires 0 <= w[s].link < |name|
    requires queue + (if w[s].link != 0 then Kids(w, name, w[s].link) else []) == Kids(w, name, 0)
    ensures Fares(w, name, TooLarge)
  {
    hide Fares;
    assert |Kids(w, name, 0)| >= QSIZE - 1;
    RoundStarts(w, name, Kids(w, name, 0));
  }

  lemma StrayRound(w: seq<Node>, name: seq<string>, m: nat, front: int, waiting: seq<int>)
    requires Trie(w, name) && Round(w, name, m, front, QSIZE, waiting)
    ensures Fares(w, name, Beyond)
  {
  }

  // A state with letters has one at its first node.
  lemma FirstHasLetter(w: seq<Node>, name: seq<string>, head: seq<int>, h: int, s: int)
    requires Trie(w, name) && Shape(w, name, head) && 0 <= h < |head| && 0 <= s < |head| && head[h] == h == head[s] && w[s].inp != NUL
    ensures h < |w| && w[h].inp != NUL
  {
    assert HeadOk(w[s], s, name, head);
    if h != s {
      LinkOrder(w, name, head, h, s);
      Leads(w, name, h);
    }
  }

  // ---------- cfail() comes to an end: the part of the trie still to be seen

  function Weight(w: seq<Node>, name: seq<string>, s: int): (n: nat)
    requires Trie(w, name) && 0 <= s < |name|
    ensures n >= 1
    decreases |name| - s
  {
    Leads(w, name, s);
    1 + (if w[s].inp != NUL then Weight(w, name, w[s].nst) else 0) + if w[s].link != 0 then Weight(w, name, w[s].link) else 0
  }

  function Weights(w: seq<Node>, name: seq<string>, queue: seq<int>): nat
    requires Trie(w, name) && InQueue(queue, name)
  {
    if |queue| == 0 then 0
    else
      var n := |queue| - 1;
      Weights(w, name, queue[..n]) + Weight(w, name, queue[n])
  }

  lemma {:induction false} WeightsFirst(w: seq<Node>, name: seq<string>, queue: seq<int>)
    requires Trie(w, name) && InQueue(queue, name) && |queue| > 0
    ensures 0 < queue[0] < |name| && name[queue[0]] != "" && InQueue(queue[1..], name)
    ensures Weights(w, name, queue) == Weight(w, name, queue[0]) + Weights(w, name, queue[1..])
  {
    if |queue| > 1 {
      var n := |queue| - 1;
      WeightsFirst(w, name, queue[..n]);
      assert queue[..n][1..] == queue[1..][..n - 1];
    }
  }

  lemma WeightIs(w: seq<Node>, name: seq<string>, s: int)
    requires Trie(w, name) && 0 <= s < |name|
    ensures w[s].inp != NUL ==> s < w[s].nst < |name|
    ensures w[s].link != 0 ==> s < w[s].link < |name|
    ensures Weight(w, name, s) ==
      1 + (if w[s].inp != NUL then Weight(w, name, w[s].nst) else 0) + if w[s].link != 0 then Weight(w, name, w[s].link) else 0
  {
    Leads(w, name, s);
  }

  lemma WeightsMore(w: seq<Node>, name: seq<string>, queue: seq<int>, s: int)
    requires Trie(w, name) && InQueue(queue, name) && 0 < s < |name| && name[s] != ""
    ensures InQueue(queue + [s], name) && Weights(w, name, queue + [s]) == Weights(w, name, queue) + Weight(w, name, s)
  {
    assert (queue + [s])[..|queue|] == queue;
  }

  // ---------- matching

  // From the beginning again: the next state, or the end of the root's letters.
  function FromRoot(w: seq<Node>, name: seq<string>, c: int, ch: char): (d: int)
    requires Trie(w, name) && 0 <= c < |name|
    ensures 0 <= d < |name|
    decreases |name| - c
  {
    Leads(w, name, c);
    if w[c].inp == ch && ch != NUL then w[c].nst else if w[c].link != 0 then FromRoot(w, name, w[c].link, ch) else c
  }

  // The state after the letter ch.
  function Goto(w: seq<Node>, name: seq<string>, c: int, ch: char): (d: int)
    requires Trie(w, name) && Failing(w, name) && 0 <= c < |name|
    ensures 0 <= d < |name|
    decreases |name[c]|, |name| - c
  {
    Leads(w, name, c);
    FailName(w, name, c);
    if w[c].inp == ch && ch != NUL then w[c].nst
    else if w[c].link != 0 then Goto(w, name, w[c].link, ch)
    else if w[c].fail != 0 then Goto(w, name, w[c].fail, ch)
    else FromRoot(w, name, 0, ch)
  }

  // The rest of a line is read, from state c on, until a word is recognised.
  predicate Matches(w: seq<Node>, name: seq<string>, c: int, line: string)
    requires Trie(w, name) && Failing(w, name) && 0 <= c < |name|
    decreases |line|
  {
    if |line| == 0 then false
    else
      var d := Goto(w, name, c, line[0]);
      w[d].out || Matches(w, name, d, line[1..])
  }

  // Where the line from i on ends, behind its newline.
  function LineEnd(text: string, i: nat): (e: nat)
    requires i <= |text|
    ensures i <= e <= |text| && (i < |text| ==> i < e)
    decreases |text| - i
  {
    if i == |text| then i else if text[i] == '\n' then i + 1 else LineEnd(text, i + 1)
  }

  // The lines from i on that the automaton selects.
  function Selected(w: seq<Node>, name: seq<string>, text: string, i: nat): seq<string>
    requires Trie(w, name) && Failing(w, name) && i <= |text|
    decreases |text| - i
  {
    if i == |text| then []
    else
      var e := LineEnd(text, i);
      (if Matches(w, name, 0, text[i..e]) then [text[i..e]] else []) + Selected(w, name, text, e)
  }

  // What is still to be selected when the line from nlp on has been read up to p.
  function RestOf(w: seq<Node>, name: seq<string>, text: string, nlp: nat, p: nat, c: int): seq<string>
    requires Trie(w, name) && Failing(w, name) && nlp <= p <= |text| && 0 <= c < |name|
  {
    var e := LineEnd(text, nlp);
    (if p <= e && Matches(w, name, c, text[p..e]) then [text[nlp..e]] else []) + Selected(w, name, text, e)
  }

  lemma LineStarts(w: seq<Node>, name: seq<string>, text: string, i: nat)
    requires Trie(w, name) && Failing(w, name) && i <= |text|
    ensures RestOf(w, name, text, i, i, 0) == Selected(w, name, text, i) && i <= LineEnd(text, i) && (i == LineEnd(text, i) ==> i == |text|)
  {
    if i == |text| { assert text[i..i] == ""; }
  }

  lemma {:induction false} LineGoesOn(text: string, i: nat, p: nat)
    requires i <= |text| && i <= p < LineEnd(text, i)
    ensures LineEnd(text, p) == LineEnd(text, i) <= |text|
    ensures if text[p] == '\n' then p + 1 == LineEnd(text, i) else p + 1 < LineEnd(text, i) || LineEnd(text, i) == |text|
    decreases p - i
  {
    if i < p { LineGoesOn(text, i + 1, p); }
  }

  lemma OneLetter(w: seq<Node>, name: seq<string>, text: string, nlp: nat, p: nat, c: int, d: int)
    requires Trie(w, name) && Failing(w, name) && nlp <= |text| && nlp <= p < LineEnd(text, nlp) && 0 <= c < |name| && d == Goto(w, name, c, text[p])
    ensures w[d].out ==>
      RestOf(w, name, text, nlp, p, c) == [text[nlp..LineEnd(text, nlp)]] + Selected(w, name, text, LineEnd(text, nlp))
    ensures !w[d].out ==> RestOf(w, name, text, nlp, p, c) == RestOf(w, name, text, nlp, p + 1, d)
    ensures !w[d].out && p + 1 == LineEnd(text, nlp) ==> RestOf(w, name, text, nlp, p, c) == Selected(w, name, text, p + 1)
  {
    var e := LineEnd(text, nlp);
    hide Goto, LineEnd, Selected;
    assert text[p..e][0] == text[p] && text[p..e][1..] == text[p + 1..e];
  }

  lemma NoMore(w: seq<Node>, name: seq<string>, text: string, nlp: nat, p: nat, c: int)
    requires Trie(w, name) && Failing(w, name) && nlp <= p == |text| == LineEnd(text, nlp) && 0 <= c < |name|
    ensures RestOf(w, name, text, nlp, p, c) == []
  {
    assert text[p..p] == "";
  }

  // ---------- what a selected line holds

  predicate Contains(line: string, word: string) {
    exists i, j :: 0 <= i <= j <= |line| && line[i..j] == word
  }

  lemma {:induction false} RootName(w: seq<Node>, name: seq<string>, c: int, ch: char)
    requires Trie(w, name) && 0 <= c < |name| && name[c] == ""
    ensures name[FromRoot(w, name, c, ch)] in ["", [ch]]
    decreases |name| - c
  {
    Leads(w, name, c);
    if !(w[c].inp == ch && ch != NUL) && w[c].link != 0 {
      RootName(w, name, w[c].link, ch);
    } else if w[c].inp == ch && ch != NUL {
      assert name[w[c].nst] == [ch];
    }
  }

  // A state has always read an end of the line so far.
  lemma {:induction false} GotoName(w: seq<Node>, name: seq<string>, c: int, ch: char)
    requires Trie(w, name) && Failing(w, name) && 0 <= c < |name|
    ensures IsSuffix(name[Goto(w, name, c, ch)], name[c] + [ch])
    decreases |name[c]|, |name| - c
  {
    hide *;
    NameZero(w, name);
    GotoStep(w, name, c, ch);
    Leads(w, name, c);
    FailName(w, name, c);
    if w[c].inp == ch && ch != NUL {
      SuffixItself(name[c] + [ch]);
    } else if w[c].link != 0 {
      GotoName(w, name, w[c].link, ch);
    } else if w[c].fail != 0 {
      BelowShorter(name[w[c].fail], name[c]);
      GotoName(w, name, w[c].fail, ch);
      BelowMore(name[w[c].fail], name[c], ch);
      BelowShorter(name[w[c].fail] + [ch], name[c] + [ch]);
      SuffixOfSuffix(name[Goto(w, name, c, ch)], name[w[c].fail] + [ch], name[c] + [ch]);
    } else {
      RootName(w, name, 0, ch);
      LastOnly(name[c], ch);
      SuffixOfSuffix(name[Goto(w, name, c, ch)], [ch], name[c] + [ch]);
    }
  }

  lemma GotoStep(w: seq<Node>, name: seq<string>, c: int, ch: char)
    requires Trie(w, name) && Failing(w, name) && 0 <= c < |name|
    ensures 0 < |name| <= |w| && 0 <= w[c].link < |name| && 0 <= w[c].fail < |name|
    ensures Goto(w, name, c, ch) ==
      if w[c].inp == ch && ch != NUL then w[c].nst
      else if w[c].link != 0 then Goto(w, name, w[c].link, ch)
      else if w[c].fail != 0 then Goto(w, name, w[c].fail, ch)
      else FromRoot(w, name, 0, ch)
  {
    Leads(w, name, c);
    FailName(w, name, c);
    NameZero(w, name);
    hide Trie, Failing, FromRoot;
  }

  lemma SuffixItself(a: string)
    ensures IsSuffix(a, a)
  {
  }

  lemma BelowShorter(a: string, b: string)
    requires Below(a, b)
    ensures |a| < |b| && IsSuffix(a, b)
  {
  }

  // What RootName leaves to choose from ends in the letter.
  lemma LastOnly(a: string, c: char)
    ensures IsSuffix([c], a + [c]) && IsSuffix("", [c]) && IsSuffix([c], [c])
  {
    assert (a + [c])[|a|..] == [c];
  }

  // A line is selected only if it holds a word.
  lemma {:induction false} MatchIsWord(w: seq<Node>, name: seq<string>, kw: set<string>, c: int, read: string, line: string)
    requires Trie(w, name) && Failing(w, name) && Suffixed(w, name, kw) && 0 <= c < |name|
    requires IsSuffix(name[c], read) && Matches(w, name, c, line)
    ensures exists word :: word in kw && Contains(read + line, word)
    decreases |line|
  {
    MatchesStep(w, name, c, line);
    var d, now := Goto(w, name, c, line[0]), read + [line[0]];
    GotoName(w, name, c, line[0]);
    hide *;
    ReadMore(read, name[c], line[0]);
    SuffixOfSuffix(name[d], name[c] + [line[0]], now);
    Onwards(read, line);
    if w[d].out {
      OutWord(w, name, kw, d, now, line[1..]);
    } else {
      MatchIsWord(w, name, kw, d, now, line[1..]);
    }
  }

  lemma Onwards(read: string, line: string)
    requires line != ""
    ensures read + line == (read + [line[0]]) + line[1..]
  {
  }

  lemma MatchesStep(w: seq<Node>, name: seq<string>, c: int, line: string)
    requires Trie(w, name) && Failing(w, name) && 0 <= c < |name| && Matches(w, name, c, line)
    ensures line != ""
    ensures var d := Goto(w, name, c, line[0]); 0 <= d < |name| <= |w| && (w[d].out || Matches(w, name, d, line[1..]))
  {
  }

  lemma OutWord(w: seq<Node>, name: seq<string>, kw: set<string>, d: int, read: string, rest: string)
    requires Suffixed(w, name, kw) && 0 <= d < |name| && |name| <= |w| && w[d].out && IsSuffix(name[d], read)
    ensures exists word :: word in kw && Contains(read + rest, word)
  {
    var word :| word in kw && IsSuffix(word, name[d]);
    SuffixOfSuffix(word, name[d], read);
    WordAt(read, rest, word);
  }

  lemma ReadMore(read: string, a: string, c: char)
    requires IsSuffix(a, read)
    ensures IsSuffix(a + [c], read + [c])
  {
    assert (read + [c])[|read| - |a|..] == read[|read| - |a|..] + [c];
  }

  lemma WordAt(a: string, b: string, word: string)
    requires IsSuffix(word, a)
    ensures Contains(a + b, word)
  {
    assert (a + b)[|a| - |word|..|a|] == word;
  }

  lemma StepIsGoto(w: seq<Node>, name: seq<string>, s: int, c: char)
    requires Trie(w, name) && Failing(w, name) && 0 <= s < |name| && c != NUL && Step(w, name, s, c) != -1
    ensures Goto(w, name, s, c) == Step(w, name, s, c)
    decreases |name| - s
  {
    Leads(w, name, s);
    if w[s].inp != c { StepIsGoto(w, name, w[s].link, c); }
  }

  // A line that begins with a word is selected.
  lemma {:induction false} WordIsMatch(w: seq<Node>, name: seq<string>, s: int, str: string, line: string)
    requires Trie(w, name) && Failing(w, name) && 0 <= s < |name| && str != "" && str <= line && NUL !in str
    requires Walk(w, name, s, str) != -1 && w[Walk(w, name, s, str)].out
    ensures Matches(w, name, s, line)
    decreases |str|
  {
    assert str[0] in str && forall c <- str[1..] :: c in str;
    StepIsGoto(w, name, s, str[0]);
    if |str| > 1 { WordIsMatch(w, name, Step(w, name, s, str[0]), str[1..], line[1..]); }
  }

  class Automaton {
    const w: array<Node>
    var smax: int
    ghost var name: seq<string>
    ghost var head: seq<int>

    constructor ()
      ensures w.Length == MAXSIZ && (forall k :: 0 <= k < MAXSIZ ==> w[k] == EMPTY) && fresh(w)
    {
      w := new Node[MAXSIZ](_ => EMPTY);
      smax, name, head := 0, [""], [0];
    }

    ghost predicate Valid()
      reads this, w
    {
      w.Length == MAXSIZ && 0 < |name| == |head| == smax + 1 <= MAXSIZ && Trie(w[..], name) && Shape(w[..], name, head) && forall k :: smax < k < MAXSIZ ==> w[k] == EMPTY
    }

    // fgrep.c:278-290: the search for c among the letters of a state; r is the
    // node with c, or an empty one, or one at the end of the links.
    method Search(s: int, c: char) returns (r: int)
      requires Valid() && 0 <= s <= smax && c != NUL
      ensures 0 <= r <= smax && name[r] == name[s] && Chain(w[..], name, s, r, c) && Step(w[..], name, s, c) == Step(w[..], name, r, c)
      ensures w[r].inp == c || w[r].inp == NUL || w[r].link == 0
    {
      r := s;
      while w[r].inp != c && w[r].inp != NUL && w[r].link != 0
        invariant 0 <= r <= smax && Chain(w[..], name, s, r, c)
        decreases smax - r
      {
        ChainMore(w[..], name, s, r, c);
        r := w[r].link;
      }
      ChainMore(w[..], name, s, r, c);
    }

    // fgrep.c:283-287: no room, or a new empty node at the end of the state.
    method AddLink(s: int) returns (ok: bool, r: int)
      requires Valid() && 0 <= s <= smax && w[s].inp != NUL && w[s].link == 0
      modifies this, w
      ensures Valid() && (ok <==> old(smax) < MAXSIZ - 1) && (!ok ==> w[..] == old(w[..]) && name == old(name))
      ensures ok ==>
        r == smax == old(smax) + 1 && name == old(name) + [old(name[s])] && w[r] == EMPTY && StateCount(head) == StateCount(old(head)) &&
        w[..] == old(w[..])[s := old(w[s]).(link := r)] && Grown(old(w[..]), old(name), w[..], name)
    {
      hide Trie, Shape, Grown, NodeOk;
      ghost var t, n := w[..], name;
      r := s;
      if smax >= MAXSIZ - 1 {
        return false, r;
      }
      LinkAdded(t, n, s);
      ShapeLinked(t, n, head, s);
      HeadIs(t, n, head, s);
      smax := smax + 1;
      w[s] := w[s].(link := smax);
      assert w[..] == t[s := t[s].(link := smax)];
      CountMore(head, head[s]);
      name, head := name + [name[s]], head + [head[s]];
      r := smax;
      ok := true;
    }

    // fgrep.c:296-299: a letter, and a new state behind it.
    method AddLetter(s: int, c: char) returns (ok: bool, r: int)
      requires Valid() && 0 <= s <= smax && w[s].inp == NUL && c != NUL
      requires forall k :: 0 <= k <= smax && head[k] == head[s] ==> w[k].inp != c
      modifies this, w
      ensures ok <==> old(smax) < MAXSIZ - 1
      ensures ok ==>
        Valid() && r == smax == old(smax) + 1 && name == old(name) + [old(name[s]) + [c]] && w[r] == EMPTY && StateCount(head) == StateCount(old(head)) + 1 &&
        w[..] == old(w[..])[s := old(w[s]).(inp := c, nst := r)] && Grown(old(w[..]), old(name), w[..], name)
    {
      hide Trie, Shape, Grown, NodeOk;
      ghost var t, n := w[..], name;
      w[s] := w[s].(inp := c);
      r := s;
      if smax >= MAXSIZ - 1 {
        return false, r;
      }
      LetterAdded(t, n, s, c);
      ShapeLettered(t, n, head, s, c);
      smax := smax + 1;
      w[s] := w[s].(nst := smax);
      assert w[..] == t[s := t[s].(inp := c, nst := smax)];
      CountMore(head, smax);
      name, head := name + [name[s] + [c]], head + [smax];
      r := smax;
      ok := true;
    }

    // fgrep.c:294-307: the rest of a word, from its letter c on, for which the
    // empty node s0 is. Not ok: overflo().
    method Enter(s0: int, c0: char, text: string, p0: nat, ghost words: seq<string>, ghost cur0: string, ghost first: int)
      returns (ok: bool, p: nat, ghost cur: string)
      requires Valid() && 0 < p0 <= |text| && UnderWay(w[..], name, text, words, cur0, first, s0, p0 - 1)
      requires 0 <= s0 <= smax && 0 <= first <= smax && w[s0].inp == NUL && c0 == text[p0 - 1] != '\n' && NUL !in text && NoFails(w[..])
      modifies this, w
      ensures ok ==>
        Valid() && NoFails(w[..]) && p0 <= p <= |text| + 1 && (p <= |text| ==> text[p - 1] == '\n') &&
        WordIn(w[..], name, text, words, cur, if p <= |text| then p - 1 else |text|)
      ensures ok ==> smax <= old(smax) + p - p0 && StateCount(head) == StateCount(old(head)) + p - p0
      ensures !ok ==> old(smax) + |text| - p0 >= MAXSIZ - 1
    {
      hide Entering, Chain, Words, Tail, Rooted, Spells, Walk, Step, Grown, IsPrefix, UnderWay, LetterIn, WordIn, NodeOk, Shape;
      var s, c := s0, c0;
      p := p0;
      cur := cur0;
      ghost var at := first;
      while true
        invariant Valid() && p0 <= p <= |text| && 0 <= s <= smax && 0 <= at <= smax && w[s].inp == NUL && NoFails(w[..])
        invariant c == text[p - 1] != '\n' && UnderWay(w[..], name, text, words, cur, at, s, p - 1)
        invariant smax == old(smax) + p - p0 && StateCount(head) == StateCount(old(head)) + p - p0
        decreases |text| - p
      {
        ghost var t, n, r := w[..], name, s;
        AboutLetter(t, n, text, words, cur, at, s, p - 1);
        NewLetter(t, n, head, text, words, cur, at, s, p - 1);
        ok, s := AddLetter(s, c);
        if !ok {
          return;
        }
        LetterDone(t, n, w[..], name, text, words, cur, at, r, p - 1, s);
        cur, at := cur + [c], s;
        p := p + 1;
        if p > |text| || text[p - 1] == '\n' {
          break;
        }
        c := text[p - 1];
        NextLetter(w[..], name, text, words, cur, s, p - 1);
      }
      ghost var t := w[..];
      WordDone(t, name, text, words, cur, s, p - 1);
      Mark(s, cur, words, at);
      WordMarked(t, w[..], name, text, words, cur, s, p - 1);
      ok := true;
    }

    // smax->out = 1
    method Mark(s: int, ghost cur: string, ghost words: seq<string>, ghost at: int)
      requires Valid() && Entering(w[..], name, words, cur, at) && s == at != -1 && 0 <= s <= smax
      modifies w
      ensures Valid() && Spells(w[..], name, Set(words) + {cur}) && NUL !in cur && Walk(w[..], name, 0, cur) == s
      ensures w[..] == old(w[..])[s := old(w[s]).(out := true)]
    {
      hide Shape, Trie, Spells, Entering, Walk, Set, SameShape;
      ghost var t := w[..];
      MarkedState(t, name, head, words, cur, s);
      w[s] := w[s].(out := true);
      assert w[..] == t[s := t[s].(out := true)];
    }

    // fgrep.c:249-310. Not ok: overflo().
    method Cgotofn(text: string) returns (ok: bool)
      requires w.Length == MAXSIZ && (forall k :: 0 <= k < MAXSIZ ==> w[k] == EMPTY) && NUL !in text
      modifies this, w
      ensures ok ==> Valid() && NoFails(w[..]) && Spells(w[..], name, Keywords(text)) && RootedIn(name, Keywords(text))
      ensures ok ==> forall str :: Accepts(w[..], name, str) <==> Keyword(text, str)
      ensures if ok then StateCount(head) <= |text| + 1 else 2 * |text| >= MAXSIZ - 1
    {
      ok := EnterWords(text);
      if ok {
        AcceptsKeywords(w[..], name, text);
      }
    }

    // The same, word by word.
    method EnterWords(text: string) returns (ok: bool)
      requires w.Length == MAXSIZ && (forall k :: 0 <= k < MAXSIZ ==> w[k] == EMPTY) && NUL !in text
      modifies this, w
      ensures ok ==> Valid() && NoFails(w[..]) && Spells(w[..], name, Keywords(text)) && RootedIn(name, Keywords(text))
      ensures if ok then StateCount(head) <= |text| + 1 else 2 * |text| >= MAXSIZ - 1
    {
      hide Entering, Words, Tail, Rooted, Spells, Walk, Step, Grown, IsPrefix, UnderWay, WordIn, NodeOk, Reading, Shape, RootedIn, Keywords, Chain, Set,
        Trie;
      var p, s := 0, 0;
      smax, name, head := 0, [""], [0];
      ShapeStarts(w[..]);
      ghost var words, cur: string := [], "";
      NothingYet(w[..], text);
      while p < |text|
        invariant NoFails(w[..]) && smax <= 2 * p && StateCount(head) <= p + 1
        invariant Valid() && 0 <= p <= |text| && 0 <= s <= smax && Reading(w[..], name, text, words, cur, s, p)
      {
        var c := text[p];
        p := p + 1;
        if c == '\n' {
          ghost var t := w[..];
          ReadingMeans(t, name, text, words, cur, s, p - 1);
          Mark(s, cur, words, s);
          WordRepeated(t, w[..], name, text, words, cur, s, p - 1);
          words, cur := words + [cur], "";
          s := 0;
        } else {
          ok, p, s, words, cur := TakeLetter(s, c, text, p, words, cur);
          if !ok || p > |text| {
            return;
          }
        }
      }
      AllRead(w[..], name, text, words, cur, s);
      return true;
    }

    // fgrep.c:278-308: a letter that is known, or the rest of a new word.
    method TakeLetter(s0: int, c: char, text: string, p0: nat, ghost words0: seq<string>, ghost cur0: string)
      returns (ok: bool, p: nat, s: int, ghost words: seq<string>, ghost cur: string)
      requires Valid() && 0 < p0 <= |text| && 0 <= s0 <= smax && Reading(w[..], name, text, words0, cur0, s0, p0 - 1)
      requires c == text[p0 - 1] != '\n' && NoFails(w[..]) && NUL !in text
      modifies this, w
      ensures ok ==> Valid() && NoFails(w[..]) && p0 <= p <= |text| + 1
      ensures ok && p <= |text| ==> 0 <= s <= smax && Reading(w[..], name, text, words, cur, s, p)
      ensures ok && p > |text| ==> Spells(w[..], name, Keywords(text)) && RootedIn(name, Keywords(text))
      ensures ok ==> smax <= old(smax) + 1 + p - p0 && StateCount(head) <= StateCount(old(head)) + p - p0
      ensures !ok ==> old(smax) + 1 + |text| - p0 >= MAXSIZ - 1
    {
      hide Entering, Words, Tail, Rooted, Spells, Walk, Step, Grown, IsPrefix, UnderWay, WordIn, NodeOk, Reading, Shape, RootedIn, Keywords, Chain, Set,
        Trie;
      p, words, cur := p0, words0, cur0;
      ReadingLetter(w[..], name, text, words, cur, s0, p - 1);
      s := Search(s0, c);
      if w[s].inp == c {
        LetterFound(w[..], name, text, words, cur, s0, s, p - 1);
        s := w[s].nst;
        cur := cur + [c];
        ok := true;
      } else {
        ok, p := NewWord(s, c, text, p, words, cur, s0);
        s := 0;
        if ok && p <= |text| {
          words, cur := Words(text[..p]), "";
        }
      }
    }

    // fgrep.c:282-308: the letter c is not among those of its state.
    method NewWord(s0: int, c: char, text: string, p0: nat, ghost words: seq<string>, ghost cur: string, ghost first: int)
      returns (ok: bool, p: nat)
      requires Valid() && 0 < p0 <= |text| && Reading(w[..], name, text, words, cur, first, p0 - 1) && c == text[p0 - 1] != '\n'
      requires 0 <= first <= smax && 0 <= s0 <= smax && c != NUL && NUL !in text
      requires Chain(w[..], name, first, s0, c) && Step(w[..], name, first, c) == Step(w[..], name, s0, c)
      requires w[s0].inp != c && (w[s0].inp == NUL || w[s0].link == 0) && NoFails(w[..])
      modifies this, w
      ensures ok ==> Valid() && p0 <= p <= |text| + 1
      ensures ok && p <= |text| ==> Reading(w[..], name, text, Words(text[..p]), "", 0, p)
      ensures ok && p > |text| ==> Spells(w[..], name, Keywords(text)) && RootedIn(name, Keywords(text))
      ensures ok ==> NoFails(w[..])
      ensures ok ==> smax <= old(smax) + 1 + p - p0 && StateCount(head) <= StateCount(old(head)) + p - p0
      ensures !ok ==> old(smax) + 1 + |text| - p0 >= MAXSIZ - 1
    {
      hide Entering, Words, Tail, Rooted, Spells, Walk, Grown, IsPrefix, UnderWay, WordIn, NodeOk, Reading, Accepts, Keyword, Shape, RootedIn;
      NoStep(w[..], name, s0, c);
      ghost var t, n := w[..], name;
      LetterMissing(t, n, text, words, cur, first, s0, p0 - 1);
      var s := s0;
      if w[s].inp != NUL {
        ok, s := AddLink(s);
        if !ok {
          return ok, p0;
        }
        NewLink(t, n, w[..], name, text, words, cur, first, s0, p0 - 1);
      }
      ghost var word;
      ok, p, word := Enter(s, c, text, p0, words, cur, first);
      if !ok {
        return;
      }
      if p <= |text| {
        WordEnds(w[..], name, text, words, word, p - 1);
      } else {
        TextEnds(w[..], name, text, words, word);
      }
    }

    // fgrep.c:316-359.
    method Cfail(ghost kw: set<string>) returns (o: Outcome)
      requires Valid() && NoFails(w[..]) && Failing(w[..], name) && Suffixed(w[..], name, kw)
      modifies w
      ensures SameShape(old(w[..]), w[..]) && Valid() && Failing(w[..], name) && Suffixed(w[..], name, kw)
      ensures o.Made? ==> FailureLinks(w[..], name, head) && OutLinks(old(w[..]), w[..], |name|)
      ensures Fares(old(w[..]), name, o)
    {
      hide Failing, Suffixed, Weights, Shape, Trie, NodeOk, SameShape, Going, Line, Levels, NoFails, FailureLinks, OutLinks, Settled, Held,
        Fares, Round, Strays;
      ghost var t := w[..];
      ghost var past, seen, n: nat, m: nat, queue;
      var ring := new int[QSIZE](_ => 0);
      var front, rear := 0, 0;
      o, rear, queue, past, seen := RootStates(ring, kw);
      n, m := 0, 1;
      ShapeSame(t);
      if !o.Made? {
        return;
      }
      while rear != front
        invariant SameShape(t, w[..]) && Valid() && Failing(w[..], name) && Suffixed(w[..], name, kw) && InQueue(queue, name)
        invariant 0 in seen && Going(t, w[..], name, head, past, seen) && Line(head, past, seen, queue, -1, 0) && Levels(name, head, seen, queue, n)
        invariant o.Made? && Loaded(t, name, m, ring[..], front, rear, queue)
        decreases Weights(t, name, queue)
      {
        if rear == QSIZE {
          StrayRound(t, name, m, front, queue);
          o := RunOut(ring, front, t);
          return;
        }
        o, front, rear, queue, past, seen, n := OneState(ring, front, rear, queue, kw, t, past, seen, n, m);
        m := m + 1;
        if !o.Made? {
          return;
        }
      }
      RoundDone(t, name, m, front, rear);
      LinksDone(t, w[..], name, head, past, seen);
    }

    // fgrep.c:322-330: the states one letter away, which fail at the root.
    method RootStates(ring: array<int>, ghost kw: set<string>)
      returns (o: Outcome, rear: int, ghost queue: seq<int>, ghost past: set<int>, ghost seen: set<int>)
      requires Valid() && NoFails(w[..]) && Failing(w[..], name)
      requires ring.Length == QSIZE && Places(ring[..], |name|)
      modifies ring
      ensures o.Made? ==> InQueue(queue, name) && 0 in seen && Going(w[..], w[..], name, head, past, seen)
      ensures o.Made? ==> Line(head, past, seen, queue, -1, 0) && Levels(name, head, seen, queue, 0)
      ensures if o.Made? then Loaded(w[..], name, 1, ring[..], 0, rear, queue) else Fares(w[..], name, o)
      ensures w[..] == old(w[..])
    {
      hide Failing, Shape, Trie, NodeOk, SameShape, Going, Line, Levels, NoFails, Settled, Kids, Fares, Loaded, InQueue, Places;
      ghost var t := w[..];
      GoingStarts(t, name, head);
      LineBegins(t, name, head);
      HeadIs(t, name, head, 0);
      NameZero(t, name);
      NobodyQueued(name);
      past, seen := {}, {0};
      queue := [];
      var s := 0;
      rear := 0;
      while true
        invariant w[..] == t && 0 <= s <= smax && InQueue(queue, name) && name[s] == "" && head[s] == 0
        invariant 0 in seen && Going(t, t, name, head, past, seen) && Line(head, past, seen, queue, 0, s) && Levels(name, head, seen, queue, 0)
        invariant s !in past && queue + Kids(t, name, s) == Kids(t, name, 0)
        invariant 0 <= rear == |queue| < QSIZE - 1 && ring[..rear] == queue && Places(ring[..], |name|)
        decreases smax - s
      {
        Leads(t, name, s);
        KidsStep(t, name, s);
        HeadBehind(t, name, head, s);
        FailName(t, name, s);
        RootDealt(t, name, head, s);
        LetterSeen(t, t, t, name, head, past, seen, queue, 0, s);
        if w[s].inp != NUL {
          RootQueued(queue, name, ring[..], rear, w[s].nst);
          ghost var places := ring[..];
          ring[rear] := w[s].nst;
          assert ring[..] == places[rear := w[s].nst];
          rear := rear + 1;
          queue := queue + [w[s].nst];
          seen := seen + {w[s].nst};
          if rear >= QSIZE - 1 {
            RootCrowded(t, name, queue, s);
            return TooLarge, rear, queue, past, seen;
          }
        }
        past := past + {s};
        LineMoves(t, name, head, past, seen, queue, 0, s);
        if w[s].link == 0 {
          break;
        }
        s := w[s].link;
      }
      LoadedFirst(t, name, ring[..], rear, queue);
      o := Made;
    }

    // fgrep.c:333-357: the letters of one state.
    method OneState(ring: array<int>, front0: int, rear0: int, ghost queue0: seq<int>, ghost kw: set<string>, ghost t: seq<Node>,
                    ghost past0: set<int>, ghost seen0: set<int>, ghost n0: nat, ghost m: nat)
      returns (o: Outcome, front: int, rear: int, ghost queue: seq<int>, ghost past: set<int>, ghost seen: set<int>, ghost n: nat)
      requires Valid() && Failing(w[..], name) && Suffixed(w[..], name, kw) && SameShape(t, w[..]) && Trie(t, name)
      requires InQueue(queue0, name) && 0 in seen0 && Going(t, w[..], name, head, past0, seen0)
      requires Line(head, past0, seen0, queue0, -1, 0) && Levels(name, head, seen0, queue0, n0)
      requires Loaded(t, name, m, ring[..], front0, rear0, queue0) && front0 != rear0 && rear0 != QSIZE
      modifies w, ring
      ensures Valid() && Failing(w[..], name) && Suffixed(w[..], name, kw) && SameShape(t, w[..])
      ensures o.Made? ==> InQueue(queue, name) && Weights(t, name, queue) < Weights(t, name, queue0) && 0 in seen
      ensures o.Made? ==> Going(t, w[..], name, head, past, seen) && Line(head, past, seen, queue, -1, 0) && Levels(name, head, seen, queue, n)
      ensures if o.Made? then Loaded(t, name, m + 1, ring[..], front, rear, queue) else Fares(t, name, o)
    {
      hide Failing, Suffixed, Weights, Shape, Trie, NodeOk, SameShape, Going, Line, Levels, Settled, InQueue, FailsTo, Follows, Ranged,
        OutLinks, Caused, AllSettled, Weight, Fate, StateFails, Held, Fares, Round, Turn, Kids, Loaded, Places;
      LoadedMeans(t, name, m, ring[..], front0, rear0, queue0);
      var s;
      s, front := Pop(ring, front0, rear0);
      rear := rear0;
      WeightsFirst(t, name, queue0);
      GoingParts(t, w[..], name, head, past0, seen0);
      LineOpens(w[..], name, head, past0, seen0, queue0);
      LevelsOpen(w[..], name, head, past0, seen0, queue0, n0);
      TurnStarts(t, name, m, front0, rear0, queue0);
      SameLink(t, w[..], s);
      past, seen := past0, seen0;
      ghost var total, h := Weights(t, name, queue0), s;
      n := |name[h]|;
      queue := queue0[1..];
      while true
        invariant SameShape(t, w[..]) && Valid() && Failing(w[..], name) && Suffixed(w[..], name, kw) && InQueue(queue, name)
        invariant 0 < s <= smax && name[s] != "" && Weights(t, name, queue) + Weight(t, name, s) <= total
        invariant 0 in seen && Going(t, w[..], name, head, past, seen) && Line(head, past, seen, queue, h, s) && Levels(name, head, seen, queue, n)
        invariant s !in past && head[s] == h && name[s] == name[h] && n == |name[h]|
        invariant 0 <= rear <= QSIZE && queue == Held(ring[..], front, rear) && Turn(t, name, m, front, rear, queue, Kids(t, name, s))
        invariant 0 <= front < QSIZE && |t| == |w[..]| && Places(ring[..], |name|) && ring[Before(front)] == h && (rear == QSIZE ==> front == QSIZE - 1 && t[h].inp != NUL)
        decreases smax - s
      {
        Leads(t, name, s);
        KidsStep(t, name, s);
        SameLink(t, w[..], s);
        HeadBehind(w[..], name, head, s);
        WeightIs(t, name, s);
        ghost var v, waiting := w[..], queue;
        FailName(v, name, s);
        ghost var rest := if t[s].link != 0 then Kids(t, name, t[s].link) else [];
        if w[s].inp != NUL {
          WeightsMore(t, name, queue, w[s].nst);
          TurnPushes(t, name, m, front, rear, queue, w[s].nst, rest);
          ghost var r := ring[..];
          if rear < QSIZE { PlacesMore(r, |name|, rear, w[s].nst); }
          o, rear := Push(ring, front, rear, w[s].nst);
          queue := queue + [w[s].nst];
          if !o.Made? {
            return;
          }
          FirstHasLetter(v, name, head, h, s);
          SameLink(t, v, h);
          FailTo(s, kw);
          ShapeTwice(t, v, w[..]);
          SameLink(v, w[..], s);
        }
        LetterSeen(t, v, w[..], name, head, past, seen, waiting, h, s);
        seen := if v[s].inp != NUL then seen + {v[s].nst} else seen;
        past := past + {s};
        LineMoves(w[..], name, head, past, seen, queue, h, s);
        if w[s].link == 0 {
          break;
        }
        s := w[s].link;
      }
      TurnEnds(t, name, m, front, rear, queue);
      LoadedIntro(t, name, m + 1, ring[..], front, rear, queue);
      o := Made;
    }

    // The same once rear is behind the array. States are taken that were taken
    // before. From those without a letter, which have no link either, nothing comes;
    // then there is one with a letter, and no place for what is behind it.
    method RunOut(ring: array<int>, front0: int, ghost t: seq<Node>) returns (o: Outcome)
      requires Valid() && SameShape(t, w[..]) && ring.Length == QSIZE && Places(ring[..], |name|)
      requires front0 == QSIZE - 1 && ring[QSIZE - 2] < |t| && t[ring[QSIZE - 2]].inp != NUL
      modifies ring
      ensures o.Beyond? && w[..] == old(w[..])
    {
      hide Shape, Trie;
      var front, rear := front0, QSIZE;
      while rear != front
        invariant 0 <= front < QSIZE && ring[..] == old(ring[..])
        decreases if front == QSIZE - 1 then QSIZE else QSIZE - 1 - front
      {
        var s;
        SameLink(t, w[..], ring[QSIZE - 2]);
        s, front := Pop(ring, front, rear);
        if w[s].inp != NUL {
          o, rear := Push(ring, front, rear, w[s].nst);
          return;
        }
      }
    }

    // fgrep.c:346-354: the failure link of the state behind s, if the state where
    // s fails has the same letter.
    method FailTo(s: int, ghost kw: set<string>)
      requires Valid() && Failing(w[..], name) && Suffixed(w[..], name, kw) && 0 < s <= smax && name[s] != "" && w[s].inp != NUL
      requires 0 <= w[s].fail <= smax
      modifies w
      ensures SameShape(old(w[..]), w[..]) && Valid() && Failing(w[..], name) && Suffixed(w[..], name, kw)
      ensures var to := old(Fate(w[..], name, s));
        if to == 0 then w[..] == old(w[..]) else StateFails(old(w[..]), w[..], head, old(w[s].nst), to)
    {
      hide Failing, Suffixed, Trie, SameShape, Below, NodeOk, Shape, Step, StateFails, Fate, NoFails;
      ghost var t := w[..];
      FailName(t, name, s);
      Leads(t, name, s);
      HeadBehind(t, name, head, s);
      ShapeSame(t);
      FateIs(t, name, s);
      var c, q, state := w[s].inp, w[s].nst, w[s].fail;
      while true
        modifies {}
        invariant 0 <= state <= smax && w[..] == t && Below(name[state], name[s])
        invariant Step(t, name, t[s].fail, c) == Step(t, name, state, c)
        decreases smax - state
      {
        Leads(t, name, state);
        StepOnce(t, name, state, c);
        if w[state].inp == c {
          break;
        }
        if w[state].link == 0 {
          return;
        }
        state := w[state].link;
      }
      BelowMore(name[state], name[s], c);
      SetFails(q, w[state].nst, kw);
    }

    // fgrep.c:349-351: for all letters of the state at q0.
    method SetFails(q0: int, to: int, ghost kw: set<string>)
      requires Valid() && Failing(w[..], name) && Suffixed(w[..], name, kw)
      requires 0 < q0 <= smax && 0 < to <= smax && |head| == |name| && head[q0] == q0 && Below(name[to], name[q0])
      modifies w
      ensures SameShape(old(w[..]), w[..]) && Valid() && Failing(w[..], name) && Suffixed(w[..], name, kw)
      ensures StateFails(old(w[..]), w[..], head, q0, to)
    {
      hide Failing, Suffixed, Trie, SameShape, Below, NodeOk, Shape, PartFails, StateFails;
      ghost var t := w[..];
      ShapeSame(t);
      PartBegins(t, name, head, q0, to);
      var q := q0;
      while true
        invariant SameShape(t, w[..]) && Valid() && Failing(w[..], name) && Suffixed(w[..], name, kw)
        invariant 0 < q <= smax && Below(name[to], name[q]) && head[q] == q0 && PartFails(t, w[..], head, q0, to, q)
        decreases smax - q
      {
        ghost var v := w[..];
        SetOne(t, v, name, head, kw, q0, to, q);
        w[q] := w[q].(fail := to);
        if w[to].out {
          w[q] := w[q].(out := true);
        }
        assert w[..] == v[q := v[q].(fail := to, out := v[q].out || v[to].out)];
        if w[q].link == 0 {
          break;
        }
        q := w[q].link;
      }
    }

    // fgrep.c:150-230: the lines selected. The text of a line runs through the
    // automaton until a word is recognised or the line ends.
    method Execute(text: string) returns (selected: seq<string>)
      requires Valid() && Failing(w[..], name) && NUL !in text
      ensures selected == Selected(w[..], name, text, 0)
    {
      hide Selected, Matches, LineEnd, Goto;
      selected := [];
      var p, nlp, c := 0, 0, 0;
      ghost var e := LineEnd(text, 0);
      LineStarts(w[..], name, text, 0);
      while p < |text|
        invariant 0 <= nlp <= p <= e <= |text| && 0 <= c <= smax && e == LineEnd(text, nlp) && (p == e ==> p == |text|)
        invariant selected + RestOf(w[..], name, text, nlp, p, c) == Selected(w[..], name, text, 0)
        decreases |text| - p
      {
        LineGoesOn(text, nlp, p);
        ghost var c0 := c;
        CharOf(text, p);
        c := NextState(c, text[p]);
        OneLetter(w[..], name, text, nlp, p, c0, c);
        if w[c].out {
          p := SkipLine(text, p);
          selected := selected + [text[nlp..p]];
          nlp := p;
          c := 0;
          e := LineEnd(text, p);
          LineStarts(w[..], name, text, p);
        } else {
          p := p + 1;
          if text[p - 1] == '\n' {
            nlp := p;
            c := 0;
            e := LineEnd(text, p);
            LineStarts(w[..], name, text, p);
          }
        }
      }
      NoMore(w[..], name, text, nlp, p, c);
    }

    // fgrep.c:187-196: to the end of the line, or of the text.
    static method SkipLine(text: string, p0: nat) returns (p: nat)
      requires p0 < |text|
      ensures p == LineEnd(text, p0)
    {
      p := p0;
      while p < |text| && text[p] != '\n'
        invariant p0 <= p <= |text| && LineEnd(text, p) == LineEnd(text, p0)
      {
        p := p + 1;
      }
      if p < |text| {
        p := p + 1;
      }
    }

    // fgrep.c:162-185: the letter ch is read.
    method NextState(c0: int, ch: char) returns (c: int)
      requires Valid() && Failing(w[..], name) && 0 <= c0 <= smax && ch != NUL
      ensures c == Goto(w[..], name, c0, ch)
    {
      c := c0;
      while true
        invariant 0 <= c <= smax && Goto(w[..], name, c, ch) == Goto(w[..], name, c0, ch)
        decreases |name[c]|, smax - c
      {
        Leads(w[..], name, c);
        FailName(w[..], name, c);
        if w[c].inp == ch {
          return w[c].nst;
        } else if w[c].link != 0 {
          c := w[c].link;
        } else if w[c].fail != 0 {
          c := w[c].fail;
        } else {
          c := 0;
          while w[c].inp != ch && w[c].link != 0
            invariant 0 <= c <= smax && FromRoot(w[..], name, c, ch) == FromRoot(w[..], name, 0, ch)
            decreases smax - c
          {
            Leads(w[..], name, c);
            c := w[c].link;
          }
          Leads(w[..], name, c);
          return if w[c].inp == ch then w[c].nst else c;
        }
      }
    }
  }

  // The lines of a text, from i on.
  function Lines(text: string, i: nat): seq<string>
    requires i <= |text|
    decreases |text| - i
  {
    if i == |text| then [] else [text[i..LineEnd(text, i)]] + Lines(text, LineEnd(text, i))
  }

  // s is t with some members left out.
  predicate SubSequence(s: seq<string>, t: seq<string>) {
    if |s| == 0 then true
    else if |t| == 0 then false
    else (s[0] == t[0] && SubSequence(s[1..], t[1..])) || SubSequence(s, t[1..])
  }

  lemma {:induction false} SelectedLines(w: seq<Node>, name: seq<string>, text: string, i: nat, line: string)
    requires Trie(w, name) && Failing(w, name) && i <= |text|
    ensures SubSequence(Selected(w, name, text, i), Lines(text, i))
    ensures line in Selected(w, name, text, i) <==> line in Lines(text, i) && Matches(w, name, 0, line)
    decreases |text| - i
  {
    if i < |text| {
      var e := LineEnd(text, i);
      SelectedLines(w, name, text, e, line);
      var first, rest, more := text[i..e], Selected(w, name, text, e), Lines(text, e);
      assert Lines(text, i) == [first] + more && Lines(text, i)[1..] == more;
      if Matches(w, name, 0, first) {
        assert ([first] + rest)[1..] == rest;
      } else {
        assert [] + rest == rest;
      }
    }
  }

  // A line that is selected is selected as often as it occurs.
  lemma {:induction false} SelectedCount(w: seq<Node>, name: seq<string>, text: string, i: nat, line: string)
    requires Trie(w, name) && Failing(w, name) && i <= |text|
    ensures multiset(Selected(w, name, text, i))[line] == if Matches(w, name, 0, line) then multiset(Lines(text, i))[line] else 0
    decreases |text| - i
  {
    hide Matches, Trie, Failing;
    if i < |text| {
      var e := LineEnd(text, i);
      SelectedCount(w, name, text, e, line);
      hide Selected, Lines, LineEnd;
    }
  }

  function Joined(s: seq<string>): string {
    if s == [] then "" else s[0] + Joined(s[1..])
  }

  // The lines are the text cut behind every newline.
  lemma {:induction false} LinesJoin(text: string, i: nat)
    requires i <= |text|
    ensures Joined(Lines(text, i)) == text[i..]
    ensures forall line <- Lines(text, i) :: AtEndOnly(line)
    ensures forall k :: 0 <= k < |Lines(text, i)| - 1 ==> Terminated(Lines(text, i)[k])
    decreases |text| - i
  {
    if i < |text| {
      var e := LineEnd(text, i);
      LinesJoin(text, e);
      LineCut(text, i);
      LinesBegin(text, i, e);
      assert text[i..] == text[i..e] + text[e..];
      hide Lines, LineEnd, AtEndOnly, Terminated;
      JoinMore(text[i..e], Lines(text, e));
    }
  }

  // It holds no newline but at its end, and something.
  predicate AtEndOnly(line: string) {
    |line| > 0 && '\n' !in line[..|line| - 1]
  }

  predicate Terminated(line: string) {
    |line| > 0 && line[|line| - 1] == '\n'
  }

  lemma LinesBegin(text: string, i: nat, e: nat)
    requires i < |text| && e == LineEnd(text, i)
    ensures Lines(text, i) == [text[i..e]] + Lines(text, e) && (Lines(text, e) != [] ==> e < |text|)
  {
  }

  lemma JoinMore(first: string, more: seq<string>)
    ensures Joined([first] + more) == first + Joined(more)
  {
    assert ([first] + more)[1..] == more;
  }

  lemma {:induction false} LineCut(text: string, i: nat)
    requires i < |text|
    ensures AtEndOnly(text[i..LineEnd(text, i)])
    ensures LineEnd(text, i) < |text| ==> Terminated(text[i..LineEnd(text, i)])
    decreases |text| - i
  {
    var e := LineEnd(text, i);
    if text[i] != '\n' && i + 1 < |text| {
      LineCut(text, i + 1);
      var line, rest := text[i..e], text[i + 1..e];
      assert line == [text[i]] + rest && line[..|line| - 1] == [text[i]] + rest[..|rest| - 1];
    }
  }

  // Each with its newline.
  function Ended(words: seq<string>): string {
    if words == [] then "" else Ended(words[..|words| - 1]) + words[|words| - 1] + "\n"
  }

  // The words are the pattern cut at every newline.
  lemma {:induction false} WordsJoin(text: string)
    ensures Ended(Words(text)) + Tail(text) == text
    ensures '\n' !in Tail(text) && forall word <- Words(text) :: '\n' !in word
  {
    if |text| > 0 {
      var n := |text| - 1;
      WordsJoin(text[..n]);
      assert text == text[..n] + [text[n]];
      if text[n] == '\n' {
        assert Words(text)[..|Words(text)| - 1] == Words(text[..n]);
      } else {
        assert Words(text) == Words(text[..n]) && Tail(text) == Tail(text[..n]) + [text[n]];
      }
    }
  }
}
