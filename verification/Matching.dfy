// fgrep as a whole: what it selects, and for which keywords it misses nothing.

module Matching {
  import opened FgrepQueue
  import opened Fgrep
  import Overflows

  // ---------- ends of a text

  lemma SuffixShorter(a: string, b: string, x: string)
    requires IsSuffix(a, x) && IsSuffix(b, x) && |a| <= |b|
    ensures IsSuffix(a, b) && (|a| == |b| ==> a == b)
  {
    assert b[|b| - |a|..] == x[|x| - |b|..][|b| - |a|..] == x[|x| - |a|..];
  }

  lemma SuffixOfRest(a: string, x: string)
    requires IsSuffix(a, x) && |a| < |x|
    ensures IsSuffix(a, x[1..])
  {
    assert x[1..][|x| - 1 - |a|..] == x[|x| - |a|..];
  }

  lemma BeginsPrefix(kw: set<string>, a: string, b: string)
    requires a <= b && Begins(kw, b)
    ensures Begins(kw, a)
  {
    if b != "" {
      var word :| word in kw && b <= word;
      assert a <= word;
    }
  }

  // The longest end of a text that begins a word.
  ghost function Longest(kw: set<string>, text: string): (r: string)
    ensures Begins(kw, r) && IsSuffix(r, text)
    decreases |text|
  {
    if Begins(kw, text) then text else
      var r := Longest(kw, text[1..]);
      SuffixOfSuffix(r, text[1..], text);
      r
  }

  lemma {:induction false} LongestMax(kw: set<string>, text: string, s: string)
    requires IsSuffix(s, text) && Begins(kw, s)
    ensures IsSuffix(s, Longest(kw, text))
    decreases |text|
  {
    if Begins(kw, text) {
    } else {
      SuffixOfRest(s, text);
      LongestMax(kw, text[1..], s);
    }
  }

  // One letter more: what went before may be forgotten but for its longest end.
  lemma LongestStep(kw: set<string>, x: string, c: char)
    ensures Longest(kw, x + [c]) == Longest(kw, Longest(kw, x) + [c])
  {
    var l := Longest(kw, x);
    var a, b := Longest(kw, x + [c]), Longest(kw, l + [c]);
    ReadMore(x, l, c);
    SuffixOfSuffix(b, l + [c], x + [c]);
    if a != "" {
      var a' := a[..|a| - 1];
      LastLetter(a, x, c);
      BeginsPrefix(kw, a', a);
      LongestMax(kw, x, a');
      ReadMore(l, a', c);
      LongestMax(kw, l + [c], a);
    }
    SuffixShorter(a, b, x + [c]);
    LongestMax(kw, x + [c], b);
  }

  lemma LastLetter(a: string, x: string, c: char)
    requires IsSuffix(a, x + [c]) && a != ""
    ensures a == a[..|a| - 1] + [c] && IsSuffix(a[..|a| - 1], x)
  {
    var n := |x| + 1 - |a|;
    assert a[|a| - 1] == (x + [c])[n + |a| - 1] == c;
    assert a[..|a| - 1] == (x + [c])[n..][..|a| - 1] == x[n..];
  }

  // ---------- the automaton with its failure links

  // Each proper end of a keyword's beginning that begins a keyword is the letter
  // more of the longest such end one letter before, or there is none at all: one
  // failure step is enough.
  ghost predicate Regular(kw: set<string>) {
    forall str, c :: str != "" && Begins(kw, str + [c]) ==>
      Longest(kw, str[1..] + [c]) == "" || Longest(kw, str[1..] + [c]) == Longest(kw, str[1..]) + [c]
  }

  // The states are the beginnings of keywords.
  ghost predicate Knows(w: seq<Node>, name: seq<string>, kw: set<string>)
    requires Trie(w, name)
  {
    forall str :: NUL !in str ==> (Walk(w, name, 0, str) != -1 <==> Begins(kw, str))
  }

  lemma KnowsWords(w: seq<Node>, name: seq<string>, kw: set<string>)
    requires Trie(w, name) && Spells(w, name, kw) && RootedIn(name, kw)
    ensures Knows(w, name, kw)
  {
    forall str | NUL !in str ensures Walk(w, name, 0, str) != -1 <==> Begins(kw, str) {
      if Begins(kw, str) && str != "" {
        var word :| word in kw && str <= word;
        WalkPrefix(w, name, 0, str, word);
      }
    }
  }

  // All nodes of a state fail alike.
  lemma SameFail(w: seq<Node>, name: seq<string>, head: seq<int>, j: int, p: int)
    requires FailureLinks(w, name, head) && Shape(w, name, head) && 0 <= j < |head| && 0 <= p < |head| && head[j] == head[p]
    ensures w[j].fail == w[p].fail
  {
    HeadIs(w, name, head, j);
    var h := head[j];
    if h > 0 {
      var i := HeadLed(w, name, head, h);
      assert Settled(w, name, head, i);
    }
  }

  lemma RootFails(w: seq<Node>, name: seq<string>, head: seq<int>, c: int)
    requires FailureLinks(w, name, head) && Shape(w, name, head) && 0 <= c < |head| && name[c] == ""
    ensures w[c].fail == 0 && head[c] == 0
  {
    HeadIs(w, name, head, c);
    if head[c] > 0 { var i := HeadLed(w, name, head, head[c]); }
  }

  // Where the state behind a letter fails.
  lemma BehindFails(w: seq<Node>, name: seq<string>, head: seq<int>, p: int, c: char, k: int)
    requires FailureLinks(w, name, head) && Shape(w, name, head) && 0 <= p < |head| && c != NUL && k == Step(w, name, p, c) != -1
    ensures 0 <= k < |head| && 0 <= w[p].fail < |name|
    ensures w[k].fail == if name[p] == "" || Step(w, name, w[p].fail, c) == -1 then 0 else Step(w, name, w[p].fail, c)
  {
    var j := StepNode(w, name, head, p, c);
    SameFail(w, name, head, j, p);
    HeadBehind(w, name, head, j);
    assert Settled(w, name, head, j);
  }

  // A state fails at the longest proper end of its string that is a state.
  lemma {:induction false} FailIs(w: seq<Node>, name: seq<string>, head: seq<int>, kw: set<string>, x: string)
    requires FailureLinks(w, name, head) && Shape(w, name, head) && Knows(w, name, kw) && Regular(kw)
    requires NUL !in x && x != "" && Begins(kw, x)
    ensures 0 < Walk(w, name, 0, x) < |name| <= |w| && NUL !in Longest(kw, x[1..])
    ensures w[Walk(w, name, 0, x)].fail == Walk(w, name, 0, Longest(kw, x[1..]))
    decreases |x|
  {
    hide *;
    ShapeSize(w, name, head);
    TrieOf(w, name, head);
    var y, c := x[..|x| - 1], x[|x| - 1];
    assert x == y + [c];
    NoNul(x, y, c);
    BeginsPrefix(kw, y, x);
    var p, k := Walk(w, name, 0, y), Walk(w, name, 0, x);
    Ways(kw, w, name, y);
    Ways(kw, w, name, x);
    WalkMore(w, name, 0, y, c);
    BehindFails(w, name, head, p, c, k);
    SuffixNul(Longest(kw, x[1..]), x[1..], x);
    if y == "" {
      assert x[1..] == "";
      LongestNone(kw);
      EmptyWord(w, name);
    } else {
      FailIs(w, name, head, kw, y);
      var l := Longest(kw, y[1..]);
      assert x[1..] == y[1..] + [c];
      Ways(kw, w, name, l);
      WalkMore(w, name, 0, l, c);
      KnowsOne(w, name, kw, l + [c]);
      LongerEnd(kw, y, c);
      EmptyWord(w, name);
    }
  }

  lemma KnowsOne(w: seq<Node>, name: seq<string>, kw: set<string>, str: string)
    requires Trie(w, name) && Knows(w, name, kw) && NUL !in str
    ensures Walk(w, name, 0, str) != -1 <==> Begins(kw, str)
  {
  }

  lemma LongestNone(kw: set<string>)
    ensures Longest(kw, "") == ""
  {
  }

  lemma LongerEnd(kw: set<string>, y: string, c: char)
    requires Regular(kw) && y != "" && Begins(kw, y + [c])
    ensures var l := Longest(kw, y[1..]); Longest(kw, y[1..] + [c]) == if Begins(kw, l + [c]) then l + [c] else ""
  {
    var l, m := Longest(kw, y[1..]), Longest(kw, y[1..] + [c]);
    ReadMore(y[1..], l, c);
    if Begins(kw, l + [c]) { LongestMax(kw, y[1..] + [c], l + [c]); }
  }

  lemma NoNul(x: string, y: string, c: char)
    requires NUL !in x && x == y + [c]
    ensures NUL !in y && c != NUL
  {
    assert x[|y|] == c;
    forall i | 0 <= i < |y| ensures y[i] != NUL { assert x[i] == y[i]; }
  }

  lemma SuffixNul(a: string, b: string, x: string)
    requires IsSuffix(a, b) && NUL !in x && x != "" && b == x[1..]
    ensures NUL !in a
  {
    forall i | 0 <= i < |a| ensures a[i] != NUL { assert a[i] == b[|b| - |a| + i] == x[|b| - |a| + i + 1]; }
  }

  lemma TrieOf(w: seq<Node>, name: seq<string>, head: seq<int>)
    requires FailureLinks(w, name, head)
    ensures Trie(w, name)
  {
  }

  lemma WalkName(w: seq<Node>, name: seq<string>, str: string)
    requires Trie(w, name) && NUL !in str && Walk(w, name, 0, str) != -1
    ensures 0 <= Walk(w, name, 0, str) < |name| <= |w| && name[Walk(w, name, 0, str)] == str
    ensures str == "" <==> Walk(w, name, 0, str) == 0
  {
    assert name[0] == "";
  }

  // ---------- reading a line

  // The state is that of x; at the root any of its nodes will do.
  ghost predicate At(w: seq<Node>, name: seq<string>, c: int, x: string)
    requires Trie(w, name)
  {
    0 <= c < |name| && NUL !in x && if x == "" then name[c] == "" else c == Walk(w, name, 0, x)
  }

  // Failing at the last letter of a state, or at the first: all the same.
  lemma {:induction false} GotoFails(w: seq<Node>, name: seq<string>, head: seq<int>, c: int, ch: char)
    requires FailureLinks(w, name, head) && Failing(w, name) && Shape(w, name, head) && 0 <= c < |head| && ch != NUL && Step(w, name, c, ch) == -1
    ensures 0 <= w[c].fail < |name|
    ensures Goto(w, name, c, ch) == if w[c].fail != 0 then Goto(w, name, w[c].fail, ch) else FromRoot(w, name, 0, ch)
    decreases |name| - c
  {
    Leads(w, name, c);
    FailName(w, name, c);
    HeadBehind(w, name, head, c);
    if w[c].link != 0 {
      GotoFails(w, name, head, w[c].link, ch);
      SameFail(w, name, head, c, w[c].link);
    }
  }

  lemma {:induction false} FromRootStep(w: seq<Node>, name: seq<string>, c: int, ch: char)
    requires Trie(w, name) && 0 <= c < |name| && ch != NUL
    ensures Step(w, name, c, ch) != -1 ==> FromRoot(w, name, c, ch) == Step(w, name, c, ch)
    ensures Step(w, name, c, ch) == -1 ==> name[FromRoot(w, name, c, ch)] == name[c]
    decreases |name| - c
  {
    Leads(w, name, c);
    if w[c].inp != ch && w[c].link != 0 { FromRootStep(w, name, w[c].link, ch); }
  }

  lemma Ways(kw: set<string>, w: seq<Node>, name: seq<string>, x: string)
    requires Trie(w, name) && Knows(w, name, kw) && NUL !in x && Begins(kw, x)
    ensures 0 <= Walk(w, name, 0, x) < |name| <= |w| && (x == "" <==> Walk(w, name, 0, x) == 0) && name[Walk(w, name, 0, x)] == x
  {
    WalkName(w, name, x);
  }

  lemma RootAt(w: seq<Node>, name: seq<string>, kw: set<string>, ch: char)
    requires Trie(w, name) && Knows(w, name, kw) && ch != NUL
    ensures At(w, name, FromRoot(w, name, 0, ch), Longest(kw, [ch]))
  {
    EmptyWord(w, name);
    WalkMore(w, name, 0, "", ch);
    assert "" + [ch] == [ch] && [ch][1..] == "";
    FromRootStep(w, name, 0, ch);
    NameZero(w, name);
    LongestNone(kw);
  }

  // A letter of the root is found from each of its nodes up to its own.
  lemma RootLetter(w: seq<Node>, name: seq<string>, head: seq<int>, c: int, ch: char)
    requires FailureLinks(w, name, head) && Shape(w, name, head) && 0 <= c < |head| && name[c] == "" && ch != NUL && Step(w, name, c, ch) != -1
    ensures Step(w, name, c, ch) == Step(w, name, 0, ch)
  {
    RootFails(w, name, head, c);
    ShapeSize(w, name, head);
    var j := StepNode(w, name, head, c, ch);
    StepFinds(w, name, head, 0, j, ch);
  }

  lemma GotoRoot(w: seq<Node>, name: seq<string>, head: seq<int>, c: int, ch: char)
    requires FailureLinks(w, name, head) && Failing(w, name) && Shape(w, name, head) && 0 <= c < |head| && name[c] == "" && ch != NUL
    ensures Goto(w, name, c, ch) == FromRoot(w, name, 0, ch)
  {
    if Step(w, name, c, ch) != -1 {
      StepIsGoto(w, name, c, ch);
      RootLetter(w, name, head, c, ch);
      FromRootStep(w, name, 0, ch);
    } else {
      RootFails(w, name, head, c);
      GotoFails(w, name, head, c, ch);
    }
  }

  // The state reached is that of the longest end that begins a keyword.
  lemma {:induction false} GotoAt(w: seq<Node>, name: seq<string>, head: seq<int>, kw: set<string>, c: int, x: string, ch: char)
    requires FailureLinks(w, name, head) && Failing(w, name) && Shape(w, name, head) && Knows(w, name, kw) && Regular(kw)
    requires At(w, name, c, x) && Begins(kw, x) && ch != NUL
    ensures At(w, name, Goto(w, name, c, ch), Longest(kw, x + [ch]))
    decreases |x|
  {
    hide Trie, Shape, FailureLinks, Step, Goto, FromRoot, Regular, Knows, Longest, Failing, Walk;
    TrieOf(w, name, head);
    ShapeSize(w, name, head);
    if x == "" {
      assert x + [ch] == [ch];
      GotoRoot(w, name, head, c, ch);
      RootAt(w, name, kw, ch);
    } else if Step(w, name, c, ch) != -1 {
      StepIsGoto(w, name, c, ch);
      Ways(kw, w, name, x);
      WalkMore(w, name, 0, x, ch);
      Itself(kw, w, name, x + [ch]);
    } else {
      Ways(kw, w, name, x);
      WalkMore(w, name, 0, x, ch);
      Forgotten(kw, w, name, x, ch);
      GotoFails(w, name, head, c, ch);
      FailIs(w, name, head, kw, x);
      var y := Longest(kw, x[1..]);
      Ways(kw, w, name, y);
      SuffixSize(y, x[1..]);
      if y == "" {
        assert "" + [ch] == [ch];
        RootAt(w, name, kw, ch);
      } else {
        GotoAt(w, name, head, kw, Walk(w, name, 0, y), y, ch);
      }
    }
  }

  lemma SuffixSize(a: string, b: string)
    requires IsSuffix(a, b)
    ensures |a| <= |b|
  {
  }

  lemma Itself(kw: set<string>, w: seq<Node>, name: seq<string>, x: string)
    requires Trie(w, name) && Knows(w, name, kw) && NUL !in x && Walk(w, name, 0, x) != -1
    ensures Longest(kw, x) == x
  {
  }

  lemma Forgotten(kw: set<string>, w: seq<Node>, name: seq<string>, x: string, ch: char)
    requires Trie(w, name) && Knows(w, name, kw) && NUL !in x && x != "" && ch != NUL && NUL !in x + [ch] && Walk(w, name, 0, x + [ch]) == -1
    ensures Longest(kw, x + [ch]) == Longest(kw, Longest(kw, x[1..]) + [ch])
  {
    assert (x + [ch])[1..] == x[1..] + [ch];
    LongestStep(kw, x[1..], ch);
  }

  // A state accepts when an end of its string is a keyword.
  lemma {:induction false} OutAt(t: seq<Node>, w: seq<Node>, name: seq<string>, head: seq<int>, kw: set<string>, x: string, word: string)
    requires FailureLinks(w, name, head) && Shape(w, name, head) && Knows(w, name, kw) && Regular(kw) && OutLinks(t, w, |name|)
    requires Found(w, name, kw) && NUL !in x && Begins(kw, x) && word in kw && word != "" && IsSuffix(word, x)
    ensures 0 <= Walk(w, name, 0, x) < |w| && w[Walk(w, name, 0, x)].out
    decreases |x|
  {
    hide Trie, Shape, FailureLinks, Step, Walk, Regular, Knows, Longest, Failing;
    TrieOf(w, name, head);
    Ways(kw, w, name, x);
    if |word| == |x| {
      assert word == x;
    } else {
      FailIs(w, name, head, kw, x);
      var y := Longest(kw, x[1..]);
      SuffixOfRest(word, x);
      LongestMax(kw, x[1..], word);
      SuffixSize(y, x[1..]);
      OutAt(t, w, name, head, kw, y, word);
      Ways(kw, w, name, y);
      Accepting(t, w, name, Walk(w, name, 0, x));
    }
  }

  lemma Accepting(t: seq<Node>, w: seq<Node>, name: seq<string>, k: int)
    requires OutLinks(t, w, |name|) && 0 <= k < |name|
    ensures 0 <= w[k].fail < |w| && (w[k].fail != 0 && w[w[k].fail].out ==> w[k].out)
  {
  }

  // A keyword that ends in what is still to be read will be recognised.
  lemma {:induction false} MatchAll(t: seq<Node>, w: seq<Node>, name: seq<string>, head: seq<int>, kw: set<string>, c: int, read: string,
                                    line: string, word: string, j: nat)
    requires FailureLinks(w, name, head) && Failing(w, name) && Shape(w, name, head) && Knows(w, name, kw) && Regular(kw)
    requires OutLinks(t, w, |name|) && Found(w, name, kw) && At(w, name, c, Longest(kw, read)) && NUL !in line
    requires word in kw && word != "" && |read| < j <= |read| + |line| && IsSuffix(word, (read + line)[..j])
    ensures Matches(w, name, c, line)
    decreases |line|
  {
    hide Trie, Shape, FailureLinks, Step, Walk, Regular, Knows, Longest, Failing, Goto, Found, OutLinks;
    TrieOf(w, name, head);
    var ch, x := line[0], Longest(kw, read);
    assert ch in line;
    GotoAt(w, name, head, kw, c, x, ch);
    LongestStep(kw, read, ch);
    var read', d := read + [ch], Goto(w, name, c, ch);
    Onwards(read, line);
    NameZero(w, name);
    if j == |read| + 1 {
      assert (read + line)[..j] == read';
      LongestBegins(kw, read', word);
      OutAt(t, w, name, head, kw, Longest(kw, read'), word);
    } else {
      MatchAll(t, w, name, head, kw, d, read', line[1..], word, j);
    }
  }

  lemma LongestBegins(kw: set<string>, text: string, word: string)
    requires word in kw && word != "" && IsSuffix(word, text)
    ensures Begins(kw, Longest(kw, text)) && IsSuffix(word, Longest(kw, text)) && Longest(kw, text) != ""
  {
    LongestMax(kw, text, word);
  }

  // The automaton for the keywords in pattern; t is the trie without failure links,
  // if it fits.
  method Build(pattern: string) returns (o: Outcome, a: Automaton, ghost t: seq<Node>)
    requires NUL !in pattern
    ensures fresh(a) && fresh(a.w)
    ensures o.Made? ==> a.Valid() && Failing(a.w[..], a.name) && FailureLinks(a.w[..], a.name, a.head) && OutLinks(t, a.w[..], |a.name|)
    ensures if t == [] then o.TooLarge? && 2 * |pattern| >= MAXSIZ - 1 else Trie(t, a.name) && Fares(t, a.name, o)
    ensures |pattern| < QSIZE - 1 ==> o.Made?
    ensures '\n' !in pattern ==> o == if t == [] then TooLarge else if |pattern| < QSIZE then Made else Beyond
    ensures o.Made? ==> var kw := Keywords(pattern);
      Suffixed(a.w[..], a.name, kw) && Found(a.w[..], a.name, kw) && Knows(a.w[..], a.name, kw) && OnlyWords(t, a.name, kw)
  {
    a := new Automaton();
    t := [];
    var ok := a.Cgotofn(pattern);
    if !ok {
      return TooLarge, a, t;
    }
    ghost var kw := Keywords(pattern);
    t := a.w[..];
    BeforeFail(t, a.name, kw);
    hide Trie, Shape, NoFails, Spells, Failing, Suffixed, OnlyWords, RootedIn, Keywords, SameShape, FailureLinks, OutLinks, Fares, Knows, Found;
    o := a.Cfail(kw);
    RoomToFail(t, a.name, a.head, pattern, o);
    if o.Made? {
      AfterFail(t, a.w[..], a.name, kw);
    }
  }

  // When cfail() has room, by the pattern.
  lemma RoomToFail(t: seq<Node>, name: seq<string>, head: seq<int>, pattern: string, o: Outcome)
    requires Trie(t, name) && Shape(t, name, head) && Fares(t, name, o) && NUL !in pattern
    requires Spells(t, name, Keywords(pattern)) && RootedIn(name, Keywords(pattern)) && StateCount(head) <= |pattern| + 1
    ensures |pattern| < QSIZE - 1 ==> o.Made?
    ensures '\n' !in pattern ==> o == if |pattern| < QSIZE then Made else Beyond
  {
    hide Trie, Shape, Fares, Spells, RootedIn, Keywords, Overflows.OnlyWord, StateCount;
    if |pattern| < QSIZE - 1 {
      Overflows.FewStates(t, name, head, o);
    }
    if '\n' !in pattern {
      SingleWord(t, name, pattern);
      Overflows.OneWord(t, name, head, pattern, o);
    }
  }

  lemma SingleWord(t: seq<Node>, name: seq<string>, word: string)
    requires Trie(t, name) && NUL !in word && '\n' !in word && Spells(t, name, Keywords(word)) && RootedIn(name, Keywords(word))
    ensures Overflows.OnlyWord(t, name, word)
  {
    hide Trie, Walk, Spells, RootedIn, Words, Tail;
    NoLines(word);
    KnowsWords(t, name, Keywords(word));
    hide Keywords;
    forall str | NUL !in str ensures Walk(t, name, 0, str) != -1 <==> str <= word {
      WordBegins(word, str);
    }
  }

  lemma WordBegins(word: string, str: string)
    requires '\n' !in word
    ensures Begins(Keywords(word), str) <==> str <= word
  {
    hide Words, Tail;
    NoLines(word);
    if str <= word && str != "" { assert word in Keywords(word); }
  }

  ghost predicate OnlyWords(t: seq<Node>, name: seq<string>, kw: set<string>) {
    |name| <= |t| && forall k :: 0 <= k < |name| && t[k].out ==> name[k] in kw
  }

  lemma SelectedAll(t: seq<Node>, w: seq<Node>, name: seq<string>, head: seq<int>, pattern: string, kw: set<string>, text: string,
                    selected: seq<string>)
    requires FailureLinks(w, name, head) && Failing(w, name) && Shape(w, name, head) && Knows(w, name, kw) && Regular(kw)
    requires OutLinks(t, w, |name|) && Found(w, name, kw) && kw == Keywords(pattern) && NUL !in text
    requires Trie(w, name) && selected == Selected(w, name, text, 0)
    ensures forall line <- Lines(text, 0) :: (exists word :: word != "" && Keyword(pattern, word) && Contains(line, word)) ==> line in selected
  {
    hide *;
    NameZero(w, name);
    AtRoot(w, name, kw);
    forall line, word | line in Lines(text, 0) && word != "" && Keyword(pattern, word) && Contains(line, word) ensures line in selected {
      IsKeyword(pattern, word);
      var j := WordEnd(line, word);
      NoNulLines(text, 0, line);
      assert "" + line == line;
      MatchAll(t, w, name, head, kw, 0, "", line, word, j);
      SelectedLines(w, name, text, 0, line);
    }
  }

  lemma AtRoot(w: seq<Node>, name: seq<string>, kw: set<string>)
    requires Trie(w, name)
    ensures At(w, name, 0, Longest(kw, ""))
  {
    NameZero(w, name);
    LongestNone(kw);
  }

  lemma IsKeyword(pattern: string, word: string)
    ensures Keyword(pattern, word) <==> word in Keywords(pattern)
  {
  }

  lemma WordEnd(line: string, word: string) returns (j: nat)
    requires Contains(line, word) && word != ""
    ensures 0 < j <= |line| && IsSuffix(word, line[..j])
  {
    hide IsSuffix;
    var i, j' :| 0 <= i <= j' <= |line| && line[i..j'] == word;
    j := j';
    EndsThere(line, i, j, word);
  }

  lemma EndsThere(line: string, i: nat, j: nat, word: string)
    requires i <= j <= |line| && line[i..j] == word
    ensures IsSuffix(word, line[..j])
  {
    assert line[..j][i..] == word;
  }

  lemma {:induction false} NoNulLines(text: string, i: nat, line: string)
    requires i <= |text| && NUL !in text && line in Lines(text, i)
    ensures NUL !in line
    decreases |text| - i
  {
    if line == text[i..LineEnd(text, i)] {
      forall k | 0 <= k < |line| ensures line[k] != NUL { assert line[k] == text[i + k]; }
    } else {
      NoNulLines(text, LineEnd(text, i), line);
    }
  }

  lemma BeforeFail(w: seq<Node>, name: seq<string>, kw: set<string>)
    requires Trie(w, name) && NoFails(w) && Spells(w, name, kw)
    ensures Failing(w, name) && Suffixed(w, name, kw) && OnlyWords(w, name, kw)
  {
    forall k | 0 <= k < |name| && w[k].out ensures IsSuffix(name[k], name[k]) {}
  }

  // All words are still in the trie.
  lemma AfterFail(w: seq<Node>, w': seq<Node>, name: seq<string>, kw: set<string>)
    requires Trie(w, name) && Trie(w', name) && SameShape(w, w') && Spells(w, name, kw) && RootedIn(name, kw)
    ensures Found(w', name, kw) && Knows(w', name, kw)
  {
    forall str | NUL !in str && Begins(kw, str) ensures Walk(w', name, 0, str) != -1 {
      KnowsWords(w, name, kw);
      WalkKept(w, name, w', name, 0, str);
    }
    forall str | NUL !in str && Walk(w', name, 0, str) != -1 ensures Begins(kw, str) { WalkName(w', name, str); }
    forall str | str in kw ensures Walk(w', name, 0, str) == Walk(w, name, 0, str) {
      WalkKept(w, name, w', name, 0, str);
    }
  }

  ghost predicate Found(w: seq<Node>, name: seq<string>, kw: set<string>) {
    Trie(w, name) && forall str <- kw :: NUL !in str && Walk(w, name, 0, str) != -1 && w[Walk(w, name, 0, str)].out
  }

  lemma SelectedHold(w: seq<Node>, name: seq<string>, pattern: string, kw: set<string>, text: string, selected: seq<string>)
    requires Trie(w, name) && Failing(w, name) && Suffixed(w, name, kw) && Found(w, name, kw) && kw == Keywords(pattern)
    requires selected == Selected(w, name, text, 0)
    ensures SubSequence(selected, Lines(text, 0))
    ensures forall line <- selected :: multiset(selected)[line] == multiset(Lines(text, 0))[line]
    ensures forall line <- selected :: exists word :: Keyword(pattern, word) && Contains(line, word)
    ensures forall line <- Lines(text, 0) :: (exists word :: word != "" && Keyword(pattern, word) && word <= line) ==> line in selected
  {
    hide Selected, Lines, SubSequence, Matches, Contains, Keywords, Walk, Suffixed, Trie, Failing;
    SelectedLines(w, name, text, 0, "");
    NameZero(w, name);
    forall line | line in selected ensures multiset(selected)[line] == multiset(Lines(text, 0))[line] {
      SelectedCount(w, name, text, 0, line);
      SelectedLines(w, name, text, 0, line);
    }
    forall line | line in selected ensures exists word :: Keyword(pattern, word) && Contains(line, word) {
      SelectedLines(w, name, text, 0, line);
      Nothing(line);
      MatchIsWord(w, name, kw, 0, "", line);
      var word :| word in kw && Contains("" + line, word);
      assert Keyword(pattern, word);
    }
    forall line, word | line in Lines(text, 0) && word != "" && Keyword(pattern, word) && word <= line ensures line in selected {
      WordIsMatch(w, name, 0, word, line);
      SelectedLines(w, name, text, 0, line);
    }
  }

  lemma Nothing(line: string)
    ensures "" + line == line && IsSuffix("", "")
  {
  }

  // ---------- a line that is missed

  const WORD := "aabaaax"
  const LINE := "aabaaabaaax\n"

  // Begun so far.
  ghost function Part(i: nat): string
    requires i <= |WORD|
  {
    WORD[..i]
  }

  lemma BeginsWord(i: nat, c: char)
    requires i <= |WORD|
    ensures Begins({WORD}, Part(i)) && (Begins({WORD}, Part(i) + [c]) <==> i < |WORD| && WORD[i] == c)
    ensures i < |WORD| ==> Part(i + 1) == Part(i) + [WORD[i]]
  {
    assert WORD in {WORD} && Part(i) <= WORD;
    var s := Part(i) + [c];
    if Begins({WORD}, s) { assert s <= WORD && s[i] == c; }
    if i < |WORD| && WORD[i] == c { assert s == WORD[..i + 1] <= WORD; }
  }

  // An automaton that cgotofn() and cfail() may have made for this keyword.
  ghost predicate Built(t: seq<Node>, w: seq<Node>, name: seq<string>, head: seq<int>) {
    FailureLinks(w, name, head) && Failing(w, name) && Shape(w, name, head) && Knows(w, name, {WORD}) && OutLinks(t, w, |name|) &&
    OnlyWords(t, name, {WORD})
  }

  ghost function State(w: seq<Node>, name: seq<string>, i: nat): int
    requires Trie(w, name) && i <= |WORD|
  {
    assert NUL !in Part(i) by { forall k | 0 <= k < i ensures Part(i)[k] != NUL { assert Part(i)[k] == WORD[k]; } }
    Walk(w, name, 0, Part(i))
  }

  lemma States(t: seq<Node>, w: seq<Node>, name: seq<string>, head: seq<int>, i: nat, c: char)
    requires Built(t, w, name, head) && i <= |WORD| && c != NUL
    ensures 0 <= State(w, name, i) < |name| == |head| <= |w| && name[State(w, name, i)] == Part(i) && (i == 0 <==> State(w, name, i) == 0)
    ensures Step(w, name, State(w, name, i), c) == if i < |WORD| && WORD[i] == c then State(w, name, i + 1) else -1
  {
    hide Shape, FailureLinks, Step, Walk, Failing, Trie, OutLinks, OnlyWords, Begins;
    ShapeSize(w, name, head);
    TrieOf(w, name, head);
    BeginsWord(i, c);
    assert NUL !in Part(i) by { forall k | 0 <= k < i ensures Part(i)[k] != NUL { assert Part(i)[k] == WORD[k]; } }
    Ways({WORD}, w, name, Part(i));
    WalkMore(w, name, 0, Part(i), c);
    assert |Part(i)| == i;
  }

  // Where each state fails: after aabaaa not at aa, as it should.
  lemma Fails(t: seq<Node>, w: seq<Node>, name: seq<string>, head: seq<int>, i: nat)
    requires Built(t, w, name, head) && 1 <= i <= 6
    ensures 0 <= State(w, name, i) < |w|
    ensures w[State(w, name, i)].fail == State(w, name, if i == 2 || i == 4 then 1 else if i == 5 then 2 else 0)
    decreases i
  {
    hide Shape, FailureLinks, Step, Walk, Failing, Trie, OutLinks, OnlyWords, Begins, State, Built;
    BuiltMeans(t, w, name, head);
    var c := WORD[i - 1];
    States(t, w, name, head, i - 1, c);
    States(t, w, name, head, i, c);
    BehindFails(w, name, head, State(w, name, i - 1), c, State(w, name, i));
    States(t, w, name, head, 0, c);
    States(t, w, name, head, 1, c);
    States(t, w, name, head, 2, c);
    if i > 1 { Fails(t, w, name, head, i - 1); }
  }

  lemma BuiltMeans(t: seq<Node>, w: seq<Node>, name: seq<string>, head: seq<int>)
    requires Built(t, w, name, head)
    ensures FailureLinks(w, name, head) && Failing(w, name) && Shape(w, name, head) && Trie(w, name) && |name| == |head| <= |w|
  {
    ShapeSize(w, name, head);
    TrieOf(w, name, head);
    hide Shape, FailureLinks, Failing, Trie;
  }

  lemma GoOn(t: seq<Node>, w: seq<Node>, name: seq<string>, head: seq<int>, i: nat)
    requires Built(t, w, name, head) && i < |WORD|
    ensures 0 <= State(w, name, i) < |name| && Goto(w, name, State(w, name, i), WORD[i]) == State(w, name, i + 1)
  {
    hide Shape, FailureLinks, Step, Walk, Failing, Trie, Begins, State, Built, Goto;
    BuiltMeans(t, w, name, head);
    States(t, w, name, head, i, WORD[i]);
    States(t, w, name, head, i + 1, WORD[i]);
    StepIsGoto(w, name, State(w, name, i), WORD[i]);
  }

  lemma GoBack(t: seq<Node>, w: seq<Node>, name: seq<string>, head: seq<int>, i: nat, c: char)
    requires Built(t, w, name, head) && 1 <= i <= 6 && WORD[i] != c && c != NUL
    ensures 0 <= State(w, name, i) < |name| && 0 <= State(w, name, 1) < |name| && 0 <= State(w, name, 2) < |name|
    ensures Goto(w, name, State(w, name, i), c) ==
      if i == 2 || i == 4 then Goto(w, name, State(w, name, 1), c)
      else if i == 5 then Goto(w, name, State(w, name, 2), c)
      else FromRoot(w, name, 0, c)
  {
    hide Shape, FailureLinks, Step, Walk, Failing, Trie, Begins, State, Built, Goto, FromRoot;
    BuiltMeans(t, w, name, head);
    States(t, w, name, head, i, c);
    States(t, w, name, head, 0, c);
    States(t, w, name, head, 1, c);
    States(t, w, name, head, 2, c);
    Fails(t, w, name, head, i);
    GotoFails(w, name, head, State(w, name, i), c);
  }

  lemma FromStart(t: seq<Node>, w: seq<Node>, name: seq<string>, head: seq<int>, c: char)
    requires Built(t, w, name, head) && c != NUL
    ensures 0 <= FromRoot(w, name, 0, c) < |name| == |head| <= |w|
    ensures if c == 'a' then FromRoot(w, name, 0, c) == State(w, name, 1) else name[FromRoot(w, name, 0, c)] == ""
  {
    hide Shape, FailureLinks, Step, Walk, Failing, Trie, Begins, State, Built, FromRoot;
    BuiltMeans(t, w, name, head);
    NameZero(w, name);
    States(t, w, name, head, 0, c);
    States(t, w, name, head, 1, c);
    FromRootStep(w, name, 0, c);
  }

  // No state short of the whole word accepts.
  lemma Silent(t: seq<Node>, w: seq<Node>, name: seq<string>, head: seq<int>, k: int)
    requires Built(t, w, name, head) && 0 <= k < |name| <= |w| && (name[k] == "" || exists i: nat :: 1 <= i <= 6 && k == State(w, name, i))
    ensures !w[k].out
    decreases |name[k]|
  {
    hide Shape, FailureLinks, Step, Walk, Failing, Trie, Begins, State;
    BuiltMeans(t, w, name, head);
    if name[k] == "" {
      RootFails(w, name, head, k);
    } else {
      var i: nat :| 1 <= i <= 6 && k == State(w, name, i);
      Fails(t, w, name, head, i);
      States(t, w, name, head, i, 'a');
      States(t, w, name, head, 0, 'a');
      States(t, w, name, head, 1, 'a');
      States(t, w, name, head, 2, 'a');
      assert |name[k]| == i < |WORD|;
      if w[k].fail != 0 { Silent(t, w, name, head, w[k].fail); }
    }
  }

  // The states met on the line.
  ghost function Stop(w: seq<Node>, name: seq<string>, i: nat): int
    requires Trie(w, name) && |name| > 0
  {
    if i <= 6 then State(w, name, i)
    else if i == 7 then FromRoot(w, name, 0, 'b')
    else if i == 8 then State(w, name, 1)
    else if i == 9 || i == 10 then State(w, name, 2)
    else if i == 11 then FromRoot(w, name, 0, 'x')
    else FromRoot(w, name, 0, '\n')
  }

  lemma Course(t: seq<Node>, w: seq<Node>, name: seq<string>, head: seq<int>, i: nat)
    requires Built(t, w, name, head) && i < |LINE|
    ensures 0 <= Stop(w, name, i) < |name| && Goto(w, name, Stop(w, name, i), LINE[i]) == Stop(w, name, i + 1)
  {
    hide Shape, FailureLinks, Step, Walk, Failing, Trie, Begins, State, Built, Goto, FromRoot;
    BuiltMeans(t, w, name, head);
    FromStart(t, w, name, head, LINE[i]);
    if i < 6 {
      GoOn(t, w, name, head, i);
    } else if i == 6 {
      GoBack(t, w, name, head, 6, 'b');
    } else if i == 7 {
      FromStart(t, w, name, head, 'b');
      GotoRoot(w, name, head, FromRoot(w, name, 0, 'b'), 'a');
    } else if i == 8 {
      GoOn(t, w, name, head, 1);
    } else if i == 9 {
      GoBack(t, w, name, head, 2, 'a');
      GoOn(t, w, name, head, 1);
    } else if i == 10 {
      GoBack(t, w, name, head, 2, 'x');
      GoBack(t, w, name, head, 1, 'x');
    } else {
      FromStart(t, w, name, head, 'x');
      GotoRoot(w, name, head, FromRoot(w, name, 0, 'x'), '\n');
    }
  }

  lemma Unheard(t: seq<Node>, w: seq<Node>, name: seq<string>, head: seq<int>, i: nat)
    requires Built(t, w, name, head) && 1 <= i <= |LINE|
    ensures 0 <= Stop(w, name, i) < |name| <= |w| && !w[Stop(w, name, i)].out
  {
    hide Shape, FailureLinks, Step, Walk, Failing, Trie, Begins, State, Built, Goto, FromRoot;
    BuiltMeans(t, w, name, head);
    FromStart(t, w, name, head, 'b');
    FromStart(t, w, name, head, 'x');
    FromStart(t, w, name, head, '\n');
    if i <= 6 { States(t, w, name, head, i, 'a'); }
    States(t, w, name, head, 1, 'a');
    States(t, w, name, head, 2, 'a');
    Silent(t, w, name, head, Stop(w, name, i));
  }

  lemma {:induction false} NoMatchFrom(t: seq<Node>, w: seq<Node>, name: seq<string>, head: seq<int>, i: nat)
    requires Built(t, w, name, head) && i <= |LINE|
    ensures 0 <= Stop(w, name, i) < |name| && !Matches(w, name, Stop(w, name, i), LINE[i..])
    decreases |LINE| - i
  {
    hide Shape, FailureLinks, Step, Walk, Failing, Trie, Begins, State, Built, Goto, FromRoot, Stop;
    BuiltMeans(t, w, name, head);
    if i < |LINE| {
      Course(t, w, name, head, i);
      Unheard(t, w, name, head, i + 1);
      NoMatchFrom(t, w, name, head, i + 1);
      assert LINE[i..][0] == LINE[i] && LINE[i..][1..] == LINE[i + 1..];
    } else {
      Unheard(t, w, name, head, i);
    }
  }

  lemma {:induction false} NoLines(text: string)
    requires '\n' !in text
    ensures Words(text) == [] && Tail(text) == text
  {
    if text != "" {
      var n := |text| - 1;
      assert text[n] in text && text == text[..n] + [text[n]];
      NoLines(text[..n]);
    }
  }

  lemma OneKeyword()
    ensures Keywords(WORD + "\n") == {WORD}
  {
    var text := WORD + "\n";
    assert text[..|WORD|] == WORD && text[|WORD|] == '\n';
    NoLines(WORD);
    assert Words(text) == [WORD] && Tail(text) == "";
  }

  lemma {:induction false} EndOfLine(text: string, i: nat, e: nat)
    requires i <= e < |text| && text[e] == '\n' && forall k :: i <= k < e ==> text[k] != '\n'
    ensures LineEnd(text, i) == e + 1
    decreases e - i
  {
    if i < e { EndOfLine(text, i + 1, e); }
  }

  lemma NothingSelected(t: seq<Node>, w: seq<Node>, name: seq<string>, head: seq<int>)
    requires Built(t, w, name, head)
    ensures Trie(w, name) && Failing(w, name) && Selected(w, name, LINE, 0) == []
  {
    hide Shape, FailureLinks, Step, Walk, Failing, Trie, Begins, State, Built, Goto, FromRoot, Matches;
    BuiltMeans(t, w, name, head);
    NameZero(w, name);
    NoMatchFrom(t, w, name, head, 0);
    States(t, w, name, head, 0, 'a');
    assert LINE[0..] == LINE == LINE[0..12];
    EndOfLine(LINE, 0, 11);
    assert Selected(w, name, LINE, 12) == [];
  }

  lemma TheLine()
    ensures Contains(LINE, WORD) && LINE in Lines(LINE, 0) && NUL !in LINE && NUL !in WORD + "\n"
  {
    assert LINE[4..11] == WORD;
    EndOfLine(LINE, 0, 11);
    assert LINE[0..12] == LINE;
    assert Lines(LINE, 0)[0] == LINE;
  }

  // The line holds the keyword and is not selected.
  method Missed() returns (o: Outcome, selected: seq<string>)
    ensures Contains(LINE, WORD) && LINE in Lines(LINE, 0) && Keyword(WORD + "\n", WORD)
    ensures o.Made? && selected == []
  {
    hide Trie, Shape, Failing, FailureLinks, OutLinks, Suffixed, Found, Knows, OnlyWords, Keywords, Lines, Selected, Contains;
    TheLine();
    OneKeyword();
    ghost var t;
    var a;
    o, a, t := Build(WORD + "\n");
    if !o.Made? {
      return o, [];
    }
    NothingSelected(t, a.w[..], a.name, a.head);
    selected := a.Execute(LINE);
  }

  // ---------- a keyword without room

  function Letters(n: nat): (s: string)
    ensures |s| == n && forall i :: 0 <= i < n ==> s[i] == 'a'
  {
    seq(n, _ => 'a')
  }

  // A keyword of 400 letters: cfail() writes behind its queue.
  method Strayed() returns (o: Outcome)
    ensures o.Beyond?
  {
    ghost var t;
    var a;
    var word := Letters(QSIZE);
    hide Trie, Shape, Failing, FailureLinks, OutLinks, Suffixed, Found, Knows, OnlyWords, Keywords, Fares;
    o, a, t := Build(word);
  }
}
