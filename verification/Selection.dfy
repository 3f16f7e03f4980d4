// What fgrep selects, told by the keywords alone, and when it misses nothing.

module Selection {
  import opened FgrepQueue
  import opened Fgrep
  import opened Matching

  // ---------- the automaton as strings

  // Where the state of x fails: at the letter more of where the state one letter
  // before fails, or at the root.
  ghost function Falls(kw: set<string>, x: string): (y: string)
    ensures Begins(kw, y) && IsSuffix(y, x) && (x != "" ==> |y| < |x|)
    decreases |x|
  {
    if |x| <= 1 then ""
    else
      var n := |x| - 1;
      var f := Falls(kw, x[..n]);
      ReadMore(x[..n], f, x[n]);
      assert x == x[..n] + [x[n]];
      if Begins(kw, f + [x[n]]) then f + [x[n]] else ""
  }

  // The state after one letter more.
  ghost function Goes(kw: set<string>, x: string, c: char): (y: string)
    ensures Begins(kw, y) && IsSuffix(y, x + [c])
    decreases |x|
  {
    if Begins(kw, x + [c]) then x + [c]
    else if x == "" then ""
    else
      var f := Falls(kw, x);
      ReadMore(x, f, c);
      SuffixOfSuffix(Goes(kw, f, c), f + [c], x + [c]);
      Goes(kw, f, c)
  }

  // The state accepts.
  ghost predicate Outs(kw: set<string>, x: string)
    decreases |x|
  {
    x in kw || (Falls(kw, x) != "" && Outs(kw, Falls(kw, x)))
  }

  // On the rest of a line, read from the state of x on, a word is recognised.
  ghost predicate Hears(kw: set<string>, x: string, line: string)
    decreases |line|
  {
    line != "" && (Outs(kw, Goes(kw, x, line[0])) || Hears(kw, Goes(kw, x, line[0]), line[1..]))
  }

  // No line that holds a keyword goes unrecognised.
  ghost predicate Complete(kw: set<string>) {
    forall line, word :: word in kw && Contains(line, word) ==> Hears(kw, "", line)
  }

  lemma HearsStep(kw: set<string>, x: string, line: string)
    requires line != ""
    ensures Hears(kw, x, line) <==> Outs(kw, Goes(kw, x, line[0])) || Hears(kw, Goes(kw, x, line[0]), line[1..])
  {
  }

  lemma {:induction false} HearsMore(kw: set<string>, x: string, line: string, rest: string)
    requires Hears(kw, x, line)
    ensures Hears(kw, x, line + rest)
    decreases |line|
  {
    var y := Goes(kw, x, line[0]);
    HearsStep(kw, x, line + rest);
    assert (line + rest)[1..] == line[1..] + rest;
    if !Outs(kw, y) { HearsMore(kw, y, line[1..], rest); }
  }

  // ---------- every set of keywords: finitely many lines to try

  // On the way to x nothing is recognised.
  ghost predicate Quiet(kw: set<string>, x: string) {
    forall k :: 0 < k <= |x| ==> !Outs(kw, x[..k])
  }

  lemma FallsShorter(kw: set<string>, x: string)
    ensures |Falls(kw, x)| <= |x| && (x != "" ==> |Falls(kw, x)| < |x|)
  {
  }

  // What begins a place of failure is itself one.
  lemma {:induction false} PrefixFalls(kw: set<string>, x: string, k: nat)
    requires 0 < k <= |Falls(kw, x)|
    ensures Falls(kw, x)[..k] == Falls(kw, x[..|x| - |Falls(kw, x)| + k])
    decreases |x|
  {
    hide *;
    var f := Falls(kw, x);
    FallsShorter(kw, x);
    if k == |f| {
      assert x[..|x|] == x && f[..k] == f;
    } else {
      var n := |x| - 1;
      var y := x[..n];
      assert x == y + [x[n]];
      FallsStep(kw, y, x[n]);
      PrefixFalls(kw, y, k);
      assert f[..k] == Falls(kw, y)[..k];
      assert y[..|x| - |f| + k] == x[..|x| - |f| + k];
    }
  }

  lemma QuietFalls(kw: set<string>, x: string)
    requires Quiet(kw, x)
    ensures Quiet(kw, Falls(kw, x))
  {
    hide Falls, Outs;
    var f := Falls(kw, x);
    FallsShorter(kw, x);
    forall k | 0 < k <= |f| ensures !Outs(kw, f[..k]) {
      PrefixFalls(kw, x, k);
      OutsStep(kw, x[..|x| - |f| + k]);
    }
  }

  lemma {:induction false} QuietGoes(kw: set<string>, x: string, c: char)
    requires Quiet(kw, x) && !Outs(kw, Goes(kw, x, c))
    ensures Quiet(kw, Goes(kw, x, c))
    decreases |x|
  {
    hide Outs, Falls;
    if Begins(kw, x + [c]) {
      var y := x + [c];
      forall k | 0 < k <= |y| ensures !Outs(kw, y[..k]) {
        if k < |y| { assert y[..k] == x[..k]; } else { assert y[..k] == y; }
      }
    } else if x != "" {
      QuietFalls(kw, x);
      QuietGoes(kw, Falls(kw, x), c);
    }
  }

  // Reading what begins a keyword leads to its state.
  lemma {:induction false} ReadsOn(kw: set<string>, x: string, y: string, line: string)
    requires Begins(kw, x + y) && Quiet(kw, x + y)
    ensures Hears(kw, x, y + line) <==> Hears(kw, x + y, line)
    decreases |y|
  {
    hide Outs, Hears, Begins;
    if y == "" {
      assert x + y == x && y + line == line;
    } else {
      var x' := x + [y[0]];
      assert x' + y[1..] == x + y && (y + line)[1..] == y[1..] + line;
      assert x' <= x + y && x' == (x + y)[..|x| + 1];
      BeginsPrefix(kw, x', x + y);
      HearsStep(kw, x, y + line);
      ReadsOn(kw, x', y[1..], line);
    }
  }

  // Each keyword is recognised behind everything that begins a keyword.
  ghost predicate Tried(kw: set<string>) {
    forall x, word :: Begins(kw, x) && word in kw ==> Hears(kw, "", x + word)
  }

  lemma {:induction false} TriedHears(kw: set<string>, x: string, line: string, i: nat, j: nat)
    requires Tried(kw) && Begins(kw, x) && Quiet(kw, x) && i <= j <= |line| && line[i..j] in kw && "" !in kw
    ensures Hears(kw, x, line)
    decreases i
  {
    hide Outs, Hears, Begins, Quiet, Goes;
    if i == 0 {
      var word := line[..j];
      assert line[0..j] == word;
      assert "" + x == x;
      ReadsOn(kw, "", x, word);
      HearsMore(kw, x, word, line[j..]);
      assert word + line[j..] == line;
    } else {
      var y := Goes(kw, x, line[0]);
      HearsStep(kw, x, line);
      if !Outs(kw, y) {
        QuietGoes(kw, x, line[0]);
        assert line[1..][i - 1..j - 1] == line[i..j];
        TriedHears(kw, y, line[1..], i - 1, j - 1);
      }
    }
  }

  // No line is missed if and only if none of these is.
  lemma MissesNone(kw: set<string>)
    requires "" !in kw
    ensures Complete(kw) <==> Tried(kw)
  {
    hide Outs, Hears, Begins, Goes;
    if Complete(kw) {
      forall x, word | Begins(kw, x) && word in kw ensures Hears(kw, "", x + word) {
        assert (x + word)[|x|..|x| + |word|] == word;
      }
    }
    if Tried(kw) {
      forall line, word | word in kw && Contains(line, word) ensures Hears(kw, "", line) {
        var i, j :| 0 <= i <= j <= |line| && line[i..j] == word;
        NothingBegins(kw);
        TriedHears(kw, "", line, i, j);
      }
    }
  }

  lemma NothingBegins(kw: set<string>)
    ensures Begins(kw, "") && Quiet(kw, "")
  {
  }

  // ---------- keywords none of which lies inside another: one letter to look at

  ghost predicate Apart(kw: set<string>) {
    "" !in kw && forall u, v :: u in kw && v in kw && Contains(u, v) ==> u == v
  }

  // Short of a keyword, each letter leads to the longest end that begins one.
  ghost predicate Sure(kw: set<string>) {
    forall x, c :: Begins(kw, x) && x !in kw ==> Goes(kw, x, c) == Longest(kw, x + [c])
  }

  lemma {:induction false} OutsWord(kw: set<string>, x: string) returns (word: string)
    requires Outs(kw, x)
    ensures word in kw && IsSuffix(word, x)
    decreases |x|
  {
    if x in kw {
      word := x;
    } else {
      word := OutsWord(kw, Falls(kw, x));
      SuffixOfSuffix(word, Falls(kw, x), x);
    }
  }

  lemma Inside(u: string, x: string, word: string)
    requires x <= u && IsSuffix(word, x)
    ensures Contains(u, word)
  {
    assert u[|x| - |word|..|x|] == word;
  }

  // A keyword that ends in the beginning of another is that other.
  lemma ApartEnd(kw: set<string>, x: string, word: string)
    requires Apart(kw) && Begins(kw, x) && word in kw && IsSuffix(word, x)
    ensures x == word
  {
    hide Contains;
    var u :| u in kw && x <= u;
    Inside(u, x, word);
    assert u == word;
  }

  lemma {:induction false} SureHears(kw: set<string>, read: string, line: string, word: string, j: nat)
    requires Apart(kw) && Sure(kw) && Longest(kw, read) !in kw
    requires word in kw && |read| < j <= |read| + |line| && IsSuffix(word, (read + line)[..j])
    ensures Hears(kw, Longest(kw, read), line)
    decreases |line|
  {
    hide Goes, Longest, Apart, Begins, Hears;
    var x, c := Longest(kw, read), line[0];
    var y, read' := Goes(kw, x, c), read + [c];
    LongestStep(kw, read, c);
    assert y == Longest(kw, read');
    HearsStep(kw, x, line);
    Onwards(read, line);
    if y !in kw {
      if j == |read| + 1 {
        assert (read + line)[..j] == read';
        NotNothing(kw, word);
        LongestBegins(kw, read', word);
        ApartEnd(kw, y, word);
      } else {
        SureHears(kw, read', line[1..], word, j);
      }
    }
  }

  lemma ApartQuiet(kw: set<string>, x: string)
    requires Apart(kw) && Begins(kw, x) && x !in kw
    ensures Quiet(kw, x)
  {
    hide Outs, Apart, Begins;
    forall k | 0 < k <= |x| ensures !Outs(kw, x[..k]) {
      if Outs(kw, x[..k]) {
        var word := OutsWord(kw, x[..k]);
        NotShort(kw, x, k, word);
      }
    }
  }

  lemma NotShort(kw: set<string>, x: string, k: nat, word: string)
    requires Apart(kw) && Begins(kw, x) && k <= |x| && word in kw && IsSuffix(word, x[..k])
    ensures x in kw
  {
    hide Contains, Apart, IsSuffix;
    NotNothing(kw, word);
    SuffixSize(word, x[..k]);
    var u :| u in kw && x <= u;
    Inside(u, x[..k], word);
    ApartIs(kw, u, word);
    assert x == u;
  }

  lemma ApartIs(kw: set<string>, u: string, v: string)
    requires Apart(kw) && u in kw && v in kw && Contains(u, v)
    ensures u == v
  {
  }

  // Who has lost the beginning of a keyword does not recognise it any more.
  lemma {:induction false} Lost(kw: set<string>, word: string, n: nat, s: string)
    requires Apart(kw) && word in kw && n <= |word| && |s| < n && IsSuffix(s, word[..n])
    ensures !Outs(kw, s) && !Hears(kw, s, word[n..])
    decreases |word| - n
  {
    hide Goes, Outs, Apart;
    if Outs(kw, s) {
      var other := OutsWord(kw, s);
      SuffixOfSuffix(other, s, word[..n]);
      TooShort(kw, word, word[..n], other);
    }
    if n < |word| {
      var c := word[n];
      var g := Goes(kw, s, c);
      ReadMore(word[..n], s, c);
      assert word[..n] + [c] == word[..n + 1];
      SuffixOfSuffix(g, s + [c], word[..n + 1]);
      assert word[n..][1..] == word[n + 1..];
      Lost(kw, word, n + 1, g);
    }
  }

  lemma TooShort(kw: set<string>, word: string, part: string, other: string)
    requires Apart(kw) && word in kw && other in kw && part <= word && IsSuffix(other, part)
    ensures other == word
  {
    Inside(word, part, other);
  }

  lemma CompleteSure(kw: set<string>, x: string, c: char)
    requires Apart(kw) && Complete(kw) && Begins(kw, x) && x !in kw
    ensures Goes(kw, x, c) == Longest(kw, x + [c])
  {
    hide *;
    var g, l := Goes(kw, x, c), Longest(kw, x + [c]);
    LongestMax(kw, x + [c], g);
    SuffixSize(g, l);
    if |g| == |l| {
      SuffixShorter(g, l, x + [c]);
    } else {
      var word := BegunWord(kw, l);
      Missing(kw, x, c, word, g, l);
    }
  }

  lemma BegunWord(kw: set<string>, l: string) returns (word: string)
    requires Begins(kw, l) && l != ""
    ensures word in kw && l <= word
  {
    word :| word in kw && l <= word;
  }

  // Otherwise there is a line that is missed.
  lemma Missing(kw: set<string>, x: string, c: char, word: string, g: string, l: string)
    requires Apart(kw) && Begins(kw, x) && x !in kw && word in kw && l <= word && IsSuffix(l, x + [c])
    requires g == Goes(kw, x, c) && IsSuffix(g, l) && |g| < |l|
    ensures !Complete(kw)
  {
    hide Goes, Outs, Apart, Quiet, Hears, Begins;
    var rest := word[|l|..];
    var line := x + ([c] + rest);
    ApartQuiet(kw, x);
    assert "" + x == x;
    ReadsOn(kw, "", x, [c] + rest);
    HearsStep(kw, x, [c] + rest);
    assert ([c] + rest)[1..] == rest;
    assert l == word[..|l|];
    Lost(kw, word, |l|, g);
    HoldsRest(x, c, l, word, line);
  }

  lemma HoldsRest(x: string, c: char, l: string, word: string, line: string)
    requires l <= word && IsSuffix(l, x + [c]) && line == x + ([c] + word[|l|..])
    ensures Contains(line, word)
  {
    var i := |x| + 1 - |l|;
    assert line == (x + [c]) + word[|l|..];
    assert line[i..] == (x + [c])[i..] + word[|l|..] == l + word[|l|..] == word;
    assert line[i..i + |word|] == word;
  }

  // No line is missed if and only if no letter leads astray.
  lemma ApartMissesNone(kw: set<string>)
    requires Apart(kw)
    ensures Complete(kw) <==> Sure(kw)
  {
    hide *;
    if Complete(kw) {
      forall x, c | Begins(kw, x) && x !in kw ensures Goes(kw, x, c) == Longest(kw, x + [c]) {
        CompleteSure(kw, x, c);
      }
      SureIntro(kw);
    }
    if Sure(kw) {
      forall line, word | word in kw && Contains(line, word) ensures Hears(kw, "", line) {
        NotNothing(kw, word);
        var j := WordEnd(line, word);
        assert "" + line == line;
        LongestNone(kw);
        SureHears(kw, "", line, word, j);
      }
      CompleteIntro(kw);
    }
  }

  lemma SureIntro(kw: set<string>)
    requires forall x, c :: Begins(kw, x) && x !in kw ==> Goes(kw, x, c) == Longest(kw, x + [c])
    ensures Sure(kw)
  {
    hide Begins, Goes, Longest;
  }

  lemma CompleteIntro(kw: set<string>)
    requires forall line, word :: word in kw && Contains(line, word) ==> Hears(kw, "", line)
    ensures Complete(kw)
  {
    hide Contains, Hears;
  }

  lemma NotNothing(kw: set<string>, word: string)
    requires Apart(kw) && word in kw
    ensures "" !in kw && word != ""
  {
  }

  // ---------- the automaton does just that

  // A state fails where Falls says.
  lemma {:induction false} FallsAt(w: seq<Node>, name: seq<string>, head: seq<int>, kw: set<string>, x: string)
    requires FailureLinks(w, name, head) && Shape(w, name, head) && Knows(w, name, kw)
    requires NUL !in x && x != "" && Begins(kw, x)
    ensures 0 < Walk(w, name, 0, x) < |name| <= |w| && NUL !in Falls(kw, x)
    ensures w[Walk(w, name, 0, x)].fail == Walk(w, name, 0, Falls(kw, x))
    decreases |x|
  {
    hide *;
    ShapeSize(w, name, head);
    TrieOf(w, name, head);
    var n := |x| - 1;
    var y, c := x[..n], x[n];
    assert x == y + [c];
    NoNul(x, y, c);
    BeginsPrefix(kw, y, x);
    var p, k := Walk(w, name, 0, y), Walk(w, name, 0, x);
    Ways(kw, w, name, y);
    Ways(kw, w, name, x);
    WalkMore(w, name, 0, y, c);
    BehindFails(w, name, head, p, c, k);
    EmptyWord(w, name);
    FallsStep(kw, y, c);
    if y != "" {
      FallsAt(w, name, head, kw, y);
      var f := Falls(kw, y);
      Ways(kw, w, name, f);
      WalkMore(w, name, 0, f, c);
      KnowsOne(w, name, kw, f + [c]);
    }
  }

  lemma FallsStep(kw: set<string>, y: string, c: char)
    ensures y == "" ==> Falls(kw, y + [c]) == ""
    ensures y != "" ==> Falls(kw, y + [c]) == if Begins(kw, Falls(kw, y) + [c]) then Falls(kw, y) + [c] else ""
  {
    assert (y + [c])[..|y|] == y;
  }

  lemma GoesStep(kw: set<string>, x: string, c: char)
    ensures Goes(kw, x, c) == if Begins(kw, x + [c]) then x + [c] else if x == "" then "" else Goes(kw, Falls(kw, x), c)
  {
  }

  // The state reached is that of Goes.
  lemma {:induction false} GoesAt(w: seq<Node>, name: seq<string>, head: seq<int>, kw: set<string>, c: int, x: string, ch: char)
    requires FailureLinks(w, name, head) && Failing(w, name) && Shape(w, name, head) && Knows(w, name, kw)
    requires At(w, name, c, x) && Begins(kw, x) && ch != NUL
    ensures At(w, name, Goto(w, name, c, ch), Goes(kw, x, ch))
    decreases |x|
  {
    hide *;
    TrieOf(w, name, head);
    ShapeSize(w, name, head);
    GoesStep(kw, x, ch);
    AtMeans(w, name, c, x);
    if x == "" {
      assert x + [ch] == [ch];
      GotoRoot(w, name, head, c, ch);
      RootGoes(w, name, kw, ch);
    } else {
      NextGoes(w, name, kw, c, x, ch);
      if Step(w, name, c, ch) != -1 {
        StepIsGoto(w, name, c, ch);
      } else {
        GotoFails(w, name, head, c, ch);
        FallsAt(w, name, head, kw, x);
        var y := Falls(kw, x);
        Ways(kw, w, name, y);
        if y == "" {
          RootGoes(w, name, kw, ch);
          GoesStep(kw, "", ch);
          assert "" + [ch] == [ch];
        } else {
          AtWalk(w, name, y);
          GoesAt(w, name, head, kw, Walk(w, name, 0, y), y, ch);
        }
      }
    }
  }

  lemma NextGoes(w: seq<Node>, name: seq<string>, kw: set<string>, c: int, x: string, ch: char)
    requires Trie(w, name) && Knows(w, name, kw) && NUL !in x && ch != NUL && Begins(kw, x) && c == Walk(w, name, 0, x) && 0 <= c < |name|
    ensures Step(w, name, c, ch) != -1 <==> Begins(kw, x + [ch])
    ensures Step(w, name, c, ch) != -1 ==> At(w, name, Step(w, name, c, ch), x + [ch])
  {
    hide Trie, Knows, Walk, Step, Begins;
    Ways(kw, w, name, x);
    WalkMore(w, name, 0, x, ch);
    KnowsOne(w, name, kw, x + [ch]);
    if Begins(kw, x + [ch]) { Ways(kw, w, name, x + [ch]); }
  }

  lemma RootGoes(w: seq<Node>, name: seq<string>, kw: set<string>, ch: char)
    requires Trie(w, name) && Knows(w, name, kw) && ch != NUL
    ensures At(w, name, FromRoot(w, name, 0, ch), if Begins(kw, [ch]) then [ch] else "")
  {
    RootAt(w, name, kw, ch);
    LongestNone(kw);
  }

  // A state accepts if Outs says so.
  lemma {:induction false} OutsAt(t: seq<Node>, w: seq<Node>, name: seq<string>, head: seq<int>, kw: set<string>, c: int, x: string)
    requires FailureLinks(w, name, head) && Shape(w, name, head) && Knows(w, name, kw) && OutLinks(t, w, |name|)
    requires Found(w, name, kw) && OnlyWords(t, name, kw) && "" !in kw && At(w, name, c, x) && Begins(kw, x)
    ensures c < |w| && (w[c].out <==> Outs(kw, x))
    decreases |x|
  {
    hide *;
    TrieOf(w, name, head);
    ShapeSize(w, name, head);
    AtMeans(w, name, c, x);
    OutsStep(kw, x);
    OutIs(t, w, name, kw, c);
    if x == "" {
      RootFails(w, name, head, c);
      FallsNone(kw);
    } else {
      FoundOne(w, name, kw, x);
      FallsAt(w, name, head, kw, x);
      var y := Falls(kw, x);
      Ways(kw, w, name, y);
      if y != "" {
        AtWalk(w, name, y);
        OutsAt(t, w, name, head, kw, Walk(w, name, 0, y), y);
      }
    }
  }

  lemma AtMeans(w: seq<Node>, name: seq<string>, c: int, x: string)
    requires Trie(w, name) && At(w, name, c, x)
    ensures 0 <= c < |name| <= |w| && NUL !in x && name[c] == x && (x != "" ==> c == Walk(w, name, 0, x))
  {
    if x != "" { WalkName(w, name, x); }
  }

  lemma AtWalk(w: seq<Node>, name: seq<string>, y: string)
    requires Trie(w, name) && NUL !in y && y != "" && 0 <= Walk(w, name, 0, y) < |name|
    ensures At(w, name, Walk(w, name, 0, y), y)
  {
  }

  lemma OutsStep(kw: set<string>, x: string)
    ensures Outs(kw, x) <==> x in kw || (Falls(kw, x) != "" && Outs(kw, Falls(kw, x)))
  {
  }

  lemma FallsNone(kw: set<string>)
    ensures Falls(kw, "") == ""
  {
  }

  lemma FoundOne(w: seq<Node>, name: seq<string>, kw: set<string>, x: string)
    requires Found(w, name, kw) && NUL !in x && Trie(w, name)
    ensures x in kw ==> 0 <= Walk(w, name, 0, x) < |w| && w[Walk(w, name, 0, x)].out
  {
  }

  lemma OutIs(t: seq<Node>, w: seq<Node>, name: seq<string>, kw: set<string>, c: int)
    requires OutLinks(t, w, |name|) && OnlyWords(t, name, kw) && 0 <= c < |name|
    ensures c < |w| && 0 <= w[c].fail < |w|
    ensures w[c].out ==> name[c] in kw || (w[c].fail != 0 && w[w[c].fail].out)
    ensures w[c].fail != 0 && w[w[c].fail].out ==> w[c].out
  {
  }

  // Recognising is hearing.
  lemma {:induction false} HearsAt(t: seq<Node>, w: seq<Node>, name: seq<string>, head: seq<int>, kw: set<string>, c: int, x: string, line: string)
    requires FailureLinks(w, name, head) && Failing(w, name) && Shape(w, name, head) && Knows(w, name, kw) && OutLinks(t, w, |name|)
    requires Found(w, name, kw) && OnlyWords(t, name, kw) && "" !in kw && At(w, name, c, x) && Begins(kw, x) && NUL !in line
    ensures Trie(w, name) && 0 <= c < |name| && (Matches(w, name, c, line) <==> Hears(kw, x, line))
    decreases |line|
  {
    hide Shape, FailureLinks, Knows, OutLinks, Found, OnlyWords, Begins, Failing, Goto, Goes, Outs, Trie, At;
    TrieOf(w, name, head);
    AtMeans(w, name, c, x);
    if line != "" {
      assert line[0] in line;
      GoesAt(w, name, head, kw, c, x, line[0]);
      var d, y := Goto(w, name, c, line[0]), Goes(kw, x, line[0]);
      OutsAt(t, w, name, head, kw, d, y);
      forall ch | ch in line[1..] ensures ch in line {}
      HearsAt(t, w, name, head, kw, d, y, line[1..]);
    }
  }

  // ---------- fgrep as a whole

  lemma SelectedHears(t: seq<Node>, w: seq<Node>, name: seq<string>, head: seq<int>, kw: set<string>, text: string, selected: seq<string>)
    requires FailureLinks(w, name, head) && Failing(w, name) && Shape(w, name, head) && Knows(w, name, kw) && OutLinks(t, w, |name|)
    requires Found(w, name, kw) && OnlyWords(t, name, kw) && "" !in kw && NUL !in text
    requires Trie(w, name) && selected == Selected(w, name, text, 0)
    ensures forall line :: line in selected <==> line in Lines(text, 0) && Hears(kw, "", line)
  {
    hide Selected, Lines, Matches, Hears, Walk, Trie, Failing, Shape, FailureLinks, Knows, OutLinks, Found, OnlyWords, SubSequence;
    NameZero(w, name);
    forall line ensures line in selected <==> line in Lines(text, 0) && Hears(kw, "", line) {
      SelectedLines(w, name, text, 0, line);
      if line in Lines(text, 0) {
        NoNulLines(text, 0, line);
        HearsAt(t, w, name, head, kw, 0, "", line);
      }
    }
  }

  // fgrep of a text for the keywords in pattern. What is selected are lines of
  // the text, in order, each of which holds a keyword; a line that begins with a
  // keyword is selected; and so is every line that holds one if the keywords are
  // regular, or if each is recognised behind every beginning of a keyword. That is,
  // if cfail() has room for the states: it has for fewer than QSIZE of them, and
  // for a single keyword only if it is shorter than that.
  method FgrepLines(pattern: string, text: string) returns (o: Outcome, selected: seq<string>)
    requires NUL !in pattern && NUL !in text
    ensures |pattern| < QSIZE - 1 ==> o.Made?
    ensures '\n' !in pattern ==> (o.Made? <==> |pattern| < QSIZE)
    ensures o.Made? ==> SubSequence(selected, Lines(text, 0))
    ensures o.Made? ==> forall line <- selected :: multiset(selected)[line] == multiset(Lines(text, 0))[line]
    ensures o.Made? ==> forall line <- selected :: exists word :: Keyword(pattern, word) && Contains(line, word)
    ensures o.Made? ==> forall line <- Lines(text, 0) :: (exists word :: word != "" && Keyword(pattern, word) && word <= line) ==> line in selected
    ensures o.Made? && Regular(Keywords(pattern)) ==>
      forall line <- Lines(text, 0) :: (exists word :: word != "" && Keyword(pattern, word) && Contains(line, word)) ==> line in selected
    ensures o.Made? && "" !in Keywords(pattern) ==>
      forall line :: line in selected <==> line in Lines(text, 0) && Hears(Keywords(pattern), "", line)
  {
    hide Trie, Shape, Failing, FailureLinks, OutLinks, Suffixed, Found, Knows, OnlyWords, Keywords, Keyword, Regular, Lines, Selected, SubSequence,
      Contains, Fares, Hears;
    ghost var t;
    var a;
    o, a, t := Build(pattern);
    if !o.Made? {
      return o, [];
    }
    ghost var kw := Keywords(pattern);
    selected := a.Execute(text);
    SelectedHold(a.w[..], a.name, pattern, kw, text, selected);
    if Regular(kw) {
      SelectedAll(t, a.w[..], a.name, a.head, pattern, kw, text, selected);
    }
    if "" !in kw {
      SelectedHears(t, a.w[..], a.name, a.head, kw, text, selected);
    }
  }

  lemma {:induction false} WordsClean(text: string, word: string)
    requires word in Words(text) || word == Tail(text)
    ensures forall c <- word :: c != '\n' && c in text
    decreases |text|
  {
    if text != "" {
      var n := |text| - 1;
      assert text == text[..n] + [text[n]];
      WordsClean(text[..n], Tail(text[..n]));
      if word in Words(text[..n]) { WordsClean(text[..n], word); }
    }
  }

  // What is to be tried is a text of one line.
  lemma OneLine(pattern: string, x: string, word: string)
    requires NUL !in pattern && Begins(Keywords(pattern), x) && word in Keywords(pattern) && word != ""
    ensures NUL !in x + word && Lines(x + word, 0) == [x + word] && Contains(x + word, word)
  {
    hide Words, Tail, Lines;
    assert (x + word)[|x|..|x + word|] == word;
    WordsClean(pattern, word);
    if x != "" {
      var u :| u in Keywords(pattern) && x <= u;
      WordsClean(pattern, u);
      forall c | c in x ensures c in u {}
    }
    LinesOfOne(x + word);
  }

  lemma LinesOfOne(line: string)
    requires line != "" && '\n' !in line
    ensures Lines(line, 0) == [line]
  {
    NoEnd(line, 0);
    assert line[0..|line|] == line && Lines(line, |line|) == [];
  }

  lemma {:induction false} NoEnd(line: string, i: nat)
    requires i <= |line| && '\n' !in line
    ensures LineEnd(line, i) == |line|
    decreases |line| - i
  {
    if i < |line| { NoEnd(line, i + 1); }
  }
}
