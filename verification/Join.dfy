// join.c: the merge of two sorted files on a field, with its seeks back in the
// second file.

module Join {

  // A line, split into fields; key is the join field.
  datatype Line = Line(key: string, fields: seq<string>)

  // What output() prints: two lines that join, or one that joins with none.
  datatype Out = Pair(x: Line, y: Line) | Only1(x: Line) | Only2(y: Line)

  // ---------- strcmp()

  function Strcmp(a: string, b: string): int {
    if |a| == 0 && |b| == 0 then 0
    else if |a| == 0 then -1
    else if |b| == 0 then 1
    else if a[0] != b[0] then a[0] as int - b[0] as int
    else Strcmp(a[1..], b[1..])
  }

  // a comes before b: where they first differ a has ended or has the smaller
  // character.
  predicate Less(a: string, b: string) {
    exists k | 0 <= k <= |a| && k < |b| :: a[..k] == b[..k] && (k == |a| || a[k] < b[k])
  }

  lemma LessFrom(a: string, b: string, k: nat)
    requires k <= |a| && k < |b| && a[..k] == b[..k] && (k == |a| || a[k] < b[k])
    ensures Less(a, b)
  {
  }

  lemma LessTail(a: string, b: string)
    requires |a| > 0 && |b| > 0 && a[0] == b[0]
    ensures Less(a, b) <==> Less(a[1..], b[1..])
  {
    if Less(a, b) {
      var k :| 0 <= k <= |a| && k < |b| && a[..k] == b[..k] && (k == |a| || a[k] < b[k]);
      hide Less;
      assert a[1..][..k - 1] == a[..k][1..] && b[1..][..k - 1] == b[..k][1..];
      LessFrom(a[1..], b[1..], k - 1);
    }
    if Less(a[1..], b[1..]) {
      var x, y := a[1..], b[1..];
      var k :| 0 <= k <= |x| && k < |y| && x[..k] == y[..k] && (k == |x| || x[k] < y[k]);
      hide Less;
      OneOn(a, k);
      OneOn(b, k);
      LessFrom(a, b, k + 1);
    }
  }

  lemma OneOn(a: string, k: nat)
    requires k < |a|
    ensures a[..k + 1] == [a[0]] + a[1..][..k] && (k + 1 < |a| ==> a[1..][k] == a[k + 1])
  {
  }

  lemma LessHead(a: string, b: string)
    ensures |b| == 0 ==> !Less(a, b)
    ensures |a| == 0 && |b| > 0 ==> Less(a, b)
    ensures |a| > 0 && |b| > 0 && a[0] != b[0] ==> (Less(a, b) <==> a[0] < b[0])
  {
    if |b| > 0 && (|a| == 0 || a[0] < b[0]) { LessFrom(a, b, 0); }
    if |a| > 0 && Less(a, b) {
      var k :| 0 <= k <= |a| && k < |b| && a[..k] == b[..k] && (k == |a| || a[k] < b[k]);
      assert k > 0 ==> a[..k][0] == b[..k][0];
    }
  }

  lemma {:induction false} StrcmpEqual(a: string, b: string)
    ensures Strcmp(a, b) == 0 <==> a == b
    ensures Strcmp(a, b) < 0 <==> Less(a, b)
    ensures Strcmp(a, b) > 0 <==> Less(b, a)
  {
    hide Less;
    LessHead(a, b);
    LessHead(b, a);
    if |a| > 0 && |b| > 0 && a[0] == b[0] {
      StrcmpEqual(a[1..], b[1..]);
      LessTail(a, b);
      LessTail(b, a);
      assert a == [a[0]] + a[1..] && b == [b[0]] + b[1..];
    }
  }

  lemma {:induction false} StrcmpLess(a: string, b: string, c: string)
    requires Strcmp(a, b) < 0 && Strcmp(b, c) < 0
    ensures Strcmp(a, c) < 0
  {
    if |a| > 0 && |b| > 0 && |c| > 0 && a[0] == b[0] == c[0] { StrcmpLess(a[1..], b[1..], c[1..]); }
  }

  // Not greater, in two forms.
  predicate Upto(a: string, b: string) {
    a == b || Less(a, b)
  }

  lemma UptoLess(a: string, b: string, c: string)
    ensures Upto(a, b) && Less(b, c) ==> Less(a, c)
    ensures Less(a, b) && Upto(b, c) ==> Less(a, c)
    ensures !(Less(a, b) && Upto(b, a)) && !(Less(a, b) && Less(b, a))
    ensures Upto(a, b) || Less(b, a)
  {
    StrcmpEqual(a, b);
    StrcmpEqual(b, c);
    StrcmpEqual(a, c);
    hide Less;
    if Less(a, b) && Less(b, c) { StrcmpLess(a, b, c); }
  }

  predicate Sorted(s: seq<Line>) {
    forall i, j :: 0 <= i < j < |s| ==> Upto(s[i].key, s[j].key)
  }

  // ---------- the nested-loop join

  function Row(x: Line, b: seq<Line>): seq<Out> {
    if |b| == 0 then []
    else
      var n := |b| - 1;
      Row(x, b[..n]) + if x.key == b[n].key then [Pair(x, b[n])] else []
  }

  function Nested(a: seq<Line>, b: seq<Line>): seq<Out> {
    if |a| == 0 then [] else Nested(a[..|a| - 1], b) + Row(a[|a| - 1], b)
  }

  predicate Joins(x: Line, s: seq<Line>) {
    exists j :: 0 <= j < |s| && s[j].key == x.key
  }

  // The lines of s that join with none of t.
  function Alone(s: seq<Line>, t: seq<Line>): seq<Line> {
    if |s| == 0 then []
    else
      var n := |s| - 1;
      Alone(s[..n], t) + if Joins(s[n], t) then [] else [s[n]]
  }

  // The output, taken apart.
  function Pairs(o: seq<Out>): seq<Out> {
    if |o| == 0 then [] else Pairs(o[..|o| - 1]) + if o[|o| - 1].Pair? then [o[|o| - 1]] else []
  }

  function Firsts(o: seq<Out>): seq<Line> {
    if |o| == 0 then [] else Firsts(o[..|o| - 1]) + if o[|o| - 1].Only1? then [o[|o| - 1].x] else []
  }

  function Seconds(o: seq<Out>): seq<Line> {
    if |o| == 0 then [] else Seconds(o[..|o| - 1]) + if o[|o| - 1].Only2? then [o[|o| - 1].y] else []
  }

  function KeyOf(o: Out): string {
    match o
    case Pair(x, y) => x.key
    case Only1(x) => x.key
    case Only2(y) => y.key
  }

  predicate InOrder(o: seq<Out>) {
    forall i, j :: 0 <= i < j < |o| ==> Upto(KeyOf(o[i]), KeyOf(o[j]))
  }

  lemma More(o: seq<Out>, p: Out)
    ensures Pairs(o + [p]) == Pairs(o) + if p.Pair? then [p] else []
    ensures Firsts(o + [p]) == Firsts(o) + if p.Only1? then [p.x] else []
    ensures Seconds(o + [p]) == Seconds(o) + if p.Only2? then [p.y] else []
  {
    assert (o + [p])[..|o|] == o;
  }

  // A row has nothing before its group, and nothing behind.
  lemma {:induction false} RowNone(x: Line, b: seq<Line>, c: nat)
    requires c <= |b| && forall y :: 0 <= y < c ==> b[y].key != x.key
    ensures Row(x, b[..c]) == []
  {
    if c > 0 {
      assert b[..c][..c - 1] == b[..c - 1];
      RowNone(x, b, c - 1);
    }
  }

  lemma {:induction false} RowRest(x: Line, b: seq<Line>, c: nat)
    requires c <= |b| && forall y :: c <= y < |b| ==> b[y].key != x.key
    ensures Row(x, b) == Row(x, b[..c])
    decreases |b|
  {
    if c < |b| {
      var n := |b| - 1;
      RowRest(x, b[..n], c);
      assert b[..n][..c] == b[..c];
    } else {
      assert b[..c] == b;
    }
  }

  lemma RowStep(x: Line, b: seq<Line>, y: nat)
    requires y < |b|
    ensures Row(x, b[..y + 1]) == Row(x, b[..y]) + if x.key == b[y].key then [Pair(x, b[y])] else []
  {
    assert b[..y + 1][..y] == b[..y];
  }

  lemma NestedStep(a: seq<Line>, b: seq<Line>, i: nat)
    requires i < |a|
    ensures Nested(a[..i + 1], b) == Nested(a[..i], b) + Row(a[i], b)
  {
    assert a[..i + 1][..i] == a[..i];
  }

  lemma AloneStep(s: seq<Line>, t: seq<Line>, i: nat)
    requires i < |s|
    ensures Alone(s[..i + 1], t) == Alone(s[..i], t) + if Joins(s[i], t) then [] else [s[i]]
  {
    assert s[..i + 1][..i] == s[..i];
  }

  // ---------- the merge

  // Lines before i and before c are done with; none of them joins with a later one.
  predicate Apart(a: seq<Line>, b: seq<Line>, i: int, c: int) {
    0 <= i <= |a| && 0 <= c <= |b| &&
    (forall x, y :: 0 <= x < i && c <= y < |b| ==> Less(a[x].key, b[y].key)) &&
    forall x, y :: i <= x < |a| && 0 <= y < c ==> Less(b[y].key, a[x].key)
  }

  // b[c..t] are all lines of file 2 with this key.
  predicate Group(b: seq<Line>, c: int, t: int, key: string) {
    0 <= c < t <= |b| && (forall y :: c <= y < t ==> b[y].key == key) && forall y :: t <= y < |b| ==> Less(key, b[y].key)
  }

  // What has been printed; row is what line i has got so far.
  predicate Printed(a: seq<Line>, b: seq<Line>, a1: bool, a2: bool, i: int, c: int, row: seq<Out>, o: seq<Out>) {
    0 <= i <= |a| && 0 <= c <= |b| &&
    Pairs(o) == Nested(a[..i], b) + row && Firsts(o) == (if a1 then Alone(a[..i], b) else []) &&
    Seconds(o) == (if a2 then Alone(b[..c], a) else []) &&
    InOrder(o) && (forall p, x :: 0 <= p < |o| && i <= x < |a| ==> Upto(KeyOf(o[p]), a[x].key)) &&
    forall p, y :: 0 <= p < |o| && c <= y < |b| ==> Upto(KeyOf(o[p]), b[y].key)
  }

  lemma Begin(a: seq<Line>, b: seq<Line>, a1: bool, a2: bool)
    ensures Apart(a, b, 0, 0) && Printed(a, b, a1, a2, 0, 0, [], [])
  {
  }

  lemma AppendOrder(o: seq<Out>, p: Out)
    requires InOrder(o) && forall q :: 0 <= q < |o| ==> Upto(KeyOf(o[q]), KeyOf(p))
    ensures InOrder(o + [p])
  {
  }

  // Line c of file 2 joins with none.
  lemma Skip2(a: seq<Line>, b: seq<Line>, a1: bool, a2: bool, i: int, c: int, o: seq<Out>, o': seq<Out>)
    requires Sorted(a) && Sorted(b) && Apart(a, b, i, c) && Printed(a, b, a1, a2, i, c, [], o)
    requires c < |b| && (i < |a| ==> Less(b[c].key, a[i].key)) && o' == if a2 then o + [Only2(b[c])] else o
    ensures Apart(a, b, i, c + 1) && Printed(a, b, a1, a2, i, c + 1, [], o')
  {
    hide Less, Upto, Sorted, InOrder, Apart, Joins, Strcmp, Nested, Row, Alone, Pairs, Firsts, Seconds;
    InRange(a, b, i, c);
    Apart2(a, b, i, c);
    AloneStep(b, a, c);
    SortedFrom(b, c);
    if a2 {
      More(o, Only2(b[c]));
      AppendOrder(o, Only2(b[c]));
    }
  }

  lemma InRange(a: seq<Line>, b: seq<Line>, i: int, c: int)
    requires Apart(a, b, i, c)
    ensures 0 <= i <= |a| && 0 <= c <= |b|
  {
    hide Less;
  }

  // What is less than line c is less than all from there on, and none of them.
  lemma LessThanAll(s: seq<Line>, c: int, key: string)
    requires Sorted(s) && 0 <= c < |s| && Less(key, s[c].key)
    ensures forall x :: c <= x < |s| ==> Less(key, s[x].key) && Upto(key, s[x].key) && s[x].key != key
  {
    hide Less;
    forall x | c <= x < |s| ensures Less(key, s[x].key) && Upto(key, s[x].key) && s[x].key != key {
      UptoLess(key, s[c].key, s[x].key);
    }
  }

  lemma MoreThan(s: seq<Line>, c: int, key: string)
    requires 0 <= c <= |s| && forall x :: 0 <= x < c ==> Less(s[x].key, key)
    ensures forall x :: 0 <= x < c ==> s[x].key != key
  {
    hide Less;
    forall x | 0 <= x < c ensures s[x].key != key { UptoLess(s[x].key, key, s[x].key); }
  }

  lemma Apart2(a: seq<Line>, b: seq<Line>, i: int, c: int)
    requires Sorted(a) && Apart(a, b, i, c) && 0 <= c < |b| && (i < |a| ==> Less(b[c].key, a[i].key))
    ensures Apart(a, b, i, c + 1) && !Joins(b[c], a)
    ensures forall x :: i <= x < |a| ==> Upto(b[c].key, a[x].key)
  {
    hide Less, Upto, Sorted;
    MoreThan(a, i, b[c].key);
    if i < |a| { LessThanAll(a, i, b[c].key); }
  }

  // Line i of file 1 joins with none.
  lemma Skip1(a: seq<Line>, b: seq<Line>, a1: bool, a2: bool, i: int, c: int, o: seq<Out>, o': seq<Out>)
    requires Sorted(a) && Sorted(b) && Apart(a, b, i, c) && Printed(a, b, a1, a2, i, c, [], o)
    requires i < |a| && (c < |b| ==> Less(a[i].key, b[c].key)) && o' == if a1 then o + [Only1(a[i])] else o
    ensures Apart(a, b, i + 1, c) && Printed(a, b, a1, a2, i + 1, c, [], o')
  {
    hide Less, Upto, Sorted, InOrder, Apart, Joins, Strcmp, Nested, Row, Alone, Pairs, Firsts, Seconds;
    InRange(a, b, i, c);
    Apart1(a, b, i, c);
    AloneStep(a, b, i);
    NestedStep(a, b, i);
    SortedFrom(a, i);
    if a1 {
      More(o, Only1(a[i]));
      AppendOrder(o, Only1(a[i]));
    }
  }

  lemma Apart1(a: seq<Line>, b: seq<Line>, i: int, c: int)
    requires Sorted(b) && Apart(a, b, i, c) && 0 <= i < |a| && (c < |b| ==> Less(a[i].key, b[c].key))
    ensures Apart(a, b, i + 1, c) && !Joins(a[i], b) && Row(a[i], b) == []
    ensures forall y :: c <= y < |b| ==> Upto(a[i].key, b[y].key)
  {
    hide Less, Upto, Sorted, Row, Joins;
    MoreThan(b, c, a[i].key);
    if c < |b| { LessThanAll(b, c, a[i].key); }
    RowEmpty(a[i], b);
  }

  lemma RowEmpty(x: Line, b: seq<Line>)
    requires forall y :: 0 <= y < |b| ==> b[y].key != x.key
    ensures Row(x, b) == [] && !Joins(x, b)
  {
    hide Row;
    RowNone(x, b, |b|);
    assert b[..|b|] == b;
  }

  // Lines i and y join.
  lemma PairUp(a: seq<Line>, b: seq<Line>, a1: bool, a2: bool, i: int, c: int, y: int, o: seq<Out>)
    requires Printed(a, b, a1, a2, i, c, if 0 <= i < |a| && 0 <= y < |b| then Row(a[i], b[..y]) else [], o)
    requires 0 <= i < |a| && c <= y < |b| && a[i].key == b[y].key && Sorted(a) && Sorted(b) && b[c].key == b[y].key
    ensures Printed(a, b, a1, a2, i, c, Row(a[i], b[..y + 1]), o + [Pair(a[i], b[y])])
  {
    hide Less, Strcmp, Nested, Row, Alone, Pairs, Firsts, Seconds, Sorted, Upto, InOrder;
    More(o, Pair(a[i], b[y]));
    AppendOrder(o, Pair(a[i], b[y]));
    RowStep(a[i], b, y);
    SortedFrom(a, i);
    SortedFrom(b, c);
  }

  lemma SortedFrom(s: seq<Line>, i: int)
    requires Sorted(s) && 0 <= i < |s|
    ensures forall x :: i <= x < |s| ==> Upto(s[i].key, s[x].key)
  {
    hide Less;
  }

  // Line i has its row; on to the next one.
  lemma RowDone(a: seq<Line>, b: seq<Line>, a1: bool, a2: bool, i: int, c: int, t: int, o: seq<Out>)
    requires 0 <= i < |a| && Group(b, c, t, a[i].key) && Printed(a, b, a1, a2, i, c, Row(a[i], b[..t]), o)
    ensures Printed(a, b, a1, a2, i + 1, c, [], o)
  {
    hide Less, Strcmp, Nested, Row, Alone, Pairs, Firsts, Seconds;
    forall y | t <= y < |b| ensures b[y].key != a[i].key { UptoLess(a[i].key, b[y].key, b[y].key); }
    RowRest(a[i], b, t);
    NestedStep(a, b, i);
    AloneStep(a, b, i);
    assert b[c].key == a[i].key;
  }

  // The group is done with.
  lemma {:induction false} GroupJoins(a: seq<Line>, b: seq<Line>, i: int, c: int, t: int)
    requires 0 <= i < |a| && 0 <= c <= t <= |b| && forall y :: c <= y < t ==> b[y].key == a[i].key
    ensures Alone(b[..t], a) == Alone(b[..c], a)
    decreases t - c
  {
    if c < t {
      GroupJoins(a, b, i, c, t - 1);
      AloneStep(b, a, t - 1);
      assert a[i].key == b[t - 1].key;
    }
  }

  lemma GroupDone(a: seq<Line>, b: seq<Line>, a1: bool, a2: bool, i0: int, i: int, c: int, t: int, o: seq<Out>)
    requires Sorted(a) && Sorted(b) && Apart(a, b, i0, c) && 0 <= i0 < i <= |a| && Group(b, c, t, a[i0].key)
    requires Printed(a, b, a1, a2, i, c, [], o)
    requires (forall x :: i0 <= x < i ==> a[x].key == a[i0].key) && (i < |a| ==> Less(a[i0].key, a[i].key))
    ensures Apart(a, b, i, t) && Printed(a, b, a1, a2, i, t, [], o)
  {
    hide Less, Strcmp, Nested, Row, Alone, Pairs, Firsts, Seconds;
    GroupJoins(a, b, i0, c, t);
    forall x, y | 0 <= x < i && t <= y < |b| ensures Less(a[x].key, b[y].key) {
      if x < i0 { assert Less(a[x].key, b[y].key); }
    }
    forall x, y | i <= x < |a| && 0 <= y < t ensures Less(b[y].key, a[x].key) {
      UptoLess(a[i0].key, a[i].key, a[x].key);
      if y < c { assert Less(b[y].key, a[x].key); }
    }
  }

  // ---------- main()

  class File {
    const recs: seq<Line>
    var pos: nat
    var line: Line

    constructor (recs: seq<Line>)
      ensures this.recs == recs && pos == 0
    {
      this.recs, pos, line := recs, 0, Line("", []);
    }

    // input(): the next line, if there is one.
    method Input() returns (more: bool)
      requires pos <= |recs|
      modifies this
      ensures more <==> old(pos) < |recs|
      ensures if more then pos == old(pos) + 1 && line == recs[old(pos)] else pos == old(pos)
    {
      more := pos < |recs|;
      if more {
        line := recs[pos];
        pos := pos + 1;
      }
    }
  }

  // The line in the buffer of f is line i, or i is the end.
  ghost predicate At(f: File, more: bool, i: int)
    reads f
  {
    if more then 0 <= i < |f.recs| && f.pos == i + 1 && f.line == f.recs[i] else i == f.pos == |f.recs|
  }

  // The rest of file 1 has no partners.
  lemma {:induction false} NestedRest(a: seq<Line>, b: seq<Line>, i: int, n: int)
    requires 0 <= i <= n <= |a| && forall x, y :: i <= x < |a| && 0 <= y < |b| ==> b[y].key != a[x].key
    ensures Nested(a[..n], b) == Nested(a[..i], b)
    decreases n
  {
    if i < n {
      NestedRest(a, b, i, n - 1);
      NestedStep(a, b, n - 1);
      RowNone(a[n - 1], b, |b|);
      assert b[..|b|] == b;
    }
  }

  // What join is for.
  predicate Joined(a: seq<Line>, b: seq<Line>, a1: bool, a2: bool, o: seq<Out>) {
    Pairs(o) == Nested(a, b) && Firsts(o) == (if a1 then Alone(a, b) else []) &&
    Seconds(o) == (if a2 then Alone(b, a) else []) && InOrder(o)
  }

  // ---------- what that comes to, line by line

  lemma LastOf<T>(s: seq<T>, x: T)
    requires |s| > 0
    ensures multiset(s)[x] == multiset(s[..|s| - 1])[x] + if s[|s| - 1] == x then 1 else 0
  {
    assert s == s[..|s| - 1] + [s[|s| - 1]];
  }

  lemma {:induction false} RowCount(x0: Line, b: seq<Line>, x: Line, y: Line)
    ensures multiset(Row(x0, b))[Pair(x, y)] == if x == x0 && x.key == y.key then multiset(b)[y] else 0
  {
    if |b| > 0 {
      RowCount(x0, b[..|b| - 1], x, y);
      LastOf(b, y);
    }
  }

  lemma {:induction false} NestedCount(a: seq<Line>, b: seq<Line>, x: Line, y: Line)
    ensures multiset(Nested(a, b))[Pair(x, y)] == if x.key == y.key then Times(multiset(a)[x], multiset(b)[y]) else 0
  {
    hide Row, Times;
    if |a| == 0 {
      TimesZero(multiset(b)[y]);
    } else {
      var n := |a| - 1;
      NestedLast(a, b, Pair(x, y));
      hide Nested;
      NestedCount(a[..n], b, x, y);
      LastOf(a, x);
      RowCount(a[n], b, x, y);
      TimesOneMore(multiset(a[..n])[x], multiset(b)[y]);
    }
  }

  function Times(k: int, m: int): int {
    k * m
  }

  lemma NestedLast(a: seq<Line>, b: seq<Line>, p: Out)
    requires |a| > 0
    ensures multiset(Nested(a, b))[p] == multiset(Nested(a[..|a| - 1], b))[p] + multiset(Row(a[|a| - 1], b))[p]
  {
    hide Row;
  }

  lemma TimesOneMore(k: int, m: int)
    ensures Times(k + 1, m) == Times(k, m) + m
  {
  }

  lemma TimesZero(m: int)
    ensures Times(0, m) == 0
  {
  }

  lemma {:induction false} AloneCount(s: seq<Line>, t: seq<Line>, x: Line)
    ensures multiset(Alone(s, t))[x] == if Joins(x, t) then 0 else multiset(s)[x]
  {
    if |s| > 0 {
      AloneCount(s[..|s| - 1], t, x);
      LastOf(s, x);
    }
  }

  lemma {:induction false} PartCounts(o: seq<Out>, x: Line, y: Line)
    ensures multiset(o)[Pair(x, y)] == multiset(Pairs(o))[Pair(x, y)]
    ensures multiset(o)[Only1(x)] == multiset(Firsts(o))[x]
    ensures multiset(o)[Only2(y)] == multiset(Seconds(o))[y]
  {
    if |o| > 0 {
      PartCounts(o[..|o| - 1], x, y);
      LastOf(o, Pair(x, y));
      LastOf(o, Only1(x));
      LastOf(o, Only2(y));
    }
  }

  predicate KeyIsNotIn(key: string, s: seq<Line>) {
    forall z <- s :: z.key != key
  }

  // Two lines are paired as often as they occur, each with each, when their keys
  // are equal.
  lemma JoinedPairs(a: seq<Line>, b: seq<Line>, a1: bool, a2: bool, o: seq<Out>, x: Line, y: Line)
    requires Joined(a, b, a1, a2, o)
    ensures
      var k: int, m: int := multiset(a)[x], multiset(b)[y];
      multiset(o)[Pair(x, y)] == if x.key == y.key then k * m else 0
  {
    PartCounts(o, x, y);
    NestedCount(a, b, x, y);
    hide Pairs, Firsts, Seconds, Nested, Alone, InOrder, KeyOf;
  }

  // Of the file asked for a line is printed alone, as often as it occurs, when no
  // line of the other has its key.
  lemma JoinedAlone(a: seq<Line>, b: seq<Line>, a1: bool, a2: bool, o: seq<Out>, x: Line, y: Line)
    requires Joined(a, b, a1, a2, o)
    ensures multiset(o)[Only1(x)] == if a1 && KeyIsNotIn(x.key, b) then multiset(a)[x] else 0
    ensures multiset(o)[Only2(y)] == if a2 && KeyIsNotIn(y.key, a) then multiset(b)[y] else 0
  {
    PartCounts(o, x, y);
    AloneCount(a, b, x);
    AloneCount(b, a, y);
    hide Pairs, Firsts, Seconds, Nested, Alone, InOrder, KeyOf;
    assert Joins(x, b) <==> !KeyIsNotIn(x.key, b);
    assert Joins(y, a) <==> !KeyIsNotIn(y.key, a);
  }

  lemma {:induction false} PairPlace(o: seq<Out>, p: nat) returns (q: nat)
    requires p < |o| && o[p].Pair?
    ensures q < |Pairs(o)| && Pairs(o)[q] == o[p]
  {
    if p == |o| - 1 {
      q := |Pairs(o)| - 1;
    } else {
      q := PairPlace(o[..|o| - 1], p);
    }
  }

  lemma {:induction false} PairPlaces(o: seq<Out>, p: nat, q: nat) returns (i: nat, j: nat)
    requires p < q < |o| && o[p].Pair? && o[q].Pair?
    ensures i < j < |Pairs(o)| && Pairs(o)[i] == o[p] && Pairs(o)[j] == o[q]
  {
    if q == |o| - 1 {
      i := PairPlace(o[..q], p);
      j := |Pairs(o)| - 1;
    } else {
      i, j := PairPlaces(o[..|o| - 1], p, q);
    }
  }

  lemma {:induction false} RowPlace(x: Line, b: seq<Line>, p: nat) returns (j: nat)
    requires p < |Row(x, b)|
    ensures j < |b| && Row(x, b)[p] == Pair(x, b[j])
  {
    var less := b[..|b| - 1];
    if p < |Row(x, less)| {
      j := RowPlace(x, less, p);
    } else {
      j := |b| - 1;
    }
  }

  lemma {:induction false} RowPlaces(x: Line, b: seq<Line>, p: nat, q: nat) returns (j: nat, l: nat)
    requires p < q < |Row(x, b)|
    ensures j < l < |b| && Row(x, b)[p] == Pair(x, b[j]) && Row(x, b)[q] == Pair(x, b[l])
  {
    var less := b[..|b| - 1];
    if q < |Row(x, less)| {
      j, l := RowPlaces(x, less, p, q);
    } else {
      j := RowPlace(x, less, p);
      l := |b| - 1;
    }
  }

  lemma {:induction false} NestedPlace(a: seq<Line>, b: seq<Line>, p: nat) returns (i: nat, j: nat)
    requires p < |Nested(a, b)|
    ensures i < |a| && j < |b| && Nested(a, b)[p] == Pair(a[i], b[j])
  {
    var n := |a| - 1;
    var less := Nested(a[..n], b);
    if p < |less| {
      i, j := NestedPlace(a[..n], b, p);
    } else {
      i := n;
      j := RowPlace(a[n], b, p - |less|);
    }
  }

  // Line i of file 1 with line j of file 2 comes before line k with line l.
  predicate Earlier(i: int, j: int, k: int, l: int) {
    i < k || (i == k && j < l)
  }

  lemma {:induction false} NestedPlaces(a: seq<Line>, b: seq<Line>, p: nat, q: nat) returns (i: nat, j: nat, k: nat, l: nat)
    requires p < q < |Nested(a, b)|
    ensures i < |a| && j < |b| && k < |a| && l < |b| && Earlier(i, j, k, l)
    ensures Nested(a, b)[p] == Pair(a[i], b[j]) && Nested(a, b)[q] == Pair(a[k], b[l])
  {
    var n := |a| - 1;
    var less := Nested(a[..n], b);
    if q < |less| {
      i, j, k, l := NestedPlaces(a[..n], b, p, q);
    } else if p < |less| {
      i, j := NestedPlace(a[..n], b, p);
      k := n;
      l := RowPlace(a[n], b, q - |less|);
    } else {
      i, k := n, n;
      j, l := RowPlaces(a[n], b, p - |less|, q - |less|);
    }
  }

  // The pairs come in the order of file 1, those of one line in the order of
  // file 2; the keys of all that is printed ascend.
  lemma JoinedOrder(a: seq<Line>, b: seq<Line>, a1: bool, a2: bool, o: seq<Out>, p: nat, q: nat)
    requires Joined(a, b, a1, a2, o) && p < q < |o|
    ensures KeyOf(o[p]) == KeyOf(o[q]) || Less(KeyOf(o[p]), KeyOf(o[q]))
    ensures o[p].Pair? && o[q].Pair? ==>
      exists i, j, k, l | 0 <= i < |a| && 0 <= j < |b| && 0 <= k < |a| && 0 <= l < |b| && (i < k || (i == k && j < l)) ::
        o[p] == Pair(a[i], b[j]) && o[q] == Pair(a[k], b[l])
  {
    assert Upto(KeyOf(o[p]), KeyOf(o[q]));
    hide Less, KeyOf, InOrder, Alone, Firsts, Seconds;
    if o[p].Pair? && o[q].Pair? {
      var p', q' := PairPlaces(o, p, q);
      var i, j, k, l := NestedPlaces(a, b, p', q');
      assert o[p] == Pair(a[i], b[j]) && o[q] == Pair(a[k], b[l]);
    }
  }

  lemma Finish(a: seq<Line>, b: seq<Line>, a1: bool, a2: bool, i: int, c: int, o: seq<Out>)
    requires Apart(a, b, i, c) && Printed(a, b, a1, a2, i, c, [], o)
    requires (i == |a| || c == |b|) && (a1 || a2 ==> i == |a| && c == |b|)
    ensures Joined(a, b, a1, a2, o)
  {
    assert a[..|a|] == a && b[..|b|] == b;
    if i < |a| {
      forall x, y | i <= x < |a| && 0 <= y < |b| ensures b[y].key != a[x].key {
        UptoLess(b[y].key, a[x].key, b[y].key);
      }
      NestedRest(a, b, i, |a|);
    }
    hide Nested, Alone, Pairs, Firsts, Seconds, Less;
    assert Nested(a[..i], b) + [] == Nested(a[..i], b);
  }

  // join.c:118-151. The loops end whatever the files hold; when both are sorted
  // on the join field, the output is the nested-loop join in the order of file 1,
  // with all lines that join with none, of the files that -a asks for, among it.
  method Merge(f1: File, f2: File, a1: bool, a2: bool) returns (out: seq<Out>)
    requires f1 != f2 && f1.pos == f2.pos == 0
    modifies f1, f2
    ensures Sorted(f1.recs) && Sorted(f2.recs) ==> Joined(f1.recs, f2.recs, a1, a2, out)
  {
    hide Less, Strcmp, Printed, Apart, Joined;
    ghost var a, b := f1.recs, f2.recs;
    ghost var sorted, i, c := Sorted(a) && Sorted(b), 0, 0;
    hide Sorted;
    out := [];
    var n1 := f1.Input();
    var bot2 := f2.pos;
    var n2 := f2.Input();
    Begin(a, b, a1, a2);
    while (n1 && n2) || ((a1 || a2) && (n1 || n2))
      invariant At(f1, n1, i) && At(f2, n2, c) && bot2 == c && (sorted <==> Sorted(a) && Sorted(b))
      invariant sorted ==> Apart(a, b, i, c) && Printed(a, b, a1, a2, i, c, [], out)
      decreases |a| - i, |b| - c
    {
      if n1 && n2 { StrcmpEqual(f1.line.key, f2.line.key); }
      if (n1 && n2 && Strcmp(f1.line.key, f2.line.key) > 0) || !n1 {
        ghost var o := out;
        if a2 {
          out := out + [Only2(f2.line)];
        }
        if sorted { Skip2(a, b, a1, a2, i, c, o, out); }
        bot2 := f2.pos;
        n2 := f2.Input();
        c := c + 1;
      } else if (n1 && n2 && Strcmp(f1.line.key, f2.line.key) < 0) || !n2 {
        ghost var o := out;
        if a1 {
          out := out + [Only1(f1.line)];
        }
        if sorted { Skip1(a, b, a1, a2, i, c, o, out); }
        n1 := f1.Input();
        i := i + 1;
      } else {
        n1, n2, bot2, out, i, c := JoinGroup(f1, f2, bot2, a1, a2, out, i, c);
      }
    }
    if sorted { Finish(a, b, a1, a2, i, c, out); }
  }

  // join.c:127-131: the first line of file 1 that has this key.
  method FirstRow(f1: File, f2: File, ghost a1: bool, ghost a2: bool, o: seq<Out>, ghost i: int, ghost c: int)
    returns (n2: bool, top2: nat, out: seq<Out>)
    requires f1 != f2 && At(f1, true, i) && At(f2, true, c) && f1.line.key == f2.line.key
    requires Sorted(f1.recs) && Sorted(f2.recs) ==> Printed(f1.recs, f2.recs, a1, a2, i, c, Row(f1.recs[i], f2.recs[..c]), o)
    modifies f2
    ensures At(f1, true, i) && At(f2, n2, top2) && c < top2
    ensures Sorted(f1.recs) && Sorted(f2.recs) ==>
      Group(f2.recs, c, top2, f1.recs[i].key) &&
      Printed(f1.recs, f2.recs, a1, a2, i, c, Row(f1.recs[i], f2.recs[..top2]), out)
  {
    hide Less, Strcmp, Printed, Sorted;
    ghost var a, b, y := f1.recs, f2.recs, c;
    n2, top2, out := true, f2.pos, o;
    StrcmpEqual(f1.line.key, f2.line.key);
    while n2 && Strcmp(f1.line.key, f2.line.key) == 0
      invariant At(f1, true, i) && At(f2, n2, y) && c <= y && (y == c ==> n2) && (y > c ==> top2 == y)
      invariant forall z :: c <= z < y ==> b[z].key == a[i].key
      invariant n2 ==> (Strcmp(f1.line.key, f2.line.key) == 0 <==> f1.line.key == f2.line.key)
      invariant y == c ==> f1.line.key == f2.line.key
      invariant Sorted(a) && Sorted(b) ==> Printed(a, b, a1, a2, i, c, Row(a[i], b[..y]), out)
      decreases |b| - y
    {
      StrcmpEqual(f1.line.key, f2.line.key);
      if Sorted(a) && Sorted(b) { PairUp(a, b, a1, a2, i, c, y, out); }
      out := out + [Pair(f1.line, f2.line)];
      top2 := f2.pos;
      n2 := f2.Input();
      y := y + 1;
      if n2 { StrcmpEqual(f1.line.key, f2.line.key); }
    }
    if Sorted(a) && Sorted(b) { GroupEnds(a, b, i, c, y); }
  }

  lemma GroupEnds(a: seq<Line>, b: seq<Line>, i: int, c: int, t: int)
    requires Sorted(b) && 0 <= i < |a| && 0 <= c < t <= |b| && (forall z :: c <= z < t ==> b[z].key == a[i].key)
    requires t < |b| ==> b[t].key != a[i].key
    ensures Group(b, c, t, a[i].key)
  {
    forall y | t <= y < |b| ensures Less(a[i].key, b[y].key) {
      assert Upto(b[c].key, b[t].key) && Upto(b[t].key, b[y].key);
      UptoLess(a[i].key, b[t].key, b[y].key);
    }
  }

  // join.c:126-150: all lines with the key that stands first in both files.
  method JoinGroup(f1: File, f2: File, bot: nat, ghost a1: bool, ghost a2: bool, o: seq<Out>, ghost i0: int, ghost c0: int)
    returns (n1: bool, n2: bool, bot2: nat, out: seq<Out>, ghost i: int, ghost c: int)
    requires f1 != f2 && At(f1, true, i0) && At(f2, true, c0) && bot == c0 && f1.line.key == f2.line.key
    requires Sorted(f1.recs) && Sorted(f2.recs) ==>
      Apart(f1.recs, f2.recs, i0, c0) && Printed(f1.recs, f2.recs, a1, a2, i0, c0, [], o)
    modifies f1, f2
    ensures At(f1, n1, i) && At(f2, n2, c) && bot2 == c && i > i0
    ensures Sorted(f1.recs) && Sorted(f2.recs) ==>
      Apart(f1.recs, f2.recs, i, c) && Printed(f1.recs, f2.recs, a1, a2, i, c, [], out)
  {
    hide Less, Strcmp, Printed, Apart, Sorted, Group, Row, InGroup;
    ghost var a, b := f1.recs, f2.recs;
    ghost var sorted := Sorted(a) && Sorted(b);
    if sorted { GroupBegins(a, b, i0, c0); }
    var top2;
    n2, top2, out := FirstRow(f1, f2, a1, a2, o, i0, c0);
    if sorted { RowDone(a, b, a1, a2, i0, c0, top2, out); }
    f2.pos := bot;
    n2 := f2.Input();
    n1 := f1.Input();
    if sorted { RowBegins(a, b, a1, a2, i0, i0 + 1, c0, top2, out); }
    n1, n2, out, i := OtherRows(f1, f2, bot, top2, n1, a1, a2, out, i0);
    bot2, c := top2, top2;
  }

  // join.c:134-149: the other lines of file 1 with this key.
  method OtherRows(f1: File, f2: File, bot2: nat, top2: nat, m1: bool, ghost a1: bool, ghost a2: bool, o: seq<Out>, ghost i0: int)
    returns (n1: bool, n2: bool, out: seq<Out>, ghost i: int)
    requires f1 != f2 && At(f1, m1, i0 + 1) && At(f2, true, bot2) && bot2 < top2 <= |f2.recs|
    requires Sorted(f1.recs) && Sorted(f2.recs) ==> InGroup(f1.recs, f2.recs, a1, a2, i0, i0 + 1, bot2, top2, bot2, o)
    modifies f1, f2
    ensures At(f1, n1, i) && At(f2, n2, top2) && i > i0
    ensures Sorted(f1.recs) && Sorted(f2.recs) ==>
      Apart(f1.recs, f2.recs, i, top2) && Printed(f1.recs, f2.recs, a1, a2, i, top2, [], out)
  {
    hide Less, Strcmp, Printed, Apart, Sorted, Group, InGroup;
    ghost var a, b, y := f1.recs, f2.recs, bot2;
    i, n1, n2, out := i0 + 1, m1, true, o;
    while true
      invariant At(f1, n1, i) && At(f2, n2, y) && i0 < i && bot2 <= y && (!n1 ==> y == bot2) && bot2 < top2 <= |b|
      invariant Sorted(a) && Sorted(b) ==> InGroup(a, b, a1, a2, i0, i, bot2, top2, y, out)
      decreases |a| - i, |b| - y
    {
      if n1 && n2 { StrcmpEqual(f1.line.key, f2.line.key); }
      if n1 && n2 && Strcmp(f1.line.key, f2.line.key) == 0 {
        if Sorted(a) && Sorted(b) { GroupPair(a, b, a1, a2, i0, i, bot2, top2, y, out); }
        out := out + [Pair(f1.line, f2.line)];
        n2 := f2.Input();
        y := y + 1;
      } else if (n1 && n2 && Strcmp(f1.line.key, f2.line.key) < 0) || !n2 {
        if Sorted(a) && Sorted(b) { GroupNext(a, b, a1, a2, i0, i, bot2, top2, y, out); }
        f2.pos := bot2;
        n2 := f2.Input();
        n1 := f1.Input();
        i, y := i + 1, bot2;
      } else {
        if Sorted(a) && Sorted(b) { GroupLeft(a, b, a1, a2, i0, i, bot2, top2, y, out); }
        f2.pos := top2;
        n2 := f2.Input();
        return;
      }
    }
  }

  // Inside the second loop: line i is held against line y.
  predicate InGroup(a: seq<Line>, b: seq<Line>, a1: bool, a2: bool, i0: int, i: int, c: int, t: int, y: int, o: seq<Out>) {
    Sorted(a) && Sorted(b) && 0 <= i0 < i <= |a| && Apart(a, b, i0, c) && Group(b, c, t, a[i0].key) && c <= y <= t &&
    (forall x :: i0 <= x < i ==> a[x].key == a[i0].key) && (y > c ==> i < |a| && a[i].key == a[i0].key) &&
    Printed(a, b, a1, a2, i, c, if i < |a| then Row(a[i], b[..y]) else [], o)
  }

  lemma GroupBegins(a: seq<Line>, b: seq<Line>, i: int, c: int)
    requires Apart(a, b, i, c) && i < |a|
    ensures Row(a[i], b[..c]) == []
  {
    forall y | 0 <= y < c ensures b[y].key != a[i].key { UptoLess(b[y].key, a[i].key, b[y].key); }
    RowNone(a[i], b, c);
  }

  // The row of the next line, which is at its beginning.
  lemma RowBegins(a: seq<Line>, b: seq<Line>, a1: bool, a2: bool, i0: int, i: int, c: int, t: int, o: seq<Out>)
    requires Sorted(a) && Sorted(b) && 0 <= i0 < i <= |a| && Apart(a, b, i0, c) && Group(b, c, t, a[i0].key)
    requires forall x :: i0 <= x < i ==> a[x].key == a[i0].key
    requires Printed(a, b, a1, a2, i, c, [], o)
    ensures InGroup(a, b, a1, a2, i0, i, c, t, c, o)
  {
    if i < |a| {
      forall y | 0 <= y < c ensures b[y].key != a[i].key {
        assert Less(b[y].key, a[i].key);
        UptoLess(b[y].key, a[i].key, b[y].key);
      }
      RowNone(a[i], b, c);
    }
  }

  lemma GroupPair(a: seq<Line>, b: seq<Line>, a1: bool, a2: bool, i0: int, i: int, c: int, t: int, y: int, o: seq<Out>)
    requires InGroup(a, b, a1, a2, i0, i, c, t, y, o) && i < |a| && y < |b| && a[i].key == b[y].key
    ensures InGroup(a, b, a1, a2, i0, i, c, t, y + 1, o + [Pair(a[i], b[y])])
  {
    hide Printed, Row, Strcmp, Less;
    if y == t { UptoLess(a[i0].key, b[y].key, a[i].key); }
    PairUp(a, b, a1, a2, i, c, y, o);
  }

  lemma GroupNext(a: seq<Line>, b: seq<Line>, a1: bool, a2: bool, i0: int, i: int, c: int, t: int, y: int, o: seq<Out>)
    requires InGroup(a, b, a1, a2, i0, i, c, t, y, o) && i < |a| && (y < |b| ==> Less(a[i].key, b[y].key))
    ensures InGroup(a, b, a1, a2, i0, i + 1, c, t, c, o)
  {
    hide Printed, Row, Strcmp, Less;
    assert Upto(a[i0].key, a[i].key);
    UptoLess(a[i].key, a[i0].key, a[i].key);
    assert y == t && a[i].key == a[i0].key;
    RowDone(a, b, a1, a2, i, c, t, o);
    RowBegins(a, b, a1, a2, i0, i + 1, c, t, o);
  }

  lemma GroupLeft(a: seq<Line>, b: seq<Line>, a1: bool, a2: bool, i0: int, i: int, c: int, t: int, y: int, o: seq<Out>)
    requires InGroup(a, b, a1, a2, i0, i, c, t, y, o) && (i < |a| ==> y < |b| && Less(b[y].key, a[i].key))
    ensures Apart(a, b, i, t) && Printed(a, b, a1, a2, i, t, [], o)
  {
    if i < |a| {
      if y > c { UptoLess(b[y].key, a[i].key, b[y].key); }
      LeftAtStart(a, b, i0, i, c, t, y);
      GroupBegins2(a, b, i0, i, c, t);
    }
    hide Printed, Row, Strcmp, Less;
    GroupDone(a, b, a1, a2, i0, i, c, t, o);
  }

  // A greater line of file 1 is met at the first line of the group.
  lemma LeftAtStart(a: seq<Line>, b: seq<Line>, i0: int, i: int, c: int, t: int, y: int)
    requires 0 <= i0 < i < |a| && Group(b, c, t, a[i0].key) && c <= y <= t && y < |b| && Less(b[y].key, a[i].key)
    requires y > c ==> a[i].key == a[i0].key
    ensures y == c && Less(a[i0].key, a[i].key)
  {
    hide Less, Strcmp;
    UptoLess(b[y].key, a[i].key, b[y].key);
    UptoLess(a[i0].key, b[y].key, a[i0].key);
  }

  lemma GroupBegins2(a: seq<Line>, b: seq<Line>, i0: int, i: int, c: int, t: int)
    requires Apart(a, b, i0, c) && 0 <= i0 < i < |a|
    ensures Row(a[i], b[..c]) == []
  {
    forall y | 0 <= y < c ensures b[y].key != a[i].key {
      assert Less(b[y].key, a[i].key);
      UptoLess(b[y].key, a[i].key, b[y].key);
    }
    RowNone(a[i], b, c);
  }
}
