// factor.c: trial division by 2, 3, 5, 7 and then by a wheel of 48 steps, over
// exact natural numbers.

module Factor {
  import opened BitStrings

  // sq[], in rows of eight.
  const ROWS: seq<seq<int>> := [
    [10, 2, 4, 2, 4, 6, 2, 6],
    [4, 2, 4, 6, 6, 2, 6, 4],
    [2, 6, 4, 6, 8, 4, 2, 4],
    [2, 4, 8, 6, 4, 6, 2, 4],
    [6, 2, 6, 6, 4, 2, 4, 6],
    [2, 6, 4, 2, 4, 2, 10, 2]
  ]

  function Sq(j: nat): int
    requires j < 48
  {
    ROWS[j / 8][j % 8]
  }

  // ---------- divisors

  predicate Divides(d: int, n: int)
    requires d >= 1
  {
    n % d == 0
  }

  predicate Prime(p: int) {
    p >= 2 && forall d :: 2 <= d < p ==> !Divides(d, p)
  }

  lemma DividesTwice(d: int, e: int, n: int)
    requires d >= 1 && e >= 1 && n >= 0 && Divides(d, e) && Divides(e, n)
    ensures Divides(d, n)
  {
    var a, b := e / d, n / e;
    assert e == a * d && n == b * e;
    assert n == (b * a) * d by { assert b * (a * d) == (b * a) * d; }
    DivUnique(n, d, b * a, 0);
  }

  lemma QuotientDivides(d: int, e: int, n: int)
    requires d >= 1 && e >= 1 && n >= 1 && Divides(e, n) && Divides(d, n / e)
    ensures Divides(d, n)
  {
    var b := n / e;
    assert n == b * e;
    DivUnique(n, b, e, 0) by { Positive(b, e, n); }
    DividesTwice(d, b, n);
  }

  lemma Positive(b: int, e: int, n: int)
    requires n >= 1 && e >= 1 && n == b * e
    ensures b >= 1 && b <= n
  {
    if b > 0 {
      MulAtLeast(e, b);
    } else {
      NotPositive(b, e);
    }
  }

  lemma NotPositive(b: int, e: int)
    requires b <= 0 && e >= 1
    ensures b * e <= 0
  {
    assert (-b) * e >= 0;
  }

  // No divisor from 2 on is less than b.
  predicate NoneBelow(n: int, b: int) {
    forall d :: 2 <= d < b ==> !Divides(d, n)
  }

  // ---------- the wheel

  predicate Coprime(x: int) {
    x % 2 != 0 && x % 3 != 0 && x % 5 != 0 && x % 7 != 0
  }

  // From x to y there is nothing coprime to 210 in between.
  predicate Barren(x: int, y: int)
    decreases y - x
  {
    x + 1 >= y || (!Coprime(x + 1) && Barren(x + 1, y))
  }

  lemma {:induction false} BarrenMeans(x: int, y: int, z: int)
    requires Barren(x, y) && x < z < y
    ensures !Coprime(z)
    decreases y - x
  {
    if x + 1 < z { BarrenMeans(x + 1, y, z); }
  }

  predicate Skips(x: int, y: int) {
    x < y && Coprime(y) && Barren(x, y)
  }

  // From step j on, where the wheel stands at x, it goes from one such number to
  // the next, and ends at 211.
  predicate Turns(j: nat, x: int)
    requires j <= 48
    decreases 48 - j
  {
    if j == 48 then x == 211 else Skips(x, x + Sq(j)) && Turns(j + 1, x + Sq(j))
  }

  lemma Turn(j: nat, x: int, y: int)
    requires j < 48 && Sq(j) == y - x && Skips(x, y) && Turns(j + 1, y)
    ensures Turns(j, x)
  {
  }

  lemma WheelTurns()
    ensures Turns(0, 1)
  {
    hide Turns;
    Part11(); Part10(); Part9(); Part8(); Part7(); Part6();
    Part5(); Part4(); Part3(); Part2(); Part1(); Part0();
  }

  lemma Part0()
    requires Turns(4, 19)
    ensures Turns(0, 1)
  {
    hide Turns;
    Turn(3, 17, 19); Turn(2, 13, 17); Turn(1, 11, 13); Turn(0, 1, 11);
  }

  lemma Part1()
    requires Turns(8, 37)
    ensures Turns(4, 19)
  {
    hide Turns;
    Turn(7, 31, 37); Turn(6, 29, 31); Turn(5, 23, 29); Turn(4, 19, 23);
  }

  lemma Part2()
    requires Turns(12, 53)
    ensures Turns(8, 37)
  {
    hide Turns;
    Turn(11, 47, 53); Turn(10, 43, 47); Turn(9, 41, 43); Turn(8, 37, 41);
  }

  lemma Part3()
    requires Turns(16, 71)
    ensures Turns(12, 53)
  {
    hide Turns;
    Turn(15, 67, 71); Turn(14, 61, 67); Turn(13, 59, 61); Turn(12, 53, 59);
  }

  lemma Part4()
    requires Turns(20, 89)
    ensures Turns(16, 71)
  {
    hide Turns;
    Turn(19, 83, 89); Turn(18, 79, 83); Turn(17, 73, 79); Turn(16, 71, 73);
  }

  lemma Part5()
    requires Turns(24, 107)
    ensures Turns(20, 89)
  {
    hide Turns;
    Turn(23, 103, 107); Turn(22, 101, 103); Turn(21, 97, 101); Turn(20, 89, 97);
  }

  lemma Part6()
    requires Turns(28, 127)
    ensures Turns(24, 107)
  {
    hide Turns;
    Turn(27, 121, 127); Turn(26, 113, 121); Turn(25, 109, 113); Turn(24, 107, 109);
  }

  lemma Part7()
    requires Turns(32, 143)
    ensures Turns(28, 127)
  {
    hide Turns;
    Turn(31, 139, 143); Turn(30, 137, 139); Turn(29, 131, 137); Turn(28, 127, 131);
  }

  lemma Part8()
    requires Turns(36, 163)
    ensures Turns(32, 143)
  {
    hide Turns;
    Turn(35, 157, 163); Turn(34, 151, 157); Turn(33, 149, 151); Turn(32, 143, 149);
  }

  lemma Part9()
    requires Turns(40, 179)
    ensures Turns(36, 163)
  {
    hide Turns;
    Turn(39, 173, 179); Turn(38, 169, 173); Turn(37, 167, 169); Turn(36, 163, 167);
  }

  lemma Part10()
    requires Turns(44, 193)
    ensures Turns(40, 179)
  {
    hide Turns;
    Turn(43, 191, 193); Turn(42, 187, 191); Turn(41, 181, 187); Turn(40, 179, 181);
  }

  lemma Part11()
    ensures Turns(44, 193)
  {
    assert Turns(48, 211);
    hide Turns;
    Turn(47, 209, 211); Turn(46, 199, 209); Turn(45, 197, 199); Turn(44, 193, 197);
  }

  // ---------- trial division

  function Product(s: seq<int>): int {
    if |s| == 0 then 1 else Product(s[..|s| - 1]) * s[|s| - 1]
  }

  // out has been split off n, nn is left.
  predicate SplitOff(out: seq<int>, nn: int, n: int, last: int) {
    nn >= 1 && Product(out) * nn == n && (forall i :: 0 <= i < |out| ==> Prime(out[i]) && out[i] <= last) &&
    forall i, j :: 0 <= i < j < |out| ==> out[i] <= out[j]
  }

  lemma Divided(out: seq<int>, nn: int, n: int, last: int, p: int, b: int)
    requires SplitOff(out, nn, n, last) && last <= p && p >= 2 && Divides(p, nn) && NoneBelow(nn, b) && NoneBelow(nn, p)
    ensures 1 <= nn / p < nn && SplitOff(out + [p], nn / p, n, p) && NoneBelow(nn / p, b)
  {
    var q := nn / p;
    assert nn == q * p;
    Positive(q, p, nn);
    Smaller(q, p);
    IsPrime(nn, p);
    StillNone(nn, p, b);
    hide Prime, NoneBelow, Divides;
    assert (out + [p])[..|out|] == out;
    Regroup(Product(out), q, p);
  }

  lemma Regroup(a: int, q: int, p: int)
    ensures (a * p) * q == a * (q * p)
  {
  }

  lemma Smaller(q: int, p: int)
    requires q >= 1 && p >= 2
    ensures q < q * p
  {
    MulAtLeast(p - 1, q);
    assert q * p == q + (p - 1) * q;
  }

  lemma IsPrime(nn: int, p: int)
    requires nn >= 1 && p >= 2 && Divides(p, nn) && NoneBelow(nn, p)
    ensures Prime(p)
  {
    forall d | 2 <= d < p ensures !Divides(d, p) {
      if Divides(d, p) { DividesTwice(d, p, nn); }
    }
  }

  lemma StillNone(nn: int, p: int, b: int)
    requires nn >= 1 && p >= 2 && Divides(p, nn) && NoneBelow(nn, b)
    ensures NoneBelow(nn / p, b)
  {
    forall d | 2 <= d < b ensures !Divides(d, nn / p) {
      if Divides(d, nn / p) { QuotientDivides(d, p, nn); }
    }
  }

  // A number that 2, 3, 5 or 7 divides is no divisor when these are not.
  lemma NotComposite(nn: int, b: int, z: int, p: int)
    requires nn >= 1 && NoneBelow(nn, b) && 2 <= p < b && z >= 1 && Divides(p, z)
    ensures !Divides(z, nn)
  {
    if Divides(z, nn) { DividesTwice(p, z, nn); }
  }

  lemma UpToNext(nn: int, ii: int, y: int)
    requires nn >= 1 && NoneBelow(nn, if ii < 11 then 11 else ii + 1) && 1 <= ii < y
    requires forall z :: ii < z < y ==> !Coprime(z)
    ensures NoneBelow(nn, y) || y <= 11
  {
    forall z | ii < z < y ensures z >= 11 ==> !Divides(z, nn) {
      assert !Coprime(z);
      var p := if z % 2 == 0 then 2 else if z % 3 == 0 then 3 else if z % 5 == 0 then 5 else 7;
      NotComposite(nn, 11, z, p);
    }
  }

  // The wheel stands on numbers that are coprime to 210, and misses none.
  lemma WheelNext(j: nat, x: int, q: nat, ii: int)
    requires j < 48 && Turns(j, x) && ii == x + 210 * q
    ensures Turns(j + 1, x + Sq(j)) && Sq(j) >= 1 && Coprime(ii + Sq(j))
    ensures forall z :: ii < z < ii + Sq(j) ==> !Coprime(z)
  {
    hide *;
    var d := Sq(j);
    TurnMeans(j, x);
    SameResidues(x + d, q);
    forall z | ii < z < ii + d ensures !Coprime(z) {
      var r := z - 210 * q;
      BarrenMeans(x, x + d, r);
      SameResidues(r, q);
    }
  }

  lemma TurnMeans(j: nat, x: int)
    requires j < 48 && Turns(j, x)
    ensures Turns(j + 1, x + Sq(j)) && Sq(j) >= 1 && Coprime(x + Sq(j)) && Barren(x, x + Sq(j))
  {
    hide Coprime, Barren, Sq;
  }

  // The residues do not change from round to round.
  lemma SameResidues(r: int, q: nat)
    ensures Coprime(r + 210 * q) == Coprime(r)
  {
    DivUnique(r + 210 * q, 2, r / 2 + 105 * q, r % 2);
    DivUnique(r + 210 * q, 3, r / 3 + 70 * q, r % 3);
    DivUnique(r + 210 * q, 5, r / 5 + 42 * q, r % 5);
    DivUnique(r + 210 * q, 7, r / 7 + 30 * q, r % 7);
  }

  // ii > 1 + sqrt(nn), and nothing up to ii divides nn.
  lemma RestIsPrime(nn: int, ii: int)
    requires nn > 1 && ii >= 1 && (ii - 1) * (ii - 1) > nn && NoneBelow(nn, ii + 1)
    ensures Prime(nn) && nn > ii
  {
    assert Divides(nn, nn) by { DivUnique(nn, nn, 1, 0); }
    forall d | 2 <= d < nn ensures !Divides(d, nn) {
      if Divides(d, nn) {
        var e := nn / d;
        assert nn == e * d;
        Positive(e, d, nn);
        DivUnique(nn, e, d, 0);
        assert Divides(e, nn) && e != 1;
        Bigger(d, e, ii);
      }
    }
  }

  lemma Bigger(d: int, e: int, ii: int)
    requires d > ii >= 1 && e > ii
    ensures e * d > (ii - 1) * (ii - 1)
  {
    assert e * d == (e - ii) * d + ii * d && ii * d == ii * (d - ii) + ii * ii;
    MulAtLeast(e - ii, d);
    MulAtLeast(d - ii, ii);
    assert (ii - 1) * (ii - 1) == ii * ii - 2 * ii + 1;
  }

  // ii <= vv, where vv is 1 + sqrt(nn).
  predicate AtMostRoot(ii: int, nn: int) {
    (ii - 1) * (ii - 1) <= nn
  }

  lemma OneFits(nn: int)
    requires nn >= 1
    ensures AtMostRoot(1, nn)
  {
  }

  lemma Without(nn: int, z: int, p: int)
    requires nn >= 1 && NoneBelow(nn, z) && 2 <= p < z && Divides(p, z)
    ensures NoneBelow(nn, z + 1)
  {
    NotComposite(nn, z, z, p);
  }

  lemma LargerLast(out: seq<int>, nn: int, n: int, last: int, last': int)
    requires SplitOff(out, nn, n, last) && last <= last'
    ensures SplitOff(out, nn, n, last') && nn >= 1
  {
  }

  lemma NotDivided(nn: int, arg: int)
    requires NoneBelow(nn, arg) && arg >= 2 && nn % arg != 0
    ensures NoneBelow(nn, arg + 1)
  {
  }

  // A number that the loop still tries is not larger than n + 1.
  lemma Square(ii: int, nn: int)
    requires ii >= 1 && AtMostRoot(ii, nn)
    ensures ii <= nn + 1
  {
    if ii > 1 { MulAtLeast(ii - 1, ii - 1); }
  }

  lemma Last(out: seq<int>, nn: int, n: int, last: int, ii: int)
    requires SplitOff(out, nn, n, last) && last <= ii && !AtMostRoot(ii, nn) && ii >= 1
    requires NoneBelow(nn, if ii < 11 then 11 else ii + 1)
    ensures Factors(n, if nn > 1 then out + [nn] else out)
  {
    if nn > 1 {
      RestIsPrime(nn, ii);
      assert (out + [nn])[..|out|] == out;
    }
  }

  // The prime factors of n in order.
  predicate Factors(n: int, out: seq<int>) {
    Product(out) == n && (forall i :: 0 <= i < |out| ==> Prime(out[i])) && forall i, j :: 0 <= i < j < |out| ==> out[i] <= out[j]
  }

  lemma Start(n: int)
    requires n >= 1
    ensures SplitOff([], n, n, 2) && NoneBelow(n, 2)
  {
  }

  class Factor {
    var nn: int
    var out: seq<int>    // what has been printed

    // factor.c:92-105, and the loop at retry in main().
    method Try(arg: int, ghost n: int, ghost last: int)
      requires arg >= 2 && last <= arg && SplitOff(out, nn, n, last) && NoneBelow(nn, arg)
      modifies this
      ensures SplitOff(out, nn, n, arg) && NoneBelow(nn, arg + 1) && 1 <= nn <= old(nn)
    {
      LargerLast(out, nn, n, last, arg);
      hide SplitOff, NoneBelow;
      while nn % arg == 0
        invariant SplitOff(out, nn, n, arg) && NoneBelow(nn, arg) && 1 <= nn <= old(nn)
        decreases nn
      {
        Divided(out, nn, n, arg, arg, arg);
        out := out + [arg];
        nn := nn / arg;
      }
      NotDivided(nn, arg);
    }

    // factor.c:66-87, for an integer from 1 on: its prime factors, in order.
    method Factorize(n: int)
      requires n >= 1
      modifies this
      ensures Factors(n, out)
    {
      hide Turns, SplitOff, NoneBelow, AtMostRoot, Factors;
      nn, out := n, [];
      Start(n);
      Small(n);
      var ii := 1;
      ghost var q, last := 0, 7;
      WheelTurns();
      while AtMostRoot(ii, nn)
        invariant ii == 1 + 210 * q && q >= 0 && 1 <= nn <= n
        invariant last == (if ii < 11 then 7 else ii) && SplitOff(out, nn, n, last) && NoneBelow(nn, if ii < 11 then 11 else ii + 1)
        decreases n + 2 - ii
      {
        Square(ii, nn);
        ii, last := Round(n, ii, q, last);
        q := q + 1;
      }
      OneFits(nn);
      Last(out, nn, n, last, ii);
      if nn > 1 {
        out := out + [nn];
      }
    }

    // factor.c:67-70.
    method Small(n: int)
      requires SplitOff(out, nn, n, 2) && NoneBelow(nn, 2)
      modifies this
      ensures SplitOff(out, nn, n, 7) && NoneBelow(nn, 11) && 1 <= nn <= old(nn)
    {
      hide SplitOff, NoneBelow;
      Try(2, n, 2);
      Try(3, n, 2);
      Without(nn, 4, 2);
      Try(5, n, 3);
      Without(nn, 6, 2);
      Try(7, n, 5);
      Without(nn, 8, 2);
      Without(nn, 9, 3);
      Without(nn, 10, 2);
    }

    // factor.c:73-83: once round the wheel.
    method Round(n: int, ii0: int, ghost q: int, ghost last0: int) returns (ii: int, ghost last: int)
      requires ii0 == 1 + 210 * q && q >= 0 && nn >= 1 && Turns(0, 1) && last0 == if ii0 < 11 then 7 else ii0
      requires SplitOff(out, nn, n, last0) && NoneBelow(nn, if ii0 < 11 then 11 else ii0 + 1)
      modifies this
      ensures ii == ii0 + 210 && last == ii && SplitOff(out, nn, n, last) && NoneBelow(nn, ii + 1) && 1 <= nn <= old(nn)
    {
      hide Turns, SplitOff, NoneBelow, Coprime, Sq;
      ghost var x := 1;
      ii, last := ii0, last0;
      for j := 0 to 48
        invariant ii == x + 210 * q && Turns(j, x) && ii >= ii0 + j && 1 <= nn <= old(nn) && x >= 1 && (j > 0 ==> ii >= 11)
        invariant last == (if ii < 11 then 7 else ii) && SplitOff(out, nn, n, last)
        invariant NoneBelow(nn, if ii < 11 then 11 else ii + 1)
      {
        WheelNext(j, x, q, ii);
        FirstStep(j);
        UpToNext(nn, ii, ii + Sq(j));
        ii := ii + Sq(j);
        x := x + Sq(j);
        Try(ii, n, last);
        last := ii;
      }
      LastPlace(x);
    }
  }

  lemma FirstStep(j: nat)
    requires j < 48
    ensures j == 0 ==> Sq(j) == 10
  {
  }

  lemma LastPlace(x: int)
    requires Turns(48, x)
    ensures x == 211
  {
  }
}
