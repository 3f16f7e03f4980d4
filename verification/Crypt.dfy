// crypt.c: the rotors that setup() builds from random bytes, and the machine.

module Crypt {
  import opened Permutations

  const ROTORSZ := 256

  // c & MASK, and a character made of an int.
  function Mask(c: int): (r: int)
    ensures 0 <= r < ROTORSZ
  {
    c % ROTORSZ
  }

  // ---------- what the rotors are

  predicate Bytes(t: seq<int>) {
    |t| == ROTORSZ && forall i :: 0 <= i < ROTORSZ ==> 0 <= t[i] < ROTORSZ
  }

  // t1 takes every byte to another byte of its own.
  predicate Permutation(t: seq<int>) {
    Bytes(t) && Distinct(t)
  }

  // t2 undoes t1, and t1 undoes t2.
  predicate Inverse(t1: seq<int>, t2: seq<int>) {
    Bytes(t1) && Bytes(t2) && forall i :: 0 <= i < ROTORSZ ==> t2[t1[i]] == i && t1[t2[i]] == i
  }

  // t3 exchanges the bytes in pairs.
  predicate Reflector(t: seq<int>) {
    Bytes(t) && forall i :: 0 <= i < ROTORSZ ==> t[i] != i && t[t[i]] == i
  }

  // ---------- setup(): t1

  lemma SwapPermutation(t: seq<int>, i: int, j: int)
    requires Permutation(t) && 0 <= i < ROTORSZ && 0 <= j < ROTORSZ
    ensures Permutation(t[i := t[j]][j := t[i]])
  {
    var u := t[i := t[j]][j := t[i]];
    forall x, y | 0 <= x < y < ROTORSZ ensures u[x] != u[y] {
      var x', y' := if x == i then j else if x == j then i else x, if y == i then j else if y == j then i else y;
      assert u[x] == t[x'] && u[y] == t[y'] && x' != y';
    }
  }

  // Where byte x goes when the first n exchanges are made, the last one first:
  // the i-th is between 255 - i and the place that its random byte names below.
  function Product(random: seq<(int, int)>, n: nat, x: int): int
    requires n <= |random| && n <= ROTORSZ
  {
    if n == 0 then x
    else
      var k := ROTORSZ - n;
      var ic := random[n - 1].0 % (k + 1);
      Product(random, n - 1, if x == k then ic else if x == ic then k else x)
  }

  predicate Exchanged(t: seq<int>, random: seq<(int, int)>, n: nat) {
    |t| == |random| == ROTORSZ && n <= ROTORSZ && forall x :: 0 <= x < ROTORSZ ==> t[x] == Product(random, n, x)
  }

  lemma ExchangeMore(t: seq<int>, random: seq<(int, int)>, n: nat, k: int, ic: int)
    requires Exchanged(t, random, n) && n < ROTORSZ && k == ROTORSZ - 1 - n && ic == random[n].0 % (k + 1)
    ensures Exchanged(t[k := t[ic]][ic := t[k]], random, n + 1)
  {
  }

  // The top byte is the one that the first random byte names; no later exchange
  // moves it.
  lemma {:induction false} TopByte(random: seq<(int, int)>, n: nat)
    requires 1 <= n <= ROTORSZ == |random| && forall i :: 0 <= i < ROTORSZ ==> 0 <= random[i].0 < ROTORSZ
    ensures Product(random, n, ROTORSZ - 1) == random[0].0
  {
    if n == 1 {
      assert random[0].0 % ROTORSZ == random[0].0;
      assert Product(random, 0, random[0].0) == random[0].0;
    } else {
      TopByte(random, n - 1);
    }
  }

  lemma Onto(t: seq<int>, v: int) returns (i: int)
    requires Permutation(t) && 0 <= v < ROTORSZ
    ensures 0 <= i < ROTORSZ && t[i] == v
  {
    AllSlots(t, ROTORSZ, v);
    i :| 0 <= i < ROTORSZ && t[i] == v;
  }

  lemma InverseMade(t1: seq<int>, t2: seq<int>)
    requires Permutation(t1) && |t2| == ROTORSZ && forall i :: 0 <= i < ROTORSZ ==> t2[t1[i]] == i
    ensures Inverse(t1, t2)
  {
    forall v | 0 <= v < ROTORSZ ensures 0 <= t2[v] < ROTORSZ && t1[t2[v]] == v {
      var i := Onto(t1, v);
      assert t2[t1[i]] == i;
    }
  }

  // ---------- setup(): t3

  // How many of the first n are set.
  function Ones(p: seq<bool>, n: nat): (c: nat)
    requires n <= |p|
    ensures c <= n
  {
    if n == 0 then 0 else Ones(p, n - 1) + if p[n - 1] then 1 else 0
  }

  lemma {:induction false} OnesSet(p: seq<bool>, k: nat, n: nat)
    requires k < |p| && n <= |p| && !p[k]
    ensures Ones(p[k := true], n) == Ones(p, n) + if k < n then 1 else 0
  {
    if n > 0 { OnesSet(p, k, n - 1); }
  }

  lemma {:induction false} OnesAll(p: seq<bool>, m: nat, n: nat)
    requires m <= n <= |p| && forall x :: m <= x < n ==> p[x]
    ensures Ones(p, n) == Ones(p, m) + (n - m)
    decreases n
  {
    if m < n { OnesAll(p, m, n - 1); }
  }

  lemma {:induction false} OnesNone(p: seq<bool>, n: nat)
    requires n <= |p| && forall x :: 0 <= x < n ==> !p[x]
    ensures Ones(p, n) == 0
  {
    if n > 0 { OnesNone(p, n - 1); }
  }

  // Those above k have a partner; where 0 stands for none, below k.
  predicate Pairing(t: seq<int>, p: seq<bool>, k: int) {
    |t| == |p| == ROTORSZ && -1 <= k < ROTORSZ && Ones(p, ROTORSZ) % 2 == 0 &&
    (forall x :: k < x < ROTORSZ ==> p[x]) &&
    (forall x :: 0 <= x <= k ==> (p[x] <==> t[x] != 0) && (p[x] <==> t[x] > k)) &&
    forall x :: 0 <= x < ROTORSZ && p[x] ==> 0 <= t[x] < ROTORSZ && t[x] != x && p[t[x]] && t[t[x]] == x
  }

  lemma PairingSize(t: seq<int>, p: seq<bool>, k: int)
    requires Pairing(t, p, k)
    ensures |t| == |p| == ROTORSZ
  {
  }

  lemma NoPairs(t: seq<int>, p: seq<bool>)
    requires |t| == |p| == ROTORSZ && forall x :: 0 <= x < ROTORSZ ==> t[x] == 0 && !p[x]
    ensures Pairing(t, p, ROTORSZ - 1)
  {
    OnesNone(p, ROTORSZ);
  }

  lemma Alone(p: seq<bool>, k: nat)
    requires |p| == ROTORSZ && k < ROTORSZ && !p[k] && forall x :: 0 <= x < ROTORSZ && x != k ==> p[x]
    ensures Ones(p, ROTORSZ) == ROTORSZ - 1
  {
    OnesAll(p, 0, k);
    OnesAll(p, k + 1, ROTORSZ);
    assert Ones(p, k + 1) == Ones(p, k);
  }

  // Whoever is without a partner is not the only one.
  lemma Another(t: seq<int>, p: seq<bool>, k: int) returns (x: int)
    requires Pairing(t, p, k) && 0 <= k && t[k] == 0
    ensures 0 <= x < k && t[x] == 0
  {
    if forall y :: 0 <= y < k ==> p[y] {
      Alone(p, k);
      assert false;
    }
    x :| 0 <= x < k && !p[x];
  }

  lemma Skip(t: seq<int>, p: seq<bool>, k: int)
    requires Pairing(t, p, k) && 0 <= k && t[k] != 0
    ensures Pairing(t, p, k - 1)
  {
  }

  lemma PairOff(t: seq<int>, p: seq<bool>, k: int, x: int)
    requires Pairing(t, p, k) && 0 <= x < k && t[k] == 0 && t[x] == 0
    ensures Pairing(t[k := x][x := k], p[k := true][x := true], k - 1)
  {
    var t', p' := t[k := x][x := k], p[k := true][x := true];
    OnesSet(p, k, ROTORSZ);
    OnesSet(p[k := true], x, ROTORSZ);
    hide Ones;
    assert forall y :: 0 <= y < ROTORSZ && y != k && y != x ==> t'[y] == t[y] && p'[y] == p[y];
    forall y | 0 <= y < ROTORSZ && p'[y] ensures 0 <= t'[y] < ROTORSZ && t'[y] != y && p'[t'[y]] && t'[t'[y]] == y {
      if y != k && y != x { assert p[y] && t[y] != k && t[y] != x; }
    }
  }

  // Everyone above low who has a partner below has got the first one free then,
  // from the place on that the random byte names: all before were with a higher one.
  predicate Drawn(t: seq<int>, random: seq<(int, int)>, low: int) {
    |t| == |random| == ROTORSZ &&
    forall k, y :: 0 <= y < k < ROTORSZ && low < k && t[k] < k && Passed(random[ROTORSZ - 1 - k].1 % k, t[k], y) ==> t[y] > k
  }

  // Going on from i, and from 0 at the end, y is passed before r is met.
  predicate Passed(i: int, r: int, y: int) {
    if i <= r then i <= y < r else i <= y || y < r
  }

  lemma DrawnSkip(t: seq<int>, p: seq<bool>, random: seq<(int, int)>, k: int)
    requires Pairing(t, p, k) && Drawn(t, random, k) && 0 <= k && t[k] != 0
    ensures Drawn(t, random, k - 1)
  {
  }

  lemma DrawnMore(t: seq<int>, p: seq<bool>, random: seq<(int, int)>, k: int, x: int)
    requires Pairing(t, p, k) && Drawn(t, random, k) && 0 <= x < k && t[k] == 0 && t[x] == 0
    requires forall y :: 0 <= y < k && Passed(random[ROTORSZ - 1 - k].1 % k, x, y) ==> t[y] != 0
    ensures Drawn(t[k := x][x := k], random, k - 1)
  {
    var t' := t[k := x][x := k];
    forall z, y | 0 <= y < z < ROTORSZ && k - 1 < z && t'[z] < z && Passed(random[ROTORSZ - 1 - z].1 % z, t'[z], y)
      ensures t'[y] > z
    {
      if z == k {
        assert t[y] != 0;
      } else {
        assert t[z] == t'[z] && t[y] > z;
      }
    }
  }

  lemma AllPaired(t: seq<int>, p: seq<bool>)
    requires Pairing(t, p, -1)
    ensures Reflector(t)
  {
  }

  // The next one of k.
  function Around(i: int, k: int): (r: int)
    requires 0 <= i < k
    ensures r == if i + 1 == k then 0 else i + 1
  {
    (i + 1) % k
  }

  // ---------- the machine

  // One letter, with the rotors at n1 and n2.
  function Turn(t1: seq<int>, t2: seq<int>, t3: seq<int>, n1: int, n2: int, c: int): (r: int)
    requires Bytes(t1) && Bytes(t2) && Bytes(t3)
    ensures 0 <= r < ROTORSZ
  {
    Mask(t2[Mask(t3[Mask(t1[Mask(c + n1)] + n2)] - n2)] - n1)
  }

  lemma AddBack(a: int, n: int)
    requires 0 <= a < ROTORSZ
    ensures Mask(Mask(a - n) + n) == a && Mask(Mask(a + n) - n) == a
  {
    MaskTurns(a - n);
    MaskTurns(a + n);
    hide Mask;
    MaskBack(a, (a - n) / ROTORSZ);
    MaskBack(a, (a + n) / ROTORSZ);
  }

  lemma MaskTurns(c: int)
    ensures Mask(c) == c - ROTORSZ * (c / ROTORSZ)
  {
  }

  lemma MaskBack(a: int, turns: int)
    requires 0 <= a < ROTORSZ
    ensures Mask(a - ROTORSZ * turns) == a
  {
  }

  // The machine undoes itself, and changes every letter.
  lemma TurnTwice(t1: seq<int>, t2: seq<int>, t3: seq<int>, n1: int, n2: int, c: int)
    requires Inverse(t1, t2) && Reflector(t3) && 0 <= c < ROTORSZ
    ensures Turn(t1, t2, t3, n1, n2, Turn(t1, t2, t3, n1, n2, c)) == c
    ensures Turn(t1, t2, t3, n1, n2, c) != c
  {
    hide *;
    SomeByte(c);
    AllBytes(t1, t2, t3);
    var a := Mask(c + n1);
    InverseAt(t1, t2, a);
    var x := t1[a];
    var b := Mask(x + n2);
    ReflectorAt(t3, b);
    var y := t3[b];
    var e := Mask(y - n2);
    InverseAt(t1, t2, e);
    var z := t2[e];
    var d := Mask(z - n1);
    TurnIs(t1, t2, t3, n1, n2, c);
    TurnIs(t1, t2, t3, n1, n2, d);
    AddBack(z, n1);
    AddBack(y, n2);
    AddBack(x, n2);
    AddBack(c, n1);
  }

  lemma SomeByte(c: int)
    requires 0 <= c < ROTORSZ
    ensures ROTORSZ > 0
  {
  }

  lemma AllBytes(t1: seq<int>, t2: seq<int>, t3: seq<int>)
    requires Inverse(t1, t2) && Reflector(t3)
    ensures Bytes(t1) && Bytes(t2) && Bytes(t3) && |t1| == |t2| == |t3| == ROTORSZ
  {
  }

  lemma InverseAt(t1: seq<int>, t2: seq<int>, i: int)
    requires Inverse(t1, t2) && 0 <= i < ROTORSZ
    ensures |t1| == |t2| == ROTORSZ && 0 <= t1[i] < ROTORSZ && 0 <= t2[i] < ROTORSZ && t2[t1[i]] == i && t1[t2[i]] == i
  {
  }

  lemma ReflectorAt(t: seq<int>, i: int)
    requires Reflector(t) && 0 <= i < ROTORSZ
    ensures |t| == ROTORSZ && 0 <= t[i] < ROTORSZ && t[t[i]] == i && t[i] != i
  {
  }

  lemma TurnIs(t1: seq<int>, t2: seq<int>, t3: seq<int>, n1: int, n2: int, c: int)
    requires Bytes(t1) && Bytes(t2) && Bytes(t3) && |t1| == |t2| == |t3| == ROTORSZ
    ensures
      var a := Mask(c + n1);
      var b := Mask(t1[a] + n2);
      var e := Mask(t3[b] - n2);
      Turn(t1, t2, t3, n1, n2, c) == Mask(t2[e] - n1)
  {
    hide Mask;
  }

  // The whole text, from position pos on: the rotors stand where they would stand
  // had the text begun at 0.
  function Machine(t1: seq<int>, t2: seq<int>, t3: seq<int>, text: seq<int>, pos: nat): (r: seq<int>)
    requires Bytes(t1) && Bytes(t2) && Bytes(t3)
    ensures |r| == |text| && forall i :: 0 <= i < |r| ==> 0 <= r[i] < ROTORSZ
  {
    seq(|text|, i requires 0 <= i < |text| => Turn(t1, t2, t3, (pos + i) % ROTORSZ, (pos + i) / ROTORSZ % ROTORSZ, text[i]))
  }

  // Byte i goes through t1, t3 and back through t2, with the first rotor i places
  // on and the second one place for every turn of the first.
  lemma MachineIs(t1: seq<int>, t2: seq<int>, t3: seq<int>, text: seq<int>, pos: nat, i: nat)
    requires Bytes(t1) && Bytes(t2) && Bytes(t3) && i < |text|
    ensures
      var n1, n2 := (pos + i) % 256, (pos + i) / 256 % 256;
      Machine(t1, t2, t3, text, pos)[i] == (t2[(t3[(t1[(text[i] + n1) % 256] + n2) % 256] - n2) % 256] - n1) % 256
  {
    TurnIs(t1, t2, t3, (pos + i) % ROTORSZ, (pos + i) / ROTORSZ % ROTORSZ, text[i]);
    hide Turn;
  }

  // Any text encrypted twice with one key is itself again; and no byte of it
  // stays what it was the first time.
  lemma MachineTwice(t1: seq<int>, t2: seq<int>, t3: seq<int>, text: seq<int>, pos: nat)
    requires Inverse(t1, t2) && Reflector(t3) && forall i :: 0 <= i < |text| ==> 0 <= text[i] < ROTORSZ
    ensures Machine(t1, t2, t3, Machine(t1, t2, t3, text, pos), pos) == text
    ensures forall i :: 0 <= i < |text| ==> Machine(t1, t2, t3, text, pos)[i] != text[i]
  {
    forall i | 0 <= i < |text|
      ensures Machine(t1, t2, t3, Machine(t1, t2, t3, text, pos), pos)[i] == text[i]
      ensures Machine(t1, t2, t3, text, pos)[i] != text[i]
    {
      hide Turn;
      TurnTwice(t1, t2, t3, (pos + i) % ROTORSZ, (pos + i) / ROTORSZ % ROTORSZ, text[i]);
    }
  }

  class Crypt {
    const t1: array<int>
    const t2: array<int>
    const t3: array<int>

    constructor ()
      ensures t1.Length == t2.Length == t3.Length == ROTORSZ && fresh(t1) && fresh(t2) && fresh(t3)
      ensures t1 != t2 && t1 != t3 && t2 != t3
    {
      t1 := new int[ROTORSZ](_ => 0);
      t2 := new int[ROTORSZ](_ => 0);
      t3 := new int[ROTORSZ](_ => 0);
    }

    ghost predicate Ready()
      reads t1, t2, t3
    {
      t1.Length == t2.Length == t3.Length == ROTORSZ && Permutation(t1[..]) && Inverse(t1[..], t2[..]) && Reflector(t3[..])
    }

    // crypt.c:38-58, with the two random bytes of every step given.
    method Setup(random: seq<(int, int)>)
      requires t1.Length == t2.Length == t3.Length == ROTORSZ && t1 != t2 && t1 != t3 && t2 != t3
      requires |random| == ROTORSZ && forall i :: 0 <= i < ROTORSZ ==> 0 <= random[i].0 < ROTORSZ && 0 <= random[i].1 < ROTORSZ
      modifies t1, t2, t3
      ensures Ready()
      ensures forall x :: 0 <= x < ROTORSZ ==> t1[x] == Product(random, ROTORSZ, x)
      ensures forall k, y :: 0 <= y < k < ROTORSZ && t3[k] < k && Passed(random[ROTORSZ - 1 - k].1 % k, t3[k], y) ==> t3[y] > k
    {
      hide Permutation, Pairing, Inverse, Reflector, Exchanged, Drawn, Passed, Product;
      for i := 0 to ROTORSZ
        invariant forall x :: 0 <= x < i ==> t1[x] == x && t3[x] == 0
      {
        t1[i] := i;
        t3[i] := 0;
      }
      ghost var p := seq(ROTORSZ, _ => false);
      NoPairs(t3[..], p);
      IsPermutation(t1[..]);
      NothingDrawn(t1[..], t3[..], random);
      for i := 0 to ROTORSZ
        invariant Permutation(t1[..]) && Pairing(t3[..], p, ROTORSZ - 1 - i)
        invariant Exchanged(t1[..], random, i) && Drawn(t3[..], random, ROTORSZ - 1 - i)
      {
        p := Step(ROTORSZ - 1 - i, random[i].0, random[i].1, p, random);
      }
      AllPaired(t3[..], p);
      Range(t1[..]);
      ghost var r1, r3 := t1[..], t3[..];
      for i := 0 to ROTORSZ
        invariant forall x :: 0 <= x < i ==> t2[t1[x]] == x
        modifies t2
      {
        t2[t1[i]] := i;
      }
      assert t1[..] == r1 && t3[..] == r3;
      InverseMade(t1[..], t2[..]);
      AllDrawn(r1, r3, random);
    }

    // crypt.c:45-55: one step down.
    method Step(k: int, random0: int, random1: int, ghost p: seq<bool>, ghost random: seq<(int, int)>) returns (ghost p': seq<bool>)
      requires t1.Length == t3.Length == ROTORSZ && t1 != t3 && 0 <= k < ROTORSZ && random0 >= 0 && random1 >= 0
      requires Permutation(t1[..]) && Pairing(t3[..], p, k)
      requires Exchanged(t1[..], random, ROTORSZ - 1 - k) && Drawn(t3[..], random, k)
      requires |random| == ROTORSZ && random[ROTORSZ - 1 - k] == (random0, random1)
      modifies t1, t3
      ensures Permutation(t1[..]) && Pairing(t3[..], p', k - 1)
      ensures Exchanged(t1[..], random, ROTORSZ - k) && Drawn(t3[..], random, k - 1)
    {
      hide Permutation, Pairing, Exchanged, Drawn, Passed;
      var ic := random0 % (k + 1);
      ghost var was, t := t1[..], t3[..];
      SwapPermutation(was, k, ic);
      ExchangeMore(was, random, ROTORSZ - 1 - k, k, ic);
      var temp := t1[k];
      t1[k] := t1[ic];
      t1[ic] := temp;
      assert t1[..] == was[k := was[ic]][ic := was[k]];
      p' := p;
      if t3[k] != 0 {
        Skip(t3[..], p, k);
        DrawnSkip(t3[..], p, random, k);
        return;
      }
      ic := Partner(k, random1, p);
      PairOff(t, p, k, ic);
      DrawnMore(t, p, random, k, ic);
      t3[k] := ic;
      t3[ic] := k;
      assert t3[..] == t[k := ic][ic := k];
      PairingSize(t, p, k);
      p' := p[k := true][ic := true];
    }

    // crypt.c:52-53: someone below k without a partner.
    method Partner(k: int, random: int, ghost p: seq<bool>) returns (ic: int)
      requires t3.Length == ROTORSZ && 0 <= k < ROTORSZ && Pairing(t3[..], p, k) && t3[k] == 0 && random >= 0
      ensures 0 <= ic < k && t3[ic] == 0
      ensures forall y :: 0 <= y < k && Passed(random % k, ic, y) ==> t3[y] != 0
    {
      ghost var x := Another(t3[..], p, k);
      ic := random % k;
      hide Pairing, Around;
      while t3[ic] != 0
        invariant 0 <= ic < k && forall y :: 0 <= y < k && Passed(random % k, ic, y) ==> t3[y] != 0
        decreases if x >= ic then x - ic else x - ic + k
      {
        ic := Around(ic, k);
      }
    }

    // crypt.c:107-127 and 134-145: from the position on that the offset gives. A
    // stream is the block that begins at 0.
    method Encrypt(offset: nat, text: seq<int>) returns (out: seq<int>)
      requires Ready()
      ensures out == Machine(t1[..], t2[..], t3[..], text, offset)
    {
      hide Permutation, Inverse, Reflector, Machine;
      RotorBytes(t1[..], t2[..], t3[..]);
      var n1, n2 := offset % ROTORSZ, offset / ROTORSZ % ROTORSZ;
      out := [];
      for i := 0 to |text|
        invariant n1 == (offset + i) % ROTORSZ && n2 == (offset + i) / ROTORSZ % ROTORSZ
        invariant out == Machine(t1[..], t2[..], t3[..], text, offset)[..i]
      {
        out := out + [Mask(t2[Mask(t3[Mask(t1[Mask(text[i] + n1)] + n2)] - n2)] - n1)];
        MachineAt(t1[..], t2[..], t3[..], text, offset, i, n1, n2);
        RotorsOn(offset + i);
        n1 := n1 + 1;
        if n1 == ROTORSZ {
          n1 := 0;
          n2 := n2 + 1;
          if n2 == ROTORSZ {
            n2 := 0;
          }
        }
      }
    }
  }

  lemma MachineAt(t1: seq<int>, t2: seq<int>, t3: seq<int>, text: seq<int>, pos: nat, i: nat, n1: int, n2: int)
    requires Bytes(t1) && Bytes(t2) && Bytes(t3) && i < |text| && n1 == (pos + i) % ROTORSZ && n2 == (pos + i) / ROTORSZ % ROTORSZ
    ensures Machine(t1, t2, t3, text, pos)[..i + 1] ==
      Machine(t1, t2, t3, text, pos)[..i] + [Mask(t2[Mask(t3[Mask(t1[Mask(text[i] + n1)] + n2)] - n2)] - n1)]
  {
  }

  // How the rotors go on.
  lemma RotorsOn(pos: nat)
    ensures
      var n1, n2 := pos % ROTORSZ, pos / ROTORSZ % ROTORSZ;
      (pos + 1) % ROTORSZ == (if n1 + 1 == ROTORSZ then 0 else n1 + 1) &&
      (pos + 1) / ROTORSZ % ROTORSZ == if n1 + 1 < ROTORSZ then n2 else if n2 + 1 == ROTORSZ then 0 else n2 + 1
  {
    NextTurn(pos);
    NextTurn(pos / ROTORSZ);
  }

  lemma NextTurn(n: nat)
    ensures (n + 1) % ROTORSZ == (if n % ROTORSZ + 1 == ROTORSZ then 0 else n % ROTORSZ + 1)
    ensures (n + 1) / ROTORSZ == n / ROTORSZ + if n % ROTORSZ + 1 == ROTORSZ then 1 else 0
  {
  }

  lemma NothingDrawn(t1: seq<int>, t3: seq<int>, random: seq<(int, int)>)
    requires |t1| == |t3| == |random| == ROTORSZ && forall x :: 0 <= x < ROTORSZ ==> t1[x] == x
    ensures Exchanged(t1, random, 0) && Drawn(t3, random, ROTORSZ - 1)
  {
  }

  lemma AllDrawn(t1: seq<int>, t3: seq<int>, random: seq<(int, int)>)
    requires Exchanged(t1, random, ROTORSZ) && Drawn(t3, random, -1)
    ensures |t1| == |t3| == |random| == ROTORSZ && forall x :: 0 <= x < ROTORSZ ==> t1[x] == Product(random, ROTORSZ, x)
    ensures forall k, y :: 0 <= y < k < ROTORSZ && t3[k] < k && Passed(random[ROTORSZ - 1 - k].1 % k, t3[k], y) ==> t3[y] > k
  {
  }

  lemma IsPermutation(t: seq<int>)
    requires |t| == ROTORSZ && forall x :: 0 <= x < ROTORSZ ==> t[x] == x
    ensures Permutation(t)
  {
  }

  lemma Range(t: seq<int>)
    requires Permutation(t)
    ensures |t| == ROTORSZ && (forall i :: 0 <= i < ROTORSZ ==> 0 <= t[i] < ROTORSZ)
    ensures forall i, j :: 0 <= i < j < ROTORSZ ==> t[i] != t[j]
  {
  }

  lemma RotorBytes(t1: seq<int>, t2: seq<int>, t3: seq<int>)
    requires Inverse(t1, t2) && Reflector(t3)
    ensures Bytes(t1) && Bytes(t2) && Bytes(t3)
  {
  }

  // A block taken from the middle of a text is encrypted as it is in the stream.
  lemma BlockIsStream(t1: seq<int>, t2: seq<int>, t3: seq<int>, text: seq<int>, offset: nat, n: nat)
    requires Bytes(t1) && Bytes(t2) && Bytes(t3) && offset + n <= |text|
    ensures Machine(t1, t2, t3, text[offset..offset + n], offset) == Machine(t1, t2, t3, text, 0)[offset..offset + n]
  {
    hide Turn;
    var part, whole := Machine(t1, t2, t3, text[offset..offset + n], offset), Machine(t1, t2, t3, text, 0);
    forall i | 0 <= i < n ensures part[i] == whole[offset..offset + n][i] {
      assert text[offset..offset + n][i] == text[offset + i];
    }
  }

  // Twice through a machine that any random bytes have built.
  method EncryptTwice(random: seq<(int, int)>, offset: nat, text: seq<int>) returns (once: seq<int>, twice: seq<int>)
    requires |random| == ROTORSZ && forall i :: 0 <= i < ROTORSZ ==> 0 <= random[i].0 < ROTORSZ && 0 <= random[i].1 < ROTORSZ
    requires forall i :: 0 <= i < |text| ==> 0 <= text[i] < ROTORSZ
    ensures twice == text && |once| == |text| && forall i :: 0 <= i < |text| ==> once[i] != text[i]
  {
    hide Machine, Turn;
    var c := new Crypt();
    c.Setup(random);
    once := c.Encrypt(offset, text);
    twice := c.Encrypt(offset, once);
    MachineTwice(c.t1[..], c.t2[..], c.t3[..], text, offset);
  }
}
