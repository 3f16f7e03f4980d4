// ncheck.c's table of directories: open addressing, from a zeroed table on.

module Ncheck {

  const HSIZE := 2503

  // struct htab; h_ino is 0 in an empty one.
  datatype Entry = Entry(ino: int, pino: int, name: string)

  // How far slot s is from the slot start, going round.
  function Offset(start: int, s: int): (d: int)
    requires 0 <= start < HSIZE && 0 <= s < HSIZE
    ensures 0 <= d < HSIZE
  {
    if s >= start then s - start else s - start + HSIZE
  }

  function Home(ino: int): (h: int)
    ensures 0 <= h < HSIZE
  {
    ino % HSIZE
  }

  predicate Holds(t: seq<Entry>, ino: int) {
    exists s :: 0 <= s < |t| && t[s].ino == ino
  }

  // Used slots among the first n.
  function Used(t: seq<Entry>, n: nat): (c: nat)
    requires n <= |t|
    ensures c <= n
  {
    if n == 0 then 0 else Used(t, n - 1) + if t[n - 1].ino != 0 then 1 else 0
  }

  lemma {:induction false} UsedMore(t: seq<Entry>, r: nat, e: Entry, n: nat)
    requires r < |t| && n <= |t| && t[r].ino == 0 && e.ino != 0
    ensures Used(t[r := e], n) == Used(t, n) + if r < n then 1 else 0
  {
    if n > 0 { UsedMore(t, r, e, n - 1); }
  }

  lemma {:induction false} UsedSame(t: seq<Entry>, t': seq<Entry>, n: nat)
    requires n <= |t| == |t'| && forall s :: 0 <= s < |t| ==> t[s].ino == t'[s].ino
    ensures Used(t', n) == Used(t, n)
  {
    if n > 0 { UsedSame(t, t', n - 1); }
  }

  lemma {:induction false} SomeEmpty(t: seq<Entry>, n: nat) returns (s: int)
    requires n <= |t| && Used(t, n) < n
    ensures 0 <= s < n && t[s].ino == 0
  {
    if t[n - 1].ino == 0 { s := n - 1; } else { s := SomeEmpty(t, n - 1); }
  }

  // All slots from the home of an entry up to it are in use; no i-number is there
  // twice; and there are nhent of them, so that a slot is empty.
  predicate Probing(t: seq<Entry>, nhent: int) {
    |t| == HSIZE && Used(t, HSIZE) == nhent < HSIZE &&
    (forall s, x :: 0 <= s < HSIZE && 0 <= x < HSIZE && t[s].ino != 0 && Offset(Home(t[s].ino), x) < Offset(Home(t[s].ino), s) ==>
      t[x].ino != 0) &&
    forall s, x :: 0 <= s < x < HSIZE && t[s].ino != 0 ==> t[s].ino != t[x].ino
  }

  // The search for i-number i has come to slot c.
  predicate Passed(t: seq<Entry>, i: int, c: int) {
    |t| == HSIZE && 0 <= c < HSIZE &&
    forall x :: 0 <= x < HSIZE && Offset(Home(i), x) < Offset(Home(i), c) ==> t[x].ino != 0 && t[x].ino != i
  }

  lemma PassedOn(t: seq<Entry>, i: int, c: int, c': int, e: int)
    requires Passed(t, i, c) && t[c].ino != 0 && t[c].ino != i && c' == (if c + 1 == HSIZE then 0 else c + 1)
    requires 0 <= e < HSIZE && t[e].ino == 0 && Offset(Home(i), e) >= Offset(Home(i), c)
    ensures Passed(t, i, c') && Offset(Home(i), c') == Offset(Home(i), c) + 1 <= Offset(Home(i), e)
  {
  }

  // An empty slot ends the search for good.
  lemma Absent(t: seq<Entry>, nhent: int, i: int, c: int)
    requires Probing(t, nhent) && Passed(t, i, c) && t[c].ino == 0 && i != 0
    ensures !Holds(t, i)
  {
    forall s | 0 <= s < HSIZE && t[s].ino == i ensures false {
      if s != c { OneSlot(Home(i), s, c); }
    }
  }

  lemma OneSlot(start: int, s: int, x: int)
    requires 0 <= start < HSIZE && 0 <= s < HSIZE && 0 <= x < HSIZE && s != x
    ensures Offset(start, s) != Offset(start, x)
  {
  }

  lemma Inserted(t: seq<Entry>, nhent: int, i: int, c: int, e: Entry)
    requires Probing(t, nhent) && Passed(t, i, c) && t[c].ino == 0 && i != 0 && e.ino == i && nhent + 1 < HSIZE && !Holds(t, i)
    ensures Probing(t[c := e], nhent + 1)
  {
    UsedMore(t, c, e, HSIZE);
    var t' := t[c := e];
    hide Used;
    assert forall x :: 0 <= x < HSIZE && x != c ==> t'[x] == t[x];
    forall s, x | 0 <= s < HSIZE && 0 <= x < HSIZE && t'[s].ino != 0 && Offset(Home(t'[s].ino), x) < Offset(Home(t'[s].ino), s)
      ensures t'[x].ino != 0
    {
      if x != c && s != c { assert t[s].ino != 0; }
    }
  }

  datatype Answer = At(slot: int) | None | Full

  class Table {
    const htab: array<Entry>
    var nhent: int

    ghost predicate Valid()
      reads this, htab
    {
      htab.Length == HSIZE && Probing(htab[..], nhent)
    }

    constructor ()
      ensures Valid() && fresh(htab) && nhent == 0 && forall i :: i != 0 ==> !Holds(htab[..], i)
    {
      htab := new Entry[HSIZE](_ => Entry(0, 0, ""));
      nhent := 0;
      new;
      NoneUsed(htab[..], HSIZE);
    }

    // ncheck.c:361-381; Full where the program ends. An i-number is found if it
    // has been entered; entries stay where they are.
    method Lookup(i: int, ef: bool) returns (r: Answer)
      requires Valid() && i != 0
      modifies this, htab
      ensures r.None? <==> !ef && !old(Holds(htab[..], i))
      ensures r.Full? <==> ef && !old(Holds(htab[..], i)) && old(nhent) + 1 >= HSIZE
      ensures r.At? ==> Valid() && 0 <= r.slot < HSIZE && htab[r.slot].ino == i
      ensures r.At? ==> forall s :: 0 <= s < HSIZE && s != r.slot ==> htab[s] == old(htab[s])
      ensures r.At? ==> if old(Holds(htab[..], i)) then htab[..] == old(htab[..]) else old(htab[r.slot].ino) == 0
      ensures r.None? ==> Valid() && htab[..] == old(htab[..])
    {
      ghost var t := htab[..];
      ghost var e := SomeEmpty(t, HSIZE);
      hide Probing, Passed, Home, Offset, Used, Holds;
      var hp := Home(i);
      AtHome(t, i);
      while htab[hp].ino != 0
        invariant 0 <= hp < HSIZE && htab[..] == t && nhent == old(nhent) && Passed(t, i, hp)
        invariant Offset(Home(i), e) >= Offset(Home(i), hp)
        decreases Offset(Home(i), e) - Offset(Home(i), hp)
      {
        if htab[hp].ino == i {
          HoldsAt(t, hp);
          return At(hp);
        }
        PassedOn(t, i, hp, if hp + 1 == HSIZE then 0 else hp + 1, e);
        hp := hp + 1;
        if hp >= HSIZE {
          hp := 0;
        }
      }
      Absent(t, nhent, i, hp);
      if !ef {
        return None;
      }
      nhent := nhent + 1;
      if nhent >= HSIZE {
        return Full;
      }
      Inserted(t, nhent - 1, i, hp, t[hp].(ino := i));
      htab[hp] := htab[hp].(ino := i);
      assert htab[..] == t[hp := t[hp].(ino := i)];
      return At(hp);
    }

    // ncheck.c:276-278: what the caller writes into an entry it has looked up.
    method Fill(s: int, pino: int, name: string)
      requires Valid() && 0 <= s < HSIZE
      modifies htab
      ensures Valid() && htab[..] == old(htab[..])[s := old(htab[s]).(pino := pino, name := name)]
    {
      ghost var t := htab[..];
      UsedSame(t, t[s := t[s].(pino := pino, name := name)], HSIZE);
      htab[s] := htab[s].(pino := pino, name := name);
      assert htab[..] == t[s := t[s].(pino := pino, name := name)];
    }
  }

  lemma {:induction false} NoneUsed(t: seq<Entry>, n: nat)
    requires n <= |t| && forall s :: 0 <= s < |t| ==> t[s].ino == 0
    ensures Used(t, n) == 0
  {
    if n > 0 { NoneUsed(t, n - 1); }
  }

  lemma HoldsAt(t: seq<Entry>, s: int)
    requires 0 <= s < |t|
    ensures Holds(t, t[s].ino)
  {
  }

  lemma AtHome(t: seq<Entry>, i: int)
    requires |t| == HSIZE
    ensures Passed(t, i, Home(i)) && Offset(Home(i), Home(i)) == 0
  {
  }

  // Any sequence of lookups on a new table: each answers as a finite set would,
  // whatever is written into the entries that are found.
  method Session(ops: seq<(int, bool)>) returns (found: seq<bool>, full: bool)
    requires forall k :: 0 <= k < |ops| ==> ops[k].0 != 0
    ensures !full ==> |found| == |ops|
    ensures |found| <= |ops| && forall k :: 0 <= k < |found| ==> (found[k] <==> EnteredBy(ops, k + 1, ops[k].0))
  {
    hide Holds, Probing, EnteredBy, AsEntered;
    var table := new Table();
    found, full := [], false;
    NoneEntered(table.htab[..], ops);
    for k := 0 to |ops|
      invariant table.Valid() && |found| == k && !full && fresh(table) && fresh(table.htab)
      invariant AsEntered(table.htab[..], ops, k)
      invariant forall j :: 0 <= j < k ==> (found[j] <==> EnteredBy(ops, j + 1, ops[j].0))
    {
      ghost var t := table.htab[..];
      var r := table.Lookup(ops[k].0, ops[k].1);
      if r.Full? {
        return found, true;
      }
      if r.At? {
        OneFound(t, table.htab[..], r.slot, ops, k);
        var named: bool, pino: int, name: string := *, *, *;
        if named {
          ghost var before := table.htab[..];
          table.Fill(r.slot, pino, name);
          OneNamed(before, table.htab[..], r.slot, ops, k + 1);
        }
      } else {
        NoneFound(t, ops, k);
      }
      found := found + [r.At?];
    }
  }

  // The table holds what the first k lookups have entered.
  ghost predicate AsEntered(t: seq<Entry>, ops: seq<(int, bool)>, k: nat)
    requires k <= |ops|
  {
    forall i :: i != 0 ==> (Holds(t, i) <==> EnteredBy(ops, k, i))
  }

  lemma NoneEntered(t: seq<Entry>, ops: seq<(int, bool)>)
    requires forall i :: i != 0 ==> !Holds(t, i)
    ensures AsEntered(t, ops, 0)
  {
    hide Holds;
  }

  lemma OneFound(t: seq<Entry>, t': seq<Entry>, s: int, ops: seq<(int, bool)>, k: nat)
    requires k < |ops| && ops[k].0 != 0 && AsEntered(t, ops, k) && (!ops[k].1 ==> Holds(t, ops[k].0))
    requires |t| == |t'| && 0 <= s < |t| && t'[s].ino == ops[k].0 && (t == t' || t[s].ino == 0)
    requires forall x :: 0 <= x < |t| && x != s ==> t'[x] == t[x]
    ensures AsEntered(t', ops, k + 1) && EnteredBy(ops, k + 1, ops[k].0)
  {
    HoldsMore(t, t', s, ops[k].0);
    EnteredStep(ops, k);
    hide Holds, EnteredBy;
  }

  lemma NoneFound(t: seq<Entry>, ops: seq<(int, bool)>, k: nat)
    requires k < |ops| && ops[k].0 != 0 && AsEntered(t, ops, k) && !ops[k].1 && !Holds(t, ops[k].0)
    ensures AsEntered(t, ops, k + 1) && !EnteredBy(ops, k + 1, ops[k].0)
  {
    EnteredStep(ops, k);
    hide Holds, EnteredBy;
  }

  lemma OneNamed(t: seq<Entry>, t': seq<Entry>, s: int, ops: seq<(int, bool)>, k: nat)
    requires k <= |ops| && AsEntered(t, ops, k)
    requires |t| == |t'| && 0 <= s < |t| && t'[s].ino == t[s].ino && forall x :: 0 <= x < |t| && x != s ==> t'[x] == t[x]
    ensures AsEntered(t', ops, k)
  {
    HoldsSame(t, t', s);
    hide Holds, EnteredBy;
  }

  lemma HoldsSame(t: seq<Entry>, t': seq<Entry>, s: int)
    requires |t| == |t'| && 0 <= s < |t| && t'[s].ino == t[s].ino && forall x :: 0 <= x < |t| && x != s ==> t'[x] == t[x]
    ensures forall i :: Holds(t', i) <==> Holds(t, i)
  {
    forall i ensures Holds(t', i) <==> Holds(t, i) {
      assert forall x :: 0 <= x < |t| ==> t'[x].ino == t[x].ino;
    }
  }

  // One of the first k lookups was to enter i.
  predicate EnteredBy(ops: seq<(int, bool)>, k: nat, i: int)
    requires k <= |ops|
  {
    exists j :: 0 <= j < k && ops[j].0 == i && ops[j].1
  }

  lemma EnteredStep(ops: seq<(int, bool)>, k: nat)
    requires k < |ops|
    ensures forall i :: EnteredBy(ops, k + 1, i) <==> EnteredBy(ops, k, i) || (ops[k].0 == i && ops[k].1)
  {
  }

  lemma HoldsMore(t: seq<Entry>, t': seq<Entry>, s: int, i: int)
    requires |t| == |t'| && 0 <= s < |t| && t'[s].ino == i && (t == t' || t[s].ino == 0)
    requires forall x :: 0 <= x < |t| && x != s ==> t'[x] == t[x]
    ensures forall x :: x != 0 ==> (Holds(t', x) <==> Holds(t, x) || x == i)
  {
    forall x | x != 0 ensures Holds(t', x) <==> Holds(t, x) || x == i {
      if Holds(t, x) {
        var y :| 0 <= y < |t| && t[y].ino == x;
        if y != s { assert t'[y].ino == x; }
      }
    }
  }
}
