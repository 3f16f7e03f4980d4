// Powers of two and fixed-width bit strings, most significant bit first.
// They are the common language of the packer, which writes bits into bytes,
// and the unpacker, which shifts them out again.

module BitStrings {
  function Pow2(n: nat): (p: nat)
    ensures p >= 1
  {
    if n == 0 then 1 else 2 * Pow2(n - 1)
  }

  lemma {:induction false} Pow2Add(m: nat, n: nat)
    ensures Pow2(m + n) == Pow2(m) * Pow2(n)
  {
    if m == 0 {
    } else {
      Pow2Add(m - 1, n);
      assert 2 * (Pow2(m - 1) * Pow2(n)) == (2 * Pow2(m - 1)) * Pow2(n);
    }
  }

  lemma {:induction false} Pow2Mono(m: nat, n: nat)
    requires m <= n
    ensures Pow2(m) <= Pow2(n)
    decreases n
  {
    if m < n { Pow2Mono(m, n - 1); }
  }

  type Bit = bool

  // The low n bits of v.
  function Bits(v: nat, n: nat): (s: seq<Bit>)
    ensures |s| == n
  {
    if n == 0 then [] else Bits(v / 2, n - 1) + [v % 2 == 1]
  }

  function Zeros(n: nat): (s: seq<Bit>)
    ensures |s| == n
    ensures forall k :: 0 <= k < n ==> !s[k]
  {
    seq(n, _ => false)
  }

  lemma DivideByEvenProduct(w: nat, b: nat)
    requires b >= 1
    ensures w / (2 * b) == (w / 2) / b
  {
    var q, r := (w / 2) / b, (w / 2) % b;
    assert w / 2 == q * b + r;
    var r' := 2 * r + w % 2;
    assert w == q * (2 * b) + r' by { assert 2 * (q * b) == q * (2 * b); }
    assert 0 <= r' < 2 * b;
    DivUnique(w, 2 * b, q, r');
  }

  lemma DivUnique(w: int, d: int, q: int, r: int)
    requires d > 0 && w == q * d + r && 0 <= r < d
    ensures w / d == q && w % d == r
  {
    var q', r' := w / d, w % d;
    assert (q - q') * d == r' - r by { assert (q - q') * d == q * d - q' * d; }
    assert (q' - q) * d == r - r' by { assert (q' - q) * d == q' * d - q * d; }
    if q > q' {
      MulAtLeast(q - q', d);
    } else if q < q' {
      MulAtLeast(q' - q, d);
    }
  }

  lemma MulAtLeast(a: int, d: int)
    requires a >= 1 && d >= 0
    ensures a * d >= d
  {
    assert a * d == (a - 1) * d + d;
    assert (a - 1) * d >= 0;
  }

  // C's v >> n on non-negative numbers.
  function Shr(v: nat, n: nat): nat {
    if n == 0 then v else Shr(v / 2, n - 1)
  }

  lemma {:induction false} ShrDivides(v: nat, n: nat)
    ensures Shr(v, n) == v / Pow2(n)
  {
    if n == 0 {
    } else {
      ShrDivides(v / 2, n - 1);
      DivideByEvenProduct(v, Pow2(n - 1));
    }
  }

  // Cutting a bit string in two is shifting right.
  lemma {:induction false} CutAt(v: nat, m: nat, n: nat)
    ensures Bits(v, m + n) == Bits(Shr(v, n), m) + Bits(v, n)
  {
    if n == 0 {
      assert Bits(v, 0) == [];
    } else {
      CutAt(v / 2, m, n - 1);
      assert m + n - 1 == m + (n - 1);
    }
  }

  // The low n bits do not see what is added above them.
  lemma {:induction false} BitsLow(v: nat, w: nat, n: nat)
    ensures Bits(v * Pow2(n) + w, n) == Bits(w, n)
  {
    if n == 0 {
    } else {
      var x := v * Pow2(n) + w;
      assert v * Pow2(n) == 2 * (v * Pow2(n - 1)) by { assert Pow2(n) == 2 * Pow2(n - 1); }
      assert x / 2 == v * Pow2(n - 1) + w / 2 && x % 2 == w % 2;
      BitsLow(v, w / 2, n - 1);
    }
  }

  // A number put above n low bits is the concatenation of the two bit strings.
  lemma {:induction false} BitsConcat(v: nat, m: nat, w: nat, n: nat)
    requires w < Pow2(n)
    ensures Bits(v * Pow2(n) + w, m + n) == Bits(v, m) + Bits(w, n)
  {
    var x := v * Pow2(n) + w;
    CutAt(x, m, n);
    BitsLow(v, w, n);
    DivUnique(x, Pow2(n), v, w);
    ShrDivides(x, n);
  }

  lemma {:induction false} BitsOfZero(n: nat)
    ensures Bits(0, n) == Zeros(n)
  {
    if n == 0 {
    } else {
      BitsOfZero(n - 1);
      assert Bits(0, n) == Bits(0, n - 1) + [false];
    }
  }

  // C's inclusive or on non-negative numbers, bit by bit.
  function BitOr(a: nat, b: nat): nat
    decreases a + b
  {
    if a == 0 && b == 0 then 0
    else (if a % 2 == 1 || b % 2 == 1 then 1 else 0) + 2 * BitOr(a / 2, b / 2)
  }

  // Or-ing numbers with no bit in common adds them.
  lemma {:induction false} OrIsSum(a: nat, b: nat, k: nat)
    requires a % Pow2(k) == 0 && b < Pow2(k)
    ensures BitOr(a, b) == a + b
    decreases a + b
  {
    if a == 0 && b == 0 {
    } else if k == 0 {
      assert b == 0;
      OrIsSum(a / 2, 0, 0);
    } else {
      var p := Pow2(k - 1);
      assert Pow2(k) == 2 * p;
      var q := a / (2 * p);
      assert a == q * (2 * p) == 2 * (q * p);
      DivUnique(a / 2, p, q, 0);
      OrIsSum(a / 2, b / 2, k - 1);
    }
  }

  // C's a & ~b on non-negative numbers, bit by bit.
  function ClearBits(a: nat, b: nat): nat {
    if a == 0 then 0
    else (if a % 2 == 1 && b % 2 == 0 then 1 else 0) + 2 * ClearBits(a / 2, b / 2)
  }

  lemma {:induction false} ClearZero(a: nat)
    ensures ClearBits(a, 0) == a
  {
    if a != 0 { ClearZero(a / 2); }
  }

  // Clearing a bit that is not set changes nothing.
  lemma {:induction false} ClearNothing(m: nat, k: nat)
    ensures m * Pow2(k + 1) >= 0 && ClearBits(m * Pow2(k + 1), Pow2(k)) == m * Pow2(k + 1)
  {
    var a := m * Pow2(k + 1);
    assert a == 2 * (m * Pow2(k)) by { assert Pow2(k + 1) == 2 * Pow2(k); }
    assert a / 2 == m * Pow2(k) && a % 2 == 0;
    if k == 0 {
      assert Pow2(0) == 1;
      ClearZero(m);
    } else {
      ClearNothing(m, k - 1);
      assert Pow2(k) / 2 == Pow2(k - 1) && Pow2(k) % 2 == 0;
    }
  }

  lemma {:induction false} ShrPow2(m: nat, n: nat)
    requires n <= m
    ensures Shr(Pow2(m), n) == Pow2(m - n)
  {
    if n > 0 {
      assert Pow2(m) / 2 == Pow2(m - 1);
      ShrPow2(m - 1, n - 1);
    }
  }

  lemma Pow2Of24()
    ensures Pow2(24) == 0x100_0000 && Pow2(8) == 256
  {
    assert Pow2(4) == 16;
    Pow2Add(4, 4);
    Pow2Add(8, 8);
    Pow2Add(16, 8);
  }

  // A byte is what C keeps in a char.
  newtype Byte = b: int | 0 <= b < 256

  function ByteBits(bs: seq<Byte>): (s: seq<Bit>)
    ensures |s| == 8 * |bs|
  {
    if |bs| == 0 then [] else ByteBits(bs[..|bs| - 1]) + Bits(bs[|bs| - 1] as int, 8)
  }

  lemma ByteBitsSnoc(bs: seq<Byte>, b: Byte)
    ensures ByteBits(bs + [b]) == ByteBits(bs) + Bits(b as int, 8)
  {
    assert (bs + [b])[..|bs|] == bs;
  }

  lemma ByteBitsNone()
    ensures ByteBits([]) == []
  {
  }

  lemma {:induction false} ByteBitsConcat(a: seq<Byte>, b: seq<Byte>)
    ensures ByteBits(a + b) == ByteBits(a) + ByteBits(b)
  {
    hide *;
    if |b| == 0 {
      assert b == [] && a + b == a;
      ByteBitsNone();
    } else {
      var b', last := b[..|b| - 1], b[|b| - 1];
      ByteBitsConcat(a, b');
      ByteBitsSnoc(a + b', last);
      ByteBitsSnoc(b', last);
      assert a + b == (a + b') + [last] && b == b' + [last];
    }
  }
}
