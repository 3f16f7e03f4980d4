// cpio.c with -c: ASCII headers, records of any size, and the copy out and in.

module Cpio {
  import BitStrings

  const MAGIC := 29127  // 070707
  const CHARS := 76
  const CPIOBSZ := 4096
  const TRAILER := "TRAILER!!!"
  // The header's %.6o and %.11lo fields, in order.
  const WIDTHS: seq<nat> := [6, 6, 6, 6, 6, 6, 6, 6, 11, 6, 11]

  datatype Option<T> = None | Some(value: T)

  function Pow8(w: nat): (p: nat)
    ensures p > 0
  {
    if w == 0 then 1 else 8 * Pow8(w - 1)
  }

  // printf's %.wo: at least w octal digits.
  function Octal(v: nat, w: nat): string
    decreases w, v
  {
    if w == 0 && v == 0 then ""
    else Octal(v / 8, if w == 0 then 0 else w - 1) + [('0' as int + v % 8) as char]
  }

  predicate IsOctal(s: string) {
    forall k :: 0 <= k < |s| ==> '0' <= s[k] <= '7'
  }

  function Value(s: string): (v: nat)
    requires IsOctal(s)
  {
    if s == "" then 0 else 8 * Value(s[..|s| - 1]) + (s[|s| - 1] as int - '0' as int)
  }

  lemma {:induction false} OctalValue(v: nat, w: nat)
    requires v < Pow8(w)
    ensures |Octal(v, w)| == w && IsOctal(Octal(v, w)) && Value(Octal(v, w)) == v
  {
    if w > 0 {
      OctalValue(v / 8, w - 1);
      assert Octal(v, w)[..w - 1] == Octal(v / 8, w - 1);
    }
  }

  function Print(vs: seq<nat>, ws: seq<nat>): string
    requires |vs| == |ws|
  {
    if vs == [] then "" else Octal(vs[0], ws[0]) + Print(vs[1..], ws[1..])
  }

  function Scan(s: string, ws: seq<nat>): (r: Option<seq<nat>>)
    ensures r.Some? ==> |r.value| == |ws|
  {
    if ws == [] then Some([])
    else if |s| < ws[0] || !IsOctal(s[..ws[0]]) then None
    else
      match Scan(s[ws[0]..], ws[1..])
      case None => None
      case Some(vs) => Some([Value(s[..ws[0]])] + vs)
  }

  predicate Fit(vs: seq<nat>, ws: seq<nat>) {
    |vs| == |ws| && forall k :: 0 <= k < |vs| ==> vs[k] < Pow8(ws[k])
  }

  function Sum(ws: seq<nat>): nat {
    if ws == [] then 0 else ws[0] + Sum(ws[1..])
  }

  // What sprintf writes, sscanf reads.
  lemma {:induction false} ScanPrint(vs: seq<nat>, ws: seq<nat>)
    requires Fit(vs, ws)
    ensures |Print(vs, ws)| == Sum(ws) && Scan(Print(vs, ws), ws) == Some(vs)
  {
    if vs != [] {
      OctalValue(vs[0], ws[0]);
      assert Fit(vs[1..], ws[1..]) by {
        forall k | 0 <= k < |vs| - 1 ensures vs[1..][k] < Pow8(ws[1..][k]) { assert vs[k + 1] < Pow8(ws[k + 1]); }
      }
      ScanPrint(vs[1..], ws[1..]);
      var s := Print(vs, ws);
      assert s[..ws[0]] == Octal(vs[0], ws[0]) && s[ws[0]..] == Print(vs[1..], ws[1..]);
      assert [vs[0]] + vs[1..] == vs;
    }
  }

  // What stat tells of a file, each short a number below 2^16 and each long one below 2^32.
  datatype Stat = Stat(dev: nat, ino: nat, mode: nat, uid: nat, gid: nat, nlink: nat, rdev: nat, mtime: nat)

  datatype Header = Header(magic: nat, st: Stat, namesize: nat, filesize: nat)

  datatype File = File(st: Stat, name: string, data: string)

  predicate Short(v: nat) { v < 0x1_0000 }

  predicate Long(v: nat) { v < 0x1_0000_0000 }

  predicate StatFits(st: Stat) {
    Short(st.dev) && Short(st.ino) && Short(st.mode) && Short(st.uid) && Short(st.gid) && Short(st.nlink) && Short(st.rdev) && Long(st.mtime)
  }

  // h_name has 256 characters, and the size of a file is a signed long.
  predicate Archivable(f: File) {
    StatFits(f.st) && |f.name| < 256 && '\0' !in f.name && |f.data| < 0x8000_0000
  }

  function Fields(h: Header): (vs: seq<nat>)
    ensures |vs| == |WIDTHS|
  {
    [h.magic, h.st.dev, h.st.ino, h.st.mode, h.st.uid, h.st.gid, h.st.nlink, h.st.rdev, h.st.mtime, h.namesize, h.filesize]
  }

  function Bintochar(h: Header): string {
    Print(Fields(h), WIDTHS)
  }

  // %6ho keeps 16 bits of what it reads, and %11lo 32.
  function Chartobin(s: string): Option<Header> {
    match Scan(s, WIDTHS)
    case None => None
    case Some(v) =>
      var m := 0x1_0000;
      Some(Header(v[0] % m, Stat(v[1] % m, v[2] % m, v[3] % m, v[4] % m, v[5] % m, v[6] % m, v[7] % m,
                                 v[8] % 0x1_0000_0000), v[9] % m, v[10] % 0x1_0000_0000))
  }

  predicate HeaderFits(h: Header) {
    StatFits(h.st) && Short(h.magic) && Short(h.namesize) && Long(h.filesize)
  }

  lemma FieldsFit(h: Header)
    requires HeaderFits(h)
    ensures Fit(Fields(h), WIDTHS)
  {
    Powers();
    hide Pow8;
    forall k | 0 <= k < 11 ensures Fields(h)[k] < Pow8(WIDTHS[k]) {
      assert WIDTHS[k] == if k == 8 || k == 10 then 11 else 6;
    }
  }

  lemma HeaderBack(h: Header)
    requires HeaderFits(h)
    ensures |Bintochar(h)| == CHARS && Chartobin(Bintochar(h)) == Some(h)
  {
    hide Scan, Print, Fit, Pow8, Sum;
    FieldsFit(h);
    ScanPrint(Fields(h), WIDTHS);
    SumWidths();
  }

  lemma Powers()
    ensures Pow8(6) == 0x4_0000 && Pow8(11) == 0x2_0000_0000
  {
    assert Pow8(3) == 512;
    assert Pow8(6) == 0x4_0000;
    assert Pow8(9) == 0x800_0000;
  }

  lemma SumWidths()
    ensures Sum(WIDTHS) == CHARS
  {
    assert WIDTHS[8..] == [11, 6, 11] && Sum([11, 6, 11]) == 28 by {
      assert [11, 6, 11][1..] == [6, 11] && [6, 11][1..] == [11];
    }
    Sixes(WIDTHS, 8);
  }

  lemma {:induction false} Sixes(ws: seq<nat>, n: nat)
    requires n <= |ws| && forall k :: 0 <= k < n ==> ws[k] == 6
    ensures Sum(ws) == 6 * n + Sum(ws[n..])
  {
    if n > 0 {
      Sixes(ws[1..], n - 1);
      assert ws[1..][n - 1..] == ws[n..];
    }
  }

  function HeaderOf(f: File): Header {
    Header(MAGIC, f.st, |f.name| + 1, |f.data|)
  }

  // What one file takes up in the archive.
  function Member(f: File): string {
    Bintochar(HeaderOf(f)) + f.name + ['\0'] + f.data
  }

  function Members(fs: seq<File>): string {
    if fs == [] then "" else Members(fs[..|fs| - 1]) + Member(fs[|fs| - 1])
  }

  // Digit k of w stands for its power of 8.
  lemma {:induction false} OctalDigit(v: nat, w: nat, k: nat)
    requires v < Pow8(w) && k < w
    ensures |Octal(v, w)| == w && Octal(v, w)[k] as int - '0' as int == v / Pow8(w - 1 - k) % 8
  {
    OctalValue(v, w);
    OctalValue(v / 8, w - 1);
    if k < w - 1 {
      OctalDigit(v / 8, w - 1, k);
      EightTimes(v, Pow8(w - 2 - k));
    }
  }

  lemma EightTimes(v: nat, p: nat)
    requires p > 0
    ensures v / 8 / p == v / (8 * p)
  {
    var q := v / 8 / p;
    var r, s := v % 8, v / 8 % p;
    assert v == 8 * (q * p + s) + r;
    assert v == q * (8 * p) + (8 * s + r) by { assert 8 * (q * p) == q * (8 * p); }
    assert 0 <= 8 * s + r < 8 * p;
    BitStrings.DivUnique(v, 8 * p, q, 8 * s + r);
  }

  lemma {:induction false} PrintColumn(vs: seq<nat>, ws: seq<nat>, k: nat)
    requires Fit(vs, ws) && k < |vs|
    ensures Sum(ws[..k]) + ws[k] <= |Print(vs, ws)|
    ensures Print(vs, ws)[Sum(ws[..k])..Sum(ws[..k]) + ws[k]] == Octal(vs[k], ws[k])
  {
    hide Octal, Pow8, Print, Sum, IsOctal, Value, Scan;
    FirstFits(vs, ws);
    FitRest(vs, ws);
    PrintIs(vs, ws);
    SumIs(ws, k);
    hide Fit;
    if k > 0 {
      PrintColumn(vs[1..], ws[1..], k - 1);
      Onward(Octal(vs[0], ws[0]), Print(vs[1..], ws[1..]), Sum(ws[1..][..k - 1]), ws[k]);
    }
  }

  lemma Onward(first: string, rest: string, at: nat, n: nat)
    requires at + n <= |rest|
    ensures (first + rest)[|first| + at..|first| + at + n] == rest[at..at + n]
  {
  }

  lemma SumIs(ws: seq<nat>, k: nat)
    requires k < |ws|
    ensures k == 0 ==> Sum(ws[..k]) == 0
    ensures k > 0 ==> Sum(ws[..k]) == ws[0] + Sum(ws[1..][..k - 1])
  {
    if k > 0 { assert ws[..k][0] == ws[0] && ws[..k][1..] == ws[1..][..k - 1]; }
  }

  lemma FirstFits(vs: seq<nat>, ws: seq<nat>)
    requires Fit(vs, ws) && |vs| > 0
    ensures |ws| == |vs| && |Octal(vs[0], ws[0])| == ws[0]
  {
    OctalValue(vs[0], ws[0]);
  }

  lemma FitRest(vs: seq<nat>, ws: seq<nat>)
    requires Fit(vs, ws) && |vs| > 0
    ensures Fit(vs[1..], ws[1..])
  {
    hide Pow8;
    forall k | 0 <= k < |vs| - 1 ensures vs[1..][k] < Pow8(ws[1..][k]) { assert vs[k + 1] < Pow8(ws[k + 1]); }
  }

  lemma PrintIs(vs: seq<nat>, ws: seq<nat>)
    requires |vs| == |ws| > 0
    ensures Print(vs, ws) == Octal(vs[0], ws[0]) + Print(vs[1..], ws[1..])
  {
  }

  lemma MagicDigits()
    ensures Octal(MAGIC, 6) == "070707"
  {
    assert Octal(0, 0) == "" && Octal(0, 1) == "0";
    assert Octal(7, 2) == "07" && Octal(56, 3) == "070";
    assert Octal(455, 4) == "0707" && Octal(3640, 5) == "07070";
  }

  lemma {:induction false} WidthsUpto(k: nat)
    requires k <= |WIDTHS|
    ensures Sum(WIDTHS[..k]) == if k <= 8 then 6 * k else if k == 9 then 59 else if k == 10 then 65 else 76
  {
    if k == 11 {
      assert WIDTHS[..11] == WIDTHS;
      SumWidths();
    } else if k > 8 {
      Sixes(WIDTHS[..k], 8);
      assert WIDTHS[..k][8..] == if k == 9 then [11] else [11, 6];
      assert [11, 6][1..] == [6];
    } else {
      Sixes(WIDTHS[..k], k);
    }
  }

  lemma Column(f: File, k: nat)
    requires Archivable(f) && k < 11
    ensures
      var at := if k <= 8 then 6 * k else if k == 9 then 59 else 65;
      var end := if k < 8 then 6 * k + 6 else if k == 8 then 59 else if k == 9 then 65 else 76;
      |Member(f)| >= 76 && Member(f)[at..end] == Octal(Fields(HeaderOf(f))[k], if k == 8 || k == 10 then 11 else 6)
  {
    var h := HeaderOf(f);
    WidthsUpto(k);
    HeaderBack(h);
    FieldsFit(h);
    hide Octal, Print, Sum, Fit, Scan, Pow8;
    PrintColumn(Fields(h), WIDTHS, k);
    var at := if k <= 8 then 6 * k else if k == 9 then 59 else 65;
    assert Member(f)[at..at + WIDTHS[k]] == Bintochar(h)[at..at + WIDTHS[k]];
  }

  // What follows the header.
  lemma MemberText(f: File)
    requires Archivable(f)
    ensures
      var m, n := Member(f), |f.name|;
      |m| == 76 + n + 1 + |f.data| && m[76..76 + n] == f.name && m[76 + n] == '\0' && m[77 + n..] == f.data
  {
    HeaderBack(HeaderOf(f));
    hide Bintochar, Chartobin;
  }

  // What stands in which column of it.
  lemma MemberColumns(f: File)
    requires Archivable(f)
    ensures
      var m, n := Member(f), |f.name|;
      |m| >= 76 && m[..6] == "070707" && m[6..12] == Octal(f.st.dev, 6) && m[12..18] == Octal(f.st.ino, 6) &&
      m[18..24] == Octal(f.st.mode, 6) && m[24..30] == Octal(f.st.uid, 6) && m[30..36] == Octal(f.st.gid, 6) &&
      m[36..42] == Octal(f.st.nlink, 6) && m[42..48] == Octal(f.st.rdev, 6) && m[48..59] == Octal(f.st.mtime, 11) &&
      m[59..65] == Octal(n + 1, 6) && m[65..76] == Octal(|f.data|, 11)
  {
    MagicDigits();
    hide Octal, Member;
    Column(f, 0);
    Column(f, 1);
    Column(f, 2);
    Column(f, 3);
    Column(f, 4);
    Column(f, 5);
    Column(f, 6);
    Column(f, 7);
    Column(f, 8);
    Column(f, 9);
    Column(f, 10);
  }

  // The trailer's header is what is left of the last stat.
  function Archive(fs: seq<File>, last: Stat): string {
    Members(fs) + Member(File(last, TRAILER, ""))
  }

  // ---- What a reader makes of a stream of characters

  // How it ends: at the trailer; "Out of phase"; when no more records come and the
  // next tape is asked for; or with a header that is not octal digits or has a name
  // that does not end within the 256 characters of h_name, which is not followed.
  datatype Ending = AtTrailer | OutOfPhase | EndOfTape | Wild

  datatype Contents = Contents(files: seq<File>, ending: Ending)

  // The characters of a C string.
  function CString(s: string): (r: string)
    ensures '\0' !in r
  {
    if s == "" || s[0] == '\0' then "" else [s[0]] + CString(s[1..])
  }

  lemma {:induction false} CStringBack(name: string)
    requires '\0' !in name
    ensures CString(name + ['\0']) == name
  {
    if name != "" {
      CStringBack(name[1..]);
      assert (name + ['\0'])[1..] == name[1..] + ['\0'];
      assert [name[0]] + name[1..] == name;
    }
  }

  // No data follows for a size that is negative as a signed long.
  function DataSize(h: Header): nat {
    if h.filesize < 0x8000_0000 then h.filesize else 0
  }

  predicate NameEnds(h: Header, s: string) {
    h.namesize <= 256 && (|s| >= h.namesize ==> '\0' in s[..h.namesize])
  }

  function Extract(s: string): Contents
    decreases |s|
  {
    if |s| < CHARS then Contents([], EndOfTape)
    else
      match Chartobin(s[..CHARS])
      case None => Contents([], Wild)
      case Some(h) =>
        var t := s[CHARS..];
        if h.magic != MAGIC then Contents([], OutOfPhase)
        else if !NameEnds(h, t) then Contents([], Wild)
        else if |t| < h.namesize then Contents([], EndOfTape)
        else ExtractNamed(h, CString(t[..h.namesize]), t[h.namesize..])
  }

  function ExtractNamed(h: Header, name: string, t: string): Contents
    decreases |t| + 1
  {
    if name == TRAILER then Contents([], AtTrailer)
    else if |t| < DataSize(h) then Contents([], EndOfTape)
    else Prepend(File(h.st, name, t[..DataSize(h)]), Extract(t[DataSize(h)..]))
  }

  function Prepend(f: File, c: Contents): Contents {
    Contents([f] + c.files, c.ending)
  }

  lemma HeaderOfFits(f: File)
    requires Archivable(f)
    ensures HeaderFits(HeaderOf(f))
  {
  }

  lemma ExtractMember(f: File, t: string)
    requires Archivable(f)
    ensures Extract(Member(f) + t) == if f.name == TRAILER then Contents([], AtTrailer) else Prepend(f, Extract(t))
  {
    hide Bintochar, Chartobin, CString, StatFits;
    var h, s := HeaderOf(f), Member(f) + t;
    HeaderOfFits(f);
    HeaderBack(h);
    CStringBack(f.name);
    var u := s[CHARS..];
    assert s[..CHARS] == Bintochar(h);
    assert u == f.name + ['\0'] + f.data + t;
    assert u[..h.namesize] == f.name + ['\0'];
    assert '\0' in u[..h.namesize] by { assert u[..h.namesize][|f.name|] == '\0'; }
    assert u[h.namesize..] == f.data + t;
    assert (f.data + t)[..|f.data|] == f.data && (f.data + t)[|f.data|..] == t;
  }

  // ---- The writer

  // Whole records of size b among n characters.
  function Whole(n: nat, b: nat): (w: nat)
    requires b > 0
    ensures w <= n
    decreases n
  {
    if n < b then 0 else Whole(n - b, b) + b
  }

  class Writer {
    const bufsize: nat
    const cbuf: array<char>
    var cp: int
    var wc: int
    var tape: string  // what has been written to Output, a record at a time

    ghost predicate Valid()
      reads this
    {
      0 < bufsize == cbuf.Length && 0 <= cp && 0 <= wc && cp + wc == bufsize && Whole(|tape|, bufsize) == |tape|
    }

    // Everything handed over so far.
    ghost function Stream(): string
      requires Valid()
      reads this, cbuf
    {
      tape + cbuf[..cp]
    }

    constructor (bufsize: nat)
      requires bufsize > 0
      ensures Valid() && this.bufsize == bufsize && tape == "" && Stream() == "" && fresh(cbuf)
    {
      this.bufsize := bufsize;
      cbuf := new char[bufsize];
      cp, wc, tape := 0, bufsize, "";
    }

    // A record goes out only when the next character has no room.
    method Put(c: char)
      requires Valid()
      modifies this, cbuf
      ensures Valid() && Stream() == old(Stream()) + [c] && 0 < cp
      ensures if old(wc) > 0 then tape == old(tape) && wc == old(wc) - 1 else tape == old(Stream()) && wc == bufsize - 1
      ensures forall k :: 0 <= k < bufsize && k != cp - 1 ==> cbuf[k] == old(cbuf[k])
    {
      if wc == 0 {
        WholeMore(|tape|, bufsize);
        tape := tape + cbuf[..];
        wc := bufsize;
        cp := 0;
      }
      cbuf[cp] := c;
      cp := cp + 1;
      wc := wc - 1;
      assert cbuf[..cp] == cbuf[..cp - 1] + [c];
    }

    method Writehdr(s: string)
      requires Valid()
      modifies this, cbuf
      ensures Valid() && Stream() == old(Stream()) + s && old(tape) <= tape
      ensures s != "" || old(cp) > 0 ==> cp > 0
    {
      hide Whole;
      ghost var before := Stream();
      for k := 0 to |s|
        invariant Valid() && Stream() == before + s[..k] && old(tape) <= tape
        invariant k > 0 || old(cp) > 0 ==> cp > 0
      {
        ghost var t := tape;
        Put(s[k]);
        assert t <= tape;
        assert s[..k + 1] == s[..k] + [s[k]];
      }
      assert s[..|s|] == s;
    }

    // cpio.c:343: a record's worth of characters, taken from the buffer itself while
    // it fills, sends out the record that holds the trailer and nothing after it.
    method Pad()
      requires Valid() && cp > 0
      modifies this, cbuf
      ensures Valid() && old(Stream()) <= tape && |tape| < |old(Stream())| + bufsize
    {
      ghost var before, first, t0 := Stream(), wc, tape;
      for k := 0 to bufsize
        invariant Valid()
        invariant before <= Stream() && |Stream()| == |before| + k
        invariant if k <= first then tape == t0 && wc == first - k else before <= tape && |tape| == |t0| + bufsize && wc == bufsize + first - k
      {
        hide Whole;
        Put(cbuf[k]);
      }
    }

    // cpio.c:302-324: a header and the data, part by part.
    method CopyFile(f: File)
      requires Valid()
      modifies this, cbuf
      ensures Valid() && Stream() == old(Stream()) + Member(f) && cp > 0
    {
      hide Whole, Bintochar, HeaderOf, Archivable;
      ghost var before := Stream();
      var chdr := Bintochar(HeaderOf(f)) + f.name + ['\0'];
      Writehdr(chdr);
      var done := 0;
      while done < |f.data|
        invariant Valid() && cp > 0 && 0 <= done <= |f.data| && Stream() == before + chdr + f.data[..done]
      {
        var ct := if |f.data| - done > CPIOBSZ then CPIOBSZ else |f.data| - done;
        Writehdr(f.data[done..done + ct]);
        Slices(f.data, 0, done, done + ct);
        Regroup(before + chdr, f.data[..done], f.data[done..done + ct]);
        done := done + ct;
      }
      assert f.data[..done] == f.data;
      Regroup(before, chdr, f.data);
    }

    // cpio.c:281-343, each file named on the standard input having been opened.
    method CopyOut(files: seq<File>, last: Stat)
      requires Valid() && Stream() == ""
      modifies this, cbuf
      ensures Valid() && Archive(files, last) <= tape && |tape| < |Archive(files, last)| + bufsize
    {
      hide Whole, Member;
      for k := 0 to |files|
        invariant Valid() && Stream() == Members(files[..k])
      {
        CopyFile(files[k]);
        assert files[..k + 1][..k] == files[..k];
      }
      assert files[..|files|] == files;
      CopyFile(File(last, TRAILER, ""));
      Pad();
    }
  }

  lemma {:induction false} WholeMore(n: nat, b: nat)
    requires b > 0 && Whole(n, b) == n
    ensures Whole(n + b, b) == n + b
  {
  }

  // ---- The reader

  class Reader {
    const bufsize: nat
    const cbuf: array<char>
    var nleft: int
    var ip: int
    const tape: string
    var pos: int

    ghost predicate Valid()
      reads this
    {
      0 < bufsize == cbuf.Length && 0 <= nleft && 0 <= ip && ip + nleft <= bufsize && 0 <= pos <= |tape|
    }

    // What whole records still give.
    ghost function Left(): string
      requires Valid()
      reads this, cbuf
    {
      cbuf[ip..ip + nleft] + tape[pos..pos + Whole(|tape| - pos, bufsize)]
    }

    constructor (bufsize: nat, tape: string)
      requires bufsize > 0
      ensures Valid() && Left() == tape[..Whole(|tape|, bufsize)] && fresh(cbuf)
    {
      this.bufsize := bufsize;
      cbuf := new char[bufsize];
      this.tape := tape;
      nleft, ip, pos := 0, 0, 0;
    }

    // One read: some of the characters asked for, and none only at the end.
    method Read(at: nat, n: nat) returns (rv: nat)
      requires Valid() && at + n <= bufsize && n > 0
      modifies this`pos, cbuf
      ensures Valid() && rv <= n && pos == old(pos) + rv && (rv == 0 ==> pos == |tape|)
      ensures cbuf[..at] == old(cbuf[..at]) && cbuf[at..at + rv] == tape[old(pos)..pos]
    {
      var avail := if |tape| - pos < n then |tape| - pos else n;
      rv :| 0 <= rv <= avail && (avail > 0 ==> rv > 0);
      ghost var was := cbuf[..at];
      for k := 0 to rv
        modifies cbuf
        invariant cbuf[..at] == was && cbuf[at..at + k] == tape[pos..pos + k]
      {
        cbuf[at + k] := tape[pos + k];
        assert cbuf[at..at + k + 1] == cbuf[at..at + k] + [tape[pos + k]];
        assert tape[pos..pos + k + 1] == tape[pos..pos + k] + [tape[pos + k]];
      }
      pos := pos + rv;
    }

    // cpio.c:847-860: reads until the record is there, or until there is no more and
    // another tape would be asked for.
    method Fill() returns (ok: bool)
      requires Valid() && nleft == 0
      modifies this`pos, this`nleft, this`ip, cbuf
      ensures ok <==> old(|tape| - pos) >= bufsize
      ensures ok ==> Valid() && nleft == bufsize && Left() == old(Left())
    {
      hide Whole;
      ghost var start := pos;
      var got := 0;
      ip := 0;
      while got < bufsize
        invariant Valid() && 0 <= got == nleft <= bufsize && ip == 0
        invariant pos == start + got && cbuf[..got] == tape[start..pos]
        decreases bufsize - got
      {
        ghost var from := pos;
        var rv := Read(got, bufsize - got);
        if rv <= 0 {
          return false;
        }
        MoreRead(cbuf[..], got, rv, tape, start, from, pos);
        got := got + rv;
        nleft := nleft + rv;
      }
      WholeLess(|tape| - start, bufsize);
      RecordRead(cbuf[..], tape, start, pos);
      ok := true;
    }

    method Next() returns (c: char)
      requires Valid() && nleft > 0
      modifies this`nleft, this`ip
      ensures Valid() && old(Left()) == [c] + Left()
    {
      hide Whole;
      c := cbuf[ip];
      assert cbuf[ip..ip + nleft] == [c] + cbuf[ip + 1..ip + nleft];
      ip := ip + 1;
      nleft := nleft - 1;
    }

    method Readhdr(c: nat) returns (b: string, ok: bool)
      requires Valid()
      modifies this`pos, this`nleft, this`ip, cbuf
      ensures ok <==> c <= |old(Left())|
      ensures ok ==> Valid() && |b| == c && old(Left()) == b + Left()
    {
      hide Whole;
      ghost var all := Left();
      b := "";
      while |b| < c
        invariant Valid() && |b| <= c && all == b + Left()
        decreases c - |b|
      {
        NoneWhole(|tape| - pos, bufsize);
        if nleft == 0 {
          var full := Fill();
          if !full {
            return b, false;
          }
        }
        var ch := Next();
        Regroup(b, [ch], Left());
        b := b + [ch];
      }
      ok := true;
    }

    // cpio.c:567-588.
    method Gethdr() returns (r: Got)
      requires Valid()
      modifies this`pos, this`nleft, this`ip, cbuf
      ensures match r
              case Stop(e) => Extract(old(Left())) == Contents([], e)
              case Named(h, name) => Valid() && |Left()| < |old(Left())| && Extract(old(Left())) == ExtractNamed(h, name, Left()) && name != TRAILER
    {
      hide Whole, Chartobin, CString, ExtractNamed;
      ghost var all := Left();
      var chdr, ok := Readhdr(CHARS);
      if !ok {
        return Stop(EndOfTape);
      }
      assert all[..CHARS] == chdr && all[CHARS..] == Left();
      var parsed := Chartobin(chdr);
      if parsed.None? {
        return Stop(Wild);
      }
      var h := parsed.value;
      if h.magic != MAGIC {
        return Stop(OutOfPhase);
      }
      ghost var rest := Left();
      if h.namesize > 256 {
        return Stop(Wild);
      }
      var name;
      name, ok := Readhdr(h.namesize);
      if !ok {
        return Stop(EndOfTape);
      }
      assert rest[..h.namesize] == name && rest[h.namesize..] == Left();
      if '\0' !in name {
        return Stop(Wild);
      }
      if CString(name) == TRAILER {
        AtTheTrailer(h, Left());
        return Stop(AtTrailer);
      }
      r := Named(h, CString(name));
    }

    // cpio.c:350-352: the data of one file.
    method Data(n: nat) returns (b: string, ok: bool)
      requires Valid()
      modifies this`pos, this`nleft, this`ip, cbuf
      ensures ok <==> n <= |old(Left())|
      ensures ok ==> Valid() && |b| == n && old(Left()) == b + Left()
    {
      hide Whole;
      ghost var all := Left();
      b := "";
      while |b| < n
        invariant Valid() && |b| <= n && all == b + Left()
        decreases n - |b|
      {
        var ct := if n - |b| > CPIOBSZ then CPIOBSZ else n - |b|;
        var part, got := Readhdr(ct);
        if !got {
          return b, false;
        }
        Regroup(b, part, Left());
        b := b + part;
      }
      ok := true;
    }

    // cpio.c:346-378 with every file wanted.
    method CopyIn() returns (r: Contents)
      requires Valid()
      modifies this`pos, this`nleft, this`ip, cbuf
      ensures r == Extract(old(Left()))
    {
      hide Whole, Extract;
      ghost var all := Left();
      var files: seq<File> := [];
      var got := Gethdr();
      assert Extract(all) == Joined(files, Extract(all));
      while got.Named?
        invariant got.Named? ==> Valid() && got.name != TRAILER && Extract(all) == Joined(files, ExtractNamed(got.h, got.name, Left()))
        invariant got.Stop? ==> Extract(all) == Contents(files, got.end)
        decreases if got.Named? then 1 + |Left()| else 0
      {
        ghost var left := Left();
        var h, name := got.h, got.name;
        var data, ok := Data(DataSize(h));
        if !ok {
          return Contents(files, EndOfTape);
        }
        assert left[..DataSize(h)] == data && left[DataSize(h)..] == Left();
        ghost var f, rest := File(h.st, name, data), Extract(Left());
        assert ExtractNamed(h, name, left) == Prepend(f, rest);
        JoinedMore(files, f, rest);
        files := files + [File(h.st, name, data)];
        got := Gethdr();
      }
      r := Contents(files, got.end);
    }
  }

  datatype Got = Named(h: Header, name: string) | Stop(end: Ending)

  lemma RecordRead(buf: string, tape: string, a: nat, b: nat)
    requires |buf| > 0 && b == a + |buf| <= |tape| && buf == tape[a..b]
    ensures a + Whole(|tape| - a, |buf|) <= |tape| && b + Whole(|tape| - b, |buf|) <= |tape|
    ensures buf[0..0 + |buf|] + tape[b..b + Whole(|tape| - b, |buf|)] == buf[0..0 + 0] + tape[a..a + Whole(|tape| - a, |buf|)]
  {
    WholeLess(|tape| - a, |buf|);
    hide Whole;
    var w := Whole(|tape| - b, |buf|);
    assert tape[a..a + |buf| + w] == tape[a..b] + tape[b..b + w];
  }

  lemma MoreRead(buf: string, got: nat, rv: nat, tape: string, a: nat, b: nat, c: nat)
    requires got + rv <= |buf| && a <= b <= c <= |tape|
    requires buf[..got] == tape[a..b] && buf[got..got + rv] == tape[b..c]
    ensures buf[..got + rv] == tape[a..c]
  {
    assert buf[..got + rv] == buf[..got] + buf[got..got + rv];
    assert tape[a..c] == tape[a..b] + tape[b..c];
  }

  lemma Slices(s: string, a: nat, b: nat, c: nat)
    requires a <= b <= c <= |s|
    ensures s[a..b] + s[b..c] == s[a..c]
  {
  }

  lemma Regroup(a: string, b: string, c: string)
    ensures a + (b + c) == (a + b) + c
  {
  }

  lemma AtTheTrailer(h: Header, t: string)
    ensures ExtractNamed(h, TRAILER, t) == Contents([], AtTrailer)
  {
  }

  function Joined(files: seq<File>, c: Contents): Contents {
    Contents(files + c.files, c.ending)
  }

  lemma JoinedMore(files: seq<File>, f: File, c: Contents)
    ensures Joined(files, Prepend(f, c)) == Joined(files + [f], c)
  {
    assert files + ([f] + c.files) == (files + [f]) + c.files;
  }

  lemma {:induction false} WholeLess(n: nat, b: nat)
    requires 0 < b <= n
    ensures Whole(n, b) == Whole(n - b, b) + b
  {
  }

  lemma {:induction false} NoneWhole(n: nat, b: nat)
    requires b > 0
    ensures n < b ==> Whole(n, b) == 0
    ensures n >= b ==> Whole(n, b) >= b
  {
  }

  // ---- There and back

  // The files before the first one that is named as the trailer is.
  function Before(fs: seq<File>): seq<File> {
    if fs == [] || fs[0].name == TRAILER then [] else [fs[0]] + Before(fs[1..])
  }

  // They are the files in front of the first with the trailer's name.
  lemma {:induction false} BeforeFirst(fs: seq<File>, k: nat)
    requires k < |fs| && fs[k].name == "TRAILER!!!" && forall j :: 0 <= j < k ==> fs[j].name != "TRAILER!!!"
    ensures Before(fs) == fs[..k]
  {
    if k > 0 {
      BeforeFirst(fs[1..], k - 1);
      assert fs[..k] == [fs[0]] + fs[1..][..k - 1];
    }
  }

  lemma {:induction false} BeforeAll(fs: seq<File>)
    ensures Before(fs) == fs <==> forall k :: 0 <= k < |fs| ==> fs[k].name != TRAILER
  {
    if fs != [] {
      BeforeAll(fs[1..]);
      assert fs == [fs[0]] + fs[1..];
      assert (forall k :: 0 <= k < |fs| ==> fs[k].name != TRAILER) ==> forall k :: 0 <= k < |fs| - 1 ==> fs[1..][k].name != TRAILER;
      if fs[0].name != TRAILER && Before(fs[1..]) == fs[1..] {
        forall k | 0 <= k < |fs| ensures fs[k].name != TRAILER {
          if k > 0 { assert fs[1..][k - 1].name != TRAILER; }
        }
      }
    }
  }

  lemma MembersLast(fs: seq<File>)
    requires fs != []
    ensures Members(fs) == Members(fs[..|fs| - 1]) + Member(fs[|fs| - 1])
  {
  }

  lemma NoMembers()
    ensures Members([]) == ""
  {
  }

  lemma {:induction false} MembersFirst(fs: seq<File>)
    requires fs != []
    ensures Members(fs) == Member(fs[0]) + Members(fs[1..])
  {
    hide Member, Members;
    MembersLast(fs);
    var n := |fs| - 1;
    if n > 0 {
      MembersFirst(fs[..n]);
      MembersLast(fs[1..]);
      assert fs[..n][1..] == fs[1..][..n - 1] && fs[..n][0] == fs[0];
      Regroup(Member(fs[0]), Members(fs[1..][..n - 1]), Member(fs[n]));
    } else {
      assert fs[..0] == [] == fs[1..];
      NoMembers();
    }
  }

  // Whatever follows the archive is never looked at.
  lemma {:induction false} ExtractArchive(fs: seq<File>, last: Stat, more: string)
    requires StatFits(last) && forall k :: 0 <= k < |fs| ==> Archivable(fs[k])
    ensures Extract(Archive(fs, last) + more) == Contents(Before(fs), AtTrailer)
  {
    hide Extract, Member, Archivable, StatFits;
    if fs == [] {
      TrailerFits(last);
      ExtractMember(File(last, TRAILER, ""), more);
      assert Archive(fs, last) + more == Member(File(last, TRAILER, "")) + more;
    } else {
      MembersFirst(fs);
      ExtractMember(fs[0], Archive(fs[1..], last) + more);
      assert Archive(fs, last) + more == Member(fs[0]) + (Archive(fs[1..], last) + more);
      ExtractArchive(fs[1..], last, more);
    }
  }

  lemma TrailerFits(last: Stat)
    requires StatFits(last)
    ensures Archivable(File(last, TRAILER, ""))
  {
  }

  // Copied out and in again with records of one size, the files come back, up to one
  // that has the trailer's name.
  method OutAndIn(files: seq<File>, last: Stat, bufsize: nat) returns (r: Contents)
    requires bufsize > 0 && StatFits(last) && forall k :: 0 <= k < |files| ==> Archivable(files[k])
    ensures r == Contents(Before(files), AtTrailer)
    ensures r.files == files <==> forall k :: 0 <= k < |files| ==> files[k].name != TRAILER
  {
    hide Whole, Archive, Extract, Before, StatFits, Archivable;
    var out := new Writer(bufsize);
    out.CopyOut(files, last);
    var tape := out.tape;
    var back := new Reader(bufsize, tape);
    ghost var n := |Archive(files, last)|;
    assert tape[..|tape|] == tape == Archive(files, last) + tape[n..];
    r := back.CopyIn();
    ExtractArchive(files, last, tape[n..]);
    BeforeAll(files);
  }
}
