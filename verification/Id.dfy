/** pkg/id/id.go: the sixteen-byte identifier, its canonical text and the parser of it. A
    Go string is bytes; here a string's characters stand for them. */
module Id {
  import opened Collections
  import opened Hex

  type ID = i: seq<Byte> | |i| == 16 witness [0, 0, 0, 0, 0, 0, 0, 0, 0, 0, 0, 0, 0, 0, 0, 0]

  const NIL: ID := [0, 0, 0, 0, 0, 0, 0, 0, 0, 0, 0, 0, 0, 0, 0, 0]

  datatype Problem = BadLength | BadHyphens | NotHexadecimal | NilIdentifier

  datatype Parsed = Ok(value: ID) | Rejected(problem: Problem)

  function Version(i: ID): nat {
    i[6] / 16
  }

  /** The Unix millisecond in the first six bytes, for version 7 only. */
  function Time(i: ID): (r: (int, bool)) {
    if Version(i) != 7 then (0, false)
    else
      var b0: int, b1: int, b2: int, b3: int, b4: int, b5: int := i[0], i[1], i[2], i[3], i[4], i[5];
      (b0 * 0x100_0000_0000 + b1 * 0x1_0000_0000 + b2 * 0x100_0000 + b3 * 0x1_0000 + b4 * 0x100 + b5, true)
  }

  // ---- Hexadecimal ------------------------------------------------------------

  function Digit(n: nat): char
    requires n < 16
  {
    if n < 10 then ('0' as int + n) as char else ('a' as int + n - 10) as char
  }

  function HexOf(bs: seq<Byte>): (s: string)
    ensures |s| == 2 * |bs|
  {
    if bs == [] then "" else [Digit(bs[0] / 16), Digit(bs[0] % 16)] + HexOf(bs[1..])
  }

  lemma {:induction false} HexAt(bs: seq<Byte>, k: nat)
    requires k < |bs|
    ensures HexOf(bs)[2 * k] == Digit(bs[k] / 16) && HexOf(bs)[2 * k + 1] == Digit(bs[k] % 16)
  {
    if k > 0 {
      HexAt(bs[1..], k - 1);
    }
  }

  predicate AllHex(s: string) {
    forall c :: c in s ==> IsHex(c)
  }

  function BytesOf(s: string): (bs: seq<Byte>)
    requires AllHex(s) && |s| % 2 == 0
    ensures |bs| == |s| / 2
  {
    if s == [] then []
    else
      assert s[0] in s && s[1] in s;
      [DigitValue(s[0]) * 16 + DigitValue(s[1])] + BytesOf(s[2..])
  }

  function LowerChar(c: char): char {
    if 'A' <= c <= 'Z' then (c as int + 32) as char else c
  }

  function Lower(s: string): string {
    seq(|s|, k requires 0 <= k < |s| => LowerChar(s[k]))
  }

  lemma ValueOfDigit(n: nat)
    requires n < 16
    ensures IsHex(Digit(n)) && DigitValue(Digit(n)) == n
  {
  }

  lemma DigitOfValue(c: char)
    requires IsHex(c)
    ensures Digit(DigitValue(c)) == LowerChar(c)
  {
  }

  lemma Nibbles(b: Byte)
    ensures b / 16 < 16 && b % 16 < 16 && (b / 16) * 16 + b % 16 == b
  {
  }

  lemma {:induction false} HexThenBytes(bs: seq<Byte>)
    ensures AllHex(HexOf(bs)) && BytesOf(HexOf(bs)) == bs
  {
    if bs == [] {
    } else {
      var s, b := HexOf(bs), bs[0];
      HexThenBytes(bs[1..]);
      Nibbles(b);
      ValueOfDigit(b / 16);
      ValueOfDigit(b % 16);
      assert s == [Digit(b / 16), Digit(b % 16)] + HexOf(bs[1..]);
      assert s[2..] == HexOf(bs[1..]);
      assert BytesOf(s) == [b] + BytesOf(s[2..]);
    }
  }

  lemma {:induction false} BytesThenHex(s: string)
    requires AllHex(s) && |s| % 2 == 0
    ensures HexOf(BytesOf(s)) == Lower(s)
  {
    if s == [] {
    } else {
      assert s[0] in s && s[1] in s;
      assert AllHex(s[2..]);
      BytesThenHex(s[2..]);
      DigitOfValue(s[0]);
      DigitOfValue(s[1]);
      var bs, hi, lo := BytesOf(s), DigitValue(s[0]), DigitValue(s[1]);
      assert bs[0] == hi * 16 + lo && bs[1..] == BytesOf(s[2..]);
      assert bs[0] / 16 == hi && bs[0] % 16 == lo;
      assert HexOf(bs) == [LowerChar(s[0]), LowerChar(s[1])] + Lower(s[2..]);
    }
  }

  // ---- Printing ------------------------------------------------------------------

  /** Lower-case hexadecimal in groups of 8-4-4-4-12. */
  function Canonical(i: ID): (s: string)
    ensures |s| == 36
  {
    HexOf(i[0..4]) + "-" + HexOf(i[4..6]) + "-" + HexOf(i[6..8]) + "-" + HexOf(i[8..10]) + "-" + HexOf(i[10..16])
  }

  /** hex.Encode into buf[at..]. */
  method HexEncode(buf: array<char>, at: nat, src: seq<Byte>)
    requires at + 2 * |src| <= buf.Length
    modifies buf
    ensures buf[..] == old(buf[..at]) + HexOf(src) + old(buf[at + 2 * |src|..])
  {
    for k := 0 to |src|
      invariant buf[..at] == old(buf[..at])
      invariant forall m :: 0 <= m < 2 * k ==> buf[at + m] == HexOf(src)[m]
      invariant buf[at + 2 * k..] == old(buf[at + 2 * k..])
    {
      HexAt(src, k);
      buf[at + 2 * k] := Digit(src[k] / 16);
      buf[at + 2 * k + 1] := Digit(src[k] % 16);
    }
    assert buf[at..at + 2 * |src|] == HexOf(src);
    InThree(buf[..], at, at + 2 * |src|);
  }

  lemma InThree<T>(s: seq<T>, at: nat, to: nat)
    requires at <= to <= |s|
    ensures s == s[..at] + s[at..to] + s[to..]
  {
  }

  method String(i: ID) returns (s: string)
    ensures s == Canonical(i)
  {
    var b := new char[36];
    HexEncode(b, 0, i[0..4]);
    b[8] := '-';
    assert b[..9] == HexOf(i[0..4]) + "-";
    HexEncode(b, 9, i[4..6]);
    b[13] := '-';
    assert b[..14] == HexOf(i[0..4]) + "-" + HexOf(i[4..6]) + "-";
    HexEncode(b, 14, i[6..8]);
    b[18] := '-';
    assert b[..19] == HexOf(i[0..4]) + "-" + HexOf(i[4..6]) + "-" + HexOf(i[6..8]) + "-";
    HexEncode(b, 19, i[8..10]);
    b[23] := '-';
    assert b[..24] == HexOf(i[0..4]) + "-" + HexOf(i[4..6]) + "-" + HexOf(i[6..8]) + "-" + HexOf(i[8..10]) + "-";
    HexEncode(b, 24, i[10..16]);
    s := b[..];
  }

  // ---- Parsing -----------------------------------------------------------------------

  function Stripped(s: string): string {
    if s == [] then [] else (if s[0] == '-' then [] else [s[0]]) + Stripped(s[1..])
  }

  predicate HyphensInPlace(s: string)
    requires |s| == 36
  {
    s[8] == '-' && s[13] == '-' && s[18] == '-' && s[23] == '-'
  }

  function ParseOf(s: string): Parsed {
    if |s| != 36 then Rejected(BadLength)
    else if !HyphensInPlace(s) then Rejected(BadHyphens)
    else
      var packed := Stripped(s);
      if |packed| != 32 || !AllHex(packed) then Rejected(NotHexadecimal)
      else
        var out := BytesOf(packed);
        if out == NIL then Rejected(NilIdentifier) else Ok(out)
  }

  lemma {:induction false} StrippedAppend(a: string, b: string)
    ensures Stripped(a + b) == Stripped(a) + Stripped(b)
  {
    if a == [] {
      assert a + b == b;
    } else {
      var s, head := a + b, if a[0] == '-' then [] else [a[0]];
      StrippedAppend(a[1..], b);
      assert s[0] == a[0] && s[1..] == a[1..] + b;
      Associate(head, Stripped(a[1..]), Stripped(b));
    }
  }

  lemma Associate<T>(x: seq<T>, y: seq<T>, z: seq<T>)
    ensures x + (y + z) == (x + y) + z
  {
  }

  lemma StrippedDash(a: string, rest: string)
    ensures Stripped(a + ("-" + rest)) == Stripped(a) + Stripped(rest)
  {
    StrippedAppend(a, "-" + rest);
    assert ("-" + rest)[1..] == rest;
  }

  lemma StrippedFive(a: string, b: string, c: string, d: string, e: string)
    ensures Stripped(a + b + c + d + e) == Stripped(a) + (Stripped(b) + (Stripped(c) + (Stripped(d) + Stripped(e))))
  {
    FiveFlat(a, b, c, d, e);
    StrippedAppend(a, b + (c + (d + e)));
    StrippedAppend(b, c + (d + e));
    StrippedAppend(c, d + e);
    StrippedAppend(d, e);
  }

  lemma FiveFlat<T>(a: seq<T>, b: seq<T>, c: seq<T>, d: seq<T>, e: seq<T>)
    ensures a + b + c + d + e == a + (b + (c + (d + e)))
  {
    Associate(a, b, c);
    Associate(a, b + c, d);
    Associate(b, c, d);
    Associate(a, b + (c + d), e);
    Associate(b, c + d, e);
    Associate(c, d, e);
  }

  lemma {:induction false} StrippedPlain(a: string)
    ensures |Stripped(a)| <= |a|
    ensures '-' !in Stripped(a)
    ensures |Stripped(a)| == |a| <==> '-' !in a
    ensures '-' !in a ==> Stripped(a) == a
  {
    if a == [] {
    } else {
      StrippedPlain(a[1..]);
    }
  }

  /** The five groups between the four hyphens. */
  function Groups(s: string): string
    requires |s| == 36
  {
    s[0..8] + s[9..13] + s[14..18] + s[19..23] + s[24..36]
  }

  lemma Cut<T>(s: seq<T>, from: nat, at: nat, to: nat)
    requires from <= at <= to <= |s|
    ensures s[from..to] == s[from..at] + s[at..to]
  {
  }

  lemma CutAtHyphen(s: string, from: nat, at: nat)
    requires from <= at < |s| == 36 && s[at] == '-'
    ensures s[from..36] == s[from..at] + ("-" + s[at + 1..36])
  {
    Cut(s, from, at, 36);
    Cut(s, at, at + 1, 36);
    assert s[at..at + 1] == "-";
  }

  lemma CutAtHyphens(s: string)
    requires |s| == 36 && HyphensInPlace(s)
    ensures s == s[0..8] + ("-" + (s[9..13] + ("-" + (s[14..18] + ("-" + (s[19..23] + ("-" + s[24..36])))))))
  {
    CutAtHyphen(s, 0, 8);
    CutAtHyphen(s, 9, 13);
    CutAtHyphen(s, 14, 18);
    CutAtHyphen(s, 19, 23);
    assert s[0..36] == s;
  }

  lemma StrippedGroups(s: string)
    requires |s| == 36 && HyphensInPlace(s)
    ensures |Groups(s)| == 32 && |Stripped(s)| <= 32
    ensures |Stripped(s)| == 32 <==> '-' !in Groups(s)
    ensures '-' !in Groups(s) ==> Stripped(s) == Groups(s)
  {
    var a, b, c, d, e := s[0..8], s[9..13], s[14..18], s[19..23], s[24..36];
    CutAtHyphens(s);
    assert Stripped("-") == [] by { assert "-"[1..] == ""; }
    StrippedDash(a, b + ("-" + (c + ("-" + (d + ("-" + e))))));
    StrippedDash(b, c + ("-" + (d + ("-" + e))));
    StrippedDash(c, d + ("-" + e));
    StrippedDash(d, e);
    StrippedFive(a, b, c, d, e);
    var g := Groups(s);
    StrippedPlain(g);
  }

  const HYPHENS: seq<nat> := [8, 13, 18, 23]

  /** hex.Decode: two digits a byte, refusing anything that is not one. */
  method HexDecode(packed: array<char>) returns (ok: bool, out: seq<Byte>)
    requires packed.Length % 2 == 0
    ensures ok <==> AllHex(packed[..])
    ensures ok ==> out == BytesOf(packed[..])
  {
    out := [];
    for k := 0 to packed.Length / 2
      invariant AllHex(packed[..2 * k]) && out == BytesOf(packed[..2 * k])
    {
      var hi, lo := packed[2 * k], packed[2 * k + 1];
      var next := packed[..2 * (k + 1)];
      assert next == packed[..2 * k] + [hi, lo];
      assert hi in packed[..] && lo in packed[..];
      if !IsHex(hi) || !IsHex(lo) {
        return false, [];
      }
      BytesAppend(packed[..2 * k], hi, lo);
      out := out + [DigitValue(hi) * 16 + DigitValue(lo)];
    }
    assert packed[..2 * (packed.Length / 2)] == packed[..];
    ok := true;
  }

  lemma {:induction false} BytesAppend(s: string, hi: char, lo: char)
    requires AllHex(s) && |s| % 2 == 0 && IsHex(hi) && IsHex(lo)
    ensures AllHex(s + [hi, lo]) && BytesOf(s + [hi, lo]) == BytesOf(s) + [DigitValue(hi) * 16 + DigitValue(lo)]
  {
    if s == [] {
      assert s + [hi, lo] == [hi, lo] && [hi, lo][2..] == [];
    } else {
      assert AllHex(s[2..]) && s[0] in s && s[1] in s;
      BytesAppend(s[2..], hi, lo);
      assert (s + [hi, lo])[2..] == s[2..] + [hi, lo];
    }
  }

  /** How many characters other than hyphens fit before position j, given the hyphens
      already known to be in place. */
  function Room(j: nat): nat {
    if j <= 8 then j else if j <= 13 then j - 1 else if j <= 18 then j - 2 else if j <= 23 then j - 3 else j - 4
  }

  method Parse(s: string) returns (r: Parsed)
    ensures r == ParseOf(s)
  {
    if |s| != 36 {
      return Rejected(BadLength);
    }
    for h := 0 to |HYPHENS|
      invariant forall m :: 0 <= m < h ==> s[HYPHENS[m]] == '-'
    {
      if s[HYPHENS[h]] != '-' {
        return Rejected(BadHyphens);
      }
    }
    assert s[HYPHENS[0]] == '-' && s[HYPHENS[1]] == '-' && s[HYPHENS[2]] == '-' && s[HYPHENS[3]] == '-';
    StrippedGroups(s);
    var packed := new char[32](_ => '\0');
    var n := 0;
    for j := 0 to |s|
      invariant n <= Room(j)
      invariant packed[..n] == Stripped(s[..j])
      invariant forall m :: n <= m < 32 ==> packed[m] == '\0'
    {
      assert s[..j + 1] == s[..j] + [s[j]];
      StrippedAppend(s[..j], [s[j]]);
      assert [s[j]][1..] == [];
      if s[j] == '-' {
        continue;
      }
      packed[n] := s[j];
      n := n + 1;
    }
    assert s[..|s|] == s;
    var ok, out := HexDecode(packed);
    if n < 32 {
      assert packed[..][n] == '\0' && '\0' in packed[..];
    } else {
      assert packed[..] == packed[..n];
    }
    if !ok {
      return Rejected(NotHexadecimal);
    }
    if out == NIL {
      return Rejected(NilIdentifier);
    }
    r := Ok(out);
  }

  // ---- What the two promise about each other ---------------------------------------

  lemma {:induction false} HexAppend(a: seq<Byte>, b: seq<Byte>)
    ensures HexOf(a + b) == HexOf(a) + HexOf(b)
  {
    if a == [] {
      assert a + b == b;
    } else {
      HexAppend(a[1..], b);
      assert (a + b)[0] == a[0] && (a + b)[1..] == a[1..] + b;
    }
  }

  lemma HexInGroups(i: ID)
    ensures HexOf(i) == HexOf(i[0..4]) + HexOf(i[4..6]) + HexOf(i[6..8]) + HexOf(i[8..10]) + HexOf(i[10..16])
  {
    var a, b, c, d, e := i[0..4], i[4..6], i[6..8], i[8..10], i[10..16];
    assert i == a + b + c + d + e;
    HexAppend(a + b + c + d, e);
    HexAppend(a + b + c, d);
    HexAppend(a + b, c);
    HexAppend(a, b);
  }

  function Dashed(a: string, b: string, c: string, d: string, e: string): string {
    a + "-" + b + "-" + c + "-" + d + "-" + e
  }

  lemma DashedGroups(a: string, b: string, c: string, d: string, e: string)
    requires |a| == 8 && |b| == |c| == |d| == 4 && |e| == 12
    ensures var s := Dashed(a, b, c, d, e);
            |s| == 36 && HyphensInPlace(s) && Groups(s) == a + b + c + d + e
  {
    var s := Dashed(a, b, c, d, e);
    assert s[0..8] == a && s[9..13] == b && s[14..18] == c;
    assert s[19..23] == d && s[24..36] == e;
  }

  lemma CanonicalGroups(i: ID)
    ensures HyphensInPlace(Canonical(i)) && Groups(Canonical(i)) == HexOf(i)
  {
    HexInGroups(i);
    DashedGroups(HexOf(i[0..4]), HexOf(i[4..6]), HexOf(i[6..8]), HexOf(i[8..10]), HexOf(i[10..16]));
    assert Canonical(i) == Dashed(HexOf(i[0..4]), HexOf(i[4..6]), HexOf(i[6..8]), HexOf(i[8..10]), HexOf(i[10..16]));
  }

  /** Printing then parsing gives the identifier back; the nil one is refused. */
  lemma ParseUndoesString(i: ID)
    ensures ParseOf(Canonical(i)) == if i == NIL then Rejected(NilIdentifier) else Ok(i)
  {
    CanonicalGroups(i);
    StrippedGroups(Canonical(i));
    HexThenBytes(i);
    assert '-' !in HexOf(i);
  }

  /** With the hyphens in place the groups determine the text. */
  lemma RegroupedIsSame(s: string, t: string)
    requires |s| == |t| == 36 && HyphensInPlace(s) && HyphensInPlace(t) && Groups(s) == Groups(t)
    ensures s == t
  {
    var g, h := Groups(s), Groups(t);
    assert s[0..8] == g[0..8] == h[0..8] == t[0..8];
    assert s[9..13] == g[8..12] == h[8..12] == t[9..13];
    assert s[14..18] == g[12..16] == h[12..16] == t[14..18];
    assert s[19..23] == g[16..20] == h[16..20] == t[19..23];
    assert s[24..36] == g[20..32] == h[20..32] == t[24..36];
    assert s == Dashed(s[0..8], s[9..13], s[14..18], s[19..23], s[24..36]);
    assert t == Dashed(t[0..8], t[9..13], t[14..18], t[19..23], t[24..36]);
  }

  lemma LowerGroups(s: string)
    requires |s| == 36 && HyphensInPlace(s)
    ensures HyphensInPlace(Lower(s)) && Groups(Lower(s)) == Lower(Groups(s))
  {
    var l := Lower(s);
    assert l[0..8] == Lower(s[0..8]) && l[9..13] == Lower(s[9..13]) && l[14..18] == Lower(s[14..18]);
    assert l[19..23] == Lower(s[19..23]) && l[24..36] == Lower(s[24..36]);
  }

  /** Parsing then printing gives the text back in lower case. */
  lemma StringNormalisesParse(s: string)
    requires ParseOf(s).Ok?
    ensures Canonical(ParseOf(s).value) == Lower(s)
  {
    StrippedGroups(s);
    var i, g := ParseOf(s).value, Groups(s);
    assert Stripped(s) == g;
    BytesThenHex(g);
    CanonicalGroups(i);
    LowerGroups(s);
    RegroupedIsSame(Canonical(i), Lower(s));
  }

  ghost predicate AllZeroDigits(s: string) {
    forall k :: 0 <= k < |s| ==> s[k] == '0'
  }

  ghost predicate AllZeroBytes(bs: seq<Byte>) {
    forall k :: 0 <= k < |bs| ==> bs[k] == 0
  }

  lemma {:induction false} ZeroBytes(s: string)
    requires AllHex(s) && |s| % 2 == 0
    ensures AllZeroBytes(BytesOf(s)) <==> AllZeroDigits(s)
  {
    if s == [] {
    } else {
      assert s[0] in s && s[1] in s;
      var b, rest, t := DigitValue(s[0]) * 16 + DigitValue(s[1]), BytesOf(s[2..]), s[2..];
      assert AllHex(t);
      ZeroBytes(t);
      assert BytesOf(s) == [b] + rest && s == [s[0], s[1]] + t;
      assert b == 0 <==> s[0] == '0' && s[1] == '0';
      HeadZero(b, rest);
      HeadZeroDigits(s[0], s[1], t);
    }
  }

  lemma HeadZero(b: Byte, rest: seq<Byte>)
    ensures AllZeroBytes([b] + rest) <==> b == 0 && AllZeroBytes(rest)
  {
    var all := [b] + rest;
    if AllZeroBytes(all) {
      assert all[0] == b;
      forall k | 0 <= k < |rest| ensures rest[k] == 0 {
        assert all[k + 1] == rest[k];
      }
    }
  }

  lemma HeadZeroDigits(c: char, d: char, rest: string)
    ensures AllZeroDigits([c, d] + rest) <==> c == '0' && d == '0' && AllZeroDigits(rest)
  {
    var all := [c, d] + rest;
    if AllZeroDigits(all) {
      assert all[0] == c && all[1] == d;
      forall k | 0 <= k < |rest| ensures rest[k] == '0' {
        assert all[k + 2] == rest[k];
      }
    }
  }

  predicate HyphenAt(k: int) {
    k == 8 || k == 13 || k == 18 || k == 23
  }

  lemma InGroups(s: string, c: char)
    requires |s| == 36
    ensures c in Groups(s) <==> exists k :: 0 <= k < 36 && !HyphenAt(k) && s[k] == c
  {
    var g := Groups(s);
    if c in g {
      var m :| 0 <= m < 32 && g[m] == c;
      var k := if m < 8 then m else if m < 12 then m + 1 else if m < 16 then m + 2 else if m < 20 then m + 3 else m + 4;
      assert s[k] == c && !HyphenAt(k);
    }
    if k :| 0 <= k < 36 && !HyphenAt(k) && s[k] == c {
      var m := if k < 8 then k else if k < 13 then k - 1 else if k < 18 then k - 2 else if k < 23 then k - 3 else k - 4;
      assert g[m] == c;
    }
  }

  lemma GroupsHold(s: string)
    requires |s| == 36
    ensures AllHex(Groups(s)) <==> forall k :: 0 <= k < 36 && !HyphenAt(k) ==> IsHex(s[k])
    ensures AllZeroDigits(Groups(s)) <==> forall k :: 0 <= k < 36 && !HyphenAt(k) ==> s[k] == '0'
  {
    forall c ensures c in Groups(s) <==> exists k :: 0 <= k < 36 && !HyphenAt(k) && s[k] == c {
      InGroups(s, c);
    }
    ZeroDigitsByElement(Groups(s));
    if AllZeroDigits(Groups(s)) {
      forall k | 0 <= k < 36 && !HyphenAt(k) ensures s[k] == '0' {
        assert s[k] in Groups(s);
      }
    }
    if AllHex(Groups(s)) {
      forall k | 0 <= k < 36 && !HyphenAt(k) ensures IsHex(s[k]) {
        assert s[k] in Groups(s);
      }
    }
  }

  lemma ZeroDigitsByElement(s: string)
    ensures AllZeroDigits(s) <==> forall c :: c in s ==> c == '0'
  {
    if forall c :: c in s ==> c == '0' {
      forall k | 0 <= k < |s| ensures s[k] == '0' {
        assert s[k] in s;
      }
    }
  }

  lemma NilIsZeros(i: ID)
    ensures i == NIL <==> AllZeroBytes(i)
  {
    assert NIL == seq(16, _ => 0);
  }

  /** Exactly what is accepted: 36 characters, hyphens at 8, 13, 18 and 23, hexadecimal
      digits of either case everywhere else, and not all of them zero. */
  lemma ParseAcceptsExactly(s: string)
    ensures ParseOf(s).Ok? <==>
            && |s| == 36 && HyphensInPlace(s)
            && (forall k :: 0 <= k < 36 && !HyphenAt(k) ==> IsHex(s[k]))
            && (exists k :: 0 <= k < 36 && !HyphenAt(k) && s[k] != '0')
  {
    if |s| == 36 && HyphensInPlace(s) {
      var g := Groups(s);
      StrippedGroups(s);
      GroupsHold(s);
      if AllHex(g) {
        ZeroBytes(g);
        NilIsZeros(BytesOf(g));
      }
    }
  }

  /** The digits written are small, and Lower changes capital letters only. */
  lemma DigitsAre(n: nat, c: char)
    requires n < 16
    ensures Digit(n) as int == if n < 10 then 48 + n else 87 + n
    ensures LowerChar(c) as int == if 65 <= c as int <= 90 then c as int + 32 else c as int
  {
  }

  /** The version is the seventh byte's upper half. */
  lemma VersionIs(i: ID)
    ensures 16 * Version(i) <= i[6] < 16 * Version(i) + 16
  {
  }

  /** Why a text is refused: by the first of the four faults it has. */
  lemma ParseRefuses(s: string)
    ensures ParseOf(s) == Rejected(BadLength) <==> |s| != 36
    ensures ParseOf(s) == Rejected(BadHyphens) <==>
              |s| == 36 && (s[8] != '-' || s[13] != '-' || s[18] != '-' || s[23] != '-')
    ensures ParseOf(s) == Rejected(NotHexadecimal) <==>
              && |s| == 36 && s[8] == s[13] == s[18] == s[23] == '-'
              && exists k :: 0 <= k < 36 && !HyphenAt(k) && !IsHex(s[k])
    ensures ParseOf(s) == Rejected(NilIdentifier) <==>
              && |s| == 36 && s[8] == s[13] == s[18] == s[23] == '-'
              && forall k :: 0 <= k < 36 && !HyphenAt(k) ==> s[k] == '0'
  {
    if |s| == 36 && HyphensInPlace(s) {
      var g := Groups(s);
      StrippedGroups(s);
      GroupsHold(s);
      if AllHex(g) {
        ZeroBytes(g);
        NilIsZeros(BytesOf(g));
      }
    }
  }
}
