/** validResearchUnicode in root/sources.go: a scan for what encoding/json would silently
    replace. Sections 7 and 8.2 of RFC 8259, and section 4 of RFC 3629. */
module Unicode {
  import opened Collections
  import opened Hex

  const QUOTE: Byte := 0x22
  const BACKSLASH: Byte := 0x5C
  const LETTER_U: Byte := 0x75

  predicate Continues(b: Byte) {
    0x80 <= b <= 0xBF
  }

  /** The length of the UTF-8 character at the front, or 0 when there is none. */
  function CharLength(s: seq<Byte>): (n: nat)
    ensures n <= |s|
  {
    if s == [] then 0
    else if s[0] < 0x80 then 1
    else if 0xC2 <= s[0] <= 0xDF then if |s| >= 2 && Continues(s[1]) then 2 else 0
    else if 0xE0 <= s[0] <= 0xEF then
      if |s| >= 3 && Continues(s[1]) && Continues(s[2]) && (s[0] == 0xE0 ==> s[1] >= 0xA0)
          && (s[0] == 0xED ==> s[1] <= 0x9F) then 3 else 0
    else if 0xF0 <= s[0] <= 0xF4 then
      if |s| >= 4 && Continues(s[1]) && Continues(s[2]) && Continues(s[3])
         && (s[0] == 0xF0 ==> s[1] >= 0x90) && (s[0] == 0xF4 ==> s[1] <= 0x8F) then 4 else 0
    else 0
  }

  /** utf8.Valid. */
  predicate ValidUtf8(s: seq<Byte>) {
    s == [] || (CharLength(s) > 0 && ValidUtf8(s[CharLength(s)..]))
  }

  /** strconv.ParseUint of four digits, base 16: no sign, no prefix, no underscore. */
  function ParseUnit(d: seq<Byte>): Option<nat>
    requires |d| == 4
  {
    if forall k :: 0 <= k < 4 ==> IsHex(d[k] as char)
    then Some(HexAt(d, 0) * 4096 + HexAt(d, 1) * 256 + HexAt(d, 2) * 16 + HexAt(d, 3))
    else None
  }

  function HexAt(d: seq<Byte>, k: nat): nat
    requires k < |d| && IsHex(d[k] as char)
  {
    DigitValue(d[k] as char)
  }

  predicate IsHigh(unit: nat) {
    0xD800 <= unit <= 0xDBFF
  }

  predicate IsLow(unit: nat) {
    0xDC00 <= unit <= 0xDFFF
  }

  // ---- The definitions, spelled out ------------------------------------------------------

  /** The code points UTF-8 encodes: all but the surrogates. */
  ghost predicate Scalar(c: nat) {
    c < 0xD800 || 0xE000 <= c <= 0x10FFFF
  }

  /** The encoding, section 3 of RFC 3629. */
  ghost function Utf8(c: nat): seq<Byte>
    requires Scalar(c)
  {
    if c < 0x80 then [c]
    else if c < 0x800 then [0xC0 + c / 64, 0x80 + c % 64]
    else if c < 0x1_0000 then [0xE0 + c / 4096, 0x80 + c / 64 % 64, 0x80 + c % 64]
    else [0xF0 + c / 262144, 0x80 + c / 4096 % 64, 0x80 + c / 64 % 64, 0x80 + c % 64]
  }

  ghost predicate Scalars(cs: seq<nat>) {
    forall k :: 0 <= k < |cs| ==> Scalar(cs[k])
  }

  ghost function Utf8All(cs: seq<nat>): seq<Byte>
    requires Scalars(cs)
  {
    if cs == [] then [] else Utf8(cs[0]) + Utf8All(cs[1..])
  }

  lemma Base64Digits(c: nat)
    ensures c / 4096 == c / 64 / 64 && c / 262144 == c / 64 / 64 / 64
    ensures c == c / 64 * 64 + c % 64
  {
  }

  lemma FirstOfThree(c: nat)
    requires 0x800 <= c < 0x1_0000 && Scalar(c)
    ensures c / 4096 <= 15 && (c / 4096 == 0 ==> c / 64 % 64 >= 32) && (c / 4096 == 13 ==> c / 64 % 64 < 32)
  {
    Base64Digits(c);
  }

  lemma FirstOfFour(c: nat)
    requires 0x1_0000 <= c < 0x11_0000
    ensures c / 262144 <= 4
    ensures (c / 262144 == 0 ==> c / 4096 % 64 >= 16) && (c / 262144 == 4 ==> c / 4096 % 64 < 16)
  {
    Base64Digits(c);
  }

  lemma ScalarIsChar(c: nat, t: seq<Byte>)
    requires Scalar(c)
    ensures CharLength(Utf8(c) + t) == |Utf8(c)|
  {
    var s := Utf8(c) + t;
    if c < 0x80 {
      assert s[0] == c;
    } else if c < 0x800 {
      assert s[0] == 0xC0 + c / 64 && s[1] == 0x80 + c % 64;
    } else if c < 0x1_0000 {
      FirstOfThree(c);
      assert s[0] == 0xE0 + c / 4096 && s[1] == 0x80 + c / 64 % 64 && s[2] == 0x80 + c % 64;
    } else {
      FirstOfFour(c);
      assert s[0] == 0xF0 + c / 262144 && s[1] == 0x80 + c / 4096 % 64;
      assert s[2] == 0x80 + c / 64 % 64 && s[3] == 0x80 + c % 64;
    }
  }

  /** A number from its last digit in base 64 and the rest. */
  lemma OneMoreDigit(q: nat, r: nat)
    requires r < 64
    ensures (q * 64 + r) / 64 == q && (q * 64 + r) % 64 == r
  {
  }

  lemma TwoBytes(a: nat, b: nat) returns (c: nat)
    requires 0xC2 <= a <= 0xDF && 0x80 <= b <= 0xBF
    ensures Scalar(c) && Utf8(c) == [a, b]
  {
    c := (a - 0xC0) * 64 + (b - 0x80);
    OneMoreDigit(a - 0xC0, b - 0x80);
  }

  lemma ThreeBytes(a: nat, b: nat, d: nat) returns (c: nat)
    requires 0xE0 <= a <= 0xEF && 0x80 <= b <= 0xBF && 0x80 <= d <= 0xBF
    requires (a == 0xE0 ==> b >= 0xA0) && (a == 0xED ==> b <= 0x9F)
    ensures Scalar(c) && Utf8(c) == [a, b, d]
  {
    var q := (a - 0xE0) * 64 + (b - 0x80);
    c := q * 64 + (d - 0x80);
    OneMoreDigit(q, d - 0x80);
    OneMoreDigit(a - 0xE0, b - 0x80);
    Base64Digits(c);
  }

  lemma FourBytes(a: nat, b: nat, d: nat, e: nat) returns (c: nat)
    requires 0xF0 <= a <= 0xF4 && 0x80 <= b <= 0xBF && 0x80 <= d <= 0xBF && 0x80 <= e <= 0xBF
    requires (a == 0xF0 ==> b >= 0x90) && (a == 0xF4 ==> b <= 0x8F)
    ensures Scalar(c) && Utf8(c) == [a, b, d, e]
  {
    var p := (a - 0xF0) * 64 + (b - 0x80);
    var q := p * 64 + (d - 0x80);
    c := q * 64 + (e - 0x80);
    OneMoreDigit(q, e - 0x80);
    OneMoreDigit(p, d - 0x80);
    OneMoreDigit(a - 0xF0, b - 0x80);
    Base64Digits(c);
  }

  lemma CharIsScalar(s: seq<Byte>) returns (c: nat)
    requires CharLength(s) > 0
    ensures Scalar(c) && Utf8(c) == s[..CharLength(s)]
  {
    if s[0] < 0x80 {
      c := s[0];
    } else if s[0] <= 0xDF {
      c := TwoBytes(s[0], s[1]);
    } else if s[0] <= 0xEF {
      c := ThreeBytes(s[0], s[1], s[2]);
    } else {
      c := FourBytes(s[0], s[1], s[2], s[3]);
    }
  }

  lemma {:induction false} ValidIsEncoded(s: seq<Byte>) returns (cs: seq<nat>)
    requires ValidUtf8(s)
    ensures Scalars(cs) && s == Utf8All(cs)
    decreases |s|
  {
    if s == [] {
      cs := [];
    } else {
      var n := CharLength(s);
      var ds := ValidIsEncoded(s[n..]);
      var c := CharIsScalar(s);
      cs := [c] + ds;
      assert cs[1..] == ds && s == s[..n] + s[n..];
    }
  }

  lemma {:induction false} EncodedIsValid(cs: seq<nat>)
    requires Scalars(cs)
    ensures ValidUtf8(Utf8All(cs))
  {
    if cs == [] {
    } else {
      var t := Utf8All(cs[1..]);
      EncodedIsValid(cs[1..]);
      ScalarIsChar(cs[0], t);
      assert (Utf8(cs[0]) + t)[|Utf8(cs[0])|..] == t;
    }
  }

  /** Bytes are valid UTF-8 exactly when they are some code points' encodings, one after another. */
  lemma ValidUtf8Is(s: seq<Byte>)
    ensures ValidUtf8(s) <==> exists cs :: Scalars(cs) && s == Utf8All(cs)
  {
    if ValidUtf8(s) {
      var cs := ValidIsEncoded(s);
    }
    if cs :| Scalars(cs) && s == Utf8All(cs) {
      EncodedIsValid(cs);
    }
  }

  /** The punctuation the scan looks for, and the sixteen bits four hexadecimal digits, of either
      case, stand for. */
  lemma UnitIs(d: seq<Byte>)
    requires |d| == 4
    ensures QUOTE as char == '"' && BACKSLASH as char == '\\' && LETTER_U as char == 'u'
    ensures ParseUnit(d).Some? <==> forall k :: 0 <= k < 4 ==> IsHex(d[k] as char)
    ensures ParseUnit(d).Some? ==>
              var unit := ParseUnit(d).value;
              && unit < 0x1_0000
              && DigitValue(d[0] as char) == unit / 4096 && DigitValue(d[1] as char) == unit / 256 % 16
              && DigitValue(d[2] as char) == unit / 16 % 16 && DigitValue(d[3] as char) == unit % 16
  {
    if ParseUnit(d).Some? {
      FourDigits(HexAt(d, 0), HexAt(d, 1), HexAt(d, 2), HexAt(d, 3));
    }
  }

  lemma FourDigits(a: nat, b: nat, c: nat, e: nat)
    requires a < 16 && b < 16 && c < 16 && e < 16
    ensures var unit := a * 4096 + b * 256 + c * 16 + e;
            unit / 4096 == a && unit / 256 % 16 == b && unit / 16 % 16 == c && unit % 16 == e
  {
    var unit := a * 4096 + b * 256 + c * 16 + e;
    assert unit / 256 == a * 16 + b;
  }

  /** The two halves of a code point past 0xFFFF. */
  ghost predicate IsPairFor(high: nat, low: nat, c: nat) {
    && 0x1_0000 <= c <= 0x10_FFFF
    && high == 0xD800 + (c - 0x1_0000) / 0x400 && low == 0xDC00 + (c - 0x1_0000) % 0x400
  }

  /** A high and a low surrogate are exactly the halves of one such code point. */
  lemma SurrogatesArePairs(high: nat, low: nat)
    ensures IsHigh(high) && IsLow(low) <==> exists c :: IsPairFor(high, low, c)
  {
    if IsHigh(high) && IsLow(low) {
      var c := 0x1_0000 + (high - 0xD800) * 0x400 + (low - 0xDC00);
      assert (c - 0x1_0000) / 0x400 == high - 0xD800;
      assert IsPairFor(high, low, c);
    }
  }

  // ---- The scan --------------------------------------------------------------------------

  /** What is left of the scan, from some byte on, inside a string literal or outside. */
  predicate Scan(s: seq<Byte>, inString: bool)
    decreases |s|
  {
    if s == [] then true
    else if s[0] == QUOTE then Scan(s[1..], !inString)
    else if !inString || s[0] != BACKSLASH then Scan(s[1..], inString)
    else if |s| < 2 then false
    else if s[1] != LETTER_U then Scan(s[2..], inString)
    else if |s| < 6 then false
    else
      match ParseUnit(s[2..6])
      case None => false
      case Some(unit) =>
        if IsLow(unit) then false
        else if IsHigh(unit) then
          |s| >= 12 && s[6] == BACKSLASH && s[7] == LETTER_U && ParseUnit(s[8..12]).Some?
              && IsLow(ParseUnit(s[8..12]).value)
          && Scan(s[12..], inString)
        else Scan(s[6..], inString)
  }

  /** What the check accepts. */
  predicate Accepts(body: seq<Byte>) {
    ValidUtf8(body) && Scan(body, false)
  }

  method ValidResearchUnicode(body: seq<Byte>) returns (valid: bool)
    ensures valid <==> Accepts(body)
  {
    if !ValidUtf8(body) {
      return false;
    }
    var inString := false;
    var i := 0;
    while i < |body|
      invariant i <= |body| && Scan(body, false) == Scan(body[i..], inString)
    {
      var rest := body[i..];
      Suffix(body, i);
      if body[i] == QUOTE {
        inString := !inString;
        i := i + 1;
        continue;
      }
      if !inString || body[i] != BACKSLASH {
        i := i + 1;
        continue;
      }
      i := i + 1;
      if i >= |body| {
        return false;
      }
      if body[i] != LETTER_U {
        i := i + 1;
        continue;
      }
      if i + 4 >= |body| {
        return false;
      }
      var unit := ParseUnit(body[i + 1..i + 5]);
      assert body[i + 1..i + 5] == rest[2..6];
      if unit.None? {
        return false;
      }
      i := i + 4;
      if 0xDC00 <= unit.value <= 0xDFFF {
        return false;
      }
      if 0xD800 <= unit.value <= 0xDBFF {
        if i + 6 >= |body| || body[i + 1] != BACKSLASH || body[i + 2] != LETTER_U {
          return false;
        }
        var low := ParseUnit(body[i + 3..i + 7]);
        assert body[i + 3..i + 7] == rest[8..12];
        if low.None? || low.value < 0xDC00 || low.value > 0xDFFF {
          return false;
        }
        i := i + 6;
      }
      i := i + 1;
    }
    valid := true;
  }

  lemma Suffix(body: seq<Byte>, i: nat)
    requires i < |body|
    ensures forall k :: 0 <= k && i + k <= |body| ==> body[i..][k..] == body[i + k..]
    ensures forall k :: 0 <= k && i + k < |body| ==> body[i..][k] == body[i + k]
  {
  }

  // ---- Texts with string literals ------------------------------------------------------------

  /** A character of a JSON string: itself, a backslash and a letter, or \u and four
      hexadecimal digits. */
  datatype Char = Plain(b: Byte) | Escaped(b: Byte) | Unit(digits: seq<Byte>)

  /** A JSON text as the scan needs to see it: bytes outside strings, which are never
      quotation marks, and string literals. */
  datatype Piece = Outside(b: Byte) | Literal(chars: seq<Char>)

  ghost predicate GoodChar(c: Char) {
    match c
    case Plain(b) => b != QUOTE && b != BACKSLASH
    case Escaped(b) => b != LETTER_U
    case Unit(digits) => |digits| == 4 && ParseUnit(digits).Some?
  }

  ghost predicate GoodText(text: seq<Piece>) {
    forall p :: p in text ==> GoodPiece(p)
  }

  function PrintChar(c: Char): seq<Byte> {
    match c
    case Plain(b) => [b]
    case Escaped(b) => [BACKSLASH, b]
    case Unit(digits) => [BACKSLASH, LETTER_U] + digits
  }

  function PrintChars(cs: seq<Char>): seq<Byte> {
    if cs == [] then [] else PrintChar(cs[0]) + PrintChars(cs[1..])
  }

  function Print(text: seq<Piece>): seq<Byte> {
    if text == [] then []
    else if text[0].Outside? then [text[0].b] + Print(text[1..])
    else [QUOTE] + (PrintChars(text[0].chars) + ([QUOTE] + Print(text[1..])))
  }

  ghost predicate High(c: Char) {
    c.Unit? && |c.digits| == 4 && ParseUnit(c.digits).Some? && IsHigh(ParseUnit(c.digits).value)
  }

  ghost predicate Low(c: Char) {
    c.Unit? && |c.digits| == 4 && ParseUnit(c.digits).Some? && IsLow(ParseUnit(c.digits).value)
  }

  /** Each high surrogate is followed at once by a low one, and each low one follows a high. */
  ghost predicate Paired(cs: seq<Char>) {
    && (forall k :: 0 <= k < |cs| && High(cs[k]) ==> k + 1 < |cs| && Low(cs[k + 1]))
    && (forall k :: 0 <= k < |cs| && Low(cs[k]) ==> k > 0 && High(cs[k - 1]))
  }

  lemma PairedPlain(cs: seq<Char>)
    requires cs != [] && !High(cs[0]) && !Low(cs[0])
    ensures Paired(cs) <==> Paired(cs[1..])
  {
    var t := cs[1..];
    assert forall k :: 0 <= k < |t| ==> t[k] == cs[k + 1];
    assert forall k :: 0 < k < |cs| ==> cs[k] == t[k - 1];
    if Paired(t) {
      forall k | 0 <= k < |cs| && Low(cs[k]) ensures k > 0 && High(cs[k - 1]) {
        assert Low(t[k - 1]);
      }
    }
  }

  lemma PairedPair(cs: seq<Char>)
    requires |cs| >= 2 && High(cs[0]) && Low(cs[1])
    ensures Paired(cs) <==> Paired(cs[2..])
  {
    var t := cs[2..];
    assert forall k :: 0 <= k < |t| ==> t[k] == cs[k + 2];
    assert forall k :: 1 < k < |cs| ==> cs[k] == t[k - 2];
    if Paired(t) {
      forall k | 0 <= k < |cs| && Low(cs[k]) ensures k > 0 && High(cs[k - 1]) {
        if k > 1 {
          assert Low(t[k - 2]);
        }
      }
    }
  }

  /** A character that is no surrogate is passed over. */
  lemma ScanChar(c: Char, t: seq<Byte>)
    requires GoodChar(c) && !High(c) && !Low(c)
    ensures Scan(PrintChar(c) + t, true) == Scan(t, true)
  {
    var s := PrintChar(c) + t;
    match c
    case Plain(b) => assert s[1..] == t;
    case Escaped(b) => assert s[2..] == t;
    case Unit(digits) => assert s[2..6] == digits && s[6..] == t;
  }

  lemma CharFirst(cs: seq<Char>, tail: seq<Byte>)
    requires cs != []
    ensures PrintChars(cs) + tail == PrintChar(cs[0]) + (PrintChars(cs[1..]) + tail)
  {
  }

  ghost predicate GoodChars(cs: seq<Char>) {
    forall c :: c in cs ==> GoodChar(c)
  }

  /** A literal up to the quotation mark that ends it, or up to the end of the bytes. */
  lemma {:induction false} ScanLiteral(cs: seq<Char>, tail: seq<Byte>)
    requires GoodChars(cs) && (tail == [] || tail[0] == QUOTE)
    ensures Scan(PrintChars(cs) + tail, true) <==> Paired(cs) && Scan(tail, true)
    decreases |cs|
  {
    if cs == [] {
      assert PrintChars(cs) + tail == tail;
    } else if !High(cs[0]) && !Low(cs[0]) {
      ScanLiteral(cs[1..], tail);
      PlainStep(cs, tail);
    } else if High(cs[0]) && |cs| > 1 && Low(cs[1]) {
      ScanLiteral(cs[2..], tail);
      PairStep(cs, tail);
    } else {
      LoneStep(cs, tail);
    }
  }

  lemma PlainStep(cs: seq<Char>, tail: seq<Byte>)
    requires GoodChars(cs) && cs != [] && !High(cs[0]) && !Low(cs[0])
    ensures Scan(PrintChars(cs) + tail, true) == Scan(PrintChars(cs[1..]) + tail, true)
    ensures Paired(cs) <==> Paired(cs[1..])
  {
    assert cs[0] in cs;
    CharFirst(cs, tail);
    ScanChar(cs[0], PrintChars(cs[1..]) + tail);
    PairedPlain(cs);
  }

  lemma PairStep(cs: seq<Char>, tail: seq<Byte>)
    requires GoodChars(cs) && |cs| > 1 && High(cs[0]) && Low(cs[1]) && (tail == [] || tail[0] == QUOTE)
    ensures Scan(PrintChars(cs) + tail, true) == Scan(PrintChars(cs[2..]) + tail, true)
    ensures Paired(cs) <==> Paired(cs[2..])
  {
    CharFirst(cs, tail);
    ScanSurrogate(cs, PrintChars(cs[1..]) + tail, tail);
    PairedPair(cs);
  }

  lemma LoneStep(cs: seq<Char>, tail: seq<Byte>)
    requires GoodChars(cs) && cs != [] && (tail == [] || tail[0] == QUOTE)
    requires Low(cs[0]) || (High(cs[0]) && !(|cs| > 1 && Low(cs[1])))
    ensures !Scan(PrintChars(cs) + tail, true) && !Paired(cs)
  {
    CharFirst(cs, tail);
    ScanSurrogate(cs, PrintChars(cs[1..]) + tail, tail);
  }

  /** A surrogate escape, and what stands after it. */
  lemma ScanSurrogate(cs: seq<Char>, t: seq<Byte>, tail: seq<Byte>)
    requires cs != [] && (High(cs[0]) || Low(cs[0])) && t == PrintChars(cs[1..]) + tail
    requires GoodChars(cs) && (tail == [] || tail[0] == QUOTE)
    ensures var s := PrintChar(cs[0]) + t;
            if High(cs[0]) && |cs| > 1 && Low(cs[1]) then Scan(s, true) == Scan(PrintChars(cs[2..]) + tail, true)
            else !Scan(s, true)
  {
    var s := PrintChar(cs[0]) + t;
    assert s[2..6] == cs[0].digits && s[6..] == t;
    if High(cs[0]) {
      AfterHigh(cs[1..], t, tail);
      assert |s| == 6 + |t| && (|t| >= 2 ==> s[6] == t[0] && s[7] == t[1]);
      if |t| >= 6 {
        assert s[8..12] == t[2..6] && s[12..] == t[6..];
      }
    }
  }

  /** These bytes begin with a low surrogate escape. */
  ghost predicate BeginsLow(t: seq<Byte>) {
    && |t| >= 6 && t[0] == BACKSLASH && t[1] == LETTER_U
    && ParseUnit(t[2..6]).Some? && IsLow(ParseUnit(t[2..6]).value)
  }

  /** The bytes after a high surrogate are a low one exactly when the next character is. */
  lemma AfterHigh(cs: seq<Char>, t: seq<Byte>, tail: seq<Byte>)
    requires t == PrintChars(cs) + tail && (tail == [] || tail[0] == QUOTE)
    requires GoodChars(cs)
    ensures BeginsLow(t) <==> cs != [] && Low(cs[0])
    ensures cs != [] && Low(cs[0]) ==> t[6..] == PrintChars(cs[1..]) + tail
  {
    if cs == [] {
      assert t == tail;
    } else {
      assert cs[0] in cs;
      CharFirst(cs, tail);
      StartsWith(cs[0], t, PrintChars(cs[1..]) + tail);
    }
  }

  lemma StartsWith(c: Char, t: seq<Byte>, u: seq<Byte>)
    requires GoodChar(c) && t == PrintChar(c) + u
    ensures BeginsLow(t) <==> Low(c)
    ensures Low(c) ==> t[6..] == u
  {
    if c.Unit? {
      assert t[2..6] == c.digits && t[6..] == u;
    }
  }

  ghost predicate AllPaired(text: seq<Piece>) {
    forall p :: p in text && p.Literal? ==> Paired(p.chars)
  }

  /** A literal the bytes end in the middle of, if there is one. */
  function PrintOpen(open: Option<seq<Char>>): seq<Byte> {
    if open.None? then [] else [QUOTE] + PrintChars(open.value)
  }

  ghost predicate GoodOpen(open: Option<seq<Char>>) {
    open.Some? ==> GoodChars(open.value)
  }

  ghost predicate PairedOpen(open: Option<seq<Char>>) {
    open.Some? ==> Paired(open.value)
  }

  lemma ScanOpen(open: Option<seq<Char>>)
    requires GoodOpen(open)
    ensures Scan(PrintOpen(open), false) <==> PairedOpen(open)
  {
    if open.Some? {
      assert PrintOpen(open)[1..] == PrintChars(open.value);
      ScanLiteral(open.value, []);
      assert PrintChars(open.value) + [] == PrintChars(open.value);
    }
  }

  /** The bytes of one piece and then others. */
  function PrintThen(p: Piece, t: seq<Byte>): seq<Byte> {
    if p.Outside? then [p.b] + t else [QUOTE] + (PrintChars(p.chars) + ([QUOTE] + t))
  }

  ghost predicate GoodPiece(p: Piece) {
    if p.Outside? then p.b != QUOTE else GoodChars(p.chars)
  }

  lemma ScanPiece(p: Piece, t: seq<Byte>)
    requires GoodPiece(p)
    ensures Scan(PrintThen(p, t), false) <==> (p.Literal? ==> Paired(p.chars)) && Scan(t, false)
  {
    var s := PrintThen(p, t);
    if p.Outside? {
      assert s[1..] == t;
    } else {
      assert s[1..] == PrintChars(p.chars) + ([QUOTE] + t);
      ScanLiteral(p.chars, [QUOTE] + t);
      assert ([QUOTE] + t)[1..] == t;
    }
  }

  lemma PieceFirst(text: seq<Piece>, tail: seq<Byte>)
    requires text != []
    ensures Print(text) + tail == PrintThen(text[0], Print(text[1..]) + tail)
  {
  }

  lemma {:induction false} ScanText(text: seq<Piece>, open: Option<seq<Char>>)
    requires GoodText(text) && GoodOpen(open)
    ensures Scan(Print(text) + PrintOpen(open), false) <==> AllPaired(text) && PairedOpen(open)
  {
    if text == [] {
      assert Print(text) + PrintOpen(open) == PrintOpen(open);
      ScanOpen(open);
    } else {
      var p, rest := text[0], text[1..];
      assert text == [p] + rest && p in text;
      ScanText(rest, open);
      PieceFirst(text, PrintOpen(open));
      ScanPiece(p, Print(rest) + PrintOpen(open));
    }
  }

  /** On every text made of string literals and bytes between them the check accepts exactly
      when the bytes are UTF-8 and every surrogate escape is half of a pair. */
  lemma AcceptsExactlyPairedText(text: seq<Piece>)
    requires GoodText(text)
    ensures Accepts(Print(text)) <==> ValidUtf8(Print(text)) && AllPaired(text)
  {
    ScanText(text, None);
    assert Print(text) + PrintOpen(None) == Print(text);
  }

  // ---- Any bytes -----------------------------------------------------------------------------

  /** One character more at the front, or a pair of surrogates. */
  lemma Prepend(c: Char, cs: seq<Char>)
    requires GoodChar(c) && !High(c) && !Low(c) && GoodChars(cs) && Paired(cs)
    ensures GoodChars([c] + cs) && Paired([c] + cs)
    ensures PrintChars([c] + cs) == PrintChar(c) + PrintChars(cs)
  {
    var all := [c] + cs;
    assert all[1..] == cs;
    PairedPlain(all);
  }

  lemma PrependPair(high: Char, low: Char, cs: seq<Char>)
    requires High(high) && Low(low) && GoodChars(cs) && Paired(cs)
    ensures GoodChars([high, low] + cs) && Paired([high, low] + cs)
    ensures PrintChars([high, low] + cs) == PrintChar(high) + (PrintChar(low) + PrintChars(cs))
  {
    var all := [high, low] + cs;
    assert all[2..] == cs && all[1..] == [low] + cs && ([low] + cs)[1..] == cs;
    PairedPair(all);
  }

  /** What the scan of the inside of a literal went over: its characters, and what follows
      the quotation mark that ends it. */
  ghost predicate IsInside(s: seq<Byte>, cs: seq<Char>, rest: Option<seq<Byte>>) {
    && GoodChars(cs) && Paired(cs)
    && (rest.None? ==> s == PrintChars(cs))
    && (rest.Some? ==> s == PrintChars(cs) + ([QUOTE] + rest.value) && Scan(rest.value, false))
  }

  lemma {:induction false} ReadInside(s: seq<Byte>) returns (cs: seq<Char>, rest: Option<seq<Byte>>)
    requires Scan(s, true)
    ensures IsInside(s, cs, rest)
    decreases |s|, 1
  {
    if s == [] {
      cs, rest := [], None;
    } else if s[0] == QUOTE {
      cs, rest := [], Some(s[1..]);
    } else if s[0] != BACKSLASH {
      cs, rest := ReadOne(s, Plain(s[0]), s[1..]);
    } else if s[1] != LETTER_U {
      cs, rest := ReadOne(s, Escaped(s[1]), s[2..]);
    } else {
      EscapeAhead(s);
      if High(Unit(s[2..6])) {
        cs, rest := ReadPair(s, Unit(s[2..6]), Unit(s[8..12]), s[12..]);
      } else {
        cs, rest := ReadOne(s, Unit(s[2..6]), s[6..]);
      }
    }
  }

  lemma TakeEscape(s: seq<Byte>)
    requires |s| >= 6 && s[0] == BACKSLASH && s[1] == LETTER_U
    ensures s == PrintChar(Unit(s[2..6])) + s[6..]
  {
  }

  /** A \u escape the scan gets past. */
  lemma EscapeScanned(s: seq<Byte>)
    requires |s| >= 2 && s[0] == BACKSLASH && s[1] == LETTER_U && Scan(s, true)
    ensures |s| >= 6 && GoodChar(Unit(s[2..6])) && !Low(Unit(s[2..6]))
    ensures !High(Unit(s[2..6])) ==> Scan(s[6..], true)
    ensures High(Unit(s[2..6])) ==>
              |s| >= 12 && s[6] == BACKSLASH && s[7] == LETTER_U && Low(Unit(s[8..12])) && Scan(s[12..], true)
  {
  }

  lemma EscapeAhead(s: seq<Byte>)
    requires |s| >= 2 && s[0] == BACKSLASH && s[1] == LETTER_U && Scan(s, true)
    ensures |s| >= 6 && GoodChar(Unit(s[2..6])) && !Low(Unit(s[2..6])) && s == PrintChar(Unit(s[2..6])) + s[6..]
    ensures !High(Unit(s[2..6])) ==> Scan(s[6..], true)
    ensures High(Unit(s[2..6])) ==>
              && |s| >= 12 && Low(Unit(s[8..12])) && Scan(s[12..], true)
              && s == PrintChar(Unit(s[2..6])) + (PrintChar(Unit(s[8..12])) + s[12..])
  {
    EscapeScanned(s);
    TakeEscape(s);
    if High(Unit(s[2..6])) {
      TakeNext(s, s[6..]);
    }
  }

  lemma TakeNext(s: seq<Byte>, t: seq<Byte>)
    requires |s| >= 12 && s[6] == BACKSLASH && s[7] == LETTER_U && t == s[6..]
    ensures t == PrintChar(Unit(s[8..12])) + s[12..]
  {
    assert t[2..6] == s[8..12] && t[6..] == s[12..];
    TakeEscape(t);
  }

  lemma {:induction false} ReadOne(s: seq<Byte>, c: Char, after: seq<Byte>)
    returns (cs: seq<Char>, rest: Option<seq<Byte>>)
    requires s == PrintChar(c) + after && GoodChar(c) && !High(c) && !Low(c) && Scan(after, true)
    ensures IsInside(s, cs, rest)
    decreases |s|, 0
  {
    var ds;
    ds, rest := ReadInside(after);
    Prepend(c, ds);
    Behind(s, PrintChar(c), after, PrintChars(ds), rest);
    cs := [c] + ds;
  }

  lemma {:induction false} ReadPair(s: seq<Byte>, high: Char, low: Char, after: seq<Byte>)
    returns (cs: seq<Char>, rest: Option<seq<Byte>>)
    requires s == PrintChar(high) + (PrintChar(low) + after) && High(high) && Low(low) && Scan(after, true)
    ensures IsInside(s, cs, rest)
    decreases |s|, 0
  {
    var ds;
    ds, rest := ReadInside(after);
    PrependPair(high, low, ds);
    Behind(PrintChar(low) + after, PrintChar(low), after, PrintChars(ds), rest);
    Behind(s, PrintChar(high), PrintChar(low) + after, PrintChar(low) + PrintChars(ds), rest);
    cs := [high, low] + ds;
  }

  lemma Behind(s: seq<Byte>, first: seq<Byte>, after: seq<Byte>, printed: seq<Byte>, rest: Option<seq<Byte>>)
    requires s == first + after
    requires rest.None? ==> after == printed
    requires rest.Some? ==> after == printed + ([QUOTE] + rest.value)
    ensures rest.None? ==> s == first + printed
    ensures rest.Some? ==> s == (first + printed) + ([QUOTE] + rest.value)
  {
  }

  ghost predicate IsText(s: seq<Byte>, text: seq<Piece>, open: Option<seq<Char>>) {
    && GoodText(text) && GoodOpen(open) && AllPaired(text) && PairedOpen(open)
    && s == Print(text) + PrintOpen(open)
  }

  lemma {:induction false} ReadText(s: seq<Byte>) returns (text: seq<Piece>, open: Option<seq<Char>>)
    requires Scan(s, false)
    ensures IsText(s, text, open)
    decreases |s|
  {
    if s == [] {
      text, open := [], None;
    } else if s[0] == QUOTE {
      var cs, rest := ReadInside(s[1..]);
      assert s == [QUOTE] + s[1..];
      if rest.None? {
        text, open := [], Some(cs);
      } else {
        var ps;
        ps, open := ReadText(rest.value);
        text := [Literal(cs)] + ps;
        LiteralFirst(s, cs, rest.value, ps, open);
      }
    } else {
      var ps;
      ps, open := ReadText(s[1..]);
      text := [Outside(s[0])] + ps;
      OutsideFirst(s, ps, open);
    }
  }

  lemma OutsideFirst(s: seq<Byte>, ps: seq<Piece>, open: Option<seq<Char>>)
    requires s != [] && s[0] != QUOTE && IsText(s[1..], ps, open)
    ensures IsText(s, [Outside(s[0])] + ps, open)
  {
    var text := [Outside(s[0])] + ps;
    assert text[1..] == ps && s == [s[0]] + s[1..];
    assert forall p :: p in text ==> p == Outside(s[0]) || p in ps;
    PieceFirst(text, PrintOpen(open));
  }

  lemma LiteralFirst(s: seq<Byte>, cs: seq<Char>, rest: seq<Byte>, ps: seq<Piece>, open: Option<seq<Char>>)
    requires s == [QUOTE] + (PrintChars(cs) + ([QUOTE] + rest)) && IsText(rest, ps, open)
    requires GoodChars(cs) && Paired(cs)
    ensures IsText(s, [Literal(cs)] + ps, open)
  {
    var text := [Literal(cs)] + ps;
    assert text[1..] == ps;
    assert forall p :: p in text ==> p == Literal(cs) || p in ps;
    PieceFirst(text, PrintOpen(open));
  }

  /** What is accepted, of all bytes: UTF-8 that is a text of string literals and bytes between
      them, the last literal perhaps unfinished, with every surrogate escape half of a pair. */
  lemma AcceptsExactly(body: seq<Byte>)
    ensures Accepts(body) <==> ValidUtf8(body) && exists text, open :: IsText(body, text, open)
  {
    if Scan(body, false) {
      var text, open := ReadText(body);
    }
    if text, open :| IsText(body, text, open) {
      ScanText(text, open);
    }
  }
}
