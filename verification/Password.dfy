/** pkg/crypto/password.go: the PHC string a password hash is stored as. Base64 without
    padding, sections 3.2 and 4 of RFC 4648. A string's characters stand for bytes. */
module Password {
  import opened Collections

  const ALGORITHM := "argon2id"
  const VERSION: nat := 19  // argon2.Version
  const UINT32: nat := 0x1_0000_0000
  const UINT8: nat := 0x100
  const INT64: nat := 0x8000_0000_0000_0000

  datatype Params = Params(memory: nat, iterations: nat, parallelism: nat, saltLength: nat, keyLength: nat)

  /** The fields fit their widths. */
  ghost predicate InRange(p: Params) {
    p.memory < UINT32 && p.iterations < UINT32 && p.parallelism < UINT8 && p.saltLength < UINT32 && p.keyLength < UINT32
  }

  /** Whether a hash made under these parameters is stronger in some respect. */
  predicate Above(p: Params, other: Params) {
    || other.memory < p.memory
    || other.iterations < p.iterations
    || other.parallelism < p.parallelism
    || other.saltLength < p.saltLength
    || other.keyLength < p.keyLength
  }

  datatype Why =
    | NotPHC | OtherAlgorithm | NoVersion | VersionTrailing | OtherVersion
    | NoParameters | ParametersTrailing | BadSalt | BadDigest | Empty

  datatype Decoded = Ok(params: Params, salt: seq<Byte>, key: seq<Byte>) | Unreadable(why: Why)

  // ---- Decimal --------------------------------------------------------------------------

  predicate IsDigit(c: char) {
    '0' <= c <= '9'
  }

  function DigitChar(n: nat): (c: char)
    requires n < 10
    ensures IsDigit(c)
  {
    ('0' as int + n) as char
  }

  function Decimal(n: nat): (s: string)
    ensures s != [] && forall c :: c in s ==> IsDigit(c)
  {
    if n < 10 then [DigitChar(n)] else Decimal(n / 10) + [DigitChar(n % 10)]
  }

  function DigitValue(c: char): (n: nat)
    requires IsDigit(c)
    ensures n < 10
  {
    c as int - '0' as int
  }

  function ValueOf(s: string): nat
    requires forall c :: c in s ==> IsDigit(c)
  {
    if s == [] then 0
    else
      var n := |s| - 1;
      assert s[n] in s && forall c :: c in s[..n] ==> c in s;
      ValueOf(s[..n]) * 10 + DigitValue(s[n])
  }

  lemma {:induction false} ValueOfDecimal(n: nat)
    ensures ValueOf(Decimal(n)) == n
  {
    var s := Decimal(n);
    if n < 10 {
      assert s[..0] == [];
    } else {
      ValueOfDecimal(n / 10);
      assert s[..|s| - 1] == Decimal(n / 10);
    }
  }

  function DigitRun(s: string): (d: string)
    ensures d <= s && forall c :: c in d ==> IsDigit(c)
  {
    if s == [] || !IsDigit(s[0]) then [] else [s[0]] + DigitRun(s[1..])
  }

  lemma {:induction false} RunOfDigits(d: string, rest: string)
    requires (forall c :: c in d ==> IsDigit(c)) && (rest == [] || !IsDigit(rest[0]))
    ensures DigitRun(d + rest) == d
  {
    if d == [] {
      assert d + rest == rest;
    } else {
      assert d[0] in d && (d + rest)[0] == d[0] && (d + rest)[1..] == d[1..] + rest;
      RunOfDigits(d[1..], rest);
    }
  }

  // ---- fmt.Sscanf, as far as the two formats go ------------------------------------------

  predicate Blank(c: char) {
    c == ' ' || c == '\t' || c == '\r' || c as int == 0x0B || c as int == 0x0C
  }

  function SkipBlank(s: string): string {
    if s != [] && Blank(s[0]) then SkipBlank(s[1..]) else s
  }

  /** %d into an unsigned field: blanks skipped, no sign, the longest run of digits. */
  function ScanUint(s: string, limit: nat): Option<(nat, string)> {
    var t := SkipBlank(s);
    var d := DigitRun(t);
    if d == [] || ValueOf(d) >= limit then None else Some((ValueOf(d), t[|d|..]))
  }

  /** %d into an int: the same with a sign allowed. */
  function ScanInt(s: string): Option<int> {
    var t := SkipBlank(s);
    var signed := t != [] && (t[0] == '+' || t[0] == '-');
    var d := DigitRun(if signed then t[1..] else t);
    var v: int := ValueOf(d);
    if d == [] then None
    else if signed && t[0] == '-' then if v > INT64 then None else Some(0 - v)
    else if v >= INT64 then None else Some(v)
  }

  function After(s: string, prefix: string): Option<string> {
    if prefix <= s then Some(s[|prefix|..]) else None
  }

  function ScanVersion(s: string): Option<int> {
    match After(s, "v=")
    case None => None
    case Some(t) => ScanInt(t)
  }

  function ScanField(s: string, name: string, limit: nat): Option<(nat, string)> {
    match After(s, name)
    case None => None
    case Some(t) => ScanUint(t, limit)
  }

  function ScanParams(s: string): Option<(nat, nat, nat)> {
    match ScanField(s, "m=", UINT32)
    case None => None
    case Some((m, s1)) =>
      match ScanField(s1, ",t=", UINT32)
      case None => None
      case Some((t, s2)) =>
        match ScanField(s2, ",p=", UINT8)
        case None => None
        case Some((p, _)) => Some((m, t, p))
  }

  function PrintInt(v: int): string {
    if v < 0 then "-" + Decimal(-v) else Decimal(v)
  }

  function VersionText(v: int): string {
    "v=" + PrintInt(v)
  }

  function ParamText(m: nat, t: nat, p: nat): string {
    "m=" + (Decimal(m) + (",t=" + (Decimal(t) + (",p=" + Decimal(p)))))
  }

  lemma ScanPrinted(name: string, n: nat, limit: nat, rest: string)
    requires n < limit && (rest == [] || !IsDigit(rest[0]))
    ensures ScanField(name + (Decimal(n) + rest), name, limit) == Some((n, rest))
  {
    var d := Decimal(n);
    var t := d + rest;
    assert (name + t)[|name|..] == t && name <= name + t;
    assert t[0] == d[0] && d[0] in d;
    assert SkipBlank(t) == t;
    RunOfDigits(d, rest);
    ValueOfDecimal(n);
    assert t[|d|..] == rest;
  }

  lemma ParamsScanBack(m: nat, t: nat, p: nat)
    requires m < UINT32 && t < UINT32 && p < UINT8
    ensures ScanParams(ParamText(m, t, p)) == Some((m, t, p))
  {
    var s2 := ",p=" + (Decimal(p) + "");
    assert Decimal(p) + "" == Decimal(p);
    var s1 := ",t=" + (Decimal(t) + s2);
    ScanPrinted("m=", m, UINT32, s1);
    ScanPrinted(",t=", t, UINT32, s2);
    ScanPrinted(",p=", p, UINT8, "");
  }

  lemma ScannedFit(s: string)
    requires ScanParams(s).Some?
    ensures var (m, t, p) := ScanParams(s).value; m < UINT32 && t < UINT32 && p < UINT8
  {
  }

  lemma IntScansBack(n: nat)
    requires n < INT64
    ensures ScanInt(Decimal(n)) == Some(n)
  {
    var d := Decimal(n);
    assert d[0] in d;
    assert SkipBlank(d) == d;
    RunOfDigits(d, "");
    assert d + "" == d;
    ValueOfDecimal(n);
  }

  lemma VersionScansBack()
    ensures ScanVersion(VersionText(VERSION)) == Some(VERSION)
  {
    IntScansBack(VERSION);
    assert VersionText(VERSION)[|"v="|..] == Decimal(VERSION);
    assert "v=" <= VersionText(VERSION);
  }

  // ---- Base64, the standard alphabet without padding ----------------------------------------

  function Symbol(n: nat): char
    requires n < 64
  {
    if n < 26 then ('A' as int + n) as char
    else if n < 52 then ('a' as int + n - 26) as char
    else if n < 62 then ('0' as int + n - 52) as char
    else if n == 62 then '+' else '/'
  }

  predicate IsSymbol(c: char) {
    'A' <= c <= 'Z' || 'a' <= c <= 'z' || '0' <= c <= '9' || c == '+' || c == '/'
  }

  function SymbolValue(c: char): (n: nat)
    requires IsSymbol(c)
    ensures n < 64
  {
    if 'A' <= c <= 'Z' then c as int - 'A' as int
    else if 'a' <= c <= 'z' then c as int - 'a' as int + 26
    else if '0' <= c <= '9' then c as int - '0' as int + 52
    else if c == '+' then 62 else 63
  }

  lemma SymbolBack(n: nat)
    requires n < 64
    ensures IsSymbol(Symbol(n)) && SymbolValue(Symbol(n)) == n
  {
  }

  function EncodeToString(bs: seq<Byte>): string {
    if bs == [] then ""
    else
      var a: int := bs[0];
      if |bs| == 1 then [Symbol(a / 4), Symbol(a % 4 * 16)]
      else
        var b: int := bs[1];
        if |bs| == 2 then [Symbol(a / 4), Symbol(a % 4 * 16 + b / 16), Symbol(b % 16 * 4)]
        else
          var c: int := bs[2];
          [Symbol(a / 4), Symbol(a % 4 * 16 + b / 16), Symbol(b % 16 * 4 + c / 64), Symbol(c % 64)]
              + EncodeToString(bs[3..])
  }

  /** The decoder passes over line ends wherever they stand. */
  function DropLineEnds(s: string): string {
    if s == [] then []
    else (if s[0] == '\n' || s[0] == '\r' then [] else [s[0]]) + DropLineEnds(s[1..])
  }

  function DecodeSymbols(s: string): Option<seq<Byte>> {
    if s == [] then Some([])
    else if |s| == 1 || !IsSymbol(s[0]) || !IsSymbol(s[1]) then None
    else
      var v0, v1 := SymbolValue(s[0]), SymbolValue(s[1]);
      var a: Byte := (v0 * 4 + v1 / 16) % 256;
      if |s| == 2 then Some([a])
      else if !IsSymbol(s[2]) then None
      else
        var v2 := SymbolValue(s[2]);
        var b: Byte := (v1 % 16 * 16 + v2 / 4) % 256;
        if |s| == 3 then Some([a, b])
        else if !IsSymbol(s[3]) then None
        else
          var c: Byte := (v2 % 4 * 64 + SymbolValue(s[3])) % 256;
          match DecodeSymbols(s[4..])
          case None => None
          case Some(rest) => Some([a, b, c] + rest)
  }

  /** Not strict: bits left over in the last symbol are dropped unread. */
  function DecodeString(s: string): Option<seq<Byte>> {
    DecodeSymbols(DropLineEnds(s))
  }

  predicate AllSymbols(s: string) {
    forall c :: c in s ==> IsSymbol(c)
  }

  lemma {:induction false} PlainHasNoLineEnds(s: string)
    requires AllSymbols(s)
    ensures DropLineEnds(s) == s
  {
    if s == [] {
    } else {
      assert s[0] in s;
      PlainHasNoLineEnds(s[1..]);
    }
  }

  lemma {:induction false} DecodeUndoesEncode(bs: seq<Byte>)
    ensures AllSymbols(EncodeToString(bs)) && DecodeSymbols(EncodeToString(bs)) == Some(bs)
    ensures bs != [] ==> EncodeToString(bs) != ""
    decreases |bs|
  {
    if |bs| == 1 {
      LastByte(bs);
    } else if |bs| == 2 {
      LastTwoBytes(bs);
    } else if |bs| >= 3 {
      DecodeUndoesEncode(bs[3..]);
      EncodeThree(bs);
      GroupOfThree(bs, EncodeToString(bs), EncodeToString(bs[3..]));
    }
  }

  lemma TwoDecode(s: string, v0: nat, v1: nat)
    requires v0 < 64 && v1 < 64 && s == [Symbol(v0), Symbol(v1)]
    ensures AllSymbols(s) && DecodeSymbols(s) == Some([(v0 * 4 + v1 / 16) % 256])
  {
    SymbolBack(v0);
    SymbolBack(v1);
  }

  lemma ThreeDecode(s: string, v0: nat, v1: nat, v2: nat)
    requires v0 < 64 && v1 < 64 && v2 < 64 && s == [Symbol(v0), Symbol(v1), Symbol(v2)]
    ensures AllSymbols(s) && DecodeSymbols(s) == Some([(v0 * 4 + v1 / 16) % 256, (v1 % 16 * 16 + v2 / 4) % 256])
  {
    SymbolBack(v0);
    SymbolBack(v1);
    SymbolBack(v2);
  }

  lemma EncodeShort(bs: seq<Byte>)
    ensures |bs| == 1 ==> var a: int := bs[0]; EncodeToString(bs) == [Symbol(a / 4), Symbol(a % 4 * 16)]
    ensures |bs| == 2 ==> var a: int, b: int := bs[0], bs[1];
              EncodeToString(bs) == [Symbol(a / 4), Symbol(a % 4 * 16 + b / 16), Symbol(b % 16 * 4)]
  {
  }

  lemma LastByte(bs: seq<Byte>)
    requires |bs| == 1
    ensures AllSymbols(EncodeToString(bs)) && DecodeSymbols(EncodeToString(bs)) == Some(bs)
  {
    EncodeShort(bs);
    var a: int := bs[0];
    TwoDecode(EncodeToString(bs), a / 4, a % 4 * 16);
    BitsBack(bs[0], 0, 0);
    assert bs == [bs[0]];
  }

  lemma LastTwoBytes(bs: seq<Byte>)
    requires |bs| == 2
    ensures AllSymbols(EncodeToString(bs)) && DecodeSymbols(EncodeToString(bs)) == Some(bs)
  {
    EncodeShort(bs);
    var a: int, b: int := bs[0], bs[1];
    TwoBytesBack(EncodeToString(bs), bs[0], bs[1], a / 4, a % 4 * 16 + b / 16, b % 16 * 4);
    assert bs == [bs[0], bs[1]];
  }

  lemma TwoBytesBack(s: string, x: Byte, y: Byte, v0: nat, v1: nat, v2: nat)
    requires var a: int, b: int := x, y; v0 == a / 4 && v1 == a % 4 * 16 + b / 16 && v2 == b % 16 * 4
    requires v0 < 64 && v1 < 64 && v2 < 64 && s == [Symbol(v0), Symbol(v1), Symbol(v2)]
    ensures AllSymbols(s) && DecodeSymbols(s) == Some([x, y])
  {
    BitsBack(x, y, 0);
    ThreeDecode(s, v0, v1, v2);
  }

  lemma EncodeThree(bs: seq<Byte>)
    requires |bs| >= 3
    ensures var a: int, b: int, c: int := bs[0], bs[1], bs[2];
            EncodeToString(bs) ==
            [Symbol(a / 4), Symbol(a % 4 * 16 + b / 16), Symbol(b % 16 * 4 + c / 64), Symbol(c % 64)]
                + EncodeToString(bs[3..])
  {
  }

  lemma GroupOfThree(bs: seq<Byte>, s: string, rest: string)
    requires |bs| >= 3 && AllSymbols(rest) && DecodeSymbols(rest) == Some(bs[3..])
    requires var a: int, b: int, c: int := bs[0], bs[1], bs[2];
             s == [Symbol(a / 4), Symbol(a % 4 * 16 + b / 16), Symbol(b % 16 * 4 + c / 64), Symbol(c % 64)] + rest
    ensures AllSymbols(s) && DecodeSymbols(s) == Some(bs)
  {
    var a: int, b: int, c: int := bs[0], bs[1], bs[2];
    var v0, v1, v2, v3 := a / 4, a % 4 * 16 + b / 16, b % 16 * 4 + c / 64, c % 64;
    FourSymbols(v0, v1, v2, v3, rest);
    FourDecode(s, v0, v1, v2, v3, rest, bs[3..]);
    BitsBack(bs[0], bs[1], bs[2]);
    assert bs == [bs[0], bs[1], bs[2]] + bs[3..];
  }

  lemma FourDecode(s: string, v0: nat, v1: nat, v2: nat, v3: nat, rest: string, bs: seq<Byte>)
    requires v0 < 64 && v1 < 64 && v2 < 64 && v3 < 64
    requires s == [Symbol(v0), Symbol(v1), Symbol(v2), Symbol(v3)] + rest && DecodeSymbols(rest) == Some(bs)
    ensures DecodeSymbols(s) == Some([(v0 * 4 + v1 / 16) % 256, (v1 % 16 * 16 + v2 / 4) % 256,
              (v2 % 4 * 64 + v3) % 256] + bs)
  {
    assert s[4..] == rest;
    SymbolBack(v0);
    SymbolBack(v1);
    SymbolBack(v2);
    SymbolBack(v3);
  }

  lemma FourSymbols(v0: nat, v1: nat, v2: nat, v3: nat, rest: string)
    requires v0 < 64 && v1 < 64 && v2 < 64 && v3 < 64 && AllSymbols(rest)
    ensures AllSymbols([Symbol(v0), Symbol(v1), Symbol(v2), Symbol(v3)] + rest)
  {
    SymbolBack(v0);
    SymbolBack(v1);
    SymbolBack(v2);
    SymbolBack(v3);
  }

  lemma BitsBack(a: Byte, b: Byte, c: Byte)
    ensures var x: int, y: int, z: int := a, b, c;
            var v0, v1, v2, v3 := x / 4, x % 4 * 16 + y / 16, y % 16 * 4 + z / 64, z % 64;
            && (v0 * 4 + v1 / 16) % 256 == a
            && (v1 % 16 * 16 + v2 / 4) % 256 == b
            && (v2 % 4 * 64 + v3) % 256 == c
  {
  }

  /** Encoded text decodes to the bytes it came from. */
  lemma Base64RoundTrip(bs: seq<Byte>)
    ensures DecodeString(EncodeToString(bs)) == Some(bs)
    ensures '$' !in EncodeToString(bs)
  {
    DecodeUndoesEncode(bs);
    PlainHasNoLineEnds(EncodeToString(bs));
  }

  // ---- Segments ----------------------------------------------------------------------------------

  function BeforeDollar(s: string): string {
    if s == [] || s[0] == '$' then [] else [s[0]] + BeforeDollar(s[1..])
  }

  lemma {:induction false} BeforeDollarStops(s: string)
    ensures BeforeDollar(s) <= s && '$' !in BeforeDollar(s)
    ensures |BeforeDollar(s)| < |s| ==> s[|BeforeDollar(s)|] == '$'
    ensures |BeforeDollar(s)| == |s| <==> '$' !in s
  {
    if s == [] {
    } else {
      BeforeDollarStops(s[1..]);
      assert s == [s[0]] + s[1..];
    }
  }

  /** strings.Split at the dollars. */
  function Split(s: string): (parts: seq<string>)
    ensures parts != []
    decreases |s|
  {
    BeforeDollarStops(s);
    var head := BeforeDollar(s);
    if |head| == |s| then [s] else [head] + Split(s[|head| + 1..])
  }

  function Join(parts: seq<string>): string
    requires parts != []
  {
    if |parts| == 1 then parts[0] else parts[0] + ("$" + Join(parts[1..]))
  }

  lemma {:induction false} BeforeFirstDollar(a: string, rest: string)
    requires '$' !in a
    ensures BeforeDollar(a) == a && BeforeDollar(a + ("$" + rest)) == a
  {
    var s := a + ("$" + rest);
    if a == [] {
      assert s[0] == '$';
    } else {
      BeforeFirstDollar(a[1..], rest);
      assert s[0] == a[0] && s[1..] == a[1..] + ("$" + rest);
    }
  }

  lemma {:induction false} SplitUndoesJoin(parts: seq<string>)
    requires parts != [] && forall p :: p in parts ==> '$' !in p
    ensures Split(Join(parts)) == parts
  {
    assert parts[0] in parts;
    if |parts| == 1 {
      BeforeFirstDollar(parts[0], "");
    } else {
      var rest := Join(parts[1..]);
      var s := parts[0] + ("$" + rest);
      BeforeFirstDollar(parts[0], rest);
      SplitUndoesJoin(parts[1..]);
      assert s[|parts[0]| + 1..] == rest;
      assert parts == [parts[0]] + parts[1..];
    }
  }

  lemma {:induction false} JoinUndoesSplit(s: string)
    ensures Join(Split(s)) == s && forall p :: p in Split(s) ==> '$' !in p
    decreases |s|
  {
    BeforeDollarStops(s);
    var head := BeforeDollar(s);
    if |head| < |s| {
      var rest := s[|head| + 1..];
      JoinUndoesSplit(rest);
      assert Split(s)[1..] == Split(rest);
      assert s == head + ("$" + rest);
    }
  }

  // ---- encode and decode -----------------------------------------------------------------------

  /** The six segments, joined. */
  function Text(m: nat, t: nat, p: nat, salt64: string, key64: string): string {
    Join(["", ALGORITHM, VersionText(VERSION), ParamText(m, t, p), salt64, key64])
  }

  function Encode(p: Params, salt: seq<Byte>, key: seq<Byte>): string {
    Text(p.memory, p.iterations, p.parallelism, EncodeToString(salt), EncodeToString(key))
  }

  function Decode(encoded: string): Decoded {
    var parts := Split(encoded);
    if |parts| != 6 || parts[0] != "" then Unreadable(NotPHC)
    else if parts[1] != ALGORITHM then Unreadable(OtherAlgorithm)
    else
      match ScanVersion(parts[2])
      case None => Unreadable(NoVersion)
      case Some(version) =>
        if parts[2] != VersionText(version) then Unreadable(VersionTrailing)
        else if version != VERSION then Unreadable(OtherVersion)
        else DecodeCosts(parts[3], parts[4], parts[5])
  }

  function DecodeCosts(costs: string, salt64: string, key64: string): Decoded {
    match ScanParams(costs)
    case None => Unreadable(NoParameters)
    case Some((m, t, p)) =>
      if costs != ParamText(m, t, p) then Unreadable(ParametersTrailing)
      else
        match DecodeString(salt64)
        case None => Unreadable(BadSalt)
        case Some(salt) =>
          match DecodeString(key64)
          case None => Unreadable(BadDigest)
          case Some(key) =>
            if salt == [] || key == [] then Unreadable(Empty)
            else Ok(Params(m, t, p, |salt| % UINT32, |key| % UINT32), salt, key)
  }

  lemma DigitsAreNotDollars(n: nat)
    ensures '$' !in Decimal(n)
  {
  }

  lemma SegmentsHaveNoDollar(m: nat, t: nat, p: nat)
    ensures '$' !in ALGORITHM && '$' !in VersionText(VERSION) && '$' !in ParamText(m, t, p)
  {
    DigitsAreNotDollars(VERSION);
    DigitsAreNotDollars(m);
    DigitsAreNotDollars(t);
    DigitsAreNotDollars(p);
  }

  lemma TextSplits(m: nat, t: nat, p: nat, a: string, b: string)
    requires '$' !in a && '$' !in b
    ensures Split(Text(m, t, p, a, b)) == ["", ALGORITHM, VersionText(VERSION), ParamText(m, t, p), a, b]
  {
    SegmentsHaveNoDollar(m, t, p);
    SplitUndoesJoin(["", ALGORITHM, VersionText(VERSION), ParamText(m, t, p), a, b]);
  }

  lemma TextDecodes(m: nat, t: nat, p: nat, a: string, b: string)
    requires '$' !in a && '$' !in b && m < UINT32 && t < UINT32 && p < UINT8
    ensures Decode(Text(m, t, p, a, b)) ==
            if DecodeString(a).None? then Unreadable(BadSalt)
            else if DecodeString(b).None? then Unreadable(BadDigest)
            else if DecodeString(a).value == [] || DecodeString(b).value == [] then Unreadable(Empty)
            else Ok(Params(m, t, p, |DecodeString(a).value| % UINT32, |DecodeString(b).value| % UINT32),
                    DecodeString(a).value, DecodeString(b).value)
  {
    TextSplits(m, t, p, a, b);
    VersionScansBack();
    ParamsScanBack(m, t, p);
  }

  /** What was encoded is decoded: the same costs, salt and key, the lengths filled in, for
      a salt and a key of any length but zero. */
  lemma DecodeUndoesEncodeHash(p: Params, salt: seq<Byte>, key: seq<Byte>)
    requires InRange(p)
    ensures Decode(Encode(p, salt, key)) ==
            if salt == [] || key == [] then Unreadable(Empty)
            else Ok(p.(saltLength := |salt| % UINT32, keyLength := |key| % UINT32), salt, key)
  {
    Base64RoundTrip(salt);
    Base64RoundTrip(key);
    TextDecodes(p.memory, p.iterations, p.parallelism, EncodeToString(salt), EncodeToString(key));
  }

  /** A hash whose first four segments are what encode prints for these costs, and whose
      last two decode to this salt and this key. */
  ghost predicate IsHashOf(s: string, p: Params, salt: seq<Byte>, key: seq<Byte>, a: string, b: string) {
    && '$' !in a && '$' !in b && DecodeString(a) == Some(salt) && DecodeString(b) == Some(key)
    && s == Text(p.memory, p.iterations, p.parallelism, a, b)
  }

  lemma AcceptedParts(s: string)
    requires Decode(s).Ok?
    ensures var d, parts := Decode(s), Split(s);
            && |parts| == 6 && parts[0] == "" && parts[1] == ALGORITHM && parts[2] == VersionText(VERSION)
            && parts[3] == ParamText(d.params.memory, d.params.iterations, d.params.parallelism) && InRange(d.params)
            && DecodeString(parts[4]) == Some(d.salt) && DecodeString(parts[5]) == Some(d.key)
            && d.salt != [] && d.key != [] && d.params.saltLength == |d.salt| % UINT32
                && d.params.keyLength == |d.key| % UINT32
  {
    var parts := Split(s);
    AcceptedCosts(parts[3], parts[4], parts[5]);
  }

  lemma AcceptedCosts(costs: string, salt64: string, key64: string)
    requires DecodeCosts(costs, salt64, key64).Ok?
    ensures var d := DecodeCosts(costs, salt64, key64);
            && costs == ParamText(d.params.memory, d.params.iterations, d.params.parallelism) && InRange(d.params)
            && DecodeString(salt64) == Some(d.salt) && DecodeString(key64) == Some(d.key)
            && d.salt != [] && d.key != []
            && d.params.saltLength == |d.salt| % UINT32 && d.params.keyLength == |d.key| % UINT32
  {
    ScannedFit(costs);
  }

  lemma PartsHaveForm(s: string, parts: seq<string>, p: Params, salt: seq<Byte>, key: seq<Byte>)
    requires parts == Split(s) && |parts| == 6 && parts[0] == "" && parts[1] == ALGORITHM
              && parts[2] == VersionText(VERSION)
    requires parts[3] == ParamText(p.memory, p.iterations, p.parallelism)
    requires DecodeString(parts[4]) == Some(salt) && DecodeString(parts[5]) == Some(key)
    ensures IsHashOf(s, p, salt, key, parts[4], parts[5])
  {
    JoinUndoesSplit(s);
    assert parts[4] in parts && parts[5] in parts;
    assert parts == [parts[0], parts[1], parts[2], parts[3], parts[4], parts[5]];
  }

  /** Exactly what is accepted: the segments encode prints for some costs in range, and two
      more that decode to a salt and a key that are not empty. Nothing may trail the version
      or the costs. */
  lemma DecodeAcceptsExactly(s: string, p: Params, salt: seq<Byte>, key: seq<Byte>)
    ensures Decode(s) == Ok(p, salt, key) <==>
            && InRange(p) && salt != [] && key != [] && p.saltLength == |salt| % UINT32 && p.keyLength == |key| % UINT32
            && exists a, b :: IsHashOf(s, p, salt, key, a, b)
  {
    if Decode(s) == Ok(p, salt, key) {
      AcceptedParts(s);
      PartsHaveForm(s, Split(s), p, salt, key);
    }
    if InRange(p) {
      forall a, b | IsHashOf(s, p, salt, key, a, b) ensures Decode(s) ==
          if salt == [] || key == [] then Unreadable(Empty)
          else Ok(p.(saltLength := |salt| % UINT32, keyLength := |key| % UINT32), salt, key)
      {
        TextDecodes(p.memory, p.iterations, p.parallelism, a, b);
      }
    }
  }

  /** A hash made at some parameters and read back never asks to be made again at them. */
  lemma FreshHashNeedsNoRehash(p: Params, salt: seq<Byte>, key: seq<Byte>, back: Decoded)
    requires InRange(p) && |salt| == p.saltLength > 0 && |key| == p.keyLength > 0
    requires back == Decode(Encode(p, salt, key))
    ensures back == Ok(p, salt, key) && !Above(p, back.params)
  {
    LengthsFit(p, salt, key);
    DecodeUndoesEncodeHash(p, salt, key);
  }

  lemma LengthsFit(p: Params, salt: seq<Byte>, key: seq<Byte>)
    requires InRange(p) && |salt| == p.saltLength && |key| == p.keyLength
    ensures p.(saltLength := |salt| % UINT32, keyLength := |key| % UINT32) == p
  {
  }

  // ---- The text and the policy, spelled out -------------------------------------------------

  /** A rehash is called for exactly when some cost, or a length, was lower than it is now. */
  lemma RehashIsForWeaker(p: Params, stored: Params)
    ensures !Above(p, stored) <==>
              && p.memory <= stored.memory && p.iterations <= stored.iterations && p.parallelism <= stored.parallelism
              && p.saltLength <= stored.saltLength && p.keyLength <= stored.keyLength
  {
  }

  /** The digits are those of ASCII, and no number but zero starts with one. */
  lemma {:induction false} DecimalStarts(n: nat)
    ensures forall k: nat :: k < 10 ==> DigitChar(k) as int == 48 + k
    ensures Decimal(n)[0] == '0' <==> n == 0
  {
    if n >= 10 {
      DecimalStarts(n / 10);
      assert Decimal(n)[0] == Decimal(n / 10)[0];
    }
  }

  /** The whole text. */
  lemma EncodeIs(p: Params, salt: seq<Byte>, key: seq<Byte>)
    ensures Encode(p, salt, key) ==
            "$argon2id$v=19$m=" + Decimal(p.memory) + ",t=" + Decimal(p.iterations) + ",p=" + Decimal(p.parallelism)
            + "$" + EncodeToString(salt) + "$" + EncodeToString(key)
  {
    var costs, a, b := ParamText(p.memory, p.iterations, p.parallelism), EncodeToString(salt), EncodeToString(key);
    JoinedIs(costs, a, b);
    assert "$argon2id$v=19$m=" == "$argon2id$v=19$" + "m=";
    ThenCosts("$argon2id$v=19$", "m=", Decimal(p.memory), Decimal(p.iterations), Decimal(p.parallelism), a, b);
  }

  lemma JoinedIs(costs: string, a: string, b: string)
    ensures Join(["", ALGORITHM, VersionText(VERSION), costs, a, b])
            == "$argon2id$v=19$" + (costs + ("$" + (a + ("$" + b))))
  {
    assert Decimal(19) == Decimal(1) + ['9'] == "19";
    assert VersionText(VERSION) == "v=19";
    JoinOfSix("", ALGORITHM, "v=19", costs, a, b);
    assert "$argon2id$v=19$" == "$" + ("argon2id" + ("$" + ("v=19" + "$")));
  }

  lemma JoinOfSix(p0: string, p1: string, p2: string, p3: string, p4: string, p5: string)
    ensures Join([p0, p1, p2, p3, p4, p5])
            == p0 + ("$" + (p1 + ("$" + (p2 + ("$" + (p3 + ("$" + (p4 + ("$" + p5)))))))))
  {
    assert [p4, p5][1..] == [p5] && Join([p4, p5]) == p4 + "$" + p5;
    assert [p3, p4, p5][1..] == [p4, p5] && Join([p3, p4, p5]) == p3 + "$" + Join([p4, p5]);
    assert [p2, p3, p4, p5][1..] == [p3, p4, p5];
    assert Join([p2, p3, p4, p5]) == p2 + "$" + Join([p3, p4, p5]);
    assert [p1, p2, p3, p4, p5][1..] == [p2, p3, p4, p5];
    assert Join([p1, p2, p3, p4, p5]) == p1 + "$" + Join([p2, p3, p4, p5]);
    assert [p0, p1, p2, p3, p4, p5][1..] == [p1, p2, p3, p4, p5];
  }

  lemma ThenCosts(head: string, name: string, m: string, t: string, p: string, a: string, b: string)
    ensures head + ((name + (m + (",t=" + (t + (",p=" + p))))) + ("$" + (a + ("$" + b)))) ==
            (head + name) + m + ",t=" + t + ",p=" + p + "$" + a + "$" + b
  {
  }

  /** The alphabet of section 4 of RFC 4648: capitals, small letters, digits, plus and slash. */
  lemma AlphabetIs(n: nat)
    requires n < 64
    ensures n < 26 ==> Symbol(n) as int == 65 + n
    ensures 26 <= n < 52 ==> Symbol(n) as int == 97 + (n - 26)
    ensures 52 <= n < 62 ==> Symbol(n) as int == 48 + (n - 52)
    ensures n == 62 ==> Symbol(n) == '+'
    ensures n == 63 ==> Symbol(n) == '/'
  {
  }

  /** Three bytes and the four symbols they become are the same 24 bits. */
  lemma SameBits(bs: seq<Byte>)
    requires |bs| >= 3
    ensures var s := EncodeToString(bs);
            && |s| >= 4 && IsSymbol(s[0]) && IsSymbol(s[1]) && IsSymbol(s[2]) && IsSymbol(s[3])
            && var a: int, b: int, c: int := bs[0], bs[1], bs[2];
               ((SymbolValue(s[0]) * 64 + SymbolValue(s[1])) * 64 + SymbolValue(s[2])) * 64 + SymbolValue(s[3])
               == a * 0x1_0000 + b * 0x100 + c
  {
    var a: int, b: int, c: int := bs[0], bs[1], bs[2];
    EncodeThree(bs);
    var s := EncodeToString(bs);
    assert s[0] == Symbol(a / 4) && s[1] == Symbol(a % 4 * 16 + b / 16);
    assert s[2] == Symbol(b % 16 * 4 + c / 64) && s[3] == Symbol(c % 64);
    SymbolBack(a / 4);
    SymbolBack(a % 4 * 16 + b / 16);
    SymbolBack(b % 16 * 4 + c / 64);
    SymbolBack(c % 64);
    TwentyFourBits(a, b, c);
  }

  lemma TwentyFourBits(a: nat, b: nat, c: nat)
    ensures ((a / 4 * 64 + (a % 4 * 16 + b / 16)) * 64 + (b % 16 * 4 + c / 64)) * 64 + c % 64
            == a * 0x1_0000 + b * 0x100 + c
  {
  }

  /** Of the examples in section 10 of RFC 4648, those of one and two bytes left over. */
  lemma LeftoverExamples()
    ensures EncodeToString([0x66]) == "Zg"
    ensures EncodeToString([0x66, 0x6F]) == "Zm8"
  {
  }

  // ---- What the decoder makes of any text ----------------------------------------------------

  lemma SymbolOfValue(c: char)
    requires IsSymbol(c)
    ensures Symbol(SymbolValue(c)) == c
  {
  }

  /** A text like another but for what may be left over in its last symbol. */
  ghost predicate Agrees(e: string, t: string) {
    && |e| == |t| && AllSymbols(e) && AllSymbols(t)
    && (forall k :: 0 <= k < |t| - 1 ==> e[k] == t[k])
    && (|t| % 4 == 0 && t != [] ==> e[|t| - 1] == t[|t| - 1])
    && (|t| % 4 == 2 ==> SymbolValue(e[|t| - 1]) == SymbolValue(t[|t| - 1]) / 16 * 16)
    && (|t| % 4 == 3 ==> SymbolValue(e[|t| - 1]) == SymbolValue(t[|t| - 1]) / 4 * 4)
  }

  /** Whatever is decoded was an encoding of the result, give or take the bits of the last
      symbol that fill no byte; and it decodes if it is all symbols and not one too many. */
  lemma {:induction false} DecodeSymbolsIs(t: string)
    ensures DecodeSymbols(t).Some? <==> AllSymbols(t) && |t| % 4 != 1
    ensures DecodeSymbols(t).Some? ==> Agrees(EncodeToString(DecodeSymbols(t).value), t)
    decreases |t|
  {
    if |t| < 4 {
      ShortDecodes(t);
    } else {
      DecodeSymbolsIs(t[4..]);
      LongDecodes(t, t[..4], t[4..]);
    }
  }

  lemma LongDecodes(t: string, head: string, rest: string)
    requires |head| == 4 && t == head + rest
    requires DecodeSymbols(rest).Some? <==> AllSymbols(rest) && |rest| % 4 != 1
    requires DecodeSymbols(rest).Some? ==> Agrees(EncodeToString(DecodeSymbols(rest).value), rest)
    ensures DecodeSymbols(t).Some? <==> AllSymbols(t) && |t| % 4 != 1
    ensures DecodeSymbols(t).Some? ==> Agrees(EncodeToString(DecodeSymbols(t).value), t)
  {
    DecodesByGroup(t, head, rest);
    LongEnds(t, head, rest, DecodeSymbols(rest).Some?);
    if DecodeSymbols(t).Some? {
      GroupDecodes(t, head, rest);
    }
  }

  lemma LongEnds(t: string, head: string, rest: string, some: bool)
    requires |head| == 4 && t == head + rest && (some <==> AllSymbols(rest) && |rest| % 4 != 1)
    ensures AllSymbols(head) && some <==> AllSymbols(t) && |t| % 4 != 1
  {
    SymbolsOfBoth(head, rest);
    FourMore(|rest|);
  }

  lemma FourMore(n: nat)
    ensures (4 + n) % 4 == n % 4
  {
  }

  lemma DecodesByGroup(t: string, head: string, rest: string)
    requires |head| == 4 && t == head + rest
    ensures DecodeSymbols(t).Some? <==> AllSymbols(head) && DecodeSymbols(rest).Some?
  {
    assert t[4..] == rest && t[0] == head[0] && t[1] == head[1] && t[2] == head[2] && t[3] == head[3];
    assert head == [head[0], head[1], head[2], head[3]];
    if AllSymbols(head) {
      assert head[0] in head && head[1] in head && head[2] in head && head[3] in head;
    }
  }

  lemma SymbolsOfBoth(a: string, b: string)
    ensures AllSymbols(a + b) <==> AllSymbols(a) && AllSymbols(b)
  {
    assert forall c :: c in a + b <==> c in a || c in b;
  }

  lemma ShortDecodes(t: string)
    requires |t| < 4
    ensures DecodeSymbols(t).Some? <==> AllSymbols(t) && |t| % 4 != 1
    ensures DecodeSymbols(t).Some? ==> Agrees(EncodeToString(DecodeSymbols(t).value), t)
  {
    if |t| == 2 {
      TwoOrNone(t);
    } else if |t| == 3 {
      ThreeOrNone(t);
    } else {
      assert EncodeToString([]) == "";
    }
  }

  lemma TwoOrNone(t: string)
    requires |t| == 2
    ensures DecodeSymbols(t).Some? <==> AllSymbols(t)
    ensures DecodeSymbols(t).Some? ==> Agrees(EncodeToString(DecodeSymbols(t).value), t)
  {
    assert t == [t[0], t[1]] && t[0] in t && t[1] in t;
    if AllSymbols(t) {
      TwoAgree(t);
    }
  }

  lemma ThreeOrNone(t: string)
    requires |t| == 3
    ensures DecodeSymbols(t).Some? <==> AllSymbols(t)
    ensures DecodeSymbols(t).Some? ==> Agrees(EncodeToString(DecodeSymbols(t).value), t)
  {
    assert t == [t[0], t[1], t[2]] && t[0] in t && t[1] in t && t[2] in t;
    if AllSymbols(t) {
      ThreeAgree(t);
    }
  }

  lemma TwoAgree(t: string)
    requires |t| == 2 && AllSymbols(t) && IsSymbol(t[0]) && IsSymbol(t[1])
    ensures DecodeSymbols(t).Some? && Agrees(EncodeToString(DecodeSymbols(t).value), t)
  {
    var v0, v1 := SymbolValue(t[0]), SymbolValue(t[1]);
    SymbolOfValue(t[0]);
    SymbolOfValue(t[1]);
    TwoDecode(t, v0, v1);
    FirstByte(v0, v1);
    EncodeShort([(v0 * 4 + v1 / 16) % 256]);
    SymbolBack(v1 / 16 * 16);
  }

  lemma ThreeAgree(t: string)
    requires |t| == 3 && AllSymbols(t) && IsSymbol(t[0]) && IsSymbol(t[1]) && IsSymbol(t[2])
    ensures DecodeSymbols(t).Some? && Agrees(EncodeToString(DecodeSymbols(t).value), t)
  {
    var v0, v1, v2 := SymbolValue(t[0]), SymbolValue(t[1]), SymbolValue(t[2]);
    SymbolOfValue(t[0]);
    SymbolOfValue(t[1]);
    SymbolOfValue(t[2]);
    ThreeDecode(t, v0, v1, v2);
    TwoBytesEncode(v0, v1, v2);
    SymbolBack(v2 / 4 * 4);
  }

  lemma TwoBytesEncode(v0: nat, v1: nat, v2: nat)
    requires v0 < 64 && v1 < 64 && v2 < 64
    ensures EncodeToString([(v0 * 4 + v1 / 16) % 256, (v1 % 16 * 16 + v2 / 4) % 256])
            == [Symbol(v0), Symbol(v1), Symbol(v2 / 4 * 4)]
  {
    FirstByte(v0, v1);
    SecondByte(v1, v2);
    EncodeShort([(v0 * 4 + v1 / 16) % 256, (v1 % 16 * 16 + v2 / 4) % 256]);
  }

  lemma FirstByte(v0: nat, v1: nat)
    requires v0 < 64 && v1 < 64
    ensures var a := (v0 * 4 + v1 / 16) % 256;
            a / 4 == v0 && a % 4 * 16 == v1 / 16 * 16
  {
  }

  lemma SecondByte(v1: nat, v2: nat)
    requires v1 < 64 && v2 < 64
    ensures var b := (v1 % 16 * 16 + v2 / 4) % 256;
            v1 / 16 * 16 + b / 16 == v1 && b % 16 * 4 == v2 / 4 * 4
  {
  }

  lemma ThirdByte(v2: nat, v3: nat)
    requires v2 < 64 && v3 < 64
    ensures var c := (v2 % 4 * 64 + v3) % 256;
            v2 / 4 * 4 + c / 64 == v2 && c % 64 == v3
  {
  }

  lemma GroupDecodes(t: string, head: string, rest: string)
    requires |head| == 4 && t == head + rest && AllSymbols(head) && DecodeSymbols(rest).Some?
    requires Agrees(EncodeToString(DecodeSymbols(rest).value), rest)
    ensures DecodeSymbols(t).Some? && Agrees(EncodeToString(DecodeSymbols(t).value), t)
  {
    assert head[0] in head && head[1] in head && head[2] in head && head[3] in head;
    var v0, v1, v2, v3 := SymbolValue(head[0]), SymbolValue(head[1]), SymbolValue(head[2]), SymbolValue(head[3]);
    SymbolOfValue(head[0]);
    SymbolOfValue(head[1]);
    SymbolOfValue(head[2]);
    SymbolOfValue(head[3]);
    assert head == [Symbol(v0), Symbol(v1), Symbol(v2), Symbol(v3)];
    FourDecode(t, v0, v1, v2, v3, rest, DecodeSymbols(rest).value);
    GroupEncodes(v0, v1, v2, v3, DecodeSymbols(rest).value);
    AgreesBehind(head, EncodeToString(DecodeSymbols(rest).value), rest);
  }

  lemma GroupEncodes(v0: nat, v1: nat, v2: nat, v3: nat, more: seq<Byte>)
    requires v0 < 64 && v1 < 64 && v2 < 64 && v3 < 64
    ensures EncodeToString([(v0 * 4 + v1 / 16) % 256, (v1 % 16 * 16 + v2 / 4) % 256, (v2 % 4 * 64 + v3) % 256] + more)
            == [Symbol(v0), Symbol(v1), Symbol(v2), Symbol(v3)] + EncodeToString(more)
  {
    var a: Byte, b: Byte, c: Byte :=
      (v0 * 4 + v1 / 16) % 256, (v1 % 16 * 16 + v2 / 4) % 256, (v2 % 4 * 64 + v3) % 256;
    FirstByte(v0, v1);
    SecondByte(v1, v2);
    ThirdByte(v2, v3);
    EncodeThree([a, b, c] + more);
    assert ([a, b, c] + more)[3..] == more;
  }

  lemma AgreesBehind(head: string, e: string, t: string)
    requires |head| == 4 && AllSymbols(head) && Agrees(e, t)
    ensures Agrees(head + e, head + t)
  {
    SymbolsOfBoth(head, e);
    SymbolsOfBoth(head, t);
    forall k | 0 <= k < |head + t| - 1 ensures (head + e)[k] == (head + t)[k] {
    }
  }

  /** Line ends, 10 and 13, are dropped wherever they stand, and nothing else is. */
  lemma {:induction false} LineEndsDrop(a: string, c: char, b: string)
    ensures DropLineEnds(a + [c] + b) == DropLineEnds(a) + (if c as int == 10 || c as int == 13 then [] else [c])
                                         + DropLineEnds(b)
  {
    var s := a + [c] + b;
    if a == [] {
      assert s == [c] + b && s[1..] == b;
    } else {
      assert s[0] == a[0] && s[1..] == a[1..] + [c] + b;
      LineEndsDrop(a[1..], c, b);
      var kept := if a[0] == '\n' || a[0] == '\r' then [] else [a[0]];
      Behind(kept, DropLineEnds(a[1..]), if c as int == 10 || c as int == 13 then [] else [c], DropLineEnds(b));
    }
  }

  lemma Behind(a: string, b: string, c: string, d: string)
    ensures a + (b + c + d) == (a + b) + c + d
  {
  }

  // ---- What the scanner takes ------------------------------------------------------------------

  /** The widths of the costs, and the blanks passed over before a number. */
  lemma WidthsAre(p: Params, c: char)
    ensures InRange(p) <==>
              && p.memory <= 4294967295 && p.iterations <= 4294967295 && p.parallelism <= 255
              && p.saltLength <= 4294967295 && p.keyLength <= 4294967295
    ensures Blank(c) <==> c as int in {9, 11, 12, 13, 32}
  {
  }

  /** A version may carry a sign: such a one is read, and refused for not printing the same or
      for being another. */
  lemma SignsAreRead(v: nat, x: string)
    requires v <= 9223372036854775807 && (x == [] || !IsDigit(x[0]))
    ensures ScanInt("+" + (Decimal(v) + x)) == Some(v) && ScanInt("-" + (Decimal(v) + x)) == Some(0 - v)
  {
    var t := Decimal(v) + x;
    RunOfDigits(Decimal(v), x);
    ValueOfDecimal(v);
    SignedScan("+", t);
    SignedScan("-", t);
  }

  lemma SignedScan(sign: string, t: string)
    requires sign == "+" || sign == "-"
    ensures SkipBlank(sign + t) == sign + t && (sign + t)[1..] == t && (sign + t)[0] == sign[0]
  {
  }

  // ---- Why a text is refused ------------------------------------------------------------------

  lemma SixSegments(alg: string, version: string, costs: string, a: string, b: string)
    requires '$' !in alg && '$' !in version && '$' !in costs && '$' !in a && '$' !in b
    ensures Split(Join(["", alg, version, costs, a, b])) == ["", alg, version, costs, a, b]
  {
    SplitUndoesJoin(["", alg, version, costs, a, b]);
  }

  /** Another algorithm. */
  lemma AlgorithmRefused(alg: string, version: string, costs: string, a: string, b: string)
    requires '$' !in alg && '$' !in version && '$' !in costs && '$' !in a && '$' !in b
    ensures Decode(Join(["", alg, version, costs, a, b])) == Unreadable(OtherAlgorithm) <==> alg != "argon2id"
  {
    SixSegments(alg, version, costs, a, b);
  }

  /** A version that does not begin as one. */
  lemma NoVersionRefused(version: string, costs: string, a: string, b: string)
    requires '$' !in version && '$' !in costs && '$' !in a && '$' !in b && !("v=" <= version)
    ensures Decode(Join(["", "argon2id", version, costs, a, b])) == Unreadable(NoVersion)
  {
    SixSegments("argon2id", version, costs, a, b);
  }

  /** Costs that do not begin as such. */
  lemma NoCostsRefused(costs: string, a: string, b: string)
    requires '$' !in costs && '$' !in a && '$' !in b && !("m=" <= costs)
    ensures Decode(Join(["", "argon2id", "v=19", costs, a, b])) == Unreadable(NoParameters)
  {
    VersionPasses(costs, a, b);
  }

  lemma VersionIsNineteen()
    ensures VersionText(VERSION) == "v=19"
  {
    assert Decimal(19) == Decimal(1) + ['9'] == "19";
  }

  lemma VersionScans(v: nat, x: string)
    requires v < INT64 && (x == [] || !IsDigit(x[0]))
    ensures ScanVersion("v=" + (Decimal(v) + x)) == Some(v)
  {
    var t := Decimal(v) + x;
    IntScans(v, x, t);
    assert ("v=" + t)[2..] == t && "v=" <= "v=" + t;
  }

  lemma IntScans(v: nat, x: string, t: string)
    requires v < INT64 && (x == [] || !IsDigit(x[0])) && t == Decimal(v) + x
    ensures ScanInt(t) == Some(v)
  {
    assert t[0] == Decimal(v)[0] && Decimal(v)[0] in Decimal(v);
    assert SkipBlank(t) == t;
    RunOfDigits(Decimal(v), x);
    ValueOfDecimal(v);
  }

  /** Another version, or something after it. */
  lemma VersionRefused(v: nat, x: string, costs: string, a: string, b: string)
    requires '$' !in x && '$' !in costs && '$' !in a && '$' !in b
    requires v < INT64 && (x == [] || !IsDigit(x[0]))
    ensures var d := Decode(Join(["", "argon2id", "v=" + (Decimal(v) + x), costs, a, b]));
            && (x != [] ==> d == Unreadable(VersionTrailing))
            && (x == [] && v != 19 ==> d == Unreadable(OtherVersion))
  {
    var text := "v=" + (Decimal(v) + x);
    DigitsAreNotDollars(v);
    SixSegments("argon2id", text, costs, a, b);
    VersionScans(v, x);
    if x != [] {
      assert |text| == 2 + |Decimal(v)| + |x| && |VersionText(v)| == 2 + |Decimal(v)|;
    } else {
      assert text == VersionText(v);
    }
  }

  lemma MoveBehind(a: string, b: string, c: string, d: string, e: string, f: string, x: string)
    ensures (a + (b + (c + (d + (e + f))))) + x == a + (b + (c + (d + (e + (f + x)))))
  {
    assert (e + f) + x == e + (f + x);
    assert (d + (e + f)) + x == d + ((e + f) + x);
    assert (c + (d + (e + f))) + x == c + ((d + (e + f)) + x);
    assert (b + (c + (d + (e + f)))) + x == b + ((c + (d + (e + f))) + x);
  }

  lemma CostsScan(m: nat, t: nat, p: nat, x: string)
    requires m < UINT32 && t < UINT32 && p < UINT8 && (x == [] || !IsDigit(x[0]))
    ensures ScanParams(ParamText(m, t, p) + x) == Some((m, t, p))
  {
    var dm, dt, dp := Decimal(m), Decimal(t), Decimal(p);
    MoveBehind("m=", dm, ",t=", dt, ",p=", dp, x);
    CostsScanFrom(m, t, p, ",t=" + (dt + (",p=" + (dp + x))), ",p=" + (dp + x), x);
  }

  lemma CostsScanFrom(m: nat, t: nat, p: nat, s1: string, s2: string, x: string)
    requires m < UINT32 && t < UINT32 && p < UINT8 && (x == [] || !IsDigit(x[0]))
    requires s1 == ",t=" + (Decimal(t) + s2) && s2 == ",p=" + (Decimal(p) + x)
    ensures ScanParams("m=" + (Decimal(m) + s1)) == Some((m, t, p))
  {
    ScanPrinted("m=", m, UINT32, s1);
    ScanPrinted(",t=", t, UINT32, s2);
    ScanPrinted(",p=", p, UINT8, x);
  }

  /** Something after the costs. */
  lemma CostsRefused(m: nat, t: nat, p: nat, x: string, a: string, b: string)
    requires m < UINT32 && t < UINT32 && p < UINT8 && x != [] && !IsDigit(x[0])
    requires '$' !in x && '$' !in a && '$' !in b
    ensures Decode(Join(["", "argon2id", "v=19", ParamText(m, t, p) + x, a, b])) == Unreadable(ParametersTrailing)
  {
    var costs := ParamText(m, t, p) + x;
    SegmentsHaveNoDollar(m, t, p);
    SixSegments("argon2id", "v=19", costs, a, b);
    CostsScan(m, t, p, x);
    assert |costs| == |ParamText(m, t, p)| + |x|;
    VersionPasses(costs, a, b);
  }

  lemma VersionPasses(costs: string, a: string, b: string)
    requires '$' !in costs && '$' !in a && '$' !in b
    ensures Decode(Join(["", "argon2id", "v=19", costs, a, b])) == DecodeCosts(costs, a, b)
  {
    SixSegments("argon2id", "v=19", costs, a, b);
    VersionScansBack();
    VersionIsNineteen();
  }
}
