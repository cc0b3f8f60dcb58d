/** pkg/id/generator.go: minting identifiers that sort in issue order. Sections 5.7 and
    6.2 of RFC 9562. */
module IdGenerator {
  import opened Collections
  import opened Bits
  import opened Hex
  import opened Id

  const MAX_SEQ: nat := 0xFFF
  const MS_LIMIT: nat := 0x1_0000_0000_0000  // 2 to the 48
  const WORD: nat := 0x1_0000_0000_0000_0000  // 2 to the 64

  // ---- Lexicographic order, as for Go's bytes and strings ---------------------------

  predicate Before(a: seq<int>, b: seq<int>) {
    b != [] && (a == [] || a[0] < b[0] || (a[0] == b[0] && Before(a[1..], b[1..])))
  }

  lemma {:induction false} BeforeAppend(a: seq<int>, x: seq<int>, b: seq<int>, y: seq<int>)
    requires |a| == |b|
    ensures Before(a + x, b + y) <==> Before(a, b) || (a == b && Before(x, y))
  {
    if a == [] {
      assert a + x == x && b + y == y;
    } else {
      BeforeAppend(a[1..], x, b[1..], y);
      assert (a + x)[0] == a[0] && (a + x)[1..] == a[1..] + x;
      assert (b + y)[0] == b[0] && (b + y)[1..] == b[1..] + y;
      assert a == [a[0]] + a[1..] && b == [b[0]] + b[1..];
    }
  }

  /** The last n bytes of a number, most significant first. */
  function BigEndian(v: int, n: nat): (bs: seq<Byte>)
    ensures |bs| == n
    decreases n
  {
    if n == 0 then [] else BigEndian(v / 256, n - 1) + [v % 256]
  }

  function Power256(n: nat): (p: nat)
    ensures p > 0
  {
    if n == 0 then 1 else 256 * Power256(n - 1)
  }

  lemma {:induction false} BigEndianOrder(v: nat, w: nat, n: nat)
    requires v < w < Power256(n)
    ensures Before(BigEndian(v, n), BigEndian(w, n))
  {
    var a, b := BigEndian(v / 256, n - 1), BigEndian(w / 256, n - 1);
    BeforeAppend(a, [v % 256], b, [w % 256]);
    if v / 256 < w / 256 {
      BigEndianOrder(v / 256, w / 256, n - 1);
    } else {
      assert v / 256 == w / 256 && v % 256 < w % 256;
      assert Before([v % 256], [w % 256]);
    }
  }

  function Codes(s: string): (cs: seq<int>)
    ensures |cs| == |s|
  {
    seq(|s|, k requires 0 <= k < |s| => s[k] as int)
  }

  lemma DigitsOrder(b: Byte, c: Byte)
    ensures b < c ==> Before(Codes([Digit(b / 16), Digit(b % 16)]), Codes([Digit(c / 16), Digit(c % 16)]))
  {
    var x, y := Codes([Digit(b / 16), Digit(b % 16)]), Codes([Digit(c / 16), Digit(c % 16)]);
    if b < c {
      if b / 16 < c / 16 {
        assert x[0] < y[0];
      } else {
        assert x[0] == y[0] && x[1] < y[1] && Before(x[1..], y[1..]);
      }
    }
  }

  /** Hexadecimal keeps the order of bytes. */
  lemma {:induction false} HexOrder(a: seq<Byte>, b: seq<Byte>)
    requires |a| == |b| && Before(a, b)
    ensures Before(Codes(HexOf(a)), Codes(HexOf(b)))
  {
    var a0, b0 := [Digit(a[0] / 16), Digit(a[0] % 16)], [Digit(b[0] / 16), Digit(b[0] % 16)];
    assert Codes(HexOf(a)) == Codes(a0) + Codes(HexOf(a[1..]));
    assert Codes(HexOf(b)) == Codes(b0) + Codes(HexOf(b[1..]));
    BeforeAppend(Codes(a0), Codes(HexOf(a[1..])), Codes(b0), Codes(HexOf(b[1..])));
    if a[0] < b[0] {
      DigitsOrder(a[0], b[0]);
    } else {
      HexOrder(a[1..], b[1..]);
    }
  }

  /** One group of the text, and whatever follows it. */
  lemma GroupOrder(a: seq<Byte>, x: seq<Byte>, b: seq<Byte>, y: seq<Byte>, tx: seq<int>, ty: seq<int>)
    requires |a| == |b| && Before(a + x, b + y) && (Before(x, y) ==> Before(tx, ty))
    ensures Before(Codes(HexOf(a)) + [45] + tx, Codes(HexOf(b)) + [45] + ty)
  {
    BeforeAppend(a, x, b, y);
    var s, t := Codes(HexOf(a)), Codes(HexOf(b));
    DashOrder(tx, ty);
    if Before(a, b) {
      HexOrder(a, b);
    }
    JoinOrder(s, [45], tx, t, ty);
  }

  lemma DashOrder(x: seq<int>, y: seq<int>)
    ensures Before([45] + x, [45] + y) <==> Before(x, y)
  {
    assert ([45] + x)[1..] == x && ([45] + y)[1..] == y;
  }

  lemma JoinOrder(s: seq<int>, d: seq<int>, x: seq<int>, t: seq<int>, y: seq<int>)
    requires |s| == |t| && (Before(s, t) || (s == t && Before(d + x, d + y)))
    ensures Before(s + d + x, t + d + y)
  {
    assert s + d + x == s + (d + x) && t + d + y == t + (d + y);
    BeforeAppend(s, d + x, t, d + y);
  }

  lemma CanonicalCodes(i: ID)
    ensures Codes(Canonical(i)) ==
            Codes(HexOf(i[0..4])) + [45] + (Codes(HexOf(i[4..6])) + [45] + (Codes(HexOf(i[6..8])) + [45]
              + (Codes(HexOf(i[8..10])) + [45] + Codes(HexOf(i[10..16])))))
  {
  }

  /** The canonical text keeps the order of the identifiers. */
  lemma CanonicalOrder(i: ID, j: ID)
    requires Before(i, j)
    ensures Before(Codes(Canonical(i)), Codes(Canonical(j)))
  {
    CanonicalCodes(i);
    CanonicalCodes(j);
    var i5, j5 := Codes(HexOf(i[10..16])), Codes(HexOf(j[10..16]));
    var i4, j4 := Codes(HexOf(i[8..10])) + [45] + i5, Codes(HexOf(j[8..10])) + [45] + j5;
    var i3, j3 := Codes(HexOf(i[6..8])) + [45] + i4, Codes(HexOf(j[6..8])) + [45] + j4;
    var i2, j2 := Codes(HexOf(i[4..6])) + [45] + i3, Codes(HexOf(j[4..6])) + [45] + j3;
    Cut(i, 0, 4, 16);
    Cut(j, 0, 4, 16);
    assert i[0..16] == i && j[0..16] == j;
    if Before(i[4..16], j[4..16]) {
      Cut(i, 4, 6, 16);
      Cut(j, 4, 6, 16);
      if Before(i[6..16], j[6..16]) {
        Cut(i, 6, 8, 16);
        Cut(j, 6, 8, 16);
        if Before(i[8..16], j[8..16]) {
          Cut(i, 8, 10, 16);
          Cut(j, 8, 10, 16);
          if Before(i[10..16], j[10..16]) {
            HexOrder(i[10..16], j[10..16]);
          }
          GroupOrder(i[8..10], i[10..16], j[8..10], j[10..16], i5, j5);
        }
        GroupOrder(i[6..8], i[8..16], j[6..8], j[8..16], i4, j4);
      }
      GroupOrder(i[4..6], i[6..16], j[4..6], j[6..16], i3, j3);
    }
    GroupOrder(i[0..4], i[4..16], j[0..4], j[4..16], i2, j2);
  }

  // ---- Layout -------------------------------------------------------------------------

  /** The version nibble 7, the twelve-bit counter, and the variant bits 10 over the
      top of the random bytes, in the bytes of section 5.7 of RFC 9562. */
  function V7Bytes(ms: nat, sq: nat, rand: seq<Byte>): ID
    requires sq <= MAX_SEQ && |rand| == 8
  {
    BigEndian(ms, 6) + [0x70 + sq / 256, sq % 256] + [0x80 + rand[0] % 64] + rand[1..]
  }

  /** n >> 56 masked to six bits, then the low seven bytes. */
  function SequenceBytes(ms: int, n: nat): ID {
    BigEndian(ms, 6) + [0x70, 0] + [0x80 + n / Power256(7) % 64] + BigEndian(n, 7)
  }

  /** A generator's state as one number. */
  function Ticks(ms: int, sq: nat): int {
    (MAX_SEQ + 1) * ms + sq
  }

  lemma V7Parts(ms: nat, sq: nat, rand: seq<Byte>)
    requires sq <= MAX_SEQ && |rand| == 8
    ensures [0x70 + sq / 256, sq % 256] == BigEndian(0x7000 + sq, 2)
    ensures V7Bytes(ms, sq, rand) == BigEndian(ms, 6)
              + (BigEndian(0x7000 + sq, 2) + ([0x80 + rand[0] % 64] + rand[1..]))
  {
    assert BigEndian((0x7000 + sq) / 256, 1) == [(0x7000 + sq) / 256 % 256];
    assert BigEndian(0x7000 + sq, 2) == BigEndian((0x7000 + sq) / 256, 1) + [(0x7000 + sq) % 256];
    assert (0x7000 + sq) / 256 % 256 == 0x70 + sq / 256;
    assert (0x7000 + sq) % 256 == sq % 256;
  }

  lemma Power256Values()
    ensures Power256(2) == 0x1_0000 && Power256(6) == MS_LIMIT && Power256(7) == 0x100_0000_0000_0000
  {
    assert Power256(1) == 256;
    assert Power256(2) == 0x1_0000;
    assert Power256(3) == 0x100_0000;
    assert Power256(4) == 0x1_0000_0000;
    assert Power256(5) == 0x100_0000_0000;
    assert Power256(6) == 0x1_0000_0000_0000;
  }

  /** A later tick gives an identifier that sorts later, as bytes and as text, whatever
      the entropy. */
  lemma LaterTickSortsLater(ms: nat, sq: nat, rand: seq<Byte>, ms': nat, sq': nat, rand': seq<Byte>)
    requires sq <= MAX_SEQ && sq' <= MAX_SEQ && |rand| == |rand'| == 8
    requires ms' < MS_LIMIT && Ticks(ms, sq) < Ticks(ms', sq')
    ensures Before(V7Bytes(ms, sq, rand), V7Bytes(ms', sq', rand'))
    ensures Before(Codes(Canonical(V7Bytes(ms, sq, rand))), Codes(Canonical(V7Bytes(ms', sq', rand'))))
  {
    var x, x' := [0x80 + rand[0] % 64] + rand[1..], [0x80 + rand'[0] % 64] + rand'[1..];
    V7Parts(ms, sq, rand);
    V7Parts(ms', sq', rand');
    Power256Values();
    BeforeAppend(BigEndian(ms, 6), BigEndian(0x7000 + sq, 2) + x, BigEndian(ms', 6), BigEndian(0x7000 + sq', 2) + x');
    if ms < ms' {
      BigEndianOrder(ms, ms', 6);
    } else {
      assert ms == ms' && sq < sq';
      BigEndianOrder(0x7000 + sq, 0x7000 + sq', 2);
      BeforeAppend(BigEndian(0x7000 + sq, 2), x, BigEndian(0x7000 + sq', 2), x');
    }
    CanonicalOrder(V7Bytes(ms, sq, rand), V7Bytes(ms', sq', rand'));
  }

  /** Bytes read as one number, most significant first. */
  function Number(bs: seq<Byte>): nat {
    if bs == [] then 0 else Number(bs[..|bs| - 1]) * 256 + bs[|bs| - 1]
  }

  lemma {:induction false} NumberOfBigEndian(v: nat, n: nat)
    requires v < Power256(n)
    ensures Number(BigEndian(v, n)) == v
  {
    if n == 0 {
    } else {
      NumberOfBigEndian(v / 256, n - 1);
      assert BigEndian(v, n)[..n - 1] == BigEndian(v / 256, n - 1);
    }
  }

  lemma NumberStep(i: ID, k: nat)
    requires k < 16
    ensures Number(i[0..k + 1]) == Number(i[0..k]) * 256 + i[k]
  {
    assert i[0..k + 1][..k] == i[0..k];
  }

  lemma TimeIsNumber(i: ID)
    requires Version(i) == 7
    ensures Time(i) == (Number(i[0..6]), true)
  {
    assert i[0..0] == [];
    NumberStep(i, 0);
    NumberStep(i, 1);
    NumberStep(i, 2);
    NumberStep(i, 3);
    NumberStep(i, 4);
    NumberStep(i, 5);
  }

  lemma MilliReadsBack(ms: nat, i: ID)
    requires ms < MS_LIMIT && i[0..6] == BigEndian(ms, 6) && Version(i) == 7
    ensures Time(i) == (ms, true)
  {
    Power256Values();
    NumberOfBigEndian(ms, 6);
    TimeIsNumber(i);
  }

  /** A minted identifier says version 7 and the millisecond it was ticked at. */
  lemma V7ReadsBack(ms: nat, sq: nat, rand: seq<Byte>)
    requires sq <= MAX_SEQ && |rand| == 8 && ms < MS_LIMIT
    ensures Version(V7Bytes(ms, sq, rand)) == 7 && Time(V7Bytes(ms, sq, rand)) == (ms, true)
    ensures V7Bytes(ms, sq, rand)[8] / 64 == 2
  {
    var i := V7Bytes(ms, sq, rand);
    assert i[0..6] == BigEndian(ms, 6);
    assert i[6] == 0x70 + sq / 256;
    assert i[8] == 0x80 + rand[0] % 64;
    MilliReadsBack(ms, i);
  }

  /** The version nibble and the counter's top bits, the counter's low byte, the variant over
      the first entropy byte, and the rest of the entropy as it came. */
  lemma V7LayoutIs(ms: nat, sq: nat, rand: seq<Byte>)
    requires sq <= 4095 && |rand| == 8
    ensures var i := V7Bytes(ms, sq, rand);
            var high: int, low: int := i[6], i[7];
            && 0x70 <= high < 0x80 && (high - 0x70) * 256 + low == sq
            && i[8] == 0x80 + rand[0] % 64 && i[9..16] == rand[1..8]
  {
    var i := V7Bytes(ms, sq, rand);
    assert i[9..16] == rand[1..];
  }

  lemma SequenceSlices(ms: int, n: nat)
    ensures var i := SequenceBytes(ms, n);
            && i[0..6] == BigEndian(ms, 6) && i[6] == 0x70 && i[7] == 0
            && i[8] == 0x80 + n / Power256(7) % 64 && i[9..16] == BigEndian(n, 7)
  {
  }

  lemma TopSplit(n: nat)
    requires n < 0x4000_0000_0000_0000
    ensures var k := n / 0x100_0000_0000_0000;
            k % 64 == k && k * 0x100_0000_0000_0000 <= n < (k + 1) * 0x100_0000_0000_0000
  {
  }

  lemma LowIsNumber(n: nat, k: nat)
    requires k * 0x100_0000_0000_0000 <= n < (k + 1) * 0x100_0000_0000_0000
    ensures Number(BigEndian(n, 7)) == n - k * 0x100_0000_0000_0000
  {
    Power256Values();
    LowBytes(n, k, 7);
    NumberOfBigEndian(n - k * 0x100_0000_0000_0000, 7);
  }

  /** The fixed millisecond, version 7 over zeros, the variant over the number's top six bits of
      62, and its low 56 bits. */
  lemma SequenceLayoutIs(ms: nat, n: nat)
    requires ms < 0x1_0000_0000_0000 && n < 0x4000_0000_0000_0000
    ensures var i := SequenceBytes(ms, n);
            var top: int := i[8];
            && Number(i[0..6]) == ms && i[6] == 0x70 && i[7] == 0 && 0x80 <= top < 0xC0
            && (top - 0x80) * 0x100_0000_0000_0000 + Number(i[9..16]) == n
  {
    Power256Values();
    SequenceSlices(ms, n);
    NumberOfBigEndian(ms, 6);
    TopSplit(n);
    LowIsNumber(n, n / 0x100_0000_0000_0000);
  }

  lemma {:induction false} BigEndianWraps(v: int, k: nat, n: nat)
    ensures BigEndian(v + k * Power256(n), n) == BigEndian(v, n)
    decreases n
  {
    if n > 0 {
      var p := k * Power256(n - 1);
      assert k * Power256(n) == 256 * p by { Regroup(k, Power256(n - 1)); }
      assert (v + 256 * p) / 256 == v / 256 + p;
      assert (v + 256 * p) % 256 == v % 256;
      BigEndianWraps(v / 256, k, n - 1);
    }
  }

  lemma Regroup(k: nat, p: nat)
    ensures k * (256 * p) == 256 * (k * p)
  {
  }

  /** The bound is sharp: 2^48 milliseconds on, the same bytes come round again. */
  lemma MillisWrapAt48Bits(ms: nat, sq: nat, rand: seq<Byte>)
    requires sq <= MAX_SEQ && |rand| == 8
    ensures V7Bytes(ms + MS_LIMIT, sq, rand) == V7Bytes(ms, sq, rand)
  {
    Power256Values();
    BigEndianWraps(ms, 1, 6);
  }

  // ---- Sequence --------------------------------------------------------------------------

  /** Sequence sorts in issue order for its first 2^62 identifiers. */
  lemma SequenceIsIncreasing(ms: int, n: nat, m: nat)
    requires n < m < WORD / 4
    ensures Before(SequenceBytes(ms, n), SequenceBytes(ms, m))
    ensures Before(Codes(Canonical(SequenceBytes(ms, n))), Codes(Canonical(SequenceBytes(ms, m))))
  {
    var p := Power256(7);
    var head, a, b := BigEndian(ms, 6) + [0x70, 0], [0x80 + n / p % 64], [0x80 + m / p % 64];
    SequenceParts(ms, n);
    SequenceParts(ms, m);
    BeforeAppend(head, a + BigEndian(n, 7), head, b + BigEndian(m, 7));
    BeforeAppend(a, BigEndian(n, 7), b, BigEndian(m, 7));
    TopOrLow(n, m);
    CanonicalOrder(SequenceBytes(ms, n), SequenceBytes(ms, m));
  }

  lemma SequenceParts(ms: int, n: nat)
    ensures SequenceBytes(ms, n) == (BigEndian(ms, 6) + [0x70, 0]) + ([0x80 + n / Power256(7) % 64] + BigEndian(n, 7))
  {
    Associate(BigEndian(ms, 6) + [0x70, 0], [0x80 + n / Power256(7) % 64], BigEndian(n, 7));
  }

  /** The number grows in its top six bits or, if they stay, in its low seven bytes. */
  lemma TopOrLow(n: nat, m: nat)
    requires n < m < WORD / 4
    ensures var p := Power256(7);
            n / p % 64 < m / p % 64 || (n / p % 64 == m / p % 64 && Before(BigEndian(n, 7), BigEndian(m, 7)))
  {
    Power256Values();
    var p := Power256(7);
    assert n / p < 64 && m / p < 64;
    if n / p == m / p {
      LowBytes(n, n / p, 7);
      LowBytes(m, m / p, 7);
      BigEndianOrder(n - n / p * p, m - m / p * p, 7);
    }
  }

  lemma LowBytes(v: nat, k: nat, n: nat)
    requires k * Power256(n) <= v
    ensures BigEndian(v, n) == BigEndian(v - k * Power256(n), n)
  {
    BigEndianWraps(v - k * Power256(n), k, n);
  }

  /** And no further: 2^62 identifiers on, the first one comes again. */
  lemma SequenceRepeatsAfter62Bits(ms: int, n: nat)
    ensures SequenceBytes(ms, n + WORD / 4) == SequenceBytes(ms, n)
  {
    Power256Values();
    BigEndianWraps(n, 64, 7);
    TopRepeats(n);
  }

  lemma TopRepeats(n: nat)
    ensures (n + WORD / 4) / 0x100_0000_0000_0000 % 64 == n / 0x100_0000_0000_0000 % 64
  {
    assert (n + WORD / 4) / 0x100_0000_0000_0000 == n / 0x100_0000_0000_0000 + 64;
  }

  // ---- The counter under any clock -----------------------------------------------------

  /** One tick: on by one, or on to the clock if that is further. */
  function TickTo(v: int, now: int): int {
    if Ticks(now, 0) > v + 1 then Ticks(now, 0) else v + 1
  }

  /** Where a new generator stands after these clock readings. */
  function TickedTo(readings: seq<int>): int {
    if readings == [] then 0 else TickTo(TickedTo(readings[..|readings| - 1]), readings[|readings| - 1])
  }

  /** After n calls the count is the greatest of n and of every reading carried forward by
      the calls made since. */
  lemma {:induction false} TickClosedForm(readings: seq<int>)
    ensures TickedTo(readings) >= |readings|
    ensures forall i :: 0 <= i < |readings| ==> TickedTo(readings) >= Ticks(readings[i], 0) + (|readings| - 1 - i)
    ensures TickedTo(readings) == |readings| ||
            exists i :: 0 <= i < |readings| && TickedTo(readings) == Ticks(readings[i], 0) + (|readings| - 1 - i)
  {
    if readings == [] {
    } else {
      var n := |readings| - 1;
      var front := readings[..n];
      TickClosedForm(front);
      forall i | 0 <= i < |readings| ensures TickedTo(readings) >= Ticks(readings[i], 0) + (n - i) {
        if i < n {
          assert front[i] == readings[i];
        }
      }
      if TickedTo(readings) == Ticks(readings[n], 0) {
        assert TickedTo(readings) == Ticks(readings[n], 0) + (n - n);
      } else if TickedTo(front) != n {
        var i :| 0 <= i < n && TickedTo(front) == Ticks(front[i], 0) + (n - 1 - i);
        assert TickedTo(readings) == Ticks(readings[i], 0) + (n - i);
      }
    }
  }

  /** The millisecond issued runs ahead of the highest reading by no more than one for
      every 4096 calls. */
  lemma LeadIsBounded(readings: seq<int>, highest: nat)
    requires forall i :: 0 <= i < |readings| ==> readings[i] <= highest
    ensures TickedTo(readings) / (MAX_SEQ + 1) <= highest + |readings| / (MAX_SEQ + 1)
  {
    TickClosedForm(readings);
  }

  lemma {:induction false} TicksIncrease(readings: seq<int>, i: nat, j: nat)
    requires i < j <= |readings|
    ensures TickedTo(readings[..i]) < TickedTo(readings[..j])
    decreases j
  {
    assert readings[..j][..j - 1] == readings[..j - 1];
    if i < j - 1 {
      TicksIncrease(readings, i, j - 1);
    }
  }

  /** The k-th identifier minted, given the clock readings and the entropy of each call. */
  function Minted(readings: seq<int>, rands: seq<seq<Byte>>, k: nat): ID
    requires k < |readings| == |rands| && |rands[k]| == 8
    requires TickedTo(readings[..k + 1]) >= 0
  {
    var v := TickedTo(readings[..k + 1]);
    V7Bytes(v / (MAX_SEQ + 1), v % (MAX_SEQ + 1), rands[k])
  }

  /** Whatever the clock does and whatever the entropy, identifiers are distinct and sort
      in the order they were issued, as bytes and as text, until the millisecond needs
      more than 48 bits. */
  lemma MintedInOrder(readings: seq<int>, rands: seq<seq<Byte>>, i: nat, j: nat)
    requires i < j < |readings| == |rands| && |rands[i]| == |rands[j]| == 8
    requires TickedTo(readings[..j + 1]) / (MAX_SEQ + 1) < MS_LIMIT
    ensures TickedTo(readings[..i + 1]) >= 0 && TickedTo(readings[..j + 1]) >= 0
    ensures Minted(readings, rands, i) != Minted(readings, rands, j)
    ensures Before(Minted(readings, rands, i), Minted(readings, rands, j))
    ensures Before(Codes(Canonical(Minted(readings, rands, i))), Codes(Canonical(Minted(readings, rands, j))))
  {
    TickClosedForm(readings[..i + 1]);
    TickClosedForm(readings[..j + 1]);
    TicksIncrease(readings, i + 1, j + 1);
    var x, y := Minted(readings, rands, i), Minted(readings, rands, j);
    CountsSortLater(TickedTo(readings[..i + 1]), rands[i], TickedTo(readings[..j + 1]), rands[j], x, y);
    NotBeforeItself(x);
  }

  lemma CountsSortLater(v: nat, rand: seq<Byte>, w: nat, rand': seq<Byte>, x: ID, y: ID)
    requires v < w && w / (MAX_SEQ + 1) < MS_LIMIT && |rand| == |rand'| == 8
    requires x == V7Bytes(v / (MAX_SEQ + 1), v % (MAX_SEQ + 1), rand)
    requires y == V7Bytes(w / (MAX_SEQ + 1), w % (MAX_SEQ + 1), rand')
    ensures Before(x, y) && Before(Codes(Canonical(x)), Codes(Canonical(y)))
  {
    TicksBack(v);
    TicksBack(w);
    LaterTickSortsLater(v / (MAX_SEQ + 1), v % (MAX_SEQ + 1), rand, w / (MAX_SEQ + 1), w % (MAX_SEQ + 1), rand');
  }

  lemma TicksBack(v: nat)
    ensures v % (MAX_SEQ + 1) <= MAX_SEQ && Ticks(v / (MAX_SEQ + 1), v % (MAX_SEQ + 1)) == v
  {
  }

  lemma {:induction false} NotBeforeItself(a: seq<int>)
    ensures !Before(a, a)
  {
    if a == [] {
    } else {
      NotBeforeItself(a[1..]);
    }
  }

  // ---- The generators ---------------------------------------------------------------------

  /** putMilli: the low 48 bits of a millisecond, shifted out a byte at a time. */
  method PutMilli(out: array<Byte>, ms: int)
    requires out.Length == 16
    modifies out
    ensures out[..] == BigEndian(ms, 6) + old(out[6..])
  {
    out[0] := ms / 0x100_0000_0000 % 256;
    out[1] := ms / 0x1_0000_0000 % 256;
    out[2] := ms / 0x100_0000 % 256;
    out[3] := ms / 0x1_0000 % 256;
    out[4] := ms / 0x100 % 256;
    out[5] := ms % 256;
    ShiftsAreBytes(ms);
    assert out[..6] == BigEndian(ms, 6);
    assert out[..] == out[..6] + out[6..];
  }

  lemma ShiftsAreBytes(ms: int)
    ensures BigEndian(ms, 6) == [ms / 0x100_0000_0000 % 256, ms / 0x1_0000_0000 % 256, ms / 0x100_0000 % 256,
                                 ms / 0x1_0000 % 256, ms / 0x100 % 256, ms % 256]
  {
    var q1 := ms / 256;
    var q2 := q1 / 256;
    var q3 := q2 / 256;
    var q4 := q3 / 256;
    var q5 := q4 / 256;
    assert BigEndian(q5, 1) == [q5 % 256];
    assert BigEndian(q4, 2) == [q5 % 256, q4 % 256];
    assert BigEndian(q3, 3) == [q5 % 256, q4 % 256, q3 % 256];
    assert BigEndian(q2, 4) == [q5 % 256, q4 % 256, q3 % 256, q2 % 256];
    assert BigEndian(q1, 5) == [q5 % 256, q4 % 256, q3 % 256, q2 % 256, q1 % 256];
    assert q2 == ms / 0x1_0000 && q3 == ms / 0x100_0000 && q4 == ms / 0x1_0000_0000 && q5 == ms / 0x100_0000_0000;
  }

  class V7 {
    var lastMS: int
    var sq: nat
    ghost var readings: seq<int>  // every clock reading so far

    ghost predicate Valid()
      reads this
    {
      sq <= MAX_SEQ && lastMS >= 0 && Ticks(lastMS, sq) == TickedTo(readings)
    }

    constructor ()
      ensures Valid() && readings == [] && lastMS == 0 && sq == 0
    {
      lastMS, sq, readings := 0, 0, [];
    }

    method Tick(now: int) returns (milli: int, counter: nat)
      requires Valid()
      modifies this
      ensures Valid() && readings == old(readings) + [now]
      ensures milli == lastMS && counter == sq
      ensures Ticks(lastMS, sq) == TickTo(old(Ticks(lastMS, sq)), now)
      ensures now > old(lastMS) ==> lastMS == now && sq == 0
      ensures now <= old(lastMS) && old(sq) < 4095 ==> lastMS == old(lastMS) && sq == old(sq) + 1
      ensures now <= old(lastMS) && old(sq) >= 4095 ==> lastMS == old(lastMS) + 1 && sq == 0
    {
      if now > lastMS {
        lastMS, sq := now, 0;
      } else if sq < MAX_SEQ {
        sq := sq + 1;
      } else {
        lastMS := lastMS + 1;
        sq := 0;
      }
      readings := readings + [now];
      assert readings[..|readings| - 1] == old(readings);
      return lastMS, sq;
    }

    method NewID(now: int, rand: seq<Byte>) returns (id: ID)
      requires Valid() && |rand| == 8
      modifies this
      ensures Valid() && readings == old(readings) + [now]
      ensures id == V7Bytes(lastMS, sq, rand)
    {
      var ms, counter := Tick(now);
      var out := new Byte[16](_ => 0);
      PutMilli(out, ms);
      OrIsSum(counter / 256);
      out[6] := Or(0x70, counter / 256);
      out[7] := counter % 256;
      forall j | 0 <= j < 8 {
        out[8 + j] := rand[j];
      }
      assert out[8] == rand[0] && out[9..16] == rand[1..];
      VariantOver(out[8]);
      out[8] := Or(0x80, And(out[8], 0x3F));
      id := out[..];
      assert id[0..6] == out[..6] == BigEndian(ms, 6);
      assert id[9..16] == out[9..16] == rand[1..];
      Assembled(id, id[6..9]);
    }
  }

  lemma VariantOver(b: Byte)
    ensures Or(0x80, And(b, 0x3F)) == 0x80 + b % 64
  {
    OrIsSum(b);
    OrIsSum(b % 64);
  }

  /** The second byte from the top of a 64-bit number, its low six bits. */
  lemma TopBits(n: nat)
    ensures Or(0x80, And(n / Power256(7) % 256, 0x3F)) == 0x80 + n / Power256(7) % 64
  {
    var top := n / Power256(7);
    assert top % 256 % 64 == top % 64;
    VariantOver(top % 256);
  }

  class Sequence {
    const at: int  // the fixed instant, in Unix milliseconds
    var n: nat

    constructor (at: int)
      ensures this.at == at && n == 0
    {
      this.at := at;
      n := 0;
    }

    method NewID() returns (id: ID)
      requires n < WORD
      modifies this
      ensures id == SequenceBytes(at, old(n))
      ensures n == (old(n) + 1) % WORD
    {
      var mine := n;
      n := (n + 1) % WORD;
      var out := new Byte[16](_ => 0);
      PutMilli(out, at);
      assert out[0..6] == BigEndian(at, 6);
      out[6] := 0x70;
      out[7] := 0;
      TopBits(mine);
      out[8] := Or(0x80, And(mine / Power256(7) % 256, 0x3F));
      ghost var nine := out[..9];
      PutLowBytes(out, mine);
      assert out[..9] == nine && nine[0..6] == out[0..6] && nine[6] == out[6] && nine[7] == out[7] && nine[8] == out[8];
      id := out[..];
      Assembled(id, out[6..9]);
    }
  }

  /** Sixteen bytes, from their three stretches. */
  lemma Assembled(id: ID, mid: seq<Byte>)
    requires mid == id[6..9]
    ensures id == id[0..6] + [id[6], id[7]] + [id[8]] + id[9..16]
  {
    Cut(id, 0, 6, 16);
    Cut(id, 6, 9, 16);
    assert id[0..16] == id && mid == [id[6], id[7]] + [id[8]];
  }

  /** The low seven bytes of a number, into the last seven places. */
  method PutLowBytes(out: array<Byte>, n: nat)
    requires out.Length == 16
    modifies out
    ensures out[..9] == old(out[..9]) && out[9..16] == BigEndian(n, 7)
  {
    for j := 0 to 7
      invariant out[..9] == old(out[..9])
      invariant forall m :: 9 <= m < 9 + j ==> out[m] == BigEndian(n, 7)[m - 9]
    {
      ByteOf(n, 7, j);
      out[9 + j] := n / Power256(6 - j) % 256;
    }
  }

  lemma {:induction false} ByteOf(v: nat, n: nat, k: nat)
    requires k < n
    ensures BigEndian(v, n)[k] == v / Power256(n - 1 - k) % 256
  {
    if k < n - 1 {
      ByteOf(v / 256, n - 1, k);
      var p := Power256(n - 2 - k);
      assert Power256(n - 1 - k) == 256 * p;
      Divides(v, p);
    }
  }

  lemma Divides(v: nat, p: nat)
    requires p > 0
    ensures v / 256 / p == v / (256 * p)
  {
    var q, r := v / 256, v % 256;
    var a, b := q / p, q % p;
    assert q == a * p + b;
    assert v == 256 * (a * p) + (256 * b + r);
    assert 256 * (a * p) == a * (256 * p);
    assert 0 <= 256 * b + r < 256 * p;
    Quotient(v, 256 * p, a, 256 * b + r);
  }

  lemma Quotient(v: nat, d: nat, q: nat, r: nat)
    requires v == q * d + r && r < d
    ensures v / d == q
  {
    var k := v / d;
    assert v == k * d + v % d;
    assert (k - q) * d == r - v % d;
    SmallMultiple(k - q, d);
  }

  lemma SmallMultiple(x: int, d: nat)
    requires x * d < d && x * d > 0 - d
    ensures x == 0
  {
    assert x >= 1 ==> x * d >= 1 * d;
    assert x <= -1 ==> x * d <= -1 * d;
  }
}
