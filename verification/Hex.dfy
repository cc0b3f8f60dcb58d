/** Hexadecimal digits, of either case. */
module Hex {

  predicate IsHex(c: char) {
    '0' <= c <= '9' || 'a' <= c <= 'f' || 'A' <= c <= 'F'
  }

  function DigitValue(c: char): (n: nat)
    requires IsHex(c)
    ensures n < 16
  {
    if '0' <= c <= '9' then c as int - '0' as int
    else if 'a' <= c <= 'f' then c as int - 'a' as int + 10
    else c as int - 'A' as int + 10
  }

  /** 0 to 9, A to F and a to f, with their values. */
  lemma HexDigitsAre(c: char)
    ensures IsHex(c) <==> 48 <= c as int <= 57 || 65 <= c as int <= 70 || 97 <= c as int <= 102
    ensures 48 <= c as int <= 57 ==> DigitValue(c) == c as int - 48
    ensures 65 <= c as int <= 70 ==> DigitValue(c) == c as int - 55
    ensures 97 <= c as int <= 102 ==> DigitValue(c) == c as int - 87
  {
  }
}
