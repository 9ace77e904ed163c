/** Decimal and hexadecimal numerals: what `%u` and `%x` print and how the
    parsers read them back. */
module Numerals {

  predicate IsDec(c: char) { '0' <= c <= '9' }

  function DecDigit(c: char): (d: nat)
    requires IsDec(c)
  {
    c as int - '0' as int
  }

  predicate AllDec(s: string) { forall i :: 0 <= i < |s| ==> IsDec(s[i]) }

  function DecValue(s: string): (v: nat)
    requires AllDec(s)
  {
    if s == "" then 0 else 10 * DecValue(s[..|s| - 1]) + DecDigit(s[|s| - 1])
  }

  /** Hexadecimal digits in either case, the two tables of inet_pton6. */
  predicate IsHex(c: char) { '0' <= c <= '9' || 'a' <= c <= 'f' || 'A' <= c <= 'F' }

  function HexDigit(c: char): (d: nat)
    requires IsHex(c)
    ensures d < 16
  {
    if '0' <= c <= '9' then c as int - '0' as int
    else if 'a' <= c <= 'f' then c as int - 'a' as int + 10
    else c as int - 'A' as int + 10
  }

  const LOWER := "0123456789abcdef"
  const UPPER := "0123456789ABCDEF"

  /** A digit's value is its place in either table; in decimal, in the first ten. */
  lemma {:induction false} DigitTables(c: char)
    ensures IsHex(c) <==> c in LOWER || c in UPPER
    ensures IsHex(c) ==> LOWER[HexDigit(c)] == c || UPPER[HexDigit(c)] == c
    ensures IsDec(c) <==> c in LOWER[..10]
    ensures IsDec(c) ==> DecDigit(c) < 10 && LOWER[DecDigit(c)] == c
  {
    assert LOWER[..10] == "0123456789";
  }

  predicate AllHex(s: string) { forall i :: 0 <= i < |s| ==> IsHex(s[i]) }

  function HexValue(s: string): (v: nat)
    requires AllHex(s)
  {
    if s == "" then 0 else 16 * HexValue(s[..|s| - 1]) + HexDigit(s[|s| - 1])
  }

  /** `%u` */
  function Dec(n: nat): (s: string)
    ensures s != "" && AllDec(s) && DecValue(s) == n
    ensures n < 10 ==> |s| == 1
    ensures n < 100 ==> |s| <= 2
    ensures n < 1000 ==> |s| <= 3
  {
    var last := ['0' + (n % 10) as char];
    if n < 10 then last
    else
      var s := Dec(n / 10) + last;
      assert s[..|s| - 1] == Dec(n / 10);
      s
  }

  /** `%x` */
  function Hex(n: nat): (s: string)
    ensures s != "" && AllHex(s) && HexValue(s) == n
    ensures n < 0x10000 ==> |s| <= 4
    ensures n < 0x1000 ==> |s| <= 3
    ensures n < 0x100 ==> |s| <= 2
    ensures n < 0x10 ==> |s| == 1
  {
    var d := n % 16;
    var last := if d < 10 then ['0' + d as char] else ['a' + (d - 10) as char];
    if n < 16 then last
    else
      var s := Hex(n / 16) + last;
      assert s[..|s| - 1] == Hex(n / 16);
      s
  }

  /** A numeral is at least as large as any of its prefixes. */
  lemma {:induction false} DecPrefix(s: string, k: nat)
    requires AllDec(s) && k <= |s|
    ensures AllDec(s[..k]) && DecValue(s[..k]) <= DecValue(s)
  {
    if k < |s| {
      var init := s[..|s| - 1];
      DecPrefix(init, k);
      assert init[..k] == s[..k];
    } else {
      assert s[..k] == s;
    }
  }

  lemma {:induction false} HexPrefix(s: string, k: nat)
    requires AllHex(s) && k <= |s|
    ensures AllHex(s[..k]) && HexValue(s[..k]) <= HexValue(s)
  {
    if k < |s| {
      var init := s[..|s| - 1];
      HexPrefix(init, k);
      assert init[..k] == s[..k];
    } else {
      assert s[..k] == s;
    }
  }

  /** A decimal numeral of at most 999, read as hexadecimal, stays below 0x1000.
      inet_pton6 reads the first octet of an embedded IPv4 address this way. */
  lemma {:induction false} DecReadAsHex(s: string)
    requires AllDec(s)
    ensures AllHex(s)
    ensures DecValue(s) < 10 ==> HexValue(s) <= 0x9
    ensures DecValue(s) < 100 ==> HexValue(s) <= 0x99
    ensures DecValue(s) < 1000 ==> HexValue(s) <= 0x999
  {
    if s != "" {
      DecReadAsHex(s[..|s| - 1]);
    }
  }

  /** `%x` prints lower case. */
  lemma {:induction false} HexIsLower(n: nat)
    ensures forall i :: 0 <= i < |Hex(n)| ==> Hex(n)[i] in LOWER
  {
    if n >= 16 {
      HexIsLower(n / 16);
    }
  }
}
