/** Decimal text for integers: `toString()` on a number or a `bigint`, and `BigInt(text)`. */
module Decimal {
  import opened Common
  import Text

  predicate IsDigit(c: char) { '0' <= c <= '9' }

  predicate AllDigits(s: string) { forall i :: 0 <= i < |s| ==> IsDigit(s[i]) }

  function DigitValue(c: char): (d: nat)
    requires IsDigit(c)
    ensures d < 10
  {
    c as int - '0' as int
  }

  function DigitChar(d: nat): (c: char)
    requires d < 10
    ensures IsDigit(c) && DigitValue(c) == d
  {
    ('0' as int + d) as char
  }

  /** The decimal digits of `n`, most significant first, with no leading zero. */
  function Digits(n: nat): (s: string)
    ensures s != [] && AllDigits(s)
    ensures |s| > 1 ==> s[0] != '0'
  {
    if n < 10 then [DigitChar(n)] else Digits(n / 10) + [DigitChar(n % 10)]
  }

  /** The text `toString()` gives for the integer `n`: a minus sign for negative values, then the digits. */
  function ToDecimal(n: int): (s: string)
    ensures s != []
    ensures s[0] == '-' <==> n < 0
  {
    if n < 0 then "-" + Digits(-n) else Digits(n)
  }

  /** The number a string of decimal digits denotes. */
  function DigitsValue(s: string): nat
    requires AllDigits(s)
  {
    if s == [] then 0 else DigitsValue(s[..|s| - 1]) * 10 + DigitValue(s[|s| - 1])
  }

  /** The base a `0x`, `0o` or `0b` prefix letter selects, or 0 for any other letter. */
  function RadixOf(c: char): (b: nat)
    ensures b == 0 || b == 2 || b == 8 || b == 16
  {
    if c == 'x' || c == 'X' then 16
    else if c == 'o' || c == 'O' then 8
    else if c == 'b' || c == 'B' then 2
    else 0
  }

  /** The value of a hexadecimal digit in either case, or -1 for a character that is none. */
  function HexValue(c: char): (d: int)
    ensures -1 <= d < 16
    ensures IsDigit(c) ==> d == DigitValue(c)
  {
    if '0' <= c <= '9' then c as int - '0' as int
    else if 'a' <= c <= 'f' then c as int - 'a' as int + 10
    else if 'A' <= c <= 'F' then c as int - 'A' as int + 10
    else -1
  }

  predicate AllRadixDigits(s: string, radix: nat) {
    forall i :: 0 <= i < |s| ==> 0 <= HexValue(s[i]) < radix
  }

  /** The number a string of digits in base `radix` denotes. */
  function RadixValue(s: string, radix: nat): nat
    requires AllRadixDigits(s, radix)
  {
    if s == [] then 0 else RadixValue(s[..|s| - 1], radix) * radix + HexValue(s[|s| - 1])
  }

  /** `BigInt(s)` for a string: surrounding whitespace is ignored, then the text is read. */
  function ParseBigInt(s: string): Option<int> {
    ParseText(Text.Trim(s))
  }

  /** The trimmed text: blank text is zero; otherwise either an optional sign and decimal digits,
      or an unsigned `0x`, `0o` or `0b` prefix (any case) and at least one digit of that base. Any
      other text throws, here `None`. */
  function ParseText(t: string): Option<int> {
    if t == [] then Some(0)
    else if t[0] == '-' || t[0] == '+' then
      var ds := t[1..];
      if ds != [] && AllDigits(ds) then
        var v: int := DigitsValue(ds);
        Some(if t[0] == '-' then -v else v)
      else None
    else if |t| >= 2 && t[0] == '0' && RadixOf(t[1]) != 0 then
      var ds := t[2..];
      if ds != [] && AllRadixDigits(ds, RadixOf(t[1])) then Some(RadixValue(ds, RadixOf(t[1]))) else None
    else if AllDigits(t) then Some(DigitsValue(t))
    else None
  }

  /** Hexadecimal, octal and binary text, in either case of the prefix letter. */
  lemma HexText()
    ensures ParseText("0x1F") == Some(31)
  {
    assert "0x1F"[2..] == "1F" && "1F"[..1] == "1" && "1"[..0] == "";
    assert AllRadixDigits("1F", 16) by { assert HexValue("1F"[0]) == 1 && HexValue("1F"[1]) == 15; }
    assert RadixValue("1F", 16) == 31 by { assert RadixValue("1", 16) == 1; }
  }

  lemma OctalText()
    ensures ParseText("0o17") == Some(15)
  {
    assert "0o17"[2..] == "17" && "17"[..1] == "1";
    assert AllRadixDigits("17", 8) by { assert HexValue("17"[0]) == 1 && HexValue("17"[1]) == 7; }
    assert RadixValue("17", 8) == 15 by { assert RadixValue("1", 8) == 1; }
  }

  lemma BinaryText()
    ensures ParseText("0B101") == Some(5)
  {
    assert "0B101"[2..] == "101" && "101"[..2] == "10" && "10"[..1] == "1";
    assert AllRadixDigits("101", 2) by {
      assert HexValue("101"[0]) == 1 && HexValue("101"[1]) == 0 && HexValue("101"[2]) == 1;
    }
    assert RadixValue("101", 2) == 5 by {
      assert RadixValue("1", 2) == 1;
      assert RadixValue("10", 2) == 2;
    }
  }

  /** A prefix with no digits, a sign before a prefix, and a digit outside the base all throw. */
  lemma MalformedPrefixedText()
    ensures ParseText("0x") == None && ParseText("-0x10") == None && ParseText("0b2") == None
  {
    assert "0x"[2..] == [];
    assert "-0x10"[1..] == "0x10" && !IsDigit("0x10"[1]);
    assert "0b2"[2..] == "2" && HexValue("2"[0]) == 2;
  }

  /** Whitespace around a prefixed number is ignored. */
  lemma PaddedPrefixedText()
    ensures ParseBigInt(" 0x10 ") == Some(16)
  {
    Text.TrimUnique(" 0x10 ", 1, "0x10");
    assert "0x10"[2..] == "10" && "10"[..1] == "1";
    assert AllRadixDigits("10", 16) by { assert HexValue("10"[0]) == 1 && HexValue("10"[1]) == 0; }
    assert RadixValue("10", 16) == 16 by { assert RadixValue("1", 16) == 1; }
  }

  /** Reading back the digits of `n` gives `n`. */
  lemma {:induction false} DigitsRoundTrip(n: nat)
    ensures DigitsValue(Digits(n)) == n
  {
    if n >= 10 {
      var s := Digits(n);
      assert s[..|s| - 1] == Digits(n / 10);
      DigitsRoundTrip(n / 10);
    }
  }

  /** `BigInt(n.toString())` is `n`: the string replacer and the reviver of the store agree. */
  lemma DecimalRoundTrip(n: int)
    ensures ParseBigInt(ToDecimal(n)) == Some(n)
  {
    var s := ToDecimal(n);
    var d := Digits(if n < 0 then -n else n);
    assert !Text.IsSpace(s[0]) && !Text.IsSpace(s[|s| - 1]) by {
      assert s[|s| - 1] == d[|d| - 1];
    }
    Text.TrimUnchanged(s);
    assert |d| > 1 ==> d[0] != '0';
    DigitsRoundTrip(if n < 0 then -n else n);
    if n < 0 {
      assert s[1..] == d;
    }
  }

  /** Different integers have different decimal texts. */
  lemma DecimalInjective(a: int, b: int)
    requires ToDecimal(a) == ToDecimal(b)
    ensures a == b
  {
    DecimalRoundTrip(a);
    DecimalRoundTrip(b);
  }
}
