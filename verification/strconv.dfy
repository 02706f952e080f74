/** The two conversions of Go's strconv package that the plugin relies on: the base-16
    rendering of the 64-bit content hash (`strconv.FormatUint(h, 16)`) and the decimal
    parsing of the style index (`strconv.Atoi`) on a 64-bit platform. */
module Strconv {

  newtype uint64 = x: int | 0 <= x < 0x1_0000_0000_0000_0000

  const MaxInt64: int := 0x7fff_ffff_ffff_ffff
  const MinInt64: int := -0x8000_0000_0000_0000
  const MaxUint64: int := 0xffff_ffff_ffff_ffff

  // ---------------------------------------------------------------- base 16

  predicate IsHexDigit(c: char)
  {
    '0' <= c <= '9' || 'a' <= c <= 'f'
  }

  function HexDigit(d: nat): (c: char)
    requires d < 16
    ensures IsHexDigit(c)
  {
    if d < 10 then ('0' as int + d) as char else ('a' as int + d - 10) as char
  }

  function HexValue(c: char): nat
    requires IsHexDigit(c)
  {
    if '0' <= c <= '9' then c as int - '0' as int else c as int - 'a' as int + 10
  }

  lemma HexDigitValue(d: nat)
    requires d < 16
    ensures HexValue(HexDigit(d)) == d
  {
  }

  lemma HexValueDigit(c: char)
    requires IsHexDigit(c)
    ensures HexValue(c) < 16 && HexDigit(HexValue(c)) == c
  {
  }

  /** A string of lower-case hex digits with no superfluous leading zero: the only
      shape FormatUint(_, 16) produces. */
  predicate CanonicalHex(s: string)
  {
    && |s| > 0
    && (forall i :: 0 <= i < |s| ==> IsHexDigit(s[i]))
    && (|s| > 1 ==> s[0] != '0')
  }

  /** The number a string of hex digits denotes (the reference reading of FormatHex). */
  function ParseHex(s: string): nat
    requires forall i :: 0 <= i < |s| ==> IsHexDigit(s[i])
  {
    if |s| == 0 then 0 else ParseHex(s[..|s| - 1]) * 16 + HexValue(s[|s| - 1])
  }

  /** strconv.FormatUint(n, 16) */
  function FormatHex(n: nat): (r: string)
    ensures CanonicalHex(r)
    ensures ParseHex(r) == n
  {
    if n < 16 then [HexDigit(n)]
    else
      var prefix := FormatHex(n / 16);
      var r := prefix + [HexDigit(n % 16)];
      assert r[..|r| - 1] == prefix;
      r
  }

  /** A 64-bit value needs at most 16 hex digits. */
  lemma {:induction false} FormatHexLength(n: nat, k: nat)
    requires n < Pow16(k)
    ensures |FormatHex(n)| <= if k == 0 then 1 else k
  {
    if n >= 16 {
      Pow16Small(k);
      FormatHexLength(n / 16, k - 1);
    }
  }

  function Pow16(k: nat): nat
  {
    if k == 0 then 1 else 16 * Pow16(k - 1)
  }

  lemma Pow16Small(k: nat)
    ensures k <= 1 ==> Pow16(k) <= 16
  {
  }

  lemma FormatUint64Length(n: uint64)
    ensures |FormatHex(n as nat)| <= 16
  {
    assert Pow16(16) == 0x1_0000_0000_0000_0000 by {
      assert Pow16(4) == 0x1_0000;
      assert Pow16(8) == 0x1_0000_0000 by { Pow16Add(4, 4); }
      Pow16Add(8, 8);
    }
    FormatHexLength(n as nat, 16);
  }

  lemma {:induction false} Pow16Add(a: nat, b: nat)
    ensures Pow16(a + b) == Pow16(a) * Pow16(b)
  {
    if a > 0 {
      Pow16Add(a - 1, b);
    }
  }

  /** Distinct numbers get distinct renderings. */
  lemma FormatHexInjective(a: nat, b: nat)
    ensures FormatHex(a) == FormatHex(b) <==> a == b
  {
    if FormatHex(a) == FormatHex(b) {
      assert ParseHex(FormatHex(a)) == ParseHex(FormatHex(b));
    }
  }

  /** A canonical hex string with a non-zero leading digit denotes a non-zero number. */
  lemma {:induction false} ParseHexPositive(s: string)
    requires CanonicalHex(s) && s[0] != '0'
    ensures ParseHex(s) > 0
  {
    if |s| > 1 {
      var p := s[..|s| - 1];
      assert p[0] == s[0];
      ParseHexPositive(p);
    }
  }

  /** Every canonical hex string is the rendering of the number it denotes: FormatHex is onto
      the canonical strings, so ParseHex and FormatHex are inverse bijections. */
  lemma {:induction false} FormatParseHex(s: string)
    requires CanonicalHex(s)
    ensures FormatHex(ParseHex(s)) == s
  {
    var n := ParseHex(s);
    var last := s[|s| - 1];
    HexValueDigit(last);
    if |s| == 1 {
      assert s[..|s| - 1] == [];
      assert ParseHex(s[..|s| - 1]) == 0;
    } else {
      var p := s[..|s| - 1];
      assert p[0] == s[0];
      ParseHexPositive(p);
      assert n / 16 == ParseHex(p) && n % 16 == HexValue(last);
      FormatParseHex(p);
      assert FormatHex(n) == p + [last];
      assert p + [last] == s;
    }
  }

  // ---------------------------------------------------------------- base 10

  predicate IsDigit(c: char)
  {
    '0' <= c <= '9'
  }

  predicate AllDigits(s: string)
  {
    forall i :: 0 <= i < |s| ==> IsDigit(s[i])
  }

  /** The value of a string of decimal digits. */
  function DecimalValue(s: string): nat
    requires AllDigits(s)
  {
    if |s| == 0 then 0 else DecimalValue(s[..|s| - 1]) * 10 + (s[|s| - 1] as int - '0' as int)
  }

  /** Length of the run of decimal digits at the start of `s`. */
  function DigitRun(s: string): (k: nat)
    ensures k <= |s|
    ensures forall i :: 0 <= i < k ==> IsDigit(s[i])
    ensures k < |s| ==> !IsDigit(s[k])
  {
    if |s| == 0 || !IsDigit(s[0]) then 0 else 1 + DigitRun(s[1..])
  }

  function DecimalDigit(d: nat): (c: char)
    requires d < 10
    ensures IsDigit(c) && c as int - '0' as int == d
  {
    ('0' as int + d) as char
  }

  /** strconv.Itoa for a non-negative number. */
  function FormatDecimal(n: nat): (r: string)
    ensures |r| > 0
    ensures AllDigits(r)
    ensures DecimalValue(r) == n
  {
    if n < 10 then [DecimalDigit(n)]
    else
      var prefix := FormatDecimal(n / 10);
      var r := prefix + [DecimalDigit(n % 10)];
      assert r[..|r| - 1] == prefix;
      r
  }

  /** What strconv.Atoi returns: the value, and whether the error was nil. On a syntax
      error the value is 0; on a range error it is clamped to the int64 bounds. */
  datatype IntParse = IntParse(value: int, ok: bool)

  /** strconv.Atoi: an optional sign, then one or more decimal digits, within int64.
      Go's unsigned scan reports overflow as soon as the digits read so far exceed
      MaxUint64, before it looks at a later non-digit, so a long digit run followed by
      junk is a range error and not a syntax error. */
  function Atoi(s: string): (r: IntParse)
    ensures r.ok ==> MinInt64 <= r.value <= MaxInt64
    ensures !r.ok ==> r.value in {0, MaxInt64, MinInt64}
    ensures r.ok ==> |s| > 0 && AllDigits(Unsigned(s)) && r.value == (if s[0] == '-' then -1 else 1) * DecimalValue(Unsigned(s))
  {
    if |s| == 0 then IntParse(0, false)
    else
      var neg := s[0] == '-';
      var digits := Unsigned(s);
      var k := DigitRun(digits);
      if |digits| == 0 then IntParse(0, false)
      else if DecimalValue(digits[..k]) > MaxUint64 then IntParse(if neg then MinInt64 else MaxInt64, false)
      else if k < |digits| then IntParse(0, false)
      else
        assert digits[..k] == digits;
        var n: int := DecimalValue(digits);
        if !neg && n > MaxInt64 then IntParse(MaxInt64, false)
        else if neg && n > -MinInt64 then IntParse(MinInt64, false)
        else IntParse(if neg then -n else n, true)
  }

  /** `s` without its leading sign character, if any. */
  function Unsigned(s: string): (r: string)
    ensures r == s || (|s| > 0 && r == s[1..])
  {
    if |s| > 0 && (s[0] == '-' || s[0] == '+') then s[1..] else s
  }

  /** Atoi reads back what Itoa writes, for every non-negative int64. */
  lemma AtoiFormatDecimal(n: nat)
    requires n <= MaxInt64
    ensures Atoi(FormatDecimal(n)) == IntParse(n, true)
  {
    var s := FormatDecimal(n);
    assert Unsigned(s) == s;
    DigitRunAll(s);
    assert s[..|s|] == s;
  }

  /** Atoi reads back a negated rendering down to MinInt64. */
  lemma AtoiFormatNegative(n: nat)
    requires 0 < n <= -MinInt64
    ensures Atoi("-" + FormatDecimal(n)) == IntParse(-(n as int), true)
  {
    var d := FormatDecimal(n);
    var s := "-" + d;
    assert Unsigned(s) == d;
    DigitRunAll(d);
    assert d[..|d|] == d;
  }

  lemma {:induction false} DigitRunAll(s: string)
    requires AllDigits(s)
    ensures DigitRun(s) == |s|
  {
    if |s| > 0 {
      DigitRunAll(s[1..]);
    }
  }
}
