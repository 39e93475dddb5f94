/**
 * Base-10 integer text as the Go standard library writes and reads it:
 * strconv.FormatInt / strconv.Itoa / fmt's %d (writing), strconv.ParseInt
 * with base 10 and bit size 64 (reading), and the JSON number grammar of
 * RFC 8259 section 6 restricted to integers, as encoding/json reads an int64.
 */
module Decimal {
  import opened Wrappers

  const Int64Min: int := -0x8000_0000_0000_0000
  const Int64Max: int := 0x7FFF_FFFF_FFFF_FFFF

  /** Go's int64. */
  type Int64 = n: int | Int64Min <= n <= Int64Max

  predicate IsDigit(c: char) { '0' <= c <= '9' }

  predicate AllDigits(s: string) { forall i :: 0 <= i < |s| ==> IsDigit(s[i]) }

  function DigitValue(c: char): (d: nat)
    requires IsDigit(c)
    ensures d < 10
  {
    (c as int) - ('0' as int)
  }

  function DigitChar(d: nat): (c: char)
    requires d < 10
    ensures IsDigit(c) && DigitValue(c) == d
  {
    (('0' as int) + d) as char
  }

  /** The value of a run of decimal digits, most significant first. */
  function DigitsValue(s: string): nat
    requires AllDigits(s)
    decreases |s|
  {
    if s == [] then 0 else DigitsValue(s[..|s| - 1]) * 10 + DigitValue(s[|s| - 1])
  }

  /** The shortest decimal digits of n: never empty, no leading zero. */
  function NatDigits(n: nat): (s: string)
    ensures |s| >= 1 && AllDigits(s)
    ensures s[0] == '0' ==> n == 0 && |s| == 1
    decreases n
  {
    if n < 10 then [DigitChar(n)] else NatDigits(n / 10) + [DigitChar(n % 10)]
  }

  lemma {:induction false} NatDigitsValue(n: nat)
    ensures DigitsValue(NatDigits(n)) == n
    decreases n
  {
    if n >= 10 {
      var s := NatDigits(n);
      assert s[..|s| - 1] == NatDigits(n / 10);
      NatDigitsValue(n / 10);
    }
  }

  /** strconv.FormatInt(n, 10): a minus sign for negative values, then the digits. */
  function FormatInt(n: int): (s: string)
    ensures |s| >= 1
    ensures n < 0 <==> s[0] == '-'
    ensures forall i :: 0 < i < |s| ==> IsDigit(s[i])
    ensures IsDigit(s[0]) || s[0] == '-'
  {
    if n < 0 then "-" + NatDigits(-n) else NatDigits(n)
  }

  /** The unsigned part of a decimal literal after an optional leading sign. */
  function Unsigned(s: string): string
  {
    if |s| > 0 && (s[0] == '+' || s[0] == '-') then s[1..] else s
  }

  /**
   * strconv.ParseInt(s, 10, 64): an optional '+' or '-', at least one ASCII
   * digit (leading zeros allowed, no underscores in base 10), and a value
   * inside the int64 range. None is Go's syntax or range error.
   */
  function ParseInt(s: string): (r: Option<Int64>)
    ensures r.Some? <==>
      |Unsigned(s)| >= 1 && AllDigits(Unsigned(s)) &&
      DigitsValue(Unsigned(s)) <= (if s[0] == '-' then -Int64Min else Int64Max)
    ensures r.Some? ==> DigitsValue(Unsigned(s)) == (if s[0] == '-' then -(r.value as int) else r.value as int)
    ensures r.Some? ==> (r.value < 0 ==> s[0] == '-')
  {
    var body := Unsigned(s);
    if body == [] || !AllDigits(body) then None
    else
      var v: int := if s[0] == '-' then -(DigitsValue(body) as int) else DigitsValue(body);
      if Int64Min <= v <= Int64Max then Some(v) else None
  }

  /** Every int64 written by FormatInt is read back by ParseInt. */
  lemma {:induction false} ParseFormatInt(n: Int64)
    ensures ParseInt(FormatInt(n)) == Some(n)
  {
    var m: int := n;
    var s := FormatInt(m);
    if m < 0 {
      assert Unsigned(s) == NatDigits(-m);
      NatDigitsValue(-m);
    } else {
      assert Unsigned(s) == NatDigits(m);
      NatDigitsValue(m);
    }
  }

  /** RFC 8259 integer grammar: -?(0|[1-9][0-9]*). */
  predicate IsJsonInteger(s: string)
  {
    var body := if |s| > 0 && s[0] == '-' then s[1..] else s;
    |body| >= 1 && AllDigits(body) && (body[0] == '0' ==> |body| == 1)
  }

  /**
   * encoding/json storing a number into an int64 field: the literal must be a
   * JSON integer (a fraction or exponent is refused for an int64) and fit
   * the int64 range.
   */
  function ParseJsonInt64(s: string): (r: Option<Int64>)
    ensures r.Some? ==> IsJsonInteger(s)
    ensures IsJsonInteger(s) ==> r == ParseInt(s)
  {
    if IsJsonInteger(s) then ParseInt(s) else None
  }

  /** FormatInt writes JSON integers, and encoding/json reads them back. */
  lemma {:induction false} ParseJsonFormatInt(n: Int64)
    ensures IsJsonInteger(FormatInt(n))
    ensures ParseJsonInt64(FormatInt(n)) == Some(n)
  {
    var m: int := n;
    var s := FormatInt(m);
    if m < 0 {
      assert s[1..] == NatDigits(-m);
    } else {
      assert s == NatDigits(m);
    }
    ParseFormatInt(n);
  }

  /**
   * strconv.ParseInt accepts a '+' sign, leading zeros and "-0", and refuses
   * an empty number and digit separators; the JSON reader refuses the sign,
   * the leading zeros and an exponent, and also reads "-0" as 0.
   */
  lemma LiteralForms()
    ensures ParseInt("+5") == Some(5) && ParseInt("007") == Some(7) && ParseInt("-0") == Some(0)
    ensures ParseInt("") == None && ParseInt("-") == None && ParseInt("1_000") == None
    ensures ParseJsonInt64("-0") == Some(0)
    ensures ParseJsonInt64("+5") == None && ParseJsonInt64("007") == None && ParseJsonInt64("1e3") == None
  {
    assert Unsigned("+5") == "5" && Unsigned("007") == "007" && Unsigned("-0") == "0";
    assert "007"[..2] == "00" && "00"[..1] == "0";
    assert Unsigned("1_000") == "1_000" && !IsDigit("1_000"[1]);
    assert "1e3"[1] == 'e';
  }
}
