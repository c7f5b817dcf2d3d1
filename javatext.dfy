/**
 * The pieces of the Java platform the lookup relies on when it reads text:
 * Character.isWhitespace, StringUtils.isBlank, String.toLowerCase,
 * Integer.valueOf and Java's 32-bit int arithmetic.
 */
module JavaText {
  import opened Basics

  const MinInt: int := -0x8000_0000
  const MaxInt: int := 0x7fff_ffff

  predicate IsInt32(n: int)
  {
    MinInt <= n <= MaxInt
  }

  /** Reduces an integer to the 32-bit two's complement value Java's int arithmetic yields. */
  function Wrap32(n: int): (r: int)
    ensures IsInt32(r)
    ensures IsInt32(n) ==> r == n
  {
    (n - MinInt) % 0x1_0000_0000 + MinInt
  }

  /** Java's `-1 * k` on an int. */
  function Negate32(k: int): int
  {
    Wrap32(-1 * k)
  }

  /** Negation wraps only at the smallest int, which is its own negation. */
  lemma NegateInt32(k: int)
    requires IsInt32(k)
    ensures Negate32(k) == if k == MinInt then MinInt else -k
  {
    if k == MinInt {
      assert -1 * k - MinInt == 0x1_0000_0000;
    }
  }

  /** Character.isWhitespace: the ASCII controls tab to carriage return, the four
      separators U+001C to U+001F, and the Unicode space, line and paragraph
      separators other than the non-breaking ones. */
  predicate IsWhitespace(c: char)
  {
    || c == ' '
    || ('\t' <= c <= '\r')
    || ('\U{1C}' <= c <= '\U{1F}')
    || c == '\U{1680}'
    || ('\U{2000}' <= c <= '\U{2006}')
    || ('\U{2008}' <= c <= '\U{200A}')
    || c == '\U{2028}' || c == '\U{2029}' || c == '\U{205F}' || c == '\U{3000}'
  }

  /** StringUtils.isBlank: null, empty, or whitespace only. */
  predicate IsBlank(s: Option<string>)
  {
    s.None? || forall i :: 0 <= i < |s.value| ==> IsWhitespace(s.value[i])
  }

  function ToLowerChar(c: char): char
  {
    if 'A' <= c <= 'Z' then (c as int + 32) as char else c
  }

  /** String.toLowerCase on the ASCII letters. */
  function ToLower(s: string): string
  {
    seq(|s|, i requires 0 <= i < |s| => ToLowerChar(s[i]))
  }

  predicate IsLowerCase(s: string)
  {
    forall i :: 0 <= i < |s| ==> !('A' <= s[i] <= 'Z')
  }

  /** Lower-casing keeps the length, leaves no upper-case letter, is idempotent and
      keeps a non-blank string non-blank (no letter is whitespace). */
  lemma ToLowerProperties(s: string)
    ensures |ToLower(s)| == |s|
    ensures IsLowerCase(ToLower(s))
    ensures ToLower(ToLower(s)) == ToLower(s)
    ensures IsBlank(Some(ToLower(s))) <==> IsBlank(Some(s))
  {
    if !IsBlank(Some(s)) {
      var i :| 0 <= i < |s| && !IsWhitespace(s[i]);
      assert !IsWhitespace(ToLower(s)[i]);
    }
  }

  predicate IsDigit(c: char)
  {
    '0' <= c <= '9'
  }

  predicate AllDigits(s: string)
  {
    forall i :: 0 <= i < |s| ==> IsDigit(s[i])
  }

  /** The value of a string of decimal digits, most significant first. */
  function DigitsValue(s: string): nat
    requires AllDigits(s)
  {
    if s == [] then 0
    else DigitsValue(s[..|s| - 1]) * 10 + (s[|s| - 1] as int - '0' as int)
  }

  /**
   * Integer.valueOf(String) (that is, Integer.parseInt with radix 10): an optional
   * leading '-' or '+', then at least one decimal digit; the value must fit in an
   * int, otherwise a NumberFormatException is thrown.
   */
  function ParseInt(s: string): (r: Result<int, string>)
    ensures r.Ok? ==> IsInt32(r.value)
  {
    if s == [] then Err(s)
    else
      var signed := s[0] == '-' || s[0] == '+';
      var digits := if signed then s[1..] else s;
      if digits == [] || !AllDigits(digits) then Err(s)
      else
        var v: int := if s[0] == '-' then -(DigitsValue(digits) as int) else DigitsValue(digits);
        if IsInt32(v) then Ok(v) else Err(s)
  }

  function DigitChar(d: nat): char
    requires d < 10
  {
    ('0' as int + d) as char
  }

  /** The decimal digits of a natural number, without leading zeros. */
  function NatToString(n: nat): string
  {
    if n < 10 then [DigitChar(n)] else NatToString(n / 10) + [DigitChar(n % 10)]
  }

  /** Integer.toString: how a key is written when rows are exported as text. */
  function IntToString(n: int): string
  {
    if n < 0 then "-" + NatToString(-n) else NatToString(n)
  }

  lemma {:induction false} NatToStringDigits(n: nat)
    ensures NatToString(n) != [] && AllDigits(NatToString(n))
    ensures DigitsValue(NatToString(n)) == n
  {
    if n >= 10 {
      NatToStringDigits(n / 10);
      var s := NatToString(n);
      assert s[..|s| - 1] == NatToString(n / 10);
    }
  }

  /** Reading back a written int gives the same int. */
  lemma ParseIntToString(n: int)
    requires IsInt32(n)
    ensures ParseInt(IntToString(n)) == Ok(n)
  {
    var m: nat := if n < 0 then -n else n;
    NatToStringDigits(m);
    var s := IntToString(n);
    if n < 0 {
      assert s[1..] == NatToString(m);
    } else {
      assert IsDigit(s[0]);
    }
  }

  /** "t", the text of a true boolean, is not a number. */
  lemma TrueIsNotAnInt()
    ensures ParseInt("t").Err?
  {
    assert !IsDigit("t"[0]);
  }
}
