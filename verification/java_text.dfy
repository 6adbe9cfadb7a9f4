/**
 * The parts of java.lang.Character, String and Integer that the interpreter
 * front-end relies on, restricted to ASCII.
 */
module JavaText {
  import opened Wrappers

  /** Bounds of Java's 32-bit `int`. */
  const IntMin: int := -0x8000_0000
  const IntMax: int := 0x7FFF_FFFF

  predicate IsInt(n: int) {
    IntMin <= n <= IntMax
  }

  /** Character.isWhitespace on ASCII: space, tab to carriage return, and the separators U+001C..U+001F. */
  predicate IsWhitespace(c: char) {
    c == ' ' || 9 <= c as int <= 13 || 0x1C <= c as int <= 0x1F
  }

  /** Character.isDigit on ASCII. */
  predicate IsDigit(c: char) {
    '0' <= c <= '9'
  }

  predicate AllDigits(s: string) {
    forall k | 0 <= k < |s| :: IsDigit(s[k])
  }

  /** String.toLowerCase on ASCII letters; every other character is kept. */
  function ToLowerChar(c: char): char {
    if 'A' <= c <= 'Z' then (c as int + 32) as char else c
  }

  function ToLower(s: string): (r: string)
    ensures |r| == |s|
    ensures forall k | 0 <= k < |s| :: r[k] == ToLowerChar(s[k])
  {
    seq(|s|, k requires 0 <= k < |s| => ToLowerChar(s[k]))
  }

  /** The value of a run of decimal digits, most significant first. */
  function DigitsValue(s: string): nat
    requires AllDigits(s)
    decreases |s|
  {
    if |s| == 0 then 0 else DigitsValue(s[..|s| - 1]) * 10 + (s[|s| - 1] as int - '0' as int)
  }

  /**
   * Integer.parseInt(s): an optional sign followed by at least one digit,
   * whose value fits in an `int`; anything else throws NumberFormatException (None).
   */
  function ParseInt(s: string): (r: Option<int>)
    ensures r.Some? ==> IsInt(r.value)
    ensures r.Some? ==> |s| > 0 && (IsDigit(s[0]) || s[0] == '-' || s[0] == '+')
    ensures AllDigits(s) && |s| > 0 ==> (r.Some? <==> DigitsValue(s) <= IntMax)
    ensures AllDigits(s) && |s| > 0 && r.Some? ==> r.value == DigitsValue(s)
  {
    if |s| > 0 && (s[0] == '-' || s[0] == '+') then
      var digits := s[1..];
      if |digits| > 0 && AllDigits(digits) then
        var n: int := if s[0] == '-' then -(DigitsValue(digits) as int) else DigitsValue(digits);
        if IsInt(n) then Some(n) else None
      else
        None
    else if |s| > 0 && AllDigits(s) && DigitsValue(s) <= IntMax then
      Some(DigitsValue(s))
    else
      None
  }

  function DigitChar(d: nat): (c: char)
    requires d < 10
    ensures IsDigit(c) && c as int - '0' as int == d
  {
    ('0' as int + d) as char
  }

  /** Integer.toString: a leading `-` for negative values, then the shortest decimal digit run. */
  function IntToString(n: int): (s: string)
    ensures |s| > 0
    decreases if n < 0 then 1 else 0, if n < 0 then -n else n
  {
    if n < 0 then "-" + IntToString(-n)
    else if n < 10 then [DigitChar(n)]
    else IntToString(n / 10) + [DigitChar(n % 10)]
  }

  /** A non-negative value is written as digits only, and they denote the value. */
  lemma {:induction false} NatToStringValue(n: nat)
    ensures AllDigits(IntToString(n)) && DigitsValue(IntToString(n)) == n
    decreases n
  {
    if n >= 10 {
      NatToStringValue(n / 10);
      var s := IntToString(n);
      assert s[..|s| - 1] == IntToString(n / 10);
    }
  }

  /** Integer.parseInt reads back every `int` that Integer.toString writes. */
  lemma ParseIntOfIntToString(n: int)
    requires IsInt(n)
    ensures ParseInt(IntToString(n)) == Some(n)
  {
    if n < 0 {
      ParseIntOfNegative(n);
    } else {
      NatToStringValue(n);
    }
  }

  lemma ParseIntOfNegative(n: int)
    requires IsInt(n) && n < 0
    ensures ParseInt(IntToString(n)) == Some(n)
  {
    NatToStringValue(-n);
    var s := IntToString(n);
    assert s[1..] == IntToString(-n);
  }
}
