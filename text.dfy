/**
 * The Kotlin string operations the calculator's state machine relies on:
 * `isBlank`/`isNotBlank` (over `Char.isWhitespace`), `contains(".")`,
 * `dropLast(1)`, `take(n)`, and string concatenation with an `Int`
 * (`Int.toString`, rendered here together with the parser that inverts it).
 */
module Text {

  /** Kotlin's `Char.isWhitespace()` on the JVM: `Character.isWhitespace` or `Character.isSpaceChar`. */
  predicate IsWhitespace(c: char) {
    var k := c as int;
    (0x09 <= k <= 0x0D) || (0x1C <= k <= 0x20) || k == 0xA0 || k == 0x1680 ||
    (0x2000 <= k <= 0x200A) || k == 0x2028 || k == 0x2029 || k == 0x202F ||
    k == 0x205F || k == 0x3000
  }

  /** Kotlin's `CharSequence.isBlank()`: empty, or whitespace only. */
  predicate IsBlank(s: string) {
    forall i :: 0 <= i < |s| ==> IsWhitespace(s[i])
  }

  predicate NoWhitespace(s: string) {
    forall i :: 0 <= i < |s| ==> !IsWhitespace(s[i])
  }

  /** At most one decimal point in `s`. */
  predicate AtMostOneDot(s: string) {
    forall i, j :: 0 <= i < j < |s| ==> !(s[i] == '.' && s[j] == '.')
  }

  /** For text without whitespace, Kotlin's blank test is the emptiness test. */
  lemma BlankIffEmpty(s: string)
    requires NoWhitespace(s)
    ensures IsBlank(s) <==> s == []
  {
    if s != [] {
      assert !IsWhitespace(s[0]);
    }
  }

  /** A prefix keeps the character-wise properties of the text it is cut from. */
  lemma PrefixKeeps(s: string, t: string)
    requires t <= s
    ensures NoWhitespace(s) ==> NoWhitespace(t)
    ensures AtMostOneDot(s) ==> AtMostOneDot(t)
  {
    assert forall i :: 0 <= i < |t| ==> t[i] == s[i];
  }

  /** Joining two texts keeps them free of whitespace, and keeps a single decimal point when only one side may have it. */
  lemma ConcatKeeps(a: string, b: string)
    ensures NoWhitespace(a) && NoWhitespace(b) ==> NoWhitespace(a + b)
    ensures AtMostOneDot(a) && AtMostOneDot(b) && ('.' !in a || '.' !in b) ==> AtMostOneDot(a + b)
  {
    var t := a + b;
    assert forall i :: 0 <= i < |a| ==> t[i] == a[i];
    assert forall i :: |a| <= i < |t| ==> t[i] == b[i - |a|];
  }

  /** Kotlin's `dropLast(1)`: everything but the last character, and nothing of an empty string. */
  function DropLast(s: string): (r: string)
    ensures r <= s
    ensures s == [] ==> r == []
    ensures s != [] ==> r + [s[|s| - 1]] == s
  {
    if s == [] then [] else s[..|s| - 1]
  }

  /** Kotlin's `take(n)`: the longest prefix of `s` with at most `n` characters. */
  function Take(s: string, n: nat): (r: string)
    ensures r <= s
    ensures |r| <= n
    ensures |s| <= n ==> r == s
    ensures |s| >= n ==> |r| == n
  {
    if |s| <= n then s else s[..n]
  }

  predicate IsDigit(c: char) {
    '0' <= c <= '9'
  }

  predicate AllDigits(s: string) {
    forall i :: 0 <= i < |s| ==> IsDigit(s[i])
  }

  function DigitChar(d: nat): (c: char)
    requires d < 10
    ensures IsDigit(c) && !IsWhitespace(c) && c != '.'
  {
    ('0' as int + d) as char
  }

  function DigitValue(c: char): (d: nat)
    requires IsDigit(c)
    ensures d < 10 && DigitChar(d) == c
  {
    c as int - '0' as int
  }

  /** Decimal text of a natural number, most significant digit first, no leading zeros. */
  function NatToString(n: nat): (r: string)
    ensures |r| >= 1 && AllDigits(r)
    ensures n < 10 <==> |r| == 1
    decreases n
  {
    if n < 10 then [DigitChar(n)] else NatToString(n / 10) + [DigitChar(n % 10)]
  }

  /** The number that a string of decimal digits denotes. */
  function DigitsValue(s: string): nat
    requires AllDigits(s)
    decreases |s|
  {
    if s == [] then 0 else DigitsValue(s[..|s| - 1]) * 10 + DigitValue(s[|s| - 1])
  }

  lemma {:induction false} NatToStringRoundTrip(n: nat)
    ensures DigitsValue(NatToString(n)) == n
    decreases n
  {
    if n >= 10 {
      var prefix := NatToString(n / 10);
      var s := prefix + [DigitChar(n % 10)];
      assert s[..|s| - 1] == prefix;
      NatToStringRoundTrip(n / 10);
    }
  }

  /** Kotlin's `Int.toString()`: an optional minus sign, then the decimal digits of the magnitude. */
  function IntToString(i: int): (r: string)
  {
    if i < 0 then "-" + NatToString(-i) else NatToString(i)
  }

  /** Reads back the text `IntToString` writes. */
  function ParseInt(s: string): (r: Option<int>)
  {
    if |s| >= 2 && s[0] == '-' && AllDigits(s[1..]) then Some(-(DigitsValue(s[1..]) as int))
    else if |s| >= 1 && AllDigits(s) then Some(DigitsValue(s))
    else None
  }

  datatype Option<T> = None | Some(value: T)

  lemma ParseSigned(digits: string)
    requires |digits| >= 1 && AllDigits(digits)
    ensures ParseInt("-" + digits) == Some(-(DigitsValue(digits) as int))
  {
    var s := "-" + digits;
    assert s[0] == '-' && s[1..] == digits;
  }

  lemma ParseUnsigned(digits: string)
    requires |digits| >= 1 && AllDigits(digits)
    ensures ParseInt(digits) == Some(DigitsValue(digits))
  {
    assert IsDigit(digits[0]);
  }

  lemma {:induction false} IntToStringRoundTrip(i: int)
    ensures ParseInt(IntToString(i)) == Some(i)
  {
    var magnitude: nat := if i < 0 then -i else i;
    var digits := NatToString(magnitude);
    NatToStringRoundTrip(magnitude);
    if i < 0 {
      assert IntToString(i) == "-" + digits;
      ParseSigned(digits);
    } else {
      assert IntToString(i) == digits;
      ParseUnsigned(digits);
    }
  }

  /** The text of an integer holds no whitespace and no decimal point; a single digit is one character. */
  lemma IntToStringShape(i: int)
    ensures NoWhitespace(IntToString(i)) && '.' !in IntToString(i)
    ensures 0 <= i < 10 ==> IntToString(i) == [DigitChar(i)]
  {
    var s := IntToString(i);
    var digits := NatToString(if i < 0 then -i else i);
    assert forall k :: 0 <= k < |digits| ==> IsDigit(digits[k]);
    if i < 0 {
      assert forall k :: 1 <= k < |s| ==> s[k] == digits[k - 1];
    }
  }
}
