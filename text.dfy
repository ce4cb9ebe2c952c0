/** Character-level helpers shared by the configuration checks, the number
    normaliser and the manager-interface message: ASCII digits, removal of
    characters (Python's `str.replace(c, '')`), and decimal rendering and
    parsing of integers (Python's `str(n)` and `int(s)`). */
module Text {

  /** An ASCII decimal digit. Python's `str.isdigit` also accepts other
      Unicode digits; this model accepts '0'..'9' only. */
  predicate IsDigit(c: char) {
    '0' <= c <= '9'
  }

  /** Every character of `s` is a digit (vacuously true of ""). */
  predicate AllDigits(s: string) {
    forall i :: 0 <= i < |s| ==> IsDigit(s[i])
  }

  /** Python's `s.isdigit()`: at least one character, all of them digits. */
  predicate IsDigitString(s: string) {
    s != "" && AllDigits(s)
  }

  /** `s` with every occurrence of a character of `cs` removed and the other
      characters kept in order. `Strip(s, {c})` is `s.replace(c, '')`. */
  function Strip(s: string, cs: set<char>): (r: string)
    ensures |r| <= |s|
    ensures forall i :: 0 <= i < |r| ==> r[i] !in cs && r[i] in s
  {
    if s == [] then []
    else if s[0] in cs then Strip(s[1..], cs)
    else [s[0]] + Strip(s[1..], cs)
  }

  /** Removing characters distributes over concatenation. */
  lemma {:induction false} StripAppend(x: string, y: string, cs: set<char>)
    ensures Strip(x + y, cs) == Strip(x, cs) + Strip(y, cs)
  {
    if x == [] {
      assert x + y == y;
    } else {
      assert (x + y)[0] == x[0];
      assert (x + y)[1..] == x[1..] + y;
      StripAppend(x[1..], y, cs);
    }
  }

  /** Removing the characters of `a` and then those of `b` removes exactly
      the characters of `a + b`: successive `replace` calls compose. */
  lemma {:induction false} StripTwice(s: string, a: set<char>, b: set<char>)
    ensures Strip(Strip(s, a), b) == Strip(s, a + b)
  {
    if s != [] {
      StripTwice(s[1..], a, b);
      if s[0] !in a {
        StripAppend([s[0]], Strip(s[1..], a), b);
      }
    }
  }

  /** A string with none of the characters of `cs` is left unchanged. */
  lemma {:induction false} StripNone(s: string, cs: set<char>)
    requires forall i :: 0 <= i < |s| ==> s[i] !in cs
    ensures Strip(s, cs) == s
  {
    if s != [] {
      StripNone(s[1..], cs);
      assert [s[0]] + s[1..] == s;
    }
  }

  function DigitValue(c: char): (d: nat)
    requires IsDigit(c)
    ensures d < 10
  {
    c as int - '0' as int
  }

  function DigitChar(d: nat): (c: char)
    requires d < 10
    ensures IsDigit(c) && DigitValue(c) == d
  {
    ('0' as int + d) as char
  }

  /** Python's `int(s)` on a string of digits (most significant first). */
  function DecimalValue(s: string): nat
    requires AllDigits(s)
  {
    if s == [] then 0 else 10 * DecimalValue(s[..|s| - 1]) + DigitValue(s[|s| - 1])
  }

  /** Python's `str(n)` on a non-negative integer: the shortest decimal
      spelling, with no leading zero. */
  function NatToDecimal(n: nat): (r: string)
    ensures IsDigitString(r)
    ensures r[0] == '0' ==> n == 0
  {
    if n < 10 then [DigitChar(n)] else NatToDecimal(n / 10) + [DigitChar(n % 10)]
  }

  /** `int(str(n)) == n`. */
  lemma {:induction false} DecimalRoundTrip(n: nat)
    ensures DecimalValue(NatToDecimal(n)) == n
  {
    if n >= 10 {
      var s := NatToDecimal(n);
      DecimalRoundTrip(n / 10);
      assert s[..|s| - 1] == NatToDecimal(n / 10);
    }
  }

  /** Python's `str(n)` on any integer: a '-' sign before the magnitude. */
  function IntToDecimal(n: int): (r: string)
    ensures n >= 0 ==> IsDigitString(r) && DecimalValue(r) == n
    ensures n < 0 ==> r != "" && r[0] == '-'
  {
    DecimalRoundTrip(if n < 0 then -n else n);
    if n < 0 then "-" + NatToDecimal(-n) else NatToDecimal(n)
  }
}
