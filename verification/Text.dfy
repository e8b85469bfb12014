/** Decimal text: what std::to_string writes and what a formatted stream reads back. */
module Text {
  import opened Common

  predicate IsDigit(c: char) {
    '0' <= c <= '9'
  }

  predicate IsSpace(c: char) {
    c == ' ' || (9 as char <= c <= 13 as char)
  }

  function DigitChar(d: nat): (c: char)
    requires d < 10
    ensures IsDigit(c) && DigitValue(c) == d
  {
    (('0' as int) + d) as char
  }

  function DigitValue(c: char): nat
    requires IsDigit(c)
  {
    (c as int) - ('0' as int)
  }

  /** The decimal digits of a natural number, without leading zeros. */
  function Digits(n: nat): (s: string)
    ensures s != "" && forall i :: 0 <= i < |s| ==> IsDigit(s[i])
  {
    if n < 10 then [DigitChar(n)] else Digits(n / 10) + [DigitChar(n % 10)]
  }

  function ToText(n: int): (s: string)
    ensures s != ""
  {
    if n < 0 then "-" + Digits(-n) else Digits(n)
  }

  /** The value of the digits at the front of `s`, started at `acc`, and what follows them. */
  function ReadDigits(s: string, acc: nat): (nat, string)
    decreases |s|
  {
    if s != "" && IsDigit(s[0]) then ReadDigits(s[1..], 10 * acc + DigitValue(s[0])) else (acc, s)
  }

  function SkipSpace(s: string): (r: string)
    ensures |r| <= |s| && (r == "" || !IsSpace(r[0]))
  {
    if s != "" && IsSpace(s[0]) then SkipSpace(s[1..]) else s
  }

  /** `input >> number`: spaces, an optional sign, at least one digit, within 64 bits. */
  function ReadInt(s: string): Option<(int, string)> {
    var t := SkipSpace(s);
    var signed := t != "" && (t[0] == '-' || t[0] == '+');
    var u := if signed then t[1..] else t;
    if u == "" || !IsDigit(u[0]) then None
    else
      var (magnitude, rest) := ReadDigits(u, 0);
      var value: int := if signed && t[0] == '-' then -(magnitude as int) else magnitude as int;
      if INT64_MIN <= value <= INT64_MAX then Some((value, rest)) else None
  }

  /** `input >> character`. */
  function ReadChar(s: string): Option<(char, string)> {
    var t := SkipSpace(s);
    if t == "" then None else Some((t[0], t[1..]))
  }

  /** `getline(input, text, delimiter)`: the text before the delimiter, which is consumed. */
  function GetLine(s: string, delimiter: char): Option<(string, string)> {
    if s == "" then None else Some(Before(s, delimiter))
  }

  function Before(s: string, delimiter: char): (string, string) {
    if s == "" then ("", "")
    else if s[0] == delimiter then ("", s[1..])
    else
      var (text, rest) := Before(s[1..], delimiter);
      ([s[0]] + text, rest)
  }

  lemma {:induction false} ReadDigitsOf(n: nat, rest: string)
    ensures ReadDigits(Digits(n) + rest, 0) == ReadDigits(rest, n)
    decreases n
  {
    if n < 10 {
      assert (Digits(n) + rest)[1..] == rest;
    } else {
      var d := [DigitChar(n % 10)];
      assert Digits(n) + rest == Digits(n / 10) + (d + rest);
      ReadDigitsOf(n / 10, d + rest);
      assert (d + rest)[1..] == rest;
    }
  }

  predicate StartsWithDigit(s: string) {
    s != "" && IsDigit(s[0])
  }

  lemma DigitsEnd(n: nat, rest: string)
    requires !StartsWithDigit(rest)
    ensures ReadDigits(rest, n) == (n, rest)
  {}

  /** A number that was written reads back, whatever follows that is not a digit. */
  lemma ReadIntOf(n: int, rest: string)
    requires INT64_MIN <= n <= INT64_MAX && !StartsWithDigit(rest)
    ensures ReadInt(ToText(n) + rest) == Some((n, rest))
  {
    hide ReadDigits, Digits;
    var s := ToText(n) + rest;
    var magnitude: nat := if n < 0 then -n else n;
    ReadDigitsOf(magnitude, rest);
    DigitsEnd(magnitude, rest);
    assert s[0] == '-' || IsDigit(s[0]);
    assert SkipSpace(s) == s;
    if n < 0 { assert s[0] == '-' && s[1..] == Digits(magnitude) + rest; }
  }

  lemma {:induction false} BeforeOf(text: string, delimiter: char, rest: string)
    requires delimiter !in text
    ensures Before(text + [delimiter] + rest, delimiter) == (text, rest)
  {
    var s := text + [delimiter] + rest;
    if text == "" {
      assert s[0] == delimiter && s[1..] == rest;
    } else {
      assert s[1..] == text[1..] + [delimiter] + rest;
      BeforeOf(text[1..], delimiter, rest);
      assert text == [text[0]] + text[1..];
    }
  }

  lemma {:induction false} BeforeHasNoDelimiter(s: string, delimiter: char)
    ensures delimiter !in Before(s, delimiter).0
  {
    if s != "" && s[0] != delimiter { BeforeHasNoDelimiter(s[1..], delimiter); }
  }

  lemma GetLineOf(text: string, delimiter: char, rest: string)
    requires delimiter !in text
    ensures GetLine(text + [delimiter] + rest, delimiter) == Some((text, rest))
  {
    BeforeOf(text, delimiter, rest);
  }

  /** Different numbers have different decimal texts. */
  lemma DigitsInjective(a: nat, b: nat)
    requires Digits(a) == Digits(b)
    ensures a == b
  {
    ReadDigitsOf(a, "");
    ReadDigitsOf(b, "");
    assert Digits(a) + "" == Digits(a) && Digits(b) + "" == Digits(b);
  }

  // ----- What decimal text denotes -----

  predicate AllDigits(s: string) {
    s != "" && forall i :: 0 <= i < |s| ==> IsDigit(s[i])
  }

  /** The number that digits denote, the last one counting ones. */
  function Value(digits: string): nat
    requires forall i :: 0 <= i < |digits| ==> IsDigit(digits[i])
  {
    if digits == "" then 0 else 10 * Value(digits[..|digits| - 1]) + DigitValue(digits[|digits| - 1])
  }

  /** The written text denotes the number and has no zero in front unless it is zero. */
  lemma {:induction false} DigitsDenote(n: nat)
    ensures AllDigits(Digits(n)) && Value(Digits(n)) == n && (Digits(n)[0] == '0' <==> n == 0)
    decreases n
  {
    if n < 10 {
      assert Digits(n)[..0] == "";
    } else {
      DigitsDenote(n / 10);
      assert Digits(n)[..|Digits(n)| - 1] == Digits(n / 10);
    }
  }
}
