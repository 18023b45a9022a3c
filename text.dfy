/** String helpers the client pages rely on: ASCII case folding,
    substring search, the `\d` and `\s` character classes of JavaScript
    regular expressions (ASCII part), and decimal digit strings. */
module Text {

  function LowerChar(c: char): char
  {
    if 'A' <= c <= 'Z' then (c as int + 32) as char else c
  }

  function UpperChar(c: char): char
  {
    if 'a' <= c <= 'z' then (c as int - 32) as char else c
  }

  /** `String.prototype.toLowerCase`, ASCII letters only. */
  function ToLower(s: string): (r: string)
    ensures |r| == |s|
    ensures forall i :: 0 <= i < |s| ==> r[i] == LowerChar(s[i])
  {
    seq(|s|, i requires 0 <= i < |s| => LowerChar(s[i]))
  }

  /** `String.prototype.toUpperCase`, ASCII letters only. */
  function ToUpper(s: string): (r: string)
    ensures |r| == |s|
    ensures forall i :: 0 <= i < |s| ==> r[i] == UpperChar(s[i])
  {
    seq(|s|, i requires 0 <= i < |s| => UpperChar(s[i]))
  }

  predicate IsPrefix(p: string, s: string)
  {
    |p| <= |s| && s[..|p|] == p
  }

  /** `s.includes(sub)`: `sub` occurs in `s` at some position. */
  predicate Contains(s: string, sub: string)
    decreases |s|
  {
    IsPrefix(sub, s) || (|s| > 0 && Contains(s[1..], sub))
  }

  /** `\d` in a JavaScript regular expression. */
  predicate IsDigit(c: char)
  {
    '0' <= c <= '9'
  }

  /** `/^\d+$/.test(s)`. */
  predicate AllDigits(s: string)
  {
    |s| > 0 && forall i :: 0 <= i < |s| ==> IsDigit(s[i])
  }

  /** `\s` in a JavaScript regular expression, ASCII part. */
  predicate IsSpace(c: char)
  {
    c == ' ' || c == '\t' || c == '\n' || c == '\r' || c == '\U{000B}' || c == '\U{000C}'
  }

  /** `s.replace(/\s+/g, '')`: the string with every white-space
      character removed and every other character kept in order. */
  function StripSpaces(s: string): (r: string)
    ensures |r| <= |s|
    ensures forall i :: 0 <= i < |r| ==> !IsSpace(r[i])
    ensures forall c :: c in r <==> c in s && !IsSpace(c)
  {
    if s == [] then []
    else if IsSpace(s[0]) then StripSpaces(s[1..])
    else [s[0]] + StripSpaces(s[1..])
  }

  /** A string without white space is left as it is. */
  lemma {:induction false} StripSpacesKeepsText(s: string)
    requires forall i :: 0 <= i < |s| ==> !IsSpace(s[i])
    ensures StripSpaces(s) == s
  {
    if s != [] {
      StripSpacesKeepsText(s[1..]);
      assert s == [s[0]] + s[1..];
    }
  }

  /** `parseInt(s, 10)` of a digit string, read most significant digit
      first. */
  function DigitsValue(s: string): (r: nat)
    requires forall i :: 0 <= i < |s| ==> IsDigit(s[i])
    decreases |s|
  {
    if s == [] then 0
    else
      assert IsDigit(s[|s| - 1]);
      10 * DigitsValue(s[..|s| - 1]) + (s[|s| - 1] as int - '0' as int)
  }

  function Pow10(n: nat): (r: nat)
    ensures r >= 1
  {
    if n == 0 then 1 else 10 * Pow10(n - 1)
  }

  /** A string of `n` decimal digits denotes a number below `10^n`. */
  lemma {:induction false} DigitsValueBound(s: string)
    requires forall i :: 0 <= i < |s| ==> IsDigit(s[i])
    ensures DigitsValue(s) < Pow10(|s|)
    decreases |s|
  {
    if s != [] {
      DigitsValueBound(s[..|s| - 1]);
    }
  }

  /** The decimal digit of `d`. */
  function DigitChar(d: nat): char
    requires d < 10
  {
    ('0' as int + d) as char
  }

  /** `String(n)` of a natural number: its decimal digits, most
      significant first, without leading zeros. */
  function NatText(n: nat): (r: string)
    ensures |r| >= 1 && forall i :: 0 <= i < |r| ==> IsDigit(r[i])
    ensures n >= 10 ==> r[0] != '0'
  {
    if n < 10 then [DigitChar(n)] else NatText(n / 10) + [DigitChar(n % 10)]
  }

  /** `String(n)` of an integer: a minus sign before the digits of a
      negative number. */
  function NumberText(n: int): (r: string)
  {
    if n < 0 then "-" + NatText(-n) else NatText(n)
  }

  /** Reading the digits back gives the number: `parseInt(String(n))`
      is `n`. */
  lemma {:induction false} NatTextValue(n: nat)
    ensures DigitsValue(NatText(n)) == n
  {
    var s := NatText(n);
    if n >= 10 {
      NatTextValue(n / 10);
      assert s[..|s| - 1] == NatText(n / 10);
    }
  }
}
