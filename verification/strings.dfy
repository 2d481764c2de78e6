/**
 * Character classes and small string utilities shared by the rest of the model.
 *
 * Python's `str.isalnum`, `str.isdigit` and `str.lower` are Unicode-aware; this model
 * reads them over ASCII: a character outside ASCII is neither a letter nor a digit and
 * `lower` leaves it unchanged.
 */
module Strings {

  predicate IsDigit(c: char) { '0' <= c <= '9' }

  predicate IsLowerLetter(c: char) { 'a' <= c <= 'z' }

  predicate IsUpperLetter(c: char) { 'A' <= c <= 'Z' }

  /** ASCII reading of Python's `str.isalnum` on one character. */
  predicate IsAlnum(c: char) { IsDigit(c) || IsLowerLetter(c) || IsUpperLetter(c) }

  /** The characters an unquoted column or table name is made of: `[a-z0-9_]`. */
  predicate IsNameChar(c: char) { IsLowerLetter(c) || IsDigit(c) || c == '_' }

  predicate AllNameChars(s: string) { forall i :: 0 <= i < |s| ==> IsNameChar(s[i]) }

  predicate AllDigits(s: string) { forall i :: 0 <= i < |s| ==> IsDigit(s[i]) }

  /** ASCII reading of Python's `str.lower` on one character. */
  function ToLower(c: char): char
  {
    if IsUpperLetter(c) then (c as int + 32) as char else c
  }

  /** Python's `s.lower()`, character by character. */
  function Lower(s: string): (r: string)
    ensures |r| == |s|
  {
    seq(|s|, i requires 0 <= i < |s| => ToLower(s[i]))
  }

  function DigitChar(d: nat): (c: char)
    requires d < 10
    ensures IsDigit(c)
  {
    ('0' as int + d) as char
  }

  function DigitValue(c: char): nat
    requires IsDigit(c)
  {
    c as int - '0' as int
  }

  /** The decimal text of `n`, as Python's `str(n)` or an f-string gives it. */
  function NatToString(n: nat): (s: string)
    ensures |s| >= 1 && AllDigits(s)
    ensures |s| > 1 ==> s[0] != '0'
    decreases n
  {
    if n < 10 then [DigitChar(n)] else NatToString(n / 10) + [DigitChar(n % 10)]
  }

  /** The number a string of decimal digits denotes. */
  function DigitsValue(s: string): nat
    requires AllDigits(s)
    decreases |s|
  {
    if s == [] then 0 else 10 * DigitsValue(s[..|s| - 1]) + DigitValue(s[|s| - 1])
  }

  /** Reading the decimal text of `n` back gives `n`. */
  lemma {:induction false} DigitsValueOfNatToString(n: nat)
    ensures DigitsValue(NatToString(n)) == n
    decreases n
  {
    if n >= 10 {
      var s := NatToString(n);
      assert s[..|s| - 1] == NatToString(n / 10);
      DigitsValueOfNatToString(n / 10);
    }
  }

  /** Distinct numbers have distinct decimal texts. */
  lemma NatToStringInjective(m: nat, n: nat)
    requires NatToString(m) == NatToString(n)
    ensures m == n
  {
    DigitsValueOfNatToString(m);
    DigitsValueOfNatToString(n);
  }

  /** Python's `str(i)` for an int. */
  function IntToString(i: int): (s: string)
    ensures |s| >= 1
  {
    if i < 0 then "-" + NatToString(-i) else NatToString(i)
  }

  /** Python's `sep.join(parts)`. */
  function Join(sep: string, parts: seq<string>): string
    decreases |parts|
  {
    if |parts| == 0 then ""
    else if |parts| == 1 then parts[0]
    else parts[0] + sep + Join(sep, parts[1..])
  }

  /** The longest prefix of `s` whose characters all satisfy `p`. */
  function TakeWhile(p: char -> bool, s: string): (r: string)
    ensures r <= s
    ensures forall i :: 0 <= i < |r| ==> p(r[i])
    ensures |r| == |s| || !p(s[|r|])
    decreases |s|
  {
    if s == [] || !p(s[0]) then "" else [s[0]] + TakeWhile(p, s[1..])
  }

  /** A prefix that satisfies `p` and is followed by a character that does not is what TakeWhile takes. */
  lemma {:induction false} TakeWhileOf(p: char -> bool, prefix: string, rest: string)
    requires forall i :: 0 <= i < |prefix| ==> p(prefix[i])
    requires rest != [] && !p(rest[0])
    ensures TakeWhile(p, prefix + rest) == prefix
    decreases |prefix|
  {
    if prefix != [] {
      assert (prefix + rest)[1..] == prefix[1..] + rest;
      TakeWhileOf(p, prefix[1..], rest);
    }
  }

  /** A string is a prefix of itself followed by anything, and what follows is the rest. */
  lemma PrefixOfConcat(p: string, rest: string)
    ensures p <= p + rest && (p + rest)[|p|..] == rest
  {
  }

  /** Strings that differ in their first character are not prefixes of one another. */
  lemma NotPrefixAtFirst(p: string, s: string)
    requires |p| > 0 && |s| > 0 && p[0] != s[0]
    ensures !(p <= s)
  {
  }
}
