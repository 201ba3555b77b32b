/** The few operations of Python's `str` that the parsers use, on ASCII text. */
module Strings {

  /** `str.isspace()` for ASCII: space, tab through carriage return, and the separators 0x1c-0x1f. */
  predicate IsSpace(c: char) {
    c == ' ' || 9 <= c as int <= 13 || 28 <= c as int <= 31
  }

  predicate AllSpace(s: string) {
    forall i :: 0 <= i < |s| ==> IsSpace(s[i])
  }

  /** `str.strip()`: drop the whitespace at both ends. */
  function Strip(s: string): (r: string)
    ensures r == [] || (!IsSpace(r[0]) && !IsSpace(r[|r| - 1]))
    ensures |r| <= |s|
    decreases |s|
  {
    if s != [] && IsSpace(s[0]) then Strip(s[1..])
    else if s != [] && IsSpace(s[|s| - 1]) then Strip(s[..|s| - 1])
    else s
  }

  /** A string without whitespace at its ends is its own strip. */
  lemma StripTrimmed(s: string)
    requires s == [] || (!IsSpace(s[0]) && !IsSpace(s[|s| - 1]))
    ensures Strip(s) == s
  {
  }

  /** Whitespace added in front changes nothing. */
  lemma {:induction false} StripSpaceBefore(p: string, s: string)
    requires AllSpace(p)
    ensures Strip(p + s) == Strip(s)
    decreases |p|
  {
    if p != [] {
      assert (p + s)[1..] == p[1..] + s;
      StripSpaceBefore(p[1..], s);
    } else {
      assert p + s == s;
    }
  }

  /** Whitespace added behind changes nothing. */
  lemma {:induction false} StripSpaceAfter(s: string, q: string)
    requires AllSpace(q)
    ensures Strip(s + q) == Strip(s)
    decreases |s| + |q|
  {
    if q == [] {
      assert s + q == s;
    } else if s != [] && IsSpace(s[0]) {
      assert (s + q)[1..] == s[1..] + q;
      StripSpaceAfter(s[1..], q);
    } else if s == [] {
      assert s + q == q && s + q[1..] == q[1..];
      StripSpaceAfter(s, q[1..]);
    } else {
      assert (s + q)[..|s + q| - 1] == s + q[..|q| - 1];
      StripSpaceAfter(s, q[..|q| - 1]);
    }
  }

  /** `str.strip()` is idempotent. */
  lemma StripIdempotent(s: string)
    ensures Strip(Strip(s)) == Strip(s)
  {
    StripTrimmed(Strip(s));
  }

  function LowerChar(c: char): char {
    if 'A' <= c <= 'Z' then (c as int + 32) as char else c
  }

  /** `str.lower()` on ASCII letters; every other character is kept. */
  function Lower(s: string): (r: string)
    ensures |r| == |s|
    ensures forall i :: 0 <= i < |s| ==> r[i] == LowerChar(s[i])
  {
    if s == [] then [] else Lower(s[..|s| - 1]) + [LowerChar(s[|s| - 1])]
  }

  /** Lower-casing touches no whitespace, so it commutes with strip. */
  lemma {:induction false} LowerStrip(s: string)
    ensures Lower(Strip(s)) == Strip(Lower(s))
    decreases |s|
  {
    var l := Lower(s);
    if s != [] && IsSpace(s[0]) {
      assert Lower(s[1..]) == l[1..];
      LowerStrip(s[1..]);
    } else if s != [] && IsSpace(s[|s| - 1]) {
      assert Lower(s[..|s| - 1]) == l[..|l| - 1];
      LowerStrip(s[..|s| - 1]);
    } else if s != [] {
      assert !IsSpace(l[0]) && !IsSpace(l[|l| - 1]);
    }
  }

  predicate IsDigit(c: char) {
    '0' <= c <= '9'
  }

  function DigitOf(c: char): nat
    requires IsDigit(c)
  {
    c as int - '0' as int
  }

  /** The decimal value of a string of digits. */
  function DigitsValue(s: string): nat
    requires forall i :: 0 <= i < |s| ==> IsDigit(s[i])
  {
    if s == [] then 0 else 10 * DigitsValue(s[..|s| - 1]) + DigitOf(s[|s| - 1])
  }

  function DigitChar(d: nat): (c: char)
    requires d < 10
    ensures IsDigit(c) && DigitOf(c) == d
  {
    ('0' as int + d) as char
  }

  /** The decimal digits of `n`, most significant first. */
  function NatStr(n: nat): (s: string)
    ensures s != [] && forall i :: 0 <= i < |s| ==> IsDigit(s[i])
  {
    if n < 10 then [DigitChar(n)] else NatStr(n / 10) + [DigitChar(n % 10)]
  }

  /** Reading the digits back gives the number. */
  lemma {:induction false} NatStrValue(n: nat)
    ensures DigitsValue(NatStr(n)) == n
  {
    var s := NatStr(n);
    if n < 10 {
      assert s[..|s| - 1] == [];
    } else {
      assert s[..|s| - 1] == NatStr(n / 10);
      NatStrValue(n / 10);
    }
  }
}
