/**
 * Character classes of Python's `re` module and the string helpers the
 * extractor relies on. Digits and case are ASCII only: Python's `\d`,
 * `int()`, `re.IGNORECASE` and `str.upper()` also act on non-ASCII
 * characters, which this model treats as ordinary non-digit, caseless
 * characters.
 */
module Chars {

  /** `\d`, restricted to ASCII. */
  predicate IsDigit(c: char) { '0' <= c <= '9' }

  /** `[^\d]`. */
  predicate IsNonDigit(c: char) { !IsDigit(c) }

  /** `\s` on a str pattern: the characters for which `str.isspace()` holds. */
  predicate IsSpace(c: char)
  {
    c == ' ' || '\t' <= c <= '\r' || '\U{1c}' <= c <= '\U{1f}' ||
    c == '\U{85}' || c == '\U{a0}' || c == '\U{1680}' ||
    '\U{2000}' <= c <= '\U{200a}' || c == '\U{2028}' || c == '\U{2029}' ||
    c == '\U{202f}' || c == '\U{205f}' || c == '\U{3000}'
  }

  /** `[\s\-]`: the separator allowed between the groups of a ticket number or a date. */
  predicate IsSep(c: char) { IsSpace(c) || c == '-' }

  /** `[:\s]`: what may follow the `No` and `Date` labels. */
  predicate IsColonOrSpace(c: char) { c == ':' || IsSpace(c) }

  /** `[A-Za-z]`. */
  predicate IsAsciiLetter(c: char) { 'A' <= c <= 'Z' || 'a' <= c <= 'z' }

  /** Every character of `s` is in the class `keep`. */
  predicate All(s: string, keep: char -> bool)
  {
    forall k :: 0 <= k < |s| ==> keep(s[k])
  }

  function Lower(c: char): (r: char)
    ensures IsAsciiLetter(c) ==> IsAsciiLetter(r) && 'a' <= r <= 'z'
    ensures !IsAsciiLetter(c) ==> r == c
  {
    if 'A' <= c <= 'Z' then (c as int + 32) as char else c
  }

  function Upper(c: char): (r: char)
    ensures IsAsciiLetter(c) ==> 'A' <= r <= 'Z' && Lower(r) == Lower(c)
    ensures !('a' <= c <= 'z') ==> r == c
  {
    if 'a' <= c <= 'z' then (c as int - 32) as char else c
  }

  /** `str.upper()` on ASCII letters; every other character is kept. */
  function UpperString(s: string): (r: string)
    ensures |r| == |s|
    ensures forall k :: 0 <= k < |s| ==> r[k] == Upper(s[k])
  {
    if s == [] then [] else [Upper(s[0])] + UpperString(s[1..])
  }

  /**
   * `w` matches the lower-case ASCII literal `lit` under `re.IGNORECASE`.
   */
  predicate EqualsIgnoringCase(w: string, lit: string)
  {
    |w| == |lit| && forall k :: 0 <= k < |w| ==> Lower(w[k]) == lit[k]
  }

  /** A text matches at most one lower-case literal. */
  lemma SpelledAtMostOneWay(w: string, a: string, b: string)
    ensures EqualsIgnoringCase(w, a) && EqualsIgnoringCase(w, b) ==> a == b
  {
    if EqualsIgnoringCase(w, a) && EqualsIgnoringCase(w, b) {
      assert forall k :: 0 <= k < |a| ==> a[k] == Lower(w[k]) == b[k];
    }
  }

  predicate OccursAt(s: string, sub: string, i: nat)
  {
    i + |sub| <= |s| && s[i..i + |sub|] == sub
  }

  /** Python's `sub in s`, as a scan from position `from`. */
  function ContainsFrom(s: string, sub: string, from: nat): (r: bool)
    decreases |s| - from
    ensures r <==> exists i :: from <= i && OccursAt(s, sub, i)
  {
    if from + |sub| > |s| then false
    else if s[from..from + |sub|] == sub then assert OccursAt(s, sub, from); true
    else ContainsFrom(s, sub, from + 1)
  }

  function Contains(s: string, sub: string): (r: bool)
    ensures r <==> exists i :: 0 <= i && OccursAt(s, sub, i)
  {
    ContainsFrom(s, sub, 0)
  }

  function DigitValue(c: char): (r: nat)
    requires IsDigit(c)
    ensures r <= 9
  {
    c as int - '0' as int
  }

  function Pow10(n: nat): (r: nat)
    ensures r >= 1
  {
    if n == 0 then 1 else 10 * Pow10(n - 1)
  }

  /** Python's `int(s)` on a run of ASCII digits (leading zeros allowed). */
  function DigitsValue(s: string): (r: nat)
    requires All(s, IsDigit)
    ensures r < Pow10(|s|)
  {
    if s == [] then 0
    else DigitsValue(s[..|s| - 1]) * 10 + DigitValue(s[|s| - 1])
  }

  lemma {:induction false} Pow10Grows(m: nat, n: nat)
    requires m <= n
    ensures Pow10(m) <= Pow10(n)
  {
    if m < n {
      Pow10Grows(m, n - 1);
    }
  }

  /** A run of at most five digits is worth at most 99999. */
  lemma FiveDigitsBound(s: string)
    requires All(s, IsDigit) && |s| <= 5
    ensures DigitsValue(s) <= 99999
  {
    Pow10Grows(|s|, 5);
    assert Pow10(5) == 100000 by {
      assert Pow10(1) == 10;
      assert Pow10(2) == 100;
      assert Pow10(3) == 1000;
      assert Pow10(4) == 10000;
    }
  }

  /** The decimal digit of `n`. */
  function DigitChar(n: nat): (c: char)
    requires n <= 9
    ensures IsDigit(c) && DigitValue(c) == n
  {
    ('0' as int + n) as char
  }

  /** The last `width` decimal digits of `n`, most significant first, zero-padded. */
  function Digits(n: nat, width: nat): (s: string)
    ensures |s| == width && All(s, IsDigit)
  {
    if width == 0 then [] else Digits(n / 10, width - 1) + [DigitChar(n % 10)]
  }

  /** Reading back the zero-padded rendering of a number that fits the width gives the number. */
  lemma {:induction false} DigitsRoundTrip(n: nat, width: nat)
    requires n < Pow10(width)
    ensures DigitsValue(Digits(n, width)) == n
  {
    if width > 0 {
      var s := Digits(n, width);
      var q, r := n / 10, n % 10;
      assert n == q * 10 + r;
      assert q < Pow10(width - 1) by {
        assert Pow10(width) == Pow10(width - 1) * 10;
      }
      assert s[..|s| - 1] == Digits(q, width - 1);
      assert DigitValue(s[|s| - 1]) == r;
      DigitsRoundTrip(q, width - 1);
    }
  }
}
