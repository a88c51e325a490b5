/**
 Character classes and string helpers shared by the Python back end and the
 JavaScript front end: ASCII case mapping, the two whitespace sets (Python's
 `str.isspace` and ECMAScript's `\s`), outer-whitespace stripping, substring
 search and the decimal rendering of integers.
 */
module Strings {

  predicate IsUpper(c: char) { 'A' <= c <= 'Z' }

  predicate IsLower(c: char) { 'a' <= c <= 'z' }

  predicate IsAsciiLetter(c: char) { IsUpper(c) || IsLower(c) }

  predicate IsDigit(c: char) { '0' <= c <= '9' }

  /** Whitespace as Python's `str.isspace` (and hence `str.strip()`) sees it. */
  predicate IsPySpace(c: char) {
    || ('\t' <= c <= '\r')
    || ('\U{1C}' <= c <= ' ')
    || c == '\U{85}' || c == '\U{A0}' || c == '\U{1680}'
    || ('\U{2000}' <= c <= '\U{200A}')
    || c == '\U{2028}' || c == '\U{2029}' || c == '\U{202F}' || c == '\U{205F}' || c == '\U{3000}'
  }

  /** Whitespace as the ECMAScript `\s` class and `String.prototype.trim` see it. */
  predicate IsJsSpace(c: char) {
    || ('\t' <= c <= '\r')
    || c == ' ' || c == '\U{A0}' || c == '\U{1680}'
    || ('\U{2000}' <= c <= '\U{200A}')
    || c == '\U{2028}' || c == '\U{2029}' || c == '\U{202F}' || c == '\U{205F}' || c == '\U{3000}'
    || c == '\U{FEFF}'
  }

  /** ASCII lower-casing of one character: 'A'..'Z' move to 'a'..'z', all else stays. */
  function LowerChar(c: char): (d: char)
    ensures !IsUpper(d)
    ensures IsAsciiLetter(d) <==> IsAsciiLetter(c)
    ensures IsUpper(c) ==> d as int - c as int == 'a' as int - 'A' as int
    ensures !IsUpper(c) ==> d == c
  {
    if IsUpper(c) then (c as int - 'A' as int + 'a' as int) as char else c
  }

  /** `s.lower()` / `s.toLowerCase()` restricted to the ASCII mapping. */
  function AsciiLower(s: string): (r: string)
    ensures |r| == |s|
    ensures forall i :: 0 <= i < |s| ==> r[i] == LowerChar(s[i])
  {
    seq(|s|, i requires 0 <= i < |s| => LowerChar(s[i]))
  }

  /** Lower-casing a string a second time changes nothing. */
  lemma LowerIdempotent(s: string)
    ensures AsciiLower(AsciiLower(s)) == AsciiLower(s)
  {
  }

  /** A string without upper-case letters is its own lower-case form, and only such a string is. */
  lemma LowerFixpoint(s: string)
    ensures AsciiLower(s) == s <==> forall i :: 0 <= i < |s| ==> !IsUpper(s[i])
  {
    if AsciiLower(s) == s {
      forall i | 0 <= i < |s| ensures !IsUpper(s[i]) {
        assert s[i] == AsciiLower(s)[i];
      }
    }
  }

  /** Number of `isSpace` characters at the front of `s`. */
  function LeadingCount(s: string, isSpace: char -> bool): (n: nat)
    ensures n <= |s|
    ensures forall i :: 0 <= i < n ==> isSpace(s[i])
    ensures n < |s| ==> !isSpace(s[n])
  {
    if s == [] || !isSpace(s[0]) then 0 else 1 + LeadingCount(s[1..], isSpace)
  }

  /** Number of `isSpace` characters at the back of `s`. */
  function TrailingCount(s: string, isSpace: char -> bool): (n: nat)
    ensures n <= |s|
    ensures forall i :: |s| - n <= i < |s| ==> isSpace(s[i])
    ensures n < |s| ==> !isSpace(s[|s| - 1 - n])
  {
    if s == [] || !isSpace(s[|s| - 1]) then 0 else 1 + TrailingCount(s[..|s| - 1], isSpace)
  }

  /** `r` is the slice of `s` starting at `i`, and everything of `s` outside it is whitespace. */
  ghost predicate IsStripAt(r: string, s: string, isSpace: char -> bool, i: int) {
    && 0 <= i && i + |r| <= |s|
    && r == s[i..i + |r|]
    && (forall k :: 0 <= k < i ==> isSpace(s[k]))
    && (forall k :: i + |r| <= k < |s| ==> isSpace(s[k]))
  }

  /** No whitespace at either end. */
  predicate NoOuterSpace(r: string, isSpace: char -> bool) {
    r == [] || (!isSpace(r[0]) && !isSpace(r[|r| - 1]))
  }

  /** Removal of the leading and trailing whitespace only. */
  function Strip(s: string, isSpace: char -> bool): (r: string)
    ensures NoOuterSpace(r, isSpace)
    ensures exists i :: IsStripAt(r, s, isSpace, i)
  {
    var lead := LeadingCount(s, isSpace);
    if lead == |s| then
      assert IsStripAt([], s, isSpace, |s|);
      []
    else
      var trail := TrailingCount(s, isSpace);
      assert lead < |s| - trail by {
        assert !isSpace(s[lead]);
      }
      var r := s[lead..|s| - trail];
      assert IsStripAt(r, s, isSpace, lead);
      r
  }

  /** Python's `str.strip()` with no argument. */
  function PyStrip(s: string): (r: string)
    ensures NoOuterSpace(r, IsPySpace)
    ensures exists i :: IsStripAt(r, s, IsPySpace, i)
  {
    Strip(s, IsPySpace)
  }

  /** ECMAScript's `String.prototype.trim()`. */
  function JsTrim(s: string): (r: string)
    ensures NoOuterSpace(r, IsJsSpace)
    ensures exists i :: IsStripAt(r, s, IsJsSpace, i)
  {
    Strip(s, IsJsSpace)
  }

  /** Stripping yields the empty string exactly when the input is all whitespace. */
  lemma StripEmptyIff(s: string, isSpace: char -> bool)
    ensures Strip(s, isSpace) == [] <==> forall k :: 0 <= k < |s| ==> isSpace(s[k])
  {
    var r := Strip(s, isSpace);
    var i :| IsStripAt(r, s, isSpace, i);
    if r != [] {
      assert r[0] == s[i];
    } else {
      forall k | 0 <= k < |s| ensures isSpace(s[k]) {
        if k < i {
        } else {
          assert i + |r| <= k;
        }
      }
    }
  }

  /** `sub` occurs in `s` at offset `i`. */
  ghost predicate OccursAt(s: string, sub: string, i: int) {
    0 <= i && i + |sub| <= |s| && s[i..i + |sub|] == sub
  }

  /** ECMAScript's `s.includes(sub)`: does `sub` occur anywhere in `s`? */
  function Contains(s: string, sub: string): (b: bool)
    ensures b <==> exists i :: OccursAt(s, sub, i)
  {
    if |sub| > |s| then
      false
    else if s[..|sub|] == sub then
      assert OccursAt(s, sub, 0);
      true
    else
      var b := Contains(s[1..], sub);
      assert forall i :: OccursAt(s[1..], sub, i) <==> OccursAt(s, sub, i + 1) by {
        forall i ensures OccursAt(s[1..], sub, i) <==> OccursAt(s, sub, i + 1) {
          if 0 <= i && i + |sub| <= |s[1..]| {
            assert s[1..][i..i + |sub|] == s[i + 1..i + 1 + |sub|];
          }
        }
      }
      assert forall i :: OccursAt(s, sub, i) ==> i >= 1;
      assert forall i :: OccursAt(s, sub, i) ==> OccursAt(s[1..], sub, i - 1);
      b
  }

  function DigitChar(d: nat): (c: char)
    requires d < 10
    ensures IsDigit(c)
  {
    ('0' as int + d) as char
  }

  /** Decimal digits of a natural number, most significant first, no leading zeros. */
  function NatToString(n: nat): (r: string)
    ensures |r| >= 1
    ensures forall i :: 0 <= i < |r| ==> IsDigit(r[i])
    ensures |r| > 1 ==> r[0] != '0'
  {
    if n < 10 then [DigitChar(n)] else NatToString(n / 10) + [DigitChar(n % 10)]
  }

  /** Python's `str(n)` for an integer. */
  function IntToString(n: int): string
  {
    if n < 0 then "-" + NatToString(-n) else NatToString(n)
  }

  /** Value of a string of decimal digits. */
  function ParseDigits(s: string): nat
    requires forall i :: 0 <= i < |s| ==> IsDigit(s[i])
  {
    if s == [] then 0
    else
      assert IsDigit(s[|s| - 1]);
      ParseDigits(s[..|s| - 1]) * 10 + (s[|s| - 1] as int - '0' as int)
  }

  /** Rendering a natural number in decimal and reading it back gives the number. */
  lemma {:induction false} NatToStringRoundTrip(n: nat)
    ensures ParseDigits(NatToString(n)) == n
  {
    if n >= 10 {
      var r := NatToString(n);
      assert r[..|r| - 1] == NatToString(n / 10);
      NatToStringRoundTrip(n / 10);
    }
  }
}
