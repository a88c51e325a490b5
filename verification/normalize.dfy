/**
 The dashboard's string normaliser (`normalizeString` in
 fuzzy_app/fuzzy-name-dashboard/src/utils/helpers.ts): lower-case the input,
 then delete every character that is neither an ASCII letter nor whitespace
 (the regular expression `[^a-zA-Z\s]` with the global flag).
 */
module Normalize {
  import opened Strings
  import opened Seqs

  /** The characters the regular expression leaves in place. */
  predicate Survives(c: char) {
    IsAsciiLetter(c) || IsJsSpace(c)
  }

  /** `normalizeString(str)`. */
  function NormalizeString(s: string): (r: string)
    ensures |r| <= |s|
    ensures forall i :: 0 <= i < |r| ==> IsLower(r[i]) || IsJsSpace(r[i])
  {
    var lowered := AsciiLower(s);
    FilterMembers(lowered, Survives);
    Filter(lowered, Survives)
  }

  /** Filtering by a predicate that cannot tell a character from its lower-case form commutes with lower-casing. */
  lemma {:induction false} FilterLowerCommute(s: string, p: char -> bool)
    requires forall c :: p(LowerChar(c)) == p(c)
    ensures Filter(AsciiLower(s), p) == AsciiLower(Filter(s, p))
  {
    if s != [] {
      var init := s[..|s| - 1];
      var last := s[|s| - 1];
      FilterLowerCommute(init, p);
      assert AsciiLower(s)[..|s| - 1] == AsciiLower(init);
      var kept := if p(last) then [last] else [];
      assert AsciiLower(Filter(init, p) + kept) == AsciiLower(Filter(init, p)) + AsciiLower(kept);
    }
  }

  /** Normalising an already normalised string changes nothing. */
  lemma NormalizeIdempotent(s: string)
    ensures NormalizeString(NormalizeString(s)) == NormalizeString(s)
  {
    var n := NormalizeString(s);
    LowerFixpoint(n);
    FilterIdempotent(AsciiLower(s), Survives);
  }

  /** A string is left unchanged exactly when it holds only lower-case ASCII letters and whitespace. */
  lemma NormalizeFixpoint(s: string)
    ensures NormalizeString(s) == s <==> forall i :: 0 <= i < |s| ==> IsLower(s[i]) || IsJsSpace(s[i])
  {
    if forall i :: 0 <= i < |s| ==> IsLower(s[i]) || IsJsSpace(s[i]) {
      assert forall i :: 0 <= i < |s| ==> !IsUpper(s[i]);
      LowerFixpoint(s);
      assert forall i :: 0 <= i < |s| ==> Survives(s[i]);
      FilterKeepsAll(s, Survives);
      assert Filter(AsciiLower(s), Survives) == s;
    }
  }

  /** The output is the lower-cased input with some characters deleted. */
  lemma NormalizeIsSubsequence(s: string)
    ensures IsSubsequence(NormalizeString(s), AsciiLower(s))
  {
    FilterIsSubsequence(AsciiLower(s), Survives);
  }

  /** Whitespace is neither trimmed nor collapsed: the whitespace characters survive, in order. */
  lemma NormalizeKeepsWhitespace(s: string)
    ensures Filter(NormalizeString(s), IsJsSpace) == Filter(s, IsJsSpace)
  {
    FilterFilter(AsciiLower(s), Survives, IsJsSpace);
    FilterLowerCommute(s, IsJsSpace);
    var spaces := Filter(s, IsJsSpace);
    FilterMembers(s, IsJsSpace);
    LowerFixpoint(spaces);
  }

  /** The ASCII letters survive, lower-cased and in order. */
  lemma NormalizeKeepsLetters(s: string)
    ensures Filter(NormalizeString(s), IsAsciiLetter) == AsciiLower(Filter(s, IsAsciiLetter))
  {
    FilterFilter(AsciiLower(s), Survives, IsAsciiLetter);
    FilterLowerCommute(s, IsAsciiLetter);
  }

  /** Digits, punctuation and non-Latin letters such as Devanagari never reach the output. */
  lemma NormalizeDropsOthers(s: string, c: char)
    requires !IsAsciiLetter(c) && !IsJsSpace(c)
    ensures c !in NormalizeString(s)
  {
  }
}
