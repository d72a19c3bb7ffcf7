/** Character-level helpers shared by the lexer: the whitespace class,
    trimming, the width of a line's leading whitespace and blank lines. */
module Strings {

  /** The whitespace characters the model recognises (the ASCII part of
      Rust's `char::is_whitespace`). */
  predicate IsSpace(c: char)
  {
    c == ' ' || c == '\t' || c == '\n' || c == '\r' || c == '\U{000B}' || c == '\U{000C}'
  }

  predicate AllSpace(s: string)
  {
    forall i :: 0 <= i < |s| ==> IsSpace(s[i])
  }

  /** Neither the first nor the last character is whitespace. */
  predicate IsTrimmed(s: string)
  {
    s == [] || (!IsSpace(s[0]) && !IsSpace(s[|s| - 1]))
  }

  /** Number of leading whitespace characters of `s` (a `take_while`
      count): they are all whitespace and the next character, if any, is not. */
  function Width(s: string): (w: nat)
    ensures w <= |s|
    ensures forall i :: 0 <= i < w ==> IsSpace(s[i])
    ensures w == |s| || !IsSpace(s[w])
  {
    if s != [] && IsSpace(s[0]) then 1 + Width(s[1..]) else 0
  }

  /** Number of trailing whitespace characters of `s`. */
  function TrailingWidth(s: string): (w: nat)
    ensures w <= |s|
    ensures forall i :: |s| - w <= i < |s| ==> IsSpace(s[i])
    ensures w == |s| || !IsSpace(s[|s| - w - 1])
  {
    if s != [] && IsSpace(s[|s| - 1]) then 1 + TrailingWidth(s[..|s| - 1]) else 0
  }

  /** Rust's `str::trim`: the slice of `s` that starts after its leading
      whitespace, is followed by whitespace only, and neither starts nor ends
      with whitespace. */
  function Trim(s: string): (r: string)
    ensures IsTrimmed(r)
    ensures Width(s) + |r| <= |s| && r == s[Width(s)..Width(s) + |r|]
    ensures forall i :: Width(s) + |r| <= i < |s| ==> IsSpace(s[i])
  {
    var w := Width(s);
    if w == |s| then [] else s[w..|s| - TrailingWidth(s)]
  }

  /** A line whose trimmed form is empty. */
  predicate Blank(s: string)
  {
    Trim(s) == []
  }

  /** A line is blank exactly when it is made of whitespace only. */
  lemma BlankIffAllSpace(s: string)
    ensures Blank(s) <==> AllSpace(s)
  {
    if Blank(s) {
      assert Width(s) == |s|;
    }
  }

  /** Trimming is idempotent: a trimmed string is left unchanged. */
  lemma TrimTrimmed(s: string)
    requires IsTrimmed(s)
    ensures Trim(s) == s
  {
    if s != [] {
      assert Width(s) == 0;
      assert TrailingWidth(s) == 0;
    }
  }
}
