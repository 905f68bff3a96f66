/** String trimming as performed by `String.prototype.trim`, which the form
    uses to decide whether a field value is blank. */
module Text {

  /** The characters `trim` strips: the WhiteSpace and LineTerminator code
      points of ECMA-262 (sections 12.2 and 12.3 of the ECMAScript 2024
      Language Specification). */
  predicate IsWhitespace(c: char) {
    || c == '\t' || c == '\n' || c == '\U{000B}' || c == '\U{000C}' || c == '\r'
    || c == ' ' || c == '\U{00A0}' || c == '\U{1680}'
    || ('\U{2000}' <= c <= '\U{200A}')
    || c == '\U{2028}' || c == '\U{2029}' || c == '\U{202F}' || c == '\U{205F}'
    || c == '\U{3000}' || c == '\U{FEFF}'
  }

  /** A string is blank when every one of its characters is whitespace. */
  predicate Blank(s: string) {
    forall i :: 0 <= i < |s| ==> IsWhitespace(s[i])
  }

  /** `r` is the slice of `s` starting at `i`, and everything of `s` before
      and after that slice is blank. */
  predicate CutAt(s: string, r: string, i: int) {
    0 <= i <= |s| - |r| && r == s[i..i + |r|] && Blank(s[..i]) && Blank(s[i + |r|..])
  }

  /** Drops the leading whitespace: the result is the suffix of `s` that starts
      at its first non-whitespace character. */
  function TrimStart(s: string): (r: string)
    ensures |r| <= |s| && r == s[|s| - |r|..]
    ensures forall i :: 0 <= i < |s| - |r| ==> IsWhitespace(s[i])
    ensures r == [] || !IsWhitespace(r[0])
    decreases |s|
  {
    if |s| > 0 && IsWhitespace(s[0]) then TrimStart(s[1..]) else s
  }

  /** Drops the trailing whitespace: the result is the prefix of `s` that ends
      at its last non-whitespace character. */
  function TrimEnd(s: string): (r: string)
    ensures |r| <= |s| && r == s[..|r|]
    ensures forall i :: |r| <= i < |s| ==> IsWhitespace(s[i])
    ensures r == [] || !IsWhitespace(r[|r| - 1])
    decreases |s|
  {
    if |s| > 0 && IsWhitespace(s[|s| - 1]) then TrimEnd(s[..|s| - 1]) else s
  }

  /** `s.trim()`: empty exactly when `s` is blank, and otherwise neither
      starting nor ending with whitespace; `TrimIsSlice` shows it is the
      slice of `s` left between its leading and trailing whitespace. */
  function Trim(s: string): (r: string)
    ensures |r| <= |s|
    ensures r == [] <==> Blank(s)
    ensures r != [] ==> !IsWhitespace(r[0]) && !IsWhitespace(r[|r| - 1])
  {
    var t := TrimStart(s);
    var r := TrimEnd(t);
    SliceBetweenBlanks(s, t, r);
    r
  }

  /** `s.trim()` is a slice of `s` with only whitespace before and after it.
      (Kept apart from `Trim`'s contract, so that proofs about trimmed values
      do not carry this quantified fact along.) */
  lemma TrimIsSlice(s: string)
    ensures exists i :: CutAt(s, Trim(s), i)
  {
    var t := TrimStart(s);
    var r := TrimEnd(t);
    assert Trim(s) == r;
    SliceBetweenBlanks(s, t, r);
    assert CutAt(s, Trim(s), |s| - |t|);
  }

  /** A middle part cut from `s` by dropping its whitespace prefix and then
      the whitespace suffix of the rest is empty exactly when `s` is blank,
      and is otherwise a slice of `s` with blanks on both sides that starts
      with a non-whitespace character. */
  lemma SliceBetweenBlanks(s: string, t: string, r: string)
    requires |t| <= |s| && t == s[|s| - |t|..]
    requires forall i :: 0 <= i < |s| - |t| ==> IsWhitespace(s[i])
    requires t == [] || !IsWhitespace(t[0])
    requires |r| <= |t| && r == t[..|r|]
    requires forall i :: |r| <= i < |t| ==> IsWhitespace(t[i])
    requires r == [] || !IsWhitespace(r[|r| - 1])
    ensures r == [] <==> Blank(s)
    ensures r != [] ==> !IsWhitespace(r[0])
    ensures CutAt(s, r, |s| - |t|)
  {
    var i := |s| - |t|;
    assert s[i + |r|..] == t[|r|..];
    assert CutAt(s, r, i);
    if r == [] {
      assert t == [];
      assert Blank(s);
    } else {
      assert r[0] == t[0] == s[i];
    }
  }
}
