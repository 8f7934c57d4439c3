/** A model of the part of JavaScript's `String.prototype.trim` that the
    planner relies on: the task-input guard rejects text that is blank
    after trimming. */
module JsText {

  /** ECMAScript WhiteSpace and LineTerminator code points: exactly the
      characters `trim` strips from both ends of a string. */
  predicate IsJsWhitespace(c: char) {
    c == '\U{9}' || c == '\U{A}' || c == '\U{B}' || c == '\U{C}' ||
    c == '\U{D}' || c == '\U{20}' || c == '\U{A0}' || c == '\U{1680}' ||
    ('\U{2000}' <= c <= '\U{200A}') ||
    c == '\U{2028}' || c == '\U{2029}' || c == '\U{202F}' || c == '\U{205F}' ||
    c == '\U{3000}' || c == '\U{FEFF}'
  }

  /** Every character of `s` is white space (the empty string included). */
  predicate IsBlank(s: string) {
    forall i :: 0 <= i < |s| ==> IsJsWhitespace(s[i])
  }

  /** `s` without its leading white space: a suffix of `s` that starts with
      a non-space character (or is empty), and everything cut off is space. */
  function TrimStart(s: string): (r: string)
    ensures |r| <= |s| && r == s[|s| - |r|..]
    ensures r == [] || !IsJsWhitespace(r[0])
    ensures forall i :: 0 <= i < |s| - |r| ==> IsJsWhitespace(s[i])
  {
    if |s| > 0 && IsJsWhitespace(s[0]) then TrimStart(s[1..]) else s
  }

  /** `s` without its trailing white space: a prefix of `s` that ends with
      a non-space character (or is empty), and everything cut off is space. */
  function TrimEnd(s: string): (r: string)
    ensures |r| <= |s| && r == s[..|r|]
    ensures r == [] || !IsJsWhitespace(r[|r| - 1])
    ensures forall i :: |r| <= i < |s| ==> IsJsWhitespace(s[i])
  {
    if |s| > 0 && IsJsWhitespace(s[|s| - 1]) then TrimEnd(s[..|s| - 1]) else s
  }

  /** `s.trim()`: no longer than `s`, and neither starting nor ending with
      white space. */
  function Trim(s: string): (r: string)
    ensures |r| <= |s|
    ensures r == [] || (!IsJsWhitespace(r[0]) && !IsJsWhitespace(r[|r| - 1]))
  {
    TrimEnd(TrimStart(s))
  }

  /** The guard `!input.value.trim()` holds exactly for blank text. */
  lemma {:induction false} TrimEmptyIffBlank(s: string)
    ensures Trim(s) == [] <==> IsBlank(s)
  {
  }

  /** Trimming cuts off white space only: the result is a slice of the
      input, everything before and after that slice is white space, and the
      slice neither starts nor ends with white space. */
  lemma TrimIsSlice(s: string)
    ensures exists lo, hi :: 0 <= lo <= hi <= |s| && Trim(s) == s[lo..hi] && IsBlank(s[..lo]) && IsBlank(s[hi..])
    ensures Trim(s) == [] || (!IsJsWhitespace(Trim(s)[0]) && !IsJsWhitespace(Trim(s)[|Trim(s)| - 1]))
  {
    var t := TrimStart(s);
    var lo := |s| - |t|;
    var hi := lo + |Trim(s)|;
    assert Trim(s) == t[..|Trim(s)|] == s[lo..hi];
    assert IsBlank(s[..lo]);
    assert forall i :: |Trim(s)| <= i < |t| ==> IsJsWhitespace(t[i]);
    assert s[hi..] == t[|Trim(s)|..];
    assert IsBlank(s[hi..]);
  }
}
