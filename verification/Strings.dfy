/** strings.ReplaceAll. */
module Strings {

  /** Replaces every occurrence of from, from left to right; occurrences do not overlap. */
  function ReplaceAll(s: string, from: string, replacement: string): string
    requires from != ""
    decreases |s|
  {
    if |s| < |from| then s
    else if s[..|from|] == from then replacement + ReplaceAll(s[|from|..], from, replacement)
    else [s[0]] + ReplaceAll(s[1..], from, replacement)
  }

  /** Replacing a single character works character by character. */
  lemma ReplaceChar(c: char, s: string, from: char, replacement: string)
    ensures ReplaceAll([c] + s, [from], replacement) ==
            (if c == from then replacement else [c]) + ReplaceAll(s, [from], replacement)
  {
    var t := [c] + s;
    assert t[1..] == s && t[..1] == [c];
    if s == "" {
      assert ReplaceAll(s, [from], replacement) == "";
    }
  }
}
