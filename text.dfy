/** Java string comparisons used by the services, over `seq<char>`.
    Case folding is ASCII-only: `equalsIgnoreCase` and the repositories'
    `IgnoreCase` / `LOWER(...)` queries compare letters A-Z and a-z alike. */
module Text {
  import opened Wrappers

  /** A nullable `String[]` (or `List<String>`) whose elements may be null. */
  type TextArray = Option<seq<Option<string>>>

  function ToLower(c: char): (d: char)
    ensures 'A' <= c <= 'Z' ==> d as int == c as int + 32
    ensures !('A' <= c <= 'Z') ==> d == c
  {
    if 'A' <= c <= 'Z' then (c as int + 32) as char else c
  }

  /** `String.equalsIgnoreCase`: same length and equal letter by letter after folding. */
  predicate EqualsIgnoreCase(a: string, b: string) {
    |a| == |b| && forall i :: 0 <= i < |a| ==> ToLower(a[i]) == ToLower(b[i])
  }

  lemma EqualsIgnoreCaseIsEquivalence(a: string, b: string, c: string)
    ensures EqualsIgnoreCase(a, a)
    ensures EqualsIgnoreCase(a, b) ==> EqualsIgnoreCase(b, a)
    ensures EqualsIgnoreCase(a, b) && EqualsIgnoreCase(b, c) ==> EqualsIgnoreCase(a, c)
  {
  }

  /** `Character.isWhitespace` restricted to the ASCII range: space, U+0009..U+000D
      (tab, line feed, vertical tab, form feed, carriage return) and the four
      separators U+001C..U+001F. */
  predicate IsWhitespace(c: char) {
    c == ' ' || (9 <= c as int <= 13) || (0x1C <= c as int <= 0x1F)
  }

  /** `String.isBlank`: empty or whitespace only. */
  predicate IsBlank(s: string) {
    forall i :: 0 <= i < |s| ==> IsWhitespace(s[i])
  }
}
