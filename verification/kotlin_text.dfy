/**
 * The parts of Kotlin's string library the app relies on: `isWhitespace`,
 * `isBlank`/`isNotBlank`, `isNullOrEmpty` and `firstOrNull`.
 */
module KotlinText {
  import opened Wrappers

  /**
   * Kotlin's `Char.isWhitespace` on the JVM: `Character.isWhitespace(c) ||
   * Character.isSpaceChar(c)`, written out as the table of code points it accepts.
   */
  function IsWhitespace(c: char): (b: bool)
    ensures c < '\U{80}' ==> (b <==> c in " \t\n\r\U{B}\U{C}\U{1C}\U{1D}\U{1E}\U{1F}")
    ensures b ==> c <= '\U{3000}'
  {
    || ('\t' <= c <= '\r')
    || ('\U{1C}' <= c <= '\U{1F}')
    || c == ' '
    || c == '\U{A0}'
    || c == '\U{1680}'
    || ('\U{2000}' <= c <= '\U{200A}')
    || c == '\U{2028}'
    || c == '\U{2029}'
    || c == '\U{202F}'
    || c == '\U{205F}'
    || c == '\U{3000}'
  }

  /** `CharSequence.isBlank`: empty, or whitespace only. */
  predicate IsBlank(s: string) {
    forall i :: 0 <= i < |s| ==> IsWhitespace(s[i])
  }

  predicate IsNotBlank(s: string) {
    !IsBlank(s)
  }

  /**
   * `isBlank` read character by character: the empty string is blank, and a
   * non-empty one is blank iff its first character is whitespace and the
   * rest is blank; padding a blank string with spaces keeps it blank, and a
   * string holding a non-whitespace character is not blank.
   */
  lemma BlankByFirstChar(s: string, c: char)
    ensures IsBlank("")
    ensures |s| > 0 ==> (IsBlank(s) <==> IsWhitespace(s[0]) && IsBlank(s[1..]))
    ensures IsBlank(s) ==> IsBlank(s + " ") && IsBlank(" " + s)
    ensures !IsWhitespace(c) ==> IsNotBlank(s + [c]) && IsNotBlank([c] + s)
  {
    if |s| > 0 {
      assert forall i :: 0 <= i < |s[1..]| ==> s[1..][i] == s[i + 1];
    }
    assert (s + [c])[|s|] == c;
    assert ([c] + s)[0] == c;
  }

  /** `String?.isNullOrEmpty`. */
  predicate IsNullOrEmpty(s: Option<string>) {
    s.None? || |s.value| == 0
  }

  /** `List.firstOrNull`. */
  function FirstOrNull<T>(xs: seq<T>): (r: Option<T>)
    ensures r.None? <==> |xs| == 0
    ensures r.Some? ==> r.value == xs[0]
  {
    if |xs| == 0 then None else Some(xs[0])
  }
}
