/** Character classes and searches that several components share. */
module Strings {
  predicate Digit(c: char) { '0' <= c <= '9' }

  predicate AllDigits(s: string) { forall i :: 0 <= i < |s| ==> Digit(s[i]) }

  predicate OccursAt(pattern: string, text: string, i: int) {
    0 <= i <= |text| - |pattern| && text[i..i + |pattern|] == pattern
  }

  predicate OccursIn(pattern: string, text: string) {
    exists i | 0 <= i <= |text| - |pattern| :: OccursAt(pattern, text, i)
  }
}
