/**
  Character classes the application relies on. Rust's `char` is a Unicode
  scalar value, which is also what a Dafny `char` is, so each class is a
  predicate on code points.
 */
module Chars {

  /** Rust's `char::is_whitespace`: the Unicode White_Space property.
      `str::split_whitespace` and `str::trim` both split on exactly this set. */
  predicate IsWhitespace(c: char) {
    || ('\U{9}' <= c <= '\U{D}')
    || c == ' '
    || c == '\U{85}'
    || c == '\U{A0}'
    || c == '\U{1680}'
    || ('\U{2000}' <= c <= '\U{200A}')
    || c == '\U{2028}'
    || c == '\U{2029}'
    || c == '\U{202F}'
    || c == '\U{205F}'
    || c == '\U{3000}'
  }

  /** Rust's `char::is_control`: general category Cc, i.e. U+0000..U+001F and U+007F..U+009F. */
  predicate IsControl(c: char) {
    c <= '\U{1F}' || ('\U{7F}' <= c <= '\U{9F}')
  }

  /** Rust's `char::is_ascii_digit`. */
  predicate IsAsciiDigit(c: char) {
    '0' <= c <= '9'
  }

  predicate AllAsciiDigits(s: string) {
    forall i :: 0 <= i < |s| ==> IsAsciiDigit(s[i])
  }

  predicate NoWhitespace(s: string) {
    forall i :: 0 <= i < |s| ==> !IsWhitespace(s[i])
  }

  predicate AllWhitespace(s: string) {
    forall i :: 0 <= i < |s| ==> IsWhitespace(s[i])
  }

  /** The keys that only ever carry an ASCII digit are neither whitespace nor control characters. */
  lemma DigitIsPlain(c: char)
    requires IsAsciiDigit(c)
    ensures !IsWhitespace(c) && !IsControl(c)
  {
  }
}
