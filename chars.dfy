/** Character classification used by the text routines. */
module Chars {

  /**
   * Char.IsWhiteSpace: the members of the Unicode categories Zs, Zl and Zp
   * together with the control characters U+0009..U+000D, U+0085 and U+00A0.
   */
  predicate IsWhiteSpace(c: char) {
    || c == ' '
    || ('\t' <= c <= '\r')
    || c == '\U{0085}'
    || c == '\U{00A0}'
    || c == '\U{1680}'
    || ('\U{2000}' <= c <= '\U{200A}')
    || c == '\U{2028}'
    || c == '\U{2029}'
    || c == '\U{202F}'
    || c == '\U{205F}'
    || c == '\U{3000}'
  }

  /**
   * The culture-dependent character tables the code consults:
   * Char.IsLetter(c) || Char.IsNumber(c), Char.ToLower and
   * Char.ToUpperInvariant. They are whole Unicode tables, so the model
   * takes them as values rather than spelling them out.
   */
  datatype TextInfo = TextInfo(
    isLetterOrNumber: char -> bool,
    toLower: char -> char,
    toUpper: char -> char)

  /** The one fact about the tables the munging routines rely on:
      lowering a letter or digit never produces white space. */
  predicate LowersToNonWhiteSpace(t: TextInfo) {
    forall c :: t.isLetterOrNumber(c) ==> !IsWhiteSpace(t.toLower(c))
  }

  predicate IsAsciiLetterOrDigit(c: char) {
    ('a' <= c <= 'z') || ('A' <= c <= 'Z') || ('0' <= c <= '9')
  }

  function AsciiToLower(c: char): char {
    if 'A' <= c <= 'Z' then (c as int + 32) as char else c
  }

  function AsciiToUpper(c: char): char {
    if 'a' <= c <= 'z' then (c as int - 32) as char else c
  }

  /** The tables restricted to ASCII, enough for the concrete examples. */
  function Ascii(): (t: TextInfo)
    ensures LowersToNonWhiteSpace(t)
  {
    TextInfo(IsAsciiLetterOrDigit, AsciiToLower, AsciiToUpper)
  }
}
