/**
 * What the schema validators share: the issues they report and the way
 * JavaScript measures a string.
 */
module Forms {

  /** One rejected rule: the path of the field and the message shown for it. */
  datatype Issue = Issue(path: string, message: string)

  /**
   * The length of a string as JavaScript's `length` counts it: in UTF-16
   * code units, so a character outside the Basic Multilingual Plane counts
   * twice. Minimum-length rules compare against this number.
   */
  function Utf16Length(s: string): (n: nat)
  {
    if s == [] then 0 else Utf16Length(s[..|s| - 1]) + (if s[|s| - 1] as int > 0xFFFF then 2 else 1)
  }

  lemma {:induction false} Utf16LengthBounds(s: string)
    ensures |s| <= Utf16Length(s) <= 2 * |s|
  {
    if s != [] {
      Utf16LengthBounds(s[..|s| - 1]);
    }
  }

  /** A string is empty exactly when JavaScript reports length zero. */
  lemma Utf16LengthZero(s: string)
    ensures Utf16Length(s) == 0 <==> s == []
  {
    Utf16LengthBounds(s);
  }

  /** Characters JavaScript's `\s` matches: WhiteSpace and LineTerminator of ECMAScript. */
  predicate IsJsWhitespace(c: char)
  {
    || c == '\t' || c == '\n' || c == '\U{000B}' || c == '\U{000C}' || c == '\r' || c == ' '
    || c == '\U{00A0}' || c == '\U{1680}' || ('\U{2000}' <= c <= '\U{200A}')
    || c == '\U{2028}' || c == '\U{2029}' || c == '\U{202F}' || c == '\U{205F}'
    || c == '\U{3000}' || c == '\U{FEFF}'
  }

  predicate IsAsciiUpper(c: char) { 'A' <= c <= 'Z' }
  predicate IsAsciiLower(c: char) { 'a' <= c <= 'z' }
  predicate IsAsciiDigit(c: char) { '0' <= c <= '9' }
  predicate IsAsciiLetter(c: char) { IsAsciiUpper(c) || IsAsciiLower(c) }
}
