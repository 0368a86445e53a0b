/**
 * The Unicode classification that identifier.go relies on (`unicode.IsLetter`,
 * `IsDigit`, `IsUpper`, `IsSpace`, `ToLower`), stated exactly for the code
 * points U+0000 to U+00FF (ASCII and Latin-1). Every code point above U+00FF
 * is classified as a non-letter, non-digit, non-space character that
 * lower-casing leaves alone.
 */
module Runes {

  /** unicode.MaxASCII */
  const MaxASCII: int := 0x7F

  predicate IsDigit(c: char)
  {
    '0' <= c <= '9'
  }

  /** Upper-case letters: A-Z and U+00C0-U+00DE without the multiplication sign U+00D7. */
  predicate IsUpper(c: char)
  {
    'A' <= c <= 'Z' || (0xC0 <= c as int <= 0xDE && c as int != 0xD7)
  }

  /** Lower-case letters: a-z, the micro sign U+00B5 and U+00DF-U+00FF without the division sign U+00F7. */
  predicate IsLower(c: char)
  {
    'a' <= c <= 'z' || c as int == 0xB5 || (0xDF <= c as int <= 0xFF && c as int != 0xF7)
  }

  /** Letters: upper and lower case, plus the ordinal indicators U+00AA and U+00BA. */
  predicate IsLetter(c: char)
  {
    IsUpper(c) || IsLower(c) || c as int == 0xAA || c as int == 0xBA
  }

  /** White space: tab to carriage return, ' ', U+0085 and U+00A0. */
  predicate IsSpace(c: char)
  {
    '\t' <= c <= '\r' || c == ' ' || c as int == 0x85 || c as int == 0xA0
  }

  /** unicode.ToLower: every upper-case letter moves 0x20 down the table; everything else stays. */
  function ToLower(c: char): (r: char)
    ensures !IsUpper(r)
    ensures IsUpper(c) ==> IsLower(r)
    ensures !IsUpper(c) ==> r == c
    ensures IsLetter(r) == IsLetter(c) && IsDigit(r) == IsDigit(c)
    ensures c as int <= MaxASCII <==> r as int <= MaxASCII
  {
    if IsUpper(c) then (c as int + 0x20) as char else c
  }

  /** strings.ToLower: ToLower on every character. */
  function ToLowerString(s: string): (r: string)
    ensures |r| == |s|
    ensures forall i | 0 <= i < |r| :: !IsUpper(r[i])
  {
    seq(|s|, i requires 0 <= i < |s| => ToLower(s[i]))
  }
}
