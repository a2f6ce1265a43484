/** The parser's small shared helpers (everything of util.rs except `rest_of_file`). */
module Util {
  import opened Text
  import opened Combinators

  predicate IsLineFeedWhitespace(c: char) {
    c == '\n' || c == ' ' || c == '\t'
  }

  /**
   * `line_feed_whitespace`: never fails, and consumes the longest prefix of
   * line feeds, spaces and tabs; a carriage return is not part of it.
   */
  function LineFeedWhitespace(s: seq<char>): (r: Parsed<seq<char>>)
    ensures r.Ok? && r.value + r.rest == s && IsSuffix(r.rest, s)
    ensures forall i | 0 <= i < |r.value| :: r.value[i] in "\n \t"
    ensures r.rest == [] || r.rest[0] !in "\n \t"
  {
    TakeWhile(IsLineFeedWhitespace, s)
  }

  /**
   * `concat`: joins the texts of a parsed pair and keeps the remainder; a
   * failure passes through as it came.
   */
  function Concat(i: Parsed<(seq<char>, seq<char>)>): (r: Parsed<seq<char>>)
    ensures r.Ok? <==> i.Ok?
    ensures r.Ok? ==> r.rest == i.rest && r.value == i.value.0 + i.value.1
    ensures r.Err? <==> i.Err?
  {
    if !i.Ok? then i.PropagateFailure() else Ok(i.value.0 + i.value.1, i.rest)
  }

  /** `c as u8`: the low eight bits of the code point. */
  function LowByte(c: char): (b: nat)
    ensures b < 0x100
  {
    (c as int) % 0x100
  }

  /** `nom::character::is_digit` on a byte. */
  predicate IsDigitByte(b: nat) {
    0x30 <= b <= 0x39
  }

  /** `nom::character::is_alphabetic` on a byte. */
  predicate IsAlphaByte(b: nat) {
    (0x41 <= b <= 0x5A) || (0x61 <= b <= 0x7A)
  }

  /** `is_char_digit`. */
  predicate IsCharDigit(c: char) {
    IsDigitByte(LowByte(c))
  }

  /** `is_char_alphanumeric`. */
  predicate IsCharAlphanumeric(c: char) {
    IsAlphaByte(LowByte(c)) || IsDigitByte(LowByte(c))
  }

  /** `is_char_valid_ident_mid`. */
  predicate IsCharValidIdentMid(c: char) {
    IsCharAlphanumeric(c) || c == '_'
  }

  /** On ASCII input the byte classifiers agree with the character classes. */
  lemma AsciiClassesAgree(c: char)
    requires (c as int) < 0x80
    ensures IsCharDigit(c) <==> IsAsciiDigit(c)
    ensures IsCharAlphanumeric(c) <==> IsAsciiDigit(c) || IsAlphabetic(c)
    ensures IsCharValidIdentMid(c) <==> IsAsciiDigit(c) || IsAlphabetic(c) || c == '_'
  {
    assert LowByte(c) == c as int;
  }

  /**
   * Beyond ASCII only the low byte counts: U+0131 (dotless i) is
   * classified as the digit `1`, and U+0141 (L with stroke) as the letter `A`.
   */
  lemma LowByteAliasing()
    ensures IsCharDigit('\U{0131}') && !IsAsciiDigit('\U{0131}')
    ensures IsCharAlphanumeric('\U{0141}') && !IsAlphabetic('\U{0141}')
  {
  }
}
