/**
 * `bracket_group` as the source writes it: a walk over the characters
 * with a mutable nesting counter and an early return at the closing
 * brace. It computes exactly the rule `Parser.ParseBracketGroup`.
 */
module BracketScan {
  import opened Combinators
  import opened Util
  import opened Syntax
  import opened Brackets
  import opened Parser

  method BracketGroup(s: seq<char>) returns (r: Parsed<Token>)
    ensures r == ParseBracketGroup(s)
  {
    if s == [] || s[0] != '{' {
      return Err;
    }
    var level := 1;
    for u := 0 to |s|
      invariant u == 0 ==> level == 1
      invariant 1 <= u ==> level == Level(s, u)
      invariant forall v | 1 <= v < u :: !Closes(s, v)
    {
      if u == 0 {
        continue;
      }
      var c := s[u];
      if c == '{' {
        level := level + 1;
      } else if c == '}' {
        if level == 1 {
          ClosingBraceAt(s, u);
          var inner := LineFeedWhitespace(s[1..u]);
          var t := ParseToken(inner.rest);
          if !t.Ok? {
            return t.PropagateFailure();
          }
          return Ok(t.value, s[u + 1..]);
        } else {
          level := level - 1;
        }
      }
    }
    BracketGroupUnclosed(s);
    return Err;
  }

  /** A group that no `}` closes is a mismatch. */
  lemma BracketGroupUnclosed(s: seq<char>)
    requires |s| > 0 && forall v | 1 <= v < |s| :: !Closes(s, v)
    ensures ParseBracketGroup(s).Err?
  {
  }

  /**
   * The group ends at the first `}` at which as many braces have been
   * closed as opened after the leading `{`, its value is the token parsed
   * from what lies between the braces once leading line feeds are
   * skipped, and the remainder starts right after the `}`; without a
   * leading `{` the rule mismatches, and a closed group whose inside
   * parses always succeeds.
   */
  lemma BracketGroupSpec(s: seq<char>)
    ensures s == [] || s[0] != '{' ==> ParseBracketGroup(s).Err?
    ensures ParseBracketGroup(s).Ok? ==>
      && s[0] == '{' && ClosingBrace(s).Some?
      && var u := ClosingBrace(s).value;
      && s[u] == '}'
      && Count(s[1..u], '{') == Count(s[1..u], '}')
      && ParseToken(LineFeedWhitespace(s[1..u]).rest).Ok?
      && ParseBracketGroup(s).value == ParseToken(LineFeedWhitespace(s[1..u]).rest).value
      && ParseBracketGroup(s).rest == s[u + 1..]
    ensures |s| > 0 && s[0] == '{' && ClosingBrace(s).Some? ==>
      var u := ClosingBrace(s).value;
      ParseToken(LineFeedWhitespace(s[1..u]).rest).Ok? ==> ParseBracketGroup(s).Ok?
  {
    if ParseBracketGroup(s).Ok? {
      LevelCounts(s, ClosingBrace(s).value);
    }
  }
}
