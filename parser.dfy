/**
 * The grammar: the rules of `parser/mod.rs` and `parser/ops.rs`, which
 * call each other through `token`, so they form one module. Each rule
 * takes the remaining input and returns a value and what it left, a
 * mismatch, or a panic.
 *
 * Termination: every rule decreases the pair (input length, rank). A rule
 * that calls another on the same input has the higher rank; every call
 * back into `token` is on a strictly shorter remainder.
 */
module Parser {
  import opened Text
  import opened Combinators
  import opened Util
  import opened Syntax
  import W = Wrappers
  import Literals
  import Brackets

  /** A rule that succeeds leaves at most the input it was given. */
  predicate Shrinks<T>(r: Parsed<T>, s: seq<char>) {
    r.Ok? ==> |r.rest| <= |s|
  }

  /** The input starts with `mut` and at least one space or tab. */
  predicate HasMutPrefix(s: seq<char>) {
    |s| > 3 && s[..3] == "mut" && IsSpace(s[3])
  }

  /** `opt(pair(tag("mut"), space1))`: whether the prefix is there, and what follows it. */
  function OptMut(s: seq<char>): (r: Parsed<bool>)
    ensures r.Ok? && |r.rest| <= |s|
    ensures r.value <==> HasMutPrefix(s)
    ensures !r.value ==> r.rest == s
  {
    var m := Tag("mut", s);
    if m.Err? then Ok(false, s)
    else
      var sp := Space1(m.rest);
      if sp.Err? then Ok(false, s)
      else
        Ok(true, sp.rest)
  }

  /** `ident`: a non-empty run of letters. */
  function ParseIdent(s: seq<char>): (r: Parsed<seq<char>>)
    ensures !r.Panic? && Shrinks(r, s)
    ensures r.Ok? ==> |r.rest| < |s|
  {
    TakeWhile1(IsAlphabetic, s)
  }

  /** An identifier's text read again with `ident` is all taken, so `ident(..).unwrap()` gives it back. */
  lemma IdentReadBack(s: seq<char>)
    requires ParseIdent(s).Ok?
    ensures ParseIdent(ParseIdent(s).value) == Ok(ParseIdent(s).value, [])
  {
    var w := ParseIdent(s).value;
    TakeWhileSplit(IsAlphabetic, w, []);
    assert w + [] == w;
  }

  /** `opt(pair(ident, space0))`: a second identifier and the spaces after it, if there is one. */
  function OptIdentSpace(s: seq<char>): (r: Parsed<W.Option<seq<char>>>)
    ensures r.Ok? && |r.rest| <= |s|
    ensures r.value.None? ==> r.rest == s
  {
    var id := ParseIdent(s);
    if id.Err? then Ok(W.None, s)
    else
      var sp := Space0(id.rest);
      Ok(W.Some(id.value), sp.rest)
  }

  /** The identifier `opt(pair(ident, space0))` finds reads back as itself too. */
  lemma OptIdentReadBack(s: seq<char>)
    requires OptIdentSpace(s).value.Some?
    ensures ParseIdent(OptIdentSpace(s).value.value) == Ok(OptIdentSpace(s).value.value, [])
  {
    IdentReadBack(s);
  }

  /** The list separator `tuple((space0, tag(","), space0))`. */
  function ListSeparator(s: seq<char>): (r: Parsed<seq<char>>)
    ensures !r.Panic? && Shrinks(r, s)
    ensures r.Ok? ==> |r.rest| < |s|
  {
    var a := Space0(s);
    var comma :- Tag(",", a.rest);
    var b := Space0(comma.rest);
    Ok(",", b.rest)
  }

  /**
   * `param`: an optional `mut` and whitespace, a type identifier,
   * whitespace, and the parameter's identifier.
   */
  function ParseParam(s: seq<char>): (r: Parsed<Token>)
    ensures !r.Panic? && Shrinks(r, s)
    ensures r.Ok? ==> r.value.Param?
  {
    var m := OptMut(s);
    var ty :- ParseIdent(m.rest);
    var sp :- Space1(ty.rest);
    var id :- ParseIdent(sp.rest);
    Ok(Param(m.value, Ident(ty.value), Ident(id.value)), id.rest)
  }

  /** The loop of `separated_list0(separator, param)` after its first element. */
  function ParamTail(s: seq<char>): (r: Parsed<seq<Token>>)
    ensures r.Ok? && |r.rest| <= |s|
    ensures forall p | p in r.value :: p.Param?
    decreases |s|
  {
    var sep := ListSeparator(s);
    if sep.Err? then Ok([], s)
    else
      var p := ParseParam(sep.rest);
      if p.Err? then Ok([], s)
      else
        var tail := ParamTail(p.rest);
        Ok([p.value] + tail.value, tail.rest)
  }

  /** `separated_list0(separator, param)`: possibly no parameters at all. */
  function ParamList(s: seq<char>): (r: Parsed<seq<Token>>)
    ensures r.Ok? && |r.rest| <= |s|
    ensures forall p | p in r.value :: p.Param?
  {
    var p := ParseParam(s);
    if p.Err? then Ok([], s)
    else
      var tail := ParamTail(p.rest);
      Ok([p.value] + tail.value, tail.rest)
  }

  /** `method_unit` is dispatched by `token`, but no rule of that name is defined: it always mismatches. */
  function ParseMethodUnit(s: seq<char>): Parsed<Token> {
    Err
  }

  /** `parse`: the token of the whole input; `unwrap` cannot fail because `token` never mismatches. */
  function Parse(s: seq<char>): (r: Parsed<Token>)
    ensures !r.Err?
  {
    Unwrap(ParseToken(s))
  }

  /** `rest_of_file`: `token`, else the whole remainder as `None`. */
  function RestOfFile(s: seq<char>): (r: Parsed<Token>)
    ensures !r.Err? && Shrinks(r, s)
    decreases |s|, 11
  {
    Alt(ParseToken(s), Ok(None, []))
  }

  /**
   * `token`: the alternatives in their fixed order; the last one takes
   * the whole remainder as `None`, so `token` never mismatches.
   */
  function ParseToken(s: seq<char>): (r: Parsed<Token>)
    ensures !r.Err? && Shrinks(r, s)
    decreases |s|, 10
  {
    Alt(ParseMethodDef(s),
    Alt(ParseIfStmt(s),
    Alt(ParseAssignment(s),
    Alt(ParseMethod(s),
    Alt(ParseOps(s),
    Alt(ParseMethodUnit(s),
    Alt(ParseArray(s),
    Alt(ParseIdent(s).Map(n => Ident(n)),
    Alt(Literals.ParseLiteral(s).Map(l => Literal(l)),
        Ok(None, []))))))))))
  }

  /** `paren`: a token between `(` and `)`, with optional spaces inside. */
  function ParseParen(s: seq<char>): (r: Parsed<Token>)
    ensures Shrinks(r, s)
    ensures r.Ok? ==> |s| > 0 && s[0] == '('
    ensures (|s| == 0 || s[0] != '(') ==> r.Err?
    decreases |s|, 4
  {
    var open :- Tag("(", s);
    PrefixSplit("(", s);
    var a := Space0(open.rest);
    var t :- ParseToken(a.rest);
    var b := Space0(t.rest);
    var close :- Tag(")", b.rest);
    Ok(t.value, close.rest)
  }

  /** `singleton`: a parenthesised token, an identifier, or a literal. */
  function ParseSingleton(s: seq<char>): (r: Parsed<Token>)
    ensures Shrinks(r, s)
    ensures |s| > 0 && IsAlphabetic(s[0]) ==> r == Ok(Ident(ParseIdent(s).value), ParseIdent(s).rest)
    ensures |s| > 0 && IsAsciiDigit(s[0]) ==>
      && (r.Ok? <==> Literals.ParseLiteral(s).Ok?)
      && (r.Ok? ==> r == Ok(Literal(Literals.ParseLiteral(s).value), Literals.ParseLiteral(s).rest))
    decreases |s|, 5
  {
    Alt(ParseParen(s),
    Alt(ParseIdent(s).Map(n => Ident(n)),
        Literals.ParseLiteral(s).Map(l => Literal(l))))
  }

  /** `interop!`: two singletons around the operator `sym`, with optional spaces. */
  function Interop(sym: seq<char>, s: seq<char>): (r: Parsed<Token>)
    requires sym in Symbols
    ensures Shrinks(r, s)
    ensures r.Ok? ==> r.value.Op? && Symbol(r.value.op) == sym
    ensures r.Ok? ==> ParseSingleton(s).Ok? && r.value.op.l == ParseSingleton(s).value
    decreases |s|, 7
  {
    var left :- ParseSingleton(s);
    InteropRight(sym, left.value, left.rest)
  }

  /** The rest of `interop!` after its left operand `l`: spaces, the operator, spaces, the right operand. */
  function InteropRight(sym: seq<char>, l: Token, s: seq<char>): (r: Parsed<Token>)
    requires sym in Symbols
    ensures Shrinks(r, s)
    ensures r.Ok? ==> r.value.Op? && Symbol(r.value.op) == sym && r.value.op.l == l
    decreases |s|, 6
  {
    var a := Space0(s);
    var op :- Tag(sym, a.rest);
    var b := Space0(op.rest);
    var right :- ParseSingleton(b.rest);
    Ok(Op(OpFor(sym, l, right.value)), right.rest)
  }

  /** The six symbols `comparison` tries, in its order. */
  const ComparisonSymbols: seq<seq<char>> := ["==", "!=", ">=", "<=", ">", "<"]

  /** `comparison`: the two-character operators before `>` and `<`. */
  function ParseComparison(s: seq<char>): (r: Parsed<Token>)
    ensures Shrinks(r, s)
    ensures r.Ok? ==> r.value.Op? && Symbol(r.value.op) in ComparisonSymbols
    decreases |s|, 8
  {
    Alt(Interop("==", s),
    Alt(Interop("!=", s),
    Alt(Interop(">=", s),
    Alt(Interop("<=", s),
    Alt(Interop(">", s),
        Interop("<", s))))))
  }

  /** `ops`: subtraction, then addition, then a comparison. */
  function ParseOps(s: seq<char>): (r: Parsed<Token>)
    ensures Shrinks(r, s)
    ensures r.Ok? ==> r.value.Op?
    decreases |s|, 9
  {
    Alt(Interop("-", s),
    Alt(Interop("+", s),
        ParseComparison(s)))
  }

  /** `method`: a singleton, `;`, and the token it is applied to. */
  function ParseMethod(s: seq<char>): (r: Parsed<Token>)
    ensures Shrinks(r, s)
    ensures r.Ok? ==> r.value.Method? && ParseSingleton(s).Ok? && r.value.receiver == ParseSingleton(s).value
    decreases |s|, 9
  {
    var receiver :- ParseSingleton(s);
    var a := Space0(receiver.rest);
    var semi :- Tag(";", a.rest);
    var b := Space0(semi.rest);
    var call :- ParseToken(b.rest);
    Ok(Method(receiver.value, call.value), call.rest)
  }

  /** The loop of `separated_list1(separator, token)` after its first element. */
  function ArrayTail(s: seq<char>): (r: Parsed<seq<Token>>)
    ensures !r.Err? && Shrinks(r, s)
    ensures r.Ok? ==> (r.value == [] <==> ListSeparator(s).Err?)
    ensures r.Ok? && r.value == [] ==> r.rest == s
    ensures r.Ok? && r.value != [] ==> ListSeparator(s).Ok?
    decreases |s|, 0
  {
    var sep := ListSeparator(s);
    if sep.Err? then Ok([], s)
    else
      var t := ParseToken(sep.rest);
      if !t.Ok? then Panic
      else
        var tail := ArrayTail(t.rest);
        if !tail.Ok? then Panic
        else Ok([t.value] + tail.value, tail.rest)
  }

  /** `array`: one or more comma-separated tokens between `[` and `]`. */
  function ParseArray(s: seq<char>): (r: Parsed<Token>)
    ensures Shrinks(r, s)
    ensures r.Ok? ==> |s| > 0 && s[0] == '[' && r.value.Array? && |r.value.elems| >= 1
    decreases |s|, 9
  {
    var open :- Tag("[", s);
    PrefixSplit("[", s);
    var a := Space0(open.rest);
    var first :- ParseToken(a.rest);
    ArrayClose(first.value, first.rest)
  }

  /** The rest of `array` after its first element `x`: further elements, then `]`. */
  function ArrayClose(x: Token, s: seq<char>): (r: Parsed<Token>)
    ensures Shrinks(r, s)
    ensures r.Ok? ==> r.value.Array? && |r.value.elems| >= 1 && r.value.elems[0] == x
    decreases |s|, 1
  {
    var tail :- ArrayTail(s);
    var b := Space0(tail.rest);
    var close :- Tag("]", b.rest);
    Ok(Array([x] + tail.value), close.rest)
  }

  /**
   * `bracket_group`: the text up to the `}` that closes the leading `{`
   * is parsed as one token, after line-feed whitespace is skipped; what
   * that token leaves inside the braces is dropped, and the remainder
   * starts right after the `}`.
   */
  function ParseBracketGroup(s: seq<char>): (r: Parsed<Token>)
    ensures Shrinks(r, s)
    decreases |s|, 9
  {
    if s == [] || s[0] != '{' then Err
    else
      var close := Brackets.ClosingBrace(s);
      if close.None? then Err else GroupAt(s, close.value)
  }

  /** The brace group of `s` that the `}` at position `u` closes. */
  function GroupAt(s: seq<char>, u: nat): (r: Parsed<Token>)
    requires 1 <= u < |s|
    ensures Shrinks(r, s)
    decreases |s|, 8
  {
    var a := LineFeedWhitespace(s[1..u]);
    var t :- ParseToken(a.rest);
    Ok(t.value, s[u + 1..])
  }

  /**
   * `method_def`: `|params|`, a brace group, line-feed whitespace and the
   * rest of the program.
   */
  function ParseMethodDef(s: seq<char>): (r: Parsed<Token>)
    ensures Shrinks(r, s)
    ensures r.Ok? ==>
      && |s| > 0 && s[0] == '|' && r.value.FnPair?
      && forall p | p in r.value.params.tokens :: p.Param?
    decreases |s|, 9
  {
    var open :- Tag("|", s);
    PrefixSplit("|", s);
    var a := Space0(open.rest);
    var params := ParamList(a.rest);
    var b := Space0(params.rest);
    var close :- Tag("|", b.rest);
    var c := Space0(close.rest);
    var block :- ParseBracketGroup(c.rest);
    var d := LineFeedWhitespace(block.rest);
    var after :- RestOfFile(d.rest);
    Ok(FnPair(TonsOfTokens(params.value), block.value, after.value), after.rest)
  }

  /** `ifstmt`: `if`, a comparison, a brace group, and the rest of the program. */
  function ParseIfStmt(s: seq<char>): (r: Parsed<Token>)
    ensures Shrinks(r, s)
    ensures r.Ok? ==>
      && "if" <= s && r.value.CondPair? && r.value.cond.IfStmt?
      && r.value.cond.cond.Op? && Symbol(r.value.cond.cond.op) in ComparisonSymbols
    decreases |s|, 9
  {
    var kw :- Tag("if", s);
    PrefixSplit("if", s);
    var a := Space0(kw.rest);
    var cond :- ParseComparison(a.rest);
    var b := Space0(cond.rest);
    var block :- ParseBracketGroup(b.rest);
    var d := LineFeedWhitespace(block.rest);
    var after :- RestOfFile(d.rest);
    Ok(CondPair(IfStmt(cond.value), block.value, after.value), after.rest)
  }

  /**
   * `assignment`: an optional `mut`, one or two identifiers (a type and a
   * name, or just a name), `=`, the value, and the rest of the program.
   * The identifiers are read again with `ident(..).unwrap()`.
   */
  function ParseAssignment(s: seq<char>): (r: Parsed<Token>)
    ensures Shrinks(r, s)
    ensures r.Ok? ==>
      && r.value.Pair? && r.value.first.Assignment?
      && (r.value.first.mutable <==> HasMutPrefix(s))
      && r.value.first.ident.Ident?
      && var first := ParseIdent(OptMut(s).rest);
      && first.Ok?
      && if r.value.first.typeAnnotation.Some?
         then r.value.first.typeAnnotation.value == Ident(first.value)
         else r.value.first.ident == Ident(first.value)
    decreases |s|, 9
  {
    var m := OptMut(s);
    var first :- ParseIdent(m.rest);
    var a := Space0(first.rest);
    var second := OptIdentSpace(a.rest);
    var eq :- Tag("=", second.rest);
    var b := Space0(eq.rest);
    var value :- ParseToken(b.rest);
    var lf := LineFeedWhitespace(value.rest);
    var after :- RestOfFile(lf.rest);
    IdentReadBack(m.rest);
    if second.value.Some? then
      OptIdentReadBack(a.rest);
      AssignmentToken(m.value, first.value, second.value, value.value, after.value, after.rest)
    else
      AssignmentToken(m.value, first.value, second.value, value.value, after.value, after.rest)
  }

  /**
   * The pair `assignment` builds from its parts. With two identifiers the
   * first is the type annotation and the second the name; with one, it is
   * the name. Each is read again with `ident(..).unwrap()`, which gives the
   * identifier back whenever it is one.
   */
  function AssignmentToken(mutable: bool, first: seq<char>, second: W.Option<seq<char>>,
                           value: Token, after: Token, rest: seq<char>): (r: Parsed<Token>)
    ensures !r.Err?
    ensures ParseIdent(first) == Ok(first, []) && (second.Some? ==> ParseIdent(second.value) == Ok(second.value, [])) ==>
      r == Ok(Pair(Assignment(mutable,
                              if second.Some? then W.Some(Ident(first)) else W.None,
                              Ident(if second.Some? then second.value else first), value), after), rest)
  {
    if second.Some? then
      var annotation := Unwrap(ParseIdent(first));
      var name := Unwrap(ParseIdent(second.value));
      if !annotation.Ok? || !name.Ok? then Panic
      else Ok(Pair(Assignment(mutable, W.Some(Ident(annotation.value)), Ident(name.value), value), after), rest)
    else
      var name := Unwrap(ParseIdent(first));
      if !name.Ok? then Panic
      else Ok(Pair(Assignment(mutable, W.None, Ident(name.value), value), after), rest)
  }
}
