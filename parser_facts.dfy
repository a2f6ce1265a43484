/** What the grammar rules promise, stated about the rules of module `Parser`. */
module ParserFacts {
  import opened Text
  import opened Combinators
  import opened Util
  import opened Syntax
  import opened Parser
  import W = Wrappers
  import Literals
  import Brackets

  /** A non-empty run of letters: what `ident` returns. */
  predicate Word(w: seq<char>) {
    |w| > 0 && forall i | 0 <= i < |w| :: IsAlphabetic(w[i])
  }

  /** A character that no literal can start with. */
  predicate NotLiteralStart(c: char) {
    c != '"' && c != '-' && !IsAsciiDigit(c)
  }

  /** A literal starts with a quote, a minus sign or a digit; `int` never skips leading whitespace. */
  lemma LiteralNeedsStart(s: seq<char>)
    requires s == [] || NotLiteralStart(s[0])
    ensures Literals.ParseLiteral(s).Err?
  {
    assert Literals.ParseInt(s).Err?;
    Literals.StrictIntChoice(s);
  }

  /** `ident` takes exactly the leading run of letters, and fails when there is none. */
  lemma IdentSpec(s: seq<char>)
    ensures ParseIdent(s).Ok? <==> |s| > 0 && IsAlphabetic(s[0])
    ensures ParseIdent(s).Ok? ==>
      var r := ParseIdent(s);
      Word(r.value) && r.value + r.rest == s && (r.rest == [] || !IsAlphabetic(r.rest[0]))
  {
  }

  /** A word followed by a non-letter is read by `ident` as that word. */
  lemma IdentOfWord(w: seq<char>, rest: seq<char>)
    requires Word(w)
    requires rest == [] || !IsAlphabetic(rest[0])
    ensures ParseIdent(w + rest) == Ok(w, rest)
  {
    TakeWhileSplit(IsAlphabetic, w, rest);
  }

  /**
   * Reading an identifier's text again with `ident(..).unwrap()` gives it
   * back, so the re-parse in `assignment` never panics.
   */
  lemma ReparseIdent(w: seq<char>)
    requires Word(w)
    ensures ParseIdent(w) == Ok(w, [])
  {
    IdentOfWord(w, []);
    assert w + [] == w;
  }

  /** `singleton` fails on input that cannot start a parenthesis, an identifier or a literal. */
  lemma SingletonNeedsStart(s: seq<char>)
    requires s == [] || (s[0] != '(' && !IsAlphabetic(s[0]) && NotLiteralStart(s[0]))
    ensures ParseSingleton(s).Err?
  {
    LiteralNeedsStart(s);
  }

  /** Every binary rule starts with a singleton, so it fails where the singleton fails. */
  lemma InteropNeedsSingleton(sym: seq<char>, s: seq<char>)
    requires sym in Symbols && ParseSingleton(s).Err?
    ensures Interop(sym, s).Err?
  {
  }

  lemma OpsNeedSingleton(s: seq<char>)
    requires ParseSingleton(s).Err?
    ensures ParseOps(s).Err? && ParseComparison(s).Err?
  {
    InteropNeedsSingleton("-", s);
    InteropNeedsSingleton("+", s);
    InteropNeedsSingleton("==", s);
    InteropNeedsSingleton("!=", s);
    InteropNeedsSingleton(">=", s);
    InteropNeedsSingleton("<=", s);
    InteropNeedsSingleton(">", s);
    InteropNeedsSingleton("<", s);
  }

  /** The eight binary rules applied to `s`, in the order `ops` tries them: `-`, `+`, then those of `comparison`. */
  function OpsRules(s: seq<char>): (r: seq<Parsed<Token>>)
    ensures |r| == 8
  {
    [Interop("-", s), Interop("+", s),
     Interop("==", s), Interop("!=", s), Interop(">=", s), Interop("<=", s), Interop(">", s), Interop("<", s)]
  }

  /**
   * `ops` is its first binary rule that does not mismatch: when the rules
   * before position `k` all mismatch and rule `k` does not, it is whatever
   * rule `k` gives, a panic included.
   */
  lemma OpsFirstRule(s: seq<char>, k: nat)
    requires k < 8 && (forall j | 0 <= j < k :: OpsRules(s)[j].Err?) && !OpsRules(s)[k].Err?
    ensures ParseOps(s) == OpsRules(s)[k]
  {
    var r := OpsRules(s);
    assert ParseOps(s) == Alt(r[0], Alt(r[1], Alt(r[2], Alt(r[3], Alt(r[4], Alt(r[5], Alt(r[6], r[7])))))));
    AltOfEight(r, k);
  }

  /** When all eight binary rules mismatch, `ops` mismatches. */
  lemma OpsNoRule(s: seq<char>)
    requires forall j | 0 <= j < 8 :: OpsRules(s)[j].Err?
    ensures ParseOps(s).Err?
  {
    var r := OpsRules(s);
    assert ParseOps(s) == Alt(r[0], Alt(r[1], Alt(r[2], Alt(r[3], Alt(r[4], Alt(r[5], Alt(r[6], r[7])))))));
    assert r[0].Err? && r[1].Err? && r[2].Err? && r[3].Err?;
    assert r[4].Err? && r[5].Err? && r[6].Err? && r[7].Err?;
  }

  /** Eight alternatives tried in turn give the first that does not mismatch. */
  lemma AltOfEight<T>(r: seq<Parsed<T>>, k: nat)
    requires |r| == 8 && k < 8 && (forall j | 0 <= j < k :: r[j].Err?) && !r[k].Err?
    ensures Alt(r[0], Alt(r[1], Alt(r[2], Alt(r[3], Alt(r[4], Alt(r[5], Alt(r[6], r[7]))))))) == r[k]
  {
    if k > 0 { assert r[0].Err?; }
    if k > 1 { assert r[1].Err?; }
    if k > 2 { assert r[2].Err?; }
    if k > 3 { assert r[3].Err?; }
    if k > 4 { assert r[4].Err?; }
    if k > 5 { assert r[5].Err?; }
    if k > 6 { assert r[6].Err?; }
  }

  /** `method` starts with a singleton too. */
  lemma MethodNeedsSingleton(s: seq<char>)
    requires ParseSingleton(s).Err?
    ensures ParseMethod(s).Err?
  {
  }

  /** When every rule before it mismatches, `token` takes the whole input as `None`. */
  lemma TokenFallsBack(s: seq<char>)
    requires NoStatement(s) && NoCompound(s)
    requires ParseIdent(s).Err? && Literals.ParseLiteral(s).Err?
    ensures ParseToken(s) == Ok(None, [])
  {
  }

  /** Function definitions, `if` statements and arrays start with a fixed character. */
  lemma KeywordRulesNeedStart(s: seq<char>)
    requires s == [] || (s[0] != '|' && s[0] != 'i' && s[0] != '[')
    ensures ParseMethodDef(s).Err? && ParseIfStmt(s).Err? && ParseArray(s).Err?
  {
    assert ParseMethodDef(s).Err? by { assert Tag("|", s).Err?; }
    assert ParseIfStmt(s).Err? by { assert Tag("if", s).Err?; }
    assert ParseArray(s).Err? by { assert Tag("[", s).Err?; }
  }

  /** `assignment` needs an identifier, after an optional `mut`. */
  lemma AssignmentNeedsIdent(s: seq<char>)
    requires s == [] || (!IsAlphabetic(s[0]))
    ensures ParseAssignment(s).Err?
  {
    assert OptMut(s).rest == s;
  }

  /**
   * `token` does not skip leading whitespace: on input that is empty or
   * starts with whitespace every rule fails, and the fallback takes the
   * whole input as `None`.
   */
  lemma TokenAtWhitespace(s: seq<char>)
    requires s == [] || IsWhitespace(s[0])
    ensures ParseToken(s) == Ok(None, [])
    ensures RestOfFile(s) == Ok(None, [])
  {
    StatementRulesFailAtSpace(s);
    CompoundRulesFailAtSpace(s);
    OperandsFailAtSpace(s);
    TokenFallsBack(s);
    RestOfFileIsToken(s);
  }

  lemma StatementRulesFailAtSpace(s: seq<char>)
    requires s == [] || IsWhitespace(s[0])
    ensures NoStatement(s)
  {
    AssignmentNeedsIdent(s);
    KeywordRulesNeedStart(s);
  }

  /** No rule of `token` starts with a whitespace character. */
  lemma WhitespaceStartsNothing(c: char)
    requires IsWhitespace(c)
    ensures c != '(' && c != '|' && c != 'i' && c != '['
    ensures !IsAlphabetic(c) && NotLiteralStart(c)
  {
  }

  lemma OperandsFailAtSpace(s: seq<char>)
    requires s == [] || IsWhitespace(s[0])
    ensures ParseIdent(s).Err? && Literals.ParseLiteral(s).Err?
  {
    IdentNeedsLetter(s);
    LiteralNeedsStart(s);
  }

  lemma CompoundRulesFailAtSpace(s: seq<char>)
    requires s == [] || IsWhitespace(s[0])
    ensures NoCompound(s)
  {
    if s != [] {
      WhitespaceStartsNothing(s[0]);
    }
    SingletonNeedsStart(s);
    KeywordRulesNeedStart(s);
    CompoundRulesNeedSingleton(s);
  }

  /** Without a singleton first, neither a chain nor an operation matches. */
  lemma CompoundRulesNeedSingleton(s: seq<char>)
    requires ParseSingleton(s).Err? && ParseArray(s).Err?
    ensures NoCompound(s)
  {
    OpsNeedSingleton(s);
    MethodNeedsSingleton(s);
  }

  /** `rest_of_file` is `token`, since `token` never reports a mismatch. */
  lemma RestOfFileIsToken(s: seq<char>)
    ensures RestOfFile(s) == ParseToken(s)
  {
  }

  /** The text a binary rule finds its operator in: what follows the left operand and its spaces. */
  function OperatorText(s: seq<char>): seq<char>
    requires ParseSingleton(s).Ok?
  {
    Space0(ParseSingleton(s).rest).rest
  }

  /** An operator that the text does not start with is not matched there. */
  lemma InteropNeedsOperator(sym: seq<char>, s: seq<char>)
    requires sym in Symbols && ParseSingleton(s).Ok?
    requires !(sym <= OperatorText(s))
    ensures Interop(sym, s).Err?
  {
  }

  /**
   * `comparison` tries `>=` before `>`: where `>=` matches, the result is
   * that `Gte`, never a `Gt`.
   */
  lemma ComparisonPrefersGte(s: seq<char>)
    requires Interop(">=", s).Ok?
    ensures ParseComparison(s) == Interop(">=", s)
    ensures ParseComparison(s).value.op.Gte?
  {
    var t := OperatorText(s);
    assert ">=" <= t;
    assert t[0] == '>';
    InteropNeedsOperator("==", s);
    InteropNeedsOperator("!=", s);
    SymbolDetermines(Interop(">=", s).value.op, Gte(Ident([]), Ident([])));
  }

  /** Likewise `<=` is tried before `<`. */
  lemma ComparisonPrefersLte(s: seq<char>)
    requires Interop("<=", s).Ok?
    ensures ParseComparison(s) == Interop("<=", s)
    ensures ParseComparison(s).value.op.Lte?
  {
    var t := OperatorText(s);
    assert "<=" <= t;
    assert t[0] == '<';
    InteropNeedsOperator("==", s);
    InteropNeedsOperator("!=", s);
    InteropNeedsOperator(">=", s);
    SymbolDetermines(Interop("<=", s).value.op, Lte(Ident([]), Ident([])));
  }

  /** Two operations with the same symbol are the same kind of operation. */
  lemma SymbolDetermines(o: Op, p: Op)
    requires Symbol(o) == Symbol(p)
    ensures o == OpFor(Symbol(p), o.l, o.r)
  {
  }

  /**
   * `param`: on success the parameter is mutable exactly when the input
   * starts with `mut` and whitespace, and both the type and the name are
   * identifiers.
   */
  lemma ParamShape(s: seq<char>)
    ensures ParseParam(s).Ok? ==>
      var p := ParseParam(s).value;
      && p.Param?
      && (p.mutable <==> HasMutPrefix(s))
      && p.annotation.Ident? && Word(p.annotation.name)
      && p.ident.Ident? && Word(p.ident.name)
  {
    var m := OptMut(s);
    IdentSpec(m.rest);
    var ty := ParseIdent(m.rest);
    if ty.Ok? {
      var sp := Space1(ty.rest);
      if sp.Ok? {
        IdentSpec(sp.rest);
      }
    }
  }

  /** The optional `mut ` prefix of a declaration. */
  function MutPrefix(m: bool): (r: seq<char>)
    ensures m ==> HasMutPrefix(r + "x")
  {
    if m then "mut " else ""
  }

  /** `mut` written out is only a type name when no second `mut` precedes it. */
  lemma NoMutPrefix(w: seq<char>, t: seq<char>)
    requires Word(w) && w != "mut"
    requires t == [] || !IsAlphabetic(t[0])
    ensures !HasMutPrefix(w + t)
  {
    if |w| > 3 {
      assert (w + t)[3] == w[3];
    } else if |w| == 3 {
      assert (w + t)[..3] == w;
    } else if t != [] {
      assert (w + t)[|w|] == t[0];
    }
  }

  /** `opt(pair(tag("mut"), space1))` takes exactly the written prefix before a letter. */
  lemma OptMutOf(m: bool, t: seq<char>)
    requires t != [] && IsAlphabetic(t[0])
    requires m || !HasMutPrefix(t)
    ensures OptMut(MutPrefix(m) + t) == Ok(m, t)
  {
    if m {
      var u := " " + t;
      var s := "mut" + u;
      assert MutPrefix(m) + t == s;
      assert s[..3] == "mut" && s[3..] == u;
      assert Tag("mut", s) == Ok("mut", u);
      TakeWhileSplit(IsSpace, " ", t);
      assert Space1(u) == Ok(" ", t);
    } else {
      assert MutPrefix(m) + t == t;
    }
  }

  /** `param` reads `[mut ]type name` followed by a non-letter as that parameter. */
  lemma ParamOfWords(m: bool, ty: seq<char>, id: seq<char>, rest: seq<char>)
    requires Word(ty) && Word(id) && (m || ty != "mut")
    requires rest == [] || !IsAlphabetic(rest[0])
    ensures ParseParam(MutPrefix(m) + ty + " " + id + rest) == Ok(Param(m, Ident(ty), Ident(id)), rest)
  {
    assert MutPrefix(m) + ty + " " + id + rest == MutPrefix(m) + (ty + (" " + (id + rest)));
    ParamOfParts(m, ty, id, rest);
  }

  lemma ParamOfParts(m: bool, ty: seq<char>, id: seq<char>, rest: seq<char>)
    requires Word(ty) && Word(id) && (m || ty != "mut")
    requires rest == [] || !IsAlphabetic(rest[0])
    ensures ParseParam(MutPrefix(m) + (ty + (" " + (id + rest)))) == Ok(Param(m, Ident(ty), Ident(id)), rest)
  {
    var u := id + rest;
    var v := " " + u;
    var t := ty + v;
    ParamHead(m, ty, v);
    ParamName(id, rest);
    ParamSteps(MutPrefix(m) + t, m, ty, " ", id, t, v, u, rest);
  }

  /** The optional `mut `, then the type, before a space. */
  lemma ParamHead(m: bool, ty: seq<char>, v: seq<char>)
    requires Word(ty) && (m || ty != "mut") && |v| > 0 && v[0] == ' '
    ensures OptMut(MutPrefix(m) + (ty + v)) == Ok(m, ty + v)
    ensures ParseIdent(ty + v) == Ok(ty, v)
  {
    if !m {
      NoMutPrefix(ty, v);
    }
    OptMutOf(m, ty + v);
    IdentOfWord(ty, v);
  }

  /** The space after the type, then the name. */
  lemma ParamName(id: seq<char>, rest: seq<char>)
    requires Word(id) && (rest == [] || !IsAlphabetic(rest[0]))
    ensures Space1(" " + (id + rest)) == Ok(" ", id + rest)
    ensures ParseIdent(id + rest) == Ok(id, rest)
  {
    TakeWhileSplit(IsSpace, " ", id + rest);
    IdentOfWord(id, rest);
  }

  /** `param` in sequence: the prefix, the type, the separating spaces, the name. */
  lemma ParamSteps(s: seq<char>, m: bool, ty: seq<char>, sp: seq<char>, id: seq<char>,
                   t: seq<char>, v: seq<char>, u: seq<char>, rest: seq<char>)
    requires OptMut(s) == Ok(m, t) && ParseIdent(t) == Ok(ty, v)
    requires Space1(v) == Ok(sp, u) && ParseIdent(u) == Ok(id, rest)
    ensures ParseParam(s) == Ok(Param(m, Ident(ty), Ident(id)), rest)
  {
  }

  /** A character that ends an operand without continuing it: a comma, a closing bracket or parenthesis, a line feed. */
  predicate Closer(c: char) {
    c == ',' || c == ']' || c == ')' || c == '\n'
  }

  /** A character at which no operator and no `=` can follow an operand: a closer or `;`. */
  predicate Stop(c: char) {
    Closer(c) || c == ';'
  }

  /** Before a stop character, and before a letter, `space0` takes nothing. */
  lemma Space0Before(t: seq<char>)
    requires t == [] || Stop(t[0]) || IsAlphabetic(t[0])
    ensures Space0(t) == Ok([], t)
  {
    Space0Split([], t);
    assert [] + t == t;
  }

  /** An operand followed by a stop character starts no binary operation. */
  lemma OpsFailAfterOperand(s: seq<char>, l: Token, t: seq<char>)
    requires ParseSingleton(s) == Ok(l, t) && (t == [] || Stop(t[0]))
    ensures ParseOps(s).Err? && ParseComparison(s).Err?
  {
    InteropFailsAfterOperand("-", s, l, t);
    InteropFailsAfterOperand("+", s, l, t);
    InteropFailsAfterOperand("==", s, l, t);
    InteropFailsAfterOperand("!=", s, l, t);
    InteropFailsAfterOperand(">=", s, l, t);
    InteropFailsAfterOperand("<=", s, l, t);
    InteropFailsAfterOperand(">", s, l, t);
    InteropFailsAfterOperand("<", s, l, t);
  }

  lemma InteropFailsAfterOperand(sym: seq<char>, s: seq<char>, l: Token, t: seq<char>)
    requires sym in Symbols
    requires ParseSingleton(s) == Ok(l, t) && (t == [] || Stop(t[0]))
    ensures Interop(sym, s).Err?
  {
    Space0Before(t);
    NoSymbolAtStop(t);
    InteropNeedsOperator(sym, s);
  }

  /** No operator symbol starts at a stop character. */
  lemma NoSymbolAtStop(t: seq<char>)
    requires t == [] || Stop(t[0])
    ensures forall sym | sym in Symbols :: !(sym <= t)
  {
    forall sym | sym in Symbols ensures !(sym <= t) {
      assert sym[0] in "+-=!<>";
    }
  }

  /** A word (or nothing) followed by a stop character is no binary operation. */
  lemma OpsFailBeforeStop(w: seq<char>, t: seq<char>)
    requires w == [] || Word(w)
    requires t == [] || Stop(t[0])
    ensures ParseOps(w + t).Err? && ParseComparison(w + t).Err?
  {
    var s := w + t;
    if w == [] {
      assert s == t;
      SingletonNeedsStart(s);
      OpsNeedSingleton(s);
    } else {
      IdentOfWord(w, t);
      assert s[0] == w[0];
      OpsFailAfterOperand(s, Ident(w), t);
    }
  }

  /** A word followed by a stop character is no `if` statement, even when the word starts with `if`. */
  lemma IfFailsBeforeStop(w: seq<char>, t: seq<char>)
    requires Word(w) && (t == [] || Stop(t[0]))
    ensures ParseIfStmt(w + t).Err?
  {
    if "if" <= w + t {
      IfWordParts(w, t);
      ComparisonFailsBeforeStop(w[2..], t);
      IfNeedsComparison(w + t);
    } else {
      IfNeedsKeyword(w + t);
    }
  }

  /** A word that starts with `if` before a stop: the rest of the word, then the stop. */
  lemma IfWordParts(w: seq<char>, t: seq<char>)
    requires Word(w) && (t == [] || Stop(t[0]))
    ensures "if" <= w + t ==> |w| >= 2 && (w + t)[2..] == w[2..] + t && (w[2..] == [] || Word(w[2..]))
  {
    var s := w + t;
    if |w| < 2 {
      if |s| >= 2 {
        assert s[1] == t[0];
      }
    } else {
      assert s[2..] == w[2..] + t;
    }
  }

  /** No comparison starts at a word (or nothing) before a stop, even after spaces. */
  lemma ComparisonFailsBeforeStop(v: seq<char>, t: seq<char>)
    requires (v == [] || Word(v)) && (t == [] || Stop(t[0]))
    ensures ParseComparison(Space0(v + t).rest).Err?
  {
    assert v + t == [] || Stop((v + t)[0]) || IsAlphabetic((v + t)[0]) by {
      if v != [] {
        assert (v + t)[0] == v[0];
      } else {
        assert v + t == t;
      }
    }
    Space0Before(v + t);
    OpsFailBeforeStop(v, t);
  }

  /** `if` needs its keyword. */
  lemma IfNeedsKeyword(s: seq<char>)
    requires !("if" <= s)
    ensures ParseIfStmt(s).Err?
  {
    assert Tag("if", s).Err?;
  }

  /** After `if` and its spaces a comparison must follow. */
  lemma IfNeedsComparison(s: seq<char>)
    requires "if" <= s && ParseComparison(Space0(s[2..]).rest).Err?
    ensures ParseIfStmt(s).Err?
  {
  }

  /** A word followed by a stop character is no assignment: no `=` follows it. */
  lemma AssignmentFailsBeforeStop(w: seq<char>, t: seq<char>)
    requires Word(w) && (t == [] || Stop(t[0]))
    ensures ParseAssignment(w + t).Err?
  {
    AssignmentHeadBeforeStop(w, t);
    AssignmentNeedsEquals(w + t, w, t);
  }

  /** A word before a stop: no `mut`, the word as the name, no second name, and no `=` after it. */
  lemma AssignmentHeadBeforeStop(w: seq<char>, t: seq<char>)
    requires Word(w) && (t == [] || Stop(t[0]))
    ensures ParseIdent(OptMut(w + t).rest) == Ok(w, t)
    ensures Tag("=", OptIdentSpace(Space0(t).rest).rest).Err?
  {
    NoMutBeforeStop(w, t);
    IdentOfWord(w, t);
    Space0Before(t);
    IdentNeedsLetter(t);
  }

  /** A word followed by a stop character does not start with `mut `. */
  lemma NoMutBeforeStop(w: seq<char>, t: seq<char>)
    requires Word(w) && (t == [] || Stop(t[0]))
    ensures !HasMutPrefix(w + t)
  {
    var s := w + t;
    if |s| > 3 {
      if |w| >= 4 {
        assert s[3] == w[3];
      } else if |w| == 3 {
        assert s[3] == t[0];
      } else {
        assert s[..3][|w|] == t[0];
      }
    }
  }

  /** `assignment` needs `=` after its identifiers. */
  lemma AssignmentNeedsEquals(s: seq<char>, w: seq<char>, b: seq<char>)
    requires ParseIdent(OptMut(s).rest) == Ok(w, b)
    requires Tag("=", OptIdentSpace(Space0(b).rest).rest).Err?
    ensures ParseAssignment(s).Err?
  {
  }

  /** A word followed by a closer is no method chain: no `;` follows it. */
  lemma MethodFailsBeforeCloser(w: seq<char>, t: seq<char>)
    requires Word(w) && (t == [] || Closer(t[0]))
    ensures ParseMethod(w + t).Err?
  {
    assert t == [] || !IsAlphabetic(t[0]);
    SingletonOfWord(w, t);
    Space0Before(t);
    MethodNeedsSemicolon(w + t, Ident(w), t);
  }

  /** None of the statement rules `token` tries first (function definition, `if`, assignment) matches. */
  predicate NoStatement(s: seq<char>) {
    ParseMethodDef(s).Err? && ParseIfStmt(s).Err? && ParseAssignment(s).Err?
  }

  /** None of the compound rules `token` tries next (chain, operation, array) matches. */
  predicate NoCompound(s: seq<char>) {
    ParseMethod(s).Err? && ParseOps(s).Err? && ParseArray(s).Err?
  }

  /** When the rules before it mismatch, `token` is what `ident` reads. */
  lemma TokenIsIdent(s: seq<char>)
    requires NoStatement(s) && NoCompound(s)
    requires ParseIdent(s).Ok?
    ensures ParseToken(s) == Ok(Ident(ParseIdent(s).value), ParseIdent(s).rest)
  {
  }

  /** When the rules before it mismatch, `token` is what `literal` reads. */
  lemma TokenIsLiteral(s: seq<char>)
    requires NoStatement(s) && NoCompound(s)
    requires ParseIdent(s).Err? && Literals.ParseLiteral(s).Ok?
    ensures ParseToken(s) == Ok(Literal(Literals.ParseLiteral(s).value), Literals.ParseLiteral(s).rest)
  {
  }

  /** A word followed by a closer is read by `token` as that identifier: every earlier rule fails. */
  lemma TokenOfWord(w: seq<char>, t: seq<char>)
    requires Word(w) && (t == [] || Closer(t[0]))
    ensures ParseToken(w + t) == Ok(Ident(w), t)
  {
    StatementRulesFailAtWord(w, t);
    OperandRulesAtWord(w, t);
    TokenIsIdent(w + t);
  }

  /** Before a closer, a word is no chain and no operation; it is an identifier, and no array starts there. */
  lemma OperandRulesAtWord(w: seq<char>, t: seq<char>)
    requires Word(w) && (t == [] || Closer(t[0]))
    ensures NoCompound(w + t) && ParseIdent(w + t) == Ok(w, t)
  {
    MethodFailsBeforeCloser(w, t);
    OpsFailBeforeStop(w, t);
    RulesFailAtLetter(w, t);
    IdentOfWord(w, t);
  }

  /** Digits followed by a closer, in a text without a `.`, are read by `token` as a vague integer. */
  lemma TokenOfDigits(d: seq<char>, t: seq<char>)
    requires |d| > 0 && AllDigits(d) && Literals.NoDot(t)
    requires t == [] || Closer(t[0])
    ensures ParseToken(d + t) == Ok(Literal(Literals.Vague(Literals.Integer(d))), t)
  {
    StatementRulesFailAtDigit(d + t);
    OperandRulesFailAfterDigits(d, t);
    TokenIsLiteral(d + t);
  }

  /** No function definition, `if` or assignment starts with a digit. */
  lemma StatementRulesFailAtDigit(s: seq<char>)
    requires |s| > 0 && IsAsciiDigit(s[0])
    ensures NoStatement(s)
  {
    KeywordRulesNeedStart(s);
    AssignmentNeedsIdent(s);
  }

  /** No identifier starts with anything but a letter. */
  lemma IdentNeedsLetter(s: seq<char>)
    requires s == [] || !IsAlphabetic(s[0])
    ensures ParseIdent(s).Err?
  {
  }

  /** Digits before a closer are a vague integer that no operator and no `;` follows. */
  lemma OperandRulesFailAfterDigits(d: seq<char>, t: seq<char>)
    requires |d| > 0 && AllDigits(d) && Literals.NoDot(t)
    requires t == [] || Closer(t[0])
    ensures Literals.ParseLiteral(d + t) == Ok(Literals.Vague(Literals.Integer(d)), t)
    ensures ParseIdent(d + t).Err? && NoCompound(d + t)
  {
    DigitsAreLiteral(d, t);
    NoOperationAfter(d + t, Literal(Literals.Vague(Literals.Integer(d))), t);
  }

  /** Digits before a closer: a vague integer, no identifier, no array. */
  lemma DigitsAreLiteral(d: seq<char>, t: seq<char>)
    requires |d| > 0 && AllDigits(d) && Literals.NoDot(t)
    requires t == [] || Closer(t[0])
    ensures Literals.ParseLiteral(d + t) == Ok(Literals.Vague(Literals.Integer(d)), t)
    ensures ParseSingleton(d + t) == Ok(Literal(Literals.Vague(Literals.Integer(d))), t)
    ensures ParseIdent(d + t).Err? && ParseArray(d + t).Err?
  {
    assert (d + t)[0] == d[0];
    Literals.LiteralVagueInteger(d, t);
    IdentNeedsLetter(d + t);
    ArrayNeedsBracket(d + t);
  }

  /** An array starts with `[`. */
  lemma ArrayNeedsBracket(s: seq<char>)
    requires s == [] || s[0] != '['
    ensures ParseArray(s).Err?
  {
    assert Tag("[", s).Err?;
  }

  /** An operand before a closer starts neither an operation nor a chain. */
  lemma NoOperationAfter(s: seq<char>, l: Token, t: seq<char>)
    requires ParseSingleton(s) == Ok(l, t) && (t == [] || Closer(t[0]))
    ensures ParseOps(s).Err? && ParseMethod(s).Err?
  {
    OpsFailAfterOperand(s, l, t);
    NoSemicolonAtCloser(t);
    MethodNeedsSemicolon(s, l, t);
  }

  lemma NoSemicolonAtCloser(t: seq<char>)
    requires t == [] || Closer(t[0])
    ensures !(";" <= Space0(t).rest)
  {
    Space0Before(t);
  }

  /** `method` needs a `;` after its receiver and the spaces that follow it. */
  lemma MethodNeedsSemicolon(s: seq<char>, l: Token, t: seq<char>)
    requires ParseSingleton(s) == Ok(l, t) && !(";" <= Space0(t).rest)
    ensures ParseMethod(s).Err?
  {
  }

  /** `method` in sequence: the receiver, `;`, and the call. */
  lemma MethodSteps(s: seq<char>, l: Token, t: seq<char>, u: seq<char>, v: Token, rest: seq<char>)
    requires ParseSingleton(s) == Ok(l, t) && Space0(t).rest == ";" + u
    requires ParseToken(Space0(u).rest) == Ok(v, rest)
    ensures ParseMethod(s) == Ok(Method(l, v), rest)
  {
    TagAhead(';', u);
  }

  /** Before a stop character, none of the statement rules matches a word. */
  lemma StatementRulesFailAtWord(w: seq<char>, t: seq<char>)
    requires Word(w) && (t == [] || Stop(t[0]))
    ensures NoStatement(w + t)
  {
    RulesFailAtLetter(w, t);
    IfFailsBeforeStop(w, t);
    AssignmentFailsBeforeStop(w, t);
  }

  /** `w; u`: a word, `;`, a space and a token form the method chain of that word and that token. */
  lemma MethodOfChain(w: seq<char>, u: seq<char>, v: Token, rest: seq<char>)
    requires Word(w) && (u == [] || !IsSpace(u[0]))
    requires ParseToken(u) == Ok(v, rest)
    ensures ParseMethod(w + ("; " + u)) == Ok(Method(Ident(w), v), rest)
  {
    SemicolonLed(u);
    SingletonOfWord(w, "; " + u);
    MethodOfLinks(w + ("; " + u), Ident(w), u, v, rest);
  }

  lemma SemicolonLed(u: seq<char>)
    ensures "; " + u != [] && !IsAlphabetic(("; " + u)[0])
  {
  }

  /** Whatever singleton `s` starts with, `; ` and a token after it chain the two. */
  lemma MethodOfLinks(s: seq<char>, l: Token, u: seq<char>, v: Token, rest: seq<char>)
    requires ParseSingleton(s) == Ok(l, "; " + u) && (u == [] || !IsSpace(u[0]))
    requires ParseToken(u) == Ok(v, rest)
    ensures ParseMethod(s) == Ok(Method(l, v), rest)
  {
    ChainSeparator(u);
    MethodSteps(s, l, "; " + u, " " + u, v, rest);
  }

  /** The `; ` between the links of a chain: no space before `;`, one after it. */
  lemma ChainSeparator(u: seq<char>)
    requires u == [] || !IsSpace(u[0])
    ensures Space0("; " + u).rest == ";" + (" " + u)
    ensures Space0(" " + u).rest == u
  {
    Space0Before("; " + u);
    SplitFirst(';', ' ', u);
    Space0Split(" ", u);
  }

  /** The same chain as a whole token: the statement rules before `method` all mismatch. */
  lemma TokenOfChain(w: seq<char>, u: seq<char>, v: Token, rest: seq<char>)
    requires Word(w) && (u == [] || !IsSpace(u[0]))
    requires ParseToken(u) == Ok(v, rest)
    ensures ParseToken(w + ("; " + u)) == Ok(Method(Ident(w), v), rest)
  {
    StatementRulesFailAtWord(w, "; " + u);
    MethodOfChain(w, u, v, rest);
    TokenIsMethod(w + ("; " + u));
  }

  /** A two-character text in front of `u`, taken apart. */
  lemma SplitFirst(a: char, b: char, u: seq<char>)
    ensures [a, b] + u == [a] + ([b] + u)
  {
  }

  /** No function definition and no array starts with a letter. */
  lemma RulesFailAtLetter(w: seq<char>, t: seq<char>)
    requires Word(w)
    ensures ParseMethodDef(w + t).Err? && ParseArray(w + t).Err?
  {
    assert (w + t)[0] == w[0];
    KeywordRulesNeedStartNotIf(w + t);
  }

  /** Function definitions and arrays start with `|` and `[`. */
  lemma KeywordRulesNeedStartNotIf(s: seq<char>)
    requires s == [] || (s[0] != '|' && s[0] != '[')
    ensures ParseMethodDef(s).Err? && ParseArray(s).Err?
  {
    assert ParseMethodDef(s).Err? by { assert Tag("|", s).Err?; }
    assert ParseArray(s).Err? by { assert Tag("[", s).Err?; }
  }

  /** A word followed by a non-letter is a singleton identifier. */
  lemma SingletonOfWord(w: seq<char>, t: seq<char>)
    requires Word(w) && (t == [] || !IsAlphabetic(t[0]))
    ensures ParseSingleton(w + t) == Ok(Ident(w), t)
  {
    IdentOfWord(w, t);
    assert (w + t)[0] == w[0];
  }

  /** When the statement rules before it mismatch and `method` matches, `token` is that method chain. */
  lemma TokenIsMethod(s: seq<char>)
    requires NoStatement(s)
    requires ParseMethod(s).Ok?
    ensures ParseToken(s) == ParseMethod(s)
  {
  }

  /** `paren` in sequence: `(`, spaces, the token, spaces, `)`. */
  lemma ParenSteps(s: seq<char>, a: seq<char>, v: Token, t: seq<char>, rest: seq<char>)
    requires "(" <= s && Space0(s[1..]).rest == a
    requires ParseToken(a) == Ok(v, t) && Space0(t).rest == ")" + rest
    ensures ParseParen(s) == Ok(v, rest)
  {
    TagAhead(')', rest);
  }

  /** A parenthesised token: `(`, the token, `)`. */
  lemma ParenOf(u: seq<char>, v: Token, rest: seq<char>)
    requires u == [] || !IsSpace(u[0])
    requires ParseToken(u) == Ok(v, ")" + rest)
    ensures ParseParen("(" + u) == Ok(v, rest)
  {
    OpenParen(u, rest);
    ParenSteps("(" + u, u, v, ")" + rest, rest);
  }

  /** Past a `(`, no space before `u`; no space before a `)`. */
  lemma OpenParen(u: seq<char>, rest: seq<char>)
    requires u == [] || !IsSpace(u[0])
    ensures "(" <= "(" + u && Space0(("(" + u)[1..]).rest == u
    ensures Space0(")" + rest).rest == ")" + rest
  {
    Space0Split([], u);
    assert [] + u == u;
    assert ("(" + u)[1..] == u;
    Space0Before(")" + rest);
  }

  /** `tag` of a single character that is there. */
  lemma TagAhead(c: char, rest: seq<char>)
    ensures Tag([c], [c] + rest) == Ok([c], rest)
  {
    assert ([c] + rest)[1..] == rest;
  }

  /** A successful `tag` splits its input into the tag and the rest. */
  lemma TagSplit(t: seq<char>, s: seq<char>)
    requires Tag(t, s).Ok?
    ensures s == t + Tag(t, s).rest
  {
    PrefixSplit(t, s);
  }

  /** `(w)` is the identifier `w`. */
  lemma ParenOfWord(w: seq<char>, rest: seq<char>)
    requires Word(w)
    ensures ParseParen("(" + w + ")" + rest) == Ok(Ident(w), rest)
  {
    ConcatFour("(", w, ")", rest);
    ParenOfWordAt(w, rest);
  }

  lemma ParenOfWordAt(w: seq<char>, rest: seq<char>)
    requires Word(w)
    ensures ParseParen("(" + (w + (")" + rest))) == Ok(Ident(w), rest)
  {
    WordStart(w, ")" + rest);
    TokenOfWord(w, ")" + rest);
    ParenOf(w + (")" + rest), Ident(w), rest);
  }

  /** At an opening parenthesis `singleton` is `paren`: neither an identifier nor a literal starts there. */
  lemma SingletonOfParen(s: seq<char>)
    requires |s| > 0 && s[0] == '('
    ensures ParseSingleton(s) == ParseParen(s)
  {
    ParenIsNoOperand(s);
    SingletonIsParen(s);
  }

  lemma ParenIsNoOperand(s: seq<char>)
    requires |s| > 0 && s[0] == '('
    ensures ParseIdent(s).Err? && Literals.ParseLiteral(s).Err?
  {
    IdentSpec(s);
    LiteralNeedsStart(s);
  }

  lemma SingletonIsParen(s: seq<char>)
    requires ParseIdent(s).Err? && Literals.ParseLiteral(s).Err?
    ensures ParseSingleton(s) == ParseParen(s)
  {
  }

  predicate Words(ws: seq<seq<char>>) {
    forall i | 0 <= i < |ws| :: Word(ws[i])
  }

  /** `, w1, w2, ...`: each word after a comma and a space. */
  function CommaList(ws: seq<seq<char>>): seq<char> {
    if ws == [] then [] else ", " + ws[0] + CommaList(ws[1..])
  }

  /** The identifiers of the words, in order. */
  function Idents(ws: seq<seq<char>>): (r: seq<Token>)
    ensures |r| == |ws| && forall i | 0 <= i < |ws| :: r[i] == Ident(ws[i])
  {
    if ws == [] then [] else [Ident(ws[0])] + Idents(ws[1..])
  }

  /** The text of a comma list in front of `t`, one element taken off. */
  lemma CommaListParts(ws: seq<seq<char>>, t: seq<char>)
    ensures ws == [] ==> CommaList(ws) + t == t
    ensures ws != [] ==> CommaList(ws) + t == ", " + (ws[0] + (CommaList(ws[1..]) + t))
  {
    if ws == [] {
      assert CommaList(ws) == [];
    } else {
      ConcatFour(", ", ws[0], CommaList(ws[1..]), t);
    }
  }

  lemma ConcatFour(a: seq<char>, b: seq<char>, c: seq<char>, t: seq<char>)
    ensures a + b + c + t == a + (b + (c + t))
  {
  }

  /** A comma list before `]` starts with `,` or is the `]` itself. */
  lemma CommaListHead(ws: seq<seq<char>>, t: seq<char>)
    requires |t| > 0 && t[0] == ']'
    ensures |CommaList(ws) + t| > 0 && Closer((CommaList(ws) + t)[0])
  {
    CommaListParts(ws, t);
  }

  /** A word starts with a letter, whatever follows it. */
  lemma WordStart(w: seq<char>, c: seq<char>)
    requires Word(w)
    ensures |w + c| > 0 && IsAlphabetic((w + c)[0]) && !IsSpace((w + c)[0])
  {
    assert (w + c)[0] == w[0];
  }

  /** `, ` is a list separator; the separator stops at the next non-space. */
  lemma CommaStep(x: seq<char>)
    requires x == [] || !IsSpace(x[0])
    ensures ListSeparator(", " + x) == Ok(",", x)
  {
    Space0Before(", " + x);
    SplitFirst(',', ' ', x);
    assert Tag(",", "," + (" " + x)) == Ok(",", " " + x);
    Space0Split(" ", x);
  }

  /** At a closing bracket there is no further element. */
  lemma ArrayTailStops(t: seq<char>)
    requires |t| > 0 && t[0] == ']'
    ensures ArrayTail(t) == Ok([], t)
  {
    Space0Before(t);
  }

  /** The element loop in sequence: separator, element, the loop on what follows. */
  lemma ArrayTailSteps(s: seq<char>, x: seq<char>, v: Token, y: seq<char>, vs: seq<Token>, t: seq<char>)
    requires ListSeparator(s) == Ok(",", x) && ParseToken(x) == Ok(v, y)
    requires ArrayTail(y) == Ok(vs, t)
    ensures ArrayTail(s) == Ok([v] + vs, t)
  {
  }

  /** After `, `, a word before a closer is that identifier. */
  lemma TokenAfterComma(w: seq<char>, c: seq<char>)
    requires Word(w) && |c| > 0 && Closer(c[0])
    ensures ListSeparator(", " + (w + c)) == Ok(",", w + c)
    ensures ParseToken(w + c) == Ok(Ident(w), c)
  {
    WordStart(w, c);
    CommaStep(w + c);
    TokenOfWord(w, c);
  }

  /** One more element `, w` in front of the loop. */
  lemma ArrayTailLink(w: seq<char>, c: seq<char>, vs: seq<Token>, t: seq<char>)
    requires Word(w) && |c| > 0 && Closer(c[0])
    requires ArrayTail(c) == Ok(vs, t)
    ensures ArrayTail(", " + (w + c)) == Ok([Ident(w)] + vs, t)
  {
    TokenAfterComma(w, c);
    ArrayTailSteps(", " + (w + c), w + c, Ident(w), c, vs, t);
  }

  /** The element loop of `array` reads `, w1, w2, ...` up to the `]` as those identifiers. */
  lemma {:induction false} ArrayTailOfWords(ws: seq<seq<char>>, t: seq<char>)
    requires Words(ws) && |t| > 0 && t[0] == ']'
    ensures ArrayTail(CommaList(ws) + t) == Ok(Idents(ws), t)
  {
    CommaListParts(ws, t);
    if ws == [] {
      ArrayTailStops(t);
    } else {
      assert Word(ws[0]) && Words(ws[1..]);
      CommaListHead(ws[1..], t);
      ArrayTailOfWords(ws[1..], t);
      ArrayTailLink(ws[0], CommaList(ws[1..]) + t, Idents(ws[1..]), t);
    }
  }

  /** `array` in sequence: `[`, spaces, the first element, then the rest up to `]`. */
  lemma ArraySteps(s: seq<char>, v: Token, y: seq<char>, r: Token, rest: seq<char>)
    requires "[" <= s && ParseToken(Space0(s[1..]).rest) == Ok(v, y)
    requires ArrayClose(v, y) == Ok(r, rest)
    ensures ParseArray(s) == Ok(r, rest)
  {
  }

  /** The rest of `array` in sequence: the element loop, spaces, `]`. */
  lemma ArrayCloseSteps(v: Token, y: seq<char>, vs: seq<Token>, rest: seq<char>)
    requires ArrayTail(y) == Ok(vs, "]" + rest)
    ensures ArrayClose(v, y) == Ok(Array([v] + vs), rest)
  {
    ClosingBracket(rest);
  }

  /** A `]` ahead: no spaces before it, and `tag` takes it. */
  lemma ClosingBracket(rest: seq<char>)
    ensures Space0("]" + rest).rest == "]" + rest
    ensures Tag("]", "]" + rest) == Ok("]", rest)
  {
    Space0Before("]" + rest);
    TagAhead(']', rest);
  }

  /** The elements of `[w, w1, w2, ...]`: the first word, then the loop over the others. */
  lemma ArrayElements(w: seq<char>, ws: seq<seq<char>>, rest: seq<char>)
    requires Word(w) && Words(ws)
    ensures ParseToken(w + (CommaList(ws) + ("]" + rest))) == Ok(Ident(w), CommaList(ws) + ("]" + rest))
    ensures ArrayTail(CommaList(ws) + ("]" + rest)) == Ok(Idents(ws), "]" + rest)
  {
    CommaListHead(ws, "]" + rest);
    TokenOfWord(w, CommaList(ws) + ("]" + rest));
    ArrayTailOfWords(ws, "]" + rest);
  }

  /** Past the `[`, no space before a word. */
  lemma OpenBracket(w: seq<char>, c: seq<char>)
    requires Word(w)
    ensures "[" <= "[" + (w + c) && Space0(("[" + (w + c))[1..]).rest == w + c
  {
    WordStart(w, c);
    assert ("[" + (w + c))[1..] == w + c;
    Space0Before(w + c);
  }

  lemma ArrayOfWordsAt(w: seq<char>, ws: seq<seq<char>>, rest: seq<char>)
    requires Word(w) && Words(ws)
    ensures ParseArray("[" + (w + (CommaList(ws) + ("]" + rest)))) == Ok(Array([Ident(w)] + Idents(ws)), rest)
  {
    var c := CommaList(ws) + ("]" + rest);
    OpenBracket(w, c);
    ArrayElements(w, ws, rest);
    ArrayCloseSteps(Ident(w), c, Idents(ws), rest);
    ArraySteps("[" + (w + c), Ident(w), c, Array([Ident(w)] + Idents(ws)), rest);
  }

  lemma ArrayText(w: seq<char>, c: seq<char>, rest: seq<char>)
    ensures "[" + w + c + "]" + rest == "[" + (w + (c + ("]" + rest)))
  {
  }

  /** `[w, w1, w2, ...]` is the array of those identifiers, in order; what follows the `]` is left. */
  lemma ArrayOfWords(w: seq<char>, ws: seq<seq<char>>, rest: seq<char>)
    requires Word(w) && Words(ws)
    ensures ParseArray("[" + w + CommaList(ws) + "]" + rest) == Ok(Array([Ident(w)] + Idents(ws)), rest)
  {
    ArrayText(w, CommaList(ws), rest);
    ArrayOfWordsAt(w, ws, rest);
  }

  /** A statement that no `if` can start, and that `assignment` reads, is read by `token` as that assignment. */
  lemma TokenOfAssignment(s: seq<char>)
    requires s == [] || (s[0] != '|' && s[0] != 'i' && s[0] != '[')
    requires ParseAssignment(s).Ok?
    ensures ParseToken(s) == ParseAssignment(s)
  {
    KeywordRulesNeedStart(s);
    TokenIsAssignment(s);
  }

  /** A function definition starts with `|`. */
  lemma MethodDefNeedsBar(s: seq<char>)
    requires s == [] || s[0] != '|'
    ensures ParseMethodDef(s).Err?
  {
    assert Tag("|", s).Err?;
  }

  lemma TokenIsAssignment(s: seq<char>)
    requires ParseMethodDef(s).Err? && ParseIfStmt(s).Err? && ParseAssignment(s).Ok?
    ensures ParseToken(s) == ParseAssignment(s)
  {
  }

  /** The optional type annotation of an assignment, written before the name. */
  function AnnotationText(ann: W.Option<seq<char>>): seq<char> {
    if ann.Some? then ann.value + " " else ""
  }

  function AnnotationOf(ann: W.Option<seq<char>>): W.Option<Token> {
    if ann.Some? then W.Some(Ident(ann.value)) else W.None
  }

  /** `assignment` in sequence, without a type annotation: prefix, name, `=`, value, rest of the program, then the pair. */
  lemma UntypedAssignmentSteps(s: seq<char>, m: bool, a: seq<char>, w: seq<char>, b: seq<char>, c: seq<char>,
                               u: seq<char>, v: Token, t: seq<char>, after: Token, rest: seq<char>)
    requires OptMut(s) == Ok(m, a) && ParseIdent(a) == Ok(w, b)
    requires Space0(b).rest == c && OptIdentSpace(c) == Ok(W.None, c)
    requires Tag("=", c).Ok? && Space0(Tag("=", c).rest).rest == u
    requires ParseToken(u) == Ok(v, t)
    requires RestOfFile(LineFeedWhitespace(t).rest) == Ok(after, rest)
    ensures ParseAssignment(s) == AssignmentToken(m, w, W.None, v, after, rest)
  {
  }

  /** `assignment` in sequence, with a type annotation: prefix, type, name, `=`, value, rest of the program, then the pair. */
  lemma TypedAssignmentSteps(s: seq<char>, m: bool, a: seq<char>, w: seq<char>, b: seq<char>,
                             x: seq<char>, c: seq<char>, u: seq<char>,
                             v: Token, t: seq<char>, after: Token, rest: seq<char>)
    requires OptMut(s) == Ok(m, a) && ParseIdent(a) == Ok(w, b)
    requires OptIdentSpace(Space0(b).rest) == Ok(W.Some(x), c)
    requires Tag("=", c).Ok? && Space0(Tag("=", c).rest).rest == u
    requires ParseToken(u) == Ok(v, t)
    requires RestOfFile(LineFeedWhitespace(t).rest) == Ok(after, rest)
    ensures ParseAssignment(s) == AssignmentToken(m, w, W.Some(x), v, after, rest)
  {
  }

  /** ` = u`: spaces, the `=`, spaces, and the value text `u`. */
  lemma EqualsSign(u: seq<char>)
    requires u == [] || !IsSpace(u[0])
    ensures Space0(" = " + u).rest == "= " + u
    ensures Tag("=", "= " + u) == Ok("=", " " + u)
    ensures Space0(" " + u).rest == u
  {
    SpaceBeforeEquals(u);
    TagAhead('=', " " + u);
    SplitFirst('=', ' ', u);
    Space0Split(" ", u);
  }

  lemma SpaceBeforeEquals(u: seq<char>)
    ensures Space0(" = " + u).rest == "= " + u
  {
    SplitFirst(' ', '=', " " + u);
    assert " = " + u == " " + ("= " + u);
    Space0Split(" ", "= " + u);
  }

  /** Before `=` there is no second identifier. */
  lemma NoSecondIdent(u: seq<char>)
    ensures OptIdentSpace("= " + u) == Ok(W.None, "= " + u)
  {
    IdentSpec("= " + u);
  }

  /** The first word of an assignment: `mut` (when written) taken off, then the word itself. */
  lemma AssignmentHead(m: bool, w: seq<char>, e: seq<char>)
    requires Word(w) && (m || w != "mut") && |e| > 0 && e[0] == ' '
    ensures OptMut(MutPrefix(m) + (w + e)) == Ok(m, w + e)
    ensures ParseIdent(w + e) == Ok(w, e) && ParseIdent(w) == Ok(w, [])
  {
    ReparseIdent(w);
    WordStart(w, e);
    if !m {
      NoMutPrefix(w, e);
    }
    OptMutOf(m, w + e);
    IdentOfWord(w, e);
  }

  /** A second word after the first and a space: the name of a typed assignment. */
  lemma SecondIdent(x: seq<char>, e: seq<char>)
    requires Word(x) && |e| > 0 && e[0] == ' '
    ensures Space0(" " + (x + e)).rest == x + e
    ensures OptIdentSpace(x + e) == Ok(W.Some(x), Space0(e).rest)
    ensures ParseIdent(x) == Ok(x, [])
  {
    ReparseIdent(x);
    WordStart(x, e);
    Space0Split(" ", x + e);
    IdentOfWord(x, e);
  }

  /** `[mut ]x = u`. */
  lemma UntypedAssignmentOf(m: bool, x: seq<char>, u: seq<char>,
                            v: Token, t: seq<char>, after: Token, rest: seq<char>)
    requires Word(x) && (m || x != "mut") && (u == [] || !IsSpace(u[0]))
    requires ParseToken(u) == Ok(v, t)
    requires RestOfFile(LineFeedWhitespace(t).rest) == Ok(after, rest)
    ensures ParseAssignment(MutPrefix(m) + (x + (" = " + u)))
      == Ok(Pair(Assignment(m, W.None, Ident(x), v), after), rest)
  {
    UntypedAssignmentParts(m, x, u, v, t, after, rest);
    ReparseIdent(x);
    UntypedToken(m, x, v, after, rest);
  }

  /** The pair of an assignment without a type annotation, once its name reads back. */
  lemma UntypedToken(m: bool, x: seq<char>, v: Token, after: Token, rest: seq<char>)
    requires ParseIdent(x) == Ok(x, [])
    ensures AssignmentToken(m, x, W.None, v, after, rest) == Ok(Pair(Assignment(m, W.None, Ident(x), v), after), rest)
  {
  }

  lemma UntypedAssignmentParts(m: bool, x: seq<char>, u: seq<char>,
                               v: Token, t: seq<char>, after: Token, rest: seq<char>)
    requires Word(x) && (m || x != "mut") && (u == [] || !IsSpace(u[0]))
    requires ParseToken(u) == Ok(v, t)
    requires RestOfFile(LineFeedWhitespace(t).rest) == Ok(after, rest)
    ensures ParseAssignment(MutPrefix(m) + (x + (" = " + u))) == AssignmentToken(m, x, W.None, v, after, rest)
  {
    AssignmentHead(m, x, " = " + u);
    EqualsSign(u);
    NoSecondIdent(u);
    UntypedAssignmentSteps(MutPrefix(m) + (x + (" = " + u)), m, x + (" = " + u), x, " = " + u, "= " + u,
                           u, v, t, after, rest);
  }

  /** `[mut ]T x = u`. */
  lemma TypedAssignmentOf(m: bool, ty: seq<char>, x: seq<char>, u: seq<char>,
                          v: Token, t: seq<char>, after: Token, rest: seq<char>)
    requires Word(ty) && Word(x) && (m || ty != "mut") && (u == [] || !IsSpace(u[0]))
    requires ParseToken(u) == Ok(v, t)
    requires RestOfFile(LineFeedWhitespace(t).rest) == Ok(after, rest)
    ensures ParseAssignment(MutPrefix(m) + (ty + (" " + (x + (" = " + u)))))
      == Ok(Pair(Assignment(m, W.Some(Ident(ty)), Ident(x), v), after), rest)
  {
    TypedAssignmentParts(m, ty, x, u, v, t, after, rest);
    ReparseIdent(ty);
    ReparseIdent(x);
  }

  lemma TypedAssignmentParts(m: bool, ty: seq<char>, x: seq<char>, u: seq<char>,
                             v: Token, t: seq<char>, after: Token, rest: seq<char>)
    requires Word(ty) && Word(x) && (m || ty != "mut") && (u == [] || !IsSpace(u[0]))
    requires ParseToken(u) == Ok(v, t)
    requires RestOfFile(LineFeedWhitespace(t).rest) == Ok(after, rest)
    ensures ParseAssignment(MutPrefix(m) + (ty + (" " + (x + (" = " + u)))))
      == AssignmentToken(m, ty, W.Some(x), v, after, rest)
  {
    var e := " = " + u;
    AssignmentHead(m, ty, " " + (x + e));
    SecondIdent(x, e);
    EqualsSign(u);
    TypedAssignmentSteps(MutPrefix(m) + (ty + (" " + (x + e))), m, ty + (" " + (x + e)), ty, " " + (x + e),
                         x, "= " + u, u, v, t, after, rest);
  }

  /** The text of an assignment, grouped from the right. */
  lemma AssignmentText(m: bool, ann: W.Option<seq<char>>, x: seq<char>, u: seq<char>)
    ensures ann.None? ==>
      MutPrefix(m) + AnnotationText(ann) + x + " = " + u == MutPrefix(m) + (x + (" = " + u))
    ensures ann.Some? ==>
      MutPrefix(m) + AnnotationText(ann) + x + " = " + u == MutPrefix(m) + (ann.value + (" " + (x + (" = " + u))))
  {
  }

  /**
   * `[mut ][T ]x = u`: the mutability is the `mut`, `T` (when written) is
   * the type annotation, `x` is the name, the value is the token `u`
   * starts with, and the pair's second part is the rest of the program.
   */
  lemma AssignmentOfWords(m: bool, ann: W.Option<seq<char>>, x: seq<char>, u: seq<char>,
                          v: Token, t: seq<char>, after: Token, rest: seq<char>)
    requires Word(x) && (ann.Some? ==> Word(ann.value))
    requires m || (if ann.Some? then ann.value else x) != "mut"
    requires u == [] || !IsSpace(u[0])
    requires ParseToken(u) == Ok(v, t)
    requires RestOfFile(LineFeedWhitespace(t).rest) == Ok(after, rest)
    ensures ParseAssignment(MutPrefix(m) + AnnotationText(ann) + x + " = " + u)
      == Ok(Pair(Assignment(m, AnnotationOf(ann), Ident(x), v), after), rest)
  {
    AssignmentText(m, ann, x, u);
    if ann.Some? {
      TypedAssignmentOf(m, ann.value, x, u, v, t, after, rest);
    } else {
      UntypedAssignmentOf(m, x, u, v, t, after, rest);
    }
  }

  /** What `paren` reads: `(`, spaces, a token, spaces, `)`; the value is that token. */
  lemma ParenParts(s: seq<char>)
    requires ParseParen(s).Ok?
    ensures
      && var t := ParseToken(Space0(s[1..]).rest);
      && t.Ok? && ParseParen(s).value == t.value && Space0(t.rest).rest == ")" + ParseParen(s).rest
  {
    ParenIsParts(s);
    TagSplit(")", Space0(ParseToken(Space0(s[1..]).rest).rest).rest);
  }

  lemma ParenIsParts(s: seq<char>)
    requires ParseParen(s).Ok?
    ensures
      && var t := ParseToken(Space0(s[1..]).rest);
      && t.Ok? && ParseParen(s).value == t.value
      && var close := Tag(")", Space0(t.rest).rest);
      && close.Ok? && ParseParen(s).rest == close.rest
  {
  }

  /** What the end of `array` reads: the element loop, spaces, `]`; the elements follow `x` in order. */
  lemma ArrayCloseParts(x: Token, s: seq<char>)
    requires ArrayClose(x, s).Ok?
    ensures
      && ArrayTail(s).Ok? && ArrayClose(x, s).value.elems == [x] + ArrayTail(s).value
      && Space0(ArrayTail(s).rest).rest == "]" + ArrayClose(x, s).rest
  {
    ArrayCloseIsParts(x, s);
    TagSplit("]", Space0(ArrayTail(s).rest).rest);
  }

  lemma ArrayCloseIsParts(x: Token, s: seq<char>)
    requires ArrayClose(x, s).Ok?
    ensures
      && ArrayTail(s).Ok? && ArrayClose(x, s).value.elems == [x] + ArrayTail(s).value
      && var close := Tag("]", Space0(ArrayTail(s).rest).rest);
      && close.Ok? && ArrayClose(x, s).rest == close.rest
  {
  }

  /**
   * What `array` reads: `[`, spaces, the first element, the comma-separated
   * further elements, spaces, `]`; the array holds those elements in order.
   */
  lemma ArrayParts(s: seq<char>)
    requires ParseArray(s).Ok?
    ensures
      && var first := ParseToken(Space0(s[1..]).rest);
      && first.Ok?
      && var tail := ArrayTail(first.rest);
      && tail.Ok? && ParseArray(s).value.elems == [first.value] + tail.value
      && Space0(tail.rest).rest == "]" + ParseArray(s).rest
  {
    var first := ParseToken(Space0(s[1..]).rest);
    ArrayCloseParts(first.value, first.rest);
  }

  /**
   * With two identifiers before `=`, `assignment` takes the second as the
   * name and the first as the type annotation; with one, that one is the
   * name and there is no annotation. The binding is mutable exactly when
   * `mut` and whitespace lead.
   */
  lemma AssignmentParts(s: seq<char>)
    requires ParseAssignment(s).Ok?
    ensures
      && var first := ParseIdent(OptMut(s).rest);
      && first.Ok?
      && var second := OptIdentSpace(Space0(first.rest).rest);
      && var a := ParseAssignment(s).value.first;
      && (a.mutable <==> HasMutPrefix(s))
      && (second.value.Some? ==> a.typeAnnotation == W.Some(Ident(first.value)) && a.ident == Ident(second.value.value))
      && (second.value.None? ==> a.typeAnnotation == W.None && a.ident == Ident(first.value))
  {
    var first := ParseIdent(OptMut(s).rest);
    var second := OptIdentSpace(Space0(first.rest).rest);
    AssignmentIsToken(s);
    IdentReadBack(OptMut(s).rest);
    if second.value.Some? {
      OptIdentReadBack(Space0(first.rest).rest);
    }
  }

  /** An accepted assignment is the pair built from its parts. */
  lemma AssignmentIsToken(s: seq<char>)
    requires ParseAssignment(s).Ok?
    ensures
      && var first := ParseIdent(OptMut(s).rest);
      && first.Ok?
      && var second := OptIdentSpace(Space0(first.rest).rest);
      && var eq := Tag("=", second.rest);
      && eq.Ok?
      && var value := ParseToken(Space0(eq.rest).rest);
      && value.Ok?
      && var after := RestOfFile(LineFeedWhitespace(value.rest).rest);
      && after.Ok?
      && ParseAssignment(s)
         == AssignmentToken(OptMut(s).value, first.value, second.value, value.value, after.value, after.rest)
  {
  }

  /** When no function definition starts at `s` and `ifstmt` matches, `token` is that `if`. */
  lemma TokenIsIf(s: seq<char>)
    requires ParseMethodDef(s).Err? && ParseIfStmt(s).Ok?
    ensures ParseToken(s) == ParseIfStmt(s)
  {
  }

  /** When the statement rules and `method` mismatch and `ops` matches, `token` is that operation. */
  lemma TokenIsOps(s: seq<char>)
    requires NoStatement(s) && ParseMethod(s).Err? && ParseOps(s).Ok?
    ensures ParseToken(s) == ParseOps(s)
  {
  }

  /** `ifstmt` in sequence: `if`, spaces, the comparison, spaces, the brace group, line feeds and the rest of the program. */
  lemma IfSteps(s: seq<char>, c: Token, t: seq<char>, b: Token, y: seq<char>, a: Token, rest: seq<char>)
    requires "if" <= s && ParseComparison(Space0(s[2..]).rest) == Ok(c, t)
    requires ParseBracketGroup(Space0(t).rest) == Ok(b, y)
    requires RestOfFile(LineFeedWhitespace(y).rest) == Ok(a, rest)
    ensures ParseIfStmt(s) == Ok(CondPair(IfStmt(c), b, a), rest)
  {
  }

  /** A brace group whose `}` is at `u`: the token read from what lies between the braces, and the text after the `}`. */
  lemma GroupSteps(s: seq<char>, u: nat, v: Token, x: seq<char>)
    requires |s| > 0 && s[0] == '{' && Brackets.ClosingBrace(s) == W.Some(u) && u < |s|
    requires ParseToken(LineFeedWhitespace(s[1..u]).rest) == Ok(v, x)
    ensures ParseBracketGroup(s) == Ok(v, s[u + 1..])
  {
  }

  lemma WithoutMut(x: seq<char>)
    ensures MutPrefix(false) + x == x
  {
    assert [] + x == x;
  }

  /** Where no brace comes between, the level stays at one. */
  lemma {:induction false} LevelWithoutBraces(s: seq<char>, k: nat)
    requires 1 <= k <= |s|
    requires forall i | 1 <= i < k :: s[i] != '{' && s[i] != '}'
    ensures Brackets.Level(s, k) == 1
  {
    if k > 1 {
      LevelWithoutBraces(s, k - 1);
    }
  }

  /** `{a}b` with no brace inside `a`: the group closes right after `a`. */
  lemma ClosingBraceOf(a: seq<char>, b: seq<char>)
    requires forall i | 0 <= i < |a| :: a[i] != '{' && a[i] != '}'
    ensures var s := "{" + (a + ("}" + b));
      && Brackets.ClosingBrace(s) == W.Some(|a| + 1)
      && s[0] == '{' && s[1..|a| + 1] == a && s[|a| + 2..] == b
  {
    var s := "{" + (a + ("}" + b));
    assert forall i | 1 <= i < |a| + 1 :: s[i] == a[i - 1];
    assert s[|a| + 1] == '}';
    LevelWithoutBraces(s, |a| + 1);
    Brackets.ClosingBraceAt(s, |a| + 1);
    assert s[1..|a| + 1] == a;
    assert s[|a| + 2..] == b;
  }

  /**
   * What `method_def` reads: `|`, spaces, the parameter list, spaces, `|`,
   * spaces, a brace group, line feeds and the rest of the program; the
   * result pairs exactly those parameters, that block and that rest.
   */
  lemma MethodDefParts(s: seq<char>)
    requires ParseMethodDef(s).Ok?
    ensures
      && "|" <= s
      && var params := ParamList(Space0(s[1..]).rest);
      && var b := Space0(params.rest).rest;
      && "|" <= b
      && var block := ParseBracketGroup(Space0(b[1..]).rest);
      && block.Ok?
      && var after := RestOfFile(LineFeedWhitespace(block.rest).rest);
      && after.Ok?
      && ParseMethodDef(s) == Ok(FnPair(TonsOfTokens(params.value), block.value, after.value), after.rest)
  {
    MethodDefIsParts(s);
  }

  lemma MethodDefIsParts(s: seq<char>)
    requires ParseMethodDef(s).Ok?
    ensures
      && var open := Tag("|", s);
      && open.Ok?
      && var params := ParamList(Space0(open.rest).rest);
      && var close := Tag("|", Space0(params.rest).rest);
      && close.Ok?
      && var block := ParseBracketGroup(Space0(close.rest).rest);
      && block.Ok?
      && var after := RestOfFile(LineFeedWhitespace(block.rest).rest);
      && after.Ok?
      && ParseMethodDef(s) == Ok(FnPair(TonsOfTokens(params.value), block.value, after.value), after.rest)
  {
  }

  /** `method_def` in sequence: `|`, the parameters, `|`, the block, the rest of the program. */
  lemma MethodDefSteps(s: seq<char>, ps: seq<Token>, t: seq<char>, b: Token, y: seq<char>, a: Token, rest: seq<char>)
    requires "|" <= s && ParamList(Space0(s[1..]).rest) == Ok(ps, t)
    requires "|" <= Space0(t).rest
    requires ParseBracketGroup(Space0(Space0(t).rest[1..]).rest) == Ok(b, y)
    requires RestOfFile(LineFeedWhitespace(y).rest) == Ok(a, rest)
    ensures ParseMethodDef(s) == Ok(FnPair(TonsOfTokens(ps), b, a), rest)
  {
  }

  /** `method_def` is the first rule `token` tries: where it matches, `token` is that definition. */
  lemma TokenIsMethodDef(s: seq<char>)
    requires ParseMethodDef(s).Ok?
    ensures ParseToken(s) == ParseMethodDef(s)
  {
  }

  /** The parameter loop stops at a `|`. */
  lemma ParamTailStops(g: seq<char>)
    requires |g| > 0 && g[0] == '|'
    ensures ParamTail(g) == Ok([], g)
  {
    assert ListSeparator(g).Err? by {
      Space0Split([], g);
      assert [] + g == g;
      assert !("," <= g);
    }
  }

  /** `T x` before the closing `|` is the one parameter `x` of type `T`. */
  lemma ParamListOfOne(ty: seq<char>, x: seq<char>, g: seq<char>)
    requires Word(ty) && Word(x) && ty != "mut"
    requires |g| > 0 && g[0] == '|'
    ensures ParamList(ty + (" " + (x + g))) == Ok([Param(false, Ident(ty), Ident(x))], g)
  {
    var p := Param(false, Ident(ty), Ident(x));
    BarStart(g);
    OneParam(ty, x, g);
    ParamTailStops(g);
    ParamListSteps(ty + (" " + (x + g)), p, g, [], g);
    assert [p] + [] == [p];
  }

  lemma BarStart(g: seq<char>)
    requires |g| > 0 && g[0] == '|'
    ensures g == [] || !IsAlphabetic(g[0])
  {
  }

  lemma OneParam(ty: seq<char>, x: seq<char>, g: seq<char>)
    requires Word(ty) && Word(x) && ty != "mut"
    requires g == [] || !IsAlphabetic(g[0])
    ensures ParseParam(ty + (" " + (x + g))) == Ok(Param(false, Ident(ty), Ident(x)), g)
  {
    WithoutMut(ty + (" " + (x + g)));
    ParamOfParts(false, ty, x, g);
  }

  /** `separated_list0` in sequence: the first parameter, then the loop on what follows it. */
  lemma ParamListSteps(s: seq<char>, p: Token, t: seq<char>, ps: seq<Token>, rest: seq<char>)
    requires ParseParam(s) == Ok(p, t) && ParamTail(t) == Ok(ps, rest)
    ensures ParamList(s) == Ok([p] + ps, rest)
  {
  }

  /** `{w}` is the identifier `w`, with the remainder after the `}`. */
  lemma GroupOfWord(w: seq<char>, rest: seq<char>)
    requires Word(w)
    ensures ParseBracketGroup("{" + (w + ("}" + rest))) == Ok(Ident(w), rest)
  {
    var s := "{" + (w + ("}" + rest));
    var u := |w| + 1;
    assert Brackets.ClosingBrace(s) == W.Some(u) && s[0] == '{' && s[1..u] == w && s[u + 1..] == rest by {
      assert forall i | 0 <= i < |w| :: w[i] != '{' && w[i] != '}';
      ClosingBraceOf(w, rest);
    }
    assert ParseToken(LineFeedWhitespace(s[1..u]).rest) == Ok(Ident(w), []) by {
      WordInside(w);
    }
    GroupSteps(s, u, Ident(w), []);
  }

  lemma WordInside(w: seq<char>)
    requires Word(w)
    ensures LineFeedWhitespace(w).rest == w
    ensures ParseToken(w) == Ok(Ident(w), [])
  {
    TakeWhileSplit(IsLineFeedWhitespace, [], w);
    assert [] + w == w;
    TokenOfWord(w, []);
    assert w + [] == w;
  }

  /** The separators of `|T x| {`: no space after the first `|`, one before the `{`. */
  lemma BarSpacing(ty: seq<char>, x: seq<char>, g: seq<char>)
    requires Word(ty) && |g| > 0 && g[0] == '{'
    ensures "|" <= "|" + (ty + x) && Space0(("|" + (ty + x))[1..]).rest == ty + x
    ensures Space0("| " + g).rest == "| " + g && "|" <= "| " + g
    ensures Space0(("| " + g)[1..]).rest == g
  {
    WordStart(ty, x);
    assert ("|" + (ty + x))[1..] == ty + x;
    Space0Before(ty + x);
    Space0Split([], "| " + g);
    assert [] + ("| " + g) == "| " + g;
    assert ("| " + g)[1..] == " " + g;
    Space0Split(" ", g);
  }

  /**
   * `|T x| {w}` then the rest of the program: a function of the one
   * parameter `x` of type `T` whose block is `w`, paired with the rest.
   */
  lemma MethodDefOfWords(ty: seq<char>, x: seq<char>, w: seq<char>, rest: seq<char>, a: Token, r: seq<char>)
    requires Word(ty) && Word(x) && Word(w) && ty != "mut"
    requires RestOfFile(LineFeedWhitespace(rest).rest) == Ok(a, r)
    ensures ParseMethodDef("|" + (ty + (" " + (x + ("| " + ("{" + (w + ("}" + rest))))))))
      == Ok(FnPair(TonsOfTokens([Param(false, Ident(ty), Ident(x))]), Ident(w), a), r)
  {
    var g := "{" + (w + ("}" + rest));
    ParamListOfOne(ty, x, "| " + g);
    BarSpacing(ty, " " + (x + ("| " + g)), g);
    GroupOfWord(w, rest);
    MethodDefSteps("|" + (ty + (" " + (x + ("| " + g)))), [Param(false, Ident(ty), Ident(x))], "| " + g, Ident(w), rest, a, r);
  }

  /** `|byte x| {x}`: one `byte` parameter `x`, and the block `x`. */
  lemma MethodDefExample(rest: seq<char>, a: Token, r: seq<char>)
    requires RestOfFile(LineFeedWhitespace(rest).rest) == Ok(a, r)
    ensures ParseMethodDef("|byte x| {x}" + rest)
      == Ok(FnPair(TonsOfTokens([Param(false, Ident("byte"), Ident("x"))]), Ident("x"), a), r)
  {
    ExampleWords();
    ExampleText(rest);
    MethodDefOfWords("byte", "x", "x", rest, a, r);
  }

  lemma ExampleWords()
    ensures Word("byte") && Word("x") && "byte" != "mut"
  {
  }

  lemma ExampleText(rest: seq<char>)
    ensures "|byte x| {x}" + rest == "|" + ("byte" + (" " + ("x" + ("| " + ("{" + ("x" + ("}" + rest)))))))
  {
  }
}
