/**
 * What the translator does, stated against independent descriptions: which
 * trees it can lower at all, what identifiers, typed assignments, operations
 * and literals become, in which order `gen_function` reports its errors,
 * the lines a generated function becomes, and that from depth 0 the
 * outcome does not depend on the printer's leftover `DO_INDENT`.
 */
module TranslateFacts {
  import opened Text
  import opened Syntax
  import opened Wrappers
  import opened Display
  import opened Translator
  import Literals

  /** The target text of an identifier: its target type when it names one, itself otherwise. */
  function Target(n: seq<char>): seq<char> {
    if n in TypeNames then TypeNames[n] else n
  }

  /** The literals the translator has an arm for: vague integers, strings and bytes. */
  predicate LowerableLiteral(l: Literals.Literal) {
    || (l.Vague? && l.vague.Integer?)
    || l.String?
    || (l.Number? && l.num.Byte?)
  }

  /** A parameter the function generator can lower: two identifiers, the type one from the table. */
  predicate KnownParam(p: Token) {
    p.Param? && p.annotation.Ident? && p.ident.Ident? && p.annotation.name in TypeNames
  }

  /** The trees the translator has an arm for all the way down. */
  predicate Lowerable(t: Token) {
    match t
    case Assignment(_, ann, id, v) =>
      if v.FnPair? then
        && Lowerable(v.body) && Lowerable(v.after)
        && forall i | 0 <= i < |v.params.tokens| :: KnownParam(v.params.tokens[i])
      else
        Lowerable(id) && (ann.None? || Lowerable(ann.value)) && Lowerable(v)
    case MethodUnit(name, arg) => name.Ident? && (arg.Array? || Lowerable(arg))
    case Literal(l) => LowerableLiteral(l)
    case Pair(a, b) => Lowerable(a) && Lowerable(b)
    case CondPair(c, b, a) => Lowerable(c) && Lowerable(b) && Lowerable(a)
    case IfStmt(c) => Lowerable(c)
    case Op(o) => Lowerable(o.l) && Lowerable(o.r)
    case Ident(_) => true
    case None => true
    case _ => false
  }

  /** An identifier becomes its target type when the table has it, and stays as it is otherwise. */
  lemma IdentTranslation(n: seq<char>, st: State)
    ensures Translate(Ident(n), st) == Ok((Target(n), st))
  {
    TransformLiteralTable(n);
  }

  /** A sequence whose statements translate is the first, a line feed, and the second. */
  lemma PairTranslation(a: Token, b: Token, st: State, x: (seq<char>, State), y: (seq<char>, State))
    requires Translate(a, st) == Ok(x) && Translate(b, x.1) == Ok(y)
    ensures Translate(Pair(a, b), st) == Ok((x.0 + "\n" + y.0, y.1))
  {
  }

  /** A sequence whose first statement fails fails the same way, and the second is not translated. */
  lemma PairStopsAtFirst(a: Token, b: Token, st: State)
    requires !Translate(a, st).Ok?
    ensures Translate(Pair(a, b), st) == Translate(a, st).PropagateFailure()
  {
  }

  /**
   * A condition with its block and the rest, all of which translate:
   * `if C {`, the block on its own lines, `}`, then the rest.
   */
  lemma CondPairTranslation(c: Token, b: Token, a: Token, st: State, x: (seq<char>, State), y: (seq<char>, State), z: (seq<char>, State))
    requires Translate(c, st) == Ok(x) && Translate(b, x.1) == Ok(y) && Translate(a, y.1) == Ok(z)
    ensures Translate(CondPair(c, b, a), st) == Ok(("if " + x.0 + " {\n" + y.0 + "\n}\n " + z.0, z.1))
  {
  }

  /** `None` translates to nothing. */
  lemma NoneTranslation(st: State)
    ensures Translate(Token.None, st) == Ok(([], st))
  {
  }

  /** Parameters, general function values, method chains, spans and arrays on their own have no arm. */
  lemma UnsupportedPanics(t: Token, st: State)
    requires t.Param? || t.FnPair? || t.Method? || t.Span? || t.Array?
    ensures Translate(t, st).Panic?
  {
  }

  /**
   * A literal translates exactly when it is a vague integer, a string or a
   * byte: the integer as its digits, the string in double quotes, the byte
   * as a `u8` conversion of its decimal value.
   */
  lemma LiteralTranslation(l: Literals.Literal, st: State)
    ensures Translate(Literal(l), st).Panic? <==> !LowerableLiteral(l)
    ensures l.Vague? && l.vague.Integer? ==> Translate(Literal(l), st) == Ok((l.vague.digits, st))
    ensures l.String? ==> Translate(Literal(l), st) == Ok(("\"" + l.text + "\"", st))
    ensures l.Number? && l.num.Byte? ==>
      && Translate(Literal(l), st) == Ok(("u8(" + DecimalString(l.num.b) + ")", st))
      && DecimalValue(DecimalString(l.num.b)) == l.num.b
  {
    if l.Number? && l.num.Byte? {
      DecimalRoundTrip(l.num.b);
    }
  }

  /** An operation on two identifiers becomes the symbol between their targets, in parentheses. */
  lemma OpTranslation(sym: seq<char>, a: seq<char>, b: seq<char>, st: State)
    requires sym in Symbols
    ensures Translate(Op(OpFor(sym, Ident(a), Ident(b))), st) == Ok(("(" + Target(a) + " " + sym + " " + Target(b) + ")", st))
  {
    IdentTranslation(a, st);
    IdentTranslation(b, st);
  }

  /** An unannotated binding of an identifier: `[mut ]name := value`. */
  lemma UntypedAssignment(m: bool, x: seq<char>, v: Token, st: State)
    requires !v.FnPair? && Translate(v, st).Ok?
    ensures Translate(Assignment(m, Option.None, Ident(x), v), st)
         == Ok((MutKeyword(m) + Target(x) + " := " + Translate(v, st).value.0, Translate(v, st).value.1))
  {
    IdentTranslation(x, st);
    var pre := MutKeyword(m) + Target(x) + " := ";
    var x := Translate(v, st).value.0;
    assert pre + [] + x + "" == pre + x;
  }

  /** A binding annotated with a type name converts the value: `[mut ]name := Type(value)`. */
  lemma TypedAssignment(m: bool, ty: seq<char>, x: seq<char>, v: Token, st: State)
    requires !v.FnPair? && Translate(v, st).Ok?
    ensures Translate(Assignment(m, Some(Ident(ty)), Ident(x), v), st)
         == Ok((MutKeyword(m) + Target(x) + " := " + Target(ty) + "(" + Translate(v, st).value.0 + ")", Translate(v, st).value.1))
  {
    IdentTranslation(x, st);
    IdentTranslation(ty, st);
    var pre := MutKeyword(m) + Target(x) + " := ";
    var x := Translate(v, st).value.0;
    assert pre + (Target(ty) + "(") + x + ")" == pre + Target(ty) + "(" + x + ")";
  }

  /**
   * A call with an array argument prints the elements instead of
   * translating them: identifiers keep their own names, even type names.
   */
  lemma ArrayCallOfIdents(f: seq<char>, elems: seq<Token>, st: State)
    requires !st.doIndent
    requires forall i | 0 <= i < |elems| :: elems[i].Ident?
    ensures Translate(MethodUnit(Ident(f), Array(elems)), st) == Ok((f + "(" + Join(Names(elems), ", ") + ")", st))
  {
    var tt := TonsOfTokens(elems);
    IdentsJoin(tt, |elems|, st);
    assert elems[..|elems|] == elems;
  }

  /**
   * A call with any other argument translates the argument after the
   * callee: `callee(argument)`, the callee a type name's target when it is one.
   */
  lemma CallTranslation(f: seq<char>, arg: Token, st: State, x: (seq<char>, State))
    requires !arg.Array? && Translate(arg, st) == Ok(x)
    ensures Translate(MethodUnit(Ident(f), arg), st) == Ok((Target(f) + "(" + x.0 + ")", x.1))
  {
    IdentTranslation(f, st);
    assert Translate(MethodUnit(Ident(f), arg), st) == TranslateCall(MethodUnit(Ident(f), arg), st);
  }

  /** A call whose callee is not an identifier has no arm. */
  lemma CallNeedsIdent(callee: Token, arg: Token, st: State)
    requires !callee.Ident?
    ensures Translate(MethodUnit(callee, arg), st).Panic?
  {
    assert Translate(MethodUnit(callee, arg), st) == TranslateCall(MethodUnit(callee, arg), st);
  }

  /** A file translates as its tree does, after the prelude and a line feed, from the globals' initial values. */
  lemma FileTranslation(t: Token)
    ensures TranslateFile(t).Ok? <==> Translate(t, Initial).Ok?
    ensures TranslateFile(t).Panic? <==> Translate(t, Initial).Panic?
    ensures TranslateFile(t).Ok? ==> TranslateFile(t).value == "\n\n\n" + Translate(t, Initial).value.0
  {
  }

  /** A parameter lowers exactly when it is known, to `[mut ]name Type`; any other is a panic. */
  lemma ParamTextOfKnown(p: Token)
    ensures ParamText(p).Ok? <==> KnownParam(p)
    ensures KnownParam(p) ==> ParamText(p) == Ok(MutKeyword(p.mutable) + p.ident.name + " " + TypeNames[p.annotation.name])
    ensures !KnownParam(p) ==> ParamText(p).Panic?
  {
    if p.Param? && p.annotation.Ident? {
      TransformLiteralTable(p.annotation.name);
    }
  }

  /** The parameter texts are there exactly when every parameter is known, one text per parameter, in order. */
  lemma {:induction false} ParamTextsAll(ps: seq<Token>)
    ensures ParamTexts(ps).Ok? <==> forall i | 0 <= i < |ps| :: KnownParam(ps[i])
    ensures ParamTexts(ps).Ok? ==> forall i | 0 <= i < |ps| :: ParamTexts(ps).value[i] == ParamText(ps[i]).value
  {
    if ps != [] {
      ParamTextOfKnown(ps[0]);
      ParamTextsAll(ps[1..]);
      assert forall i | 1 <= i < |ps| :: ps[i] == ps[1..][i - 1];
      if ParamTexts(ps).Ok? {
        assert ParamTexts(ps).value == [ParamText(ps[0]).value] + ParamTexts(ps[1..]).value;
      }
    }
  }

  /** A function definition whose body lowers but whose name is not an identifier fails for the name. */
  lemma FunctionNeedsName(m: bool, ann: Option<Token>, id: Token, fn: Token, st: State)
    requires fn.FnPair? && !id.Ident? && Translate(fn.body, st).Ok?
    ensures Translate(Assignment(m, ann, id, fn), st) == Err(MissingName)
  {
  }

  /**
   * With the body, name and parameters in order, the return type decides:
   * an annotation that is not an identifier, or an identifier the table
   * does not have, is an error; any other error comes from the rest of
   * the program.
   */
  lemma FunctionReturnType(m: bool, ann: Option<Token>, name: seq<char>, fn: Token, st: State)
    requires fn.FnPair? && Translate(fn.body, st).Ok?
    requires forall i | 0 <= i < |fn.params.tokens| :: KnownParam(fn.params.tokens[i])
    ensures ann.Some? && !ann.value.Ident? ==> Translate(Assignment(m, ann, Ident(name), fn), st) == Err(BadReturnType)
    ensures ann.Some? && ann.value.Ident? && ann.value.name !in TypeNames ==>
      Translate(Assignment(m, ann, Ident(name), fn), st) == Err(UnknownTypeName)
    ensures Translate(Assignment(m, ann, Ident(name), fn), st).Err? ==>
      || (ann.Some? && (ann.value.Ident? ==> ann.value.name !in TypeNames))
      || Translate(fn.after, Translate(fn.body, st).value.1).Err?
  {
    var t := Assignment(m, ann, Ident(name), fn);
    assert Translate(t, st) == GenFunction(t, st);
    FunctionPartsLower(fn.params, ann);
    if ann.Some? && ann.value.Ident? {
      TransformLiteralTable(ann.value.name);
    }
  }

  /** Every line of a generated function, as of everything the generator returns, is trimmed. */
  lemma FunctionLinesTrimmed(a: Token, st: State)
    requires GenFunction(a, st).Ok?
    ensures forall x | x in Lines(GenFunction(a, st).value.0) :: IsTrimmed(x)
  {
    var Assignment(_, ann, id, v) := a;
    var FnPair(args, body, after) := v;
    var inner := Translate(body, st).value;
    var fnargs := if args.tokens == [] then [] else ParamList(args.tokens).value;
    var ret := ReturnType(ann).value;
    var latter := Translate(after, inner.1).value;
    TrimmedLines(FunctionText(id.name, fnargs, ret, inner.0, latter.0));
  }

  /**
   * A function definition whose body and rest translate, whose parameters
   * are known and whose return type is none or a type name of the table
   * becomes its trimmed lines joined by line feeds: `fn name(params) ret {`,
   * the body's lines, `}`, an empty line, the rest's lines and an empty
   * line; the globals are those the rest leaves.
   */
  lemma FunctionTranslation(m: bool, ann: Option<Token>, name: seq<char>, fn: Token, st: State)
    requires fn.FnPair? && Translate(fn.body, st).Ok?
    requires forall i | 0 <= i < |fn.params.tokens| :: KnownParam(fn.params.tokens[i])
    requires ann.None? || (ann.value.Ident? && ann.value.name in TypeNames)
    requires Translate(fn.after, Translate(fn.body, st).value.1).Ok?
    ensures ParamTexts(fn.params.tokens).Ok?
    ensures var inner := Translate(fn.body, st).value;
      var latter := Translate(fn.after, inner.1).value;
      var head := FunctionHeader(name, Join(ParamTexts(fn.params.tokens).value, ", "), KnownReturnType(ann));
      Translate(Assignment(m, ann, Ident(name), fn), st) == Ok((Join(FunctionLines(head, inner.0, latter.0), "\n"), latter.1))
  {
    var inner := Translate(fn.body, st).value;
    var latter := Translate(fn.after, inner.1).value;
    FunctionParts(m, ann, name, fn, st);
    FunctionTextLines(name, Join(ParamTexts(fn.params.tokens).value, ", "), KnownReturnType(ann), inner.0, latter.0);
  }

  /** `FunctionTranslation` before the template's lines are worked out: the template filled with the parts. */
  lemma FunctionParts(m: bool, ann: Option<Token>, name: seq<char>, fn: Token, st: State)
    requires fn.FnPair? && Translate(fn.body, st).Ok?
    requires forall i | 0 <= i < |fn.params.tokens| :: KnownParam(fn.params.tokens[i])
    requires ann.None? || (ann.value.Ident? && ann.value.name in TypeNames)
    requires Translate(fn.after, Translate(fn.body, st).value.1).Ok?
    ensures ParamTexts(fn.params.tokens).Ok?
    ensures var inner := Translate(fn.body, st).value;
      var latter := Translate(fn.after, inner.1).value;
      var raw := FunctionText(name, Join(ParamTexts(fn.params.tokens).value, ", "), KnownReturnType(ann), inner.0, latter.0);
      Translate(Assignment(m, ann, Ident(name), fn), st) == Ok((Join(TrimAll(Lines(raw)), "\n"), latter.1))
  {
    var t := Assignment(m, ann, Ident(name), fn);
    assert Translate(t, st) == GenFunction(t, st);
    ParamTextsAll(fn.params.tokens);
    if ann.Some? {
      TransformLiteralTable(ann.value.name);
    }
    assert fn.params.tokens == [] ==> Join(ParamTexts(fn.params.tokens).value, ", ") == [];
  }

  /** The first line of a generated function: `fn name(params) ret {`. */
  function FunctionHeader(name: seq<char>, fnargs: seq<char>, ret: seq<char>): seq<char> {
    "fn " + name + "(" + fnargs + ") " + ret + " {"
  }

  /**
   * The trimmed lines of a generated function: the header, the body's
   * lines, the closing brace, an empty line, the rest's lines, and a last
   * empty line.
   */
  function FunctionLines(head: seq<char>, inner: seq<char>, latter: seq<char>): seq<seq<char>> {
    TrimAll(Lines(head + "\n")) + TrimAll(Lines(inner + "\n")) + ["}", ""] + TrimAll(Lines(latter + "\n")) + [""]
  }

  /** The return type of a known annotation: none, or the table's target type. */
  function KnownReturnType(ann: Option<Token>): seq<char>
    requires ann.None? || (ann.value.Ident? && ann.value.name in TypeNames)
  {
    if ann.None? then [] else TypeNames[ann.value.name]
  }

  /** The template of `gen_function`, cut at its line feeds. */
  lemma FunctionTextSplit(name: seq<char>, fnargs: seq<char>, ret: seq<char>, inner: seq<char>, latter: seq<char>)
    ensures FunctionText(name, fnargs, ret, inner, latter) ==
      FunctionHeader(name, fnargs, ret) + ("\n" + (Repeat(' ', 24) + inner + ("\n" + FunctionTail(latter))))
  {
  }

  /** Trimming the template's lines gives the header, the body, `}`, an empty line, the rest and an empty line. */
  lemma FunctionTextLines(name: seq<char>, fnargs: seq<char>, ret: seq<char>, inner: seq<char>, latter: seq<char>)
    ensures TrimAll(Lines(FunctionText(name, fnargs, ret, inner, latter))) ==
      FunctionLines(FunctionHeader(name, fnargs, ret), inner, latter)
  {
    var head := FunctionHeader(name, fnargs, ret);
    var r2 := FunctionTail(latter);
    var r1 := Repeat(' ', 24) + inner + ("\n" + r2);
    FunctionTextSplit(name, fnargs, ret, inner, latter);
    TrimmedLinesAppend(head, r1);
    IndentedAppend(24, inner, r2);
    FunctionTailLines(latter);
    LinesChain(TrimAll(Lines(head + ("\n" + r1))), TrimAll(Lines(r1)), TrimAll(Lines(r2)),
      TrimAll(Lines(head + "\n")), TrimAll(Lines(inner + "\n")), TrimAll(Lines(latter + "\n")));
  }

  /** The steps of `FunctionTextLines`, put together. */
  lemma LinesChain(t0: seq<seq<char>>, t1: seq<seq<char>>, t2: seq<seq<char>>,
                   a: seq<seq<char>>, b: seq<seq<char>>, c: seq<seq<char>>)
    requires t0 == a + t1 && t1 == b + t2 && t2 == ["}", ""] + c + [""]
    ensures t0 == a + b + ["}", ""] + c + [""]
  {
  }

  /** The template after the body's line: the closing brace, an empty line, the rest, and the last indent. */
  function FunctionTail(latter: seq<char>): seq<char> {
    Repeat(' ', 20) + "}" + ("\n" + ("\n" + (Repeat(' ', 20) + latter + ("\n" + Repeat(' ', 16)))))
  }

  /** The tail of the template trims to `}`, an empty line, the rest's lines, and an empty line. */
  lemma FunctionTailLines(latter: seq<char>)
    ensures TrimAll(Lines(FunctionTail(latter))) == ["}", ""] + TrimAll(Lines(latter + "\n")) + [""]
  {
    var r3 := "\n" + (Repeat(' ', 20) + latter + ("\n" + Repeat(' ', 16)));
    var brace := "}";
    assert '\n' !in brace && StripCarriageReturn(brace) == brace && IsTrimmed(brace);
    IndentedLineThen(20, brace, r3);
    RestLines(latter);
    TailChain(TrimAll(Lines(FunctionTail(latter))), TrimAll(Lines(r3)), TrimAll(Lines(latter + "\n")), brace);
  }

  /** The steps of `FunctionTailLines`, put together. */
  lemma TailChain(t: seq<seq<char>>, t3: seq<seq<char>>, c: seq<seq<char>>, brace: seq<char>)
    requires brace == "}" && t == [brace] + t3 && t3 == [""] + c + [""]
    ensures t == ["}", ""] + c + [""]
  {
  }

  /** After the closing brace: an empty line, the rest's lines, and the last indent's empty line. */
  lemma RestLines(latter: seq<char>)
    ensures var r4 := Repeat(' ', 20) + latter + ("\n" + Repeat(' ', 16));
      TrimAll(Lines("\n" + r4)) == [""] + TrimAll(Lines(latter + "\n")) + [""]
  {
    var sp16 := Repeat(' ', 16);
    var r4 := Repeat(' ', 20) + latter + ("\n" + sp16);
    assert TrimAll(Lines("\n" + r4)) == [""] + TrimAll(Lines(r4)) by {
      LinesAfterLine([], r4);
      assert [] + ("\n" + r4) == "\n" + r4;
      TrimAllAppend([[]], Lines(r4));
    }
    assert TrimAll(Lines(r4)) == TrimAll(Lines(latter + "\n")) + [""] by {
      IndentedAppend(20, latter, sp16);
      BlankLine(16);
    }
  }

  /** A line of spaces without a line feed trims to one empty line. */
  lemma BlankLine(n: nat)
    requires n > 0
    ensures TrimAll(Lines(Repeat(' ', n))) == [""]
  {
    LastLine(Repeat(' ', n));
    TrimEmptyIff(Repeat(' ', n));
  }

  /** The text the translator gives for `f = |byte x| {x}`: a function of one `u8` parameter returning its body. */
  const FunctionExampleText: seq<char> := "fn f(x u8)  {\nx\n}\n\n\n"

  /** `f = |byte x| {x}` becomes `fn f(x u8)  {`, `x`, `}` and three empty lines, whatever the globals. */
  lemma FunctionExample(st: State)
    ensures Translate(Assignment(false, Option.None, Ident("f"),
      FnPair(TonsOfTokens([Param(false, Ident("byte"), Ident("x"))]), Ident("x"), Token.None)), st)
      == Ok((FunctionExampleText, st))
  {
    var p := Param(false, Ident("byte"), Ident("x"));
    var fn := FnPair(TonsOfTokens([p]), Ident("x"), Token.None);
    IdentTranslation("x", st);
    assert Translate(Ident("x"), st) == Ok(("x", st));
    assert Translate(Token.None, st) == Ok(([], st));
    OneParamText(p, "x u8");
    FunctionTranslation(false, Option.None, "f", fn, st);
    ExampleLines();
  }

  /** The texts of a single parameter. */
  lemma OneParamText(p: Token, x: seq<char>)
    requires p == Param(false, Ident("byte"), Ident("x")) && x == "x u8"
    ensures ParamTexts([p]) == Ok([x])
  {
    ParamTextOfKnown(p);
    assert ParamText(p) == Ok(x) by {
      assert MutKeyword(false) + "x" + " " + TypeNames["byte"] == x;
    }
    assert [p][0] == p && [p][1..] == [];
    assert ParamTexts([p][1..]) == Ok([]);
    assert [x] + [] == [x];
  }

  /** The trimmed lines of the example's template, and their join. */
  lemma ExampleLines()
    ensures Join(FunctionLines(FunctionHeader("f", Join(["x u8"], ", "), KnownReturnType(Option.None)), "x", []), "\n")
      == FunctionExampleText
  {
    var head := "fn f(x u8)  {";
    var x := "x";
    assert FunctionHeader("f", Join(["x u8"], ", "), KnownReturnType(Option.None)) == head;
    assert '\n' !in head && StripCarriageReturn(head) == head && IsTrimmed(head);
    assert '\n' !in x && StripCarriageReturn(x) == x && IsTrimmed(x);
    LinesWithEmptyRest(head, x);
    ExampleJoin(head, x);
  }

  /** A one-line header and a one-line body, with nothing after the function. */
  lemma LinesWithEmptyRest(head: seq<char>, x: seq<char>)
    requires '\n' !in head && StripCarriageReturn(head) == head && IsTrimmed(head)
    requires '\n' !in x && StripCarriageReturn(x) == x && IsTrimmed(x)
    ensures FunctionLines(head, x, []) == [head, x, "}", "", "", ""]
  {
    TrimmedLine(head);
    TrimmedLine(x);
    assert TrimAll(Lines([] + "\n")) == [""] by {
      LinesAfterLine([], []);
      assert [] + ("\n" + []) == [] + "\n";
    }
    SixLines(TrimAll(Lines(head + "\n")), TrimAll(Lines(x + "\n")), TrimAll(Lines([] + "\n")), head, x);
  }

  /** The lines of `LinesWithEmptyRest`, put together. */
  lemma SixLines(a: seq<seq<char>>, b: seq<seq<char>>, c: seq<seq<char>>, head: seq<char>, x: seq<char>)
    requires a == [head] && b == [x] && c == [""]
    ensures a + b + ["}", ""] + c + [""] == [head, x, "}", "", "", ""]
  {
  }

  /** Six lines joined by line feeds. */
  lemma ExampleJoin(head: seq<char>, x: seq<char>)
    requires head == "fn f(x u8)  {" && x == "x"
    ensures Join([head, x, "}", "", "", ""], "\n") == FunctionExampleText
  {
    var e: seq<char> := [];
    assert Join([e, e], "\n") == "\n";
    assert Join([e, e, e], "\n") == "\n\n";
    assert Join(["}", e, e, e], "\n") == "}\n\n\n";
    assert Join([x, "}", e, e, e], "\n") == "x\n}\n\n\n";
  }

  /** The parts of a lowerable function definition never panic. */
  lemma FunctionPartsLower(args: TonsOfTokens, ann: Option<Token>)
    requires forall i | 0 <= i < |args.tokens| :: KnownParam(args.tokens[i])
    ensures args.tokens != [] ==> ParamList(args.tokens).Ok?
    ensures !ReturnType(ann).Panic?
  {
    ParamTextsAll(args.tokens);
  }

  /**
   * A tree the translator has an arm for all the way down never panics (it
   * may still fail in a function definition), and every tree that
   * translates is one of those.
   */
  lemma {:induction false} LowerableNeverPanics(t: Token, st: State)
    ensures Lowerable(t) ==> !Translate(t, st).Panic?
    ensures Translate(t, st).Ok? ==> Lowerable(t)
    decreases t
  {
    match t
    case Assignment(m, ann, id, v) =>
      if v.FnPair? {
        var body := Translate(v.body, st);
        LowerableNeverPanics(v.body, st);
        if body.Ok? {
          LowerableNeverPanics(v.after, body.value.1);
        }
        FunctionLowerable(t, st);
      } else {
        assert Translate(t, st) == TranslateBinding(t, st);
        var i := Translate(id, st);
        LowerableNeverPanics(id, st);
        if i.Ok? {
          if ann.Some? {
            LowerableNeverPanics(ann.value, i.value.1);
          }
          var a := if ann.None? then Ok(([], i.value.1))
                   else var x :- Translate(ann.value, i.value.1); Ok((x.0 + "(", x.1));
          if a.Ok? {
            LowerableNeverPanics(v, a.value.1);
          }
        }
      }
    case MethodUnit(name, arg) =>
      assert Translate(t, st) == TranslateCall(t, st);
      if name.Ident? && !arg.Array? {
        IdentTranslation(name.name, st);
        LowerableNeverPanics(arg, st);
      }
    case Literal(l) =>
      LiteralTranslation(l, st);
    case Pair(a, b) =>
      var x := Translate(a, st);
      LowerableNeverPanics(a, st);
      if x.Ok? {
        LowerableNeverPanics(b, x.value.1);
      }
    case CondPair(c, b, a) =>
      var x := Translate(c, st);
      LowerableNeverPanics(c, st);
      if x.Ok? {
        var y := Translate(b, x.value.1);
        LowerableNeverPanics(b, x.value.1);
        if y.Ok? {
          LowerableNeverPanics(a, y.value.1);
        }
      }
    case IfStmt(c) =>
      LowerableNeverPanics(c, st);
    case Op(o) =>
      assert Translate(t, st) == TranslateOp(o, st);
      var x := Translate(o.l, st);
      LowerableNeverPanics(o.l, st);
      if x.Ok? {
        LowerableNeverPanics(o.r, x.value.1);
      }
    case Ident(_) =>
    case None =>
    case Param(_, _, _) =>
    case FnPair(_, _, _) =>
    case Method(_, _) =>
    case Span(_, _) =>
    case Array(_) =>
  }

  /** `LowerableNeverPanics` for a function definition, given it for the body and the rest. */
  lemma FunctionLowerable(t: Token, st: State)
    requires t.Assignment? && t.value.FnPair?
    requires Lowerable(t.value.body) ==> !Translate(t.value.body, st).Panic?
    requires Translate(t.value.body, st).Ok? ==> Lowerable(t.value.body)
    requires Translate(t.value.body, st).Ok? ==>
      && (Lowerable(t.value.after) ==> !Translate(t.value.after, Translate(t.value.body, st).value.1).Panic?)
      && (Translate(t.value.after, Translate(t.value.body, st).value.1).Ok? ==> Lowerable(t.value.after))
    ensures Lowerable(t) ==> !Translate(t, st).Panic?
    ensures Translate(t, st).Ok? ==> Lowerable(t)
  {
    assert Translate(t, st) == GenFunction(t, st);
    var ps := t.value.params.tokens;
    ParamTextsAll(ps);
    if forall i | 0 <= i < |ps| :: KnownParam(ps[i]) {
      FunctionPartsLower(t.value.params, t.typeAnnotation);
    }
  }

  /** A translation's outcome without the globals it leaves: the text, the error message, or the panic. */
  function Outcome(r: Result<(seq<char>, State)>): (o: Result<seq<char>>)
    ensures o.Ok? <==> r.Ok?
    ensures o.Panic? <==> r.Panic?
  {
    match r
    case Ok(v) => Ok(v.0)
    case Err(m) => Err(m)
    case Panic => Panic
  }

  /**
   * The printer's globals persist from one translation to the next, but
   * every translation leaves the depth where it found it, and at depth 0
   * the `DO_INDENT` flag changes nothing: the outcome of translating from
   * depth 0 does not depend on the flag.
   */
  lemma {:induction false} TranslateAtTop(t: Token, s1: State, s2: State)
    requires s1.indent == 0 && s2.indent == 0
    ensures Outcome(Translate(t, s1)) == Outcome(Translate(t, s2))
    decreases t, 1
  {
    match t
    case Assignment(_, _, _, v) =>
      if v.FnPair? {
        GenFunctionAtTop(t, s1, s2);
      } else {
        BindingAtTop(t, s1, s2);
      }
    case MethodUnit(_, _) => CallAtTop(t, s1, s2);
    case Pair(_, _) => PairAtTop(t, s1, s2);
    case CondPair(_, _, _) => CondPairAtTop(t, s1, s2);
    case IfStmt(c) => TranslateAtTop(c, s1, s2);
    case Op(o) => OpAtTop(o, s1, s2);
    case _ =>
  }

  /** `TranslateAtTop` for a sequence: the first statement, then the second. */
  lemma {:induction false} PairAtTop(t: Token, s1: State, s2: State)
    requires t.Pair? && s1.indent == 0 && s2.indent == 0
    ensures Outcome(Translate(t, s1)) == Outcome(Translate(t, s2))
    decreases t, 0
  {
    var Pair(a, b) := t;
    TranslateAtTop(a, s1, s2);
    if Translate(a, s1).Ok? {
      TranslateAtTop(b, Translate(a, s1).value.1, Translate(a, s2).value.1);
    }
  }

  /** `TranslateAtTop` for a condition: the condition, the block, then the rest. */
  lemma {:induction false} CondPairAtTop(t: Token, s1: State, s2: State)
    requires t.CondPair? && s1.indent == 0 && s2.indent == 0
    ensures Outcome(Translate(t, s1)) == Outcome(Translate(t, s2))
    decreases t, 0
  {
    var CondPair(c, b, a) := t;
    TranslateAtTop(c, s1, s2);
    if Translate(c, s1).Ok? {
      var c1 := Translate(c, s1).value.1;
      var c2 := Translate(c, s2).value.1;
      TranslateAtTop(b, c1, c2);
      if Translate(b, c1).Ok? {
        TranslateAtTop(a, Translate(b, c1).value.1, Translate(b, c2).value.1);
      }
    }
  }

  /** `TranslateAtTop` for a binding: the name, the annotation, then the value. */
  lemma {:induction false} BindingAtTop(t: Token, s1: State, s2: State)
    requires t.Assignment? && s1.indent == 0 && s2.indent == 0
    ensures Outcome(TranslateBinding(t, s1)) == Outcome(TranslateBinding(t, s2))
    decreases t, 0
  {
    var Assignment(_, ann, id, v) := t;
    TranslateAtTop(id, s1, s2);
    if Translate(id, s1).Ok? {
      var i1 := Translate(id, s1).value.1;
      var i2 := Translate(id, s2).value.1;
      var a1 := i1;
      var a2 := i2;
      if ann.Some? {
        TranslateAtTop(ann.value, i1, i2);
        if Translate(ann.value, i1).Ok? {
          a1 := Translate(ann.value, i1).value.1;
          a2 := Translate(ann.value, i2).value.1;
        }
      }
      if ann.None? || Translate(ann.value, i1).Ok? {
        TranslateAtTop(v, a1, a2);
      }
    }
  }

  /** `TranslateAtTop` for a call: printed elements, or the translated argument. */
  lemma {:induction false} CallAtTop(t: Token, s1: State, s2: State)
    requires t.MethodUnit? && s1.indent == 0 && s2.indent == 0
    ensures Outcome(TranslateCall(t, s1)) == Outcome(TranslateCall(t, s2))
    decreases t, 0
  {
    var MethodUnit(name, args) := t;
    if name.Ident? && args.Array? {
      RenderElemsAtTop(TonsOfTokens(args.elems), |args.elems|, s1, s2);
    } else if name.Ident? {
      TranslateAtTop(args, s1, s2);
    }
  }

  /** `TranslateAtTop` for an operation: the left operand, then the right. */
  lemma {:induction false} OpAtTop(o: Op, s1: State, s2: State)
    requires s1.indent == 0 && s2.indent == 0
    ensures Outcome(TranslateOp(o, s1)) == Outcome(TranslateOp(o, s2))
    decreases o, 0
  {
    TranslateAtTop(o.l, s1, s2);
    if Translate(o.l, s1).Ok? {
      TranslateAtTop(o.r, Translate(o.l, s1).value.1, Translate(o.l, s2).value.1);
    }
  }

  /** `TranslateAtTop` for a function definition: the body, then the rest. */
  lemma {:induction false} GenFunctionAtTop(t: Token, s1: State, s2: State)
    requires s1.indent == 0 && s2.indent == 0
    ensures Outcome(GenFunction(t, s1)) == Outcome(GenFunction(t, s2))
    decreases t, 0
  {
    if t.Assignment? && t.value.FnPair? {
      var fn := t.value;
      TranslateAtTop(fn.body, s1, s2);
      if Translate(fn.body, s1).Ok? {
        TranslateAtTop(fn.after, Translate(fn.body, s1).value.1, Translate(fn.body, s2).value.1);
      }
    }
  }

  /**
   * `translate_file` from whatever globals an earlier call left (they are
   * at depth 0 again after any translation from depth 0): the same outcome
   * as from their initial values.
   */
  lemma FileFromAnyGlobals(t: Token, st: State)
    requires st.indent == 0
    ensures TranslateFile(t).Ok? <==> Translate(t, st).Ok?
    ensures TranslateFile(t).Ok? ==> TranslateFile(t).value == "\n\n\n" + Translate(t, st).value.0
    ensures Translate(t, st).Err? ==> TranslateFile(t) == Err(Translate(t, st).message)
    ensures Translate(t, st).Panic? ==> TranslateFile(t).Panic?
  {
    TranslateAtTop(t, Initial, st);
  }

  /** Translating a tree a second time, from the globals the first translation left, gives the same outcome. */
  lemma TranslateTwice(t: Token)
    requires Translate(t, Initial).Ok?
    ensures var again := Translate(t, Translate(t, Initial).value.1);
      again.Ok? && again.value.0 == Translate(t, Initial).value.0 && again.value.1.indent == 0
  {
    TranslateAtTop(t, Initial, Translate(t, Initial).value.1);
  }
}
