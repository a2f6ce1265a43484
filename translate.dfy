/**
 * The translator: a structural recursion from the syntax tree to target
 * source text. Every step either yields text, fails with an error message
 * (`Err`), or aborts (`Panic`) where the source calls `unimplemented!()` or
 * `unwrap()` on an error.
 *
 * Only the arm for a call with an array argument prints tokens with the
 * diagnostic printer, whose globals it reads and updates; so every step
 * takes the printer's state and returns it alongside the text.
 */
module Translator {
  import opened Text
  import opened Syntax
  import opened Wrappers
  import opened Display
  import Literals

  /** The type names the source language knows, with their target types. */
  const TypeNames: map<seq<char>, seq<char>> := map[
    "byte" := "u8", "small" := "u16", "medium" := "u32", "large" := "u64",
    "bytesigned" := "i8", "smallsigned" := "i16", "mediumsigned" := "i32", "largesigned" := "i64",
    "mediumfloat" := "f32", "largefloat" := "f64"]

  const UnknownTypeName: seq<char> := "Failed to parse literal identifier"
  const MissingName: seq<char> := "I need a name for the function, or it wasn't valid."
  const BadReturnType: seq<char> := "failed to parse return type for function"

  /** The message `you_asked!(req, didntget)` builds. */
  function YouAsked(req: seq<char>, didntget: seq<char>): seq<char> {
    "You asked to parse " + req + " but you didn't give me " + didntget + "?!?! >:("
  }

  /** `transform_literal`: a type name's target type. */
  function TransformLiteral(lit: seq<char>): (r: Result<seq<char>>)
    ensures !r.Panic?
  {
    match lit
    case "byte" => Ok("u8")
    case "small" => Ok("u16")
    case "medium" => Ok("u32")
    case "large" => Ok("u64")
    case "bytesigned" => Ok("i8")
    case "smallsigned" => Ok("i16")
    case "mediumsigned" => Ok("i32")
    case "largesigned" => Ok("i64")
    case "mediumfloat" => Ok("f32")
    case "largefloat" => Ok("f64")
    case _ => Err(UnknownTypeName)
  }

  /** `transform_literal` knows exactly the ten names of the table, and nothing else. */
  lemma TransformLiteralTable(lit: seq<char>)
    ensures TransformLiteral(lit).Ok? <==> lit in TypeNames
    ensures lit in TypeNames ==> TransformLiteral(lit) == Ok(TypeNames[lit])
    ensures lit !in TypeNames ==> TransformLiteral(lit) == Err(UnknownTypeName)
  {
  }

  /** An identifier: its target type when it names one, otherwise itself. */
  function TranslateIdent(name: seq<char>): (r: seq<char>)
    ensures name in TypeNames ==> r == TypeNames[name]
    ensures name !in TypeNames ==> r == name
  {
    TransformLiteralTable(name);
    var t := TransformLiteral(name);
    if t.Ok? then t.value else name
  }

  /** The `mut ` keyword of a mutable binding. */
  function MutKeyword(m: bool): seq<char> {
    if m then "mut " else ""
  }

  /**
   * `translate`: the target text of `t`, and the printer's globals after
   * it. Only printing changes those globals, and never their depth.
   */
  function Translate(t: Token, st: State): (r: Result<(seq<char>, State)>)
    ensures r.Ok? ==> r.value.1.indent == st.indent
    decreases t, 1
  {
    match t
    case Assignment(_, _, _, v) =>
      if v.FnPair? then GenFunction(t, st) else TranslateBinding(t, st)
    case MethodUnit(_, _) => TranslateCall(t, st)
    case Literal(l) => TranslateLiteral(l, st)
    case Pair(former, latter) =>
      var a :- Translate(former, st);
      var b :- Translate(latter, a.1);
      Ok((a.0 + "\n" + b.0, b.1))
    case CondPair(cond, block, latter) =>
      var c :- Translate(cond, st);
      var b :- Translate(block, c.1);
      var l :- Translate(latter, b.1);
      Ok(("if " + c.0 + " {\n" + b.0 + "\n}\n " + l.0, l.1))
    case IfStmt(cond) => Translate(cond, st)
    case Op(o) => TranslateOp(o, st)
    case Ident(name) => Ok((TranslateIdent(name), st))
    case None => Ok(([], st))
    case Param(_, _, _) => Panic
    case FnPair(_, _, _) => Panic
    case Method(_, _) => Panic
    case Span(_, _) => Panic
    case Array(_) => Panic
  }

  /**
   * The arm for an assignment of anything but a function definition:
   * `[mut ]name := value`, the value wrapped in a call of the annotation
   * when there is one.
   */
  function TranslateBinding(t: Token, st: State): (r: Result<(seq<char>, State)>)
    requires t.Assignment?
    ensures r.Ok? ==> r.value.1.indent == st.indent
    decreases t, 0
  {
    var Assignment(m, ann, id, v) := t;
    var i :- Translate(id, st);
    var a :- if ann.None? then Ok(([], i.1))
             else var x :- Translate(ann.value, i.1); Ok((x.0 + "(", x.1));
    var x :- Translate(v, a.1);
    Ok((MutKeyword(m) + i.0 + " := " + a.0 + x.0 + (if ann.Some? then ")" else ""), x.1))
  }

  /**
   * The arm for a call: with an array argument the elements are printed,
   * not translated; with any other argument it is translated, after the
   * callee, which is translated as an identifier (and so changes no state);
   * a callee that is not an identifier is a panic.
   */
  function TranslateCall(t: Token, st: State): (r: Result<(seq<char>, State)>)
    requires t.MethodUnit?
    ensures r.Ok? ==> r.value.1.indent == st.indent
    decreases t, 0
  {
    var MethodUnit(name, args) := t;
    if name.Ident? && args.Array? then
      var e := RenderElems(TonsOfTokens(args.elems), |args.elems|, st);
      Ok((name.name + "(" + Join(e.0, ", ") + ")", e.1))
    else if name.Ident? then
      var a :- Translate(args, st);
      Ok((TranslateIdent(name.name) + "(" + a.0 + ")", a.1))
    else Panic
  }

  /** The arm for a literal: only vague integers, strings and bytes have one. */
  function TranslateLiteral(l: Literals.Literal, st: State): (r: Result<(seq<char>, State)>)
    ensures r.Ok? ==> r.value.1 == st
  {
    match l
    case Vague(Integer(i)) => Ok((i, st))
    case Vague(_) => Panic
    case String(s) => Ok(("\"" + s + "\"", st))
    case Number(Byte(i)) => Ok(("u8(" + DecimalString(i) + ")", st))
    case Number(_) => Panic
    case Bool(_) => Panic
  }

  /** `translate_op`: both operands, in order, around the operator's symbol, in parentheses. */
  function TranslateOp(o: Op, st: State): (r: Result<(seq<char>, State)>)
    ensures r.Ok? ==> r.value.1.indent == st.indent
    decreases o, 0
  {
    var l :- Translate(o.l, st);
    var r :- Translate(o.r, l.1);
    Ok(("(" + l.0 + " " + Symbol(o) + " " + r.0 + ")", r.1))
  }

  /**
   * `gen_function`: an assignment of a function definition becomes a
   * function declaration followed by the rest of the program, every line
   * trimmed. The parts are worked out in the order the source names them:
   * body, name, parameters, return type, rest.
   */
  function GenFunction(a: Token, st: State): (r: Result<(seq<char>, State)>)
    ensures r.Ok? ==> r.value.1.indent == st.indent
    decreases a, 0
  {
    match a
    case Assignment(_, ann, id, v) =>
      (match v
       case FnPair(args, body, after) =>
         var inner :- Translate(body, st);
         var name :- if id.Ident? then Ok(id.name) else Err(MissingName);
         var fnargs :- if args.tokens == [] then Ok([]) else ParamList(args.tokens);
         var ret :- ReturnType(ann);
         var latter :- Translate(after, inner.1);
         var raw := FunctionText(name, fnargs, ret, inner.0, latter.0);
         Ok((Join(TrimAll(Lines(raw)), "\n"), latter.1))
       case _ => Err(YouAsked("a function", "a function")))
    case _ => Err(YouAsked("a function's assignment", "an assignment"))
  }

  /** The raw-string template of `gen_function`, before its lines are trimmed. */
  function FunctionText(name: seq<char>, fnargs: seq<char>, ret: seq<char>, inner: seq<char>, latter: seq<char>): (r: seq<char>)
    ensures "fn " + name + "(" + fnargs + ") " + ret + " {\n" + Repeat(' ', 24) + inner + "\n" <= r
  {
    "fn " + name + "(" + fnargs + ") " + ret + " {\n"
    + Repeat(' ', 24) + inner + "\n"
    + Repeat(' ', 20) + "}\n"
    + "\n"
    + Repeat(' ', 20) + latter + "\n"
    + Repeat(' ', 16)
  }

  /** The declared return type: none, or a type name of the table. */
  function ReturnType(ann: Option<Token>): (r: Result<seq<char>>)
    ensures !r.Panic?
  {
    match ann
    case None => Ok([])
    case Some(Ident(id)) => TransformLiteral(id)
    case Some(_) => Err(BadReturnType)
  }

  /** The parameters, each as `[mut ]name Type`, joined by `, `. */
  function ParamList(ps: seq<Token>): (r: Result<seq<char>>)
    ensures !r.Err?
    ensures r.Ok? <==> ParamTexts(ps).Ok?
    ensures ps == [] ==> r == Ok([])
  {
    var texts :- ParamTexts(ps);
    Ok(Join(texts, ", "))
  }

  function ParamTexts(ps: seq<Token>): (r: Result<seq<seq<char>>>)
    ensures r.Ok? ==> |r.value| == |ps|
    ensures !r.Err?
  {
    if ps == [] then Ok([])
    else
      var x :- ParamText(ps[0]);
      var xs :- ParamTexts(ps[1..]);
      Ok([x] + xs)
  }

  /**
   * One parameter: `[mut ]name Type`. A parameter that is not two
   * identifiers, or whose type is not in the table, is a panic.
   */
  function ParamText(p: Token): (r: Result<seq<char>>)
    ensures !r.Err?
  {
    if p.Param? && p.annotation.Ident? && p.ident.Ident? then
      var ty := TransformLiteral(p.annotation.name);
      if ty.Ok? then Ok(MutKeyword(p.mutable) + p.ident.name + " " + ty.value) else Panic
    else Panic
  }

  /** `translate_file`: the prelude, a line feed, then the translation, starting from the globals' initial values. */
  function TranslateFile(source: Token): (r: Result<seq<char>>)
    ensures r.Ok? <==> Translate(source, Initial).Ok?
    ensures r.Panic? <==> Translate(source, Initial).Panic?
    ensures r.Ok? ==> "\n\n\n" <= r.value
  {
    var x :- Translate(source, Initial);
    Ok("\n\n" + "\n" + x.0)
  }
}
