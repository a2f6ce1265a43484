/**
 * The diagnostic printer: the `Display` implementations of the syntax
 * tree. Literals print on their own; tokens print against two globals, an
 * indentation depth and a flag saying whether the next token starts with
 * that many tabs. `Render` is the printer as a function of those globals,
 * returning their new values; class `Printer` (module `Printing`) keeps them
 * in fields and updates them as the source does.
 */
module Display {
  import opened Text
  import opened Syntax
  import Literals
  import Wrappers
  import Combinators

  /** The values of `INDENT` and `DO_INDENT`. */
  datatype State = State(indent: nat, doIndent: bool)

  /** Both globals as the program starts. */
  const Initial: State := State(0, false)

  /** A vague integer prints with a trailing `v`; a vague string prints raw. */
  function RenderVague(v: Literals.VagueLiteral): (r: seq<char>)
    ensures v.Integer? ==> |r| == |v.digits| + 1 && r[..|v.digits|] == v.digits && r[|v.digits|] == 'v'
    ensures v.String? ==> r == v.text
  {
    match v
    case Integer(d) => d + "v"
    case String(t) => t
  }

  /** A strict integer prints as its value in decimal, then the suffix of its kind. */
  function RenderNumber(n: Literals.StrictNumber): (r: seq<char>)
    ensures |Literals.SuffixOf(n)| < |r|
    ensures r[|r| - |Literals.SuffixOf(n)|..] == Literals.SuffixOf(n)
  {
    IntString(Literals.Value(n)) + Literals.SuffixOf(n)
  }

  /** A literal as written: a strict number with its suffix, a vague one with its marker, a boolean as a word, a string as itself. */
  function RenderLiteral(l: Literals.Literal): (r: seq<char>)
    ensures l.Number? ==> |Literals.SuffixOf(l.num)| < |r| && r[|r| - |Literals.SuffixOf(l.num)|..] == Literals.SuffixOf(l.num)
    ensures l.Bool? ==> (r == "true" <==> l.flag) && (r == "false" <==> !l.flag)
    ensures l.String? ==> r == l.text
  {
    match l
    case Number(n) => RenderNumber(n)
    case Vague(v) => RenderVague(v)
    case Bool(b) => if b then "true" else "false"
    case String(t) => t
  }

  /** The tabs a token starts with: `INDENT` of them when `DO_INDENT` is set. */
  function Prefix(st: State): (r: seq<char>)
    ensures AllWhitespace(r)
    ensures st.doIndent ==> r == Tabs(st.indent)
    ensures !st.doIndent ==> r == []
  {
    if st.doIndent then Tabs(st.indent) else []
  }

  /** The test `format!("{p}").trim() == ""`, stated as: whitespace throughout (see `BlankIsTrimEmpty`). */
  predicate Blank(s: seq<char>) {
    AllWhitespace(s)
  }

  /** A text is blank exactly when trimming leaves nothing of it. */
  lemma BlankIsTrimEmpty(s: seq<char>)
    ensures Blank(s) <==> Trim(s) == []
  {
    TrimEmptyIff(s);
  }

  function MutableText(m: bool): (r: seq<char>)
    ensures m <==> r == " (mut)"
    ensures !m <==> r == []
  {
    if m then " (mut)" else ""
  }

  /**
   * `Token::fmt`: the text of `t` printed from globals `st`, and the globals
   * afterwards. Printing never changes the indentation depth in the end.
   */
  function Render(t: Token, st: State): (res: (seq<char>, State))
    ensures res.1.indent == st.indent
    decreases t, 4
  {
    var a := RenderArm(t, st);
    (Prefix(st) + a.0, a.1)
  }

  /** What the arm of `Token::fmt` for `t` appends after the prefix. */
  function RenderArm(t: Token, st: State): (res: (seq<char>, State))
    ensures res.1.indent == st.indent
    decreases t, 3
  {
    match t
    case Ident(name) => (name, st)
    case Assignment(m, ann, id, v) =>
      var s0 := st.(doIndent := false);
      var a := if ann.None? then ("[unknown]", s0)
               else var x := Render(ann.value, s0); ("[" + x.0 + "]", x.1);
      var i := Render(id, a.1);
      var x := Render(v, i.1);
      ("Assignment" + MutableText(m) + ": " + i.0 + " " + a.0 + " = " + x.0, x.1)
    case Param(m, ann, id) =>
      var a := Render(ann, st.(doIndent := false));
      var i := Render(id, a.1);
      (a.0 + " " + i.0 + " " + MutableText(m), i.1)
    case Literal(l) => (RenderLiteral(l), st)
    case Op(o) => RenderOp(o, st)
    case IfStmt(c) =>
      var x := Render(c, st);
      ("Cond: " + x.0, x.1)
    case Pair(p1, p2) =>
      var x := Render(p1, st.(doIndent := false));
      var probe := Render(p2, x.1.(doIndent := true));
      if Blank(probe.0) then ("<" + x.0 + ">", probe.1)
      else
        var y := Render(p2, probe.1);
        ("<" + x.0 + ";\n" + y.0 + ">", y.1)
    case CondPair(_, _, _) => RenderBlock(t, st)
    case FnPair(_, _, _) => RenderBlock(t, st)
    case Method(op, call) =>
      var x := Render(op, st.(doIndent := false));
      var y := Render(call, x.1.(doIndent := true));
      ("<" + x.0 + " THEN \n" + y.0 + ">", y.1)
    case MethodUnit(_, _) => ([], st)
    case Span(_, _) => ([], st)
    case Array(_) => ([], st)
    case None => ([], st)
  }

  /**
   * A condition or a parameter list, a block and the rest of the program,
   * after the prefix: with the tab prefix off, the tabs of the depth the
   * token started at, the opening mark and the head; then the rest.
   */
  function RenderBlock(t: Token, st: State): (res: (seq<char>, State))
    requires t.CondPair? || t.FnPair?
    ensures res.1.indent == st.indent
    decreases t, 2
  {
    var s0 := st.(doIndent := false);
    var head := if t.CondPair? then Render(t.cond, s0) else RenderTokens(t.params, s0);
    var b := RenderBody(t, st.indent, head.1);
    (Tabs(st.indent) + (if t.CondPair? then "<<?" else "<<λ") + head.0 + ";\n" + b.0, b.1)
  }

  /** The block, printed one level deeper with the tab prefix on, then the rest. */
  function RenderBody(t: Token, ind: nat, st: State): (res: (seq<char>, State))
    requires t.CondPair? || t.FnPair?
    ensures res.1.indent == st.indent
    decreases t, 1
  {
    var body := Render(if t.CondPair? then t.block else t.body, State(st.indent + 1, true));
    var a := RenderAfter(t, ind, body.1);
    (body.0 + "\n" + a.0, a.1)
  }

  /**
   * The rest of the program is probed, the closing mark chosen by whether
   * it printed blank, and the level taken back before the rest is printed
   * for good. `ind` is the depth the token started at.
   */
  function RenderAfter(t: Token, ind: nat, st: State): (res: (seq<char>, State))
    requires t.CondPair? || t.FnPair?
    requires st.indent >= 1
    ensures res.1.indent == st.indent - 1
    decreases t, 0
  {
    var probe := Render(t.after, st);
    if Blank(probe.0) then
      var rest := Render(t.after, State(st.indent - 1, false));
      (Tabs(ind) + CloseMark(t) + rest.0 + ">", rest.1)
    else
      var rest := Render(t.after, probe.1.(indent := st.indent - 1));
      (CloseMark(t) + "\n" + rest.0 + ">", rest.1)
  }

  /** The mark that ends a condition or a function definition. */
  function CloseMark(t: Token): seq<char> {
    if t.CondPair? then "?>" else "λ>"
  }

  /** `Op`'s `Display`: both operands, printed in order, around the operator's symbol. */
  function RenderOp(o: Op, st: State): (res: (seq<char>, State))
    ensures res.1.indent == st.indent
    decreases o, 0
  {
    var x := Render(o.l, st);
    var y := Render(o.r, x.1);
    ("(" + x.0 + " " + Symbol(o) + " " + y.0 + ")", y.1)
  }

  /** `TonsOfTokens`'s `Display`: every token printed in turn, joined by `, `. */
  function RenderTokens(tt: TonsOfTokens, st: State): (res: (seq<char>, State))
    ensures res.1.indent == st.indent
    decreases tt, |tt.tokens| + 1
  {
    var e := RenderElems(tt, |tt.tokens|, st);
    (Join(e.0, ", "), e.1)
  }

  /** The first `n` tokens of `tt` printed in turn, each from the globals the previous one left. */
  function RenderElems(tt: TonsOfTokens, n: nat, st: State): (res: (seq<seq<char>>, State))
    requires n <= |tt.tokens|
    ensures |res.0| == n && res.1.indent == st.indent
    decreases tt, n
  {
    if n == 0 then ([], st)
    else
      var e := RenderElems(tt, n - 1, st);
      var x := Render(tt.tokens[n - 1], e.1);
      (e.0 + [x.0], x.1)
  }

  /**
   * A non-negative strict integer printed and read back is the same
   * number, provided what follows cannot extend its suffix.
   */
  lemma NumberRoundTrip(n: Literals.StrictNumber, rest: seq<char>)
    requires Literals.Value(n) >= 0 && Literals.NoDot(rest)
    requires !Literals.IsSignedKind(Literals.KindOf(n)) ==> rest == [] || rest[0] != 'i'
    ensures Literals.ParseLiteral(RenderNumber(n) + rest) == Combinators.Ok(Literals.Number(n), rest)
  {
    var v: nat := Literals.Value(n);
    var k := Literals.KindOf(n);
    assert v <= Literals.MaxFor(k);
    DecimalRoundTrip(v);
    Literals.LiteralStrictInteger(DecimalString(v), k, rest);
    BuildOfValue(n);
  }

  lemma BuildOfValue(n: Literals.StrictNumber)
    requires Literals.Value(n) >= 0
    ensures Literals.Value(n) <= Literals.MaxFor(Literals.KindOf(n))
    ensures Literals.Build(Literals.KindOf(n), Literals.Value(n)) == n
  {
  }

  /**
   * The `v` a vague integer prints with is not read back as part of it: the
   * printed text parses as the same digits with the `v` left over.
   */
  lemma VagueMarkerStays(d: seq<char>, rest: seq<char>)
    requires |d| > 0 && AllDigits(d) && Literals.NoDot(rest)
    ensures Literals.ParseLiteral(RenderVague(Literals.Integer(d)) + rest)
      == Combinators.Ok(Literals.Vague(Literals.Integer(d)), "v" + rest)
  {
    assert RenderVague(Literals.Integer(d)) + rest == d + ("v" + rest);
    Literals.LiteralVagueInteger(d, "v" + rest);
  }

  /** Identifiers printed without the tab prefix come out as their names, and leave the globals alone. */
  lemma {:induction false} IdentsJoin(tt: TonsOfTokens, n: nat, st: State)
    requires n <= |tt.tokens| && !st.doIndent
    requires forall i | 0 <= i < |tt.tokens| :: tt.tokens[i].Ident?
    ensures RenderElems(tt, n, st) == (Names(tt.tokens[..n]), st)
  {
    if n > 0 {
      IdentsJoin(tt, n - 1, st);
      IdentRender(tt.tokens[n - 1].name, st);
      assert tt.tokens[..n][..n - 1] == tt.tokens[..n - 1];
    }
  }

  /** The names of a list of identifiers. */
  function Names(ts: seq<Token>): (r: seq<seq<char>>)
    requires forall i | 0 <= i < |ts| :: ts[i].Ident?
    ensures |r| == |ts| && forall i | 0 <= i < |ts| :: r[i] == ts[i].name
  {
    if ts == [] then [] else Names(ts[..|ts| - 1]) + [ts[|ts| - 1].name]
  }

  /** A parameter list of identifiers prints as their names joined by `, `. */
  lemma TokensOfIdents(tt: TonsOfTokens, st: State)
    requires !st.doIndent
    requires forall i | 0 <= i < |tt.tokens| :: tt.tokens[i].Ident?
    ensures RenderTokens(tt, st) == (Join(Names(tt.tokens), ", "), st)
  {
    IdentsJoin(tt, |tt.tokens|, st);
    assert tt.tokens[..|tt.tokens|] == tt.tokens;
  }

  /** `None` prints as its prefix alone, which is whitespace. */
  lemma NoneRendersPrefix(st: State)
    ensures Render(None, st) == (Prefix(st), st)
    ensures Blank(Render(None, st).0)
  {
    assert Prefix(st) + [] == Prefix(st);
  }

  /** A pair whose second element is `None` prints as `<first>`. */
  lemma PairWithNone(a: Token, st: State)
    ensures Render(Pair(a, None), st).0
      == Prefix(st) + ("<" + Render(a, st.(doIndent := false)).0 + ">")
  {
    var x := Render(a, st.(doIndent := false));
    NoneRendersPrefix(x.1.(doIndent := true));
  }

  /**
   * A pair of identifiers prints as `<first;\nsecond>`, the second on its own
   * line behind the current indentation, the first without it.
   */
  lemma PairOfIdents(x: seq<char>, y: seq<char>, st: State)
    requires !Blank(y)
    ensures Render(Pair(Ident(x), Ident(y)), st).0
      == Prefix(st) + ("<" + x + ";\n" + (Tabs(st.indent) + y) + ">")
  {
    var s1 := State(st.indent, true);
    IdentRender(x, st.(doIndent := false));
    IdentRender(y, s1);
    var probe := Tabs(st.indent) + y;
    assert !Blank(probe) by {
      var i :| 0 <= i < |y| && !IsWhitespace(y[i]);
      assert probe[st.indent + i] == y[i];
    }
  }

  /**
   * An assignment to a plain identifier prints `Assignment`, then ` (mut)`
   * exactly when it is mutable, the name, `[unknown]` for the missing
   * annotation, and the value; the name prints without tabs.
   */
  lemma AssignmentUnannotated(m: bool, x: seq<char>, v: Token, st: State)
    ensures Render(Assignment(m, Wrappers.None, Ident(x), v), st).0
      == Prefix(st) + ("Assignment" + MutableText(m) + ": " + x + " " + "[unknown]" + " = " + Render(v, st.(doIndent := false)).0)
  {
    IdentRender(x, st.(doIndent := false));
  }

  /** With an identifier as annotation, the annotation prints between brackets, without tabs. */
  lemma AssignmentAnnotated(m: bool, ty: seq<char>, x: seq<char>, v: Token, st: State)
    ensures Render(Assignment(m, Wrappers.Some(Ident(ty)), Ident(x), v), st).0
      == Prefix(st) + ("Assignment" + MutableText(m) + ": " + x + " " + ("[" + ty + "]") + " = " + Render(v, st.(doIndent := false)).0)
  {
    AnnotatedArm(m, ty, x, v, st);
  }

  /** The arm of an annotated assignment, after the prefix. */
  lemma AnnotatedArm(m: bool, ty: seq<char>, x: seq<char>, v: Token, st: State)
    ensures RenderArm(Assignment(m, Wrappers.Some(Ident(ty)), Ident(x), v), st)
      == ("Assignment" + MutableText(m) + ": " + x + " " + ("[" + ty + "]") + " = " + Render(v, st.(doIndent := false)).0,
          Render(v, st.(doIndent := false)).1)
  {
    var s0 := st.(doIndent := false);
    IdentRender(ty, s0);
    IdentRender(x, s0);
  }

  /**
   * An operation on two identifiers prints the symbol the parser read
   * between them, in parentheses; with the tab prefix on, each operand
   * gets the tabs as well.
   */
  lemma OpOfIdents(sym: seq<char>, a: seq<char>, b: seq<char>, st: State)
    requires sym in Symbols
    ensures Render(Op(OpFor(sym, Ident(a), Ident(b))), st)
      == (Prefix(st) + ("(" + (Prefix(st) + a) + " " + sym + " " + (Prefix(st) + b) + ")"), st)
  {
    var o := OpFor(sym, Ident(a), Ident(b));
    IdentRender(a, st);
    IdentRender(b, st);
    assert RenderArm(Op(o), st) == RenderOp(o, st);
  }

  /** An identifier prints as its name after the prefix, and leaves the globals alone. */
  lemma IdentRender(x: seq<char>, st: State)
    ensures Render(Ident(x), st) == (Prefix(st) + x, st)
    ensures !st.doIndent ==> Render(Ident(x), st) == (x, st)
  {
    assert [] + x == x;
  }

  /**
   * The block of a condition is printed one level deeper than the
   * condition, with the tab prefix switched on, whatever the condition
   * printed.
   */
  lemma CondPairBodyIndent(c: Token, b: Token, a: Token, st: State)
    ensures Prefix(st) + ((Tabs(st.indent) + "<<?" + Render(c, st.(doIndent := false)).0 + ";\n")
                          + (Render(b, State(st.indent + 1, true)).0 + "\n"))
            <= Render(CondPair(c, b, a), st).0
  {
    var t := CondPair(c, b, a);
    var x := Render(c, st.(doIndent := false));
    var r := RenderBody(t, st.indent, x.1);
    var body := Render(b, State(st.indent + 1, true)).0 + "\n";
    assert body <= r.0;
    var head := Tabs(st.indent) + "<<?" + x.0 + ";\n";
    assert RenderArm(t, st) == RenderBlock(t, st);
    assert RenderBlock(t, st).0 == head + r.0;
    assert head + body <= head + r.0;
  }

  /**
   * The body of a function is printed one level deeper than its `<<λ`
   * line, with the tab prefix switched on, whatever the parameters printed.
   */
  lemma FnPairBodyIndent(ps: TonsOfTokens, b: Token, a: Token, st: State)
    ensures Prefix(st) + ((Tabs(st.indent) + "<<λ" + RenderTokens(ps, st.(doIndent := false)).0 + ";\n")
                          + (Render(b, State(st.indent + 1, true)).0 + "\n"))
            <= Render(FnPair(ps, b, a), st).0
  {
    var t := FnPair(ps, b, a);
    var x := RenderTokens(ps, st.(doIndent := false));
    var r := RenderBody(t, st.indent, x.1);
    var body := Render(b, State(st.indent + 1, true)).0 + "\n";
    assert body <= r.0;
    var head := Tabs(st.indent) + "<<λ" + x.0 + ";\n";
    assert RenderArm(t, st) == RenderBlock(t, st);
    assert RenderBlock(t, st).0 == head + r.0;
    assert head + body <= head + r.0;
  }

  /**
   * A parameter of identifiers prints its type, its name and then, after
   * a second space, ` (mut)` exactly when it is mutable; the prefix is
   * switched off after it.
   */
  lemma ParamRender(m: bool, ty: seq<char>, x: seq<char>, st: State)
    ensures Render(Param(m, Ident(ty), Ident(x)), st)
      == (Prefix(st) + (ty + " " + x + " " + (if m then " (mut)" else "")), st.(doIndent := false))
  {
    IdentRender(ty, st.(doIndent := false));
    IdentRender(x, st.(doIndent := false));
  }

  /**
   * A method call of identifiers prints `<receiver THEN `, a line feed, then
   * the call behind the current indentation (the prefix is switched back
   * on for it), and `>`.
   */
  lemma MethodRender(o: seq<char>, c: seq<char>, st: State)
    ensures Render(Method(Ident(o), Ident(c)), st)
      == (Prefix(st) + ("<" + o + " THEN \n" + (Tabs(st.indent) + c) + ">"), st.(doIndent := true))
  {
    IdentRender(o, st.(doIndent := false));
    IdentRender(c, st.(doIndent := true));
  }

  /**
   * A condition prints `Cond: ` and then the condition from the same
   * globals, so with the prefix on the tabs come twice.
   */
  lemma IfStmtRender(c: seq<char>, st: State)
    ensures Render(IfStmt(Ident(c)), st) == (Prefix(st) + ("Cond: " + (Prefix(st) + c)), st)
  {
    IdentRender(c, st);
  }

  /**
   * At depth 0 the tab prefix is empty, so what a token prints does not
   * depend on whether `DO_INDENT` was left on or off; the depth after it
   * is 0 again (`Render`'s own contract).
   */
  lemma {:induction false} RenderAtTop(t: Token, s1: State, s2: State)
    requires s1.indent == 0 && s2.indent == 0
    ensures Render(t, s1).0 == Render(t, s2).0
    decreases t, 4
  {
    RenderArmAtTop(t, s1, s2);
  }

  /** `RenderAtTop` for the arm after the prefix. */
  lemma {:induction false} RenderArmAtTop(t: Token, s1: State, s2: State)
    requires s1.indent == 0 && s2.indent == 0
    ensures RenderArm(t, s1).0 == RenderArm(t, s2).0
    decreases t, 3
  {
    match t
    case Op(o) => RenderOpAtTop(o, s1, s2);
    case IfStmt(c) => RenderAtTop(c, s1, s2);
    case _ => assert s1.(doIndent := false) == s2.(doIndent := false);
  }

  /** `RenderAtTop` for an operation: the left operand, then the right from depth 0 again. */
  lemma {:induction false} RenderOpAtTop(o: Op, s1: State, s2: State)
    requires s1.indent == 0 && s2.indent == 0
    ensures RenderOp(o, s1).0 == RenderOp(o, s2).0
    decreases o, 0
  {
    RenderAtTop(o.l, s1, s2);
    RenderAtTop(o.r, Render(o.l, s1).1, Render(o.l, s2).1);
  }

  /** `RenderAtTop` for the elements of a list, each printed from the state the previous one left. */
  lemma {:induction false} RenderElemsAtTop(tt: TonsOfTokens, n: nat, s1: State, s2: State)
    requires n <= |tt.tokens| && s1.indent == 0 && s2.indent == 0
    ensures RenderElems(tt, n, s1).0 == RenderElems(tt, n, s2).0
  {
    if n > 0 {
      RenderElemsAtTop(tt, n - 1, s1, s2);
      RenderAtTop(tt.tokens[n - 1], RenderElems(tt, n - 1, s1).1, RenderElems(tt, n - 1, s2).1);
    }
  }
}
