/**
 * `Token::fmt` as the source runs it: the globals `INDENT` and `DO_INDENT`
 * are the two fields of a printer, each call collects its pieces in a local
 * buffer, and nested tokens are printed by recursive calls that update the
 * fields as they go. Every method computes exactly what the functions of
 * module `Display` describe, so the facts proved there hold of the printer.
 */
module Printing {
  import opened Text
  import opened Syntax
  import opened Display

  /** `s.trim() == ""`. */
  method TrimsToEmpty(s: seq<char>) returns (blank: bool)
    ensures blank == Blank(s)
  {
    blank := Trim(s) == [];
    BlankIsTrimEmpty(s);
  }

  class Printer {
    /** `INDENT`: how many tabs a token starts with. */
    var indent: nat
    /** `DO_INDENT`: whether the next token starts with those tabs. */
    var doIndent: bool

    constructor ()
      ensures Current() == Initial
    {
      indent := 0;
      doIndent := false;
    }

    function Current(): State
      reads this
    {
      State(indent, doIndent)
    }

    /** `format!("{t}")`: the tab prefix when `DO_INDENT` is set, then the token's own arm. */
    method Fmt(t: Token) returns (text: seq<char>)
      modifies this
      ensures (text, Current()) == Render(t, old(Current()))
      decreases t, 4
    {
      var ind := indent;
      var out: seq<char> := [];
      if doIndent {
        out := Tabs(ind);
      }
      var a := FmtArm(t);
      text := out + a;
    }

    /** The pieces the arm of `Token::fmt` for `t` pushes after the prefix. */
    method FmtArm(t: Token) returns (out: seq<char>)
      modifies this
      ensures (out, Current()) == RenderArm(t, old(Current()))
      decreases t, 3
    {
      out := [];
      match t {
      case Ident(name) =>
        out := name;
      case Assignment(m, ann, id, v) =>
        doIndent := false;
        var a: seq<char>;
        if ann.None? {
          a := "[unknown]";
        } else {
          var x := Fmt(ann.value);
          a := "[" + x + "]";
        }
        var i := Fmt(id);
        var x := Fmt(v);
        out := "Assignment" + MutableText(m) + ": " + i + " " + a + " = " + x;
      case Param(m, ann, id) =>
        doIndent := false;
        var a := Fmt(ann);
        var i := Fmt(id);
        out := a + " " + i + " " + MutableText(m);
      case Literal(l) =>
        out := RenderLiteral(l);
      case Op(o) =>
        out := FmtOp(o);
      case IfStmt(c) =>
        var x := Fmt(c);
        out := "Cond: " + x;
      case Pair(p1, p2) =>
        doIndent := false;
        var x := Fmt(p1);
        out := "<" + x;
        doIndent := true;
        var probe := Fmt(p2);
        var blank := TrimsToEmpty(probe);
        if blank {
          out := out + ">";
        } else {
          var y := Fmt(p2);
          out := out + ";\n" + y + ">";
        }
      case CondPair(_, _, _) =>
        out := FmtBlock(t);
      case FnPair(_, _, _) =>
        out := FmtBlock(t);
      case Method(op, call) =>
        doIndent := false;
        var x := Fmt(op);
        out := "<" + x + " THEN \n";
        doIndent := true;
        var y := Fmt(call);
        out := out + y + ">";
      case MethodUnit(_, _) =>
      case Span(_, _) =>
      case Array(_) =>
      case None =>
      }
    }

    /**
     * The arms for `CondPair` and `FnPair` after the prefix, up to the head
     * and its `;` line.
     */
    method FmtBlock(t: Token) returns (text: seq<char>)
      requires t.CondPair? || t.FnPair?
      modifies this
      ensures (text, Current()) == RenderBlock(t, old(Current()))
      decreases t, 2
    {
      var ind := indent;
      doIndent := false;
      var head: seq<char>;
      if t.CondPair? {
        head := Fmt(t.cond);
      } else {
        head := FmtTokens(t.params);
      }
      var out := Tabs(ind) + (if t.CondPair? then "<<?" else "<<λ") + head + ";\n";
      var b := FmtBody(t, ind);
      text := out + b;
    }

    /** The block, printed with `INDENT` one higher and the tab prefix on, then the rest. */
    method FmtBody(t: Token, ind: nat) returns (text: seq<char>)
      requires t.CondPair? || t.FnPair?
      modifies this
      ensures (text, Current()) == RenderBody(t, ind, old(Current()))
      decreases t, 1
    {
      doIndent := true;
      indent := indent + 1;
      var body := Fmt(if t.CondPair? then t.block else t.body);
      var out := body + "\n";
      var a := FmtAfter(t, ind);
      text := out + a;
    }

    /**
     * The rest of the program, probed to choose the closing mark, then
     * printed for good with `INDENT` lowered again.
     */
    method FmtAfter(t: Token, ind: nat) returns (text: seq<char>)
      requires t.CondPair? || t.FnPair?
      requires indent >= 1
      modifies this
      ensures (text, Current()) == RenderAfter(t, ind, old(Current()))
      decreases t, 0
    {
      var close := CloseMark(t);
      var probe := Fmt(t.after);
      var blank := TrimsToEmpty(probe);
      var tail: seq<char>;
      if blank {
        tail := Tabs(ind) + close;
        doIndent := false;
      } else {
        tail := close + "\n";
      }
      indent := indent - 1;
      var rest := Fmt(t.after);
      text := tail + rest + ">";
    }

    /** `Op`'s `Display`. */
    method FmtOp(o: Op) returns (text: seq<char>)
      modifies this
      ensures (text, Current()) == RenderOp(o, old(Current()))
      decreases o, 0
    {
      var x := Fmt(o.l);
      var y := Fmt(o.r);
      text := "(" + x + " " + Symbol(o) + " " + y + ")";
    }

    /** `TonsOfTokens`'s `Display`: `t.to_string()` for each token in turn, joined by `, `. */
    method FmtTokens(tt: TonsOfTokens) returns (text: seq<char>)
      modifies this
      ensures (text, Current()) == RenderTokens(tt, old(Current()))
      decreases tt, 0
    {
      var parts: seq<seq<char>> := [];
      for i := 0 to |tt.tokens|
        invariant (parts, Current()) == RenderElems(tt, i, old(Current()))
      {
        var x := Fmt(tt.tokens[i]);
        parts := parts + [x];
      }
      text := Join(parts, ", ");
    }
  }
}
