/** The syntax tree the parser builds and the translator and printer consume. */
module Syntax {
  import Wrappers
  import Literals

  /** A dyadic operation; both operands are kept in source order. */
  datatype Op =
    | Add(l: Token, r: Token)
    | Subtract(l: Token, r: Token)
    | Eq(l: Token, r: Token)
    | Neq(l: Token, r: Token)
    | Gt(l: Token, r: Token)
    | Lt(l: Token, r: Token)
    | Gte(l: Token, r: Token)
    | Lte(l: Token, r: Token)

  datatype Token =
    | Ident(name: seq<char>)
    | Assignment(mutable: bool, typeAnnotation: Wrappers.Option<Token>, ident: Token, value: Token)
    | Param(mutable: bool, annotation: Token, ident: Token)
    | IfStmt(cond: Token)
    | Literal(lit: Literals.Literal)
    | Op(op: Op)
      /** Two statements in sequence, the second being the rest of the program. */
    | Pair(first: Token, second: Token)
      /** A condition, the block it guards, and the rest of the program. */
    | CondPair(cond: Token, block: Token, after: Token)
      /** A parameter list, a function body, and the rest of the program. */
    | FnPair(params: TonsOfTokens, body: Token, after: Token)
      /** `receiver; call`. */
    | Method(receiver: Token, call: Token)
      /** `name arg`. */
    | MethodUnit(callee: Token, arg: Token)
      /** A token tagged with the offset it was found at. */
    | Span(offset: nat, inner: Token)
    | Array(elems: seq<Token>)
    | None

  datatype TonsOfTokens = TonsOfTokens(tokens: seq<Token>)

  /** The eight operator symbols, in the order the `Op` variants are declared. */
  const Symbols: seq<seq<char>> := ["+", "-", "==", "!=", ">", "<", ">=", "<="]

  /** The symbol of an operation, shared by the parser, the translator and the printer. */
  function Symbol(o: Op): (sym: seq<char>)
    ensures sym in Symbols
  {
    match o
    case Add(_, _) => "+"
    case Subtract(_, _) => "-"
    case Eq(_, _) => "=="
    case Neq(_, _) => "!="
    case Gt(_, _) => ">"
    case Lt(_, _) => "<"
    case Gte(_, _) => ">="
    case Lte(_, _) => "<="
  }

  /** The operation whose symbol is `sym`, on the operands `l` and `r`. */
  function OpFor(sym: seq<char>, l: Token, r: Token): (o: Op)
    requires sym in Symbols
    ensures Symbol(o) == sym && o.l == l && o.r == r
  {
    match sym
    case "+" => Add(l, r)
    case "-" => Subtract(l, r)
    case "==" => Eq(l, r)
    case "!=" => Neq(l, r)
    case ">" => Gt(l, r)
    case "<" => Lt(l, r)
    case ">=" => Gte(l, r)
    case _ => Lte(l, r)
  }

  /** An operation is determined by its symbol and its operands. */
  lemma OpForSymbol(o: Op)
    ensures OpFor(Symbol(o), o.l, o.r) == o
  {
  }
}
