/**
 * The test program's expected tree (`core/src/lib.rs`), and what the model
 * says about it: the grammar reads exactly that tree from the program's
 * text, statement by statement, and translating it stops at a panic,
 * because the translator has no arm for a method chain.
 */
module Fixture {
  import opened Text
  import opened Combinators
  import opened Syntax
  import opened Parser
  import opened ParserFacts
  import opened Translator
  import opened TranslateFacts
  import W = Wrappers
  import L = Literals
  import opened Util
  import Brackets

  function Vague(d: seq<char>): Token {
    Literal(L.Vague(L.Integer(d)))
  }

  function OneByte(): Token {
    Literal(L.Number(L.Byte(1)))
  }

  /** The receiver of the second statement's method chain: `1b - 1b`. */
  function Difference(): Token {
    Op(Subtract(OneByte(), OneByte()))
  }

  /** The condition of the `if`: `dice >= 127`. */
  function Condition(): Token {
    Op(Gte(Ident("dice"), Vague("127")))
  }

  /** The tree the test expects for its program, statement by statement. */
  function TestTree(): Token {
    Pair(
      Assignment(true, W.None, Ident("output"), Vague("0")),
      Pair(
        Assignment(false, W.Some(Ident("byte")), Ident("dice"),
          Method(Difference(), Method(Ident("randomize"), Ident("normalize")))),
        CondPair(
          IfStmt(Condition()),
          Pair(Assignment(false, W.None, Ident("output"), Vague("1")), None),
          Method(Ident("output"), Ident("print")))))
  }

  /** A binary rule in sequence: left operand, spaces, operator, spaces, right operand. */
  lemma InteropSteps(sym: seq<char>, s: seq<char>, l: Token, t: seq<char>, u: seq<char>, r: Token, rest: seq<char>)
    requires sym in Symbols
    requires ParseSingleton(s) == Ok(l, t) && Space0(t).rest == sym + u
    requires ParseSingleton(Space0(u).rest) == Ok(r, rest)
    ensures Interop(sym, s) == Ok(Op(OpFor(sym, l, r)), rest)
  {
    assert Tag(sym, sym + u) == Ok(sym, u);
  }

  /** A word, then a text that starts with a space, is a singleton identifier. */
  lemma SingletonWord(w: seq<char>, rest: seq<char>)
    requires Word(w) && |rest| > 0 && rest[0] == ' '
    ensures ParseSingleton(w + rest) == Ok(Ident(w), rest)
  {
    IdentOfWord(w, rest);
    assert (w + rest)[0] == w[0];
  }

  /** Digits, then no digit, suffix letter or `.`, are a singleton vague integer. */
  lemma SingletonVague(d: seq<char>, rest: seq<char>)
    requires |d| > 0 && AllDigits(d) && L.NoDot(rest)
    requires rest == [] || (!IsAsciiDigit(rest[0]) && !L.IsSuffixLetter(rest[0]))
    ensures ParseSingleton(d + rest) == Ok(Vague(d), rest)
  {
    assert (d + rest)[0] == d[0];
    L.LiteralVagueInteger(d, rest);
  }

  /** `1b` before a text without a `.` that does not start with `i` is a singleton byte. */
  lemma SingletonOneByte(rest: seq<char>)
    requires L.NoDot(rest) && (rest == [] || rest[0] != 'i')
    ensures ParseSingleton("1b" + rest) == Ok(OneByte(), rest)
  {
    assert DecimalValue("1") == 1;
    assert "1" + L.SuffixText(L.B) + rest == "1b" + rest;
    L.LiteralStrictInteger("1", L.B, rest);
  }

  /** `dice >= 127` as the rules take it apart. */
  lemma ConditionText(rest: seq<char>)
    ensures "dice >= 127" + rest == "dice" + (" " + (">=" + (" " + ("127" + rest))))
  {
  }

  /** `1b - 1b` as the rules take it apart. */
  lemma SubtractionText(rest: seq<char>)
    ensures "1b - 1b" + rest == "1b" + (" " + ("-" + (" " + ("1b" + rest))))
    ensures " " + ("-" + (" " + ("1b" + rest))) == " - 1b" + rest
  {
  }

  /** A text made of two parts without a `.` has none either. */
  lemma NoDotAfter(a: seq<char>, b: seq<char>)
    requires L.NoDot(a) && L.NoDot(b)
    ensures L.NoDot(a + b)
  {
    var s := a + b;
    forall i | 0 <= i < |s| ensures s[i] != '.' {
      if i >= |a| { assert s[i] == b[i - |a|]; }
    }
  }

  /** The operands of `dice >= 127`, and what lies between them. */
  lemma ConditionLeft(rest: seq<char>)
    requires |rest| > 0 && rest[0] == ' '
    ensures ParseSingleton("dice" + (" " + (">=" + (" " + ("127" + rest))))) == Ok(Ident("dice"), " " + (">=" + (" " + ("127" + rest))))
  {
    DiceIsWord();
    SpaceStart(">=" + (" " + ("127" + rest)));
    SingletonWord("dice", " " + (">=" + (" " + ("127" + rest))));
  }

  lemma DiceIsWord()
    ensures Word("dice")
  {
  }

  lemma ConditionRight(rest: seq<char>)
    requires L.NoDot(rest) && |rest| > 0 && rest[0] == ' '
    ensures Space0(" " + (">=" + (" " + ("127" + rest)))).rest == ">=" + (" " + ("127" + rest))
    ensures ParseSingleton(Space0(" " + ("127" + rest)).rest) == Ok(Vague("127"), rest)
  {
    Space0Split(" ", ">=" + (" " + ("127" + rest)));
    Space0Split(" ", "127" + rest);
    SingletonVague("127", rest);
  }

  /**
   * The condition of the test program, `dice >= 127`, is the `Gte` of the
   * tree's `if`, read from its text by `comparison` (not a `Gt` with `=`
   * left over).
   */
  lemma ConditionOfTestProgram(rest: seq<char>)
    requires L.NoDot(rest) && |rest| > 0 && rest[0] == ' '
    ensures ParseComparison("dice >= 127" + rest) == Ok(Condition(), rest)
  {
    var u := " " + ("127" + rest);
    var t := " " + (">=" + u);
    var s := "dice" + t;
    ConditionText(rest);
    ConditionLeft(rest);
    ConditionRight(rest);
    InteropSteps(">=", s, Ident("dice"), t, u, Vague("127"), rest);
    OpForSymbol(Gte(Ident("dice"), Vague("127")));
    ComparisonPrefersGte(s);
  }

  /** The operands of `1b - 1b`, and what lies between them. */
  lemma SubtractionLeft(rest: seq<char>)
    requires L.NoDot(rest)
    ensures ParseSingleton("1b" + (" " + ("-" + (" " + ("1b" + rest))))) == Ok(OneByte(), " " + ("-" + (" " + ("1b" + rest))))
  {
    SubtractionText(rest);
    NoDotAfter(" - 1b", rest);
    SingletonOneByte(" - 1b" + rest);
  }

  lemma SubtractionRight(rest: seq<char>)
    requires L.NoDot(rest) && (rest == [] || rest[0] != 'i')
    ensures Space0(" " + ("-" + (" " + ("1b" + rest)))).rest == "-" + (" " + ("1b" + rest))
    ensures ParseSingleton(Space0(" " + ("1b" + rest)).rest) == Ok(OneByte(), rest)
  {
    Space0Split(" ", "-" + (" " + ("1b" + rest)));
    Space0Split(" ", "1b" + rest);
    SingletonOneByte(rest);
  }

  /** `ops` tries subtraction first, so a subtraction that matches is its result. */
  lemma OpsPrefersSubtraction(s: seq<char>)
    requires Interop("-", s).Ok?
    ensures ParseOps(s) == Interop("-", s)
  {
  }

  /**
   * `1b - 1b`, the receiver of the second statement's method chain, is the
   * tree's `Subtract` of two bytes, read by `ops` with its first rule.
   */
  lemma SubtractionOfTestProgram(rest: seq<char>)
    requires L.NoDot(rest) && (rest == [] || rest[0] != 'i')
    ensures ParseOps("1b - 1b" + rest) == Ok(Difference(), rest)
  {
    SubtractionText(rest);
    SubtractionInterop(rest);
    OpsPrefersSubtraction("1b" + (" " + ("-" + (" " + ("1b" + rest)))));
  }

  /** What the subtraction rule needs of the text of `1b - 1b`, step by step. */
  lemma SubtractionOperands(rest: seq<char>)
    requires L.NoDot(rest) && (rest == [] || rest[0] != 'i')
    ensures var u := " " + ("1b" + rest); var t := " " + ("-" + u);
      && ParseSingleton("1b" + t) == Ok(OneByte(), t)
      && Space0(t).rest == "-" + u
      && ParseSingleton(Space0(u).rest) == Ok(OneByte(), rest)
  {
    SubtractionLeft(rest);
    SubtractionRight(rest);
  }

  /** The subtraction rule on the text of `1b - 1b`, taken apart. */
  lemma SubtractionInterop(rest: seq<char>)
    requires L.NoDot(rest) && (rest == [] || rest[0] != 'i')
    ensures Interop("-", "1b" + (" " + ("-" + (" " + ("1b" + rest))))) == Ok(Difference(), rest)
  {
    var u := " " + ("1b" + rest);
    var t := " " + ("-" + u);
    SubtractionOperands(rest);
    InteropSteps("-", "1b" + t, OneByte(), t, u, OneByte(), rest);
    OpForSymbol(Subtract(OneByte(), OneByte()));
  }

  /**
   * The first statement translates to `mut output := 0`, and the second
   * stops the translation with a panic: its value is a method chain.
   */
  lemma TestTreeTranslation()
    ensures Translate(TestTree().first, Display.Initial) == W.Ok(("mut output := 0", Display.Initial))
    ensures Translate(TestTree().second.first.value, Display.Initial).Panic?
    ensures TranslateFile(TestTree()).Panic?
    ensures !Lowerable(TestTree())
  {
    var st := Display.Initial;
    UntypedAssignment(true, "output", Vague("0"), st);
    LiteralTranslation(L.Vague(L.Integer("0")), st);
    assert MutKeyword(true) + Target("output") + " := " + "0" == "mut output := 0";
    var a2 := TestTree().second.first;
    UnsupportedPanics(a2.value, st);
    IdentTranslation("dice", st);
    IdentTranslation("byte", st);
    assert Translate(a2, st).Panic?;
    LowerableNeverPanics(TestTree(), st);
  }

  /** The test program's text: six lines, each ended by a line feed. */
  function ProgramText(): seq<char> {
    "mut output = 0\n" + ("byte dice = (1b - 1b); randomize; normalize\n" + ("if dice >= 127 {\n" +
    ("output = 1\n" + ("}\n" + "output; print\n"))))
  }

  // The suffixes of the program where its statements start, grouped the
  // way the rules take them apart, with the line feed `nl` left open so
  // that the proofs below reason about the rules and not about one text.

  /** A single line feed. */
  predicate LineFeed(nl: seq<char>) {
    |nl| == 1 && nl[0] == '\n'
  }

  /** `output; print` and the last line feed. */
  function TailText(nl: seq<char>): seq<char> {
    "output" + ("; " + ("print" + nl))
  }

  /** The one statement inside the braces of the `if`. */
  function BlockStatement(nl: seq<char>): seq<char> {
    "output" + (" = " + ("1" + nl))
  }

  function InnerText(nl: seq<char>): seq<char> {
    nl + BlockStatement(nl)
  }

  function BlockText(nl: seq<char>): seq<char> {
    "{" + (InnerText(nl) + ("}" + (nl + TailText(nl))))
  }

  function IfText(nl: seq<char>): seq<char> {
    "if" + (" " + ("dice >= 127" + (" " + BlockText(nl))))
  }

  /** What follows the receiver of the method chain: `randomize; normalize`, then the `if`. */
  function ChainRest(nl: seq<char>): seq<char> {
    "randomize" + ("; " + ("normalize" + (nl + IfText(nl))))
  }

  function ValueText(nl: seq<char>): seq<char> {
    "(" + ("1b - 1b" + (")" + ("; " + ChainRest(nl))))
  }

  function DiceText(nl: seq<char>): seq<char> {
    "byte" + (" " + ("dice" + (" = " + ValueText(nl))))
  }

  function ProgramAt(nl: seq<char>): seq<char> {
    MutPrefix(true) + ("output" + (" = " + ("0" + (nl + DiceText(nl)))))
  }

  // The subtrees of the expected tree, one per suffix.

  function TailTree(): Token {
    Method(Ident("output"), Ident("print"))
  }

  function BlockTree(): Token {
    Pair(Assignment(false, W.None, Ident("output"), Vague("1")), None)
  }

  function IfTree(): Token {
    CondPair(IfStmt(Condition()), BlockTree(), TailTree())
  }

  function DiceValue(): Token {
    Method(Difference(), Method(Ident("randomize"), Ident("normalize")))
  }

  function DiceTree(): Token {
    Pair(Assignment(false, W.Some(Ident("byte")), Ident("dice"), DiceValue()), IfTree())
  }

  lemma OutputIsWord()
    ensures Word("output") && "output" != "mut"
  {
  }

  lemma PrintIsWord()
    ensures Word("print")
  {
  }

  lemma ByteIsWord()
    ensures Word("byte") && "byte" != "mut"
  {
  }

  lemma ChainWords()
    ensures Word("randomize") && Word("normalize")
  {
  }

  /** A text that starts with a non-empty part starts with that part's first character. */
  lemma StartsWith(a: seq<char>, x: seq<char>)
    requires |a| > 0
    ensures |a + x| > 0 && (a + x)[0] == a[0]
  {
  }

  lemma NoSpaceStart(a: seq<char>, x: seq<char>)
    requires |a| > 0 && !IsSpace(a[0])
    ensures a + x == [] || !IsSpace((a + x)[0])
  {
    assert (a + x)[0] == a[0];
  }

  lemma CloserStart(nl: seq<char>, x: seq<char>)
    requires LineFeed(nl)
    ensures nl + x == [] || Closer((nl + x)[0])
  {
    assert (nl + x)[0] == nl[0];
  }

  lemma ValueStart(nl: seq<char>)
    ensures |ValueText(nl)| > 0 && ValueText(nl)[0] == '('
  {
  }

  lemma ChainRestStart(nl: seq<char>)
    ensures ChainRest(nl) == [] || !IsSpace(ChainRest(nl)[0])
  {
    assert ChainRest(nl)[0] == 'r';
  }

  lemma SpaceStart(x: seq<char>)
    ensures |" " + x| > 0 && (" " + x)[0] == ' '
  {
  }

  // The program's text, line by line.

  lemma TailLines()
    ensures TailText("\n") == "output; print\n"
  {
  }

  lemma BlockLines(x: seq<char>)
    ensures "{" + (InnerText("\n") + ("}" + ("\n" + x))) == "{\n" + ("output = 1\n" + ("}\n" + x))
  {
  }

  lemma IfLines()
    ensures IfText("\n") == "if dice >= 127 {\n" + ("output = 1\n" + ("}\n" + "output; print\n"))
  {
    TailLines();
    BlockLines(TailText("\n"));
    IfLine(BlockText("\n"), "output = 1\n" + ("}\n" + "output; print\n"));
  }

  lemma IfLine(b: seq<char>, z: seq<char>)
    requires b == "{\n" + z
    ensures "if" + (" " + ("dice >= 127" + (" " + b))) == "if dice >= 127 {\n" + z
  {
  }

  lemma ChainLine(z: seq<char>)
    ensures "randomize" + ("; " + ("normalize" + ("\n" + z))) == "randomize; normalize\n" + z
  {
  }

  lemma ValueLine(y: seq<char>)
    ensures "(" + ("1b - 1b" + (")" + ("; " + y))) == "(1b - 1b); " + y
  {
  }

  lemma DiceLine(y: seq<char>, z: seq<char>)
    ensures "byte" + (" " + ("dice" + (" = " + y))) == "byte dice = " + y
    ensures "byte dice = " + ("(1b - 1b); " + ("randomize; normalize\n" + z))
      == "byte dice = (1b - 1b); randomize; normalize\n" + z
  {
  }

  lemma FirstLine(x: seq<char>)
    ensures MutPrefix(true) + ("output" + (" = " + ("0" + ("\n" + x)))) == "mut output = 0\n" + x
  {
  }

  /** The program's text is the first statement's, then the suffix where the second starts. */
  lemma ProgramTextParts()
    ensures ProgramText() == ProgramAt("\n")
  {
    IfLines();
    ChainLine(IfText("\n"));
    ValueLine(ChainRest("\n"));
    DiceLine(ValueText("\n"), IfText("\n"));
    FirstLine(DiceText("\n"));
  }

  /** `MutPrefix(false)` adds nothing. */
  /** A line feed ends an operand, has no `.`, and is all `line_feed_whitespace` takes. */
  lemma LineFeedFacts(nl: seq<char>)
    requires LineFeed(nl)
    ensures Closer(nl[0]) && L.NoDot(nl)
    ensures LineFeedWhitespace(nl).rest == []
  {
    TakeWhileSplit(IsLineFeedWhitespace, nl, []);
    assert nl + [] == nl;
  }

  /** Before a text that starts otherwise, `line_feed_whitespace` takes the one line feed. */
  lemma LineFeedBefore(nl: seq<char>, x: seq<char>)
    requires LineFeed(nl) && |x| > 0 && !IsLineFeedWhitespace(x[0])
    ensures LineFeedWhitespace(nl + x).rest == x
  {
    TakeWhileSplit(IsLineFeedWhitespace, nl, x);
  }

  lemma InnerHasNoBrace(nl: seq<char>)
    requires LineFeed(nl)
    ensures forall i | 0 <= i < |InnerText(nl)| :: InnerText(nl)[i] != '{' && InnerText(nl)[i] != '}'
  {
    var s := InnerText(nl);
    forall i | 0 <= i < |s| ensures s[i] != '{' && s[i] != '}' {
      if i > 0 {
        assert s[i] == BlockStatement(nl)[i - 1];
      }
    }
  }

  /** No `.` anywhere in the program, so no literal in it is read as a decimal. */
  lemma NoDotInTail(nl: seq<char>)
    requires L.NoDot(nl)
    ensures L.NoDot(TailText(nl)) && L.NoDot(BlockStatement(nl))
  {
    NoDotAfter("print", nl);
    NoDotAfter("; ", "print" + nl);
    NoDotAfter("output", "; " + ("print" + nl));
    NoDotAfter("1", nl);
    NoDotAfter(" = ", "1" + nl);
    NoDotAfter("output", " = " + ("1" + nl));
  }

  lemma NoDotInBlock(nl: seq<char>)
    requires L.NoDot(nl)
    ensures L.NoDot(BlockText(nl)) && L.NoDot(" " + BlockText(nl))
  {
    NoDotInTail(nl);
    NoDotAfter(nl, TailText(nl));
    NoDotAfter("}", nl + TailText(nl));
    NoDotAfter(nl, BlockStatement(nl));
    NoDotAfter(InnerText(nl), "}" + (nl + TailText(nl)));
    NoDotAfter("{", InnerText(nl) + ("}" + (nl + TailText(nl))));
    NoDotAfter(" ", BlockText(nl));
  }

  lemma NoDotInIf(nl: seq<char>)
    requires L.NoDot(nl)
    ensures L.NoDot(nl + IfText(nl))
  {
    NoDotInBlock(nl);
    NoDotAfter("dice >= 127", " " + BlockText(nl));
    NoDotAfter(" ", "dice >= 127" + (" " + BlockText(nl)));
    NoDotAfter("if", " " + ("dice >= 127" + (" " + BlockText(nl))));
    NoDotAfter(nl, IfText(nl));
  }

  lemma NoDotInChain(nl: seq<char>)
    requires L.NoDot(nl)
    ensures L.NoDot(")" + ("; " + ChainRest(nl)))
  {
    NoDotInIf(nl);
    NoDotAfter("normalize", nl + IfText(nl));
    NoDotAfter("; ", "normalize" + (nl + IfText(nl)));
    NoDotAfter("randomize", "; " + ("normalize" + (nl + IfText(nl))));
    NoDotAfter("; ", ChainRest(nl));
    NoDotAfter(")", "; " + ChainRest(nl));
  }

  lemma NoDotInDice(nl: seq<char>)
    requires L.NoDot(nl)
    ensures L.NoDot(nl + DiceText(nl))
  {
    NoDotInChain(nl);
    NoDotAfter("1b - 1b", ")" + ("; " + ChainRest(nl)));
    NoDotAfter("(", "1b - 1b" + (")" + ("; " + ChainRest(nl))));
    NoDotAfter(" = ", ValueText(nl));
    NoDotAfter("dice", " = " + ValueText(nl));
    NoDotAfter(" ", "dice" + (" = " + ValueText(nl)));
    NoDotAfter("byte", " " + ("dice" + (" = " + ValueText(nl))));
    NoDotAfter(nl, DiceText(nl));
  }

  /** The last line: the chain of `output` and `print`, before the final line feed. */
  lemma TailParses(nl: seq<char>)
    requires LineFeed(nl)
    ensures ParseToken(TailText(nl)) == Ok(TailTree(), nl)
  {
    PrintIsWord();
    OutputIsWord();
    LineFeedFacts(nl);
    NoSpaceStart("print", nl);
    TokenOfWord("print", nl);
    TokenOfChain("output", "print" + nl, Ident("print"), nl);
  }

  lemma TailIsRestOfFile(nl: seq<char>)
    requires LineFeed(nl)
    ensures RestOfFile(LineFeedWhitespace(nl + TailText(nl)).rest) == Ok(TailTree(), nl)
  {
    LineFeedBefore(nl, TailText(nl));
    RestOfFileIsToken(TailText(nl));
    TailParses(nl);
  }

  /** Inside the braces: `output = 1`, its value, and nothing after its line feed. */
  lemma DigitsBeforeLineFeed(d: seq<char>, nl: seq<char>)
    requires |d| > 0 && AllDigits(d) && LineFeed(nl)
    ensures ParseToken(d + nl) == Ok(Vague(d), nl)
    ensures RestOfFile(LineFeedWhitespace(nl).rest) == Ok(None, [])
  {
    LineFeedFacts(nl);
    TokenOfDigits(d, nl);
    TokenAtWhitespace([]);
  }

  lemma DigitStart(d: seq<char>, x: seq<char>)
    requires |d| > 0 && AllDigits(d)
    ensures |d + x| > 0 && !IsSpace((d + x)[0])
  {
    assert (d + x)[0] == d[0];
  }

  lemma LastAssignment(d: seq<char>, nl: seq<char>)
    requires |d| > 0 && AllDigits(d) && LineFeed(nl)
    ensures ParseAssignment(MutPrefix(false) + ("output" + (" = " + (d + nl))))
      == Ok(Pair(Assignment(false, W.None, Ident("output"), Vague(d)), None), [])
  {
    OutputIsWord();
    DigitStart(d, nl);
    DigitsBeforeLineFeed(d, nl);
    UntypedAssignmentOf(false, "output", d + nl, Vague(d), nl, None, []);
  }

  lemma BlockAssignment(nl: seq<char>)
    requires LineFeed(nl)
    ensures ParseAssignment(MutPrefix(false) + BlockStatement(nl)) == Ok(BlockTree(), [])
  {
    LastAssignment("1", nl);
  }

  lemma BlockStatementIsToken(nl: seq<char>)
    requires LineFeed(nl)
    ensures ParseToken(LineFeedWhitespace(InnerText(nl)).rest) == Ok(BlockTree(), [])
  {
    LineFeedBefore(nl, BlockStatement(nl));
    WithoutMut(BlockStatement(nl));
    BlockAssignment(nl);
    TokenOfAssignment(BlockStatement(nl));
  }

  /** The brace group of the `if`: the assignment inside it, and the text after its `}`. */
  lemma BlockParses(nl: seq<char>)
    requires LineFeed(nl)
    ensures ParseBracketGroup(BlockText(nl)) == Ok(BlockTree(), nl + TailText(nl))
  {
    InnerHasNoBrace(nl);
    ClosingBraceOf(InnerText(nl), nl + TailText(nl));
    BlockStatementIsToken(nl);
    GroupSteps(BlockText(nl), |InnerText(nl)| + 1, BlockTree(), []);
  }

  /** `if dice >= 127 { .. }` and the last line after it. */
  lemma IfParts(nl: seq<char>)
    ensures "if" <= IfText(nl) && Space0(IfText(nl)[2..]).rest == "dice >= 127" + (" " + BlockText(nl))
    ensures Space0(" " + BlockText(nl)).rest == BlockText(nl)
  {
    assert IfText(nl)[2..] == " " + ("dice >= 127" + (" " + BlockText(nl)));
    Space0Split(" ", "dice >= 127" + (" " + BlockText(nl)));
    Space0Split(" ", BlockText(nl));
  }

  lemma IfHead(nl: seq<char>)
    requires LineFeed(nl)
    ensures ParseComparison(Space0(IfText(nl)[2..]).rest) == Ok(Condition(), " " + BlockText(nl))
  {
    IfParts(nl);
    LineFeedFacts(nl);
    NoDotInBlock(nl);
    ConditionOfTestProgram(" " + BlockText(nl));
  }

  lemma IfParses(nl: seq<char>)
    requires LineFeed(nl)
    ensures ParseIfStmt(IfText(nl)) == Ok(IfTree(), nl)
  {
    IfHead(nl);
    IfParts(nl);
    BlockParses(nl);
    TailIsRestOfFile(nl);
    IfSteps(IfText(nl), Condition(), " " + BlockText(nl), BlockTree(), nl + TailText(nl), TailTree(), nl);
  }

  lemma IfIsRestOfFile(nl: seq<char>)
    requires LineFeed(nl)
    ensures RestOfFile(LineFeedWhitespace(nl + IfText(nl)).rest) == Ok(IfTree(), nl)
  {
    LineFeedBefore(nl, IfText(nl));
    IfIsToken(nl);
    RestOfFileIsToken(IfText(nl));
  }

  lemma IfIsToken(nl: seq<char>)
    requires LineFeed(nl)
    ensures ParseToken(IfText(nl)) == Ok(IfTree(), nl)
  {
    IfParses(nl);
    MethodDefNeedsBar(IfText(nl));
    TokenIsIf(IfText(nl));
  }

  /** Inside the parentheses: `1b - 1b` is neither a statement nor a chain, so `token` reads it with `ops`. */
  lemma SubtractionIsNoChain(rest: seq<char>)
    requires L.NoDot(rest)
    ensures ParseMethod("1b - 1b" + rest).Err?
  {
    var u := " " + ("1b" + rest);
    var t := " " + ("-" + u);
    SubtractionText(rest);
    SubtractionLeft(rest);
    Space0Split(" ", "-" + u);
    MethodNeedsSemicolon("1b" + t, OneByte(), t);
  }

  lemma SubtractionToken(rest: seq<char>)
    requires L.NoDot(rest) && |rest| > 0 && rest[0] == ')'
    ensures ParseToken("1b - 1b" + rest) == Ok(Difference(), rest)
  {
    StatementRulesFailAtDigit("1b - 1b" + rest);
    SubtractionIsNoChain(rest);
    SubtractionOfTestProgram(rest);
    TokenIsOps("1b - 1b" + rest);
  }

  lemma OpenStart(u: seq<char>)
    ensures |"(" + u| > 0 && ("(" + u)[0] == '('
  {
  }

  lemma SingletonOfParenthesised(u: seq<char>, v: Token, rest: seq<char>)
    requires u == [] || !IsSpace(u[0])
    requires ParseToken(u) == Ok(v, ")" + rest)
    ensures ParseSingleton("(" + u) == Ok(v, rest)
  {
    ParenOf(u, v, rest);
    OpenStart(u);
    SingletonOfParen("(" + u);
  }

  lemma CloseStart(rest: seq<char>)
    ensures |")" + rest| > 0 && (")" + rest)[0] == ')'
  {
  }

  lemma ParenOfSubtraction(rest: seq<char>)
    requires L.NoDot(")" + rest)
    ensures ParseSingleton("(" + ("1b - 1b" + (")" + rest))) == Ok(Difference(), rest)
  {
    SubtractionBeforeClose(rest);
    SubtractionStart();
    ParenOfToken("1b - 1b", Difference(), rest);
  }

  lemma SubtractionStart()
    ensures |"1b - 1b"| > 0 && !IsSpace("1b - 1b"[0])
  {
  }

  lemma ParenOfToken(a: seq<char>, v: Token, rest: seq<char>)
    requires |a| > 0 && !IsSpace(a[0])
    requires ParseToken(a + (")" + rest)) == Ok(v, ")" + rest)
    ensures ParseSingleton("(" + (a + (")" + rest))) == Ok(v, rest)
  {
    NoSpaceStart(a, ")" + rest);
    SingletonOfParenthesised(a + (")" + rest), v, rest);
  }

  lemma SubtractionBeforeClose(rest: seq<char>)
    requires L.NoDot(")" + rest)
    ensures ParseToken("1b - 1b" + (")" + rest)) == Ok(Difference(), ")" + rest)
  {
    CloseStart(rest);
    SubtractionToken(")" + rest);
  }

  /** `(1b - 1b)`: the receiver of the chain, a parenthesised subtraction. */
  lemma ParenParses(nl: seq<char>)
    requires LineFeed(nl)
    ensures ParseSingleton(ValueText(nl)) == Ok(Difference(), "; " + ChainRest(nl))
  {
    NoDotInChain(nl);
    ParenOfSubtraction("; " + ChainRest(nl));
  }

  /** `randomize; normalize`: the rest of the chain, before the line feed. */
  lemma ChainRestParses(nl: seq<char>)
    requires LineFeed(nl)
    ensures ParseToken(ChainRest(nl)) == Ok(Method(Ident("randomize"), Ident("normalize")), nl + IfText(nl))
  {
    ChainWords();
    CloserStart(nl, IfText(nl));
    NoSpaceStart("normalize", nl + IfText(nl));
    TokenOfWord("normalize", nl + IfText(nl));
    TokenOfChain("randomize", "normalize" + (nl + IfText(nl)), Ident("normalize"), nl + IfText(nl));
  }

  lemma ValueIsChain(nl: seq<char>)
    requires LineFeed(nl)
    ensures ParseMethod(ValueText(nl)) == Ok(DiceValue(), nl + IfText(nl))
  {
    ParenParses(nl);
    ChainRestParses(nl);
    ChainRestStart(nl);
    MethodOfLinks(ValueText(nl), Difference(), ChainRest(nl), Method(Ident("randomize"), Ident("normalize")), nl + IfText(nl));
  }

  /** The value of the second statement: the whole chain, up to the line feed before the `if`. */
  lemma ValueParses(nl: seq<char>)
    requires LineFeed(nl)
    ensures ParseToken(ValueText(nl)) == Ok(DiceValue(), nl + IfText(nl))
  {
    ValueStart(nl);
    KeywordRulesNeedStart(ValueText(nl));
    AssignmentNeedsIdent(ValueText(nl));
    ValueIsChain(nl);
    TokenIsMethod(ValueText(nl));
  }

  lemma DiceAssignment(nl: seq<char>)
    requires LineFeed(nl)
    ensures ParseAssignment(MutPrefix(false) + DiceText(nl)) == Ok(DiceTree(), nl)
  {
    ByteIsWord();
    DiceIsWord();
    NoSpaceStart("(", "1b - 1b" + (")" + ("; " + ChainRest(nl))));
    ValueParses(nl);
    IfIsRestOfFile(nl);
    TypedAssignmentOf(false, "byte", "dice", ValueText(nl), DiceValue(), nl + IfText(nl), IfTree(), nl);
  }

  lemma DiceIsToken(nl: seq<char>)
    requires LineFeed(nl)
    ensures ParseToken(DiceText(nl)) == Ok(DiceTree(), nl)
  {
    WithoutMut(DiceText(nl));
    DiceAssignment(nl);
    TokenOfAssignment(DiceText(nl));
  }

  lemma DiceIsRestOfFile(nl: seq<char>)
    requires LineFeed(nl)
    ensures RestOfFile(LineFeedWhitespace(nl + DiceText(nl)).rest) == Ok(DiceTree(), nl)
  {
    LineFeedBefore(nl, DiceText(nl));
    DiceIsToken(nl);
    RestOfFileIsToken(DiceText(nl));
  }

  lemma DigitsBeforeDice(d: seq<char>, nl: seq<char>)
    requires |d| > 0 && AllDigits(d) && LineFeed(nl)
    ensures ParseToken(d + (nl + DiceText(nl))) == Ok(Vague(d), nl + DiceText(nl))
  {
    NoDotInDice(nl);
    CloserStart(nl, DiceText(nl));
    TokenOfDigits(d, nl + DiceText(nl));
  }

  lemma FirstAssignment(d: seq<char>, nl: seq<char>)
    requires |d| > 0 && AllDigits(d) && LineFeed(nl)
    ensures ParseAssignment(MutPrefix(true) + ("output" + (" = " + (d + (nl + DiceText(nl))))))
      == Ok(Pair(Assignment(true, W.None, Ident("output"), Vague(d)), DiceTree()), nl)
  {
    OutputIsWord();
    DigitStart(d, nl + DiceText(nl));
    DigitsBeforeDice(d, nl);
    DiceIsRestOfFile(nl);
    UntypedAssignmentOf(true, "output", d + (nl + DiceText(nl)), Vague(d), nl + DiceText(nl), DiceTree(), nl);
  }

  lemma ProgramAssignment(nl: seq<char>)
    requires LineFeed(nl)
    ensures ParseAssignment(ProgramAt(nl)) == Ok(TestTree(), nl)
  {
    FirstAssignment("0", nl);
  }

  lemma ProgramIsToken(nl: seq<char>)
    requires LineFeed(nl)
    ensures ParseToken(ProgramAt(nl)) == Ok(TestTree(), nl)
  {
    ProgramAssignment(nl);
    TokenOfAssignment(ProgramAt(nl));
  }

  /**
   * The whole test program parses into exactly the tree the test expects,
   * with only its final line feed left over.
   */
  lemma TestProgramParses()
    ensures Parse(ProgramText()) == Ok(TestTree(), "\n")
  {
    ProgramTextParts();
    ProgramIsToken("\n");
  }
}
