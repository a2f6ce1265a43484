# Dolomite front-end, modelled in Dafny

Dolomite is a small language whose compiler front-end is written in Rust. This project models three of its parts:

- **The parser.** A nom combinator grammar turns source text into a `Token` tree. It has lexical rules for identifiers, integer literals (with and without a width suffix) and string literals. On top of those sit the statement and expression rules: assignments, `if` statements, `|params| { block }` function definitions, `;` method chains, binary operators tried in a fixed order, arrays and parentheses. The top-level rule `token` never fails, because its last alternative takes the rest of the input as `None`. The brace scanner `bracket_group` finds the `}` that closes a block with a nesting counter.
- **The translator.** A structural recursion turns a tree into target source text. It lowers assignments, calls, literals, operators, conditionals and function definitions. Type names are looked up in a fixed table of ten entries.
- **The diagnostic printer.** This is `Display` for the tree. `Token::fmt` threads two global atomics, `INDENT` and `DO_INDENT`, through its recursive calls.

Each grammar rule is a function from the remaining input to a `Parsed<T>`, which has three outcomes:
- `Ok(value, rest)`;
- `Err`: nom's recoverable mismatch, on which `alt` tries the next alternative;
- `Panic`: an `unwrap` on an error, which aborts the whole parse.

The translator returns `Ok`, `Err(message)` or `Panic` in the same way. `Err(message)` stands for the source's `anyhow` errors. `Panic` stands for `unimplemented!()` and `unwrap` on an error.

The printer's two globals are a `State(indent, doIndent)`. The function model `Display.Render` takes that state as a parameter and returns it beside the text. The class `Printing.Printer` holds the same two values as fields that its methods update in place, as the source does. Each method is proved to compute exactly what `Render` describes. The translator prints array arguments with the printer, so it threads the same state.

Termination of the grammar: every rule decreases the pair (input length, rank). A rule that calls another on the same input has the higher rank, and every call back into `token` is on a strictly shorter remainder.

Files, one module each:
- `wrappers.dfy`: `Option` and the translator's `Result`.
- `text.dfy`: trimming, lines, join, decimal text.
- `nom.dfy`: the combinators, as module `Combinators`.
- `util.dfy`: the helpers of `parser/util.rs`.
- `literals.dfy`: the lexical rules.
- `syntax.dfy`: the tree and operator symbols.
- `parser.dfy`: the grammar of `parser/mod.rs` and `parser/ops.rs`.
- `parser_facts.dfy`: properties of the grammar.
- `brackets.dfy` and `bracket_scan.dfy`: the brace scanner, as a specification and as the source's loop.
- `display.dfy` and `printer.dfy`: the printer, as functions and as a class.
- `translate.dfy`: the translator, as module `Translator`.
- `translate_facts.dfy`: properties of the translator.
- `fixture.dfy`: the test program, its expected tree, and the proof that the parser reads the one as the other.

Two behaviours of the code are easy to expect otherwise; the model follows the code:
- **Unknown type names.** An unknown type name in an assignment's annotation is not an error. The code translates the annotation as an identifier (core/src/compiler/translate.rs:81-82, via 158-164), so an unknown name comes out verbatim. Only `gen_function`'s return type and parameter types go through the table with an error or a panic.
- **`int` and leading whitespace.** `int` refuses the whole input when it contains a `.` anywhere or trims to nothing (core/src/parser/literals.rs:60). It does not skip leading whitespace, so neither does `token`.

## Model

| member | source | states |
|---|---|---|
| Combinators.Tag | core/src/parser/ops.rs:34 | `tag(t)` succeeds exactly when the input starts with `t`; it then returns `t` and the input after it, and it never panics |
| Combinators.TakeWhile | core/src/parser/util.rs:10 | the value and the remainder make up the input; every taken character satisfies the class; the remainder does not start with one, so the run is maximal |
| Combinators.TakeWhile1 | core/src/parser/mod.rs:174 | succeeds exactly when the first character is in the class, and then agrees with `take_while` with a non-empty value |
| Combinators.TakeWhileSplit | core/src/parser/util.rs:10 | any split into a run of the class and a remainder not starting with one is the split `take_while` finds |
| Combinators.Space0Split | core/src/parser/ops.rs:33 | `space0` removes exactly a leading run of spaces and tabs |
| Combinators.Space1 | core/src/parser/mod.rs:158 | `space1` never panics, and on success leaves a strictly shorter suffix |
| Util.LineFeedWhitespace | core/src/parser/util.rs:9-11 | never fails; it takes the longest prefix of line feeds, spaces and tabs, and the remainder starts with none of them (a carriage return stays) |
| Util.Concat | core/src/parser/util.rs:13-25 | succeeds exactly when its input succeeded: it keeps the remainder and joins the two texts; a mismatch passes through as a mismatch |
| Util.AsciiClassesAgree | core/src/parser/util.rs:27-37 | on ASCII input the byte classifiers agree with the ASCII classes; a valid identifier-middle character is alphanumeric or `_` |
| Util.LowByteAliasing | core/src/parser/util.rs:27-33 | beyond ASCII only the low byte counts: U+0131 counts as a digit and U+0141 as a letter |
| Literals.Numbers | core/src/parser/literals.rs:69-71 | succeeds exactly on a leading digit; the value is a non-empty digit run and the remainder a suffix |
| Literals.ParseInt | core/src/parser/literals.rs:59-67 | never panics; on success the value is a non-empty run of digits and the remainder a suffix |
| Literals.ParseIntOkIff | core/src/parser/literals.rs:59-67 | `int` succeeds exactly when the input has no `.` anywhere and a digit follows the optional `-` (so empty or whitespace-only input fails) |
| Literals.ParseIntValue | core/src/parser/literals.rs:62-70 | on success `int` returns the maximal digit run after the optional `-`; the `-` is consumed and dropped |
| Literals.ParseIntOfDigits | core/src/parser/literals.rs:59-71 | digits followed by a non-digit, in text without a `.`, are read as exactly those digits |
| Literals.Build | core/src/parser/literals.rs:41-46 | the number built for a kind has that kind and exactly the given value |
| Literals.DefStrictInt | core/src/parser/literals.rs:41-47 | `def_strict_int!` mismatches exactly when `int` does or the suffix does not follow; on success `int`'s remainder is the suffix then the rule's remainder, and the number has the rule's kind |
| Literals.DefStrictIntMatched | core/src/parser/literals.rs:41-46 | once the suffix matched, the result is the number of the digits' decimal value, or a panic when the value does not fit the kind (the `unwrap`) |
| Literals.LongestSuffix | core/src/parser/literals.rs:80-91 | the kind chosen starts the text, and is signed exactly when an `i` follows the letter |
| Literals.StrictIntChoice | core/src/parser/literals.rs:80-91 | which of the eight alternatives decides: after the digits a suffix letter selects the longest suffix; otherwise `strict_int` mismatches |
| Literals.StrictInt | core/src/parser/literals.rs:80-91 | on success the remainder is a suffix of the input; which kind is chosen, and when it panics, is stated by `Literals.StrictIntLongestSuffix` |
| Literals.StrictIntLongestSuffix | core/src/parser/literals.rs:80-91 | `strict_int` equals the independent longest-match definition `LongestMatch`: the longest suffix decides the kind, and a value out of range panics |
| Literals.StrictIntUnsignedNotBeforeI | core/src/parser/literals.rs:80-91 | an unsigned kind is never chosen with an `i` left right after it (`5bi` is never `Byte(5)` followed by `i`) |
| Literals.StrictIntOfDigits | core/src/parser/literals.rs:80-91 | digits, then a suffix that is the longest one there, in text without a `.`: the strict integer of that kind and value |
| Literals.SignedByteExample | core/src/parser/literals.rs:82-83 | `5bi` is `ByteSigned(5)` with nothing left |
| Literals.ParseString | core/src/parser/literals.rs:94-97 | `string` never panics and leaves a suffix |
| Literals.ParseStringShape | core/src/parser/literals.rs:94-96 | on success the input is a quote, the value (which holds no quote), a quote, and the remainder |
| Literals.ParseStringOkIff | core/src/parser/literals.rs:94-96 | `string` succeeds exactly when the input starts with `"` and another `"` follows |
| Literals.LiteralVagueInteger | core/src/parser/literals.rs:49-57 | digits not followed by a digit, a suffix letter or a `.` are a vague integer of exactly those digits |
| Literals.LiteralStrictInteger | core/src/parser/literals.rs:49-57 | digits with a fitting suffix are a strict number (the string rule cannot take text that starts with a digit) |
| Literals.ParseLiteral | core/src/parser/literals.rs:49-57 | on success the remainder is a suffix of the input; which alternative wins is stated by `Literals.LiteralVagueInteger` and `Literals.LiteralStrictInteger` |
| Literals.VagueExample | core/src/lib.rs:48-50 | `127` is `Vague(Integer("127"))` |
| Literals.ByteExample | core/src/lib.rs:35 | `1b` is `Number(Byte(1))` |
| Syntax.OpFor | core/src/parser/ops.rs:27-54 | the operation built for a symbol has that symbol, the left operand first and the right second |
| Syntax.OpForSymbol | core/src/parser/ops.rs:193-205 | an operation is determined by its symbol and operands |
| Brackets.ClosingBrace | core/src/parser/ops.rs:166-188 | the position found is a `}` at level one with none before it; there is none exactly when no `}` closes the group |
| Brackets.LevelPositive | core/src/parser/ops.rs:171-184 | before the closing brace the level never drops below one |
| Brackets.LevelCounts | core/src/parser/ops.rs:171-184 | the level is one plus the `{` minus the `}` seen after the opening brace |
| BracketScan.BracketGroup | core/src/parser/ops.rs:160-191 | the source's loop, with its mutable level and early return, computes exactly the rule `Parser.ParseBracketGroup` |
| BracketScan.BracketGroupSpec | core/src/parser/ops.rs:160-191 | without a leading `{` the rule mismatches; on success it closed at the first `}` that balances the braces after the `{`, its value is the token read from the inside after leading line feeds, and the remainder starts right after that `}`; a closed group whose inside parses always succeeds |
| BracketScan.BracketGroupUnclosed | core/src/parser/ops.rs:190 | a group that no `}` closes is a mismatch |
| Parser.OptMut | core/src/parser/ops.rs:116 | the prefix is reported exactly when the input starts with `mut` and a space or tab; without it the input is left as it was |
| Parser.ParseIdent | core/src/parser/mod.rs:172-179 | never panics; on success the remainder is strictly shorter |
| ParserFacts.IdentSpec | core/src/parser/mod.rs:172-179 | `ident` succeeds exactly on a leading letter and takes the maximal run of letters; digits and `_` end it |
| ParserFacts.IdentOfWord | core/src/parser/mod.rs:172-179 | a word followed by a non-letter is read as that word |
| Parser.IdentReadBack | core/src/parser/ops.rs:134-148 | an identifier's text read again with `ident` is taken whole, so `ident(..).unwrap()` returns it and never panics |
| ParserFacts.ReparseIdent | core/src/parser/ops.rs:134-148 | a word read again with `ident` is all taken |
| Parser.OptIdentSpace | core/src/parser/ops.rs:119 | always succeeds; without a second identifier the input is untouched |
| Parser.ListSeparator | core/src/parser/mod.rs:185 | the separator never panics, and on success leaves a strictly shorter remainder |
| Parser.ParseParam | core/src/parser/mod.rs:156-169 | `param` never panics and yields a `Param` |
| ParserFacts.ParamShape | core/src/parser/mod.rs:156-169 | on success `mutable` holds exactly when the input starts with `mut` and whitespace; type and name are identifiers |
| ParserFacts.ParamOfWords | core/src/parser/mod.rs:156-169 | `[mut ]type name` is read with the first word as the type annotation and the second as the name |
| ParserFacts.OptMutOf | core/src/parser/ops.rs:116 | the optional `mut ` before a letter is taken exactly when written |
| ParserFacts.NoMutPrefix | core/src/parser/mod.rs:158 | a word other than `mut` followed by a non-letter has no `mut` prefix |
| Parser.ParamList | core/src/parser/ops.rs:60 | the parameter list never fails (it may be empty) and holds only parameters |
| Parser.Parse | core/src/parser/mod.rs:93-113 | `parse` never reports a mismatch: its `unwrap` can only meet a panic raised inside |
| Parser.ParseToken | core/src/parser/mod.rs:136-154 | `token` never mismatches, and leaves at most its input |
| ParserFacts.TokenOfWord | core/src/parser/mod.rs:136-154 | a word before a closing character is read by `token` as that identifier |
| ParserFacts.TokenOfDigits | core/src/parser/mod.rs:136-154 | digits before a closing character, in text without a `.`, are read by `token` as that vague integer |
| ParserFacts.TokenOfChain | core/src/parser/ops.rs:79-87 | `w; u` is read by `token` as the method chain of `w` and what `token` reads from `u` |
| ParserFacts.MethodOfLinks | core/src/parser/ops.rs:79-87 | `method` is its singleton, `;`, spaces and the token after them, as a `Method` |
| ParserFacts.TokenOfAssignment | core/src/parser/mod.rs:136-154 | where no function definition or `if` can start and `assignment` matches, `token` is that assignment |
| ParserFacts.TokenIsMethod | core/src/parser/mod.rs:136-154 | where every statement rule mismatches and `method` matches, `token` is that chain |
| ParserFacts.TokenIsIf | core/src/parser/mod.rs:136-154 | where no function definition starts and `ifstmt` matches, `token` is that `if` |
| ParserFacts.IfSteps | core/src/parser/ops.rs:89-112 | `ifstmt` is `if`, spaces, a comparison, spaces, a brace group, line feeds and the rest of the program, as `CondPair(IfStmt(cond), block, rest)` |
| ParserFacts.GroupSteps | core/src/parser/ops.rs:160-191 | a brace group closed at `u` is the token read from its inside, and the remainder after the `}` |
| ParserFacts.TokenFallsBack | core/src/parser/mod.rs:138-149 | when every rule before it mismatches, `token` takes the whole input as `None` |
| ParserFacts.TokenAtWhitespace | core/src/parser/mod.rs:138-149 | on empty input or input starting with whitespace every rule fails and `token` and `rest_of_file` take everything as `None` |
| ParserFacts.KeywordRulesNeedStart | core/src/parser/ops.rs:56-98 | function definitions, `if` statements and arrays mismatch unless the input starts with `\|`, `i` or `[` |
| ParserFacts.LiteralNeedsStart | core/src/parser/literals.rs:49-57 | a literal needs a quote, a minus sign or a digit first |
| Parser.RestOfFile | core/src/parser/util.rs:39-41 | `rest_of_file` never mismatches |
| ParserFacts.RestOfFileIsToken | core/src/parser/util.rs:39-41 | `rest_of_file` is `token` itself, as `token` never mismatches |
| Parser.ParseParen | core/src/parser/mod.rs:115-121 | `paren` succeeds only on a leading `(`, and mismatches on any other first character |
| ParserFacts.ParenParts | core/src/parser/mod.rs:115-121 | on success `paren` has read `(`, spaces, a token, spaces and `)`; its value is that token and its remainder is what follows the `)` |
| ParserFacts.ParenOf | core/src/parser/mod.rs:115-121 | `(` then text that `token` reads up to a `)` is that token, with the remainder after the `)` |
| ParserFacts.ParenOfWord | core/src/parser/mod.rs:115-121 | `(w)` is the identifier `w` |
| ParserFacts.SingletonOfParen | core/src/parser/mod.rs:123-134 | at a `(` `singleton` is exactly `paren`, since neither an identifier nor a literal starts there |
| Parser.ParseSingleton | core/src/parser/mod.rs:123-134 | text starting with a letter is the identifier `ident` reads; text starting with a digit is a singleton exactly when `literal` reads it, and then that literal (neither `paren` nor `ident` can take it) |
| ParserFacts.SingletonNeedsStart | core/src/parser/mod.rs:123-134 | `singleton` mismatches on input that cannot start a parenthesis, an identifier or a literal |
| Parser.Interop | core/src/parser/ops.rs:27-54 | a binary rule yields an operation with its own symbol whose left operand is the singleton at the start of the input |
| ParserFacts.InteropNeedsSingleton | core/src/parser/ops.rs:30-38 | a binary rule mismatches where its first singleton does |
| ParserFacts.InteropNeedsOperator | core/src/parser/ops.rs:34 | a binary rule mismatches when its symbol does not follow the left operand and its spaces |
| ParserFacts.SymbolDetermines | core/src/parser/ops.rs:193-205 | two operations with the same symbol are the same kind of operation |
| Parser.ParseComparison | core/src/parser/ops.rs:200-202 | `comparison` yields an operation whose symbol is one of the six comparisons |
| ParserFacts.ComparisonPrefersGte | core/src/parser/ops.rs:200-202 | where `>=` matches, `comparison` returns that `Gte` (never a `Gt` with `=` left over) |
| ParserFacts.ComparisonPrefersLte | core/src/parser/ops.rs:200-202 | where `<=` matches, `comparison` returns that `Lte` |
| Parser.ParseOps | core/src/parser/ops.rs:207-209 | `ops` yields an operation |
| ParserFacts.OpsFirstRule | core/src/parser/ops.rs:200-209 | `ops` is the first of its eight binary rules, in the order `-`, `+`, `==`, `!=`, `>=`, `<=`, `>`, `<`, that does not mismatch, a panic included |
| ParserFacts.OpsNoRule | core/src/parser/ops.rs:200-209 | when all eight binary rules mismatch, `ops` mismatches |
| ParserFacts.OpsNeedSingleton | core/src/parser/ops.rs:207-209 | `ops` and `comparison` mismatch where the first singleton does |
| Parser.ParseMethod | core/src/parser/ops.rs:79-87 | `method` yields `Method(receiver, call)` whose receiver is the singleton at the start |
| ParserFacts.MethodNeedsSingleton | core/src/parser/ops.rs:80 | `method` mismatches where its singleton does |
| Parser.ArrayTail | core/src/parser/mod.rs:185 | the tail of the element list never mismatches |
| Parser.ParseArray | core/src/parser/mod.rs:181-192 | `array` needs a leading `[` and yields an array of at least one element |
| ParserFacts.ArrayParts | core/src/parser/mod.rs:181-192 | on success `array` has read `[`, spaces, the first element, the comma-separated further elements, spaces and `]`; the array holds exactly those elements in order, and the remainder follows the `]` |
| ParserFacts.ArrayTailOfWords | core/src/parser/mod.rs:185 | `, w1, w2, ...` before a `]` is read as exactly those identifiers, and stops at the `]` |
| ParserFacts.ArrayOfWords | core/src/parser/mod.rs:181-192 | `[w, w1, ...]` is the array of those identifiers in order, with the remainder after the `]` |
| Parser.ParseBracketGroup | core/src/parser/ops.rs:160-191 | the brace group leaves at most its input |
| Parser.ParseMethodDef | core/src/parser/ops.rs:56-77 | `method_def` needs a leading `\|` and yields `FnPair` whose parameter list holds only parameters |
| ParserFacts.MethodDefParts | core/src/parser/ops.rs:56-77 | on success `method_def` has read `\|`, spaces, the parameter list, spaces, a second `\|`, spaces, a brace group, line-feed whitespace and the rest of the file; the result is `FnPair` of exactly those parameters, that group's token and the rest's token, with the remainder the rest leaves |
| ParserFacts.MethodDefSteps | core/src/parser/ops.rs:56-77 | the converse: those parts, each read where the previous one stopped, make `method_def` succeed with that `FnPair` |
| ParserFacts.TokenIsMethodDef | core/src/parser/mod.rs:136-149 | where `method_def` matches, `token` is that function definition (it is the first alternative) |
| ParserFacts.ParamListOfOne | core/src/parser/ops.rs:59 | `T x`, with `T` a word other than `mut`, before a `\|` is the list of the one immutable parameter `x` of type `T`, stopping at the `\|` |
| ParserFacts.GroupOfWord | core/src/parser/ops.rs:160-191 | `{w}` is the group whose token is the identifier `w`, with the remainder after the `}` |
| ParserFacts.MethodDefOfWords | core/src/parser/ops.rs:56-77 | `\|T x\| {w}` followed by the rest is `FnPair([T x], w, rest's token)` |
| ParserFacts.MethodDefExample | core/src/parser/ops.rs:56-77 | `\|byte x\| {x}` followed by a rest is the definition with parameter `byte x`, body `x` and that rest's token |
| Parser.ParseIfStmt | core/src/parser/ops.rs:89-112 | `ifstmt` needs a leading `if` and yields `CondPair(IfStmt(cond), block, rest)` with `cond` a comparison |
| Parser.ParseAssignment | core/src/parser/ops.rs:114-158 | the result is `Pair(Assignment, rest)`; `mutable` holds exactly when `mut` and whitespace lead; the first identifier is the annotation when there are two, and the name otherwise |
| ParserFacts.AssignmentParts | core/src/parser/ops.rs:114-158 | on success the binding is mutable exactly when `mut` and whitespace lead; with two identifiers before `=` the first is the type annotation and the second the name, and with one it is the name and there is no annotation |
| ParserFacts.AssignmentOfWords | core/src/parser/ops.rs:114-158 | `[mut ][T ]x = u` is the assignment of name `x`, annotation `T` when written, and the token `u` starts with, paired with the rest of the program |
| ParserFacts.UntypedAssignmentOf | core/src/parser/ops.rs:114-158 | `[mut ]x = u` is the unannotated assignment of `x`, paired with the rest of the program |
| ParserFacts.TypedAssignmentOf | core/src/parser/ops.rs:114-158 | `[mut ]T x = u` is the assignment of `x` annotated `T`, paired with the rest of the program |
| ParserFacts.AssignmentNeedsIdent | core/src/parser/ops.rs:116-117 | `assignment` mismatches unless an identifier starts the input |
| Display.RenderVague | core/src/parser/display.rs:11-19 | a vague integer prints as its digits and a `v`; a vague string prints raw |
| Display.RenderNumber | core/src/parser/display.rs:21-36 | a strict number prints as at least one character of value followed by the suffix of its kind; `Display.NumberRoundTrip` reads it back |
| Display.RenderLiteral | core/src/parser/display.rs:72-81 | a strict number ends with its kind's suffix, a boolean prints as `true` exactly when it is true and `false` exactly when it is false, a string prints as itself |
| Display.NumberRoundTrip | core/src/parser/display.rs:21-36 | a non-negative strict integer printed and read back by `literal` is the same number, when what follows cannot extend its suffix |
| Display.VagueMarkerStays | core/src/parser/display.rs:15 | the printed `v` of a vague integer is not read back as part of it |
| Display.Prefix | core/src/parser/display.rs:100-103 | the prefix is `INDENT` tabs when `DO_INDENT` is set, and empty otherwise |
| Display.BlankIsTrimEmpty | core/src/parser/display.rs:147 | the test `trim() == ""` holds exactly for text that is whitespace throughout |
| Display.MutableText | core/src/parser/display.rs:117 | ` (mut)` exactly for a mutable binding, and nothing otherwise |
| Display.Render | core/src/parser/display.rs:97-204 | printing any token leaves `INDENT` at its starting value |
| Display.RenderArm | core/src/parser/display.rs:105-200 | each arm leaves `INDENT` at its starting value |
| Display.RenderBlock | core/src/parser/display.rs:154-190 | the arms of `CondPair` and `FnPair` leave `INDENT` where they found it |
| Display.RenderBody | core/src/parser/display.rs:158-160 | the block, printed one level deeper, leaves the level as it found it |
| Display.RenderAfter | core/src/parser/display.rs:161-170 | after the closing mark `INDENT` is one lower than inside the block |
| Display.RenderOp | core/src/parser/display.rs:38-70 | printing an operation leaves `INDENT` alone |
| Display.OpOfIdents | core/src/parser/display.rs:38-70 | an operation on identifiers prints as `(a SYM b)` with the symbol the parser read (operands get the tab prefix when it is on) |
| Display.RenderTokens | core/src/parser/display.rs:83-95 | printing a token list leaves `INDENT` alone |
| Display.RenderElems | core/src/parser/display.rs:88-91 | one printed text per token, and `INDENT` unchanged |
| Display.IdentsJoin | core/src/parser/display.rs:88-92 | identifiers printed without the prefix come out as their names and leave the globals alone |
| Display.TokensOfIdents | core/src/parser/display.rs:83-95 | a list of identifiers prints as their names joined by `, ` |
| Display.IdentRender | core/src/parser/display.rs:106 | an identifier prints as the prefix and its name, and changes no global |
| Display.NoneRendersPrefix | core/src/parser/display.rs:199 | `None` prints only the tab prefix, which is blank |
| Display.PairWithNone | core/src/parser/display.rs:143-152 | a pair whose second part is `None` prints as `<first>`, the first without the tab prefix |
| Display.PairOfIdents | core/src/parser/display.rs:143-152 | a pair of identifiers prints as `<first;\nsecond>`, the second behind the current tabs |
| Display.AssignmentUnannotated | core/src/parser/display.rs:108-123 | prints `Assignment`, then ` (mut)` exactly when mutable, the name, `[unknown]` and the value |
| Display.AssignmentAnnotated | core/src/parser/display.rs:108-123 | with an annotation, `[T]` replaces `[unknown]` |
| Display.CondPairBodyIndent | core/src/parser/display.rs:154-160 | a condition's block is printed one level deeper, with the prefix on, right after its `<<?cond;` line |
| Display.FnPairBodyIndent | core/src/parser/display.rs:173-179 | a function's body is printed one level deeper, with the prefix on, right after its `<<λparams;` line |
| Display.ParamRender | core/src/parser/display.rs:125-135 | a parameter of identifiers prints as type, space, name, space, then ` (mut)` exactly when mutable, and switches the prefix off |
| Display.MethodRender | core/src/parser/display.rs:192-197 | a method of identifiers prints `<receiver THEN `, a line feed, the call behind the current tabs, and `>`, leaving the prefix on |
| Display.IfStmtRender | core/src/parser/display.rs:141 | a condition prints `Cond: ` then the condition from the same globals, so the tabs come twice when the prefix is on |
| Printing.TrimsToEmpty | core/src/parser/display.rs:147 | the method's test is exactly `Blank` |
| Printing.Printer.constructor | core/src/parser/display.rs:8-9 | the globals start at depth 0 with the prefix off |
| Printing.Printer.Fmt | core/src/parser/display.rs:97-204 | `Token::fmt` on the mutable globals returns the text and leaves the globals that `Render` describes |
| Printing.Printer.FmtArm | core/src/parser/display.rs:105-200 | each arm, updating the globals as it goes, computes `RenderArm` |
| Printing.Printer.FmtBlock | core/src/parser/display.rs:154-157 | the head of `CondPair`/`FnPair` computes `RenderBlock` |
| Printing.Printer.FmtBody | core/src/parser/display.rs:158-160 | raising `INDENT` and printing the block computes `RenderBody` |
| Printing.Printer.FmtAfter | core/src/parser/display.rs:161-170 | the probe, the closing mark and lowering `INDENT` compute `RenderAfter` |
| Printing.Printer.FmtOp | core/src/parser/display.rs:38-70 | printing an operation computes `RenderOp` |
| Printing.Printer.FmtTokens | core/src/parser/display.rs:83-95 | the loop over the tokens computes `RenderTokens` |
| Text.TrimEmptyIff | core/src/parser/display.rs:147 | a text trims to nothing exactly when it is all whitespace |
| Text.TrimmedLines | core/src/compiler/translate.rs:254-257 | splitting into lines, trimming each and joining with line feeds gives text whose every line is trimmed |
| Text.LinesOfJoin | core/src/compiler/translate.rs:254-257 | the lines of a line-feed join are lines that were joined |
| Text.DecimalRoundTrip | core/src/parser/literals.rs:44 | the decimal text of a number reads back as the number |
| Translator.TransformLiteral | core/src/compiler/translate.rs:39-54 | `transform_literal` never panics |
| Translator.TransformLiteralTable | core/src/compiler/translate.rs:39-54 | exactly the ten names of the table map to their target types; any other name is the error `Failed to parse literal identifier` |
| Translator.TranslateIdent | core/src/compiler/translate.rs:158-164 | a name in the type table becomes its target type; any other name is kept as written (`TranslateFacts.IdentTranslation` states the whole arm) |
| Translator.Translate | core/src/compiler/translate.rs:60-176 | translating never changes the printer's depth |
| Translator.TranslateBinding | core/src/compiler/translate.rs:70-88 | a binding leaves the depth alone |
| Translator.TranslateCall | core/src/compiler/translate.rs:91-114 | a call leaves the depth alone |
| Translator.TranslateLiteral | core/src/compiler/translate.rs:116-137 | a literal changes no global |
| Translator.TranslateOp | core/src/compiler/translate.rs:179-190 | an operation leaves the depth alone |
| Translator.GenFunction | core/src/compiler/translate.rs:192-268 | a generated function leaves the depth alone; its text is stated by `TranslateFacts.FunctionTranslation` |
| Translator.FunctionText | core/src/compiler/translate.rs:203-208 | the template starts with the header line `fn name(params) ret {` and then the body behind 24 spaces on its own line; its trimmed lines are stated by `TranslateFacts.FunctionTextLines` |
| Translator.ReturnType | core/src/compiler/translate.rs:243-251 | the return type never panics |
| Translator.ParamList | core/src/compiler/translate.rs:218-242 | the parameter text is never an `anyhow` error, exists exactly when every parameter's text does, and is empty for no parameters; per parameter by `TranslateFacts.ParamTextsAll` |
| Translator.ParamTexts | core/src/compiler/translate.rs:221-241 | one text per parameter, and never an `anyhow` error |
| Translator.ParamText | core/src/compiler/translate.rs:223-239 | a parameter is lowered or panics, never an `anyhow` error |
| Translator.TranslateFile | core/src/compiler/translate.rs:56-58 | a file translates exactly when its tree does and panics exactly when its tree does; its text starts with the prelude's two line feeds and one more (`TranslateFacts.FileTranslation` gives the rest) |
| TranslateFacts.FileTranslation | core/src/compiler/translate.rs:56-58 | a file translates exactly when its tree does, to the two-line-feed prelude, a line feed and the tree's text; it panics exactly when the tree does |
| TranslateFacts.IdentTranslation | core/src/compiler/translate.rs:158-164 | an identifier becomes its target type when the table has it, and stays verbatim otherwise |
| TranslateFacts.PairTranslation | core/src/compiler/translate.rs:139-142 | a sequence of two translated statements is `A\nB` |
| TranslateFacts.PairStopsAtFirst | core/src/compiler/translate.rs:141 | a failing first statement fails the sequence the same way |
| TranslateFacts.CondPairTranslation | core/src/compiler/translate.rs:144-152 | a condition, its block and the rest become `if C {\nB\n}\n R` |
| TranslateFacts.NoneTranslation | core/src/compiler/translate.rs:166-169 | `None` becomes the empty text |
| TranslateFacts.UnsupportedPanics | core/src/compiler/translate.rs:171-174 | parameters, bare function values, method chains, spans and arrays panic |
| TranslateFacts.LiteralTranslation | core/src/compiler/translate.rs:116-137 | a literal panics exactly when it is not a vague integer, string or byte; these become the digits, the quoted text, and `u8(n)` with `n` the value in decimal |
| TranslateFacts.OpTranslation | core/src/compiler/translate.rs:179-190 | an operation becomes `(L SYM R)` with the symbol the parser read |
| TranslateFacts.UntypedAssignment | core/src/compiler/translate.rs:70-88 | an unannotated binding becomes `[mut ]name := value` |
| TranslateFacts.TypedAssignment | core/src/compiler/translate.rs:70-88 | a binding annotated with an identifier becomes `[mut ]name := T(value)`, `T` the annotation's translation |
| TranslateFacts.ArrayCallOfIdents | core/src/compiler/translate.rs:92-102 | a call with an array of identifiers becomes `f(a, b, ...)` with the elements printed, not translated, and no global changes |
| TranslateFacts.CallTranslation | core/src/compiler/translate.rs:104-111 | a call with any other argument becomes `callee(argument)` |
| TranslateFacts.CallNeedsIdent | core/src/compiler/translate.rs:113 | a call whose callee is not an identifier panics |
| TranslateFacts.ParamTextOfKnown | core/src/compiler/translate.rs:223-239 | a parameter lowers exactly when both parts are identifiers and the type is in the table, to `[mut ]name Type`; any other panics |
| TranslateFacts.ParamTextsAll | core/src/compiler/translate.rs:218-242 | the parameter texts exist exactly when every parameter is known, one text per parameter in order |
| TranslateFacts.FunctionNeedsName | core/src/compiler/translate.rs:211-216 | a function definition bound to something other than an identifier is the error `I need a name for the function, or it wasn't valid.` |
| TranslateFacts.FunctionReturnType | core/src/compiler/translate.rs:243-251 | a return annotation that is not an identifier is `failed to parse return type for function`; an unknown type name is the table's error; any other error comes from the rest of the program |
| TranslateFacts.FunctionTranslation | core/src/compiler/translate.rs:192-268 | a function definition whose body and rest translate, with known parameters and a known or no return type, becomes the trimmed lines `fn name(params) ret {`, the body's lines, `}`, an empty line, the rest's lines and an empty line, joined by line feeds; the globals are those the rest leaves |
| TranslateFacts.FunctionTextLines | core/src/compiler/translate.rs:203-257 | trimming the lines of the raw-string template gives the header line, the body's lines, `}`, an empty line, the rest's lines and an empty line, whatever the template's indentation |
| TranslateFacts.FunctionParts | core/src/compiler/translate.rs:192-268 | the parts are filled into the template in the order body, name, parameters, return type, rest, with the parameters joined by `, ` |
| TranslateFacts.FunctionExample | core/src/compiler/translate.rs:192-268 | `f = \|byte x\| {x}` becomes `fn f(x u8)  {`, `x`, `}` and three empty lines, whatever the globals |
| TranslateFacts.FunctionLinesTrimmed | core/src/compiler/translate.rs:254-257 | every line of a generated function is trimmed |
| TranslateFacts.FunctionPartsLower | core/src/compiler/translate.rs:218-251 | with known parameters the parameter list and the return type never panic |
| Display.RenderAtTop | core/src/parser/display.rs:8-9 | at depth 0 what a token prints does not depend on `DO_INDENT` |
| Display.RenderElemsAtTop | core/src/parser/display.rs:88-91 | at depth 0 a token list's printed texts do not depend on `DO_INDENT` |
| TranslateFacts.TranslateAtTop | core/src/compiler/translate.rs:60-176 | from depth 0 the outcome of a translation (text, error message or panic) does not depend on `DO_INDENT` |
| TranslateFacts.FileFromAnyGlobals | core/src/compiler/translate.rs:56-58 | `translate_file` has the same outcome from the globals any earlier translation left (depth 0) as from their initial values |
| TranslateFacts.TranslateTwice | core/src/compiler/translate.rs:56-58 | translating a tree again, from the globals the first translation left, gives the same text and leaves the depth at 0 |
| TranslateFacts.LowerableNeverPanics | core/src/compiler/translate.rs:60-176 | a tree built only of constructs the translator lowers (`Lowerable`) never panics, and every tree that translates is lowerable |
| Fixture.SingletonVague | core/src/parser/mod.rs:123-134 | digits before a non-digit, non-suffix character are a singleton vague integer |
| Fixture.SingletonOneByte | core/src/parser/mod.rs:123-134 | `1b` before text with no `.` and no leading `i` is the singleton `Byte(1)` |
| Fixture.InteropSteps | core/src/parser/ops.rs:30-48 | a binary rule is singleton, spaces, operator, spaces, singleton, in that order |
| Fixture.ConditionOfTestProgram | core/src/lib.rs:46-51 | `dice >= 127` is read by `comparison` as the tree's `Gte(dice, 127)` |
| Fixture.SubtractionOfTestProgram | core/src/lib.rs:34-37 | `1b - 1b` is read by `ops` as the tree's `Subtract(1b, 1b)` |
| Fixture.TestProgramParses | core/src/lib.rs:14-71 | `parse` reads the six-line test program as exactly the expected tree, leaving its final line feed |
| Fixture.TestTreeTranslation | core/src/lib.rs:21-70 | the expected tree's first statement translates to `mut output := 0`; the value of its second, a method chain, panics, so the whole file panics and the tree is not lowerable |

## Left out

- Floating point: `strict_float`, nom's `double` and `float`, `VagueLiteral::Float`, `MediumFloat` and `LargeFloat` are not modelled. A text that only these rules would accept is a mismatch in the model.
- `method_unit` is dispatched by `token` but defined in no file of the repository, so `Parser.ParseMethodUnit` always mismatches. The translation of an existing `MethodUnit` node is modelled.
- `char::is_alphabetic` is modelled as the ASCII letters. The Unicode alphabetic property would need its tables.
- Logging (`info!`, `attempt!`, `got!`) and the logger, the compiler driver (core/src/compiler/mod.rs: file output and running `v`) and the collector are I/O and are not part of this model.
- `Token::Span` carries a plain offset instead of a `LocatedSpan`, and position tracking is not modelled.
- The printer's `match` has no arm for `MethodUnit`, `Array` and `Span`. The model prints them as the prefix alone.
- `BracketScan.BracketGroup`: the source slices the string by byte offsets using a character index, and its level is an `i32`. The model indexes characters and uses unbounded integers, so non-ASCII text before the `}` is not modelled as the source would slice it.
- `gen_function`'s `you_asked!` branches cannot be reached from `translate`, which only calls it on an assignment of an `FnPair`. They are modelled in `Translator.GenFunction` with no lemma about them.
- The printer's atomics are modelled as plain sequential state. Concurrent printing is not modelled.
- The test program file `dl/parse-test-1.dl` is not part of this model. `Fixture.ProgramText` is a six-line program written to match the expected tree of the test at core/src/lib.rs:14-71; that the file holds exactly this text is not checked.
- Parser.ParseToken: the rules state that a successful remainder is no longer than the input ("shrinks"), which is weaker than "the remainder is a suffix of the input". Suffix facts are proved for the combinators and the lexical rules.
- Parser.ParseAssignment: the `unwrap` re-parses panic in no case. This is shown by `Parser.IdentReadBack`, but the contract does not state `Panic` outright.
- Translator.TranslateCall: the callee of a single-argument call is translated as an identifier directly (the source builds a fresh `Token::Ident` and translates it), which is the same text and changes no state.
