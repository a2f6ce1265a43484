/**
 * Literal values and their recognisers: vague (untyped) integers,
 * suffix-typed integers and string literals.
 */
module Literals {
  import opened Text
  import opened Combinators

  type uint8 = x: int | 0 <= x < 0x100
  type int8 = x: int | -0x80 <= x < 0x80
  type uint16 = x: int | 0 <= x < 0x1_0000
  type int16 = x: int | -0x8000 <= x < 0x8000
  type uint32 = x: int | 0 <= x < 0x1_0000_0000
  type int32 = x: int | -0x8000_0000 <= x < 0x8000_0000
  type uint64 = x: int | 0 <= x < 0x1_0000_0000_0000_0000
  type int64 = x: int | -0x8000_0000_0000_0000 <= x < 0x8000_0000_0000_0000

  /** An untyped literal; its integer form keeps the digits as text. */
  datatype VagueLiteral = Integer(digits: seq<char>) | String(text: seq<char>)

  /** An integer literal with an explicit width; each field is named after its suffix. */
  datatype StrictNumber =
    | Byte(b: uint8)
    | ByteSigned(bi: int8)
    | Small(s: uint16)
    | SmallSigned(si: int16)
    | Medium(m: uint32)
    | MediumSigned(mi: int32)
    | Large(l: uint64)
    | LargeSigned(li: int64)

  datatype Literal =
    | Number(num: StrictNumber)
    | Vague(vague: VagueLiteral)
    | Bool(flag: bool)
    | String(text: seq<char>)

  function Value(n: StrictNumber): int {
    match n
    case Byte(v) => v
    case ByteSigned(v) => v
    case Small(v) => v
    case SmallSigned(v) => v
    case Medium(v) => v
    case MediumSigned(v) => v
    case Large(v) => v
    case LargeSigned(v) => v
  }

  /** The eight kinds of strict integer, one per suffix. */
  datatype Kind = B | BI | S | SI | M | MI | L | LI

  /** The suffix that marks each kind, both when parsing and when displaying. */
  function SuffixText(k: Kind): (r: seq<char>)
    ensures |r| == if IsSignedKind(k) then 2 else 1
    ensures r[0] == Letter(k)
  {
    match k
    case B => "b"
    case BI => "bi"
    case S => "s"
    case SI => "si"
    case M => "m"
    case MI => "mi"
    case L => "l"
    case LI => "li"
  }

  function KindOf(n: StrictNumber): Kind {
    match n
    case Byte(_) => B
    case ByteSigned(_) => BI
    case Small(_) => S
    case SmallSigned(_) => SI
    case Medium(_) => M
    case MediumSigned(_) => MI
    case Large(_) => L
    case LargeSigned(_) => LI
  }

  function SuffixOf(n: StrictNumber): seq<char> {
    SuffixText(KindOf(n))
  }

  predicate IsSignedKind(k: Kind) {
    k.BI? || k.SI? || k.MI? || k.LI?
  }

  /** The largest digit-string value `str::parse` accepts for kind `k`. */
  function MaxFor(k: Kind): nat {
    match k
    case B => 0xFF
    case BI => 0x7F
    case S => 0xFFFF
    case SI => 0x7FFF
    case M => 0xFFFF_FFFF
    case MI => 0x7FFF_FFFF
    case L => 0xFFFF_FFFF_FFFF_FFFF
    case LI => 0x7FFF_FFFF_FFFF_FFFF
  }

  /** The number of kind `k` holding `n`. */
  function Build(k: Kind, n: nat): (r: StrictNumber)
    requires n <= MaxFor(k)
    ensures KindOf(r) == k && Value(r) == n
  {
    match k
    case B => Byte(n)
    case BI => ByteSigned(n)
    case S => Small(n)
    case SI => SmallSigned(n)
    case M => Medium(n)
    case MI => MediumSigned(n)
    case L => Large(n)
    case LI => LargeSigned(n)
  }

  /** The input with one leading minus sign removed, if it has one. */
  function SkipMinus(s: seq<char>): seq<char> {
    if "-" <= s then s[1..] else s
  }

  /** `numbers`: a non-empty run of decimal digits. */
  function Numbers(s: seq<char>): (r: Parsed<seq<char>>)
    ensures !r.Panic? && Advances(r, s)
    ensures r.Ok? <==> |s| > 0 && IsAsciiDigit(s[0])
    ensures r.Ok? ==> |r.value| > 0 && AllDigits(r.value)
  {
    TakeWhile1(IsAsciiDigit, s)
  }

  /**
   * `int`: an optional minus sign, then a maximal run of digits; only the
   * digits are returned. The whole input is refused when it contains a
   * `.` anywhere or trims to nothing.
   */
  function ParseInt(s: seq<char>): (r: Parsed<seq<char>>)
    ensures !r.Panic? && Advances(r, s)
    ensures r.Ok? ==> |r.value| > 0 && AllDigits(r.value)
  {
    if '.' in s || Trim(s) == [] then Err
    else if "-" <= s then
      var r := Numbers(s[1..]);
      SuffixDrop(s, 1);
      if r.Ok? then SuffixTrans(r.rest, s[1..], s); r else r
    else Numbers(s)
  }

  /**
   * `int` accepts exactly the texts without a `.` whose first character
   * after an optional minus sign is a digit.
   */
  lemma ParseIntOkIff(s: seq<char>)
    ensures ParseInt(s).Ok? <==> '.' !in s && |SkipMinus(s)| > 0 && IsAsciiDigit(SkipMinus(s)[0])
  {
    if '.' !in s && |SkipMinus(s)| > 0 && IsAsciiDigit(SkipMinus(s)[0]) {
      ParseIntAccepts(s);
    }
  }

  lemma ParseIntAccepts(s: seq<char>)
    requires '.' !in s && |SkipMinus(s)| > 0 && IsAsciiDigit(SkipMinus(s)[0])
    ensures ParseInt(s).Ok?
  {
    var t := SkipMinus(s);
    var j := |s| - |t|;
    assert t[0] == s[j] && !IsWhitespace(s[j]);
    TrimEmptyIff(s);
    assert Trim(s) != [];
    assert ParseInt(s) == Numbers(t);
  }

  /** What `int` returns is the maximal digit run after the optional minus sign. */
  lemma ParseIntValue(s: seq<char>)
    ensures ParseInt(s).Ok? ==> ParseInt(s) == TakeWhile(IsAsciiDigit, SkipMinus(s))
  {
  }

  /** The letter each suffix starts with. */
  function Letter(k: Kind): char {
    match k
    case B | BI => 'b'
    case S | SI => 's'
    case M | MI => 'm'
    case L | LI => 'l'
  }

  /** The first letter of some integer suffix. */
  predicate IsSuffixLetter(c: char) {
    c == 'b' || c == 's' || c == 'm' || c == 'l'
  }

  /** `t` starts with the suffix of `k`, stated character by character. */
  predicate StartsWithSuffix(k: Kind, t: seq<char>) {
    |t| > 0 && t[0] == Letter(k) && (IsSignedKind(k) ==> |t| > 1 && t[1] == 'i')
  }

  lemma SuffixPrefix(k: Kind, t: seq<char>)
    ensures SuffixText(k) <= t <==> StartsWithSuffix(k, t)
  {
    if |t| >= 2 { assert t[..2] == [t[0], t[1]]; }
    if |t| >= 1 { assert t[..1] == [t[0]]; }
  }

  /**
   * `def_strict_int!`: an `int` followed by the suffix of `k`. The digits
   * are then parsed at the kind's width with `unwrap`, so a value out of
   * range panics instead of wrapping.
   */
  function DefStrictInt(k: Kind, s: seq<char>): (r: Parsed<StrictNumber>)
    ensures Advances(r, s)
    ensures r.Err? <==> ParseInt(s).Err? || !StartsWithSuffix(k, ParseInt(s).rest)
    ensures r.Ok? ==> ParseInt(s).rest == SuffixText(k) + r.rest && KindOf(r.value) == k
  {
    AfterInt(k, ParseInt(s), s)
  }

  /** The part of `def_strict_int!` after `int`, given what `int` returned on `s`. */
  function AfterInt(k: Kind, d: Parsed<seq<char>>, s: seq<char>): (r: Parsed<StrictNumber>)
    requires !d.Panic? && Advances(d, s) && (d.Ok? ==> AllDigits(d.value))
    ensures Advances(r, s)
    ensures r.Err? <==> d.Err? || !StartsWithSuffix(k, d.rest)
    ensures r.Ok? ==> d.rest == SuffixText(k) + r.rest && KindOf(r.value) == k
  {
    var d :- d;
    SuffixPrefix(k, d.rest);
    var t :- Tag(SuffixText(k), d.rest);
    SuffixTrans(t.rest, d.rest, s);
    PrefixSplit(SuffixText(k), d.rest);
    var n := DecimalValue(d.value);
    if n <= MaxFor(k) then Ok(Build(k, n), t.rest) else Panic
  }

  /** `strict_int`: the eight suffixes in order, each two-letter one before its one-letter prefix. */
  function StrictInt(s: seq<char>): (r: Parsed<StrictNumber>)
    ensures Advances(r, s)
  {
    Alt(DefStrictInt(BI, s),
    Alt(DefStrictInt(B, s),
    Alt(DefStrictInt(SI, s),
    Alt(DefStrictInt(S, s),
    Alt(DefStrictInt(MI, s),
    Alt(DefStrictInt(M, s),
    Alt(DefStrictInt(LI, s),
        DefStrictInt(L, s))))))))
  }

  /** The kind whose suffix is the longest one at the start of `t` (which starts with `b`, `s`, `m` or `l`). */
  function LongestSuffix(t: seq<char>): (k: Kind)
    requires |t| > 0 && IsSuffixLetter(t[0])
    ensures StartsWithSuffix(k, t)
    ensures IsSignedKind(k) <==> |t| >= 2 && t[1] == 'i'
  {
    if |t| >= 2 && t[1] == 'i' then
      if t[0] == 'b' then BI else if t[0] == 's' then SI else if t[0] == 'm' then MI else LI
    else
      if t[0] == 'b' then B else if t[0] == 's' then S else if t[0] == 'm' then M else L
  }

  /** A suffix not followed by a further `i` is the longest suffix at that place. */
  lemma LongestSuffixOfSuffix(k: Kind, rest: seq<char>)
    requires !IsSignedKind(k) ==> rest == [] || rest[0] != 'i'
    ensures var t := SuffixText(k) + rest; IsSuffixLetter(t[0]) && LongestSuffix(t) == k
  {
    var t := SuffixText(k) + rest;
    assert t[0] == Letter(k);
    if IsSignedKind(k) {
      assert t[1] == 'i';
    } else if rest != [] {
      assert t[1] == rest[0];
    }
  }

  /** `strict_int` on the result of `int`, which each of its eight alternatives computes first. */
  function StrictAfter(d: Parsed<seq<char>>, s: seq<char>): Parsed<StrictNumber>
    requires !d.Panic? && Advances(d, s) && (d.Ok? ==> AllDigits(d.value))
  {
    Alt(AfterInt(BI, d, s),
    Alt(AfterInt(B, d, s),
    Alt(AfterInt(SI, d, s),
    Alt(AfterInt(S, d, s),
    Alt(AfterInt(MI, d, s),
    Alt(AfterInt(M, d, s),
    Alt(AfterInt(LI, d, s),
        AfterInt(L, d, s))))))))
  }

  lemma StrictIntAfter(s: seq<char>)
    ensures StrictInt(s) == StrictAfter(ParseInt(s), s)
  {
  }

  lemma ChoiceAfter(d: Parsed<seq<char>>, s: seq<char>)
    requires !d.Panic? && Advances(d, s) && (d.Ok? ==> AllDigits(d.value))
    ensures d.Ok? && d.rest != [] && IsSuffixLetter(d.rest[0]) ==> StrictAfter(d, s) == AfterInt(LongestSuffix(d.rest), d, s)
    ensures d.Err? || d.rest == [] || !IsSuffixLetter(d.rest[0]) ==> StrictAfter(d, s).Err?
  {
  }

  /** Which of the eight alternatives of `strict_int` decides the outcome. */
  lemma StrictIntChoice(s: seq<char>)
    ensures var d := ParseInt(s);
      d.Ok? && d.rest != [] && IsSuffixLetter(d.rest[0]) ==> StrictInt(s) == DefStrictInt(LongestSuffix(d.rest), s)
    ensures var d := ParseInt(s);
      d.Err? || d.rest == [] || !IsSuffixLetter(d.rest[0]) ==> StrictInt(s).Err?
  {
    StrictIntAfter(s);
    ChoiceAfter(ParseInt(s), s);
  }

  lemma AfterIntMatched(k: Kind, d: Parsed<seq<char>>, s: seq<char>)
    requires d.Ok? && Advances(d, s) && AllDigits(d.value) && SuffixText(k) <= d.rest
    ensures var n := DecimalValue(d.value);
      AfterInt(k, d, s) == if n <= MaxFor(k) then Ok(Build(k, n), d.rest[|SuffixText(k)|..]) else Panic
  {
  }

  /** A strict integer that matched its suffix is built from the digits, or panics when out of range. */
  lemma DefStrictIntMatched(k: Kind, s: seq<char>)
    requires ParseInt(s).Ok? && SuffixText(k) <= ParseInt(s).rest
    ensures var d := ParseInt(s); var n := DecimalValue(d.value);
      DefStrictInt(k, s) == if n <= MaxFor(k) then Ok(Build(k, n), d.rest[|SuffixText(k)|..]) else Panic
  {
    AfterIntMatched(k, ParseInt(s), s);
  }

  /**
   * Longest-match suffix recognition: after the digits, the longest of the
   * eight suffixes decides the kind, and the value must fit that kind or
   * the parse panics.
   */
  function LongestMatch(s: seq<char>): Parsed<StrictNumber> {
    LongestMatchOf(ParseInt(s))
  }

  /** Longest-match suffix recognition on what `int` returned. */
  function LongestMatchOf(d: Parsed<seq<char>>): Parsed<StrictNumber>
    requires !d.Panic? && (d.Ok? ==> AllDigits(d.value))
  {
    if d.Err? || d.rest == [] || !IsSuffixLetter(d.rest[0]) then Err
    else
      var k := LongestSuffix(d.rest);
      var n := DecimalValue(d.value);
      if n <= MaxFor(k) then Ok(Build(k, n), d.rest[|SuffixText(k)|..]) else Panic
  }

  lemma LongestAfter(d: Parsed<seq<char>>, s: seq<char>)
    requires !d.Panic? && Advances(d, s) && (d.Ok? ==> AllDigits(d.value))
    ensures StrictAfter(d, s) == LongestMatchOf(d)
  {
    ChoiceAfter(d, s);
    if d.Ok? && d.rest != [] && IsSuffixLetter(d.rest[0]) {
      AfterIntMatched(LongestSuffix(d.rest), d, s);
    }
  }

  /** `strict_int`, eight alternatives tried in order, is longest-match suffix recognition. */
  lemma StrictIntLongestSuffix(s: seq<char>)
    ensures StrictInt(s) == LongestMatch(s)
  {
    StrictIntAfter(s);
    LongestAfter(ParseInt(s), s);
  }

  /** An unsigned kind is never chosen when an `i` follows its letter. */
  lemma StrictIntUnsignedNotBeforeI(s: seq<char>)
    ensures StrictInt(s).Ok? && !IsSignedKind(KindOf(StrictInt(s).value)) ==> !("i" <= StrictInt(s).rest)
  {
    StrictIntLongestSuffix(s);
    var d := ParseInt(s);
    var r := StrictInt(s);
    if r.Ok? && d.rest != [] && IsSuffixLetter(d.rest[0]) {
      var k := LongestSuffix(d.rest);
      if !IsSignedKind(k) && r.rest != [] {
        assert d.rest[1] == r.rest[0];
      }
    }
  }

  predicate IsNotQuote(c: char) {
    c != '"'
  }

  /**
   * `string`: the text between a leading double quote and the next one; there
   * are no escapes.
   */
  function ParseString(s: seq<char>): (r: Parsed<seq<char>>)
    ensures !r.Panic? && Advances(r, s)
  {
    var open :- Tag("\"", s);
    var body := TakeWhile(IsNotQuote, open.rest);
    var close :- Tag("\"", body.rest);
    SuffixTrans(close.rest, open.rest, s);
    Ok(body.value, close.rest)
  }

  /** A string literal is a quote, text without quotes, and a quote. */
  lemma ParseStringShape(s: seq<char>)
    ensures var r := ParseString(s);
      r.Ok? ==> '"' !in r.value && s == "\"" + r.value + "\"" + r.rest
  {
    var r := ParseString(s);
    if r.Ok? {
      var body := TakeWhile(IsNotQuote, s[1..]);
      assert IsNotQuote('"') == false;
      PrefixSplit("\"", s);
      PrefixSplit("\"", body.rest);
    }
  }

  /** `string` succeeds exactly on a quote that is closed later in the input. */
  lemma ParseStringOkIff(s: seq<char>)
    ensures ParseString(s).Ok? <==> |s| > 0 && s[0] == '"' && '"' in s[1..]
  {
    if ParseString(s).Ok? {
      ParseStringCloses(s);
    }
    if |s| > 0 && s[0] == '"' && '"' in s[1..] {
      ParseStringAccepts(s);
    }
  }

  lemma ParseStringCloses(s: seq<char>)
    requires ParseString(s).Ok?
    ensures |s| > 0 && s[0] == '"' && '"' in s[1..]
  {
    assert s[..1] == "\"";
    var body := TakeWhile(IsNotQuote, s[1..]);
    assert body.rest[..1] == "\"";
    assert s[1..][|body.value|] == body.rest[0];
  }

  lemma ParseStringAccepts(s: seq<char>)
    requires |s| > 0 && s[0] == '"' && '"' in s[1..]
    ensures ParseString(s).Ok?
  {
    assert s[..1] == "\"";
    var body := TakeWhile(IsNotQuote, s[1..]);
    var k :| 0 <= k < |s[1..]| && s[1..][k] == '"';
    assert !IsNotQuote(s[1..][k]);
    assert body.rest != [];
    assert body.rest[..1] == "\"";
  }

  /**
   * `literal`: a string, then a suffix-typed integer, then a vague
   * integer; the first that does not mismatch wins.
   */
  function ParseLiteral(s: seq<char>): (r: Parsed<Literal>)
    ensures Advances(r, s)
  {
    Alt(ParseString(s).Map(t => Literal.String(t)),
    Alt(StrictInt(s).Map(n => Number(n)),
        ParseInt(s).Map(d => Vague(Integer(d)))))
  }

  /** A text with no `.` in it. */
  predicate NoDot(s: seq<char>) {
    forall i | 0 <= i < |s| :: s[i] != '.'
  }

  /** Digits followed by a text without `.` and without a further digit are read by `int` as those digits. */
  lemma ParseIntOfDigits(d: seq<char>, t: seq<char>)
    requires |d| > 0 && AllDigits(d) && NoDot(t)
    requires t == [] || !IsAsciiDigit(t[0])
    ensures ParseInt(d + t) == Ok(d, t)
  {
    var s := d + t;
    assert '.' !in s by {
      forall i | 0 <= i < |s| ensures s[i] != '.' {
        if i < |d| { assert IsAsciiDigit(d[i]); } else { assert s[i] == t[i - |d|]; }
      }
    }
    assert s[0] == d[0];
    ParseIntAccepts(s);
    ParseIntValue(s);
    TakeWhileSplit(IsAsciiDigit, d, t);
  }

  /**
   * Digits followed by something that is neither a digit nor the first
   * letter of a suffix, in a text without a `.`, are a vague integer.
   */
  lemma LiteralVagueInteger(d: seq<char>, rest: seq<char>)
    requires |d| > 0 && AllDigits(d) && NoDot(rest)
    requires rest == [] || (!IsAsciiDigit(rest[0]) && !IsSuffixLetter(rest[0]))
    ensures ParseLiteral(d + rest) == Ok(Vague(Integer(d)), rest)
  {
    var s := d + rest;
    ParseIntOfDigits(d, rest);
    assert s[0] == d[0];
    NoStringBeforeDigit(s);
    StrictIntChoice(s);
    assert StrictInt(s).Err?;
  }

  /** Text that starts with a digit is not a string literal. */
  lemma NoStringBeforeDigit(s: seq<char>)
    requires |s| > 0 && IsAsciiDigit(s[0])
    ensures ParseString(s).Err?
  {
    assert !("\"" <= s);
  }

  /** The suffix text of a kind has no `.` in it, and neither has it followed by a text without one. */
  lemma NoDotAfterSuffix(k: Kind, rest: seq<char>)
    requires NoDot(rest)
    ensures NoDot(SuffixText(k) + rest)
  {
    var t := SuffixText(k) + rest;
    forall i | 0 <= i < |t| ensures t[i] != '.' {
      if i >= |SuffixText(k)| { assert t[i] == rest[i - |SuffixText(k)|]; }
    }
  }

  /** Once `int` has read the digits and the suffix follows, the kind's alternative yields the number or panics. */
  lemma DefStrictIntAfterDigits(d: seq<char>, k: Kind, rest: seq<char>, s: seq<char>)
    requires AllDigits(d) && ParseInt(s) == Ok(d, SuffixText(k) + rest)
    ensures DefStrictInt(k, s) ==
      if DecimalValue(d) <= MaxFor(k) then Ok(Build(k, DecimalValue(d)), rest) else Panic
  {
    var t := SuffixText(k) + rest;
    SuffixPrefix(k, t);
    assert t[|SuffixText(k)|..] == rest;
    DefStrictIntMatched(k, s);
  }

  /** Digits, then a suffix that is the longest one there, then no `.`: a strict integer of that kind. */
  lemma StrictIntOfDigits(d: seq<char>, k: Kind, rest: seq<char>)
    requires |d| > 0 && AllDigits(d) && DecimalValue(d) <= MaxFor(k) && NoDot(rest)
    requires !IsSignedKind(k) ==> rest == [] || rest[0] != 'i'
    ensures StrictInt(d + SuffixText(k) + rest) == Ok(Build(k, DecimalValue(d)), rest)
  {
    var t := SuffixText(k) + rest;
    var s := d + t;
    assert d + SuffixText(k) + rest == s;
    assert ParseInt(s) == Ok(d, t) by {
      NoDotAfterSuffix(k, rest);
      ParseIntOfDigits(d, t);
    }
    assert StrictInt(s) == DefStrictInt(k, s) by {
      LongestSuffixOfSuffix(k, rest);
      StrictIntChoice(s);
    }
    DefStrictIntAfterDigits(d, k, rest, s);
  }

  /**
   * Digits followed by a suffix (the longest one present) and a value that
   * fits its kind, in a text without a `.`, are a strict integer of that kind.
   */
  lemma LiteralStrictInteger(d: seq<char>, k: Kind, rest: seq<char>)
    requires |d| > 0 && AllDigits(d) && DecimalValue(d) <= MaxFor(k) && NoDot(rest)
    requires !IsSignedKind(k) ==> rest == [] || rest[0] != 'i'
    ensures ParseLiteral(d + SuffixText(k) + rest) == Ok(Number(Build(k, DecimalValue(d))), rest)
  {
    var s := d + SuffixText(k) + rest;
    StrictIntOfDigits(d, k, rest);
    assert s[0] == d[0];
    NoStringBeforeDigit(s);
  }

  /** `127` in the test program is a vague integer. */
  lemma VagueExample()
    ensures ParseLiteral("127") == Ok(Vague(Integer("127")), [])
  {
    var d := "127";
    assert d + [] == d;
    LiteralVagueInteger(d, []);
  }

  /** `1b` is a byte. */
  lemma ByteExample()
    ensures ParseLiteral("1b") == Ok(Number(Byte(1)), [])
  {
    var d := "1";
    assert DecimalValue(d) == 1;
    assert d + SuffixText(B) + [] == "1b";
    LiteralStrictInteger(d, B, []);
  }

  /** `5bi` is a signed byte, not a byte followed by `i`. */
  lemma SignedByteExample()
    ensures ParseLiteral("5bi") == Ok(Number(ByteSigned(5)), [])
  {
    var d := "5";
    assert DecimalValue(d) == 5;
    assert d + SuffixText(BI) + [] == "5bi";
    LiteralStrictInteger(d, BI, []);
  }
}
