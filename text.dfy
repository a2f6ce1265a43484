/**
 * The parts of Rust's standard string handling that the front-end relies on:
 * character classes, `str::trim`, `str::lines`, `join`, and the decimal
 * formatting and parsing of integers.
 */
module Text {

  /** `char::is_whitespace`: the Unicode White_Space property. */
  predicate IsWhitespace(c: char) {
    || c == ' '
    || ('\t' <= c <= '\r')
    || c == '\U{0085}' || c == '\U{00A0}' || c == '\U{1680}'
    || ('\U{2000}' <= c <= '\U{200A}')
    || c == '\U{2028}' || c == '\U{2029}' || c == '\U{202F}' || c == '\U{205F}' || c == '\U{3000}'
  }

  /** `char::is_digit(10)`: the ASCII decimal digits only. */
  predicate IsAsciiDigit(c: char) {
    '0' <= c <= '9'
  }

  /** `char::is_alphabetic`, restricted to ASCII letters (see README, "Left out"). */
  predicate IsAlphabetic(c: char) {
    ('a' <= c <= 'z') || ('A' <= c <= 'Z')
  }

  predicate AllWhitespace(s: seq<char>) {
    forall i | 0 <= i < |s| :: IsWhitespace(s[i])
  }

  predicate AllDigits(s: seq<char>) {
    forall i | 0 <= i < |s| :: IsAsciiDigit(s[i])
  }

  /** A string with no whitespace at either end. */
  predicate IsTrimmed(s: seq<char>) {
    s == [] || (!IsWhitespace(s[0]) && !IsWhitespace(s[|s| - 1]))
  }

  function TrimStart(s: seq<char>): (r: seq<char>)
    ensures |r| <= |s| && r == s[|s| - |r|..]
    ensures AllWhitespace(s[..|s| - |r|])
    ensures r == [] || !IsWhitespace(r[0])
  {
    if |s| > 0 && IsWhitespace(s[0]) then
      var r := TrimStart(s[1..]);
      assert s[..|s| - |r|] == [s[0]] + s[1..][..|s| - 1 - |r|];
      r
    else s
  }

  function TrimEnd(s: seq<char>): (r: seq<char>)
    ensures |r| <= |s| && r == s[..|r|]
    ensures AllWhitespace(s[|r|..])
    ensures r == [] || !IsWhitespace(r[|r| - 1])
  {
    if |s| > 0 && IsWhitespace(s[|s| - 1]) then
      var r := TrimEnd(s[..|s| - 1]);
      assert s[|r|..] == s[..|s| - 1][|r|..] + [s[|s| - 1]];
      r
    else s
  }

  /** `str::trim`. */
  function Trim(s: seq<char>): (r: seq<char>)
    ensures IsTrimmed(r)
  {
    TrimEnd(TrimStart(s))
  }

  /** A string trims to nothing exactly when it is whitespace throughout. */
  lemma TrimEmptyIff(s: seq<char>)
    ensures Trim(s) == [] <==> AllWhitespace(s)
  {
    var t := TrimStart(s);
    if Trim(s) == [] {
      assert AllWhitespace(t[0..]);
      assert s == s[..|s| - |t|] + t;
    }
  }

  /** Trimming leaves nothing to trim. */
  lemma TrimIdempotent(s: seq<char>)
    ensures Trim(Trim(s)) == Trim(s)
  {
  }

  /** `parts.join(sep)`. */
  function Join(parts: seq<seq<char>>, sep: seq<char>): seq<char> {
    if |parts| == 0 then []
    else if |parts| == 1 then parts[0]
    else parts[0] + sep + Join(parts[1..], sep)
  }

  /** The index of the first `c` in `s`, or `|s|` when there is none. */
  function IndexOf(s: seq<char>, c: char): (k: nat)
    ensures k <= |s|
    ensures c !in s[..k]
    ensures k < |s| ==> s[k] == c
  {
    if |s| == 0 then 0
    else if s[0] == c then 0
    else 1 + IndexOf(s[1..], c)
  }

  /** Drops one trailing carriage return, as `str::lines` does for a `\r\n` ending. */
  function StripCarriageReturn(line: seq<char>): seq<char> {
    if |line| > 0 && line[|line| - 1] == '\r' then line[..|line| - 1] else line
  }

  /**
   * `str::lines`: the pieces between line feeds, each without its line
   * ending; a final empty piece (after a trailing line feed) is not a line.
   */
  function Lines(s: seq<char>): seq<seq<char>>
    decreases |s|
  {
    if s == [] then []
    else
      var k := IndexOf(s, '\n');
      if k == |s| then [StripCarriageReturn(s)]
      else [StripCarriageReturn(s[..k])] + Lines(s[k + 1..])
  }

  /** Every element of `ss` trimmed. */
  function TrimAll(ss: seq<seq<char>>): (r: seq<seq<char>>)
    ensures |r| == |ss|
    ensures forall i | 0 <= i < |r| :: r[i] == Trim(ss[i])
  {
    seq(|ss|, i requires 0 <= i < |ss| => Trim(ss[i]))
  }

  /**
   * Joining line-feed-free lines and splitting them again gives back only
   * lines that were joined (a last empty line may vanish).
   */
  lemma {:induction false} LinesOfJoin(ls: seq<seq<char>>)
    requires forall i | 0 <= i < |ls| :: '\n' !in ls[i] && StripCarriageReturn(ls[i]) == ls[i]
    ensures forall x | x in Lines(Join(ls, "\n")) :: x in ls
  {
    if |ls| == 0 {
    } else if |ls| == 1 {
    } else {
      var s := Join(ls, "\n");
      var tail := Join(ls[1..], "\n");
      assert s == ls[0] + ("\n" + tail);
      var k := IndexOf(s, '\n');
      assert k == |ls[0]| by {
        assert s[|ls[0]|] == '\n';
        assert s[..|ls[0]|] == ls[0];
      }
      assert s[..k] == ls[0];
      assert s[k + 1..] == tail;
      LinesOfJoin(ls[1..]);
      forall x | x in Lines(s) ensures x in ls {
        if x != ls[0] {
          assert x in Lines(tail);
        }
      }
    }
  }

  /** Every line of a newline-join of trimmed, line-feed-free lines is trimmed. */
  lemma JoinedTrimmedLines(ls: seq<seq<char>>)
    requires forall i | 0 <= i < |ls| :: '\n' !in ls[i] && IsTrimmed(ls[i])
    ensures forall x | x in Lines(Join(ls, "\n")) :: IsTrimmed(x)
  {
    forall i | 0 <= i < |ls| ensures StripCarriageReturn(ls[i]) == ls[i] {
      assert ls[i] == [] || !IsWhitespace(ls[i][|ls[i]| - 1]);
    }
    LinesOfJoin(ls);
  }

  /** No line `str::lines` yields holds a line feed. */
  lemma {:induction false} LinesHaveNoLineFeed(s: seq<char>)
    ensures forall x | x in Lines(s) :: '\n' !in x
    decreases |s|
  {
    if s != [] {
      var k := IndexOf(s, '\n');
      if k == |s| {
        assert s[..k] == s;
      } else {
        LinesHaveNoLineFeed(s[k + 1..]);
      }
    }
  }

  /** Trimming takes a piece of the text, so it adds no character. */
  lemma TrimKeepsOut(s: seq<char>, c: char)
    requires c !in s
    ensures c !in Trim(s)
  {
    var t := TrimStart(s);
    assert c !in t;
  }

  /**
   * Splitting a text into lines, trimming each and joining them again with
   * line feeds gives a text whose every line is trimmed.
   */
  lemma TrimmedLines(s: seq<char>)
    ensures forall x | x in Lines(Join(TrimAll(Lines(s)), "\n")) :: IsTrimmed(x)
  {
    var ls := Lines(s);
    LinesHaveNoLineFeed(s);
    forall i | 0 <= i < |ls| ensures '\n' !in TrimAll(ls)[i] {
      TrimKeepsOut(ls[i], '\n');
    }
    JoinedTrimmedLines(TrimAll(ls));
  }

  /** Where `c` first occurs in `a + x`: inside `a` when it is there, otherwise after all of `a`. */
  lemma {:induction false} IndexOfAppend(a: seq<char>, x: seq<char>, c: char)
    ensures c in a ==> IndexOf(a + x, c) == IndexOf(a, c)
    ensures c !in a ==> IndexOf(a + x, c) == |a| + IndexOf(x, c)
    decreases |a|
  {
    if a == [] {
      assert a + x == x;
    } else {
      assert (a + x)[0] == a[0];
      assert (a + x)[1..] == a[1..] + x;
      IndexOfAppend(a[1..], x, c);
      assert c in a <==> a[0] == c || c in a[1..];
    }
  }

  /** One step of `str::lines`: the first line, up to the first line feed, then the lines after it. */
  lemma LinesStep(s: seq<char>, k: nat)
    requires k < |s| && IndexOf(s, '\n') == k
    ensures Lines(s) == [StripCarriageReturn(s[..k])] + Lines(s[k + 1..])
  {
  }

  /** A line feed ends a line: the lines of `a + "\n" + b` are those of `a + "\n"`, then those of `b`. */
  lemma {:induction false} LinesAppend(a: seq<char>, b: seq<char>)
    ensures Lines(a + ("\n" + b)) == Lines(a + "\n") + Lines(b)
    decreases |a|
  {
    if '\n' in a {
      var j := IndexOf(a, '\n');
      LinesAppend(a[j + 1..], b);
      LinesAppendStep(a, b);
    } else {
      LinesAfterLine(a, b);
      LinesAfterLine(a, []);
      assert "\n" + [] == "\n";
    }
  }

  /** The inductive step of `LinesAppend`: the first line of `a` is split off on both sides. */
  lemma LinesAppendStep(a: seq<char>, b: seq<char>)
    requires '\n' in a
    requires var t := a[IndexOf(a, '\n') + 1..];
      Lines(t + ("\n" + b)) == Lines(t + "\n") + Lines(b)
    ensures Lines(a + ("\n" + b)) == Lines(a + "\n") + Lines(b)
  {
    var x := StripCarriageReturn(a[..IndexOf(a, '\n')]);
    var t := a[IndexOf(a, '\n') + 1..];
    LinesInside(a, "\n" + b);
    LinesInside(a, "\n");
    ConsChain(Lines(a + ("\n" + b)), Lines(a + "\n"), Lines(t + ("\n" + b)), Lines(t + "\n"), Lines(b), x);
  }

  /** Two line lists with the same first line, whose tails differ by a suffix, differ by that suffix. */
  lemma ConsChain(p: seq<seq<char>>, q: seq<seq<char>>, u: seq<seq<char>>, v: seq<seq<char>>, w: seq<seq<char>>, x: seq<char>)
    requires p == [x] + u && q == [x] + v && u == v + w
    ensures p == q + w
  {
  }

  /** When `a` holds a line feed, the first line of `a + r` ends inside `a`. */
  lemma LinesInside(a: seq<char>, r: seq<char>)
    requires '\n' in a
    ensures Lines(a + r) == [StripCarriageReturn(a[..IndexOf(a, '\n')])] + Lines(a[IndexOf(a, '\n') + 1..] + r)
  {
    var j := IndexOf(a, '\n');
    var s := a + r;
    IndexOfAppend(a, r, '\n');
    LinesStep(s, j);
    assert s[..j] == a[..j];
    assert s[j + 1..] == a[j + 1..] + r;
  }

  /** When `a` holds no line feed, `a` then a line feed is the first line. */
  lemma LinesAfterLine(a: seq<char>, r: seq<char>)
    requires '\n' !in a
    ensures Lines(a + ("\n" + r)) == [StripCarriageReturn(a)] + Lines(r)
  {
    var s := a + ("\n" + r);
    IndexOfAppend(a, "\n" + r, '\n');
    assert IndexOf("\n" + r, '\n') == 0;
    LinesStep(s, |a|);
    assert s[..|a|] == a;
    assert s[|a| + 1..] == r;
  }

  /** A text without a line feed, ended by one, is one line. */
  lemma LineOf(x: seq<char>)
    requires '\n' !in x
    ensures Lines(x + "\n") == [StripCarriageReturn(x)]
  {
    IndexOfAppend(x, "\n", '\n');
    assert (x + "\n")[..|x|] == x;
    assert (x + "\n")[|x| + 1..] == [];
  }

  /** Trimming a concatenation of line lists trims each list. */
  lemma TrimAllAppend(x: seq<seq<char>>, y: seq<seq<char>>)
    ensures TrimAll(x + y) == TrimAll(x) + TrimAll(y)
  {
  }

  /** Leading spaces make no difference to `trim_start`. */
  lemma {:induction false} TrimStartSpaces(n: nat, z: seq<char>)
    ensures TrimStart(Repeat(' ', n) + z) == TrimStart(z)
  {
    if n == 0 {
      assert Repeat(' ', n) + z == z;
    } else {
      assert (Repeat(' ', n) + z)[1..] == Repeat(' ', n - 1) + z;
      TrimStartSpaces(n - 1, z);
    }
  }

  /** An indented piece of a line trims to what the piece alone trims to. */
  lemma TrimIndented(n: nat, z: seq<char>)
    ensures Trim(StripCarriageReturn(Repeat(' ', n) + z)) == Trim(StripCarriageReturn(z))
  {
    var sp := Repeat(' ', n);
    if z == [] {
      assert sp + z == sp + [];
      TrimStartSpaces(n, []);
      assert sp + [] == sp;
    } else {
      assert StripCarriageReturn(sp + z) == sp + StripCarriageReturn(z);
      TrimStartSpaces(n, StripCarriageReturn(z));
    }
  }

  /**
   * Indenting a text that holds a line feed does not change its trimmed
   * lines: the spaces join its first line and trimming removes them.
   */
  lemma IndentedLines(n: nat, x: seq<char>)
    requires '\n' in x
    ensures TrimAll(Lines(Repeat(' ', n) + x)) == TrimAll(Lines(x))
  {
    var sp := Repeat(' ', n);
    var k := IndexOf(x, '\n');
    var a := StripCarriageReturn(sp + x[..k]);
    var b := StripCarriageReturn(x[..k]);
    var ls := Lines(x[k + 1..]);
    assert Lines(x) == [b] + ls by { LinesStep(x, k); }
    assert Lines(sp + x) == [a] + ls by {
      assert '\n' !in sp;
      PrefixedFirstLine(sp, x);
    }
    assert Trim(a) == Trim(b) by { TrimIndented(n, x[..k]); }
    TrimAllHead(a, b, ls);
    SameTrimmedLines(Lines(sp + x), Lines(x), [a] + ls, [b] + ls);
  }

  /** Equal line lists trim alike. */
  lemma SameTrimmedLines(p: seq<seq<char>>, q: seq<seq<char>>, u: seq<seq<char>>, v: seq<seq<char>>)
    requires p == u && q == v && TrimAll(u) == TrimAll(v)
    ensures TrimAll(p) == TrimAll(q)
  {
  }

  /** The first line of `p + x`, where `p` holds no line feed, is `p` then the first line of `x`. */
  lemma PrefixedFirstLine(p: seq<char>, x: seq<char>)
    requires '\n' !in p && '\n' in x
    ensures var k := IndexOf(x, '\n');
      Lines(p + x) == [StripCarriageReturn(p + x[..k])] + Lines(x[k + 1..])
  {
    var k := IndexOf(x, '\n');
    var s := p + x;
    IndexOfAppend(p, x, '\n');
    LinesStep(s, |p| + k);
    assert s[..|p| + k] == p + x[..k];
    assert s[|p| + k + 1..] == x[k + 1..];
  }

  /** Line lists that differ only in a first line with the same trimmed text trim alike. */
  lemma TrimAllHead(a: seq<char>, b: seq<char>, ls: seq<seq<char>>)
    requires Trim(a) == Trim(b)
    ensures TrimAll([a] + ls) == TrimAll([b] + ls)
  {
    TrimAllCons(a, ls);
    TrimAllCons(b, ls);
  }

  /** Trimming a line list trims its first line, then the rest. */
  lemma TrimAllCons(a: seq<char>, ls: seq<seq<char>>)
    ensures TrimAll([a] + ls) == [Trim(a)] + TrimAll(ls)
  {
    TrimAllAppend([a], ls);
    TrimAllOne(a);
  }

  /** A single line trims to its trimmed text. */
  lemma TrimAllOne(a: seq<char>)
    ensures TrimAll([a]) == [Trim(a)]
  {
    assert TrimAll([a])[0] == Trim([a][0]);
  }

  /** `LinesAppend`, for trimmed lines. */
  lemma TrimmedLinesAppend(a: seq<char>, b: seq<char>)
    ensures TrimAll(Lines(a + ("\n" + b))) == TrimAll(Lines(a + "\n")) + TrimAll(Lines(b))
  {
    LinesAppend(a, b);
    TrimAllAppend(Lines(a + "\n"), Lines(b));
  }

  /**
   * An indented line ended by a line feed, then more text: the trimmed
   * lines are those of the line without its indent, then those of the rest.
   */
  lemma IndentedAppend(n: nat, x: seq<char>, rest: seq<char>)
    ensures TrimAll(Lines(Repeat(' ', n) + x + ("\n" + rest))) == TrimAll(Lines(x + "\n")) + TrimAll(Lines(rest))
  {
    var sp := Repeat(' ', n);
    assert Lines(sp + x + ("\n" + rest)) == Lines(sp + x + "\n") + Lines(rest) by {
      LinesAppend(sp + x, rest);
    }
    assert TrimAll(Lines(sp + x + "\n")) == TrimAll(Lines(x + "\n")) by {
      assert sp + x + "\n" == sp + (x + "\n");
      assert (x + "\n")[|x|] == '\n';
      IndentedLines(n, x + "\n");
    }
    TrimAllAppend(Lines(sp + x + "\n"), Lines(rest));
  }

  /** An indented trimmed line, then more text: that line, then the trimmed lines of the rest. */
  lemma IndentedLineThen(n: nat, x: seq<char>, rest: seq<char>)
    requires '\n' !in x && StripCarriageReturn(x) == x && IsTrimmed(x)
    ensures TrimAll(Lines(Repeat(' ', n) + x + ("\n" + rest))) == [x] + TrimAll(Lines(rest))
  {
    IndentedAppend(n, x, rest);
    TrimmedLine(x);
  }

  /** A text without a line feed that is not empty is one line. */
  lemma LastLine(x: seq<char>)
    requires x != [] && '\n' !in x
    ensures Lines(x) == [StripCarriageReturn(x)]
  {
  }

  /** A trimmed text without a line ending, ended by a line feed, is that one trimmed line. */
  lemma TrimmedLine(x: seq<char>)
    requires '\n' !in x && StripCarriageReturn(x) == x && IsTrimmed(x)
    ensures TrimAll(Lines(x + "\n")) == [x]
  {
    LineOf(x);
    TrimOfTrimmed(x);
  }

  /** Trimming a trimmed text leaves it as it is. */
  lemma TrimOfTrimmed(x: seq<char>)
    requires IsTrimmed(x)
    ensures Trim(x) == x
  {
  }

  /** `n` copies of the character `c`. */
  function Repeat(c: char, n: nat): (r: seq<char>)
    ensures |r| == n && forall i | 0 <= i < n :: r[i] == c
  {
    seq(n, _ => c)
  }

  /** `n` tab characters (`(0..n).map(|_| '\t').collect()`). */
  function Tabs(n: nat): (r: seq<char>)
    ensures |r| == n && forall i | 0 <= i < n :: r[i] == '\t'
  {
    Repeat('\t', n)
  }

  function DigitChar(d: nat): (c: char)
    requires d < 10
    ensures IsAsciiDigit(c)
  {
    ['0', '1', '2', '3', '4', '5', '6', '7', '8', '9'][d]
  }

  function DigitValue(c: char): (d: nat)
    requires IsAsciiDigit(c)
    ensures d < 10 && DigitChar(d) == c
  {
    (c as int) - ('0' as int)
  }

  /** The decimal text of `n`, as Rust's `{}` formats an unsigned integer. */
  function DecimalString(n: nat): (r: seq<char>)
    ensures |r| > 0 && AllDigits(r)
  {
    if n < 10 then [DigitChar(n)] else DecimalString(n / 10) + [DigitChar(n % 10)]
  }

  /** The value of a run of decimal digits (`str::parse` without the range check). */
  function DecimalValue(d: seq<char>): nat
    requires AllDigits(d)
  {
    if d == [] then 0 else DecimalValue(d[..|d| - 1]) * 10 + DigitValue(d[|d| - 1])
  }

  /** Reading back the decimal text of a number gives the number. */
  lemma {:induction false} DecimalRoundTrip(n: nat)
    ensures DecimalValue(DecimalString(n)) == n
  {
    var r := DecimalString(n);
    if n >= 10 {
      DecimalRoundTrip(n / 10);
      assert r[..|r| - 1] == DecimalString(n / 10);
      assert DigitValue(r[|r| - 1]) == n % 10;
    } else {
      assert DigitValue(r[0]) == n;
    }
  }

  /** Rust's `{}` for a signed integer: a minus sign, then the magnitude. */
  function IntString(i: int): seq<char> {
    if i < 0 then "-" + DecimalString(-i) else DecimalString(i)
  }
}
