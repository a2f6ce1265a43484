/**
 * The meaning of the parser-combinator library calls the grammar is built
 * from (`tag`, `char`, `take_while`, `take_while1`, `space0`, `space1`,
 * `opt`, `alt`, `map`), stated directly on character sequences.
 */
module Combinators {
  import opened Text

  /**
   * The result of running a rule on some input: a value and the
   * unconsumed remainder, a recoverable mismatch (`nom::Err::Error`, on
   * which `alt` tries its next alternative), or a panic raised while the
   * rule ran (an `unwrap` on an error), which aborts the whole parse.
   */
  datatype Parsed<+T> = Ok(value: T, rest: seq<char>) | Err | Panic {
    predicate IsFailure() {
      !Ok?
    }

    function PropagateFailure<U>(): Parsed<U>
      requires !Ok?
    {
      if Err? then Err else Panic
    }

    function Extract(): Parsed<T>
      requires Ok?
    {
      this
    }

    /** `nom::combinator::map`. */
    function Map<U>(f: T -> U): Parsed<U> {
      match this
      case Ok(v, r) => Ok(f(v), r)
      case Err => Err
      case Panic => Panic
    }
  }

  /** `r` is what is left of `s` after some prefix was consumed. */
  predicate IsSuffix(r: seq<char>, s: seq<char>) {
    |r| <= |s| && r == s[|s| - |r|..]
  }

  /** Consuming a prefix of what is left of `s` leaves a suffix of `s`. */
  lemma SuffixTrans(a: seq<char>, b: seq<char>, c: seq<char>)
    requires IsSuffix(a, b) && IsSuffix(b, c)
    ensures IsSuffix(a, c)
  {
    assert c[|c| - |b|..][|b| - |a|..] == c[|c| - |a|..];
  }

  /** Dropping the first `k` characters leaves a suffix. */
  lemma SuffixDrop(s: seq<char>, k: nat)
    requires k <= |s|
    ensures IsSuffix(s[k..], s)
  {
  }

  /** A successful rule leaves a suffix of its input. */
  predicate Advances<T>(p: Parsed<T>, s: seq<char>) {
    p.Ok? ==> IsSuffix(p.rest, s)
  }

  /** `alt((a, b))`: the first alternative unless it reports a mismatch. */
  function Alt<T>(a: Parsed<T>, b: Parsed<T>): Parsed<T> {
    if a.Err? then b else a
  }

  /** `unwrap()` of a parse result: a mismatch becomes a panic. */
  function Unwrap<T>(p: Parsed<T>): Parsed<T> {
    if p.Err? then Panic else p
  }

  /** A prefix and what follows it make up the whole. */
  lemma PrefixSplit(t: seq<char>, s: seq<char>)
    requires t <= s
    ensures s == t + s[|t|..]
  {
    assert s[..|t|] == t;
  }

  /** `tag(t)` and `char(c)` (as `Tag([c], s)`). */
  function Tag(t: seq<char>, s: seq<char>): (r: Parsed<seq<char>>)
    ensures r.Ok? <==> t <= s
    ensures r.Ok? ==> r.value == t && r.rest == s[|t|..]
    ensures !r.Panic?
  {
    if t <= s then Ok(t, s[|t|..]) else Err
  }

  /**
   * `take_while(p)`: the longest prefix whose characters all satisfy `p`.
   * It never fails.
   */
  function TakeWhile(p: char -> bool, s: seq<char>): (r: Parsed<seq<char>>)
    ensures r.Ok? && r.value + r.rest == s && r.rest == s[|r.value|..]
    ensures forall i | 0 <= i < |r.value| :: p(r.value[i])
    ensures r.rest == [] || !p(r.rest[0])
  {
    if s != [] && p(s[0]) then
      var r := TakeWhile(p, s[1..]);
      Ok([s[0]] + r.value, r.rest)
    else
      Ok([], s)
  }

  /** `take_while1(p)`: as `take_while`, but an empty match is a mismatch. */
  function TakeWhile1(p: char -> bool, s: seq<char>): (r: Parsed<seq<char>>)
    ensures r.Ok? <==> |s| > 0 && p(s[0])
    ensures !r.Panic?
    ensures r.Ok? ==> r == TakeWhile(p, s) && |r.value| > 0
  {
    var r := TakeWhile(p, s);
    if r.value == [] then Err else r
  }

  /**
   * Any split of `s` into a run of `p`-characters and a remainder that
   * does not start with one is the split `take_while` finds.
   */
  lemma {:induction false} TakeWhileSplit(p: char -> bool, w: seq<char>, rest: seq<char>)
    requires forall i | 0 <= i < |w| :: p(w[i])
    requires rest == [] || !p(rest[0])
    ensures TakeWhile(p, w + rest) == Ok(w, rest)
  {
    if w != [] {
      assert (w + rest)[1..] == w[1..] + rest;
      TakeWhileSplit(p, w[1..], rest);
      assert [w[0]] + w[1..] == w;
    }
  }

  /** nom's `space0`/`space1` class: a space or a horizontal tab. */
  predicate IsSpace(c: char) {
    c == ' ' || c == '\t'
  }

  /** `space0`. */
  function Space0(s: seq<char>): (r: Parsed<seq<char>>)
    ensures r.Ok? && IsSuffix(r.rest, s)
  {
    TakeWhile(IsSpace, s)
  }

  /** `space1`. */
  function Space1(s: seq<char>): (r: Parsed<seq<char>>)
    ensures !r.Panic? && (r.Ok? ==> IsSuffix(r.rest, s) && |r.rest| < |s|)
  {
    TakeWhile1(IsSpace, s)
  }

  /** A string that starts with a run of spaces and tabs loses exactly that run to `space0`. */
  lemma Space0Split(w: seq<char>, rest: seq<char>)
    requires forall i | 0 <= i < |w| :: IsSpace(w[i])
    requires rest == [] || !IsSpace(rest[0])
    ensures Space0(w + rest) == Ok(w, rest)
  {
    TakeWhileSplit(IsSpace, w, rest);
  }
}
