/**
 * Where a brace group ends: the nesting level that `bracket_group` keeps
 * while it walks a text that starts with `{`, and the first `}` that
 * closes the group.
 */
module Brackets {
  import Wrappers

  /** How a character changes the nesting level. */
  function Delta(c: char): int {
    if c == '{' then 1 else if c == '}' then -1 else 0
  }

  /**
   * The level before position `k` is looked at: 1 for the opening brace,
   * then one more for every `{` and one less for every `}` in between.
   */
  function Level(s: seq<char>, k: nat): int
    requires 1 <= k <= |s|
  {
    if k == 1 then 1 else Level(s, k - 1) + Delta(s[k - 1])
  }

  /** Position `u` holds the `}` that closes the group. */
  predicate Closes(s: seq<char>, u: nat) {
    1 <= u < |s| && s[u] == '}' && Level(s, u) == 1
  }

  /** Before the closing brace the level never drops below one. */
  lemma {:induction false} LevelPositive(s: seq<char>, k: nat)
    requires 1 <= k <= |s|
    requires forall v | 1 <= v < k :: !Closes(s, v)
    ensures Level(s, k) >= 1
  {
    if k > 1 {
      LevelPositive(s, k - 1);
      assert !Closes(s, k - 1);
    }
  }

  /** The first closing position at or after `k`, if any. */
  function CloseFrom(s: seq<char>, k: nat): (u: Wrappers.Option<nat>)
    requires 1 <= k <= |s|
    ensures u.Some? ==> k <= u.value && Closes(s, u.value)
    ensures u.Some? ==> forall v | k <= v < u.value :: !Closes(s, v)
    ensures u.None? ==> forall v | k <= v < |s| :: !Closes(s, v)
    decreases |s| - k
  {
    if k == |s| then Wrappers.None
    else if Closes(s, k) then Wrappers.Some(k)
    else CloseFrom(s, k + 1)
  }

  /**
   * The position of the `}` that ends a group opened by `s[0]`: the first
   * one reached at level one. It is absent when the group is never closed.
   */
  function ClosingBrace(s: seq<char>): (u: Wrappers.Option<nat>)
    requires |s| > 0
    ensures u.Some? ==> Closes(s, u.value) && forall v | 1 <= v < u.value :: !Closes(s, v)
    ensures u.None? <==> forall v | 1 <= v < |s| :: !Closes(s, v)
  {
    CloseFrom(s, 1)
  }

  /** A closing position with none before it is the one `ClosingBrace` finds. */
  lemma ClosingBraceAt(s: seq<char>, u: nat)
    requires Closes(s, u) && forall v | 1 <= v < u :: !Closes(s, v)
    ensures ClosingBrace(s) == Wrappers.Some(u)
  {
  }

  /** Between the braces of a group the nesting balances: the opening and closing braces match up. */
  lemma {:induction false} LevelCounts(s: seq<char>, k: nat)
    requires 1 <= k <= |s|
    ensures Level(s, k) == 1 + Count(s[1..k], '{') - Count(s[1..k], '}')
  {
    if k > 1 {
      LevelCounts(s, k - 1);
      assert s[1..k] == s[1..k - 1] + [s[k - 1]];
      CountAppend(s[1..k - 1], s[k - 1], '{');
      CountAppend(s[1..k - 1], s[k - 1], '}');
    }
  }

  /** The number of times `c` occurs in `s`. */
  function Count(s: seq<char>, c: char): nat {
    if s == [] then 0 else Count(s[..|s| - 1], c) + (if s[|s| - 1] == c then 1 else 0)
  }

  lemma CountAppend(s: seq<char>, x: char, c: char)
    ensures Count(s + [x], c) == Count(s, c) + (if x == c then 1 else 0)
  {
    assert (s + [x])[..|s|] == s;
  }
}
