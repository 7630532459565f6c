/**
 * The few regular-expression building blocks the file-name patterns use,
 * each as a step that consumes a prefix of the text and hands on the rest.
 * Every step states what it consumed, and a matching lemma states that it
 * consumes exactly a given piece when the text is that piece followed by
 * something the step cannot continue into.
 */
module Scan {
  import opened Wrappers
  import opened Text

  /** The consumed prefix and the text left after it. */
  datatype Step = Step(piece: string, rest: string)

  /** A greedy `[p]+`: the maximal non-empty run of `p` characters at the start. */
  function Run(s: string, p: char -> bool): (r: Option<Step>)
    ensures r.Some? ==> s == r.value.piece + r.value.rest && r.value.piece != [] && All(r.value.piece, p)
                        && (r.value.rest == [] || !p(r.value.rest[0]))
    ensures r.None? <==> s == [] || !p(s[0])
  {
    var n := RunLength(s, 0, p);
    if n == 0 then None
    else
      assert s == s[..n] + s[n..];
      Some(Step(s[..n], s[n..]))
  }

  lemma RunOf(piece: string, rest: string, p: char -> bool)
    requires piece != [] && All(piece, p)
    requires rest == [] || !p(rest[0])
    ensures Run(piece + rest, p) == Some(Step(piece, rest))
  {
    var s := piece + rest;
    forall k | 0 <= k < |piece| ensures p(s[k]) {
      assert s[k] == piece[k];
    }
    assert |piece| == |s| || s[|piece|] == rest[0];
    RunLengthOf(s, 0, |piece|, p);
    assert s[..|piece|] == piece && s[|piece|..] == rest;
  }

  /** A literal character. */
  function Char(s: string, c: char): (r: Option<string>)
    ensures r.Some? ==> s == [c] + r.value
    ensures r.None? <==> s == [] || s[0] != c
  {
    if s != [] && s[0] == c then
      assert s == [c] + s[1..];
      Some(s[1..])
    else None
  }

  lemma CharOf(c: char, rest: string)
    ensures Char([c] + rest, c) == Some(rest)
  {
    assert ([c] + rest)[1..] == rest;
  }

  /** A literal word, matched case-sensitively. */
  function Word(s: string, w: string): (r: Option<string>)
    ensures r.Some? ==> s == w + r.value
    ensures r.None? <==> !StartsWith(s, w)
  {
    if StartsWith(s, w) then
      assert s == w + s[|w|..];
      Some(s[|w|..])
    else None
  }

  lemma WordOf(w: string, rest: string)
    ensures Word(w + rest, w) == Some(rest)
  {
    assert (w + rest)[..|w|] == w && (w + rest)[|w|..] == rest;
  }

  /** Exactly `n` characters of class `p`, as in `\d{8}`. */
  function Fixed(s: string, n: nat, p: char -> bool): (r: Option<Step>)
    ensures r.Some? ==> s == r.value.piece + r.value.rest && |r.value.piece| == n && All(r.value.piece, p)
    ensures r.None? <==> |s| < n || !All(s[..n], p)
  {
    if |s| < n || !All(s[..n], p) then None
    else
      assert s == s[..n] + s[n..];
      Some(Step(s[..n], s[n..]))
  }

  lemma FixedOf(piece: string, rest: string, p: char -> bool)
    requires All(piece, p)
    ensures Fixed(piece + rest, |piece|, p) == Some(Step(piece, rest))
  {
    var s := piece + rest;
    assert s[..|piece|] == piece && s[|piece|..] == rest;
  }

  /** A literal word under `re.IGNORECASE`. */
  function WordIgnoreCase(s: string, w: string): (r: Option<Step>)
    ensures r.Some? ==> s == r.value.piece + r.value.rest && EqualIgnoreCase(r.value.piece, w)
    ensures r.None? <==> |s| < |w| || !EqualIgnoreCase(s[..|w|], w)
  {
    if |s| < |w| || !EqualIgnoreCase(s[..|w|], w) then None
    else
      assert s == s[..|w|] + s[|w|..];
      Some(Step(s[..|w|], s[|w|..]))
  }

  lemma WordIgnoreCaseOf(piece: string, rest: string, w: string)
    requires EqualIgnoreCase(piece, w)
    ensures WordIgnoreCase(piece + rest, w) == Some(Step(piece, rest))
  {
    var s := piece + rest;
    assert s[..|w|] == piece && s[|w|..] == rest;
  }

  /**
   * An optional character of class `p` followed by a run of a class that
   * excludes `p`: the matcher takes the character whenever it is there,
   * because skipping it would leave a `p` character where the run must start.
   */
  function Optional(s: string, p: char -> bool): (r: Step)
    ensures s == r.piece + r.rest && |r.piece| <= 1 && All(r.piece, p)
    ensures r.piece == [] <==> s == [] || !p(s[0])
  {
    if s != [] && p(s[0]) then
      assert s == s[..1] + s[1..];
      Step(s[..1], s[1..])
    else Step([], s)
  }

  lemma OptionalOf(piece: string, rest: string, p: char -> bool)
    requires |piece| <= 1 && All(piece, p)
    requires piece == [] ==> rest == [] || !p(rest[0])
    ensures Optional(piece + rest, p) == Step(piece, rest)
  {
    var s := piece + rest;
    if piece != [] {
      assert s[..1] == piece && s[1..] == rest;
    } else {
      assert s == rest;
    }
  }

  /**
   * `re.search`: the leftmost position from `i` on where the anchored matcher
   * `at` succeeds on the rest of the text.
   */
  function Search<T>(s: string, i: nat, at: string -> Option<T>): (r: Option<(nat, T)>)
    requires i <= |s|
    ensures r.Some? ==> i <= r.value.0 <= |s| && at(s[r.value.0..]) == Some(r.value.1)
    decreases |s| - i
  {
    if at(s[i..]).Some? then Some((i, at(s[i..]).value))
    else if i == |s| then None
    else Search(s, i + 1, at)
  }

  /** The match found is the leftmost one, and `None` means no position from `i` on matches. */
  lemma {:induction false} SearchIsLeftmost<T>(s: string, i: nat, at: string -> Option<T>)
    requires i <= |s|
    ensures Search(s, i, at).Some? ==> forall j :: i <= j < Search(s, i, at).value.0 ==> at(s[j..]).None?
    ensures Search(s, i, at).None? ==> forall j :: i <= j <= |s| ==> at(s[j..]).None?
    decreases |s| - i
  {
    if at(s[i..]).None? && i < |s| {
      SearchIsLeftmost(s, i + 1, at);
    }
  }

  /** A search finds the match at `k` when no earlier position matches. */
  lemma SearchFinds<T>(s: string, k: nat, at: string -> Option<T>)
    requires k <= |s| && at(s[k..]).Some?
    requires forall j :: 0 <= j < k ==> at(s[j..]).None?
    ensures Search(s, 0, at) == Some((k, at(s[k..]).value))
  {
    var r := Search(s, 0, at);
    SearchIsLeftmost(s, 0, at);
    assert r.Some?;
    assert r.value.0 == k;
  }
}
