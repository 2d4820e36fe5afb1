/**
 * The two pieces of `s.split(sep)` that the engine reads: the first piece
 * (`s.split(sep)[0]`) and the second (`s.split(sep)[1]`, absent when `sep`
 * does not occur).
 */
module Strings {
  import opened Types

  /** `s.split(sep)[0]`: the text before the first `sep`, or all of `s`. */
  function FirstPiece(s: string, sep: char): (r: string)
    ensures |r| <= |s| && r == s[..|r|]
    ensures sep !in r
    ensures |r| < |s| ==> s[|r|] == sep
  {
    if s == [] || s[0] == sep then []
    else [s[0]] + FirstPiece(s[1..], sep)
  }

  /** The text after the first `sep`. */
  function AfterFirst(s: string, sep: char): (r: string)
    requires sep in s
    ensures s == FirstPiece(s, sep) + [sep] + r
  {
    var n := |FirstPiece(s, sep)|;
    assert s == s[..n] + [s[n]] + s[n + 1..];
    s[n + 1..]
  }

  /**
   * `s.split(sep)[1]`: the text between the first and the second `sep` (or
   * the end of `s`).
   */
  function SecondPiece(s: string, sep: char): (r: Option<string>)
    ensures r.None? <==> sep !in s
    ensures r.Some? ==>
      var n := |FirstPiece(s, sep)|;
      n < |s| && s[n] == sep && sep !in r.value &&
      n + 1 + |r.value| <= |s| && s[n + 1..n + 1 + |r.value|] == r.value &&
      (n + 1 + |r.value| < |s| ==> s[n + 1 + |r.value|] == sep)
  {
    if sep in s then Some(FirstPiece(AfterFirst(s, sep), sep)) else None
  }

  /** The first piece is determined by the text before the first separator alone. */
  lemma {:induction false} FirstPieceOf(p: string, sep: char, rest: string)
    requires sep !in p
    ensures FirstPiece(p + [sep] + rest, sep) == p
    decreases |p|
  {
    if p == [] {
      assert (p + [sep] + rest)[0] == sep;
    } else {
      assert (p + [sep] + rest)[1..] == p[1..] + [sep] + rest;
      FirstPieceOf(p[1..], sep, rest);
      assert p == [p[0]] + p[1..];
    }
  }

  /** Without a separator the first piece is the whole string. */
  lemma {:induction false} FirstPieceWhole(s: string, sep: char)
    requires sep !in s
    ensures FirstPiece(s, sep) == s
  {
  }
}
