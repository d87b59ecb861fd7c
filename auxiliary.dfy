/**
  The two string helpers createFile uses, `replace` and `split` of the project's Auxiliary
  header: `replace` substitutes the first occurrence of a target, `split` cuts at every
  delimiter and drops the empty pieces.
 */
module Auxiliary {

  /** `target` occurs in `s` starting at index `i`. */
  predicate OccursAt(s: string, target: string, i: nat) {
    i + |target| <= |s| && s[i..i + |target|] == target
  }

  /** `s` with the first occurrence of `target` replaced by `replacement`. */
  function ReplaceFirst(s: string, target: string, replacement: string): (r: string)
    ensures r == s || |r| == |s| - |target| + |replacement|
    decreases |s|
  {
    if |s| < |target| then s
    else if s[..|target|] == target then replacement + s[|target|..]
    else [s[0]] + ReplaceFirst(s[1..], target, replacement)
  }

  lemma OccursShift(s: string, target: string, j: nat)
    requires |s| >= 1
    ensures OccursAt(s, target, j + 1) == OccursAt(s[1..], target, j)
  {
    if j + 1 + |target| <= |s| {
      assert s[1..][j..j + |target|] == s[j + 1..j + 1 + |target|];
    }
  }

  /** When `target` first occurs at `i`, exactly that occurrence is replaced. */
  lemma {:induction false} ReplaceFirstAt(s: string, target: string, replacement: string, i: nat)
    requires OccursAt(s, target, i)
    requires forall j :: 0 <= j < i ==> !OccursAt(s, target, j)
    ensures ReplaceFirst(s, target, replacement) == s[..i] + replacement + s[i + |target|..]
    decreases i
  {
    if i == 0 {
      assert s[..|target|] == target;
    } else {
      assert !OccursAt(s, target, 0);
      OccursShift(s, target, i - 1);
      forall j | 0 <= j < i - 1
        ensures !OccursAt(s[1..], target, j)
      {
        OccursShift(s, target, j);
      }
      ReplaceFirstAt(s[1..], target, replacement, i - 1);
      var tail := s[1..];
      assert ReplaceFirst(s, target, replacement) == [s[0]] + ReplaceFirst(tail, target, replacement);
      assert tail[..i - 1] + replacement + tail[i - 1 + |target|..] == ReplaceFirst(tail, target, replacement);
      assert s[..i] == [s[0]] + tail[..i - 1];
      assert s[i + |target|..] == tail[i - 1 + |target|..];
    }
  }

  /** A string in which `target` does not occur is left unchanged. */
  lemma {:induction false} ReplaceFirstAbsent(s: string, target: string, replacement: string)
    requires forall j :: 0 <= j <= |s| ==> !OccursAt(s, target, j)
    ensures ReplaceFirst(s, target, replacement) == s
    decreases |s|
  {
    if |s| >= |target| {
      assert !OccursAt(s, target, 0);
      forall j | 0 <= j <= |s[1..]|
        ensures !OccursAt(s[1..], target, j)
      {
        OccursShift(s, target, j);
      }
      ReplaceFirstAbsent(s[1..], target, replacement);
      assert s == [s[0]] + s[1..];
    }
  }

  /** The pieces of `s` between occurrences of `delimiter`, empty pieces dropped. */
  function Split(s: string, delimiter: char): (pieces: seq<string>)
    ensures forall k :: 0 <= k < |pieces| ==> pieces[k] != [] && delimiter !in pieces[k]
  {
    SplitFrom(s, delimiter, [])
  }

  /** Split with the piece read so far, `token`, still to be emitted. */
  function SplitFrom(s: string, delimiter: char, token: string): (pieces: seq<string>)
    requires delimiter !in token
    ensures forall k :: 0 <= k < |pieces| ==> pieces[k] != [] && delimiter !in pieces[k]
    decreases |s|
  {
    if s == [] then Piece(token)
    else if s[0] == delimiter then Piece(token) + SplitFrom(s[1..], delimiter, [])
    else SplitFrom(s[1..], delimiter, token + [s[0]])
  }

  function Piece(token: string): seq<string> {
    if token == [] then [] else [token]
  }

  /** The pieces joined with one delimiter between neighbours. */
  function Join(pieces: seq<string>, delimiter: char): string
  {
    if pieces == [] then []
    else if |pieces| == 1 then pieces[0]
    else pieces[0] + [delimiter] + Join(pieces[1..], delimiter)
  }

  lemma {:induction false} SplitFromSkips(t: string, rest: string, delimiter: char, token: string)
    requires delimiter !in token && delimiter !in t
    ensures SplitFrom(t + rest, delimiter, token) == SplitFrom(rest, delimiter, token + t)
    decreases |t|
  {
    if t != [] {
      assert (t + rest)[0] == t[0];
      assert (t + rest)[1..] == t[1..] + rest;
      SplitFromSkips(t[1..], rest, delimiter, token + [t[0]]);
      assert token + [t[0]] + t[1..] == token + t;
    } else {
      assert t + rest == rest;
      assert token + t == token;
    }
  }

  /** Splitting undoes joining, for non-empty pieces free of the delimiter. */
  lemma {:induction false} SplitJoin(pieces: seq<string>, delimiter: char)
    requires forall k :: 0 <= k < |pieces| ==> pieces[k] != [] && delimiter !in pieces[k]
    ensures Split(Join(pieces, delimiter), delimiter) == pieces
    decreases |pieces|
  {
    if |pieces| == 1 {
      SplitFromSkips(pieces[0], [], delimiter, []);
      assert pieces[0] + [] == pieces[0];
      assert [] + pieces[0] == pieces[0];
    } else if |pieces| > 1 {
      var tail := Join(pieces[1..], delimiter);
      assert Join(pieces, delimiter) == pieces[0] + ([delimiter] + tail);
      SplitFromSkips(pieces[0], [delimiter] + tail, delimiter, []);
      assert [] + pieces[0] == pieces[0];
      assert ([delimiter] + tail)[1..] == tail;
      SplitJoin(pieces[1..], delimiter);
      assert pieces == [pieces[0]] + pieces[1..];
    }
  }

  /** A leading or a trailing delimiter produces no piece. */
  lemma {:induction false} SplitIgnoresDelimiterRuns(s: string, delimiter: char)
    ensures Split([delimiter] + s, delimiter) == Split(s, delimiter)
    ensures Split(s + [delimiter], delimiter) == Split(s, delimiter)
  {
    assert ([delimiter] + s)[1..] == s;
    SplitFromTrailing(s, delimiter, []);
  }

  lemma {:induction false} SplitFromTrailing(s: string, delimiter: char, token: string)
    requires delimiter !in token
    ensures SplitFrom(s + [delimiter], delimiter, token) == SplitFrom(s, delimiter, token)
    decreases |s|
  {
    if s == [] {
      assert [] + [delimiter] == [delimiter];
      assert [delimiter][1..] == [];
      assert Piece(token) + [] == Piece(token);
    } else {
      assert (s + [delimiter])[0] == s[0];
      assert (s + [delimiter])[1..] == s[1..] + [delimiter];
      if s[0] == delimiter {
        SplitFromTrailing(s[1..], delimiter, []);
      } else {
        SplitFromTrailing(s[1..], delimiter, token + [s[0]]);
      }
    }
  }
}
