/** The optional value used throughout the models. */
module Options {
  datatype Option<+T> = None | Some(value: T)
}

/** The string operations the source takes from JavaScript; letters are ASCII letters. */
module Strings {
  predicate IsUpper(c: char) { 'A' <= c <= 'Z' }
  predicate IsLower(c: char) { 'a' <= c <= 'z' }

  function LowerChar(c: char): char {
    if IsUpper(c) then c + 32 as char else c
  }

  function UpperChar(c: char): char {
    if IsLower(c) then c - 32 as char else c
  }

  function Lower(s: string): (r: string)
    ensures |r| == |s|
  {
    seq(|s|, i requires 0 <= i < |s| => LowerChar(s[i]))
  }

  predicate OccursAt(s: string, piece: string, at: int) {
    0 <= at && at + |piece| <= |s| && s[at..at + |piece|] == piece
  }

  ghost predicate Contains(s: string, piece: string) {
    exists at :: OccursAt(s, piece, at)
  }

  /** `s.indexOf(piece, from)` for a nonempty piece. */
  function IndexOf(s: string, piece: string, from: nat): (r: int)
    ensures r == -1 || (from <= r && OccursAt(s, piece, r))
    ensures forall k | from <= k && (r == -1 || k < r) :: !OccursAt(s, piece, k)
    decreases |s| - from
  {
    if from + |piece| > |s| then -1
    else if s[from..from + |piece|] == piece then from
    else if from == |s| then -1
    else IndexOf(s, piece, from + 1)
  }

  function Join(pieces: seq<string>): string {
    if pieces == [] then "" else pieces[0] + Join(pieces[1..])
  }
}
