/** The character cursor shared by the three lexers: reading past the end
    yields '\0', and a position is reported as a 1-based line and column. */
module Scanning {
  import opened CType

  /** `peek()` at position `p`; `peekNext()` is `Peek(src, p + 1)`. */
  function Peek(src: string, p: nat): (c: char)
    ensures p < |src| ==> c == src[p]
    ensures p >= |src| ==> c == '\0'
  {
    if p < |src| then src[p] else '\0'
  }

  /** The line and column a cursor holds after consuming `src[..p]` one
      character at a time from line 1, column 1: a newline moves to column 1
      of the next line, any other character moves one column right. */
  function LineCol(src: string, p: nat): (lc: (nat, nat))
    requires p <= |src|
    ensures lc.0 >= 1 && lc.1 >= 1
  {
    if p == 0 then (1, 1)
    else
      var prev := LineCol(src, p - 1);
      if src[p - 1] == '\n' then (prev.0 + 1, 1) else (prev.0, prev.1 + 1)
  }

  /** The number of newlines in `s`. */
  function Newlines(s: string): nat {
    if |s| == 0 then 0 else Newlines(s[..|s| - 1]) + (if s[|s| - 1] == '\n' then 1 else 0)
  }

  /** The start of the line holding position `p`: just after the last newline before it. */
  function LineStart(src: string, p: nat): (q: nat)
    requires p <= |src|
    ensures q <= p
    ensures q > 0 ==> src[q - 1] == '\n'
    ensures forall i :: q <= i < p ==> src[i] != '\n'
  {
    if p == 0 then 0 else if src[p - 1] == '\n' then p else LineStart(src, p - 1)
  }

  /** The line is one more than the newlines consumed, and the column one
      more than the characters consumed since the last of them. */
  lemma {:induction false} LineColCounts(src: string, p: nat)
    requires p <= |src|
    ensures LineCol(src, p).0 == 1 + Newlines(src[..p])
    ensures LineCol(src, p).1 == 1 + p - LineStart(src, p)
  {
    if p > 0 {
      LineColCounts(src, p - 1);
      assert src[..p][..p - 1] == src[..p - 1];
    }
  }

  /** `skipWhitespace`: the end of the run of `isspace` characters at `p`. */
  function SkipSpaces(src: string, p: nat): (q: nat)
    requires p <= |src|
    ensures p <= q <= |src|
    ensures forall i :: p <= i < q ==> IsSpace(src[i])
    ensures !IsSpace(Peek(src, q))
    decreases |src| - p
  {
    if p < |src| && IsSpace(src[p]) then SkipSpaces(src, p + 1) else p
  }

  /** The end of the maximal `[A-Za-z0-9_]` run at `p`. */
  function WordEnd(src: string, p: nat): (q: nat)
    requires p <= |src|
    ensures p <= q <= |src|
    ensures forall i :: p <= i < q ==> IsWordChar(src[i])
    ensures !IsWordChar(Peek(src, q))
    decreases |src| - p
  {
    if p < |src| && IsWordChar(src[p]) then WordEnd(src, p + 1) else p
  }

  /** The end of a maximal digit run at `p`. */
  function DigitsEnd(src: string, p: nat): (q: nat)
    requires p <= |src|
    ensures p <= q <= |src|
    ensures forall i :: p <= i < q ==> IsDigit(src[i])
    ensures !IsDigit(Peek(src, q))
    decreases |src| - p
  {
    if p < |src| && IsDigit(src[p]) then DigitsEnd(src, p + 1) else p
  }

  /** The first position from `p` holding `stop` or '\0', or the end. */
  function Until(src: string, p: nat, stop: char): (q: nat)
    requires p <= |src|
    ensures p <= q <= |src|
    ensures forall i :: p <= i < q ==> src[i] != stop && src[i] != '\0'
    ensures Peek(src, q) == stop || Peek(src, q) == '\0'
    decreases |src| - p
  {
    if Peek(src, p) == stop || Peek(src, p) == '\0' then p else Until(src, p + 1, stop)
  }

  /** A `!/` closer starts at `i`. */
  predicate CloserAt(src: string, i: nat) {
    Peek(src, i) == '!' && Peek(src, i + 1) == '/'
  }

  /** The body scan of a `/!` comment from `p`: through the first `!/`, or up
      to the first '\0' (the end of the text or an embedded one). */
  function BlockCommentEnd(src: string, p: nat): (q: nat)
    requires p <= |src|
    ensures p <= q <= |src|
    ensures (p + 2 <= q && CloserAt(src, q - 2)) || Peek(src, q) == '\0'
    ensures p + 2 <= q && CloserAt(src, q - 2) ==>
      forall i :: p <= i < q - 2 ==> !CloserAt(src, i) && src[i] != '\0'
    ensures Peek(src, q) == '\0' && !(p + 2 <= q && CloserAt(src, q - 2)) ==>
      forall i :: p <= i < q ==> !CloserAt(src, i) && src[i] != '\0'
    decreases |src| - p
  {
    if Peek(src, p) == '\0' then p
    else if CloserAt(src, p) then p + 2
    else BlockCommentEnd(src, p + 1)
  }
}
