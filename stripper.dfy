/** `uncommentedCode` of NexusCompiler/src/FileReader: removes slash-star
    comments up to the end of their line and `/!…!/` comments, copying every
    other character in order. Positions are indices into the whole text, as
    in the source's loop. */
module CommentStripper {

  /** The inner loop of a slash-star comment from `i`: the index of the next
      newline, or the end. */
  function LineEnd(s: string, i: nat): (j: nat)
    requires i <= |s|
    ensures i <= j <= |s|
    decreases |s| - i
  {
    if i == |s| || s[i] == '\n' then i else LineEnd(s, i + 1)
  }

  /** A `!/` closer starts at `j` in `s`. */
  predicate CloserAt(s: string, j: nat) {
    j + 1 < |s| && s[j] == '!' && s[j + 1] == '/'
  }

  /** The inner loop of a `/!` comment from `i` and the step over its
      closer: the index after the first `!/`; with no closer, one character
      short of the end. */
  function BlockEnd(s: string, i: nat): (j: nat)
    requires i <= |s|
    ensures i <= j <= |s|
    decreases |s| - i
  {
    if i + 1 >= |s| then i
    else if CloserAt(s, i) then i + 2
    else BlockEnd(s, i + 1)
  }

  /** A slash-star or `/!` opener at `i` with a character after it: the
      source's test `i + 2 < n`. */
  predicate OpenerAt(s: string, i: nat) {
    i + 2 < |s| && s[i] == '/' && (s[i + 1] == '*' || s[i + 1] == '!')
  }

  /** What `uncommentedCode` adds to its result from index `i` on. */
  function StripFrom(s: string, i: nat): string
    requires i <= |s|
    decreases |s| - i
  {
    if i == |s| then []
    else if i + 2 < |s| && s[i] == '/' && s[i + 1] == '*' then StripFrom(s, LineEnd(s, i + 2))
    else if i + 2 < |s| && s[i] == '/' && s[i + 1] == '!' then StripFrom(s, BlockEnd(s, i + 2))
    else [s[i]] + StripFrom(s, i + 1)
  }

  /** What `uncommentedCode` returns for `s`. */
  function Strip(s: string): string {
    StripFrom(s, 0)
  }

  /** The line skip stops at the first newline, or at the end. */
  lemma {:induction false} LineEndStops(s: string, i: nat)
    requires i <= |s|
    ensures forall m :: i <= m < LineEnd(s, i) ==> s[m] != '\n'
    ensures LineEnd(s, i) < |s| ==> s[LineEnd(s, i)] == '\n'
    decreases |s| - i
  {
    if i < |s| && s[i] != '\n' {
      LineEndStops(s, i + 1);
    }
  }

  /** The block skip stops just after the first closer; with none, one
      character short of the end. */
  lemma {:induction false} BlockEndStops(s: string, i: nat)
    requires i < |s|
    ensures var j := BlockEnd(s, i);
      (forall m :: i <= m < j - 2 ==> !CloserAt(s, m)) &&
      ((j >= i + 2 && CloserAt(s, j - 2)) || (j == |s| - 1 && forall m :: i <= m < |s| ==> !CloserAt(s, m)))
    decreases |s| - i
  {
    if i + 1 < |s| && !CloserAt(s, i) {
      BlockEndStops(s, i + 1);
    }
  }

  /** `a` is `b` with some characters removed, the rest kept in order. */
  predicate IsSubsequence(a: string, b: string)
    decreases |b|
  {
    |a| == 0 || (|b| > 0 && ((a[0] == b[0] && IsSubsequence(a[1..], b[1..])) || IsSubsequence(a, b[1..])))
  }

  lemma {:induction false} SubsequenceOfSuffix(a: string, b: string, k: nat)
    requires k <= |b| && IsSubsequence(a, b[k..])
    ensures IsSubsequence(a, b)
    decreases k
  {
    if k > 0 {
      assert b[1..][k - 1..] == b[k..];
      SubsequenceOfSuffix(a, b[1..], k - 1);
    }
  }

  lemma {:induction false} SubsequenceLength(a: string, b: string)
    requires IsSubsequence(a, b)
    ensures |a| <= |b|
    decreases |b|
  {
    if |a| > 0 {
      if a[0] == b[0] && IsSubsequence(a[1..], b[1..]) {
        SubsequenceLength(a[1..], b[1..]);
      } else {
        SubsequenceLength(a, b[1..]);
      }
    }
  }

  lemma {:induction false} StripFromIsSubsequence(s: string, i: nat)
    requires i <= |s|
    ensures IsSubsequence(StripFrom(s, i), s[i..])
    decreases |s| - i
  {
    if i == |s| {
    } else if OpenerAt(s, i) {
      var j := if s[i + 1] == '*' then LineEnd(s, i + 2) else BlockEnd(s, i + 2);
      StripFromIsSubsequence(s, j);
      assert s[i..][j - i..] == s[j..];
      SubsequenceOfSuffix(StripFrom(s, i), s[i..], j - i);
    } else {
      StripFromIsSubsequence(s, i + 1);
      var r := StripFrom(s, i);
      assert r[0] == s[i] && r[1..] == StripFrom(s, i + 1);
      assert s[i..][0] == s[i] && s[i..][1..] == s[i + 1..];
    }
  }

  /** The output is a subsequence of the input: characters are only dropped,
      never added or reordered; so it is never longer. */
  lemma StripIsSubsequence(s: string)
    ensures IsSubsequence(Strip(s), s)
    ensures |Strip(s)| <= |s|
  {
    StripFromIsSubsequence(s, 0);
    assert s[0..] == s;
    SubsequenceLength(Strip(s), s);
  }

  /** No comment opener starts in `[i, j)`. */
  predicate NoOpenerIn(s: string, i: nat, j: nat) {
    forall m :: i <= m < j ==> !OpenerAt(s, m)
  }

  /** Anywhere but at an opener, stripping copies one character. */
  lemma PlainStep(s: string, i: nat)
    requires i < |s| && !OpenerAt(s, i)
    ensures StripFrom(s, i) == [s[i]] + StripFrom(s, i + 1)
  {
  }

  /** Stripping from `i` copies `s[i..j]` and resumes at `j`. */
  predicate CopiesThrough(s: string, i: nat, j: nat)
    requires i <= j <= |s|
  {
    StripFrom(s, i) == s[i..j] + StripFrom(s, j)
  }

  /** Text in which no comment opens is copied unchanged, and stripping
      resumes after it. */
  lemma {:induction false} PlainCopied(s: string, i: nat, j: nat)
    requires i <= j <= |s| && NoOpenerIn(s, i, j)
    ensures CopiesThrough(s, i, j)
    decreases j - i
  {
    if i < j {
      PlainCopied(s, i, j - 1);
      PlainStep(s, j - 1);
      assert s[i..j] == s[i..j - 1] + [s[j - 1]];
    } else {
      assert s[i..j] == [];
    }
  }

  /** No comment opener occurs in `s`. */
  predicate NoOpener(s: string) {
    forall j :: 0 <= j < |s| - 1 ==> !(s[j] == '/' && (s[j + 1] == '*' || s[j + 1] == '!'))
  }

  /** Text with no comment opener comes out unchanged. */
  lemma CommentFreeUnchanged(s: string)
    requires NoOpener(s)
    ensures Strip(s) == s
  {
    assert NoOpenerIn(s, 0, |s|);
    PlainCopied(s, 0, |s|);
    assert s[0..|s|] == s;
  }

  /** A slash-star comment is removed up to, not including, its newline,
      which is kept. */
  lemma LineCommentDropped(s: string, i: nat, k: nat)
    requires i + 2 < |s| && s[i] == '/' && s[i + 1] == '*'
    requires i + 2 <= k < |s| && s[k] == '\n' && forall m :: i + 2 <= m < k ==> s[m] != '\n'
    ensures StripFrom(s, i) == "\n" + StripFrom(s, k + 1)
  {
    LineEndStops(s, i + 2);
    assert LineEnd(s, i + 2) == k;
  }

  /** A `/!…!/` comment is removed together with both delimiters. */
  lemma BlockCommentDropped(s: string, i: nat, c: nat)
    requires i + 2 < |s| && s[i] == '/' && s[i + 1] == '!'
    requires i + 2 <= c && CloserAt(s, c) && forall m :: i + 2 <= m < c ==> !CloserAt(s, m)
    ensures StripFrom(s, i) == StripFrom(s, c + 2)
  {
    BlockEndStops(s, i + 2);
    assert BlockEnd(s, i + 2) == c + 2;
  }

  /** An unterminated `/!` comment drops everything but the last character
      of the text, which is copied. */
  lemma UnterminatedKeepsLastChar(s: string, i: nat)
    requires i + 2 < |s| && s[i] == '/' && s[i + 1] == '!'
    requires forall m :: i + 2 <= m < |s| ==> !CloserAt(s, m)
    ensures StripFrom(s, i) == [s[|s| - 1]]
  {
    BlockEndStops(s, i + 2);
    assert BlockEnd(s, i + 2) == |s| - 1;
    assert StripFrom(s, |s| - 1) == [s[|s| - 1]] + StripFrom(s, |s|);
  }

  /** An opener among the last two characters is kept: nothing follows it. */
  lemma ShortTextKept(s: string)
    requires |s| <= 2
    ensures Strip(s) == s
  {
    assert NoOpenerIn(s, 0, |s|);
    PlainCopied(s, 0, |s|);
    assert s[0..|s|] == s;
  }

  /** The slash-star inner loop from `i`. */
  method SkipLine(code: string, i: nat) returns (j: nat)
    requires i <= |code|
    ensures j == LineEnd(code, i)
  {
    j := i;
    while j < |code| && code[j] != '\n'
      invariant i <= j <= |code| && LineEnd(code, i) == LineEnd(code, j)
      decreases |code| - j
    {
      j := j + 1;
    }
  }

  /** The `/!` inner loop from `i`, and the step over the closer. */
  method SkipBlock(code: string, i: nat) returns (j: nat)
    requires i <= |code|
    ensures j == BlockEnd(code, i)
  {
    j := i;
    while j + 1 < |code| && !(code[j] == '!' && code[j + 1] == '/')
      invariant i <= j <= |code| && BlockEnd(code, i) == BlockEnd(code, j)
      decreases |code| - j
    {
      j := j + 1;
    }
    if j + 1 < |code| {
      j := j + 2;
    }
  }

  /** `uncommentedCode`. */
  method UncommentedCode(code: string) returns (clean: string)
    ensures clean == Strip(code)
  {
    clean := "";
    var n := |code|;
    var i := 0;
    while i < n
      invariant i <= n && clean + StripFrom(code, i) == Strip(code)
      decreases n - i
    {
      if i + 2 < n && code[i] == '/' && code[i + 1] == '*' {
        i := SkipLine(code, i + 2);
      } else if i + 2 < n && code[i] == '/' && code[i + 1] == '!' {
        i := SkipBlock(code, i + 2);
      } else {
        assert clean + StripFrom(code, i) == clean + [code[i]] + StripFrom(code, i + 1);
        clean := clean + [code[i]];
        i := i + 1;
      }
    }
  }
}
