/** The diagnostics of the Nexus language server, LSP/server.js: a document
    whose opening and closing braces do not balance gets one error that
    spans the whole text and names both counts. */
module Diagnostics {
  import opened CType

  /** The number of occurrences of `c` in `text`: the length of the match
      list of a global one-character pattern. */
  function Count(text: string, c: char): (n: nat)
    ensures n <= |text|
  {
    if text == [] then 0 else Count(text[..|text| - 1], c) + (if text[|text| - 1] == c then 1 else 0)
  }

  /** Counting is additive over concatenation. */
  lemma {:induction false} CountAppend(a: string, b: string, c: char)
    ensures Count(a + b, c) == Count(a, c) + Count(b, c)
    decreases |b|
  {
    if b == [] {
      assert a + b == a;
    } else {
      var ab := a + b;
      assert ab[..|ab| - 1] == a + b[..|b| - 1];
      assert ab[|ab| - 1] == b[|b| - 1];
      CountAppend(a, b[..|b| - 1], c);
    }
  }

  /** A count is the size of the set of offsets that hold `c`. */
  lemma {:induction false} CountIsOffsets(text: string, c: char)
    ensures Count(text, c) == |set k | 0 <= k < |text| && text[k] == c|
    decreases |text|
  {
    if text != [] {
      var init := text[..|text| - 1];
      CountIsOffsets(init, c);
      var before := set k | 0 <= k < |init| && init[k] == c;
      var all := set k | 0 <= k < |text| && text[k] == c;
      if text[|text| - 1] == c {
        assert all == before + {|text| - 1};
      } else {
        assert all == before;
      }
    }
  }

  /** An LSP diagnostic; the range is given by the offsets the server
      converts to positions. */
  datatype Diagnostic = Diagnostic(severity: nat, start: nat, end: nat, message: string, source: string)

  const ErrorSeverity: nat := 1
  const Source: string := "nexus-lsp"

  /** The message of the unmatched-braces diagnostic. */
  function BraceMessage(open: nat, close: nat): string {
    "Unmatched braces: " + (NatToString(open) + (" opening, " + (NatToString(close) + " closing")))
  }

  /** A run of digits followed by a non-digit splits in one way only. */
  lemma SplitDigits(a: string, x: string, b: string, y: string)
    requires AllDigits(a) && AllDigits(b) && a + x == b + y
    requires |x| > 0 && !IsDigit(x[0]) && |y| > 0 && !IsDigit(y[0])
    ensures a == b && x == y
  {
    DigitPrefixLengthOfRun(a, x);
    DigitPrefixLengthOfRun(b, y);
    assert a == (a + x)[..|a|] && b == (b + y)[..|b|];
    assert x == (a + x)[|a|..] && y == (b + y)[|b|..];
  }

  /** The message names both counts: two messages are the same only for
      the same counts. */
  lemma BraceMessageInjective(open: nat, close: nat, open': nat, close': nat)
    requires BraceMessage(open, close) == BraceMessage(open', close')
    ensures open == open' && close == close'
  {
    var header := "Unmatched braces: ";
    var x := " opening, " + (NatToString(close) + " closing");
    var y := " opening, " + (NatToString(close') + " closing");
    var m := BraceMessage(open, close);
    assert |header| == 18;
    assert NatToString(open) + x == m[18..];
    assert NatToString(open') + y == m[18..];
    assert x[0] == ' ' && y[0] == ' ';
    SplitDigits(NatToString(open), x, NatToString(open'), y);
    NatToStringInjective(open, open');
    assert NatToString(close) + " closing" == x[10..];
    assert NatToString(close') + " closing" == y[10..];
    assert " closing"[0] == ' ';
    SplitDigits(NatToString(close), " closing", NatToString(close'), " closing");
    NatToStringInjective(close, close');
  }

  /** `validateTextDocument`: the diagnostics sent for `text`. */
  function Validate(text: string): (ds: seq<Diagnostic>)
    ensures |ds| <= 1
    ensures |ds| == 1 <==> Count(text, '{') != Count(text, '}')
    ensures forall d :: d in ds ==>
      d.severity == ErrorSeverity && d.start == 0 && d.end == |text| && d.source == Source
  {
    var open := Count(text, '{');
    var close := Count(text, '}');
    if open != close then [Diagnostic(ErrorSeverity, 0, |text|, BraceMessage(open, close), Source)] else []
  }

  /** The diagnostic, when there is one, reports the two counts. */
  lemma ValidateReports(text: string, open: nat, close: nat)
    requires Validate(text) != [] && Validate(text)[0].message == BraceMessage(open, close)
    ensures open == Count(text, '{') && close == Count(text, '}') && open != close
  {
    BraceMessageInjective(open, close, Count(text, '{'), Count(text, '}'));
  }

  /** Two documents without a diagnostic, put one after the other, have
      none either. */
  lemma BalancedConcat(a: string, b: string)
    requires Validate(a) == [] && Validate(b) == []
    ensures Validate(a + b) == []
  {
    CountAppend(a, b, '{');
    CountAppend(a, b, '}');
  }
}
