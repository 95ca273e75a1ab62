/** The string work of NexusCompiler/src/CodeGen/CodeGen.cpp behind `printf`:
    `expandInterpolation`, which turns `{name}` placeholders into conversion
    specifiers, and `hexToAnsi`/`replaceHexColors`, which turn `#rrggbb` into
    the direct-colour form `ESC [ 38 ; 2 ; r ; g ; b m` of the SGR control
    sequence (section 8.3.117 of ECMA-48). The two `std::regex` patterns
    become explicit scanners that find the same leftmost, non-overlapping
    matches. */
module FormatText {
  import opened Wrappers
  import opened CType
  import opened LlvmIr
  import opened SeqFacts

  // ------------------------------------------------------ interpolation

  /** A non-empty run of `\w` characters: what `(\w+)` captures. */
  predicate IsWord(s: string) {
    |s| > 0 && forall k :: 0 <= k < |s| ==> IsWordChar(s[k])
  }

  /** The end of the run of `\w` characters of `s` that starts at `j`. */
  function WordEnd(s: string, j: nat): (e: nat)
    requires j <= |s|
    ensures j <= e <= |s|
    decreases |s| - j
  {
    if j == |s| || !IsWordChar(s[j]) then j else WordEnd(s, j + 1)
  }

  /** The run is all word characters and stops at one that is not. */
  lemma {:induction false} WordEndSpec(s: string, j: nat)
    requires j <= |s|
    ensures forall k :: j <= k < WordEnd(s, j) ==> IsWordChar(s[k])
    ensures WordEnd(s, j) < |s| ==> !IsWordChar(s[WordEnd(s, j)])
    decreases |s| - j
  {
    if j < |s| && IsWordChar(s[j]) {
      WordEndSpec(s, j + 1);
    }
  }

  /** A run of word characters from `j` to a non-word character at `e`
      ends at `e`. */
  lemma {:induction false} WordEndAt(s: string, j: nat, e: nat)
    requires j <= e < |s| && !IsWordChar(s[e])
    requires forall k :: j <= k < e ==> IsWordChar(s[k])
    ensures WordEnd(s, j) == e
    decreases e - j
  {
    if j < e {
      WordEndAt(s, j + 1, e);
    }
  }

  /** Where the match of `\{(\w+)\}` that starts at index `i` ends, if
      one starts there. The run is greedy and `}` is no word character, so
      the match, when there is one, closes right after the longest run. */
  function PlaceholderEnd(s: string, i: nat): (r: Option<nat>)
    requires i <= |s|
    ensures r.Some? ==> i + 3 <= r.value <= |s| && s[i] == '{' && s[r.value - 1] == '}'
  {
    if i == |s| || s[i] != '{' then None
    else
      var e := WordEnd(s, i + 1);
      if e > i + 1 && e < |s| && s[e] == '}' then Some(e + 1) else None
  }

  /** The captured name is a non-empty run of word characters. */
  lemma PlaceholderName(s: string, i: nat)
    requires i <= |s| && PlaceholderEnd(s, i).Some?
    ensures IsWord(s[i + 1..PlaceholderEnd(s, i).value - 1])
  {
    WordEndSpec(s, i + 1);
  }

  /** The format text `expandInterpolation` builds from index `i` of `raw`
      under symbol table `env`: text outside placeholders is copied, and
      each placeholder becomes the specifier of its variable's type. */
  function ExpandedText(raw: string, i: nat, env: map<string, VarInfo>): string
    requires i <= |raw|
    decreases |raw| - i
  {
    if i == |raw| then []
    else
      match PlaceholderEnd(raw, i)
      case Some(e) => Specifier(Lookup(env, raw[i + 1..e - 1])) + ExpandedText(raw, e, env)
      case None => [raw[i]] + ExpandedText(raw, i + 1, env)
  }

  /** The names `expandInterpolation` records from index `i`, one per
      placeholder, left to right. */
  function PlaceholderNames(raw: string, i: nat): seq<string>
    requires i <= |raw|
    decreases |raw| - i
  {
    if i == |raw| then []
    else
      match PlaceholderEnd(raw, i)
      case Some(e) => [raw[i + 1..e - 1]] + PlaceholderNames(raw, e)
      case None => PlaceholderNames(raw, i + 1)
  }

  /** `expandInterpolation`: the scan that appends to the result and to
      the list of names. */
  method ExpandInterpolation(raw: string, env: map<string, VarInfo>) returns (result: string, names: seq<string>)
    ensures result == ExpandedText(raw, 0, env)
    ensures names == PlaceholderNames(raw, 0)
  {
    result := [];
    names := [];
    var i := 0;
    while i < |raw|
      invariant i <= |raw|
      invariant result + ExpandedText(raw, i, env) == ExpandedText(raw, 0, env)
      invariant names + PlaceholderNames(raw, i) == PlaceholderNames(raw, 0)
      decreases |raw| - i
    {
      ExpandStep(raw, i, env);
      var p := PlaceholderEnd(raw, i);
      if p.Some? {
        var e := p.value;
        var name := raw[i + 1..e - 1];
        var spec := Specifier(Lookup(env, name));
        var text := ExpandedText(raw, e, env);
        assert ExpandedText(raw, i, env) == spec + text;
        AppendAssoc(result, spec, text);
        AppendAssoc(names, [name], PlaceholderNames(raw, e));
        result := result + spec;
        names := names + [name];
        i := e;
      } else {
        AppendAssoc(result, [raw[i]], ExpandedText(raw, i + 1, env));
        result := result + [raw[i]];
        i := i + 1;
      }
    }
  }

  /** One step of the scan: a placeholder at `i` or the character there. */
  lemma ExpandStep(raw: string, i: nat, env: map<string, VarInfo>)
    requires i < |raw|
    ensures PlaceholderEnd(raw, i).Some? ==>
      var e := PlaceholderEnd(raw, i).value;
      ExpandedText(raw, i, env) == Specifier(Lookup(env, raw[i + 1..e - 1])) + ExpandedText(raw, e, env) &&
      PlaceholderNames(raw, i) == [raw[i + 1..e - 1]] + PlaceholderNames(raw, e)
    ensures PlaceholderEnd(raw, i).None? ==>
      ExpandedText(raw, i, env) == [raw[i]] + ExpandedText(raw, i + 1, env) &&
      PlaceholderNames(raw, i) == PlaceholderNames(raw, i + 1)
  {
  }

  /** Text with no `{` has no placeholder: it is copied and no name is
      recorded. */
  lemma {:induction false} PlainTextKept(raw: string, i: nat, env: map<string, VarInfo>)
    requires i <= |raw|
    requires forall k :: i <= k < |raw| ==> raw[k] != '{'
    ensures ExpandedText(raw, i, env) == raw[i..] && PlaceholderNames(raw, i) == []
    decreases |raw| - i
  {
    if i < |raw| {
      PlainTextKept(raw, i + 1, env);
      assert [raw[i]] + raw[i + 1..] == raw[i..];
    }
  }

  /** Every recorded name is a non-empty run of word characters. */
  lemma {:induction false} NamesAreWords(raw: string, i: nat)
    requires i <= |raw|
    ensures forall k :: 0 <= k < |PlaceholderNames(raw, i)| ==> IsWord(PlaceholderNames(raw, i)[k])
    decreases |raw| - i
  {
    if i < |raw| {
      match PlaceholderEnd(raw, i)
      case Some(e) =>
        PlaceholderName(raw, i);
        NamesAreWords(raw, e);
      case None =>
        NamesAreWords(raw, i + 1);
    }
  }

  /** Expansion splits at a placeholder `{name}` at index `j`: the text
      from `i` up to it (which holds no `{`) is copied, the placeholder
      becomes its specifier, its name comes first, and the rest is expanded
      after it. */
  lemma {:induction false} PlaceholderSplit(raw: string, i: nat, j: nat, e: nat, env: map<string, VarInfo>)
    requires i <= j < e < |raw|
    requires forall k :: i <= k < j ==> raw[k] != '{'
    requires raw[j] == '{' && IsWord(raw[j + 1..e]) && raw[e] == '}'
    ensures ExpandedText(raw, i, env) == raw[i..j] + Specifier(Lookup(env, raw[j + 1..e])) + ExpandedText(raw, e + 1, env)
    ensures PlaceholderNames(raw, i) == [raw[j + 1..e]] + PlaceholderNames(raw, e + 1)
    decreases j - i
  {
    var spec := Specifier(Lookup(env, raw[j + 1..e]));
    var after := ExpandedText(raw, e + 1, env);
    if i == j {
      PlaceholderAtStart(raw, j, e, env);
    } else {
      PlaceholderSplit(raw, i + 1, j, e, env);
      CopyUnfold(raw, i, env);
      assert [raw[i]] + (raw[i + 1..j] + spec + after) == raw[i..j] + spec + after by {
        assert [raw[i]] + raw[i + 1..j] == raw[i..j];
      }
    }
  }

  /** Expansion at the start of a placeholder. */
  lemma PlaceholderAtStart(raw: string, j: nat, e: nat, env: map<string, VarInfo>)
    requires j < e < |raw|
    requires raw[j] == '{' && IsWord(raw[j + 1..e]) && raw[e] == '}'
    ensures ExpandedText(raw, j, env) == raw[j..j] + Specifier(Lookup(env, raw[j + 1..e])) + ExpandedText(raw, e + 1, env)
    ensures PlaceholderNames(raw, j) == [raw[j + 1..e]] + PlaceholderNames(raw, e + 1)
  {
    PlaceholderMatch(raw, j, e);
    assert raw[j..j] == [];
  }

  /** A character that starts no placeholder is copied. */
  lemma CopyUnfold(raw: string, i: nat, env: map<string, VarInfo>)
    requires i < |raw| && raw[i] != '{'
    ensures ExpandedText(raw, i, env) == [raw[i]] + ExpandedText(raw, i + 1, env)
    ensures PlaceholderNames(raw, i) == PlaceholderNames(raw, i + 1)
  {
  }

  /** `{name}` at index `j` is a match ending after its `}`. */
  lemma PlaceholderMatch(raw: string, j: nat, e: nat)
    requires j < e < |raw|
    requires raw[j] == '{' && IsWord(raw[j + 1..e]) && raw[e] == '}'
    ensures PlaceholderEnd(raw, j) == Some(e + 1)
  {
    forall k | j + 1 <= k < e
      ensures IsWordChar(raw[k])
    {
      assert raw[k] == raw[j + 1..e][k - j - 1];
    }
    WordEndAt(raw, j + 1, e);
  }

  // ------------------------------------------------------------ colours

  predicate AllHex(s: string) {
    forall k :: 0 <= k < |s| ==> IsHexDigit(s[k])
  }

  /** The regex `#([0-9a-fA-F]{6})` matches at the start of `s`. */
  predicate ColourAt(s: string) {
    |s| >= 7 && s[0] == '#' && AllHex(s[1..7])
  }

  /** A byte written as two hex digits, high digit first. */
  function PairValue(hi: char, lo: char): (v: nat)
    requires IsHexDigit(hi) && IsHexDigit(lo)
    ensures v < 256
  {
    16 * HexValue(hi) + HexValue(lo)
  }

  /** The SGR sequence selecting direct foreground colour (r, g, b). */
  function Sgr(r: nat, g: nat, b: nat): string {
    SgrHead + Field(r, ';', Field(g, ';', Field(b, 'm', [])))
  }

  /** ESC, `[`, and the parameters `38;2;` that select a direct colour. */
  const SgrHead: string := "\U{001B}[38;2;"

  /** A decimal parameter, its terminator, and what follows. */
  function Field(n: nat, terminator: char, rest: string): string {
    NatToString(n) + [terminator] + rest
  }

  /** A field determines its number and what follows it. */
  lemma FieldInjective(n: nat, n': nat, terminator: char, rest: string, rest': string)
    requires !IsDigit(terminator)
    requires Field(n, terminator, rest) == Field(n', terminator, rest')
    ensures n == n' && rest == rest'
  {
    DigitsThenSeparator(NatToString(n), rest, NatToString(n'), rest', terminator);
    NatToStringInjective(n, n');
  }

  /** What `hexToAnsi` accepts: anything but `#` and six characters, or `#`
      and six hex digits (the only form `replaceHexColors` passes). */
  predicate HexToAnsiDefined(hex: string) {
    |hex| != 7 || hex[0] != '#' || AllHex(hex[1..7])
  }

  /** `hexToAnsi`: `#rrggbb` becomes the colour sequence of its three
      bytes; any other string is returned as it is. */
  function HexToAnsi(hex: string): (r: string)
    requires HexToAnsiDefined(hex)
  {
    if |hex| != 7 || hex[0] != '#' then hex
    else
      assert forall k :: 1 <= k < 7 ==> IsHexDigit(hex[k]) by {
        forall k | 1 <= k < 7
          ensures IsHexDigit(hex[k])
        {
          assert hex[1..7][k - 1] == hex[k];
        }
      }
      Sgr(PairValue(hex[1], hex[2]), PairValue(hex[3], hex[4]), PairValue(hex[5], hex[6]))
  }

  /** `#rrggbb` spelled with lowercase digits. */
  function HexCode(r: nat, g: nat, b: nat): (s: string)
    requires r < 256 && g < 256 && b < 256
  {
    ['#', HexDigit(r / 16), HexDigit(r % 16), HexDigit(g / 16), HexDigit(g % 16), HexDigit(b / 16), HexDigit(b % 16)]
  }

  /** Each colour's code converts to the sequence of that colour. */
  lemma HexCodeToAnsi(r: nat, g: nat, b: nat)
    requires r < 256 && g < 256 && b < 256
    ensures ColourAt(HexCode(r, g, b)) && HexToAnsi(HexCode(r, g, b)) == Sgr(r, g, b)
  {
    var s := HexCode(r, g, b);
    assert PairValue(s[1], s[2]) == r && PairValue(s[3], s[4]) == g && PairValue(s[5], s[6]) == b;
  }

  /** A sequence determines its colour: distinct colours give distinct
      sequences. */
  lemma SgrInjective(r: nat, g: nat, b: nat, r': nat, g': nat, b': nat)
    requires Sgr(r, g, b) == Sgr(r', g', b')
    ensures r == r' && g == g' && b == b'
  {
    var x := Field(r, ';', Field(g, ';', Field(b, 'm', [])));
    var x' := Field(r', ';', Field(g', ';', Field(b', 'm', [])));
    assert x == (SgrHead + x)[|SgrHead|..];
    assert x' == (SgrHead + x')[|SgrHead|..];
    FieldInjective(r, r', ';', Field(g, ';', Field(b, 'm', [])), Field(g', ';', Field(b', 'm', [])));
    FieldInjective(g, g', ';', Field(b, 'm', []), Field(b', 'm', []));
    FieldInjective(b, b', 'm', [], []);
  }

  /** `replaceHexColors`: every colour code, leftmost first and without
      overlap, becomes its sequence; everything else is copied. */
  function ReplaceColours(s: string): string
    decreases |s|
  {
    if s == [] then []
    else if ColourAt(s) then HexToAnsi(s[..7]) + ReplaceColours(s[7..])
    else [s[0]] + ReplaceColours(s[1..])
  }

  /** One step of the replacement at the start of `t`. */
  lemma ReplaceStep(t: string)
    requires |t| > 0
    ensures ColourAt(t) ==> ReplaceColours(t) == HexToAnsi(t[..7]) + ReplaceColours(t[7..])
    ensures !ColourAt(t) ==> ReplaceColours(t) == [t[0]] + ReplaceColours(t[1..])
  {
  }

  /** `replaceHexColors`: the scan that appends to the result. */
  method ReplaceHexColors(input: string) returns (result: string)
    ensures result == ReplaceColours(input)
  {
    result := [];
    var i := 0;
    while i < |input|
      invariant i <= |input|
      invariant result + ReplaceColours(input[i..]) == ReplaceColours(input)
      decreases |input| - i
    {
      var t := input[i..];
      ReplaceStep(t);
      if ColourAt(t) {
        var chunk := HexToAnsi(t[..7]);
        assert t[7..] == input[i + 7..];
        AppendAssoc(result, chunk, ReplaceColours(input[i + 7..]));
        result := result + chunk;
        i := i + 7;
      } else {
        assert t[1..] == input[i + 1..];
        AppendAssoc(result, [input[i]], ReplaceColours(input[i + 1..]));
        result := result + [input[i]];
        i := i + 1;
      }
    }
    assert input[i..] == [];
  }

  predicate NoHash(s: string) {
    forall k :: 0 <= k < |s| ==> s[k] != '#'
  }

  /** Text without `#` passes through unchanged in front of anything. */
  lemma {:induction false} NoHashPrefix(a: string, b: string)
    requires NoHash(a)
    ensures ReplaceColours(a + b) == a + ReplaceColours(b)
    decreases |a|
  {
    if a != [] {
      var t := a + b;
      assert t[0] == a[0];
      CopyFirst(t);
      assert t[1..] == a[1..] + b;
      NoHashPrefix(a[1..], b);
      AppendAssoc([a[0]], a[1..], ReplaceColours(b));
      assert [a[0]] + a[1..] == a;
    } else {
      assert a + b == b;
    }
  }

  /** A first character other than `#` is copied. */
  lemma CopyFirst(t: string)
    requires |t| > 0 && t[0] != '#'
    ensures ReplaceColours(t) == [t[0]] + ReplaceColours(t[1..])
  {
  }

  /** The colour sequence has no `#` and starts with ESC. */
  lemma SgrShape(r: nat, g: nat, b: nat)
    ensures NoHash(Sgr(r, g, b)) && |Sgr(r, g, b)| > 0 && Sgr(r, g, b)[0] == '\U{001B}'
  {
    FieldNoHash(b, 'm', []);
    FieldNoHash(g, ';', Field(b, 'm', []));
    var x := Field(r, ';', Field(g, ';', Field(b, 'm', [])));
    FieldNoHash(r, ';', Field(g, ';', Field(b, 'm', [])));
    assert NoHash(SgrHead);
    NoHashConcat(SgrHead, x);
  }

  /** A field adds no `#` to what follows it. */
  lemma FieldNoHash(n: nat, terminator: char, rest: string)
    requires terminator != '#' && NoHash(rest)
    ensures NoHash(Field(n, terminator, rest))
  {
    var d := NatToString(n);
    assert forall k :: 0 <= k < |d| ==> IsDigit(d[k]);
    NoHashConcat(d, [terminator]);
    NoHashConcat(d + [terminator], rest);
  }

  lemma NoHashConcat(a: string, b: string)
    requires NoHash(a) && NoHash(b)
    ensures NoHash(a + b)
  {
    forall k | 0 <= k < |a + b|
      ensures (a + b)[k] != '#'
    {
      if k >= |a| {
        assert (a + b)[k] == b[k - |a|];
      }
    }
  }

  /** Whatever is replaced, a first character that is not a hex digit
      stays a first character that is not one. */
  lemma FirstNotHex(u: string)
    requires |u| > 0 && !IsHexDigit(u[0])
    ensures |ReplaceColours(u)| > 0 && !IsHexDigit(ReplaceColours(u)[0])
  {
    if ColourAt(u) {
      var h := u[..7];
      SgrShape(PairValue(h[1], h[2]), PairValue(h[3], h[4]), PairValue(h[5], h[6]));
    }
  }

  predicate NoColour(s: string) {
    forall k :: 0 <= k < |s| ==> !ColourAt(s[k..])
  }

  /** Text holding no colour code is left alone. */
  lemma {:induction false} NoColourFixed(s: string)
    requires NoColour(s)
    ensures ReplaceColours(s) == s
    decreases |s|
  {
    if s != [] {
      assert s[0..] == s;
      forall k | 0 <= k < |s[1..]|
        ensures !ColourAt(s[1..][k..])
      {
        assert s[1..][k..] == s[k + 1..];
      }
      NoColourFixed(s[1..]);
      assert [s[0]] + s[1..] == s;
    }
  }

  /** A copied `#` is never followed by six hex digits in the output. */
  lemma CopiedHashStaysInert(s: string)
    requires |s| > 0 && s[0] == '#' && !ColourAt(s)
    ensures !ColourAt([s[0]] + ReplaceColours(s[1..]))
  {
    var u := s[1..];
    var out := [s[0]] + ReplaceColours(u);
    if m :| 0 <= m < |u| && m < 6 && !IsHexDigit(u[m]) {
      var m0 := NonHexSurvives(u, m);
      if |out| >= 7 {
        assert out[1..7][m0] == ReplaceColours(u)[m0];
      }
    } else {
      HexRunIsColour(s);
      assert |u| < 6;
      assert NoHash(u);
      NoHashPrefix(u, []);
      assert u + [] == u;
    }
  }

  /** `#` and six hex digits make a colour code. */
  lemma HexRunIsColour(s: string)
    requires |s| > 0 && s[0] == '#'
    ensures (|s| >= 7 && forall m :: 1 <= m < 7 ==> IsHexDigit(s[m])) ==> ColourAt(s)
  {
    if |s| >= 7 && forall m :: 1 <= m < 7 ==> IsHexDigit(s[m]) {
      forall k | 0 <= k < 6
        ensures IsHexDigit(s[1..7][k])
      {
        assert s[1..7][k] == s[k + 1];
      }
    }
  }

  /** A character that is not a hex digit, at `m`, leaves one in the
      output at or before `m`. */
  lemma NonHexSurvives(u: string, m: nat) returns (m0: nat)
    requires m < |u| && !IsHexDigit(u[m])
    ensures m0 <= m && m0 < |ReplaceColours(u)| && !IsHexDigit(ReplaceColours(u)[m0])
  {
    m0 := FirstNonHex(u, m);
    NoHashPrefix(u[..m0], u[m0..]);
    assert u[..m0] + u[m0..] == u;
    FirstNotHex(u[m0..]);
    assert ReplaceColours(u)[m0] == ReplaceColours(u[m0..])[0];
  }

  /** The first index at or before `m` whose character is not a hex digit. */
  lemma FirstNonHex(u: string, m: nat) returns (m0: nat)
    requires m < |u| && !IsHexDigit(u[m])
    ensures m0 <= m && !IsHexDigit(u[m0]) && AllHex(u[..m0]) && NoHash(u[..m0])
  {
    m0 := 0;
    while IsHexDigit(u[m0])
      invariant m0 <= m && AllHex(u[..m0])
      decreases m - m0
    {
      m0 := m0 + 1;
    }
  }

  /** Text without `#` in front of text without colour codes makes none. */
  lemma NoColourAfterNoHash(a: string, rest: string)
    requires NoHash(a) && NoColour(rest)
    ensures NoColour(a + rest)
  {
    var out := a + rest;
    forall k | 0 <= k < |out|
      ensures !ColourAt(out[k..])
    {
      if k < |a| {
        assert out[k..][0] == a[k];
      } else {
        assert out[k..] == rest[k - |a|..];
      }
    }
  }

  /** One character in front of text without colour codes makes none
      unless a code starts at it. */
  lemma NoColourCons(c: char, rest: string)
    requires NoColour(rest) && !ColourAt([c] + rest)
    ensures NoColour([c] + rest)
  {
    var out := [c] + rest;
    forall k | 0 < k < |out|
      ensures !ColourAt(out[k..])
    {
      assert out[k..] == rest[k - 1..];
    }
    assert out[0..] == out;
  }

  /** No colour code is left in the output. */
  lemma {:induction false} ReplacedHasNoColour(s: string)
    ensures NoColour(ReplaceColours(s))
    decreases |s|
  {
    if s != [] {
      ReplaceStep(s);
      if ColourAt(s) {
        var h := s[..7];
        ReplacedHasNoColour(s[7..]);
        SgrShape(PairValue(h[1], h[2]), PairValue(h[3], h[4]), PairValue(h[5], h[6]));
        NoColourAfterNoHash(HexToAnsi(h), ReplaceColours(s[7..]));
      } else {
        ReplacedHasNoColour(s[1..]);
        if s[0] == '#' {
          CopiedHashStaysInert(s);
          NoColourCons(s[0], ReplaceColours(s[1..]));
        } else {
          assert NoHash([s[0]]);
          NoColourAfterNoHash([s[0]], ReplaceColours(s[1..]));
        }
      }
    }
  }

  /** Replacing twice is replacing once. */
  lemma ReplaceIdempotent(s: string)
    ensures ReplaceColours(ReplaceColours(s)) == ReplaceColours(s)
  {
    ReplacedHasNoColour(s);
    NoColourFixed(ReplaceColours(s));
  }

  // ------------------------------------------------------- the format

  /** The SGR reset appended to every interpolated format. */
  const Reset: string := "\U{001B}[0m"

  /** The interpolating path's format string built from the expanded
      text: a newline unless it already ends in one, colours replaced, and
      the reset appended. */
  function FormatString(expanded: string): (r: string)
    ensures |r| >= |Reset| + 1 && r[|r| - |Reset|..] == Reset
  {
    var lined := if expanded == [] || expanded[|expanded| - 1] != '\n' then expanded + "\n" else expanded;
    ReplaceColours(lined) + Reset
  }

  /** A text ending in a newline still ends in one after replacement. */
  lemma {:induction false} KeepsFinalNewline(s: string)
    requires |s| > 0 && s[|s| - 1] == '\n'
    ensures |ReplaceColours(s)| > 0 && ReplaceColours(s)[|ReplaceColours(s)| - 1] == '\n'
    decreases |s|
  {
    if ColourAt(s) {
      if |s| > 7 {
        KeepsFinalNewline(s[7..]);
      }
    } else if |s| > 1 {
      KeepsFinalNewline(s[1..]);
    }
  }

  /** The format always ends with a newline and the reset. */
  lemma FormatEndsWithNewline(expanded: string)
    ensures var f := FormatString(expanded); f[|f| - |Reset| - 1] == '\n'
  {
    var lined := if expanded == [] || expanded[|expanded| - 1] != '\n' then expanded + "\n" else expanded;
    KeepsFinalNewline(lined);
  }
}
