/** `json_utils::escape` of NexusCompilerV2/src/AST/AST.h: a string as a
    JSON string literal, following section 7 of RFC 8259. Each character
    becomes a fixed chunk: `"` and `\` are escaped with a backslash, the
    five control characters that have short escapes use them, every other
    character below 32 becomes `\u00xx` in lowercase hex, and everything
    else, 127 and above included, is copied. The source works on the bytes
    of a `std::string`; here a character stands for a byte. */
module JsonUtils {
  import opened Wrappers
  import opened CType

  /** Backspace, form feed, newline, carriage return and tab: the control
      characters with a two-character escape. */
  predicate HasShortEscape(c: char) {
    c as int == 8 || c as int == 12 || c == '\n' || c == '\r' || c == '\t'
  }

  /** The chunk `escape` writes for one character. */
  function EscapeChar(c: char): (r: string)
    ensures |r| >= 1
  {
    if c == '"' then "\\\""
    else if c == '\\' then "\\\\"
    else if c as int == 8 then "\\b"
    else if c as int == 12 then "\\f"
    else if c == '\n' then "\\n"
    else if c == '\r' then "\\r"
    else if c == '\t' then "\\t"
    else if c as int < 32 then ['\\', 'u', '0', '0', HexDigit(c as int / 16), HexDigit(c as int % 16)]
    else [c]
  }

  /** The chunks of `s`, in order. */
  function EscapeBody(s: string): string {
    if s == [] then [] else EscapeChar(s[0]) + EscapeBody(s[1..])
  }

  /** What `escape` returns: the chunks between two quotes. */
  function Escaped(s: string): string {
    "\"" + EscapeBody(s) + "\""
  }

  /** `escape`: the loop appending one chunk per character to the buffer. */
  method Escape(s: string) returns (out: string)
    ensures out == Escaped(s)
  {
    out := "\"";
    var i := 0;
    while i < |s|
      invariant 0 <= i <= |s|
      invariant out == "\"" + EscapeBody(s[..i])
    {
      EscapeBodySnoc(s, i);
      out := out + EscapeChar(s[i]);
      i := i + 1;
    }
    assert s[..i] == s;
    out := out + "\"";
  }

  /** Escaping is chunk by chunk: it distributes over concatenation. */
  lemma {:induction false} EscapeBodyAppend(a: string, b: string)
    ensures EscapeBody(a + b) == EscapeBody(a) + EscapeBody(b)
    decreases |a|
  {
    if a == [] {
      assert a + b == b;
    } else {
      assert (a + b)[1..] == a[1..] + b;
      EscapeBodyAppend(a[1..], b);
    }
  }

  /** The chunks of one more character. */
  lemma EscapeBodySnoc(s: string, i: nat)
    requires i < |s|
    ensures EscapeBody(s[..i + 1]) == EscapeBody(s[..i]) + EscapeChar(s[i])
  {
    assert s[..i + 1] == s[..i] + [s[i]];
    EscapeBodyAppend(s[..i], [s[i]]);
    assert EscapeBody([s[i]]) == EscapeChar(s[i]) + EscapeBody([]);
  }

  /** The short escapes of `"`, `\` and the five named control characters. */
  lemma NamedEscapes()
    ensures EscapeChar('"') == "\\\"" && EscapeChar('\\') == "\\\\"
    ensures EscapeChar(8 as char) == "\\b" && EscapeChar(12 as char) == "\\f" && EscapeChar('\n') == "\\n"
    ensures EscapeChar('\r') == "\\r" && EscapeChar('\t') == "\\t"
  {
  }

  /** Any other character below 32 is `\u00` and two lowercase hex digits
      of its code. */
  lemma UnicodeEscape(c: char)
    requires c as int < 32 && !HasShortEscape(c)
    ensures |EscapeChar(c)| == 6 && EscapeChar(c)[..4] == "\\u00"
    ensures forall k :: 4 <= k < 6 ==> '0' <= EscapeChar(c)[k] <= '9' || 'a' <= EscapeChar(c)[k] <= 'f'
    ensures 16 * HexValue(EscapeChar(c)[4]) + HexValue(EscapeChar(c)[5]) == c as int
  {
  }

  /** Every other character, 127 and above included, is copied. */
  lemma CopiedUnchanged(c: char)
    requires c as int >= 32 && c != '"' && c != '\\'
    ensures EscapeChar(c) == [c]
  {
  }

  /** No chunk holds a raw control character. */
  lemma ChunkHasNoControl(c: char)
    ensures forall k :: 0 <= k < |EscapeChar(c)| ==> EscapeChar(c)[k] as int >= 32
  {
  }

  /** No raw control character is left in the output. */
  lemma {:induction false} NoRawControl(s: string)
    ensures forall k :: 0 <= k < |EscapeBody(s)| ==> EscapeBody(s)[k] as int >= 32
    decreases |s|
  {
    if s != [] {
      ChunkHasNoControl(s[0]);
      NoRawControl(s[1..]);
    }
  }

  /** The output is quoted and at least two longer than the input. */
  lemma {:induction false} QuotedAndLonger(s: string)
    ensures |Escaped(s)| >= |s| + 2
    ensures Escaped(s)[0] == '"' && Escaped(s)[|Escaped(s)| - 1] == '"'
    decreases |s|
  {
    if s != [] {
      QuotedAndLonger(s[1..]);
    }
  }

  /** Every `"` between the delimiting quotes is preceded by `\`. */
  lemma {:induction false} QuotesAreEscaped(s: string)
    ensures forall k :: 0 <= k < |EscapeBody(s)| && EscapeBody(s)[k] == '"' ==> k > 0 && EscapeBody(s)[k - 1] == '\\'
    decreases |s|
  {
    if s != [] {
      QuotesAreEscaped(s[1..]);
      var head := EscapeChar(s[0]);
      var rest := EscapeBody(s[1..]);
      assert EscapeBody(s) == head + rest;
      forall k | 0 <= k < |EscapeBody(s)| && EscapeBody(s)[k] == '"'
        ensures k > 0 && EscapeBody(s)[k - 1] == '\\'
      {
        if k >= |head| {
          assert rest[k - |head|] == '"';
          if k - |head| == 0 {
            assert false;
          }
        }
      }
    }
  }

  // ---------------------------------------------------------- decoding

  /** Reading a JSON string body back, as section 7 of RFC 8259 describes:
      a backslash starts a two-character escape or `\u` with four hex
      digits; `None` for anything a JSON string may not hold (a bare `"`, a
      raw control character, a bad escape, a lone surrogate code). */
  function Unescape(t: string): (r: Option<string>)
    decreases |t|
  {
    if t == [] then Some([])
    else if t[0] == '"' || t[0] as int < 32 then None
    else if t[0] != '\\' then Prefix(t[0], Unescape(t[1..]))
    else if |t| < 2 then None
    else if t[1] == 'u' then
      match UnicodeAt(t)
      case None => None
      case Some(c) => Prefix(c, Unescape(t[6..]))
    else
      match ShortUnescape(t[1])
      case None => None
      case Some(c) => Prefix(c, Unescape(t[2..]))
  }

  /** The character a two-character escape `\e` stands for. */
  function ShortUnescape(e: char): Option<char> {
    match e
    case '"' => Some('"')
    case '\\' => Some('\\')
    case '/' => Some('/')
    case 'b' => Some(8 as char)
    case 'f' => Some(12 as char)
    case 'n' => Some('\n')
    case 'r' => Some('\r')
    case 't' => Some('\t')
    case _ => None
  }

  /** The character of `\uXXXX` at the start of `t`. */
  function UnicodeAt(t: string): (r: Option<char>)
    ensures r.Some? ==> |t| >= 6
  {
    if |t| < 6 || !IsHexDigit(t[2]) || !IsHexDigit(t[3]) || !IsHexDigit(t[4]) || !IsHexDigit(t[5]) then None
    else
      var v := CodeUnit(HexValue(t[2]), HexValue(t[3]), HexValue(t[4]), HexValue(t[5]));
      if 0xD800 <= v < 0xE000 then None else Some(v as char)
  }

  /** The 16-bit value of four hex digits, most significant first. */
  function CodeUnit(a: nat, b: nat, c: nat, d: nat): (v: nat)
    requires a < 16 && b < 16 && c < 16 && d < 16
    ensures v < 0x1_0000
  {
    var ab := 16 * a + b;
    assert ab < 256;
    var cd := 16 * c + d;
    assert cd < 256;
    256 * ab + cd
  }

  function Prefix(c: char, r: Option<string>): Option<string> {
    if r.Some? then Some([c] + r.value) else None
  }

  /** One chunk reads back as its character. */
  lemma ChunkRoundTrip(c: char, rest: string)
    ensures Unescape(EscapeChar(c) + rest) == Prefix(c, Unescape(rest))
  {
    var t := EscapeChar(c) + rest;
    if c as int < 32 && !HasShortEscape(c) {
      UnicodeEscape(c);
      assert t[6..] == rest;
    } else if c == '"' || c == '\\' || HasShortEscape(c) {
      assert t[2..] == rest;
    } else {
      assert t[1..] == rest;
    }
  }

  /** Decoding undoes escaping, for every string. */
  lemma {:induction false} RoundTrip(s: string)
    ensures Unescape(EscapeBody(s)) == Some(s)
    decreases |s|
  {
    if s != [] {
      ChunkRoundTrip(s[0], EscapeBody(s[1..]));
      RoundTrip(s[1..]);
      assert [s[0]] + s[1..] == s;
    }
  }
}
