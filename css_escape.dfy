/** `escape_css` (utils.py:2-32): a CSS identifier escaper after the
    "serialize an identifier" idiom of section 2.1 of the CSS Object Model
    specification, working one code point at a time. Alongside it, a
    reader of CSS escapes that takes the output back to the input, and the
    CSSOM rule the code departs from at utils.py:15-16. */
module CssEscape {
  import opened Text

  const Replacement: char := '\U{FFFD}'

  predicate IsDigit(c: char) {
    '0' <= c <= '9'
  }

  /** A hex digit as CSS reads it, in either case. */
  predicate IsHexChar(c: char) {
    '0' <= c <= '9' || 'a' <= c <= 'f' || 'A' <= c <= 'F'
  }

  /** U+0001 to U+001F and U+007F. */
  predicate IsControl(c: char) {
    0x01 <= c as int <= 0x1F || c as int == 0x7F
  }

  /** The code points copied unchanged when no other rule applies
      (utils.py:20-26): U+0080 and above, `-`, `_`, ASCII digits and letters. */
  predicate Copied(c: char) {
    c as int >= 0x80 || c == '-' || c == '_' || IsDigit(c) || 'A' <= c <= 'Z' || 'a' <= c <= 'z'
  }

  // ---------------------------------------------------------------------
  // Hexadecimal, as `f'{n:x}'` writes it and as CSS reads it

  function HexDigit(d: nat): (c: char)
    requires d < 16
    ensures IsHexChar(c) && !('A' <= c <= 'F')
  {
    if d < 10 then ('0' as int + d) as char else ('a' as int + d - 10) as char
  }

  function HexValue(c: char): (v: nat)
    requires IsHexChar(c)
    ensures v < 16
  {
    if '0' <= c <= '9' then c as int - '0' as int
    else if 'a' <= c <= 'f' then c as int - 'a' as int + 10
    else c as int - 'A' as int + 10
  }

  /** `f'{n:x}'`: lower-case hex digits, most significant first, without
      leading zeros. */
  function Hex(n: nat): (r: string)
    ensures |r| >= 1
    ensures forall k :: 0 <= k < |r| ==> IsHexChar(r[k]) && !('A' <= r[k] <= 'F')
    ensures n > 0 ==> r[0] != '0'
  {
    if n < 16 then [HexDigit(n)] else Hex(n / 16) + [HexDigit(n % 16)]
  }

  /** The number a run of hex digits stands for. */
  function ParseHex(s: string): nat
    requires forall k :: 0 <= k < |s| ==> IsHexChar(s[k])
  {
    if s == [] then 0 else ParseHex(s[..|s| - 1]) * 16 + HexValue(s[|s| - 1])
  }

  lemma {:induction false} HexRoundTrip(n: nat)
    ensures ParseHex(Hex(n)) == n
  {
    var h := Hex(n);
    if n < 16 {
      assert h[..0] == [];
    } else {
      HexRoundTrip(n / 16);
      assert h[..|h| - 1] == Hex(n / 16);
    }
  }

  /** The number of hex digits `s` starts with: the run stops at the end
      of `s` or at its first character that is not a hex digit. */
  function HexRunLength(s: string): (k: nat)
    ensures k <= |s|
    ensures forall j :: 0 <= j < k ==> IsHexChar(s[j])
    ensures k < |s| ==> !IsHexChar(s[k])
  {
    if s == [] || !IsHexChar(s[0]) then 0 else 1 + HexRunLength(s[1..])
  }

  /** A run of hex digits ended by a space is read up to the space. */
  lemma {:induction false} HexRunBeforeSpace(h: string, t: string)
    requires forall k :: 0 <= k < |h| ==> IsHexChar(h[k])
    ensures HexRunLength(h + " " + t) == |h|
  {
    if h != [] {
      HexRunBeforeSpace(h[1..], t);
      assert (h + " " + t)[1..] == h[1..] + " " + t;
    }
  }

  // ---------------------------------------------------------------------
  // The escaper

  /** The two rules the code can follow: the one written at utils.py:11-18,
      and the CSSOM one, which hex-escapes a digit, and only a digit, at
      index 0 or at index 1 after a leading `-`. */
  datatype Rule = AsWritten | Cssom

  /** Whether the code point `c` at index `i` is written as a hex escape;
      `dash` says whether the input starts with `-`. As written, Python's
      `and` binding tighter than `or` makes the index-1 case take any code
      point (utils.py:15-16). */
  predicate HexEscaped(rule: Rule, c: char, i: nat, dash: bool) {
    match rule
    case AsWritten => IsControl(c) || (IsDigit(c) && i == 0) || (i == 1 && dash)
    case Cssom => IsControl(c) || (IsDigit(c) && (i == 0 || (i == 1 && dash)))
  }

  /** The output for one code point (utils.py:9-30): U+FFFD for NUL, then
      a backslash, the lower-case hex code and a space, or the code point
      itself, or the code point after a backslash. Never empty, and never
      a control character. */
  function Chunk(rule: Rule, c: char, i: nat, dash: bool): (r: string)
    ensures |r| >= 1
  {
    if c == '\0' then [Replacement]
    else if HexEscaped(rule, c, i, dash) then "\\" + Hex(c as int) + " "
    else if Copied(c) then [c]
    else ['\\', c]
  }

  /** The chunks of the code points of `css` from index `i` on, in order. */
  function Chunks(rule: Rule, css: string, i: nat, dash: bool): (r: string)
    requires i <= |css|
    ensures |r| >= |css| - i
    decreases |css| - i
  {
    if i == |css| then "" else Chunk(rule, css[i], i, dash) + Chunks(rule, css, i + 1, dash)
  }

  /** The escaper under `rule`: a lone `-` becomes `\-` (utils.py:3-4),
      anything else is the concatenation of its chunks. */
  function EscapeWith(rule: Rule, css: string): (r: string)
    ensures |r| >= |css|
  {
    if css == "-" then "\\-" else Chunks(rule, css, 0, StartsWith(css, "-"))
  }

  predicate NoControl(s: string) {
    forall k :: 0 <= k < |s| ==> !IsControl(s[k]) && s[k] != '\0'
  }

  lemma ChunkNoControl(rule: Rule, c: char, i: nat, dash: bool)
    ensures NoControl(Chunk(rule, c, i, dash))
  {
    if c != '\0' && HexEscaped(rule, c, i, dash) {
      var h := Hex(c as int);
      forall k | 0 <= k < |h| ensures !IsControl(h[k]) && h[k] != '\0' {
        assert IsHexChar(h[k]);
      }
    }
  }

  lemma {:induction false} ChunksNoControl(rule: Rule, css: string, i: nat, dash: bool)
    requires i <= |css|
    ensures NoControl(Chunks(rule, css, i, dash))
    decreases |css| - i
  {
    if i < |css| {
      ChunkNoControl(rule, css[i], i, dash);
      ChunksNoControl(rule, css, i + 1, dash);
    }
  }

  /** The output never holds NUL, U+0001 to U+001F or U+007F. */
  lemma EscapeNoControl(rule: Rule, css: string)
    ensures NoControl(EscapeWith(rule, css))
  {
    if css != "-" {
      ChunksNoControl(rule, css, 0, StartsWith(css, "-"));
    }
  }

  /** `escape_css(css)` as written. */
  function Escape(css: string): string {
    EscapeWith(AsWritten, css)
  }

  /** The CSSOM serialization of an identifier. */
  function CssomEscape(css: string): string {
    EscapeWith(Cssom, css)
  }

  /** `escape_css`: the loop over the code points growing `result` one
      chunk at a time. */
  method EscapeCss(css: string) returns (result: string)
    ensures result == Escape(css)
  {
    if css == "-" {
      return "\\-";
    }
    result := "";
    for i := 0 to |css|
      invariant result + Chunks(AsWritten, css, i, StartsWith(css, "-")) == Escape(css)
    {
      var c := css[i];
      var chunk: string;
      if c == '\0' {
        chunk := [Replacement];
      } else if IsControl(c) || (IsDigit(c) && i == 0) || (i == 1 && StartsWith(css, "-")) {
        chunk := "\\" + Hex(c as int) + " ";
      } else if Copied(c) {
        chunk := [c];
      } else {
        chunk := ['\\', c];
      }
      ghost var dash := StartsWith(css, "-");
      assert chunk == Chunk(AsWritten, c, i, dash);
      ghost var rest := Chunks(AsWritten, css, i + 1, dash);
      assert Chunks(AsWritten, css, i, dash) == chunk + rest;
      AppendAssoc(result, chunk, rest);
      result := result + chunk;
    }
  }

  lemma AppendAssoc(a: string, b: string, c: string)
    ensures a + (b + c) == (a + b) + c
  {
  }

  // ---------------------------------------------------------------------
  // Reading the escapes back

  /** The code point a hex escape stands for; zero, a surrogate or a
      number past U+10FFFF stands for U+FFFD. */
  function CodePoint(v: nat): string {
    if 0 < v < 0xD800 || 0xE000 <= v < 0x110000 then [v as char] else [Replacement]
  }

  /** A reader of CSS escapes: a backslash and hex digits, with one space
      after them dropped, is the code point they spell; a backslash and
      any other character is that character; anything else is itself. */
  function Unescape(s: string): string
    decreases |s|
  {
    if s == [] then []
    else if s[0] == '\\' && |s| >= 2 && IsHexChar(s[1]) then
      var k := HexRunLength(s[1..]);
      var rest := s[1 + k..];
      CodePoint(ParseHex(s[1..1 + k])) + Unescape(if rest != [] && rest[0] == ' ' then rest[1..] else rest)
    else if s[0] == '\\' && |s| >= 2 then [s[1]] + Unescape(s[2..])
    else [s[0]] + Unescape(s[1..])
  }

  /** The input with NUL replaced by U+FFFD. */
  function NulReplaced(s: string): (r: string)
    ensures |r| == |s|
  {
    if s == [] then [] else [if s[0] == '\0' then Replacement else s[0]] + NulReplaced(s[1..])
  }

  /** A backslash, hex digits and a space read back as the code point
      the digits spell. */
  lemma UnescapeHex(h: string, t: string)
    requires h != [] && forall k :: 0 <= k < |h| ==> IsHexChar(h[k])
    ensures Unescape("\\" + h + " " + t) == CodePoint(ParseHex(h)) + Unescape(t)
  {
    var s := "\\" + h + " " + t;
    assert s[1..] == h + " " + t;
    HexRunBeforeSpace(h, t);
    assert s[1..1 + |h|] == h;
    assert s[1 + |h|..] == " " + t;
    assert (" " + t)[1..] == t;
  }

  /** Each chunk reads back as its code point, NUL as U+FFFD. */
  lemma ChunkRoundTrip(rule: Rule, c: char, i: nat, dash: bool, t: string)
    ensures Unescape(Chunk(rule, c, i, dash) + t) == [if c == '\0' then Replacement else c] + Unescape(t)
  {
    var s := Chunk(rule, c, i, dash) + t;
    if c == '\0' {
      assert s[1..] == t;
    } else if HexEscaped(rule, c, i, dash) {
      UnescapeHex(Hex(c as int), t);
      HexRoundTrip(c as int);
    } else if Copied(c) {
      assert s[1..] == t;
    } else {
      assert s[2..] == t;
    }
  }

  lemma {:induction false} ChunksRoundTrip(rule: Rule, css: string, i: nat, dash: bool)
    requires i <= |css|
    ensures Unescape(Chunks(rule, css, i, dash)) == NulReplaced(css[i..])
    decreases |css| - i
  {
    if i < |css| {
      ChunksRoundTrip(rule, css, i + 1, dash);
      ChunkRoundTrip(rule, css[i], i, dash, Chunks(rule, css, i + 1, dash));
      assert css[i..][1..] == css[i + 1..];
    }
  }

  /** Reading the escaped identifier back gives the input, with NUL as
      U+FFFD: no two inputs without NUL escape to the same output. */
  lemma EscapeRoundTrip(rule: Rule, css: string)
    ensures Unescape(EscapeWith(rule, css)) == NulReplaced(css)
  {
    if css == "-" {
      assert "\\-"[2..] == [];
      assert css[1..] == [];
    } else {
      ChunksRoundTrip(rule, css, 0, StartsWith(css, "-"));
      assert css[0..] == css;
    }
  }

  // ---------------------------------------------------------------------
  // The leading code points

  /** An identifier starting with a digit has it hex-escaped: `\3` and the
      digit, then a space. */
  lemma LeadingDigitEscaped(rule: Rule, css: string)
    requires |css| >= 1 && IsDigit(css[0])
    ensures EscapeWith(rule, css) == "\\3" + [css[0]] + " " + Chunks(rule, css, 1, false)
  {
    var d := css[0] as int - '0' as int;
    assert Hex(css[0] as int) == Hex(3) + [HexDigit(d)];
  }

  /** An input starting with `-` and longer than that: the `-` is copied
      and the rest takes its chunks. */
  lemma DashPrefix(rule: Rule, css: string)
    requires |css| >= 2 && css[0] == '-'
    ensures EscapeWith(rule, css) == ['-'] + (Chunk(rule, css[1], 1, true) + Chunks(rule, css, 2, true))
  {
    assert StartsWith(css, "-");
    assert css != "-";
    assert Chunk(rule, css[0], 0, true) == ['-'];
    assert Chunks(rule, css, 0, true) == ['-'] + Chunks(rule, css, 1, true);
  }

  /** As written, a leading `-` makes the next code point a hex escape,
      whatever it is, NUL aside. */
  lemma DashPrefixEscapesSecond(css: string)
    requires |css| >= 2 && css[0] == '-' && css[1] != '\0'
    ensures Escape(css) == ['-'] + ("\\" + Hex(css[1] as int) + " ") + Chunks(AsWritten, css, 2, true)
  {
    DashPrefix(AsWritten, css);
    AppendAssoc(['-'], Chunk(AsWritten, css[1], 1, true), Chunks(AsWritten, css, 2, true));
  }

  /** Under the CSSOM rule, a leading `-` only makes a following digit a hex
      escape; any other code point takes the chunk it has anywhere else. */
  lemma CssomDashPrefix(css: string)
    requires |css| >= 2 && css[0] == '-'
    ensures IsDigit(css[1]) ==> CssomEscape(css) == ['-'] + ("\\" + Hex(css[1] as int) + " ") + Chunks(Cssom, css, 2, true)
    ensures !IsDigit(css[1]) ==> CssomEscape(css) == ['-'] + Chunk(Cssom, css[1], 2, true) + Chunks(Cssom, css, 2, true)
  {
    DashPrefix(Cssom, css);
    AppendAssoc(['-'], Chunk(Cssom, css[1], 1, true), Chunks(Cssom, css, 2, true));
  }

  /** `-a` is escaped to `-\61 ` as written, where CSSOM leaves it alone. */
  lemma EscapeDashLetterDeviates()
    ensures Escape("-a") == "-\\61 "
    ensures CssomEscape("-a") == "-a"
  {
    assert Hex('a' as int) == Hex(6) + [HexDigit(1)];
    DashPrefixEscapesSecond("-a");
    assert "-a"[2..] == [];
    CssomDashPrefix("-a");
  }

  // ---------------------------------------------------------------------
  // What is left alone

  /** A plain identifier: only copied code points, no digit first and no
      digit after a leading `-`. */
  predicate PlainIdentifier(css: string) {
    && css != "-"
    && (forall k :: 0 <= k < |css| ==> Copied(css[k]))
    && (|css| >= 1 ==> !IsDigit(css[0]))
    && (|css| >= 2 && css[0] == '-' ==> !IsDigit(css[1]))
  }

  lemma {:induction false} CssomChunksKeep(css: string, i: nat, dash: bool)
    requires i <= |css| && (forall k :: 0 <= k < |css| ==> Copied(css[k]))
    requires i == 0 && |css| >= 1 ==> !IsDigit(css[0])
    requires i <= 1 && |css| >= 2 && dash ==> !IsDigit(css[1])
    ensures Chunks(Cssom, css, i, dash) == css[i..]
    decreases |css| - i
  {
    if i < |css| {
      CssomChunksKeep(css, i + 1, dash);
      assert css[i..] == [css[i]] + css[i + 1..];
    }
  }

  /** The CSSOM rule leaves a plain identifier unchanged. */
  lemma CssomKeepsPlainIdentifier(css: string)
    requires PlainIdentifier(css)
    ensures CssomEscape(css) == css
  {
    CssomChunksKeep(css, 0, StartsWith(css, "-"));
    assert css[0..] == css;
  }

  /** As written, every plain identifier of two or more code points that
      starts with `-` is changed. */
  lemma EscapeChangesDashIdentifier(css: string)
    requires PlainIdentifier(css) && |css| >= 2 && css[0] == '-'
    ensures Escape(css) != css
  {
    DashPrefixEscapesSecond(css);
    assert Escape(css)[1] == '\\';
  }
}
