/**
 The generated shell-integration module (`packages/gateway-rust/src/embed_shell_integration.rs`):
 printing text as JSON strings and scripts as arrays of lines, with the readers that undo it. The
 string reader is section 7 of RFC 8259.
 */
module JsonString {
  import opened Prelude
  import opened Text

  // ----- hexadecimal -----

  function HexDigit(d: nat): char
    requires d < 16
  {
    if d < 10 then ('0' as int + d) as char else ('a' as int + d - 10) as char
  }

  function HexValue(c: char): Option<nat> {
    if '0' <= c <= '9' then Some(c as int - '0' as int)
    else if 'a' <= c <= 'f' then Some(c as int - 'a' as int + 10)
    else if 'A' <= c <= 'F' then Some(c as int - 'A' as int + 10)
    else None
  }

  /** `{:04x}` of a code below 65536. */
  function Hex4(n: nat): (s: string)
    requires n < 0x10000
    ensures |s| == 4
  {
    [HexDigit(n / 4096), HexDigit(n / 256 % 16), HexDigit(n / 16 % 16), HexDigit(n % 16)]
  }

  function ReadHex4(s: string): Option<nat>
    requires |s| >= 4
  {
    var a, b, c, d := HexValue(s[0]), HexValue(s[1]), HexValue(s[2]), HexValue(s[3]);
    if a.None? || b.None? || c.None? || d.None? then None
    else Some(a.value * 4096 + b.value * 256 + c.value * 16 + d.value)
  }

  // ----- printing -----

  function Escape(c: char): string {
    if c == '"' then "\\\""
    else if c == '\\' then "\\\\"
    else if c == '\U{0008}' then "\\b"
    else if c == '\U{000C}' then "\\f"
    else if c == '\n' then "\\n"
    else if c == '\r' then "\\r"
    else if c == '\t' then "\\t"
    else if c < ' ' then "\\u" + Hex4(c as int)
    else [c]
  }

  function EscapeAll(value: string): string {
    if value == "" then "" else EscapeAll(value[..|value| - 1]) + Escape(value[|value| - 1])
  }

  function Quote(value: string): string {
    "\"" + EscapeAll(value) + "\""
  }

  method EscapedChar(c: char) returns (piece: string)
    ensures piece == Escape(c)
  {
    match c {
      case '"' => piece := "\\\"";
      case '\\' => piece := "\\\\";
      case '\U{0008}' => piece := "\\b";
      case '\U{000C}' => piece := "\\f";
      case '\n' => piece := "\\n";
      case '\r' => piece := "\\r";
      case '\t' => piece := "\\t";
      case _ => piece := if c < ' ' then "\\u" + Hex4(c as int) else [c];
    }
  }

  method JsonStringOf(value: string) returns (out: string)
    ensures out == Quote(value)
  {
    hide Escape;
    out := "\"";
    for i := 0 to |value|
      invariant out == "\"" + EscapeAll(value[..i])
    {
      assert value[..i + 1][..i] == value[..i];
      var piece := EscapedChar(value[i]);
      ghost var sofar := EscapeAll(value[..i]);
      out := out + piece;
      assert "\"" + sofar + piece == "\"" + (sofar + piece);
    }
    assert value[..|value|] == value;
    out := out + ['"'];
  }

  // ----- reading one string -----

  /** A Unicode scalar value for a code unit, or for a surrogate pair. */
  function FromUnit(u: nat): Option<char> {
    if u < 0xD800 || 0xE000 <= u < 0x10000 then Some(u as char) else None
  }

  function FromPair(hi: nat, lo: nat): Option<char> {
    if 0xD800 <= hi < 0xDC00 && 0xDC00 <= lo < 0xE000
    then Some((0x10000 + (hi - 0xD800) * 0x400 + (lo - 0xDC00)) as char)
    else None
  }

  /** One escape sequence after the backslash: its character and its length. */
  function ReadEscape(s: string): (r: Option<(char, nat)>)
    ensures r.Some? ==> 0 < r.value.1 <= |s|
  {
    if s == "" then None
    else if s[0] == '"' || s[0] == '\\' || s[0] == '/' then Some((s[0], 1))
    else if s[0] == 'b' then Some(('\U{0008}', 1))
    else if s[0] == 'f' then Some(('\U{000C}', 1))
    else if s[0] == 'n' then Some(('\n', 1))
    else if s[0] == 'r' then Some(('\r', 1))
    else if s[0] == 't' then Some(('\t', 1))
    else if s[0] == 'u' && |s| >= 5 then
      match ReadHex4(s[1..])
      case None => None
      case Some(u) =>
        if FromUnit(u).Some? then Some((FromUnit(u).value, 5))
        else if |s| >= 11 && s[5] == '\\' && s[6] == 'u' then
          match ReadHex4(s[7..])
          case None => None
          case Some(lo) => if FromPair(u, lo).Some? then Some((FromPair(u, lo).value, 11)) else None
        else None
    else None
  }

  /** The characters up to the closing quote, with the text after it. */
  function ReadChars(s: string): (r: Option<(string, string)>)
    ensures r.Some? ==> |r.value.1| < |s|
    decreases |s|
  {
    if s == "" || s[0] < ' ' then None
    else if s[0] == '"' then Some(("", s[1..]))
    else if s[0] == '\\' then
      match ReadEscape(s[1..])
      case None => None
      case Some((c, n)) =>
        match ReadChars(s[1 + n..])
        case None => None
        case Some((more, rest)) => Some(([c] + more, rest))
    else
      match ReadChars(s[1..])
      case None => None
      case Some((more, rest)) => Some(([s[0]] + more, rest))
  }

  function ReadString(s: string): (r: Option<(string, string)>)
    ensures r.Some? ==> |r.value.1| < |s|
  {
    if s != "" && s[0] == '"' then ReadChars(s[1..]) else None
  }

  // ----- one string, there and back -----

  lemma HexRoundTrip(n: nat, rest: string)
    requires n < 0x10000
    ensures ReadHex4(Hex4(n) + rest) == Some(n)
  {
    assert n == n / 4096 * 4096 + n / 256 % 16 * 256 + n / 16 % 16 * 16 + n % 16 by {
      assert n / 256 == n / 16 / 16 && n / 4096 == n / 256 / 16;
    }
  }

  /** What reading `c` first adds to reading the rest. */
  function Prepend(c: char, r: Option<(string, string)>): Option<(string, string)> {
    match r case None => None case Some((more, after)) => Some(([c] + more, after))
  }

  lemma ReadUnicode(c: char, rest: string)
    requires c < ' '
    ensures ReadChars("\\u" + Hex4(c as int) + rest) == Prepend(c, ReadChars(rest))
  {
    HexRoundTrip(c as int, rest);
    hide Hex4, ReadHex4;
    var s := "\\u" + Hex4(c as int) + rest;
    assert s[1..] == "u" + Hex4(c as int) + rest;
    assert s[1..][1..] == Hex4(c as int) + rest;
    assert s[6..] == rest;
  }

  lemma ReadShort(c: char, e: char, rest: string)
    requires (c, e) in {('"', '"'), ('\\', '\\'), ('\U{0008}', 'b'), ('\U{000C}', 'f'), ('\n', 'n'), ('\r', 'r'), ('\t', 't')}
    ensures ReadChars("\\" + [e] + rest) == Prepend(c, ReadChars(rest))
  {
    hide ReadHex4;
    var s := "\\" + [e] + rest;
    assert s[0] == '\\' && s[1] == e && s[1..][0] == e;
    assert s[2..] == rest;
    assert |s| >= 2;
  }

  lemma ReadPlain(c: char, rest: string)
    requires c >= ' ' && c != '"' && c != '\\'
    ensures ReadChars([c] + rest) == Prepend(c, ReadChars(rest))
  {
    assert ([c] + rest)[1..] == rest;
  }

  lemma ReadEscaped(c: char, rest: string)
    ensures ReadChars(Escape(c) + rest) == Prepend(c, ReadChars(rest))
  {
    hide ReadChars, Hex4, Prepend;
    if |Escape(c)| == 2 {
      var e := Escape(c)[1];
      assert Escape(c) == "\\" + [e];
      ReadShort(c, e, rest);
    } else if c < ' ' {
      ReadUnicode(c, rest);
    } else {
      ReadPlain(c, rest);
    }
  }

  lemma {:induction false} ReadEscapedAll(value: string, rest: string)
    ensures var r := ReadChars(EscapeAll(value) + rest);
            match ReadChars(rest)
            case None => r == None
            case Some((more, after)) => r == Some((value + more, after))
    decreases |value|
  {
    hide ReadChars, Escape;
    if value == "" {
      assert EscapeAll(value) + rest == rest;
      assert ReadChars(rest).Some? ==> value + ReadChars(rest).value.0 == ReadChars(rest).value.0;
    } else {
      var front, c := value[..|value| - 1], value[|value| - 1];
      ReadEscaped(c, rest);
      ReadEscapedAll(front, Escape(c) + rest);
      assert EscapeAll(value) + rest == EscapeAll(front) + (Escape(c) + rest);
      if ReadChars(rest).Some? {
        assert front + ([c] + ReadChars(rest).value.0) == value + ReadChars(rest).value.0;
      }
    }
  }

  /** A printed string reads back, whatever follows it. */
  lemma QuoteRoundTrip(value: string, rest: string)
    ensures ReadString(Quote(value) + rest) == Some((value, rest))
  {
    var tail := "\"" + rest;
    assert (Quote(value) + rest)[1..] == EscapeAll(value) + tail;
    assert tail[1..] == rest;
    ReadEscapedAll(value, tail);
    assert value + "" == value;
  }

  /** Different values print differently, and no printed text is a prefix of another. */
  lemma QuoteInjective(a: string, b: string, s: string, t: string)
    requires Quote(a) + s == Quote(b) + t
    ensures a == b && s == t
  {
    QuoteRoundTrip(a, s);
    QuoteRoundTrip(b, t);
  }

  lemma EscapeVisible(c: char)
    ensures forall i :: 0 <= i < |Escape(c)| ==> Escape(c)[i] >= ' '
  {
  }

  /** Nothing below U+0020 is printed raw. */
  lemma {:induction false} NoRawControls(value: string)
    ensures forall i :: 0 <= i < |EscapeAll(value)| ==> EscapeAll(value)[i] >= ' '
    ensures forall i :: 0 <= i < |Quote(value)| ==> Quote(value)[i] >= ' '
  {
    if value != "" {
      NoRawControls(value[..|value| - 1]);
      EscapeVisible(value[|value| - 1]);
    }
  }

  // ----- scripts as arrays of lines -----

  datatype Script = Script(file: string, name: string, content: string)

  /** The length in UTF-16 code units, which the header calls bytes. */
  function Utf16Length(s: string): nat {
    if s == "" then 0
    else Utf16Length(s[..|s| - 1]) + (if s[|s| - 1] as int >= 0x10000 then 2 else 1)
  }

  function HeaderStart(file: string): string {
    "\n/** Contents of `shell-integration/" + file + "` ("
  }

  function HeaderEnd(name: string): string {
    " bytes). */\nexport const " + name + ": string = [\n"
  }

  const FOOTER := "].join(\"\\n\");\n"

  function LineText(line: string): string {
    "  " + Quote(line) + ",\n"
  }

  function LinesText(lines: seq<string>): string {
    if lines == [] then "" else LinesText(lines[..|lines| - 1]) + LineText(lines[|lines| - 1])
  }

  function BlockText(x: Script): string {
    HeaderStart(x.file) + Padded(Utf16Length(x.content), 1) + HeaderEnd(x.name)
    + LinesText(Split(x.content, '\n')) + FOOTER
  }

  function BlocksText(scripts: seq<Script>): string {
    if scripts == [] then "" else BlocksText(scripts[..|scripts| - 1]) + BlockText(scripts[|scripts| - 1])
  }

  method AppendBlock(before: string, x: Script) returns (out: string)
    ensures out == before + BlockText(x)
  {
    hide Quote, HeaderStart, HeaderEnd, Padded, Value, Utf16Length, Split;
    var head := HeaderStart(x.file) + Padded(Utf16Length(x.content), 1) + HeaderEnd(x.name);
    out := before + head;
    var lines := Split(x.content, '\n');
    for j := 0 to |lines|
      invariant out == before + head + LinesText(lines[..j])
    {
      assert lines[..j + 1][..j] == lines[..j];
      var quoted := JsonStringOf(lines[j]);
      ghost var sofar := LinesText(lines[..j]);
      out := out + ("  " + quoted + ",\n");
      assert before + head + sofar + LineText(lines[j]) == before + head + (sofar + LineText(lines[j]));
    }
    assert lines[..|lines|] == lines;
    out := out + FOOTER;
    assert before + head + LinesText(lines) + FOOTER == before + (head + LinesText(lines) + FOOTER);
  }

  /** The generated module, between its fixed banner and its fixed last lines. */
  method Render(banner: string, scripts: seq<Script>, tail: string) returns (out: string)
    ensures out == banner + BlocksText(scripts) + tail
  {
    hide BlockText;
    out := banner;
    for i := 0 to |scripts|
      invariant out == banner + BlocksText(scripts[..i])
    {
      assert scripts[..i + 1][..i] == scripts[..i];
      ghost var sofar := BlocksText(scripts[..i]);
      out := AppendBlock(out, scripts[i]);
      assert banner + sofar + BlockText(scripts[i]) == banner + (sofar + BlockText(scripts[i]));
    }
    assert scripts[..|scripts|] == scripts;
    out := out + tail;
  }

  // ----- reading the module back -----

  function Skip(prefix: string, s: string): Option<string> {
    if |prefix| <= |s| && s[..|prefix|] == prefix then Some(s[|prefix|..]) else None
  }

  /** The lines of an array literal, up to its closing bracket. */
  function ReadLines(s: string): Option<(seq<string>, string)>
    decreases |s|
  {
    if s != "" && s[0] == ']' then Some(([], s))
    else
      match Skip("  ", s)
      case None => None
      case Some(t) =>
        match ReadString(t)
        case None => None
        case Some((line, u)) =>
          match Skip(",\n", u)
          case None => None
          case Some(v) =>
            match ReadLines(v)
            case None => None
            case Some((lines, rest)) => Some(([line] + lines, rest))
  }

  /** One block: its header with any count, its lines joined by newlines, its footer. */
  function ReadBlock(file: string, name: string, s: string): Option<(string, string)> {
    match Skip(HeaderStart(file), s)
    case None => None
    case Some(t) =>
      match Skip(HeaderEnd(name), t[|DigitRun(t)|..])
      case None => None
      case Some(u) =>
        match ReadLines(u)
        case None => None
        case Some((lines, v)) =>
          match Skip(FOOTER, v)
          case None => None
          case Some(rest) => Some((Join(lines, '\n'), rest))
  }

  /** The contents of the named scripts, in order. */
  function ReadBlocks(scripts: seq<Script>, s: string): Option<(seq<string>, string)> {
    if scripts == [] then Some(([], s))
    else
      match ReadBlock(scripts[0].file, scripts[0].name, s)
      case None => None
      case Some((content, t)) =>
        match ReadBlocks(scripts[1..], t)
        case None => None
        case Some((more, rest)) => Some(([content] + more, rest))
  }

  lemma SkipPrefix(prefix: string, rest: string)
    ensures Skip(prefix, prefix + rest) == Some(rest)
  {
    assert (prefix + rest)[..|prefix|] == prefix && (prefix + rest)[|prefix|..] == rest;
  }

  lemma {:induction false} LinesTextHead(lines: seq<string>)
    requires lines != []
    ensures LinesText(lines) == LineText(lines[0]) + LinesText(lines[1..])
    decreases |lines|
  {
    hide LineText;
    if |lines| == 1 {
      assert LinesText(lines[1..]) == "" && LinesText(lines[..0]) == "";
    } else {
      var front, last := lines[..|lines| - 1], LineText(lines[|lines| - 1]);
      LinesTextHead(front);
      assert lines[1..][..|lines| - 2] == front[1..];
      assert LineText(lines[0]) + LinesText(front[1..]) + last == LineText(lines[0]) + (LinesText(front[1..]) + last);
    }
  }

  lemma ReadOneLine(line: string, rest: string)
    ensures ReadLines(LineText(line) + rest) ==
            match ReadLines(rest)
            case None => None
            case Some((lines, after)) => Some(([line] + lines, after))
  {
    var s := LineText(line) + rest;
    var afterQuote := ",\n" + rest;
    assert s == "  " + (Quote(line) + afterQuote);
    SkipPrefix("  ", Quote(line) + afterQuote);
    QuoteRoundTrip(line, afterQuote);
    SkipPrefix(",\n", rest);
  }

  lemma ReadLinesEnd(rest: string)
    requires rest != "" && rest[0] == ']'
    ensures ReadLines(rest) == Some(([], rest))
  {
  }

  lemma {:induction false} ReadLinesText(lines: seq<string>, rest: string)
    requires rest != "" && rest[0] == ']'
    ensures ReadLines(LinesText(lines) + rest) == Some((lines, rest))
    decreases |lines|
  {
    hide ReadLines, LineText;
    if lines == [] {
      assert LinesText(lines) + rest == rest;
      ReadLinesEnd(rest);
    } else {
      LinesTextHead(lines);
      ReadLinesText(lines[1..], rest);
      ReadOneLine(lines[0], LinesText(lines[1..]) + rest);
      assert LineText(lines[0]) + LinesText(lines[1..]) + rest == LineText(lines[0]) + (LinesText(lines[1..]) + rest);
      assert [lines[0]] + lines[1..] == lines;
    }
  }

  /** A block gives back its script's content exactly, for any text. */
  lemma BlockRoundTrip(x: Script, rest: string)
    ensures ReadBlock(x.file, x.name, BlockText(x) + rest) == Some((x.content, rest))
  {
    hide LinesText, ReadLines, Padded, Value, Split, Join, Utf16Length, HeaderStart, HeaderEnd, DigitRun;
    var count := Padded(Utf16Length(x.content), 1);
    var lines := Split(x.content, '\n');
    var last := FOOTER + rest;
    var body := LinesText(lines) + last;
    var t := count + (HeaderEnd(x.name) + body);
    assert BlockText(x) + rest == HeaderStart(x.file) + t;
    SkipPrefix(HeaderStart(x.file), t);
    CountEnds(count, x.name, body);
    SkipPrefix(HeaderEnd(x.name), body);
    ReadLinesText(lines, last);
    SkipPrefix(FOOTER, rest);
    JoinSplit(x.content, '\n');
  }

  lemma CountEnds(count: string, name: string, body: string)
    requires AllDigits(count)
    ensures var t := count + (HeaderEnd(name) + body);
            DigitRun(t) == count && t[|count|..] == HeaderEnd(name) + body
  {
    var t := count + (HeaderEnd(name) + body);
    assert t[..|count|] == count;
    assert t[|count|] == ' ';
    RunIs(t, |count|);
  }

  lemma {:induction false} BlocksTextHead(scripts: seq<Script>)
    requires scripts != []
    ensures BlocksText(scripts) == BlockText(scripts[0]) + BlocksText(scripts[1..])
    decreases |scripts|
  {
    hide BlockText;
    if |scripts| == 1 {
      assert BlocksText(scripts[1..]) == "" && BlocksText(scripts[..0]) == "";
    } else {
      var front, last := scripts[..|scripts| - 1], BlockText(scripts[|scripts| - 1]);
      BlocksTextHead(front);
      assert scripts[1..][..|scripts| - 2] == front[1..];
      assert BlockText(scripts[0]) + BlocksText(front[1..]) + last
          == BlockText(scripts[0]) + (BlocksText(front[1..]) + last);
    }
  }

  function Contents(scripts: seq<Script>): seq<string> {
    seq(|scripts|, i requires 0 <= i < |scripts| => scripts[i].content)
  }

  /** The whole module gives back every script, in order, whatever they contain. */
  lemma {:induction false} RenderRoundTrip(scripts: seq<Script>, tail: string)
    ensures ReadBlocks(scripts, BlocksText(scripts) + tail) == Some((Contents(scripts), tail))
    decreases |scripts|
  {
    hide BlockText, ReadBlock;
    if scripts == [] {
      assert BlocksText(scripts) + tail == tail;
      assert Contents(scripts) == [];
    } else {
      BlocksTextHead(scripts);
      var rest := BlocksText(scripts[1..]) + tail;
      RenderRoundTrip(scripts[1..], tail);
      BlockRoundTrip(scripts[0], rest);
      assert BlocksText(scripts) + tail == BlockText(scripts[0]) + rest;
      assert [scripts[0].content] + Contents(scripts[1..]) == Contents(scripts);
    }
  }

  // ----- what the generated text is -----

  /** A block is a comment and the declaration of an exported constant of its name: an array literal with
      one string a line, joined by the text that `Quote` prints for a newline. */
  lemma BlockIsDeclaration(x: Script)
    ensures var comment := "/** Contents of `shell-integration/" + x.file + "` (" + Padded(Utf16Length(x.content), 1) + " bytes). */";
            BlockText(x) == "\n" + comment + "\nexport const " + x.name + ": string = [\n"
                            + LinesText(Split(x.content, '\n')) + "].join(" + Quote("\n") + ");\n"
  {
    HeaderParts(x.file, x.name);
    FooterParts();
    hide HeaderStart, HeaderEnd, Padded, LinesText, Utf16Length, Split, Quote;
    Regroup("\n", "/** Contents of `shell-integration/" + x.file + "` (", Padded(Utf16Length(x.content), 1), " bytes). */",
            "\nexport const " + x.name + ": string = [\n", LinesText(Split(x.content, '\n')), "].join(" + Quote("\n") + ");\n");
    Flat("\n" + ("/** Contents of `shell-integration/" + x.file + "` (" + Padded(Utf16Length(x.content), 1) + " bytes). */"),
         "\nexport const ", x.name, ": string = [\n", LinesText(Split(x.content, '\n')), "].join(", Quote("\n"), ");\n");
  }

  lemma Regroup(n: string, a: string, count: string, b: string, c: string, body: string, f: string)
    ensures (n + a) + count + (b + c) + body + f == n + (a + count + b) + c + body + f
  {
    assert (n + a) + count + (b + c) == n + (a + count + b) + c;
  }

  lemma Flat(p: string, d: string, name: string, e: string, body: string, f: string, q: string, g: string)
    ensures p + (d + name + e) + body + (f + q + g) == p + d + name + e + body + f + q + g
  {
    assert p + (d + name + e) == p + d + name + e;
    assert p + d + name + e + body + (f + q + g) == p + d + name + e + body + f + q + g;
  }

  lemma HeaderParts(file: string, name: string)
    ensures HeaderStart(file) == "\n" + ("/** Contents of `shell-integration/" + file + "` (")
    ensures HeaderEnd(name) == " bytes). */" + ("\nexport const " + name + ": string = [\n")
  {
    hide HeaderStart, HeaderEnd;
    StartParts(file);
    EndParts(name);
  }

  lemma StartParts(file: string)
    ensures HeaderStart(file) == "\n" + ("/** Contents of `shell-integration/" + file + "` (")
  {
    assert "\n" + "/** Contents of `shell-integration/" == "\n/** Contents of `shell-integration/";
    Lead("\n", "/** Contents of `shell-integration/", file, "` (");
  }

  lemma EndParts(name: string)
    ensures HeaderEnd(name) == " bytes). */" + ("\nexport const " + name + ": string = [\n")
  {
    assert " bytes). */" + "\nexport const " == " bytes). */\nexport const ";
    Lead(" bytes). */", "\nexport const ", name, ": string = [\n");
  }

  lemma Lead(a: string, b: string, x: string, c: string)
    ensures (a + b) + x + c == a + (b + x + c)
  {
  }

  lemma FooterParts()
    ensures FOOTER == "].join(" + Quote("\n") + ");\n"
  {
    NewlineQuoted();
  }

  lemma NewlineQuoted()
    ensures Quote("\n") == "\"\\n\""
  {
    assert EscapeAll("\n") == EscapeAll("") + Escape('\n') by {
      assert "\n"[..0] == "";
    }
  }
}
