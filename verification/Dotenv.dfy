/** `parse_dotenv` of `packages/gateway-rust/src/app_config.rs`: dotenv text as ordered key/value pairs. */
module Dotenv {
  import opened Prelude
  import opened Text
  import opened JsText

  datatype Pair = Pair(key: string, value: string)

  const EXPORT := "export"

  // ----- one line -----

  function StripReturn(line: string): string {
    if line != "" && line[|line| - 1] == '\r' then line[..|line| - 1] else line
  }

  /** `export KEY=...`: the word goes only when white space follows it. */
  predicate Exported(line: string) {
    |line| > |EXPORT| && line[..|EXPORT|] == EXPORT && RustSpace(line[|EXPORT|])
  }

  function Before(line: string, c: char): string {
    if line == "" || line[0] == c then "" else [line[0]] + Before(line[1..], c)
  }

  function Unquote(value: string): string {
    if |value| >= 2 && value[0] == value[|value| - 1] && (value[0] == '"' || value[0] == '\'')
    then value[1..|value| - 1]
    else value
  }

  function ParseAssignment(line: string): Option<Pair> {
    if '=' !in line then None
    else
      var rawKey := Before(line, '=');
      BeforeSplits(line, '=');
      var key := Trim(rawKey, AppSpace);
      if key == "" then None
      else Some(Pair(key, Unquote(Trim(line[|rawKey| + 1..], AppSpace))))
  }

  function ParseLine(rawLine: string): Option<Pair> {
    var line := Trim(StripReturn(rawLine), AppSpace);
    if line == "" || line[0] == '#' then None
    else ParseAssignment(if Exported(line) then Trim(line[|EXPORT|..], AppSpace) else line)
  }

  lemma {:induction false} BeforeSplits(line: string, c: char)
    requires c in line
    ensures var b := Before(line, c);
            |b| < |line| && line[..|b|] == b && line[|b|] == c && c !in b
  {
    if line[0] != c {
      assert c in line[1..];
      BeforeSplits(line[1..], c);
    }
  }

  lemma {:induction false} BeforeIs(a: string, b: string, c: char)
    requires c !in a
    ensures Before(a + [c] + b, c) == a
  {
    if a == "" {
      assert a + [c] + b == [c] + b;
    } else {
      assert a[0] in a && forall x :: x in a[1..] ==> x in a;
      assert (a + [c] + b)[1..] == a[1..] + [c] + b;
      BeforeIs(a[1..], b, c);
    }
  }

  // ----- the whole text -----

  function Collect(lines: seq<string>): seq<Pair> {
    if lines == [] then []
    else
      var last := ParseLine(lines[|lines| - 1]);
      Collect(lines[..|lines| - 1]) + (if last.Some? then [last.value] else [])
  }

  function Parse(contents: string): seq<Pair> {
    Collect(Split(contents, '\n'))
  }

  method ParseDotenv(contents: string) returns (pairs: seq<Pair>)
    ensures pairs == Parse(contents)
  {
    hide Trim, Unquote, StripReturn, Before, Split;
    pairs := [];
    var lines := Split(contents, '\n');
    for i := 0 to |lines|
      invariant pairs == Collect(lines[..i])
    {
      assert lines[..i + 1][..i] == lines[..i];
      var line := Trim(StripReturn(lines[i]), AppSpace);
      if line == "" || line[0] == '#' {
        continue;
      }
      if Exported(line) {
        line := Trim(line[|EXPORT|..], AppSpace);
      }
      if '=' !in line {
        continue;
      }
      var rawKey := Before(line, '=');
      BeforeSplits(line, '=');
      var key := Trim(rawKey, AppSpace);
      if key == "" {
        continue;
      }
      pairs := pairs + [Pair(key, Unquote(Trim(line[|rawKey| + 1..], AppSpace)))];
    }
    assert lines[..|lines|] == lines;
  }

  // ----- lines do not influence one another -----

  lemma {:induction false} CollectConcat(a: seq<string>, b: seq<string>)
    ensures Collect(a + b) == Collect(a) + Collect(b)
    decreases |b|
  {
    if b == [] {
      assert a + b == a;
    } else {
      assert (a + b)[..|a + b| - 1] == a + b[..|b| - 1];
      CollectConcat(a, b[..|b| - 1]);
    }
  }

  /** Two texts with a newline between them parse to the pairs of the one, then of the other. */
  lemma ParseConcat(a: string, b: string)
    ensures Parse(a + "\n" + b) == Parse(a) + Parse(b)
  {
    SplitConcat(a, b, '\n');
    CollectConcat(Split(a, '\n'), Split(b, '\n'));
  }

  // ----- what a parsed pair looks like -----

  lemma {:induction false} SliceAvoids(t: string, s: string, i: nat, c: char)
    requires SliceAt(t, s, i) && c !in s
    ensures c !in t
  {
    assert forall k :: 0 <= k < |t| ==> t[k] == s[i + k];
  }

  lemma TrimAvoids(s: string, c: char)
    requires c !in s
    ensures c !in Trim(s, AppSpace)
  {
    TrimResult(s, AppSpace);
    var i: nat :| SliceAt(Trim(s, AppSpace), s, i);
    SliceAvoids(Trim(s, AppSpace), s, i, c);
  }

  /** Keys come out non-empty, trimmed and without `=`; nothing comes out with a newline. */
  predicate Tidy(p: Pair) {
    && p.key != "" && Trimmed(p.key, AppSpace) && '=' !in p.key && '\n' !in p.key
    && '\n' !in p.value
  }

  lemma AssignmentTidy(line: string)
    requires '\n' !in line
    ensures ParseAssignment(line).Some? ==>
              Tidy(ParseAssignment(line).value) && |ParseAssignment(line).value.key| < |line|
  {
    if ParseAssignment(line).Some? {
      BeforeSplits(line, '=');
      var rawKey := Before(line, '=');
      var rawValue := line[|rawKey| + 1..];
      SliceAvoids(rawKey, line, 0, '\n');
      SliceAvoids(rawValue, line, |rawKey| + 1, '\n');
      TrimResult(rawKey, AppSpace);
      TrimAvoids(rawKey, '\n');
      TrimAvoids(rawKey, '=');
      TrimAvoids(rawValue, '\n');
      var v := Trim(rawValue, AppSpace);
      assert Unquote(v) != v ==> SliceAt(Unquote(v), v, 1);
      if Unquote(v) != v {
        SliceAvoids(Unquote(v), v, 1, '\n');
      }
    }
  }

  lemma LineTidy(raw: string)
    requires '\n' !in raw
    ensures ParseLine(raw).Some? ==> Tidy(ParseLine(raw).value)
  {
    var stripped := StripReturn(raw);
    SliceAvoids(stripped, raw, 0, '\n');
    TrimAvoids(stripped, '\n');
    var line := Trim(stripped, AppSpace);
    if Exported(line) {
      SliceAvoids(line[|EXPORT|..], line, |EXPORT|, '\n');
      TrimAvoids(line[|EXPORT|..], '\n');
      AssignmentTidy(Trim(line[|EXPORT|..], AppSpace));
    } else {
      AssignmentTidy(line);
    }
  }

  // ----- printing -----

  function PrintLine(p: Pair): string {
    p.key + "=\"" + p.value + "\""
  }

  function PrintLines(pairs: seq<Pair>): seq<string> {
    seq(|pairs|, i requires 0 <= i < |pairs| => PrintLine(pairs[i]))
  }

  function Print(pairs: seq<Pair>): string {
    Join(PrintLines(pairs), '\n')
  }

  /** The keys and values that survive printing. */
  predicate Printable(p: Pair) {
    Tidy(p) && p.key[0] != '#' && !Exported(p.key)
  }

  lemma PrintedLine(p: Pair)
    requires p.key != "" && !AppSpace(p.key[0])
    ensures Trim(StripReturn(PrintLine(p)), AppSpace) == PrintLine(p)
  {
    TrimmedStays(PrintLine(p), AppSpace);
  }

  lemma ExportedPrint(p: Pair)
    requires '=' !in p.key
    ensures Exported(PrintLine(p)) <==> Exported(p.key)
  {
    var line := PrintLine(p);
    if |p.key| > |EXPORT| {
      assert line[..|EXPORT|] == p.key[..|EXPORT|];
    } else if |p.key| == |EXPORT| {
      assert line[|EXPORT|] == '=';
    } else if |line| > |EXPORT| {
      assert line[..|EXPORT|][|p.key|] == '=';
    }
  }

  lemma PrintedAssignment(p: Pair)
    requires Tidy(p)
    ensures ParseAssignment(PrintLine(p)) == Some(p)
  {
    var line, quoted := PrintLine(p), "\"" + p.value + "\"";
    assert line == p.key + ['='] + quoted;
    BeforeIs(p.key, quoted, '=');
    assert line[|p.key|] == '=';
    assert line[|p.key| + 1..] == quoted;
    TrimmedStays(p.key, AppSpace);
    TrimmedStays(quoted, AppSpace);
    assert quoted[1..|quoted| - 1] == p.value;
  }

  lemma {:induction false} TrimStartAppend(a: string, q: string)
    requires a != "" && !AppSpace(a[|a| - 1])
    ensures TrimStart(a + q, AppSpace) == TrimStart(a, AppSpace) + q
    ensures var t := TrimStart(a, AppSpace);
            0 < |t| <= |a| && t[|t| - 1] == a[|a| - 1] && SliceAt(t, a, |a| - |t|) && !AppSpace(t[0])
  {
    if AppSpace(a[0]) {
      assert (a + q)[1..] == a[1..] + q;
      TrimStartAppend(a[1..], q);
      var t := TrimStart(a, AppSpace);
      assert a[1..][|a| - 1 - |t|..] == a[|a| - |t|..];
    }
  }

  lemma ExportedTail(p: Pair)
    requires Tidy(p) && Exported(p.key)
    ensures var q := Pair(TrimStart(p.key[|EXPORT|..], AppSpace), p.value);
            && |q.key| < |p.key| && Tidy(q)
            && Trim(PrintLine(p)[|EXPORT|..], AppSpace) == PrintLine(q)
  {
    var tail, quoted := p.key[|EXPORT|..], "=\"" + p.value + "\"";
    assert PrintLine(p)[|EXPORT|..] == tail + quoted;
    TrimStartAppend(tail, quoted);
    var q := Pair(TrimStart(tail, AppSpace), p.value);
    hide TrimStart, AppSpace;
    assert SliceAt(tail, p.key, |EXPORT|);
    SliceAvoids(tail, p.key, |EXPORT|, '=');
    SliceAvoids(tail, p.key, |EXPORT|, '\n');
    SliceAvoids(q.key, tail, |tail| - |q.key|, '=');
    SliceAvoids(q.key, tail, |tail| - |q.key|, '\n');
    assert q.key + quoted == PrintLine(q);
    QuoteEnds(q);
  }

  lemma QuoteEnds(q: Pair)
    ensures TrimEnd(PrintLine(q), AppSpace) == PrintLine(q)
  {
    assert PrintLine(q)[|PrintLine(q)| - 1] == '"';
  }

  /** A key that starts with `export` and a space comes back without it. */
  lemma ExportedKeyShrinks(p: Pair)
    requires Tidy(p) && Exported(p.key)
    ensures ParseLine(PrintLine(p)) == Some(Pair(TrimStart(p.key[|EXPORT|..], AppSpace), p.value))
    ensures |TrimStart(p.key[|EXPORT|..], AppSpace)| < |p.key|
  {
    hide Tidy, Trim, ParseAssignment, StripReturn, PrintLine, TrimStart, Exported;
    KeyStarts(p);
    PrintedLine(p);
    ExportedPrint(p);
    ExportedTail(p);
    PrintedAssignment(Pair(TrimStart(p.key[|EXPORT|..], AppSpace), p.value));
  }

  lemma KeyStarts(p: Pair)
    requires Tidy(p)
    ensures p.key != "" && !AppSpace(p.key[0]) && '=' !in p.key && PrintLine(p) != "" && PrintLine(p)[0] == p.key[0]
    ensures Exported(p.key) ==> p.key[0] == 'e' && |p.key| > |EXPORT|
  {
    hide AppSpace;
    assert EXPORT[0] == 'e';
    assert Exported(p.key) ==> p.key[..|EXPORT|][0] == 'e';
  }

  /** One printed pair is read back exactly when it is printable. */
  lemma PrintedLineReads(p: Pair)
    requires Tidy(p)
    ensures ParseLine(PrintLine(p)) == Some(p) <==> Printable(p)
  {
    PrintedLine(p);
    ExportedPrint(p);
    if Exported(p.key) {
      ExportedKeyShrinks(p);
    } else {
      PrintedAssignment(p);
    }
  }

  // ----- the round trip -----

  lemma {:induction false} CollectAtMost(lines: seq<string>)
    ensures |Collect(lines)| <= |lines|
    ensures |Collect(lines)| == |lines| ==>
              forall i :: 0 <= i < |lines| ==> ParseLine(lines[i]) == Some(Collect(lines)[i])
  {
    hide ParseLine;
    if lines != [] {
      CollectAtMost(lines[..|lines| - 1]);
    }
  }

  lemma {:induction false} CollectAll(lines: seq<string>, pairs: seq<Pair>)
    requires |lines| == |pairs|
    requires forall i :: 0 <= i < |lines| ==> ParseLine(lines[i]) == Some(pairs[i])
    ensures Collect(lines) == pairs
  {
    hide ParseLine;
    if lines != [] {
      CollectAll(lines[..|lines| - 1], pairs[..|pairs| - 1]);
    }
  }

  lemma {:induction false} CollectTidy(lines: seq<string>)
    requires forall i :: 0 <= i < |lines| ==> '\n' !in lines[i]
    ensures forall i :: 0 <= i < |Collect(lines)| ==> Tidy(Collect(lines)[i])
  {
    hide ParseLine;
    if lines != [] {
      CollectTidy(lines[..|lines| - 1]);
      LineTidy(lines[|lines| - 1]);
    }
  }

  /** Everything the parser returns is tidy, whatever the text. */
  lemma ParseTidy(contents: string)
    ensures forall i :: 0 <= i < |Parse(contents)| ==> Tidy(Parse(contents)[i])
  {
    CollectTidy(Split(contents, '\n'));
  }

  lemma PrintSplits(pairs: seq<Pair>)
    requires pairs != [] && forall i :: 0 <= i < |pairs| ==> Tidy(pairs[i])
    ensures Parse(Print(pairs)) == Collect(PrintLines(pairs))
  {
    SplitJoin(PrintLines(pairs), '\n');
  }

  lemma EmptyParses()
    ensures Parse("") == []
  {
    assert Split("", '\n') == [""];
    assert [""][..0] == [];
    assert ParseLine("") == None;
  }

  /** Printing pairs as KEY="VALUE" lines and parsing gives the pairs back, in order and with
      duplicates, exactly when every one of them is printable. */
  lemma PrintParse(pairs: seq<Pair>)
    ensures Parse(Print(pairs)) == pairs <==> forall i :: 0 <= i < |pairs| ==> Printable(pairs[i])
  {
    if pairs == [] {
      EmptyParses();
    } else if forall i :: 0 <= i < |pairs| ==> Tidy(pairs[i]) {
      hide ParseLine, Parse, Print, Tidy, PrintLine, Printable, Collect;
      PrintSplits(pairs);
      var lines := PrintLines(pairs);
      forall i | 0 <= i < |pairs|
        ensures ParseLine(lines[i]) == Some(pairs[i]) <==> Printable(pairs[i])
      {
        PrintedLineReads(pairs[i]);
      }
      CollectAtMost(lines);
      if forall i :: 0 <= i < |pairs| ==> Printable(pairs[i]) {
        CollectAll(lines, pairs);
      }
    } else {
      ParseTidy(Print(pairs));
    }
  }

  /** A key with a space inside is accepted, although the comment above the parser says otherwise. */
  lemma SpacedKeyAccepted()
    ensures Parse(Print([Pair("A B", "1")])) == [Pair("A B", "1")]
  {
    var p := Pair("A B", "1");
    assert Printable(p);
    hide Parse, Print;
    PrintParse([p]);
  }
}
