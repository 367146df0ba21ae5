/** Values in the three spellings a dotenv file may use: bare, in single quotes, and in double quotes. */
module DotenvSpellings {
  import opened Prelude
  import opened Text
  import opened JsText
  import opened Dotenv

  datatype Spelling = Bare | Single | Double

  function Spelled(value: string, how: Spelling): string {
    match how
    case Bare => value
    case Single => "'" + value + "'"
    case Double => "\"" + value + "\""
  }

  function SpellLine(p: Pair, how: Spelling): string {
    p.key + "=" + Spelled(p.value, how)
  }

  /** `v` stands in one pair of equal quotes. */
  predicate Wrapped(v: string) {
    |v| >= 2 && v[0] == v[|v| - 1] && (v[0] == '\'' || v[0] == '"')
  }

  // ----- white space around a value -----

  lemma {:induction false} AllSpace(t: string, space: char -> bool)
    requires forall i :: 0 <= i < |t| ==> space(t[i])
    ensures TrimStart(t, space) == ""
  {
    if t != "" {
      AllSpace(t[1..], space);
    }
  }

  /** White space at the end has no part in the trimmed text. */
  lemma {:induction false} TrimDropsLast(t: string, c: char, space: char -> bool)
    requires space(c)
    ensures Trim(t + [c], space) == Trim(t, space)
  {
    if t == "" {
      assert t + [c] == [c] && [c][1..] == "";
    } else if space(t[0]) {
      assert (t + [c])[1..] == t[1..] + [c];
      TrimDropsLast(t[1..], c, space);
    } else {
      assert (t + [c])[..|t|] == t;
    }
  }

  lemma {:induction false} TrimOfTrimEnd(t: string, space: char -> bool)
    ensures Trim(TrimEnd(t, space), space) == Trim(t, space)
  {
    if t != "" && space(t[|t| - 1]) {
      var front := t[..|t| - 1];
      TrimOfTrimEnd(front, space);
      TrimDropsLast(front, t[|t| - 1], space);
      assert t == front + [t[|t| - 1]];
    }
  }

  lemma {:induction false} TrimEndAfter(a: string, t: string, space: char -> bool)
    requires a != "" && !space(a[|a| - 1])
    ensures TrimEnd(a + t, space) == a + TrimEnd(t, space)
    decreases |t|
  {
    if t == "" {
      assert a + t == a;
    } else if space(t[|t| - 1]) {
      assert (a + t)[..|a + t| - 1] == a + t[..|t| - 1];
      TrimEndAfter(a, t[..|t| - 1], space);
    }
  }

  // ----- a line with any text after the key -----

  lemma KeyedStart(key: string, tail: string)
    requires key != "" && !AppSpace(key[0])
    ensures Trim(StripReturn(key + "=" + tail), AppSpace) == key + "=" + TrimEnd(tail, AppSpace)
  {
    var line := key + "=" + tail;
    var head := key + "=";
    assert line == head + tail;
    assert !AppSpace('=');
    TrimEndAfter(head, tail, AppSpace);
    assert TrimStart(line, AppSpace) == line;
    if StripReturn(line) != line {
      var stripped := StripReturn(line);
      assert stripped == head + tail[..|tail| - 1];
      assert TrimEnd(line, AppSpace) == TrimEnd(stripped, AppSpace);
      assert TrimStart(stripped, AppSpace) == stripped;
    }
  }

  lemma KeyedExport(key: string, tail: string)
    requires '=' !in key
    ensures Exported(key + "=" + tail) <==> Exported(key)
  {
    var line := key + "=" + tail;
    if |key| > |EXPORT| {
      assert line[..|EXPORT|] == key[..|EXPORT|];
    } else if |key| == |EXPORT| {
      assert line[|EXPORT|] == '=';
    } else if |line| > |EXPORT| {
      assert line[..|EXPORT|][|key|] == '=';
    }
  }

  lemma KeyedAssignment(key: string, tail: string)
    requires key != "" && Trimmed(key, AppSpace) && '=' !in key
    ensures ParseAssignment(key + "=" + tail) == Some(Pair(key, Unquote(Trim(tail, AppSpace))))
  {
    var line := key + "=" + tail;
    assert line == key + ['='] + tail;
    BeforeIs(key, tail, '=');
    assert line[|key|] == '=';
    assert line[|key| + 1..] == tail;
    TrimmedStays(key, AppSpace);
  }

  /** A key that can be printed gets what is in the trimmed text after it: all of it, or, if that stands in
      one pair of equal quotes, what is between them. */
  lemma KeyedLine(key: string, tail: string)
    requires Printable(Pair(key, ""))
    ensures var v := Trim(tail, AppSpace);
            && ParseLine(key + "=" + tail).Some? && ParseLine(key + "=" + tail).value.key == key
            && var value := ParseLine(key + "=" + tail).value.value;
               && (!Wrapped(v) ==> value == v)
               && (Wrapped(v) ==> v == [v[0]] + value + [v[0]])
  {
    KeyedParse(key, tail);
    hide Trim, ParseLine, Printable, AppSpace;
    UnquoteMeans(Trim(tail, AppSpace));
  }

  lemma KeyedParse(key: string, tail: string)
    requires Printable(Pair(key, ""))
    ensures ParseLine(key + "=" + tail) == Some(Pair(key, Unquote(Trim(tail, AppSpace))))
  {
    hide Trim, TrimEnd, ParseAssignment, StripReturn, AppSpace, Unquote;
    KeyedStart(key, tail);
    var rest := TrimEnd(tail, AppSpace);
    KeyedExport(key, rest);
    KeyedAssignment(key, rest);
    TrimOfTrimEnd(tail, AppSpace);
    assert (key + "=" + rest)[0] == key[0];
  }

  lemma UnquoteMeans(v: string)
    ensures !Wrapped(v) ==> Unquote(v) == v
    ensures Wrapped(v) ==> v == [v[0]] + Unquote(v) + [v[0]]
  {
    if Wrapped(v) {
      assert v == [v[0]] + v[1..|v| - 1] + [v[0]];
    }
  }

  // ----- the spellings -----

  /** A bare value must have no white space around it and not stand in quotes. */
  predicate Readable(p: Pair, how: Spelling) {
    Printable(p) && (how == Bare ==> Trimmed(p.value, AppSpace) && !Wrapped(p.value))
  }

  lemma QuotedTrimmed(value: string, how: Spelling)
    requires how != Bare
    ensures Trim(Spelled(value, how), AppSpace) == Spelled(value, how)
    ensures Wrapped(Spelled(value, how)) && Spelled(value, how)[1..|value| + 1] == value
  {
    TrimmedStays(Spelled(value, how), AppSpace);
  }

  lemma BareTrimmed(value: string)
    ensures Trim(value, AppSpace) == value <==> Trimmed(value, AppSpace)
    ensures |Trim(value, AppSpace)| <= |value|
  {
    TrimResult(value, AppSpace);
    if Trimmed(value, AppSpace) {
      TrimmedStays(value, AppSpace);
    }
  }

  /** A line in any spelling is read back exactly when its pair is readable in that spelling. */
  lemma SpelledLineReads(p: Pair, how: Spelling)
    requires Tidy(p)
    ensures ParseLine(SpellLine(p, how)) == Some(p) <==> Readable(p, how)
  {
    if Printable(p) {
      KeyedLine(p.key, Spelled(p.value, how));
      if how == Bare {
        BareTrimmed(p.value);
      } else {
        QuotedTrimmed(p.value, how);
      }
    } else {
      Unprintable(p, how);
    }
  }

  /** A key that is a comment or an export is not read back, whatever follows it. */
  lemma Unprintable(p: Pair, how: Spelling)
    requires Tidy(p) && !Printable(p)
    ensures ParseLine(SpellLine(p, how)) != Some(p)
  {
    var tail := Spelled(p.value, how);
    KeyedStart(p.key, tail);
    var rest := TrimEnd(tail, AppSpace);
    KeyedExport(p.key, rest);
    var line := p.key + "=" + rest;
    assert line[0] == p.key[0];
    if p.key[0] != '#' {
      ExportedShorter(p, rest);
    }
  }

  lemma ExportedShorter(p: Pair, rest: string)
    requires Tidy(p) && Exported(p.key)
    ensures var r := ParseAssignment(Trim((p.key + "=" + rest)[|EXPORT|..], AppSpace)); r.Some? ==> r.value.key != p.key
  {
    var tail := p.key[|EXPORT|..];
    var line := p.key + "=" + rest;
    assert line[|EXPORT|..] == tail + "=" + rest;
    TrimStartAppend(tail, "=" + rest);
    assert tail + ("=" + rest) == tail + "=" + rest;
    var key := TrimStart(tail, AppSpace);
    assert SliceAt(tail, p.key, |EXPORT|);
    SliceAvoids(tail, p.key, |EXPORT|, '=');
    SliceAvoids(key, tail, |tail| - |key|, '=');
    TrimEndAfter(key + "=", rest, AppSpace);
    assert key + ("=" + rest) == key + "=" + rest;
    KeyedAssignment(key, TrimEnd(rest, AppSpace));
  }

  // ----- lists -----

  function SpellLines(pairs: seq<Pair>, how: seq<Spelling>): seq<string>
    requires |how| == |pairs|
  {
    seq(|pairs|, i requires 0 <= i < |pairs| => SpellLine(pairs[i], how[i]))
  }

  function Spell(pairs: seq<Pair>, how: seq<Spelling>): string
    requires |how| == |pairs|
  {
    Join(SpellLines(pairs, how), '\n')
  }

  lemma SpellSplits(pairs: seq<Pair>, how: seq<Spelling>)
    requires |how| == |pairs| && pairs != [] && forall i :: 0 <= i < |pairs| ==> Tidy(pairs[i])
    ensures Parse(Spell(pairs, how)) == Collect(SpellLines(pairs, how))
  {
    SplitJoin(SpellLines(pairs, how), '\n');
  }

  /** A list of pairs, each in a spelling of its own, is read back in order and with duplicates exactly
      when each pair is readable in its spelling. */
  lemma SpelledParse(pairs: seq<Pair>, how: seq<Spelling>)
    requires |how| == |pairs|
    ensures Parse(Spell(pairs, how)) == pairs <==> forall i :: 0 <= i < |pairs| ==> Readable(pairs[i], how[i])
  {
    if pairs == [] {
      EmptyParses();
    } else if forall i :: 0 <= i < |pairs| ==> Tidy(pairs[i]) {
      SpellSplits(pairs, how);
      SpelledCollect(pairs, how);
    } else {
      hide Parse, Spell;
      ParseTidy(Spell(pairs, how));
    }
  }

  lemma SpelledCollect(pairs: seq<Pair>, how: seq<Spelling>)
    requires |how| == |pairs| && forall i :: 0 <= i < |pairs| ==> Tidy(pairs[i])
    ensures Collect(SpellLines(pairs, how)) == pairs <==> forall i :: 0 <= i < |pairs| ==> Readable(pairs[i], how[i])
  {
    hide ParseLine, Tidy, SpellLine, Readable, Collect;
    var lines := SpellLines(pairs, how);
    forall i | 0 <= i < |pairs| ensures ParseLine(lines[i]) == Some(pairs[i]) <==> Readable(pairs[i], how[i]) {
      SpelledLineReads(pairs[i], how[i]);
    }
    CollectAtMost(lines);
    if forall i :: 0 <= i < |pairs| ==> Readable(pairs[i], how[i]) {
      CollectAll(lines, pairs);
    }
  }

  // ----- lines that say nothing -----

  lemma TrimOfStripped(line: string)
    ensures Trim(StripReturn(line), AppSpace) == Trim(line, AppSpace)
  {
    if StripReturn(line) != line {
      TrimDropsLast(StripReturn(line), '\r', AppSpace);
      assert line == StripReturn(line) + ['\r'];
    }
  }

  /** Blank lines, comments and lines without an equals sign give no pair. */
  lemma NoPair(line: string)
    requires var t := Trim(line, AppSpace); t == "" || t[0] == '#' || '=' !in line
    ensures ParseLine(line) == None
  {
    TrimOfStripped(line);
    if '=' !in line {
      TrimAvoids(line, '=');
      var t := Trim(line, AppSpace);
      if Exported(t) {
        assert SliceAt(t[|EXPORT|..], t, |EXPORT|);
        SliceAvoids(t[|EXPORT|..], t, |EXPORT|, '=');
        TrimAvoids(t[|EXPORT|..], '=');
      }
    }
  }
}
