/**
 Readers that cut a chunked text into lines as it arrives: the message stream of
 `packages/api-client/src/client.ts`, and the gateway's standard output in
 `scripts/benchmarks/jait-task.ts`.
 */
module LineStreams {
  import opened Prelude
  import opened Text

  function Flatten(chunks: seq<string>): string {
    if chunks == [] then "" else Flatten(chunks[..|chunks| - 1]) + chunks[|chunks| - 1]
  }

  /** The lines that a newline has ended, and what comes after the last newline. */
  function Complete(text: string): seq<string> {
    var pieces := Split(text, '\n');
    pieces[..|pieces| - 1]
  }

  function Residue(text: string): string {
    var pieces := Split(text, '\n');
    pieces[|pieces| - 1]
  }

  lemma {:induction false} LastNewline(a: string) returns (x: string, r: string)
    requires '\n' in a
    ensures a == x + ['\n'] + r && '\n' !in r
  {
    var front := a[..|a| - 1];
    if a[|a| - 1] == '\n' {
      x, r := front, "";
    } else {
      x, r := LastNewline(front);
      r := r + [a[|a| - 1]];
    }
  }

  /** Splitting more text only continues the residue. */
  lemma SplitMore(a: string, b: string)
    ensures Split(a + b, '\n') == Complete(a) + Split(Residue(a) + b, '\n')
  {
    if '\n' in a {
      var x, r := LastNewline(a);
      hide Split;
      SplitConcat(x, r, '\n');
      SplitWhole(r, '\n');
      SplitConcat(x, r + b, '\n');
      assert x + ['\n'] + (r + b) == a + b;
    } else {
      SplitWhole(a, '\n');
    }
  }

  lemma ResidueMore(a: string, b: string)
    ensures Complete(a + b) == Complete(a) + Complete(Residue(a) + b)
    ensures Residue(a + b) == Residue(Residue(a) + b)
  {
    SplitMore(a, b);
  }

  // ----- the message stream -----

  /** What `JSON.parse` makes of a data line. */
  datatype Payload =
    | Malformed
    | Null
    | Fields(kind: Option<string>, content: Option<string>, message: Option<string>)

  datatype Callback = Delta(content: string) | Done

  datatype Failure = StreamError(message: string) | TypeError

  /** The callbacks made, and the exception that ended the stream, if any. */
  datatype Trace = Trace(calls: seq<Callback>, failure: Option<Failure>)

  const DATA := "data: "

  /** `processLine`, when no exception has been thrown yet. */
  function ProcessLine(line: string, decode: string -> Payload): Trace {
    if |line| < |DATA| || line[..|DATA|] != DATA then Trace([], None)
    else
      match decode(line[|DATA|..])
      case Malformed => Trace([], None)
      case Null => Trace([], Some(TypeError))
      case Fields(kind, content, message) =>
        Trace(
          (if kind == Some("token") && content.Some? && content.value != "" then [Delta(content.value)] else [])
          + (if kind == Some("done") then [Done] else []),
          if kind == Some("error") then
            Some(StreamError(if message.Some? then message.value else "Stream error"))
          else None)
  }

  function Then(t: Trace, line: string, decode: string -> Payload): Trace {
    if t.failure.Some? then t
    else
      var u := ProcessLine(line, decode);
      Trace(t.calls + u.calls, u.failure)
  }

  /** All lines in turn, up to the first exception. */
  function ProcessLines(t: Trace, lines: seq<string>, decode: string -> Payload): Trace {
    if lines == [] then t
    else Then(ProcessLines(t, lines[..|lines| - 1], decode), lines[|lines| - 1], decode)
  }

  const QUIET := Trace([], None)

  // ----- what the lines of a stream say -----

  predicate IsData(line: string) {
    |line| >= 6 && line[..6] == "data: "
  }

  /** A token with this text, which is not empty. */
  predicate SaysDelta(line: string, decode: string -> Payload, text: string) {
    && IsData(line) && text != ""
    && decode(line[6..]).Fields? && decode(line[6..]).kind == Some("token") && decode(line[6..]).content == Some(text)
  }

  predicate SaysDone(line: string, decode: string -> Payload) {
    IsData(line) && decode(line[6..]).Fields? && decode(line[6..]).kind == Some("done")
  }

  predicate Speaks(line: string, decode: string -> Payload) {
    SaysDone(line, decode)
    || (IsData(line) && decode(line[6..]).Fields? && decode(line[6..]).content.Some?
        && SaysDelta(line, decode, decode(line[6..]).content.value))
  }

  /** The line ends the stream with this exception. */
  predicate Throws(line: string, decode: string -> Payload, f: Failure) {
    IsData(line)
    && match f
       case TypeError => decode(line[6..]).Null?
       case StreamError(text) =>
         decode(line[6..]).Fields? && decode(line[6..]).kind == Some("error")
         && (decode(line[6..]).message == Some(text) || (decode(line[6..]).message == None && text == "Stream error"))
  }

  /** The lines that say something, in order. */
  function Spoken(lines: seq<string>, decode: string -> Payload): seq<string> {
    if lines == [] then []
    else
      var last := lines[|lines| - 1];
      Spoken(lines[..|lines| - 1], decode) + if Speaks(last, decode) then [last] else []
  }

  /** One callback for each line that says something. */
  predicate Told(calls: seq<Callback>, spoken: seq<string>, decode: string -> Payload) {
    |calls| == |spoken|
    && forall i :: 0 <= i < |calls| ==>
         match calls[i]
         case Delta(text) => SaysDelta(spoken[i], decode, text)
         case Done => SaysDone(spoken[i], decode)
  }

  /** The trace of some lines: it ends at the first one that throws, with that exception, and has the
      callbacks of the lines before it that say something, in order. */
  ghost predicate TraceOf(t: Trace, lines: seq<string>, decode: string -> Payload) {
    match t.failure
    case None => Told(t.calls, Spoken(lines, decode), decode) && forall i, f :: 0 <= i < |lines| ==> !Throws(lines[i], decode, f)
    case Some(f) =>
      exists k :: 0 <= k < |lines| && Throws(lines[k], decode, f)
                  && Told(t.calls, Spoken(lines[..k], decode), decode)
                  && forall i, g :: 0 <= i < k ==> !Throws(lines[i], decode, g)
  }

  /** What one line does when nothing has been thrown. */
  lemma LineMeans(line: string, decode: string -> Payload)
    ensures var u := ProcessLine(line, decode);
            && (u.failure == None <==> forall f :: !Throws(line, decode, f))
            && (u.failure.Some? ==> Throws(line, decode, u.failure.value) && u.calls == [])
            && (if Speaks(line, decode) then Told(u.calls, [line], decode) && |u.calls| == 1 else u.calls == [])
  {
    assert Throws(line, decode, TypeError) <==> IsData(line) && decode(line[6..]).Null?;
    assert ProcessLine(line, decode).failure.Some? ==> Throws(line, decode, ProcessLine(line, decode).failure.value);
  }

  lemma ThrownBefore(t: Trace, front: seq<string>, last: string, decode: string -> Payload)
    requires TraceOf(t, front, decode) && t.failure.Some?
    ensures TraceOf(t, front + [last], decode)
  {
    hide Throws, Told, Spoken;
    var k :| 0 <= k < |front| && Throws(front[k], decode, t.failure.value)
             && Told(t.calls, Spoken(front[..k], decode), decode)
             && forall i, g :: 0 <= i < k ==> !Throws(front[i], decode, g);
    var lines := front + [last];
    assert lines[..k] == front[..k] && lines[k] == front[k];
    assert forall i :: 0 <= i < k ==> lines[i] == front[i];
  }

  lemma ThrownNow(t: Trace, front: seq<string>, last: string, decode: string -> Payload, f: Failure)
    requires TraceOf(t, front, decode) && t.failure.None? && Throws(last, decode, f)
    ensures TraceOf(Trace(t.calls, Some(f)), front + [last], decode)
  {
    hide Throws, Told, Spoken;
    var lines := front + [last];
    assert lines[..|front|] == front && lines[|front|] == last;
    assert forall i :: 0 <= i < |front| ==> lines[i] == front[i];
  }

  lemma GoesOn(t: Trace, front: seq<string>, last: string, calls: seq<Callback>, decode: string -> Payload)
    requires TraceOf(t, front, decode) && t.failure.None? && forall f :: !Throws(last, decode, f)
    requires if Speaks(last, decode) then Told(calls, [last], decode) && |calls| == 1 else calls == []
    ensures TraceOf(Trace(t.calls + calls, None), front + [last], decode)
  {
    var lines := front + [last];
    assert lines[..|front|] == front;
    assert Spoken(lines, decode) == Spoken(front, decode) + if Speaks(last, decode) then [last] else [];
    hide Throws, Speaks, Spoken, SaysDelta, SaysDone;
    assert forall i :: 0 <= i < |front| ==> lines[i] == front[i];
  }

  lemma {:induction false} StreamMeans(lines: seq<string>, decode: string -> Payload)
    ensures TraceOf(ProcessLines(QUIET, lines, decode), lines, decode)
  {
    if lines != [] {
      var front, last := lines[..|lines| - 1], lines[|lines| - 1];
      StreamMeans(front, decode);
      LineMeans(last, decode);
      assert lines == front + [last];
      hide ProcessLine, Throws, Speaks, Told, TraceOf;
      var t, u := ProcessLines(QUIET, front, decode), ProcessLine(last, decode);
      if t.failure.Some? {
        ThrownBefore(t, front, last, decode);
      } else if u.failure.Some? {
        ThrownNow(t, front, last, decode, u.failure.value);
        assert t.calls + [] == t.calls;
      } else {
        GoesOn(t, front, last, u.calls, decode);
      }
    }
  }

  lemma {:induction false} ProcessConcat(t: Trace, a: seq<string>, b: seq<string>, decode: string -> Payload)
    ensures ProcessLines(t, a + b, decode) == ProcessLines(ProcessLines(t, a, decode), b, decode)
    decreases |b|
  {
    if b == [] {
      assert a + b == a;
    } else {
      assert (a + b)[..|a + b| - 1] == a + b[..|b| - 1];
      ProcessConcat(t, a, b[..|b| - 1], decode);
    }
  }

  lemma {:induction false} FailureSticks(t: Trace, lines: seq<string>, decode: string -> Payload)
    requires t.failure.Some?
    ensures ProcessLines(t, lines, decode) == t
  {
    if lines != [] {
      FailureSticks(t, lines[..|lines| - 1], decode);
    }
  }

  lemma EmptyLine(t: Trace, decode: string -> Payload)
    ensures Then(t, "", decode) == t
  {
    assert t.calls + [] == t.calls;
  }

  lemma {:induction false} FlattenSplit(a: seq<string>, b: seq<string>)
    ensures Flatten(a + b) == Flatten(a) + Flatten(b)
    decreases |b|
  {
    if b == [] {
      assert a + b == a;
      assert Flatten(a) + "" == Flatten(a);
    } else {
      var front, last := b[..|b| - 1], b[|b| - 1];
      FlattenSplit(a, front);
      FlattenLast(a + front, last);
      FlattenLast(front, last);
      hide Flatten;
      assert a + b == (a + front) + [last] && b == front + [last];
      assert Flatten(a) + (Flatten(front) + last) == Flatten(a) + Flatten(front) + last;
    }
  }

  lemma FlattenLast(a: seq<string>, last: string)
    ensures Flatten(a + [last]) == Flatten(a) + last
  {
    assert (a + [last])[..|a|] == a;
  }

  /** The body of `sendMessage` once the response is open: however the text is cut into chunks,
      the callbacks and the exception are those of the whole text's lines in order. */
  method ReceiveMessage(chunks: seq<string>, decode: string -> Payload) returns (t: Trace)
    ensures t == ProcessLines(QUIET, Split(Flatten(chunks), '\n'), decode)
    ensures TraceOf(t, Split(Flatten(chunks), '\n'), decode)
  {
    StreamMeans(Split(Flatten(chunks), '\n'), decode);
    hide TraceOf;
    hide Then, Split;
    t := QUIET;
    var buffer := "";
    EmptyText();
    for i := 0 to |chunks|
      invariant t.failure.None?
      invariant t == ProcessLines(QUIET, Complete(Flatten(chunks[..i])), decode)
      invariant buffer == Residue(Flatten(chunks[..i]))
    {
      ghost var sofar := Flatten(chunks[..i]);
      assert chunks[..i + 1][..i] == chunks[..i];
      ResidueMore(sofar, chunks[i]);
      buffer := buffer + chunks[i];
      var pieces := Split(buffer, '\n');
      var lines := pieces[..|pieces| - 1];
      assert lines == Complete(buffer);
      buffer := pieces[|pieces| - 1];
      t := ProcessAll(t, lines, decode);
      ProcessConcat(QUIET, Complete(sofar), lines, decode);
      if t.failure.Some? {
        FailureIsFinal(chunks, i + 1, t, decode);
        return;
      }
    }
    assert chunks[..|chunks|] == chunks;
    ghost var text := Flatten(chunks);
    ghost var pieces := Split(text, '\n');
    assert pieces == Complete(text) + [buffer];
    assert (Complete(text) + [buffer])[..|Complete(text)|] == Complete(text);
    if buffer != "" {
      t := ProcessOne(t, buffer, decode);
    } else {
      EmptyLine(t, decode);
    }
  }

  method ProcessOne(t: Trace, line: string, decode: string -> Payload) returns (r: Trace)
    requires t.failure.None?
    ensures r == Then(t, line, decode)
  {
    var u := ProcessLine(line, decode);
    r := Trace(t.calls + u.calls, u.failure);
  }

  /** The inner loop over the complete lines; an exception leaves it at once. */
  method ProcessAll(t: Trace, lines: seq<string>, decode: string -> Payload) returns (r: Trace)
    requires t.failure.None?
    ensures r == ProcessLines(t, lines, decode)
  {
    r := t;
    for i := 0 to |lines|
      invariant r.failure.None?
      invariant r == ProcessLines(t, lines[..i], decode)
    {
      assert lines[..i + 1][..i] == lines[..i];
      r := ProcessOne(r, lines[i], decode);
      if r.failure.Some? {
        ProcessConcat(t, lines[..i + 1], lines[i + 1..], decode);
        FailureSticks(r, lines[i + 1..], decode);
        assert lines[..i + 1] + lines[i + 1..] == lines;
        return;
      }
    }
    assert lines[..|lines|] == lines;
  }

  lemma EmptyText()
    ensures Complete("") == [] && Residue("") == ""
  {
  }

  lemma FailureIsFinal(chunks: seq<string>, i: nat, t: Trace, decode: string -> Payload)
    requires i <= |chunks| && t.failure.Some?
    requires t == ProcessLines(QUIET, Complete(Flatten(chunks[..i])), decode)
    ensures t == ProcessLines(QUIET, Split(Flatten(chunks), '\n'), decode)
  {
    var a, b := Flatten(chunks[..i]), Flatten(chunks[i..]);
    assert chunks == chunks[..i] + chunks[i..];
    FlattenSplit(chunks[..i], chunks[i..]);
    SplitMore(a, b);
    ProcessConcat(QUIET, Complete(a), Split(Residue(a) + b, '\n'), decode);
    FailureSticks(t, Split(Residue(a) + b, '\n'), decode);
  }

  // ----- the capped splitter -----

  const CAP := 64_000

  function LastOf(s: string): string {
    if |s| > CAP then s[|s| - CAP..] else s
  }

  /** The lines pushed so far, and the buffer kept for the next chunk. */
  datatype Splitter = Splitter(lines: seq<string>, buffer: string)

  function Feed(x: Splitter, chunk: string): Splitter {
    Splitter(x.lines + Complete(x.buffer + chunk), LastOf(Residue(x.buffer + chunk)))
  }

  function FeedAll(chunks: seq<string>): Splitter {
    if chunks == [] then Splitter([], "")
    else Feed(FeedAll(chunks[..|chunks| - 1]), chunks[|chunks| - 1])
  }

  class StdoutSplitter {
    var buffer: string
    var lines: seq<string>

    ghost function View(): Splitter
      reads this
    {
      Splitter(lines, buffer)
    }

    constructor ()
      ensures View() == FeedAll([])
    {
      buffer, lines := "", [];
    }

    method OnData(chunk: string)
      modifies this
      ensures View() == Feed(old(View()), chunk)
    {
      buffer := buffer + chunk;
      ghost var text := buffer;
      assert old(lines) + [] == old(lines);
      while '\n' in buffer
        invariant old(lines) + Complete(text) == lines + Complete(buffer)
        invariant Residue(text) == Residue(buffer)
        decreases |buffer|
      {
        var newline := IndexOfNewline(buffer);
        var line := buffer[..newline];
        SplitAtNewline(buffer, newline);
        assert lines + ([line] + Complete(buffer[newline + 1..])) == lines + [line] + Complete(buffer[newline + 1..]);
        buffer := buffer[newline + 1..];
        lines := lines + [line];
      }
      SplitWhole(buffer, '\n');
      if |buffer| > CAP {
        buffer := buffer[|buffer| - CAP..];
      }
    }
  }

  method IndexOfNewline(s: string) returns (i: nat)
    requires '\n' in s
    ensures i < |s| && s[i] == '\n' && '\n' !in s[..i]
  {
    i := 0;
    while s[i] != '\n'
      invariant i < |s| && '\n' !in s[..i] && '\n' in s[i..]
      decreases |s| - i
    {
      assert s[..i + 1] == s[..i] + [s[i]];
      assert s[i..] == [s[i]] + s[i + 1..];
      i := i + 1;
    }
  }

  lemma SplitAtNewline(s: string, i: nat)
    requires i < |s| && s[i] == '\n' && '\n' !in s[..i]
    ensures Complete(s) == [s[..i]] + Complete(s[i + 1..])
    ensures Residue(s) == Residue(s[i + 1..])
  {
    assert s == s[..i] + ['\n'] + s[i + 1..];
    SplitConcat(s[..i], s[i + 1..], '\n');
    SplitWhole(s[..i], '\n');
  }

  // ----- when the cap shows -----

  lemma LastOfMore(a: string, b: string)
    ensures LastOf(LastOf(a) + b) == LastOf(a + b)
  {
    if |a| > CAP {
      assert LastOf(a) + b == (a + b)[|a| - CAP..];
    }
  }

  /** A prefix of a line only shows in the first piece. */
  lemma {:induction false} SplitPrefix(a: string, b: string)
    requires '\n' !in a
    ensures Split(a + b, '\n') == [a + Split(b, '\n')[0]] + Split(b, '\n')[1..]
    decreases |a|
  {
    if a == "" {
      assert a + b == b;
      assert "" + Split(b, '\n')[0] == Split(b, '\n')[0];
    } else {
      assert a[0] in a && forall c :: c in a[1..] ==> c in a;
      assert (a + b)[1..] == a[1..] + b;
      SplitPrefix(a[1..], b);
      assert [a[0]] + (a[1..] + Split(b, '\n')[0]) == a + Split(b, '\n')[0];
    }
  }

  lemma ResidueHasNone(text: string)
    ensures '\n' !in Residue(text)
  {
  }

  /** The chunk ends a line of which more than the cap had already come. */
  predicate Clipped(before: string, chunk: string) {
    '\n' in chunk && |Residue(before)| > CAP
  }

  predicate SuffixOf(a: string, b: string) {
    |a| <= |b| && a == b[|b| - |a|..]
  }

  lemma NewlineMeansPieces(b: string)
    ensures '\n' in b <==> |Split(b, '\n')| > 1
  {
    if '\n' in b {
      if |Split(b, '\n')| == 1 {
        JoinSplit(b, '\n');
      }
    } else {
      SplitWhole(b, '\n');
    }
  }

  /** The splitter is at the end of `text`: as many lines, each the end of the true one, and the
      capped residue. */
  ghost predicate Tracks(x: Splitter, text: string) {
    && x.buffer == LastOf(Residue(text))
    && |x.lines| == |Complete(text)|
    && forall k :: 0 <= k < |x.lines| ==> SuffixOf(x.lines[k], Complete(text)[k])
  }

  function Headed(start: string, pieces: seq<string>): seq<string>
    requires pieces != []
  {
    [start + pieces[0]] + pieces[1..]
  }

  /** One more chunk, piece by piece, after any text that ends in `start`. */
  lemma ChunkPieces(start: string, chunk: string)
    requires '\n' !in start
    ensures var all := Headed(start, Split(chunk, '\n'));
            Complete(start + chunk) == all[..|all| - 1] && Residue(start + chunk) == all[|all| - 1]
  {
    SplitPrefix(start, chunk);
  }

  /** The buffer after a chunk is again the capped residue. */
  lemma BufferTracks(r: string, chunk: string)
    requires '\n' !in r
    ensures LastOf(Residue(LastOf(r) + chunk)) == LastOf(Residue(r + chunk))
  {
    assert '\n' !in LastOf(r);
    var pieces := Split(chunk, '\n');
    ChunkPieces(r, chunk);
    ChunkPieces(LastOf(r), chunk);
    if |pieces| == 1 {
      LastOfMore(r, pieces[0]);
    }
  }

  /** One chunk: the lines differ only when one is clipped. */
  lemma FeedOnce(before: string, x: Splitter, chunk: string)
    requires Tracks(x, before)
    ensures Tracks(Feed(x, chunk), before + chunk)
    ensures Feed(x, chunk).lines == Complete(before + chunk)
            <==> x.lines == Complete(before) && !Clipped(before, chunk)
  {
    var r := Residue(before);
    ResidueHasNone(before);
    assert '\n' !in LastOf(r);
    ResidueMore(before, chunk);
    BufferTracks(r, chunk);
    ChunkPieces(r, chunk);
    ChunkPieces(LastOf(r), chunk);
    NewlineMeansPieces(chunk);
    hide Split, SuffixOf, LastOf, Residue, Complete;
    FedPieces(Complete(before), x.lines, r, LastOf(r), Split(chunk, '\n'));
  }

  /** The same on the pieces. */
  lemma FedPieces(done: seq<string>, lines: seq<string>, r: string, kept: string, pieces: seq<string>)
    requires pieces != [] && kept == LastOf(r)
    requires |lines| == |done|
    requires forall k :: 0 <= k < |lines| ==> SuffixOf(lines[k], done[k])
    ensures var n := |pieces| - 1;
            var whole, capped := Headed(r, pieces), Headed(kept, pieces);
            && (forall k :: 0 <= k < |lines| + n ==> SuffixOf((lines + capped[..n])[k], (done + whole[..n])[k]))
            && (lines + capped[..n] == done + whole[..n] <==> lines == done && (n == 0 || |r| <= CAP))
            && (n > 0 ==> capped[n] == whole[n])
  {
    var n := |pieces| - 1;
    var whole, capped := Headed(r, pieces), Headed(kept, pieces);
    var a, b := lines + capped[..n], done + whole[..n];
    assert forall k :: 0 <= k < |lines| ==> a[k] == lines[k] && b[k] == done[k];
    if n > 0 {
      assert a[|lines|] == kept + pieces[0] && b[|lines|] == r + pieces[0];
      assert |r| > CAP ==> |a[|lines|]| < |b[|lines|]|;
      assert SuffixOf(kept, r);
      assert SuffixOf(kept + pieces[0], r + pieces[0]);
      assert forall k :: |lines| < k < |lines| + n ==> a[k] == b[k];
    }
    if a == b {
      assert lines == a[..|lines|] && done == b[..|lines|];
    }
  }

  predicate EverClipped(chunks: seq<string>) {
    exists i :: 0 <= i < |chunks| && Clipped(Flatten(chunks[..i]), chunks[i])
  }

  lemma ClippedStep(chunks: seq<string>)
    requires chunks != []
    ensures var front, last := chunks[..|chunks| - 1], chunks[|chunks| - 1];
            EverClipped(chunks) <==> EverClipped(front) || Clipped(Flatten(front), last)
  {
    hide Clipped;
    var front := chunks[..|chunks| - 1];
    assert forall i :: 0 <= i < |front| ==> front[i] == chunks[i] && front[..i] == chunks[..i];
    assert chunks[..|chunks| - 1] == front;
  }

  /** The splitter pushes as many lines as the whole text has, each the end of the true line; and
      they are the true lines exactly when no chunk ends a line whose start was cut off. */
  lemma {:induction false} FeedAllExact(chunks: seq<string>)
    ensures Tracks(FeedAll(chunks), Flatten(chunks))
    ensures FeedAll(chunks).lines == Complete(Flatten(chunks)) <==> !EverClipped(chunks)
  {
    hide Feed, Clipped, EverClipped;
    if chunks == [] {
      EmptyText();
      NothingClipped();
    } else {
      hide Tracks, Complete;
      var front, last := chunks[..|chunks| - 1], chunks[|chunks| - 1];
      FeedAllExact(front);
      FeedOnce(Flatten(front), FeedAll(front), last);
      ClippedStep(chunks);
    }
  }

  lemma NothingClipped()
    ensures !EverClipped([])
  {
  }

  /** The rest that `a` leaves is the start of a line of any longer text. */
  lemma ResidueIsShort(a: string, b: string)
    requires forall i :: 0 <= i < |Split(a + b, '\n')| ==> |Split(a + b, '\n')[i]| <= CAP
    ensures |Residue(a)| <= CAP
  {
    SplitMore(a, b);
    ResidueHasNone(a);
    SplitPrefix(Residue(a), b);
    hide Residue, Complete, Split;
    var pieces := Split(a + b, '\n');
    assert pieces[|Complete(a)|] == Residue(a) + Split(b, '\n')[0];
  }

  /** While no line is longer than the cap, the splitter pushes exactly the lines of the text. */
  lemma ShortLinesExact(chunks: seq<string>)
    requires forall i :: 0 <= i < |Split(Flatten(chunks), '\n')| ==> |Split(Flatten(chunks), '\n')[i]| <= CAP
    ensures FeedAll(chunks).lines == Complete(Flatten(chunks))
  {
    FeedAllExact(chunks);
    forall i | 0 <= i < |chunks| ensures !Clipped(Flatten(chunks[..i]), chunks[i]) {
      assert chunks == chunks[..i] + chunks[i..];
      FlattenSplit(chunks[..i], chunks[i..]);
      hide Flatten, Split, Residue, FeedAll;
      ResidueIsShort(Flatten(chunks[..i]), Flatten(chunks[i..]));
    }
  }
}
