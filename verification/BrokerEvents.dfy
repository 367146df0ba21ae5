/** What the owner of the broker client is told, and which steps bring each outcome about. */
module BrokerEvents {
  import opened Prelude
  import opened Broker
  import opened BrokerRuns

  // ----- one line -----

  /** A line that says something about a PTY. */
  predicate Speaks(m: Message) {
    && m.ptyId.Some? && m.ptyId.value != ""
    && ((m.event == Some("output") && m.data.Some?) || m.event == Some("exit"))
  }

  /** `c` says what `m` says. */
  predicate Describes(c: Callback, m: Message) {
    match c
    case Output(p, d) => m.event == Some("output") && p != "" && m.ptyId == Some(p) && m.data == Some(d)
    case Exited(p, code, signal) =>
      && m.event == Some("exit") && p != "" && m.ptyId == Some(p) && m.signal == signal
      && (m.exitCode == Some(code) || (m.exitCode == None && code == -1))
  }

  /** The owner is told `c` exactly of a line that says it. */
  lemma ToldExactly(m: Message, c: Callback)
    ensures CallbackOf(m) == Some(c) <==> Describes(c, m)
  {
  }

  /** The owner is told nothing exactly of a line that says nothing. */
  lemma SilentExactly(m: Message)
    ensures CallbackOf(m) == None <==> !Speaks(m)
  {
  }

  /** A line with an event touches no call, whatever id it carries. */
  lemma EventsSettleNothing(s: Sys, m: Message)
    requires m.event.Some? && m.event.value != ""
    ensures var t := Next(s, Line(m)); t.client == s.client && t.calls == s.calls
  {
  }

  // ----- every run -----

  /** The lines of a history that say something, in order. */
  function Spoken(h: seq<Event>): seq<Message> {
    if h == [] then []
    else
      var e := h[|h| - 1];
      Spoken(h[..|h| - 1]) + if e.Read? && Speaks(e.m) then [e.m] else []
  }

  lemma SpokenSnoc(h: seq<Event>, e: Event)
    ensures Spoken(h + [e]) == Spoken(h) + if e.Read? && Speaks(e.m) then [e.m] else []
  {
    assert (h + [e])[..|h|] == h;
  }

  ghost predicate ToldOf(told: seq<Callback>, lines: seq<Message>) {
    |told| == |lines| && forall i :: 0 <= i < |told| ==> Describes(told[i], lines[i])
  }

  /** In every run the owner is told of each line that says something, once, in the order of the lines. */
  lemma {:induction false} ToldInOrder(steps: seq<Step>)
    requires Run(steps).Some?
    ensures ToldOf(Run(steps).value.told, Spoken(Run(steps).value.history))
    decreases |steps|
  {
    if steps != [] {
      var front, last := steps[..|steps| - 1], steps[|steps| - 1];
      ToldInOrder(front);
      ToldStep(Run(front).value, last);
    }
  }

  lemma ToldStep(s: Sys, step: Step)
    requires Enabled(s, step) && ToldOf(s.told, Spoken(s.history))
    ensures ToldOf(Next(s, step).told, Spoken(Next(s, step).history))
  {
    hide Spoken, Claimed, Take;
    var h, t := s.history, Next(s, step);
    match step {
      case Line(m) =>
        SpokenSnoc(h, Read(m));
        SilentExactly(m);
        if Speaks(m) {
          ToldExactly(m, CallbackOf(m).value);
        }
      case Issue => SpokenSnoc(h, Issued(s.client.nextId));
      case CallStop => SpokenSnoc(h, StopCalled);
      case Observe(id) => SpokenSnoc(h, Finished(id, if s.calls[id].sender.Sent? then Reply(s.calls[id].sender.m) else Stopped));
      case Cleanup(id) =>
        SpokenSnoc(h, Forgotten(id));
        SpokenSnoc(h + [Forgotten(id)], Finished(id, s.calls[id].phase.outcome));
      case _ =>
    }
  }

  function OutputsFor(told: seq<Callback>, p: string): seq<string> {
    if told == [] then []
    else
      var c := told[|told| - 1];
      OutputsFor(told[..|told| - 1], p) + if c.Output? && c.ptyId == p then [c.data] else []
  }

  /** The data of the output lines of one PTY. */
  function DataFor(lines: seq<Message>, p: string): seq<string> {
    if lines == [] then []
    else
      var m := lines[|lines| - 1];
      DataFor(lines[..|lines| - 1], p)
      + if m.event == Some("output") && m.ptyId == Some(p) && m.data.Some? then [m.data.value] else []
  }

  lemma {:induction false} SameData(told: seq<Callback>, lines: seq<Message>, p: string)
    requires ToldOf(told, lines)
    ensures OutputsFor(told, p) == DataFor(lines, p)
    decreases |told|
  {
    if told != [] {
      SameData(told[..|told| - 1], lines[..|lines| - 1], p);
      assert Describes(told[|told| - 1], lines[|lines| - 1]);
    }
  }

  /** In every run the outputs told for a PTY are the data of its output lines, in order. */
  lemma OutputsOfAPty(steps: seq<Step>, p: string)
    requires Run(steps).Some?
    ensures OutputsFor(Run(steps).value.told, p) == DataFor(Spoken(Run(steps).value.history), p)
  {
    ToldInOrder(steps);
    SameData(Run(steps).value.told, Spoken(Run(steps).value.history), p);
  }

  // ----- which steps an outcome comes from -----

  /** The step that makes call `id` end with `o`. */
  predicate CausedBy(steps: seq<Step>, id: nat, o: Outcome) {
    match o
    case Reply(m) => Line(m) in steps && m.Answers(id)
    case Stopped => CallStop in steps
    case TimedOut => Expire(id) in steps && WriteOk(id) in steps
    case WriteFailed(reason) => WriteError(id, reason) in steps
  }

  /** What is known of a call from the steps so far. */
  predicate Traced(steps: seq<Step>, id: nat, c: Call) {
    && (c.phase == Waiting ==> WriteOk(id) in steps)
    && (c.phase.Ending? || c.phase.Settled? ==> CausedBy(steps, id, c.phase.outcome))
    && (c.sender.WithReader? || c.sender.Sent? ==> Line(c.sender.m) in steps && c.sender.m.Answers(id))
    && (c.sender == WithStop ==> CallStop in steps)
    && (c.sender == Dropped && !c.phase.Settled? ==> CallStop in steps)
  }

  lemma TracedStays(steps: seq<Step>, last: Step, id: nat, c: Call)
    requires Traced(steps, id, c)
    ensures Traced(steps + [last], id, c)
  {
  }

  lemma TracedStep(steps: seq<Step>, s: Sys, last: Step, id: nat)
    requires Enabled(s, last) && id in Next(s, last).calls
    requires id in s.calls ==> Traced(steps, id, s.calls[id])
    ensures Traced(steps + [last], id, Next(s, last).calls[id])
  {
    if id in s.calls {
      TracedStays(steps, last, id, s.calls[id]);
    }
    assert last in steps + [last];
  }

  lemma {:induction false} AllTraced(steps: seq<Step>)
    requires Run(steps).Some?
    ensures forall id :: id in Run(steps).value.calls ==> Traced(steps, id, Run(steps).value.calls[id])
    decreases |steps|
  {
    hide Traced, Next, Enabled;
    if steps != [] {
      var front, last := steps[..|steps| - 1], steps[|steps| - 1];
      AllTraced(front);
      assert steps == front + [last];
      forall id | id in Run(steps).value.calls ensures Traced(steps, id, Run(steps).value.calls[id]) {
        TracedStep(front, Run(front).value, last, id);
      }
    }
  }

  /** A timeout comes of an expired wait after a write, a failed write of an error of the call's own
      write with the same reason, a reply of a line with its id, and a stop of a stop. */
  lemma OutcomesFromSteps(steps: seq<Step>, id: nat)
    requires Run(steps).Some? && id in Run(steps).value.calls && Run(steps).value.calls[id].phase.Settled?
    ensures CausedBy(steps, id, Run(steps).value.calls[id].phase.outcome)
  {
    AllTraced(steps);
  }

  // ----- readiness -----

  predicate SaidReady(steps: seq<Step>) {
    exists k :: 0 <= k < |steps| && steps[k] == BecomeReady && CallStop !in steps[k + 1..]
  }

  lemma SaidSnoc(front: seq<Step>, last: Step)
    ensures SaidReady(front + [last]) <==> last == BecomeReady || (SaidReady(front) && last != CallStop)
  {
    var steps := front + [last];
    forall k | 0 <= k < |front| ensures steps[k + 1..] == front[k + 1..] + [last] && front[k] == steps[k] {
    }
    assert steps[|front| + 1..] == [] && steps[|front|] == last;
    if last == BecomeReady {
      assert CallStop !in steps[|front| + 1..];
    }
    if k :| 0 <= k < |front| && front[k] == BecomeReady && CallStop !in front[k + 1..] {
      assert steps[k] == BecomeReady && steps[k + 1..] == front[k + 1..] + [last];
    }
  }

  lemma ReadyStep(s: Sys, step: Step)
    requires Enabled(s, step)
    ensures Next(s, step).client.ready == (step == BecomeReady || (s.client.ready && step != CallStop))
  {
  }

  /** The client counts as ready exactly when the broker said so after the last stop. */
  lemma {:induction false} ReadyExactly(steps: seq<Step>)
    requires Run(steps).Some?
    ensures Run(steps).value.client.ready <==>
            exists k :: 0 <= k < |steps| && steps[k] == BecomeReady && CallStop !in steps[k + 1..]
    decreases |steps|
  {
    assert SaidReady(steps) <==> exists k :: 0 <= k < |steps| && steps[k] == BecomeReady && CallStop !in steps[k + 1..];
    if steps != [] {
      hide Next, Enabled, SaidReady;
      var front, last := steps[..|steps| - 1], steps[|steps| - 1];
      ReadyExactly(front);
      assert SaidReady(front) <==> Run(front).value.client.ready by {
        SaidMeans(front);
      }
      assert steps == front + [last];
      SaidSnoc(front, last);
      ReadyStep(Run(front).value, last);
    }
  }

  lemma SaidMeans(steps: seq<Step>)
    ensures SaidReady(steps) <==> exists k :: 0 <= k < |steps| && steps[k] == BecomeReady && CallStop !in steps[k + 1..]
  {
  }
}
