/**
 The TypeScript client (`packages/gateway/src/pty-broker-client.ts`), where one event-loop turn
 both changes `pending` and settles the call, and its agreement with the native port: each run
 of either is matched by a run of the other with the same lines and the same outcomes.
 */
module BrokerReference {
  import opened Prelude
  import opened Broker
  import opened BrokerRuns

  /** `settled` holds what each promise was resolved or rejected with. */
  datatype Ref = Ref(nextId: nat, pending: set<nat>, settled: map<nat, Outcome>)

  const REF_START := Ref(1, {}, map[])

  datatype RefStep = RefCall | RefLine(m: Message) | RefTimer(id: nat) | RefStop

  /** A timer fires only while it is armed, and it is disarmed with the pending entry. */
  predicate RefEnabled(r: Ref, step: RefStep) {
    step.RefTimer? ==> step.id in r.pending
  }

  function Settle(r: Ref, id: nat, o: Outcome): Ref {
    r.(pending := r.pending - {id}, settled := r.settled[id := o])
  }

  function RefNext(r: Ref, step: RefStep): Ref {
    match step
    case RefCall => r.(nextId := r.nextId + 1, pending := r.pending + {r.nextId})
    case RefLine(m) =>
      if !m.IsEvent() && m.id.Some? && m.id.value in r.pending then Settle(r, m.id.value, Reply(m)) else r
    case RefTimer(id) => Settle(r, id, TimedOut)
    case RefStop => r.(pending := {}, settled := r.settled + (map id | id in r.pending :: Stopped))
  }

  /** The client object, with its settlements recorded. */
  class ReferenceClient {
    var nextId: nat
    var pending: set<nat>
    var settled: map<nat, Outcome>

    ghost function View(): Ref
      reads this
    {
      Ref(nextId, pending, settled)
    }

    constructor ()
      ensures View() == REF_START
    {
      nextId, pending, settled := 1, {}, map[];
    }

    method Rpc() returns (id: nat)
      modifies this
      ensures id == old(nextId) && View() == RefNext(old(View()), RefCall)
    {
      id := nextId;
      nextId := nextId + 1;
      pending := pending + {id};
    }

    method HandleMessage(m: Message) returns (callback: Option<Callback>)
      modifies this
      ensures View() == RefNext(old(View()), RefLine(m)) && callback == CallbackOf(m)
    {
      callback := None;
      if m.event.Some? && m.event.value != "" {
        var ptyId := if m.ptyId.Some? then m.ptyId.value else "";
        if m.event.value == "output" && ptyId != "" && m.data.Some? {
          callback := Some(Output(ptyId, m.data.value));
        } else if m.event.value == "exit" && ptyId != "" {
          callback := Some(Exited(ptyId, if m.exitCode.Some? then m.exitCode.value else -1, m.signal));
        }
        return;
      }
      if m.id.Some? {
        if m.id.value in pending {
          pending := pending - {m.id.value};
          settled := settled[m.id.value := Reply(m)];
        }
      }
    }

    method OnTimer(id: nat)
      requires id in pending
      modifies this
      ensures View() == RefNext(old(View()), RefTimer(id))
    {
      pending := pending - {id};
      settled := settled[id := TimedOut];
    }

    /** Each pending call is rejected in turn, then the map is cleared. */
    method Stop()
      modifies this
      ensures View() == RefNext(old(View()), RefStop)
    {
      var rest := pending;
      while rest != {}
        invariant rest <= pending && pending == old(pending) && nextId == old(nextId)
        invariant settled == old(settled) + (map id | id in pending - rest :: Stopped)
        decreases rest
      {
        var id :| id in rest;
        settled := settled[id := Stopped];
        rest := rest - {id};
      }
      pending := {};
    }
  }

  function RefRun(steps: seq<RefStep>): Option<Ref> {
    if steps == [] then Some(REF_START)
    else
      match RefRun(steps[..|steps| - 1])
      case None => None
      case Some(r) =>
        if RefEnabled(r, steps[|steps| - 1]) then Some(RefNext(r, steps[|steps| - 1])) else None
  }

  /** In the reference, `pending` is exactly the issued calls that are not settled. */
  lemma {:induction false} RefPendingIsUnsettled(steps: seq<RefStep>)
    requires RefRun(steps).Some?
    ensures var r := RefRun(steps).value;
            r.nextId >= 1
            && forall id :: id in r.pending <==> 1 <= id < r.nextId && id !in r.settled
    ensures forall id :: id in RefRun(steps).value.settled ==> 1 <= id < RefRun(steps).value.nextId
    decreases |steps|
  {
    if steps != [] {
      RefPendingIsUnsettled(steps[..|steps| - 1]);
    }
  }

  // ----- every run of the port is a run of the reference -----

  /** The calls, lines and stops a run saw, in order. */
  datatype Seen = SawCall | SawLine(m: Message) | SawStop

  function SeenIn(e: Event): seq<Seen> {
    match e
    case Issued(_) => [SawCall]
    case Read(m) => [SawLine(m)]
    case StopCalled => [SawStop]
    case _ => []
  }

  function SeenBy(step: RefStep): seq<Seen> {
    match step
    case RefCall => [SawCall]
    case RefLine(m) => [SawLine(m)]
    case RefStop => [SawStop]
    case RefTimer(_) => []
  }

  function SeenInHistory(h: seq<Event>): seq<Seen> {
    if h == [] then [] else SeenInHistory(h[..|h| - 1]) + SeenIn(h[|h| - 1])
  }

  function SeenBySteps(steps: seq<RefStep>): seq<Seen> {
    if steps == [] then [] else SeenBySteps(steps[..|steps| - 1]) + SeenBy(steps[|steps| - 1])
  }

  /** The reference steps for one event, when the calls in `late` are the ones that time out. */
  function StepsFor(e: Event, late: set<nat>): seq<RefStep> {
    match e
    case Issued(id) => if id in late then [RefCall, RefTimer(id)] else [RefCall]
    case Read(m) => [RefLine(m)]
    case StopCalled => [RefStop]
    case Forgotten(_) => []
    case Finished(_, _) => []
  }

  function Replay(h: seq<Event>, late: set<nat>): seq<RefStep> {
    if h == [] then [] else Replay(h[..|h| - 1], late) + StepsFor(h[|h| - 1], late)
  }

  /** A call that ends, or is about to end, without an answer or a stop. */
  predicate Lapsed(c: Call) {
    c.phase.Ending? || (c.phase.Settled? && (c.phase.outcome.TimedOut? || c.phase.outcome.WriteFailed?))
  }

  function LapsedIds(s: Sys): set<nat> {
    set id | id in s.calls && Lapsed(s.calls[id])
  }

  /** What the reference knows about one call of the port that does not lapse. */
  predicate CallMatches(r: Ref, id: nat, c: Call) {
    match c.sender
    case Filed => id in r.pending
    case WithReader(m) => id !in r.pending && id in r.settled && r.settled[id] == Reply(m)
    case Sent(m) => id !in r.pending && id in r.settled && r.settled[id] == Reply(m)
    case WithStop => id !in r.pending && id in r.settled && r.settled[id] == Stopped
    case Dropped => id !in r.pending && id in r.settled && r.settled[id] == Stopped
  }

  ghost predicate Matches(s: Sys, r: Ref, late: set<nat>) {
    && r.nextId == s.client.nextId
    && (forall id :: id in r.pending ==> id in s.calls && id !in late)
    && (forall id :: id in s.calls && id !in late ==> CallMatches(r, id, s.calls[id]))
    && (forall id :: id in s.calls && id in late ==> id in r.settled && r.settled[id] == TimedOut)
  }

  lemma RefRunSnoc(steps: seq<RefStep>, last: RefStep)
    requires RefRun(steps).Some? && RefEnabled(RefRun(steps).value, last)
    ensures RefRun(steps + [last]) == Some(RefNext(RefRun(steps).value, last))
    ensures SeenBySteps(steps + [last]) == SeenBySteps(steps) + SeenBy(last)
  {
    assert (steps + [last])[..|steps|] == steps;
  }

  lemma EndingLapses(s: Sys)
    requires Inv(s)
    ensures forall id :: id in s.calls && s.calls[id].phase.Ending? ==>
              s.calls[id].phase.outcome.TimedOut? || s.calls[id].phase.outcome.WriteFailed?
  {
    hide EverEndedBy, Awaited, FinishedIn;
    forall id | id in s.calls && s.calls[id].phase.Ending?
      ensures s.calls[id].phase.outcome.TimedOut? || s.calls[id].phase.outcome.WriteFailed?
    {
      assert Accounted(s.history, id, s.calls[id]);
    }
  }

  // One step of the port, replayed.

  lemma MatchesIssue(s: Sys, r: Ref, late: set<nat>)
    requires Books(s) && Matches(s, r, late)
    ensures var r1 := RefNext(r, RefCall);
            var id := s.client.nextId;
            id in r1.pending
            && Matches(Next(s, Issue), if id in late then RefNext(r1, RefTimer(id)) else r1, late)
  {
  }

  lemma MatchesLine(s: Sys, m: Message, r: Ref, late: set<nat>)
    requires Books(s) && Matches(s, r, late)
    ensures Matches(Next(s, Line(m)), RefNext(r, RefLine(m)), late)
  {
  }

  lemma MatchesStop(s: Sys, r: Ref, late: set<nat>)
    requires Books(s) && Matches(s, r, late)
    ensures Matches(Next(s, CallStop), RefNext(r, RefStop), late)
  {
    var t, q := Next(s, CallStop), RefNext(r, RefStop);
    forall id | id in t.calls && id !in late ensures CallMatches(q, id, t.calls[id]) {
      assert CallMatches(r, id, s.calls[id]);
    }
  }

  /** The other steps the reference does not take at all. */
  lemma MatchesInside(s: Sys, step: Step, r: Ref, late: set<nat>)
    requires Enabled(s, step) && Matches(s, r, late)
    requires step != Issue && !step.Line? && step != CallStop
    requires step.Cleanup? ==> step.id in late
    ensures Matches(Next(s, step), r, late)
  {
  }

  lemma CleanupLapses(s: Sys, id: nat)
    requires Inv(s) && Enabled(s, Cleanup(id))
    ensures id in LapsedIds(Next(s, Cleanup(id)))
  {
    EndingLapses(s);
    hide Inv;
  }

  /** Lapsed calls stay lapsed, so the final run tells which calls will lapse. */
  lemma LapsedGrow(s: Sys, step: Step)
    requires Inv(s) && Enabled(s, step)
    ensures LapsedIds(s) <= LapsedIds(Next(s, step))
  {
    EndingLapses(s);
    assert s.client.nextId !in s.calls;
    hide Inv, Next, Enabled;
    forall id | id in LapsedIds(s) ensures id in LapsedIds(Next(s, step)) {
      LapsedStays(s, step, id);
    }
  }

  lemma LapsedStays(s: Sys, step: Step, id: nat)
    requires Enabled(s, step) && id in s.calls && Lapsed(s.calls[id])
    requires s.calls[id].phase.Ending? ==> s.calls[id].phase.outcome.TimedOut? || s.calls[id].phase.outcome.WriteFailed?
    requires s.client.nextId !in s.calls
    ensures var t := Next(s, step); id in t.calls && Lapsed(t.calls[id])
  {
  }

  lemma ReplayEvent(h: seq<Event>, e: Event, late: set<nat>)
    ensures Replay(h + [e], late) == Replay(h, late) + StepsFor(e, late)
    ensures SeenInHistory(h + [e]) == SeenInHistory(h) + SeenIn(e)
  {
    assert (h + [e])[..|h|] == h;
  }

  ghost predicate ReplayMatches(s: Sys, late: set<nat>) {
    var steps := Replay(s.history, late);
    && RefRun(steps).Some?
    && Matches(s, RefRun(steps).value, late)
    && SeenBySteps(steps) == SeenInHistory(s.history)
  }

  lemma ReplayStep(s: Sys, step: Step, late: set<nat>)
    requires Inv(s) && Enabled(s, step) && ReplayMatches(s, late)
    requires LapsedIds(Next(s, step)) <= late
    ensures ReplayMatches(Next(s, step), late)
  {
    assert Books(s);
    if step.Cleanup? {
      CleanupLapses(s, step.id);
    }
    NextHistory(s, step);
    hide Inv, Books, Matches, Next, Enabled, ReplayMatches;
    match step {
      case Issue => ReplayCall(s, late);
      case Line(m) => ReplayOne(s, step, Read(m), RefLine(m), late);
      case CallStop => ReplayOne(s, step, StopCalled, RefStop, late);
      case _ => ReplayInside(s, step, late);
    }
  }

  lemma ReplayCall(s: Sys, late: set<nat>)
    requires Books(s) && ReplayMatches(s, late)
    ensures ReplayMatches(Next(s, Issue), late)
  {
    MatchesIssue(s, RefRun(Replay(s.history, late)).value, late);
    NextHistory(s, Issue);
    ReplayIssue(s.history, s.client.nextId, late);
    hide Books, Matches, Next, RefNext, Replay, SeenInHistory, SeenBySteps, RefRun, Enabled;
  }

  /** A step that the reference takes in one as well. */
  lemma ReplayOne(s: Sys, step: Step, e: Event, taken: RefStep, late: set<nat>)
    requires Books(s) && ReplayMatches(s, late) && Enabled(s, step)
    requires (step.Line? && e == Read(step.m) && taken == RefLine(step.m)) || (step == CallStop && e == StopCalled && taken == RefStop)
    ensures ReplayMatches(Next(s, step), late)
  {
    var steps := Replay(s.history, late);
    var r := RefRun(steps).value;
    NextHistory(s, step);
    assert StepsFor(e, late) == [taken] && RefEnabled(r, taken) && SeenIn(e) == SeenBy(taken);
    hide Books, Matches, Next, RefNext, Replay, SeenInHistory, SeenBySteps, RefRun, Enabled, RefEnabled, StepsFor, SeenIn, SeenBy;
    if step.Line? {
      MatchesLine(s, step.m, r, late);
    } else {
      MatchesStop(s, r, late);
    }
    ReplayEvent(s.history, e, late);
    RefRunSnoc(steps, taken);
  }

  /** A step that the reference does not take. */
  lemma ReplayInside(s: Sys, step: Step, late: set<nat>)
    requires Enabled(s, step) && ReplayMatches(s, late)
    requires step != Issue && !step.Line? && step != CallStop
    requires step.Cleanup? ==> step.id in late
    ensures ReplayMatches(Next(s, step), late)
  {
    var h := s.history;
    NextHistory(s, step);
    hide Matches, Next, Replay, SeenInHistory, SeenBySteps, RefRun, Enabled;
    MatchesInside(s, step, RefRun(Replay(h, late)).value, late);
    if step.Observe? {
      ReplaySilent(h, Next(s, step).history[|h|], late);
    } else if step.Cleanup? {
      var id := step.id;
      CleanupOutcome(s, id);
      ReplaySilent(h, Forgotten(id), late);
      ReplaySilent(h + [Forgotten(id)], Finished(id, s.calls[id].phase.outcome), late);
    }
  }

  lemma CleanupOutcome(s: Sys, id: nat)
    requires Enabled(s, Cleanup(id))
    ensures id in s.calls && s.calls[id].phase.Ending?
  {
  }

  lemma NextHistory(s: Sys, step: Step)
    requires Enabled(s, step)
    ensures var h, h' := s.history, Next(s, step).history;
            match step
            case Issue => h' == h + [Issued(s.client.nextId)]
            case Line(m) => h' == h + [Read(m)]
            case CallStop => h' == h + [StopCalled]
            case Observe(id) => |h'| == |h| + 1 && h'[|h|].Finished? && h' == h + [h'[|h|]]
            case Cleanup(id) => h' == h + [Forgotten(id)] + [Finished(id, s.calls[id].phase.outcome)]
            case _ => h' == h
  {
  }

  lemma ReplaySilent(h: seq<Event>, e: Event, late: set<nat>)
    requires e.Forgotten? || e.Finished?
    ensures Replay(h + [e], late) == Replay(h, late)
    ensures SeenInHistory(h + [e]) == SeenInHistory(h)
  {
    ReplayEvent(h, e, late);
    assert Replay(h, late) + [] == Replay(h, late) && SeenInHistory(h) + [] == SeenInHistory(h);
  }

  lemma ReplayIssue(h: seq<Event>, id: nat, late: set<nat>)
    requires RefRun(Replay(h, late)).Some?
    requires id in RefNext(RefRun(Replay(h, late)).value, RefCall).pending
    ensures var r1 := RefNext(RefRun(Replay(h, late)).value, RefCall);
            RefRun(Replay(h + [Issued(id)], late)) ==
            Some(if id in late then RefNext(r1, RefTimer(id)) else r1)
    ensures SeenBySteps(Replay(h + [Issued(id)], late)) == SeenBySteps(Replay(h, late)) + [SawCall]
    ensures SeenInHistory(h + [Issued(id)]) == SeenInHistory(h) + [SawCall]
  {
    var steps := Replay(h, late);
    ReplayEvent(h, Issued(id), late);
    hide Replay, SeenInHistory;
    RefRunSnoc(steps, RefCall);
    if id in late {
      RefRunSnoc(steps + [RefCall], RefTimer(id));
      hide RefRun, SeenBySteps, RefNext;
      assert SeenBySteps(steps) + [SawCall] + [] == SeenBySteps(steps) + [SawCall];
      assert steps + [RefCall, RefTimer(id)] == steps + [RefCall] + [RefTimer(id)];
    }
  }

  lemma {:induction false} ReplayRun(steps: seq<Step>, late: set<nat>)
    requires Run(steps).Some? && LapsedIds(Run(steps).value) <= late
    ensures ReplayMatches(Run(steps).value, late)
    decreases |steps|
  {
    if steps != [] {
      var front, last := steps[..|steps| - 1], steps[|steps| - 1];
      RunKeeps(front);
      hide Inv;
      LapsedGrow(Run(front).value, last);
      ReplayRun(front, late);
      ReplayStep(Run(front).value, last, late);
    }
  }

  /** A finished call's outcome, as the reference has it: it knows no failed writes, only timeouts. */
  function RefOutcome(o: Outcome): Outcome {
    if o.WriteFailed? then TimedOut else o
  }

  /** What the reference has for a call of the port: its outcome; a timeout for one that is about to
      end; and for one that still waits, an open promise exactly while it is in the map, else already
      what has been taken to it. */
  predicate RefHas(r: Ref, id: nat, c: Call) {
    match c.phase
    case Settled(o) => id !in r.pending && id in r.settled && r.settled[id] == RefOutcome(o)
    case Ending(_) => id !in r.pending && id in r.settled && r.settled[id] == TimedOut
    case _ => CallMatches(r, id, c)
  }

  /** The reference has issued the same calls, and has each of them as the port does. */
  predicate SettlesAlike(s: Sys, r: Ref) {
    && r.nextId == s.client.nextId
    && (forall id :: id in r.pending ==> id in s.client.pending)
    && forall id :: id in s.calls ==> RefHas(r, id, s.calls[id])
  }

  /** Nothing in the port goes beyond the reference: some reference run saw the same calls, lines and
      stops in the same order and has every call, finished or not, the same way. */
  lemma PortRefinesReference(steps: seq<Step>)
    requires Run(steps).Some?
    ensures exists ref ::
              && RefRun(ref).Some?
              && SeenBySteps(ref) == SeenInHistory(Run(steps).value.history)
              && SettlesAlike(Run(steps).value, RefRun(ref).value)
  {
    var s := Run(steps).value;
    var late := LapsedIds(s);
    ReplayRun(steps, late);
    RunKeeps(steps);
    var ref := Replay(s.history, late);
    AlikeWhenMatching(s, RefRun(ref).value, late);
  }

  lemma AlikeWhenMatching(s: Sys, r: Ref, late: set<nat>)
    requires Inv(s) && Matches(s, r, late) && late == LapsedIds(s)
    ensures SettlesAlike(s, r)
  {
    hide EverEndedBy, Awaited, FinishedIn;
    forall id | id in s.calls ensures RefHas(r, id, s.calls[id]) {
      assert Accounted(s.history, id, s.calls[id]);
    }
  }

  // ----- every run of the reference is a run of the port -----

  /** Seeing a drained call through: its sender is dropped, then its caller notices. */
  function ReleaseAll(ids: set<nat>, below: nat): seq<Step> {
    if below == 0 then []
    else
      ReleaseAll(ids, below - 1)
      + (if below - 1 in ids then [Drop(below - 1), Observe(below - 1)] else [])
  }

  /** The port's steps for one step of the reference. */
  function PortSteps(r: Ref, step: RefStep): seq<Step> {
    match step
    case RefCall => [Issue, WriteOk(r.nextId)]
    case RefLine(m) =>
      if !m.IsEvent() && m.id.Some? && m.id.value in r.pending
      then [Line(m), Send(m.id.value), Observe(m.id.value)]
      else [Line(m)]
    case RefTimer(id) => [Expire(id), Cleanup(id)]
    case RefStop => [CallStop] + ReleaseAll(r.pending, r.nextId)
  }

  function PortRun(steps: seq<RefStep>): seq<Step>
    requires RefRun(steps).Some?
  {
    if steps == [] then []
    else PortRun(steps[..|steps| - 1]) + PortSteps(RefRun(steps[..|steps| - 1]).value, steps[|steps| - 1])
  }

  /** One call of the port as the reference has it, with no step half done. */
  predicate CallMirrors(r: Ref, id: nat, c: Call) {
    if id in r.settled then c.phase == Settled(r.settled[id])
    else c == Call(Waiting, Filed)
  }

  ghost predicate Mirrors(r: Ref, s: Sys) {
    && r.nextId == s.client.nextId
    && r.pending == s.client.pending
    && forall id :: id in s.calls ==> CallMirrors(r, id, s.calls[id])
  }

  lemma OneStep(s: Sys, step: Step)
    requires Enabled(s, step)
    ensures RunFrom(s, [step]) == Some(Next(s, step))
  {
    assert [step][..0] == [];
    assert RunFrom(s, []) == Some(s);
  }

  lemma TwoSteps(s: Sys, a: Step, b: Step)
    requires Enabled(s, a) && Enabled(Next(s, a), b)
    ensures RunFrom(s, [a, b]) == Some(Next(Next(s, a), b))
  {
    OneStep(s, a);
    OneStep(Next(s, a), b);
    RunConcat(s, [a], [b]);
    assert [a] + [b] == [a, b];
  }

  /** What dropping the drained calls below a bound leaves. */
  ghost predicate Released(s: Sys, t: Sys, ids: set<nat>, below: nat) {
    && t.client == s.client
    && t.calls.Keys == s.calls.Keys
    && forall id :: id in s.calls ==>
         t.calls[id] == (if id in ids && id < below then Call(Settled(Stopped), Dropped) else s.calls[id])
  }

  lemma {:induction false} ReleaseRuns(s: Sys, ids: set<nat>, below: nat)
    requires forall id :: id in ids ==> id in s.calls && s.calls[id] == Call(Waiting, WithStop)
    ensures var t := RunFrom(s, ReleaseAll(ids, below)); t.Some? && Released(s, t.value, ids, below)
  {
    if below > 0 {
      ReleaseRuns(s, ids, below - 1);
      var id := below - 1;
      var front := ReleaseAll(ids, below - 1);
      var t := RunFrom(s, front).value;
      if id in ids {
        TwoSteps(t, Drop(id), Observe(id));
        RunConcat(s, front, [Drop(id), Observe(id)]);
      } else {
        assert front + [] == front;
      }
    }
  }

  /** The port takes one step of the reference in several of its own. */
  lemma MirrorStep(s: Sys, r: Ref, step: RefStep)
    requires Books(s) && Mirrors(r, s) && RefEnabled(r, step)
    requires forall id :: id in r.settled ==> id < r.nextId
    requires forall id :: id in r.pending <==> 1 <= id < r.nextId && id !in r.settled
    ensures var t := RunFrom(s, PortSteps(r, step)); t.Some? && Mirrors(RefNext(r, step), t.value)
  {
    match step {
      case RefCall => TwoSteps(s, Issue, WriteOk(r.nextId));
      case RefLine(m) => MirrorLine(s, r, m);
      case RefTimer(id) => MirrorTimer(s, r, id);
      case RefStop => MirrorStop(s, r);
    }
  }

  lemma MirrorTimer(s: Sys, r: Ref, id: nat)
    requires Books(s) && Mirrors(r, s) && id in r.pending && id !in r.settled
    ensures var t := RunFrom(s, PortSteps(r, RefTimer(id)));
            t.Some? && Mirrors(RefNext(r, RefTimer(id)), t.value)
  {
    assert s.calls[id] == Call(Waiting, Filed);
    var s1 := Next(s, Expire(id));
    assert s1.calls[id] == Call(Ending(TimedOut), Filed);
    TwoSteps(s, Expire(id), Cleanup(id));
    var t := Next(s1, Cleanup(id));
    assert t.calls[id] == Call(Settled(TimedOut), Dropped);
    assert forall x :: x in t.calls && x != id ==> t.calls[x] == s.calls[x];
  }

  lemma MirrorLine(s: Sys, r: Ref, m: Message)
    requires Books(s) && Mirrors(r, s)
    requires forall id :: id in r.pending <==> 1 <= id < r.nextId && id !in r.settled
    ensures var t := RunFrom(s, PortSteps(r, RefLine(m)));
            t.Some? && Mirrors(RefNext(r, RefLine(m)), t.value)
  {
    OneStep(s, Line(m));
    if !m.IsEvent() && m.id.Some? && m.id.value in r.pending {
      var id := m.id.value;
      var s1 := Next(s, Line(m));
      TwoSteps(s1, Send(id), Observe(id));
      RunConcat(s, [Line(m)], [Send(id), Observe(id)]);
      assert [Line(m)] + [Send(id), Observe(id)] == [Line(m), Send(id), Observe(id)];
    }
  }

  lemma MirrorStop(s: Sys, r: Ref)
    requires Books(s) && Mirrors(r, s)
    requires forall id :: id in r.pending <==> 1 <= id < r.nextId && id !in r.settled
    ensures var t := RunFrom(s, PortSteps(r, RefStop));
            t.Some? && Mirrors(RefNext(r, RefStop), t.value)
  {
    OneStep(s, CallStop);
    ReleaseRuns(Next(s, CallStop), r.pending, r.nextId);
    RunConcat(s, [CallStop], ReleaseAll(r.pending, r.nextId));
  }

  /** Nothing is lost in the port: it can follow any reference run, settling each call with the
      same outcome and keeping the same calls pending. */
  lemma {:induction false} ReferenceReproduced(steps: seq<RefStep>)
    requires RefRun(steps).Some?
    ensures var t := Run(PortRun(steps)); t.Some? && Mirrors(RefRun(steps).value, t.value)
    decreases |steps|
  {
    if steps != [] {
      var front, last := steps[..|steps| - 1], steps[|steps| - 1];
      ReferenceReproduced(front);
      RefPendingIsUnsettled(front);
      RunKeeps(PortRun(front));
      MirrorStep(Run(PortRun(front)).value, RefRun(front).value, last);
      RunConcat(START, PortRun(front), PortSteps(RefRun(front).value, last));
    }
  }
}
