/**
 Runs of the broker protocol: any interleaving of calls, broker lines, timeouts, failed writes
 and `stop`, with the steps a thread takes between two locks kept apart. Taking a sender out of
 `pending`, using it, and the caller seeing the effect are three different steps, so a timeout can
 race a reply. The history records what an observer sees, and the results are about it.
 */
module BrokerRuns {
  import opened Prelude
  import opened Broker

  /** Where the caller is inside `rpc`. */
  datatype Phase = Writing | Waiting | Ending(outcome: Outcome) | Settled(outcome: Outcome)

  /** Where the call's sender is, and once used what it left in the channel. */
  datatype Sender =
    | Filed               // in `pending`
    | WithReader(m: Message) // taken by `handle_line`, not sent yet
    | WithStop            // drained by `stop`, not dropped yet
    | Sent(m: Message)    // the channel carries `m`
    | Dropped             // the channel is closed

  datatype Call = Call(phase: Phase, sender: Sender)

  datatype Event =
    | Issued(id: nat)
    | Read(m: Message)
    | StopCalled
    | Forgotten(id: nat)
    | Finished(id: nat, outcome: Outcome)

  /** `told` is what the owner of the client has been told so far. */
  datatype Sys = Sys(client: Client, calls: map<nat, Call>, history: seq<Event>, told: seq<Callback>)

  datatype Step =
    | Issue
    | WriteOk(id: nat)
    | WriteError(id: nat, reason: string)
    | Line(m: Message)
    | Send(id: nat)
    | CallStop
    | Drop(id: nat)
    | Observe(id: nat)
    | Expire(id: nat)
    | Cleanup(id: nat)
    | BecomeReady

  const START := Sys(INITIAL, map[], [], [])

  predicate Has(s: Sys, id: nat) {
    id in s.calls
  }

  predicate Enabled(s: Sys, step: Step) {
    match step
    case Issue => true
    case WriteOk(id) => Has(s, id) && s.calls[id].phase == Writing
    case WriteError(id, _) => Has(s, id) && s.calls[id].phase == Writing
    case Line(_) => true
    case Send(id) => Has(s, id) && s.calls[id].sender.WithReader?
    case CallStop => true
    case Drop(id) => Has(s, id) && s.calls[id].sender == WithStop
    case Observe(id) =>
      Has(s, id) && s.calls[id].phase == Waiting
      && (s.calls[id].sender.Sent? || s.calls[id].sender == Dropped)
    // A timer never wins against a channel that is already used: it is polled first.
    case Expire(id) =>
      Has(s, id) && s.calls[id].phase == Waiting
      && !s.calls[id].sender.Sent? && s.calls[id].sender != Dropped
    case Cleanup(id) => Has(s, id) && s.calls[id].phase.Ending?
    case BecomeReady => true
  }

  function SetPhase(s: Sys, id: nat, p: Phase): Sys
    requires Has(s, id)
  {
    s.(calls := s.calls[id := s.calls[id].(phase := p)])
  }

  function SetSender(s: Sys, id: nat, x: Sender): Sys
    requires Has(s, id)
  {
    s.(calls := s.calls[id := s.calls[id].(sender := x)])
  }

  function Log(s: Sys, e: Event): Sys {
    s.(history := s.history + [e])
  }

  function Next(s: Sys, step: Step): Sys
    requires Enabled(s, step)
  {
    match step
    case Issue =>
      var id := s.client.nextId;
      Log(s.(client := Register(s.client), calls := s.calls[id := Call(Writing, Filed)]), Issued(id))
    case WriteOk(id) => SetPhase(s, id, Waiting)
    case WriteError(id, reason) => SetPhase(s, id, Ending(WriteFailed(reason)))
    case Line(m) =>
      var claimed := Claimed(s.client, m);
      var callback := CallbackOf(m);
      var s' := s.(client := Take(s.client, m), told := s.told + if callback.Some? then [callback.value] else []);
      Log(if claimed.Some? && Has(s, claimed.value) then SetSender(s', claimed.value, WithReader(m)) else s',
          Read(m))
    case Send(id) => SetSender(s, id, Sent(s.calls[id].sender.m))
    case CallStop =>
      Log(s.(client := Halt(s.client),
             calls := map id | id in s.calls ::
               if id in s.client.pending then s.calls[id].(sender := WithStop) else s.calls[id]),
          StopCalled)
    case Drop(id) => SetSender(s, id, Dropped)
    case Observe(id) =>
      var o := if s.calls[id].sender.Sent? then Reply(s.calls[id].sender.m) else Stopped;
      Log(SetPhase(s, id, Settled(o)), Finished(id, o))
    case Expire(id) => SetPhase(s, id, Ending(TimedOut))
    case Cleanup(id) =>
      var o := s.calls[id].phase.outcome;
      var sender := if id in s.client.pending then Dropped else s.calls[id].sender;
      var s' := s.(client := Forget(s.client, id), calls := s.calls[id := Call(Settled(o), sender)]);
      Log(Log(s', Forgotten(id)), Finished(id, o))
    case BecomeReady => s.(client := s.client.(ready := true))
  }

  /** The state after a run from `s`, or None when some step of it was not possible. */
  function RunFrom(s: Sys, steps: seq<Step>): Option<Sys> {
    if steps == [] then Some(s)
    else
      match RunFrom(s, steps[..|steps| - 1])
      case None => None
      case Some(s') =>
        if Enabled(s', steps[|steps| - 1]) then Some(Next(s', steps[|steps| - 1])) else None
  }

  function Run(steps: seq<Step>): Option<Sys> {
    RunFrom(START, steps)
  }

  // ----- what the history says -----

  /** The events after which call `id` is no longer awaited. */
  predicate Ends(e: Event, id: nat) {
    e == StopCalled || e == Forgotten(id) || (e.Read? && e.m.Answers(id))
  }

  /** Call `id` was issued at `i` and nothing has ended it before `j`. */
  predicate OpenBetween(h: seq<Event>, id: nat, i: nat, j: nat) {
    i < j <= |h| && h[i] == Issued(id) && forall k :: i < k < j ==> !Ends(h[k], id)
  }

  /** Call `id` has been issued, and no answer, stop or clean-up has come since. */
  ghost predicate Awaited(h: seq<Event>, id: nat) {
    exists i: nat :: OpenBetween(h, id, i, |h|)
  }

  /** `e` came at `j`, and it was the first event to end call `id`. */
  ghost predicate EndedBy(h: seq<Event>, id: nat, e: Event, j: nat) {
    j < |h| && h[j] == e && Ends(e, id) && exists i: nat :: OpenBetween(h, id, i, j)
  }

  ghost predicate EverEndedBy(h: seq<Event>, id: nat, e: Event) {
    exists j: nat :: EndedBy(h, id, e, j)
  }

  predicate FinishedIn(h: seq<Event>, id: nat) {
    exists j :: 0 <= j < |h| && h[j].Finished? && h[j].id == id
  }

  // ----- the invariant -----

  /** Bookkeeping of the ids, the map and the senders. */
  ghost predicate Books(s: Sys) {
    && s.client.nextId >= 1
    && (forall id :: id in s.calls <==> 1 <= id < s.client.nextId)
    && (forall id :: id in s.client.pending <==> id in s.calls && s.calls[id].sender == Filed)
    && (forall id :: id in s.calls && s.calls[id].phase.Settled? ==> s.calls[id].sender != Filed)
  }

  /** Each call's sender and phase are what the history accounts for. */
  ghost predicate Accounted(h: seq<Event>, id: nat, c: Call) {
    && (c.sender == Filed ==> Awaited(h, id))
    && (c.sender.WithReader? || c.sender.Sent? ==> c.sender.m.Answers(id) && EverEndedBy(h, id, Read(c.sender.m)))
    && (c.sender == WithStop ==> EverEndedBy(h, id, StopCalled))
    && (c.sender == Dropped ==>
          EverEndedBy(h, id, StopCalled) || (EverEndedBy(h, id, Forgotten(id)) && c.phase.Settled?))
    && (c.sender != Filed ==> !Awaited(h, id))
    && (c.phase.Settled? <==> FinishedIn(h, id))
    && (c.phase.Settled? && c.phase.outcome.Reply? ==> c.sender == Sent(c.phase.outcome.message))
    && (c.phase.Settled? && c.phase.outcome == Stopped ==>
          c.sender == Dropped && EverEndedBy(h, id, StopCalled))
    && (c.phase.Ending? ==> c.phase.outcome.TimedOut? || c.phase.outcome.WriteFailed?)
  }

  /** Calls are issued in increasing order of id, all below `nextId`. */
  ghost predicate IssuesOrdered(h: seq<Event>, nextId: nat) {
    && (forall i :: 0 <= i < |h| && h[i].Issued? ==> 1 <= h[i].id < nextId)
    && (forall i, j :: 0 <= i < j < |h| && h[i].Issued? && h[j].Issued? ==> h[i].id < h[j].id)
  }

  predicate SettledWith(calls: map<nat, Call>, id: nat, o: Outcome) {
    id in calls && calls[id].phase == Settled(o)
  }

  /** A call finishes once, with the outcome it is left in. */
  ghost predicate FinishesAgree(h: seq<Event>, calls: map<nat, Call>) {
    && (forall j :: 0 <= j < |h| && h[j].Finished? ==> SettledWith(calls, h[j].id, h[j].outcome))
    && (forall i, j :: 0 <= i < j < |h| && h[i].Finished? && h[j].Finished? ==> h[i].id != h[j].id)
  }

  ghost predicate AllAccounted(h: seq<Event>, calls: map<nat, Call>) {
    forall id :: id in calls ==> Accounted(h, id, calls[id])
  }

  ghost predicate Inv(s: Sys) {
    && Books(s)
    && IssuesOrdered(s.history, s.client.nextId)
    && FinishesAgree(s.history, s.calls)
    && AllAccounted(s.history, s.calls)
  }

  // ----- how one more event changes what the history says -----

  lemma OpenStays(h: seq<Event>, e: Event, id: nat, i: nat, j: nat)
    requires j <= |h|
    ensures OpenBetween(h + [e], id, i, j) <==> OpenBetween(h, id, i, j)
  {
    assert forall k :: 0 <= k < |h| ==> (h + [e])[k] == h[k];
  }

  lemma AwaitedStep(h: seq<Event>, e: Event, id: nat)
    ensures Awaited(h + [e], id) <==> e == Issued(id) || (Awaited(h, id) && !Ends(e, id))
  {
    var h' := h + [e];
    if Awaited(h, id) && !Ends(e, id) {
      var i: nat :| OpenBetween(h, id, i, |h|);
      OpenStays(h, e, id, i, |h|);
      assert OpenBetween(h', id, i, |h'|);
    }
    if e == Issued(id) {
      assert OpenBetween(h', id, |h|, |h'|);
    }
    if Awaited(h', id) && e != Issued(id) {
      var i: nat :| OpenBetween(h', id, i, |h'|);
      assert i < |h| && !Ends(h'[|h|], id);
      assert OpenBetween(h', id, i, |h|);
      OpenStays(h, e, id, i, |h|);
    }
  }

  lemma EndedStays(h: seq<Event>, e: Event, id: nat, x: Event)
    ensures EverEndedBy(h, id, x) ==> EverEndedBy(h + [e], id, x)
    ensures Awaited(h, id) && Ends(e, id) ==> EverEndedBy(h + [e], id, e)
  {
    if EverEndedBy(h, id, x) {
      var j: nat :| EndedBy(h, id, x, j);
      var i: nat :| OpenBetween(h, id, i, j);
      OpenStays(h, e, id, i, j);
      assert EndedBy(h + [e], id, x, j);
    }
    if Awaited(h, id) && Ends(e, id) {
      var i: nat :| OpenBetween(h, id, i, |h|);
      OpenStays(h, e, id, i, |h|);
      assert EndedBy(h + [e], id, e, |h|);
    }
  }

  lemma FinishedStep(h: seq<Event>, e: Event, id: nat)
    ensures FinishedIn(h + [e], id) <==> FinishedIn(h, id) || (e.Finished? && e.id == id)
  {
    var h' := h + [e];
    if FinishedIn(h, id) {
      var j :| 0 <= j < |h| && h[j].Finished? && h[j].id == id;
      assert h'[j] == h[j];
    }
    if e.Finished? && e.id == id {
      assert h'[|h|] == e;
    }
  }

  /** An event that is not about a call, or comes when its sender has left the map. */
  lemma StillAccounted(h: seq<Event>, e: Event, id: nat, c: Call)
    requires Accounted(h, id, c)
    requires c.sender == Filed ==> !Ends(e, id)
    requires e != Issued(id) && !(e.Finished? && e.id == id)
    ensures Accounted(h + [e], id, c)
  {
    AwaitedStep(h, e, id);
    FinishedStep(h, e, id);
    EndedStays(h, e, id, StopCalled);
    EndedStays(h, e, id, Forgotten(id));
    if c.sender.WithReader? || c.sender.Sent? {
      EndedStays(h, e, id, Read(c.sender.m));
    }
  }

  // ----- each step keeps the invariant -----

  lemma IssuesStep(h: seq<Event>, e: Event, n: nat, n': nat)
    requires IssuesOrdered(h, n) && 1 <= n <= n'
    requires e.Issued? ==> e.id == n && n' == n + 1
    ensures IssuesOrdered(h + [e], n')
  {
  }

  /** Settled calls stay as they are, and only an unsettled call finishes. */
  lemma FinishesStep(h: seq<Event>, e: Event, calls: map<nat, Call>, calls': map<nat, Call>)
    requires FinishesAgree(h, calls)
    requires forall id, o :: SettledWith(calls, id, o) ==> SettledWith(calls', id, o)
    requires e.Finished? ==> SettledWith(calls', e.id, e.outcome)
    requires e.Finished? ==> forall o :: !SettledWith(calls, e.id, o)
    ensures FinishesAgree(h + [e], calls')
  {
    var h' := h + [e];
    forall j | 0 <= j < |h'| && h'[j].Finished?
      ensures SettledWith(calls', h'[j].id, h'[j].outcome)
    {
      if j < |h| { assert SettledWith(calls, h[j].id, h[j].outcome); }
    }
    forall i, j | 0 <= i < j < |h'| && h'[i].Finished? && h'[j].Finished?
      ensures h'[i].id != h'[j].id
    {
      if j == |h| { assert SettledWith(calls, h[i].id, h[i].outcome); }
    }
  }

  lemma InvStart()
    ensures Inv(START)
  {
  }

  lemma BooksKeep(s: Sys, step: Step)
    requires Books(s) && Enabled(s, step)
    ensures Books(Next(s, step))
  {
  }

  /** A step that changes phases or used senders and logs nothing. */
  lemma SilentKeeps(s: Sys, step: Step)
    requires Inv(s) && Enabled(s, step)
    requires Silent(step)
    ensures Inv(Next(s, step))
  {
    BooksKeep(s, step);
    SilentShape(s, step);
    hide Accounted, IssuesOrdered, FinishesAgree, Next, Books, SilentChange, Enabled;
    var s' := Next(s, step);
    forall x | x in s'.calls ensures Accounted(s'.history, x, s'.calls[x]) {
      if s'.calls[x] != s.calls[x] {
        SilentAccounted(s.history, x, s.calls[x], s'.calls[x]);
      }
    }
    SilentFinishes(s.history, s.calls, s'.calls);
  }

  predicate Silent(step: Step) {
    step.WriteOk? || step.WriteError? || step.Send? || step.Drop? || step.Expire? || step.BecomeReady?
  }

  lemma SilentShape(s: Sys, step: Step)
    requires Enabled(s, step) && Silent(step)
    ensures var s' := Next(s, step);
            && s'.history == s.history && s'.client.nextId == s.client.nextId
            && s'.calls.Keys == s.calls.Keys
            && (forall x :: x in s.calls ==>
                  s'.calls[x] == s.calls[x] || SilentChange(s.calls[x], s'.calls[x]))
            && (forall id, o :: SettledWith(s.calls, id, o) ==> SettledWith(s'.calls, id, o))
  {
  }

  /** What a silent step may do to one call. */
  predicate SilentChange(c: Call, c': Call) {
    || (c'.sender == c.sender && c.phase == Writing && c'.phase == Waiting)
    || (c'.sender == c.sender && c.phase == Writing && c'.phase.Ending? && c'.phase.outcome.WriteFailed?)
    || (c'.sender == c.sender && c.phase == Waiting && c'.phase == Ending(TimedOut))
    || (c'.phase == c.phase && c.sender.WithReader? && c'.sender == Sent(c.sender.m))
    || (c'.phase == c.phase && c.sender == WithStop && c'.sender == Dropped)
  }

  lemma SilentAccounted(h: seq<Event>, id: nat, c: Call, c': Call)
    requires Accounted(h, id, c) && SilentChange(c, c')
    ensures Accounted(h, id, c')
  {
    hide EverEndedBy, Awaited, FinishedIn;
  }

  lemma SilentFinishes(h: seq<Event>, calls: map<nat, Call>, calls': map<nat, Call>)
    requires FinishesAgree(h, calls)
    requires forall id, o :: SettledWith(calls, id, o) ==> SettledWith(calls', id, o)
    ensures FinishesAgree(h, calls')
  {
  }

  lemma IssueKeeps(s: Sys)
    requires Inv(s)
    ensures Inv(Next(s, Issue))
  {
    BooksKeep(s, Issue);
    hide Accounted, IssuesOrdered, FinishesAgree;
    var id := s.client.nextId;
    var s' := Next(s, Issue);
    IssuesStep(s.history, Issued(id), id, id + 1);
    FinishesStep(s.history, Issued(id), s.calls, s'.calls);
    forall x | x in s'.calls ensures Accounted(s'.history, x, s'.calls[x]) {
      if x == id {
        NewlyIssued(s, id);
      } else {
        StillAccounted(s.history, Issued(id), x, s.calls[x]);
      }
    }
  }

  lemma NewlyIssued(s: Sys, id: nat)
    requires FinishesAgree(s.history, s.calls) && id !in s.calls
    ensures Accounted(s.history + [Issued(id)], id, Call(Writing, Filed))
  {
    AwaitedStep(s.history, Issued(id), id);
    FinishedStep(s.history, Issued(id), id);
  }

  /** A filed sender that an ending event takes out of the map. */
  lemma TakenAccounted(h: seq<Event>, e: Event, id: nat, c: Call, c': Call)
    requires Accounted(h, id, c) && c.sender == Filed && Ends(e, id) && !e.Forgotten?
    requires !c.phase.Settled?
    requires c' == c.(sender := if e.Read? then WithReader(e.m) else WithStop)
    ensures Accounted(h + [e], id, c')
  {
    AwaitedStep(h, e, id);
    FinishedStep(h, e, id);
    EndedStays(h, e, id, e);
  }

  lemma LineKeeps(s: Sys, m: Message)
    requires Inv(s)
    ensures Inv(Next(s, Line(m)))
  {
    BooksKeep(s, Line(m));
    hide Accounted, IssuesOrdered, FinishesAgree;
    var s' := Next(s, Line(m));
    IssuesStep(s.history, Read(m), s.client.nextId, s.client.nextId);
    FinishesStep(s.history, Read(m), s.calls, s'.calls);
    forall x | x in s'.calls ensures Accounted(s'.history, x, s'.calls[x]) {
      if Claimed(s.client, m) == Some(x) {
        TakenAccounted(s.history, Read(m), x, s.calls[x], s'.calls[x]);
      } else {
        StillAccounted(s.history, Read(m), x, s.calls[x]);
      }
    }
  }

  lemma StopKeeps(s: Sys)
    requires Inv(s)
    ensures Inv(Next(s, CallStop))
  {
    BooksKeep(s, CallStop);
    hide Accounted, IssuesOrdered, FinishesAgree;
    var s' := Next(s, CallStop);
    IssuesStep(s.history, StopCalled, s.client.nextId, s.client.nextId);
    FinishesStep(s.history, StopCalled, s.calls, s'.calls);
    forall x | x in s'.calls ensures Accounted(s'.history, x, s'.calls[x]) {
      if x in s.client.pending {
        TakenAccounted(s.history, StopCalled, x, s.calls[x], s'.calls[x]);
      } else {
        StillAccounted(s.history, StopCalled, x, s.calls[x]);
      }
    }
  }

  lemma ObserveKeeps(s: Sys, id: nat)
    requires Inv(s) && Enabled(s, Observe(id))
    ensures Inv(Next(s, Observe(id)))
  {
    BooksKeep(s, Observe(id));
    var s' := Next(s, Observe(id));
    var c := s.calls[id];
    var o := if c.sender.Sent? then Reply(c.sender.m) else Stopped;
    var e := Finished(id, o);
    assert s'.calls == s.calls[id := c.(phase := Settled(o))] && s'.history == s.history + [e];
    assert s'.client == s.client;
    hide Accounted, IssuesOrdered, FinishesAgree, Next, Books, Enabled;
    IssuesStep(s.history, e, s.client.nextId, s.client.nextId);
    ObservedFinishes(s.history, s.calls, id, o);
    forall x | x in s'.calls ensures Accounted(s'.history, x, s'.calls[x]) {
      if x == id {
        ObservedAccounted(s.history, id, s.calls[id]);
      } else {
        StillAccounted(s.history, e, x, s.calls[x]);
      }
    }
  }

  lemma ObservedFinishes(h: seq<Event>, calls: map<nat, Call>, id: nat, o: Outcome)
    requires FinishesAgree(h, calls) && id in calls && !calls[id].phase.Settled?
    ensures FinishesAgree(h + [Finished(id, o)], calls[id := calls[id].(phase := Settled(o))])
  {
    hide FinishesAgree;
    FinishesStep(h, Finished(id, o), calls, calls[id := calls[id].(phase := Settled(o))]);
  }

  lemma ObservedAccounted(h: seq<Event>, id: nat, c: Call)
    requires Accounted(h, id, c) && c.phase == Waiting && (c.sender.Sent? || c.sender == Dropped)
    ensures var o := if c.sender.Sent? then Reply(c.sender.m) else Stopped;
            Accounted(h + [Finished(id, o)], id, c.(phase := Settled(o)))
  {
    var o := if c.sender.Sent? then Reply(c.sender.m) else Stopped;
    var e := Finished(id, o);
    AwaitedStep(h, e, id);
    FinishedStep(h, e, id);
    EndedStays(h, e, id, StopCalled);
    if c.sender.Sent? {
      EndedStays(h, e, id, Read(c.sender.m));
    }
  }

  lemma CleanupKeeps(s: Sys, id: nat)
    requires Inv(s) && Enabled(s, Cleanup(id))
    ensures Inv(Next(s, Cleanup(id)))
  {
    BooksKeep(s, Cleanup(id));
    hide Accounted, IssuesOrdered, FinishesAgree;
    var s' := Next(s, Cleanup(id));
    var f, e := Forgotten(id), Finished(id, s.calls[id].phase.outcome);
    var h1 := s.history + [f];
    var n := s.client.nextId;
    IssuesStep(s.history, f, n, n);
    IssuesStep(h1, e, n, n);
    FinishesStep(s.history, f, s.calls, s.calls);
    FinishesStep(h1, e, s.calls, s'.calls);
    forall x | x in s'.calls ensures Accounted(s'.history, x, s'.calls[x]) {
      if x == id {
        CleanedAccounted(s.history, id, s.calls[id], s'.calls[id]);
      } else {
        StillAccounted(s.history, f, x, s.calls[x]);
        StillAccounted(h1, e, x, s.calls[x]);
      }
    }
  }

  lemma CleanedAccounted(h: seq<Event>, id: nat, c: Call, c': Call)
    requires Accounted(h, id, c) && c.phase.Ending?
    requires c' == Call(Settled(c.phase.outcome), if c.sender == Filed then Dropped else c.sender)
    ensures Accounted(h + [Forgotten(id)] + [Finished(id, c.phase.outcome)], id, c')
  {
    var f, e := Forgotten(id), Finished(id, c.phase.outcome);
    var h1 := h + [f];
    AwaitedStep(h, f, id);
    AwaitedStep(h1, e, id);
    FinishedStep(h, f, id);
    FinishedStep(h1, e, id);
    EndedStays(h, f, id, StopCalled);
    EndedStays(h1, e, id, StopCalled);
    EndedStays(h1, e, id, f);
    if c.sender.WithReader? || c.sender.Sent? {
      EndedStays(h, f, id, Read(c.sender.m));
      EndedStays(h1, e, id, Read(c.sender.m));
    }
  }

  lemma StepKeeps(s: Sys, step: Step)
    requires Inv(s) && Enabled(s, step)
    ensures Inv(Next(s, step))
  {
    hide Inv, Next;
    match step {
      case Issue => IssueKeeps(s);
      case Line(m) => LineKeeps(s, m);
      case CallStop => StopKeeps(s);
      case Observe(id) => ObserveKeeps(s, id);
      case Cleanup(id) => CleanupKeeps(s, id);
      case _ => SilentKeeps(s, step);
    }
  }

  lemma {:induction false} RunFromKeeps(s: Sys, steps: seq<Step>)
    requires Inv(s)
    ensures RunFrom(s, steps).Some? ==> Inv(RunFrom(s, steps).value)
    decreases |steps|
  {
    hide Inv;
    if steps != [] && RunFrom(s, steps).Some? {
      RunFromKeeps(s, steps[..|steps| - 1]);
      StepKeeps(RunFrom(s, steps[..|steps| - 1]).value, steps[|steps| - 1]);
    }
  }

  lemma RunKeeps(steps: seq<Step>)
    ensures Run(steps).Some? ==> Inv(Run(steps).value)
  {
    InvStart();
    RunFromKeeps(START, steps);
  }

  lemma {:induction false} RunConcat(s: Sys, a: seq<Step>, b: seq<Step>)
    ensures RunFrom(s, a + b) ==
            match RunFrom(s, a) case None => None case Some(s') => RunFrom(s', b)
    decreases |b|
  {
    if b == [] {
      assert a + b == a;
    } else {
      assert (a + b)[..|a + b| - 1] == a + b[..|b| - 1];
      RunConcat(s, a, b[..|b| - 1]);
    }
  }

  // ----- results about every run -----

  /** The map holds exactly the calls that are still awaited. */
  lemma PendingIsAwaited(steps: seq<Step>)
    requires Run(steps).Some?
    ensures var s := Run(steps).value;
            forall id :: id in s.client.pending <==> Awaited(s.history, id)
  {
    RunKeeps(steps);
    var s := Run(steps).value;
    forall id ensures id in s.client.pending <==> Awaited(s.history, id) {
      if Awaited(s.history, id) {
        AwaitedIssued(s, id);
      }
      if id in s.calls {
        assert Accounted(s.history, id, s.calls[id]);
      }
    }
  }

  lemma AwaitedIssued(s: Sys, id: nat)
    requires Inv(s) && Awaited(s.history, id)
    ensures id in s.calls
  {
    var i: nat :| OpenBetween(s.history, id, i, |s.history|);
    assert s.history[i].Issued?;
  }

  /** No thread has a step of its own left to do: nothing is being written, taken to a caller,
      dropped, noticed or cleaned up. */
  predicate Quiet(s: Sys) {
    forall id :: id in s.calls ==>
      && !Enabled(s, WriteOk(id)) && !Enabled(s, Send(id)) && !Enabled(s, Drop(id))
      && !Enabled(s, Observe(id)) && !Enabled(s, Cleanup(id))
  }

  /** Pending calls are unfinished; and when no step is left to do, unfinished calls are pending. */
  lemma PendingIsUnfinished(steps: seq<Step>)
    requires Run(steps).Some?
    ensures var s := Run(steps).value;
            && (forall id :: id in s.client.pending ==> 1 <= id < s.client.nextId && !FinishedIn(s.history, id))
            && (Quiet(s) ==> forall id :: 1 <= id < s.client.nextId && !FinishedIn(s.history, id) ==> id in s.client.pending)
  {
    RunKeeps(steps);
    var s := Run(steps).value;
    hide EverEndedBy, Awaited, Run;
    forall id | id in s.calls
      ensures s.calls[id].phase.Settled? <==> FinishedIn(s.history, id)
    {
      assert Accounted(s.history, id, s.calls[id]);
    }
    if Quiet(s) {
      QuietMeans(s);
    }
    hide Quiet, AllAccounted, IssuesOrdered, FinishesAgree, FinishedIn;
  }

  lemma QuietMeans(s: Sys)
    requires Quiet(s)
    ensures forall id :: id in s.calls && !s.calls[id].phase.Settled? ==> s.calls[id].sender == Filed
  {
    forall id | id in s.calls && !s.calls[id].phase.Settled? ensures s.calls[id].sender == Filed {
      assert !Enabled(s, WriteOk(id)) && !Enabled(s, Cleanup(id));
      assert !Enabled(s, Observe(id)) && !Enabled(s, Send(id)) && !Enabled(s, Drop(id));
    }
  }

  /** No call is settled twice, and no id is issued twice. */
  lemma SettledOnce(steps: seq<Step>, i: nat, j: nat)
    requires Run(steps).Some? && i < j < |Run(steps).value.history|
    ensures var h := Run(steps).value.history;
            && (h[i].Finished? && h[j].Finished? ==> h[i].id != h[j].id)
            && (h[i].Issued? && h[j].Issued? ==> h[i].id < h[j].id)
  {
    RunKeeps(steps);
  }

  /** Every outcome has its cause before it in the history. */
  ghost predicate Caused(h: seq<Event>, k: nat)
    requires k < |h| && h[k].Finished?
  {
    var id := h[k].id;
    match h[k].outcome
    case Reply(m) => m.Answers(id) && exists j: nat :: j < k && EndedBy(h, id, Read(m), j)
    case Stopped => exists j: nat :: j < k && EndedBy(h, id, StopCalled, j)
    case TimedOut => h[..k] != [] && h[k - 1] == Forgotten(id)
    case WriteFailed(_) => h[..k] != [] && h[k - 1] == Forgotten(id)
  }

  lemma CausedStays(h: seq<Event>, e: Event, k: nat)
    requires k < |h| && h[k].Finished? && Caused(h, k)
    ensures Caused(h + [e], k)
  {
    var id := h[k].id;
    if h[k].outcome.Reply? || h[k].outcome.Stopped? {
      var x := if h[k].outcome.Reply? then Read(h[k].outcome.message) else StopCalled;
      var j: nat :| j < k && EndedBy(h, id, x, j);
      var i: nat :| OpenBetween(h, id, i, j);
      OpenStays(h, e, id, i, j);
      assert EndedBy(h + [e], id, x, j);
    }
  }

  lemma CausedNow(s: Sys, id: nat)
    requires Inv(s) && Enabled(s, Observe(id))
    ensures var h := Next(s, Observe(id)).history;
            |h| == |s.history| + 1 && h[|h| - 1].Finished? && Caused(h, |h| - 1)
  {
    var h := s.history;
    assert Accounted(h, id, s.calls[id]);
    var o := if s.calls[id].sender.Sent? then Reply(s.calls[id].sender.m) else Stopped;
    var x := if s.calls[id].sender.Sent? then Read(s.calls[id].sender.m) else StopCalled;
    var j: nat :| EndedBy(h, id, x, j);
    var i: nat :| OpenBetween(h, id, i, j);
    OpenStays(h, Finished(id, o), id, i, j);
    assert EndedBy(h + [Finished(id, o)], id, x, j);
  }

  lemma {:induction false} OutcomesCaused(steps: seq<Step>, k: nat)
    requires Run(steps).Some? && k < |Run(steps).value.history|
    requires Run(steps).value.history[k].Finished?
    ensures Caused(Run(steps).value.history, k)
    decreases |steps|
  {
    var front, last := steps[..|steps| - 1], steps[|steps| - 1];
    var s, s' := Run(front).value, Run(steps).value;
    RunKeeps(front);
    hide Inv, Caused, EndedBy;
    if k < |s.history| {
      OutcomesCaused(front, k);
      EarlierCaused(s, last, k);
    } else if last.Observe? {
      CausedNow(s, last.id);
    } else {
      CleanupCaused(s, last, k);
    }
  }

  lemma EarlierCaused(s: Sys, step: Step, k: nat)
    requires Enabled(s, step) && k < |s.history| && s.history[k].Finished? && Caused(s.history, k)
    ensures k < |Next(s, step).history| && Next(s, step).history[k] == s.history[k]
    ensures Caused(Next(s, step).history, k)
  {
    hide Caused;
    var h, h' := s.history, Next(s, step).history;
    if |h'| == |h| + 1 {
      CausedStays(h, h'[|h|], k);
      assert h' == h + [h'[|h|]];
    } else if |h'| == |h| + 2 {
      CausedStays(h, h'[|h|], k);
      CausedStays(h + [h'[|h|]], h'[|h| + 1], k);
      assert h' == h + [h'[|h|]] + [h'[|h| + 1]];
    }
  }

  lemma CleanupCaused(s: Sys, step: Step, k: nat)
    requires Inv(s) && Enabled(s, step) && !step.Observe?
    requires |s.history| <= k < |Next(s, step).history| && Next(s, step).history[k].Finished?
    ensures Caused(Next(s, step).history, k)
  {
    hide Books, IssuesOrdered, FinishesAgree;
    assert step.Cleanup?;
    assert Accounted(s.history, step.id, s.calls[step.id]);
  }

  /** An id that has left the map never returns to it, and a settled call stays as it is. */
  lemma {:induction false} NeverAgain(s: Sys, more: seq<Step>, id: nat)
    requires Inv(s) && id in s.calls && RunFrom(s, more).Some?
    ensures var t := RunFrom(s, more).value;
            && id in t.calls
            && (id !in s.client.pending ==> id !in t.client.pending)
            && (s.calls[id].phase.Settled? ==> t.calls[id].phase == s.calls[id].phase)
    decreases |more|
  {
    hide Inv, Next;
    if more != [] {
      NeverAgain(s, more[..|more| - 1], id);
      RunFromKeeps(s, more[..|more| - 1]);
      StepNeverReturns(RunFrom(s, more[..|more| - 1]).value, more[|more| - 1], id);
    }
  }

  lemma StepNeverReturns(s: Sys, step: Step, id: nat)
    requires Inv(s) && Enabled(s, step) && id in s.calls
    ensures var t := Next(s, step);
            && id in t.calls
            && (id !in s.client.pending ==> id !in t.client.pending)
            && (s.calls[id].phase.Settled? ==> t.calls[id].phase == s.calls[id].phase)
  {
    hide AllAccounted, IssuesOrdered, FinishesAgree;
  }

  /** A reply to a call that is no longer awaited is only logged, however late it comes, and nothing
      is told of it. */
  lemma LateReplyDiscarded(steps: seq<Step>, more: seq<Step>, id: nat, m: Message)
    requires Run(steps).Some? && Run(steps + more).Some?
    requires id in Run(steps).value.calls && !Awaited(Run(steps).value.history, id)
    requires m.Answers(id)
    ensures var t := Run(steps + more).value;
            Next(t, Line(m)) == t.(history := t.history + [Read(m)])
  {
    RunKeeps(steps);
    PendingIsAwaited(steps);
    RunConcat(START, steps, more);
    hide Awaited, Next, Inv;
    NeverAgain(Run(steps).value, more, id);
    NotClaimed(Run(steps + more).value, id, m);
  }

  lemma NotClaimed(s: Sys, id: nat, m: Message)
    requires id !in s.client.pending && m.Answers(id)
    ensures Next(s, Line(m)) == s.(history := s.history + [Read(m)])
  {
  }
}
