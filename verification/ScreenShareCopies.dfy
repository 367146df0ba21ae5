/** The two copies of the gateway-wide share: when they part, and when they meet again. */
module ScreenShareCopies {
  import opened Prelude
  import opened ScreenShare
  import opened ScreenShareRuns

  // ----- where the copies part -----

  predicate CopiesEqual(s: State) {
    s.active.Some? && s.active.value.id in s.sessions ==> s.sessions[s.active.value.id] == s.active.value
  }

  /** Attaching a new viewer to the gateway-wide share writes the map only. */
  predicate AddsToActive(s: State, op: Op) {
    && op.Add? && s.active.Some? && op.id == s.active.value.id && op.id in s.sessions
    && s.sessions[op.id].status != Idle && op.deviceId != s.sessions[op.id].hostDeviceId
    && op.deviceId in s.devices && s.devices[op.deviceId].authorized
    && !Attached(s.sessions[op.id], op.deviceId)
  }

  /** A measurement writes the second copy only; it leaves no trace when it repeats what was there. */
  predicate MeasuresAnew(s: State, op: Op) {
    && op.Measure? && s.active.Some?
    && (var x := s.active.value;
        var viewers := Retransport(x.viewers, op.deviceId, op.latencyMs,
                                   if op.preferP2P && op.latencyMs < 100.0 then P2P else Turn);
        op.now != x.updatedAt || viewers != x.viewers || Summary(viewers, x.transport) != x.transport)
  }

  /** Equal copies part exactly at those two calls. */
  lemma CopiesPart(s: State, op: Op)
    requires Inv(s) && Fresh(s, op) && CopiesEqual(s)
    ensures CopiesEqual(Apply(s, op)) <==> !AddsToActive(s, op) && !MeasuresAnew(s, op)
  {
    hide ControllerCan, IndexOk, CanControl, Attached, Unindex, PutBoth, Without;
    match op {
      case Add(x, deviceId, now) => AddParts(s, op);
      case Measure(_, _, _, _) => MeasureParts(s, op);
      case Start(_, _, _) => StartJoins(s, op);
      case Register(_, _) =>
      case Remove(x, deviceId, now) =>
        var e := RemoveViewer(s, x, deviceId, now);
        if e.state != s { PutBothJoins(s, e.result.value); }
      case Resolve(x, approved, now) =>
        var e := ResolveApproval(s, x, approved, now);
        if e.result.Ok? { PutBothJoins(s, e.result.value); }
      case SetOwner(x, owner, now) =>
        var e := SetControlOwner(s, x, owner, now);
        if e.result.Ok? { PutBothJoins(s, e.result.value); }
      case Stop(t, now) =>
        var e := StopShare(s, t, now);
        if Target(s, t).Some? { PutBothJoins(s, e.result.value.value); }
      case Transfer(deviceId, t, now) =>
        var e := TransferControl(s, deviceId, t, now);
        if e.result.Ok? { PutBothJoins(s, e.result.value); }
    }
  }

  lemma PutBothJoins(s: State, y: Session)
    requires CopiesEqual(s)
    ensures CopiesEqual(PutBoth(s, y)) && CopiesEqual(Unindex(PutBoth(s, y), y))
  {
  }

  lemma AddParts(s: State, op: Op)
    requires KeysOk(s) && ActiveOk(s) && CopiesEqual(s) && op.Add?
    ensures CopiesEqual(Apply(s, op)) <==> !AddsToActive(s, op)
  {
    hide ControllerCan;
    var t := Apply(s, op);
    if t != s {
      assert |t.sessions[op.id].viewers| == |s.sessions[op.id].viewers| + 1;
    }
  }

  lemma MeasureParts(s: State, op: Op)
    requires KeysOk(s) && ActiveOk(s) && CopiesEqual(s) && op.Measure?
    ensures CopiesEqual(Apply(s, op)) <==> !MeasuresAnew(s, op)
  {
    hide ControllerCan, Summary, Retransport;
  }

  lemma StartJoins(s: State, op: Op)
    requires Inv(s) && Fresh(s, op) && CopiesEqual(s) && op.Start?
    ensures CopiesEqual(Apply(s, op))
  {
    hide ControllerCan, Viewers, NewSession;
    var input := op.input;
    if Given(input.chatId) && input.chatId.value in s.chatSessions {
      assert LiveIn(s.sessions[s.chatSessions[input.chatId.value]], input.chatId.value);
    }
    if input.hostDeviceId in s.devices {
      NewSessionId(s, op);
    }
  }

  lemma NewSessionId(s: State, op: Op)
    requires op.Start? && op.input.hostDeviceId in s.devices
    ensures NewSession(s.devices[op.input.hostDeviceId], Viewers(s.devices, op.input.viewerDeviceIds, op.now),
                       op.input, op.freshId, op.now).id == op.freshId
  {
  }

  // ----- a run in which they are apart -----

  /** Joining the gateway-wide share leaves the second copy without the new viewer. */
  lemma CopiesApart()
    ensures var h, v := Device("h", "h", "desktop", true, [], "t", "t"), Device("v", "v", "desktop", true, [], "t", "t");
            var run := Run([Register(h, "t"), Register(v, "t"), Start(StartInput("h", [], None, None, None, false, None), "1", "t"), Add("1", "v", "t")]);
            run.Some? && !CopiesEqual(run.value)
  {
    var h, v := Device("h", "h", "desktop", true, [], "t", "t"), Device("v", "v", "desktop", true, [], "t", "t");
    var a, b, c, d := Register(h, "t"), Register(v, "t"), Start(StartInput("h", [], None, None, None, false, None), "1", "t"), Add("1", "v", "t");
    RunSnoc([], a);
    RunSnoc([a], b);
    RunSnoc([a, b], c);
    RunSnoc([a, b, c], d);
    assert Run([]) == Some(EMPTY);
    hide Run, Apply, CopiesEqual;
    assert [] + [a] == [a] && [a] + [b] == [a, b] && [a, b] + [c] == [a, b, c] && [a, b, c] + [d] == [a, b, c, d];
    SharedThenJoined(h, v);
  }

  lemma SharedThenJoined(h: Device, v: Device)
    requires h.id == "h" && v.id == "v" && h.authorized && v.authorized
    ensures var s := Apply(Apply(Apply(EMPTY, Register(h, "t")), Register(v, "t")), Start(StartInput("h", [], None, None, None, false, None), "1", "t"));
            "1" !in Apply(Apply(EMPTY, Register(h, "t")), Register(v, "t")).sessions && !CopiesEqual(Apply(s, Add("1", "v", "t")))
  {
    var t := Apply(Apply(EMPTY, Register(h, "t")), Register(v, "t"));
    var s := Apply(t, Start(StartInput("h", [], None, None, None, false, None), "1", "t"));
    assert Viewers(t.devices, [], "t") == [];
    assert s.sessions["1"].viewers == [] && s.active == Some(s.sessions["1"]);
    assert |Apply(s, Add("1", "v", "t")).sessions["1"].viewers| == 1;
  }

  // ----- when they meet again -----

  /** The second copy never has more viewers than the map's. */
  predicate NotMore(s: State) {
    s.active.Some? && s.active.value.id in s.sessions ==>
      |s.active.value.viewers| <= |s.sessions[s.active.value.id].viewers|
  }

  /** A call that writes session `id` to both copies gets past all its checks. */
  predicate Rewrites(s: State, op: Op, id: string)
    requires id in s.sessions
  {
    var x := s.sessions[id];
    match op
    case Remove(i, deviceId, _) => i == id && x.status != Idle && deviceId != x.hostDeviceId && Attached(x, deviceId)
    case Stop(t, _) => Target(s, t).Some? && Target(s, t).value.id == id
    case Resolve(i, approved, _) => i == id && x.status == Sharing && (approved || x.pendingApproval)
    case SetOwner(i, _, _) => i == id && x.status == Sharing && !x.pendingApproval
    case Transfer(deviceId, t, _) =>
      Target(s, t).Some? && Target(s, t).value.id == id && Target(s, t).value.status != Idle
      && CanControl(Target(s, t).value, deviceId)
    case _ => false
  }

  /** A share outside any chat takes the place of the old one in the second copy. */
  predicate Replaces(s: State, op: Op) {
    op.Start? && !Given(op.input.chatId)
    && op.input.hostDeviceId in s.devices && s.devices[op.input.hostDeviceId].authorized
  }

  /** A measurement that leaves in the second copy just what the map has. */
  predicate MeasuresBack(s: State, op: Op) {
    && op.Measure? && s.active.Some? && s.active.value.id in s.sessions
    && (var x, y := s.active.value, s.sessions[s.active.value.id];
        var viewers := Retransport(x.viewers, op.deviceId, op.latencyMs,
                                   if op.preferP2P && op.latencyMs < 100.0 then P2P else Turn);
        op.now == y.updatedAt && viewers == y.viewers && Summary(viewers, x.transport) == y.transport)
  }

  /** What writing one session to both copies does to the pair. */
  lemma PutBothPair(s: State, y: Session)
    requires s.active.Some? && s.active.value.id in s.sessions
    ensures var t, u := PutBoth(s, y), Unindex(PutBoth(s, y), y);
            && u.active == t.active && u.sessions == t.sessions
            && (y.id == s.active.value.id ==> CopiesEqual(t) && NotMore(t) && CopiesEqual(u) && NotMore(u))
            && (y.id != s.active.value.id ==>
                  && t.active == s.active && s.active.value.id in t.sessions
                  && t.sessions[s.active.value.id] == s.sessions[s.active.value.id])
  {
  }

  /** The pair of copies is what it was. */
  predicate PairKept(s: State, t: State)
    requires s.active.Some? && s.active.value.id in s.sessions
  {
    t.active == s.active && s.active.value.id in t.sessions
    && t.sessions[s.active.value.id] == s.sessions[s.active.value.id]
  }

  /** A call either leaves the pair alone or writes one session to both copies. */
  predicate MeetsOrKeeps(s: State, op: Op)
    requires s.active.Some? && s.active.value.id in s.sessions
  {
    if Rewrites(s, op, s.active.value.id) then CopiesEqual(Apply(s, op)) && NotMore(Apply(s, op))
    else PairKept(s, Apply(s, op))
  }

  lemma RewritesOrKeeps(s: State, op: Op)
    requires Inv(s) && s.active.Some? && (op.Remove? || op.Stop? || op.Resolve? || op.SetOwner? || op.Transfer?)
    ensures MeetsOrKeeps(s, op)
  {
    hide MeetsOrKeeps, ControllerCan, IndexOk;
    if op.Stop? || op.Transfer? {
      TargetPair(s, op);
    } else {
      NamedPair(s, op);
    }
  }

  lemma NamedPair(s: State, op: Op)
    requires Inv(s) && s.active.Some? && (op.Remove? || op.Resolve? || op.SetOwner?)
    ensures MeetsOrKeeps(s, op)
  {
    hide ControllerCan, IndexOk, CanControl, Attached, Without, Unindex, PutBoth, CopiesEqual, NotMore;
    match op {
      case Remove(x, deviceId, now) =>
        var e := RemoveViewer(s, x, deviceId, now);
        if x in s.sessions && e.result.Ok? { PutBothPair(s, e.result.value); }
      case Resolve(x, approved, now) =>
        var e := ResolveApproval(s, x, approved, now);
        if e.result.Ok? { PutBothPair(s, e.result.value); }
      case SetOwner(x, owner, now) =>
        var e := SetControlOwner(s, x, owner, now);
        if e.result.Ok? { PutBothPair(s, e.result.value); }
      case _ =>
    }
  }

  lemma TargetPair(s: State, op: Op)
    requires Inv(s) && s.active.Some? && (op.Stop? || op.Transfer?)
    ensures MeetsOrKeeps(s, op)
  {
    hide ControllerCan, IndexOk, CanControl, Unindex, PutBoth, CopiesEqual, NotMore;
    match op {
      case Stop(t, now) =>
        var e := StopShare(s, t, now);
        if Target(s, t).Some? { PutBothPair(s, e.result.value.value); }
      case Transfer(deviceId, t, now) =>
        var e := TransferControl(s, deviceId, t, now);
        if e.result.Ok? { PutBothPair(s, e.result.value); }
      case _ =>
    }
  }

  lemma StartPair(s: State, op: Op)
    requires Inv(s) && Fresh(s, op) && s.active.Some? && op.Start?
    ensures if Replaces(s, op) then CopiesEqual(Apply(s, op)) && NotMore(Apply(s, op)) else PairKept(s, Apply(s, op))
  {
    hide ControllerCan, Viewers, NewSession;
    var input := op.input;
    if Given(input.chatId) && input.chatId.value in s.chatSessions {
      assert LiveIn(s.sessions[s.chatSessions[input.chatId.value]], input.chatId.value);
    }
    if input.hostDeviceId in s.devices {
      NewSessionId(s, op);
    }
  }

  lemma AddPair(s: State, op: Op)
    requires KeysOk(s) && ActiveOk(s) && s.active.Some? && op.Add? && NotMore(s)
    ensures NotMore(Apply(s, op))
    ensures CopiesEqual(Apply(s, op)) ==> CopiesEqual(s)
  {
    hide ControllerCan;
    var t := Apply(s, op);
    if t != s {
      assert |t.sessions[op.id].viewers| == |s.sessions[op.id].viewers| + 1;
    }
  }

  lemma MeasurePair(s: State, op: Op)
    requires KeysOk(s) && ActiveOk(s) && s.active.Some? && op.Measure? && NotMore(s)
    ensures NotMore(Apply(s, op))
    ensures CopiesEqual(Apply(s, op)) <==> MeasuresBack(s, op)
  {
    hide ControllerCan, Summary;
  }

  lemma NotMoreKept(s: State, op: Op)
    requires Inv(s) && Fresh(s, op) && NotMore(s)
    ensures NotMore(Apply(s, op))
  {
    if s.active.Some? {
      hide ControllerCan, IndexOk, Rewrites, Replaces;
      match op {
        case Register(_, _) =>
        case Start(_, _, _) => StartPair(s, op);
        case Add(_, _, _) => AddPair(s, op);
        case Measure(_, _, _, _) => MeasurePair(s, op);
        case _ => RewritesOrKeeps(s, op);
      }
    } else {
      FirstActive(s, op);
    }
  }

  lemma FirstActive(s: State, op: Op)
    requires Inv(s) && Fresh(s, op) && s.active.None?
    ensures NotMore(Apply(s, op))
  {
    if op.Start? {
      hide ControllerCan, Viewers, NewSession;
      if op.input.hostDeviceId in s.devices {
        NewSessionId(s, op);
      }
    } else {
      StillNone(s, op);
    }
  }

  lemma StillNone(s: State, op: Op)
    requires s.active.None? && !op.Start?
    ensures Apply(s, op).active.None?
  {
    hide Without, CanControl, Attached, Retransport, Summary, Viewers;
  }

  lemma {:induction false} RunNotMore(ops: seq<Op>)
    requires Run(ops).Some?
    ensures NotMore(Run(ops).value)
    decreases |ops|
  {
    hide NotMore, Apply, Fresh;
    if ops == [] {
      EmptyNotMore();
    } else {
      var front := ops[..|ops| - 1];
      RunNotMore(front);
      RunKeeps(front);
      NotMoreKept(Run(front).value, ops[|ops| - 1]);
    }
  }

  lemma EmptyNotMore()
    ensures NotMore(EMPTY)
  {
  }

  /** In every reachable state whose copies differ, the calls that make them equal are exactly those
      that write the share to both, that put another share in its place, or that measure what the map
      has. Joining never does. */
  lemma CopiesMeet(ops: seq<Op>, op: Op)
    requires Run(ops).Some? && Fresh(Run(ops).value, op) && !CopiesEqual(Run(ops).value)
    ensures var s := Run(ops).value;
            CopiesEqual(Apply(s, op)) <==> Rewrites(s, op, s.active.value.id) || Replaces(s, op) || MeasuresBack(s, op)
  {
    RunKeeps(ops);
    RunNotMore(ops);
    var s := Run(ops).value;
    hide Run, RunFrom, ControllerCan, IndexOk;
    match op {
      case Register(_, _) =>
      case Start(_, _, _) =>
        hide Apply;
        StartPair(s, op);
      case Add(_, _, _) => AddPair(s, op);
      case Measure(_, _, _, _) => MeasurePair(s, op);
      case _ =>
        hide Apply, Rewrites;
        RewritesOrKeeps(s, op);
    }
  }
}
