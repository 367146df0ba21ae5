/** Results about every sequence of calls to the screen-share service. */
module ScreenShareRuns {
  import opened Prelude
  import opened ScreenShare

  datatype Op =
    | Register(device: Device, now: string)
    | Start(input: StartInput, freshId: string, now: string)
    | Add(id: string, deviceId: string, now: string)
    | Remove(id: string, deviceId: string, now: string)
    | Stop(target: Option<string>, now: string)
    | Resolve(id: string, approved: bool, now: string)
    | SetOwner(id: string, owner: Party, now: string)
    | Transfer(deviceId: string, target: Option<string>, now: string)
    | Measure(deviceId: string, latencyMs: real, preferP2P: bool, now: string)

  function Apply(s: State, op: Op): State {
    match op
    case Register(d, now) => RegisterDevice(s, d, now)
    case Start(input, freshId, now) => StartShare(s, input, freshId, now).state
    case Add(id, deviceId, now) => AddViewer(s, id, deviceId, now).state
    case Remove(id, deviceId, now) => RemoveViewer(s, id, deviceId, now).state
    case Stop(target, now) => StopShare(s, target, now).state
    case Resolve(id, approved, now) => ResolveApproval(s, id, approved, now).state
    case SetOwner(id, owner, now) => SetControlOwner(s, id, owner, now).state
    case Transfer(deviceId, target, now) => TransferControl(s, deviceId, target, now).state
    case Measure(deviceId, latencyMs, p2p, now) => UpdateViewerTransport(s, deviceId, latencyMs, p2p, now).state
  }

  /** Random ids are new and not empty. */
  predicate Fresh(s: State, op: Op) {
    op.Start? ==> op.freshId != "" && op.freshId !in s.sessions
  }

  function RunFrom(s: State, ops: seq<Op>): Option<State> {
    if ops == [] then Some(s)
    else
      match RunFrom(s, ops[..|ops| - 1])
      case None => None
      case Some(t) => if Fresh(t, ops[|ops| - 1]) then Some(Apply(t, ops[|ops| - 1])) else None
  }

  function Run(ops: seq<Op>): Option<State> {
    RunFrom(EMPTY, ops)
  }

  // ----- what holds of every reachable state -----

  /** The copies agree on everything but the viewers, the transport and the time stamp. */
  predicate Agree(a: Session, b: Session) {
    a == b.(viewers := a.viewers, transport := a.transport, updatedAt := a.updatedAt)
  }

  predicate ControllerCan(x: Session) {
    x.controllerDeviceId.Some? ==> CanControl(x, x.controllerDeviceId.value)
  }

  /** `x` is the live share of chat `c`. */
  predicate LiveIn(x: Session, c: string) {
    x.chatId == Some(c) && x.status != Idle
  }

  ghost predicate KeysOk(s: State) {
    forall id :: id in s.sessions ==> id != "" && s.sessions[id].id == id && ControllerCan(s.sessions[id])
  }

  ghost predicate ActiveOk(s: State) {
    s.active.Some? ==>
      && s.active.value.id in s.sessions
      && Agree(s.active.value, s.sessions[s.active.value.id])
      && ControllerCan(s.active.value)
      && !Given(s.active.value.chatId)
  }

  /** The index is exactly the live chat shares, so a chat has at most one. */
  ghost predicate IndexOk(sessions: map<string, Session>, chatSessions: map<string, string>) {
    && (forall c :: c in chatSessions ==>
          c != "" && chatSessions[c] in sessions && LiveIn(sessions[chatSessions[c]], c))
    && (forall id, c :: id in sessions && c != "" && LiveIn(sessions[id], c) ==>
          c in chatSessions && chatSessions[c] == id)
  }

  ghost predicate Inv(s: State) {
    KeysOk(s) && ActiveOk(s) && IndexOk(s.sessions, s.chatSessions)
  }

  // ----- viewers and controllers -----

  lemma {:induction false} FirstControllerCan(viewers: seq<Viewer>)
    ensures FirstController(viewers).Some? ==>
              exists i :: 0 <= i < |viewers| && viewers[i].deviceId == FirstController(viewers).value
                          && viewers[i].canControl
  {
    if viewers != [] && !viewers[0].canControl {
      FirstControllerCan(viewers[1..]);
      if FirstController(viewers).Some? {
        var i :| 0 <= i < |viewers[1..]| && viewers[1..][i].deviceId == FirstController(viewers).value
                 && viewers[1..][i].canControl;
        assert viewers[i + 1] == viewers[1..][i];
      }
    }
  }

  lemma {:induction false} WithoutKeeps(viewers: seq<Viewer>, deviceId: string, i: nat)
    requires i < |viewers| && viewers[i].deviceId != deviceId
    ensures viewers[i] in Without(viewers, deviceId)
  {
    if i < |viewers| - 1 {
      WithoutKeeps(viewers[..|viewers| - 1], deviceId, i);
    }
  }

  lemma RemovedControllerCan(x: Session, deviceId: string, updated: Session)
    requires ControllerCan(x)
    requires updated.viewers == Without(x.viewers, deviceId)
    requires updated.controllerDeviceId ==
             if x.controllerDeviceId == Some(deviceId) then None else x.controllerDeviceId
    ensures ControllerCan(updated)
  {
    if updated.controllerDeviceId.Some? {
      var c := updated.controllerDeviceId.value;
      var i :| 0 <= i < |x.viewers| && x.viewers[i].deviceId == c && x.viewers[i].canControl;
      WithoutKeeps(x.viewers, deviceId, i);
      var j :| 0 <= j < |updated.viewers| && updated.viewers[j] == x.viewers[i];
    }
  }

  lemma AddedControllerCan(x: Session, v: Viewer, updated: Session)
    requires ControllerCan(x)
    requires updated.viewers == x.viewers + [v] && updated.controllerDeviceId == x.controllerDeviceId
    ensures ControllerCan(updated)
  {
    if x.controllerDeviceId.Some? {
      var i :| 0 <= i < |x.viewers| && x.viewers[i].deviceId == x.controllerDeviceId.value
               && x.viewers[i].canControl;
      assert updated.viewers[i] == x.viewers[i];
    }
  }

  lemma MeasuredControllerCan(x: Session, deviceId: string, latencyMs: real, mode: RouteMode, updated: Session)
    requires ControllerCan(x)
    requires updated.viewers == Retransport(x.viewers, deviceId, latencyMs, mode)
    requires updated.controllerDeviceId == x.controllerDeviceId
    ensures ControllerCan(updated)
  {
    if x.controllerDeviceId.Some? {
      var i :| 0 <= i < |x.viewers| && x.viewers[i].deviceId == x.controllerDeviceId.value
               && x.viewers[i].canControl;
      assert updated.viewers[i].deviceId == x.viewers[i].deviceId && updated.viewers[i].canControl;
    }
  }

  // ----- each call keeps the invariant -----

  /** Writing an updated session, in place, to the map and the matching copy. */
  lemma PutBothKeeps(s: State, x: Session, y: Session)
    requires Inv(s)
    requires x.id in s.sessions && (x == s.sessions[x.id] || s.active == Some(x))
    requires y.id == x.id && y.chatId == x.chatId && ControllerCan(y)
    requires (y.status == Idle) == (x.status == Idle)
    ensures Inv(PutBoth(s, y))
  {
    hide ControllerCan;
    var t := PutBoth(s, y);
    var z := s.sessions[x.id];
    assert z.chatId == x.chatId && z.status == x.status;
    forall c | c != "" ensures LiveIn(y, c) == LiveIn(z, c) {
    }
  }

  /** Ending a session and dropping its index entry. */
  lemma EndKeeps(s: State, x: Session, y: Session)
    requires Inv(s)
    requires x.id in s.sessions && (x == s.sessions[x.id] || s.active == Some(x))
    requires y.id == x.id && y.chatId == x.chatId && y.status == Idle && ControllerCan(y)
    ensures Inv(Unindex(PutBoth(s, y), y))
  {
    hide ControllerCan;
    var z := s.sessions[x.id];
    assert z.chatId == x.chatId;
    EndIndex(s.sessions, s.chatSessions, y, Unindex(PutBoth(s, y), y).chatSessions);
    hide IndexOk;
  }

  lemma EndIndex(sessions: map<string, Session>, index: map<string, string>, y: Session, index': map<string, string>)
    requires IndexOk(sessions, index) && y.id in sessions && y.status == Idle
    requires sessions[y.id].chatId == y.chatId
    requires index' == if Given(y.chatId) && y.chatId.value in index && index[y.chatId.value] == y.id
                       then index - {y.chatId.value} else index
    ensures IndexOk(sessions[y.id := y], index')
  {
    var after := sessions[y.id := y];
    forall id, c | id in after && c != "" && LiveIn(after[id], c)
      ensures c in index' && index'[c] == id
    {
      assert LiveIn(sessions[id], c);
    }
  }

  lemma StartKeeps(s: State, input: StartInput, freshId: string, now: string)
    requires Inv(s) && freshId != "" && freshId !in s.sessions
    ensures Inv(StartShare(s, input, freshId, now).state)
  {
    if input.hostDeviceId in s.devices && s.devices[input.hostDeviceId].authorized {
      var viewers := Viewers(s.devices, input.viewerDeviceIds, now);
      FirstControllerCan(viewers);
      var x := NewSession(s.devices[input.hostDeviceId], viewers, input, freshId, now);
      assert ControllerCan(x);
      StartedKeeps(s, x, now);
    }
  }

  lemma StartedKeeps(s: State, x: Session, now: string)
    requires Inv(s) && x.id != "" && x.id !in s.sessions && x.status != Idle && ControllerCan(x)
    ensures var t := Put(EndPrevious(s, x.chatId, now), x);
            Inv(if Given(x.chatId) then t.(chatSessions := t.chatSessions[x.chatId.value := x.id])
                else t.(active := Some(x)))
  {
    if Given(x.chatId) {
      StartedInChat(s, x, now);
    } else {
      StartedAlone(s, x);
    }
  }

  lemma StartedAlone(s: State, x: Session)
    requires Inv(s) && x.id != "" && x.id !in s.sessions && x.status != Idle && ControllerCan(x) && !Given(x.chatId)
    ensures Inv(Put(s, x).(active := Some(x)))
  {
    hide ControllerCan;
    forall c | c != "" ensures !LiveIn(x, c) {
    }
  }

  lemma StartedInChat(s: State, x: Session, now: string)
    requires Inv(s) && x.id != "" && x.id !in s.sessions && x.status != Idle && ControllerCan(x) && Given(x.chatId)
    ensures var t := Put(EndPrevious(s, x.chatId, now), x);
            Inv(t.(chatSessions := t.chatSessions[x.chatId.value := x.id]))
  {
    var u := EndPrevious(s, x.chatId, now);
    if u != s {
      assert ControllerCan(u.sessions[s.chatSessions[x.chatId.value]]);
    }
    hide ControllerCan;
    StartIndex(s.sessions, s.chatSessions, x, x.chatId.value, u.sessions);
    hide IndexOk;
  }

  lemma StartIndex(
    sessions: map<string, Session>, index: map<string, string>, x: Session, c: string,
    ended: map<string, Session>)
    requires IndexOk(sessions, index) && x.id !in sessions && LiveIn(x, c) && c != ""
    requires ended.Keys == sessions.Keys
    requires forall id :: id in sessions ==>
               ended[id] == sessions[id]
               || (c in index && index[c] == id && ended[id].status == Idle)
    requires c in index ==> ended[index[c]].status == Idle
    ensures IndexOk(ended[x.id := x], index[c := x.id])
  {
    var after, index' := ended[x.id := x], index[c := x.id];
    forall id, k | id in after && k != "" && LiveIn(after[id], k)
      ensures k in index' && index'[k] == id
    {
      if id != x.id {
        assert LiveIn(sessions[id], k);
      }
    }
    forall k | k in index'
      ensures k != "" && index'[k] in after && LiveIn(after[index'[k]], k)
    {
      if k != c {
        assert LiveIn(sessions[index[k]], k);
      }
    }
  }

  lemma AddKeeps(s: State, id: string, deviceId: string, now: string)
    requires Inv(s)
    ensures Inv(AddViewer(s, id, deviceId, now).state)
  {
    var t := AddViewer(s, id, deviceId, now).state;
    if t != s {
      var x, y := s.sessions[id], t.sessions[id];
      AddedControllerCan(x, y.viewers[|x.viewers|], y);
      hide ControllerCan;
      forall c | c != "" ensures LiveIn(y, c) == LiveIn(x, c) {
      }
    }
  }

  lemma MeasureKeeps(s: State, deviceId: string, latencyMs: real, p2p: bool, now: string)
    requires Inv(s)
    ensures Inv(UpdateViewerTransport(s, deviceId, latencyMs, p2p, now).state)
  {
    if s.active.Some? {
      var y := UpdateViewerTransport(s, deviceId, latencyMs, p2p, now).state.active.value;
      var mode := if p2p && latencyMs < 100.0 then P2P else Turn;
      MeasuredControllerCan(s.active.value, deviceId, latencyMs, mode, y);
      hide ControllerCan, Retransport, Summary;
      assert Agree(y, s.sessions[y.id]);
    }
  }

  lemma RemoveKeeps(s: State, id: string, deviceId: string, now: string)
    requires Inv(s)
    ensures Inv(RemoveViewer(s, id, deviceId, now).state)
  {
    var e := RemoveViewer(s, id, deviceId, now);
    if e.state != s {
      var x, y := s.sessions[id], e.result.value;
      RemovedControllerCan(x, deviceId, y);
      hide Inv, ControllerCan;
      assert x.id == id by { IdOf(s, id); }
      PutBothKeeps(s, x, y);
    }
  }

  lemma IdOf(s: State, id: string)
    requires Inv(s) && id in s.sessions
    ensures s.sessions[id].id == id && ControllerCan(s.sessions[id])
  {
  }

  lemma TargetOf(s: State, target: Option<string>)
    requires Inv(s) && Target(s, target).Some?
    ensures var x := Target(s, target).value;
            x.id in s.sessions && (x == s.sessions[x.id] || s.active == Some(x)) && ControllerCan(x)
  {
  }

  lemma StopKeeps(s: State, target: Option<string>, now: string)
    requires Inv(s)
    ensures Inv(StopShare(s, target, now).state)
  {
    if Target(s, target).Some? {
      TargetOf(s, target);
      var x := Target(s, target).value;
      var y := x.(status := Idle, updatedAt := now);
      assert ControllerCan(y);
      hide Inv, ControllerCan;
      EndKeeps(s, x, y);
    }
  }

  lemma ResolveKeeps(s: State, id: string, approved: bool, now: string)
    requires Inv(s)
    ensures Inv(ResolveApproval(s, id, approved, now).state)
  {
    var e := ResolveApproval(s, id, approved, now);
    if e.result.Ok? {
      IdOf(s, id);
      var x, y := s.sessions[id], e.result.value;
      assert ControllerCan(y);
      hide Inv, ControllerCan;
      if approved {
        PutBothKeeps(s, x, y);
      } else {
        EndKeeps(s, x, y);
      }
    }
  }

  lemma SetOwnerKeeps(s: State, id: string, owner: Party, now: string)
    requires Inv(s)
    ensures Inv(SetControlOwner(s, id, owner, now).state)
  {
    var e := SetControlOwner(s, id, owner, now);
    if e.result.Ok? {
      IdOf(s, id);
      var x, y := s.sessions[id], e.result.value;
      assert ControllerCan(y);
      hide Inv, ControllerCan;
      PutBothKeeps(s, x, y);
    }
  }

  lemma TransferKeeps(s: State, deviceId: string, target: Option<string>, now: string)
    requires Inv(s)
    ensures Inv(TransferControl(s, deviceId, target, now).state)
  {
    var e := TransferControl(s, deviceId, target, now);
    if e.result.Ok? {
      TargetOf(s, target);
      var x, y := Target(s, target).value, e.result.value;
      assert ControllerCan(y);
      hide Inv, ControllerCan;
      PutBothKeeps(s, x, y);
    }
  }

  lemma ApplyKeeps(s: State, op: Op)
    requires Inv(s) && Fresh(s, op)
    ensures Inv(Apply(s, op))
  {
    match op {
      case Register(_, _) =>
      case Start(input, freshId, now) => StartKeeps(s, input, freshId, now);
      case Add(id, deviceId, now) => AddKeeps(s, id, deviceId, now);
      case Remove(id, deviceId, now) => RemoveKeeps(s, id, deviceId, now);
      case Stop(target, now) => StopKeeps(s, target, now);
      case Resolve(id, approved, now) => ResolveKeeps(s, id, approved, now);
      case SetOwner(id, owner, now) => SetOwnerKeeps(s, id, owner, now);
      case Transfer(deviceId, target, now) => TransferKeeps(s, deviceId, target, now);
      case Measure(deviceId, latencyMs, p2p, now) => MeasureKeeps(s, deviceId, latencyMs, p2p, now);
    }
  }

  lemma {:induction false} RunFromKeeps(s: State, ops: seq<Op>)
    requires Inv(s)
    ensures RunFrom(s, ops).Some? ==> Inv(RunFrom(s, ops).value)
    decreases |ops|
  {
    hide Inv, Apply;
    if ops != [] && RunFrom(s, ops).Some? {
      RunFromKeeps(s, ops[..|ops| - 1]);
      ApplyKeeps(RunFrom(s, ops[..|ops| - 1]).value, ops[|ops| - 1]);
    }
  }

  lemma RunKeeps(ops: seq<Op>)
    ensures Run(ops).Some? ==> Inv(Run(ops).value)
  {
    RunFromKeeps(EMPTY, ops);
  }

  // ----- results about every run -----

  /** The second copy of the gateway-wide share agrees with the map on all that decides control. */
  lemma CopiesAgree(ops: seq<Op>)
    requires Run(ops).Some? && Run(ops).value.active.Some?
    ensures var s := Run(ops).value;
            var a := s.active.value;
            && a.id in s.sessions
            && (var b := s.sessions[a.id];
                && a.status == b.status && a.hostDeviceId == b.hostDeviceId && a.chatId == b.chatId
                && a.pendingApproval == b.pendingApproval && a.controlOwner == b.controlOwner
                && a.controllerDeviceId == b.controllerDeviceId && a.initiatedBy == b.initiatedBy
                && a.nodeId == b.nodeId && a.capabilities == b.capabilities && a.reason == b.reason)
  {
    RunKeeps(ops);
  }

  /** In each copy, whoever holds control is a viewer there and may control. */
  lemma ControllersMayControl(ops: seq<Op>)
    requires Run(ops).Some?
    ensures var s := Run(ops).value;
            && (forall id :: id in s.sessions ==> ControllerCan(s.sessions[id]))
            && (s.active.Some? ==> ControllerCan(s.active.value))
  {
    RunKeeps(ops);
  }

  /** The index finds a chat's share exactly as a search over every session would. */
  lemma ChatIndexExact(ops: seq<Op>, c: string, x: Session)
    requires Run(ops).Some? && c != ""
    ensures var s := Run(ops).value;
            SessionForChat(s, c) == Some(x) <==> x.id in s.sessions && s.sessions[x.id] == x && LiveIn(x, c)
    ensures var s := Run(ops).value;
            SessionForChat(s, c) == None <==> forall id :: id in s.sessions ==> !LiveIn(s.sessions[id], c)
  {
    RunKeeps(ops);
    hide ControllerCan;
    var s := Run(ops).value;
    if c in s.chatSessions {
      assert LiveIn(s.sessions[s.chatSessions[c]], c);
    }
  }

  /** A chat never has two live shares. */
  lemma OneShareForAChat(ops: seq<Op>, c: string, i: string, j: string)
    requires Run(ops).Some? && c != ""
    requires i in Run(ops).value.sessions && LiveIn(Run(ops).value.sessions[i], c)
    requires j in Run(ops).value.sessions && LiveIn(Run(ops).value.sessions[j], c)
    ensures i == j
  {
    RunKeeps(ops);
    var s := Run(ops).value;
    assert LiveIn(s.sessions[i], c) ==> c in s.chatSessions && s.chatSessions[c] == i;
    assert LiveIn(s.sessions[j], c) ==> c in s.chatSessions && s.chatSessions[c] == j;
  }

  /** The empty chat id is not a chat: two such shares can be live at once, and neither is found. */
  lemma EmptyChatIsNoChat()
    ensures var host := Device("h", "h", "desktop", true, [], "t", "t");
            var input := StartInput("h", [], Some(""), None, None, false, None);
            var run := Run([Register(host, "t"), Start(input, "1", "t"), Start(input, "2", "t")]);
            && run.Some?
            && "1" in run.value.sessions && LiveIn(run.value.sessions["1"], "")
            && "2" in run.value.sessions && LiveIn(run.value.sessions["2"], "")
            && SessionForChat(run.value, "") == None
  {
    var host := Device("h", "h", "desktop", true, [], "t", "t");
    var input := StartInput("h", [], Some(""), None, None, false, None);
    var a, b, c := Register(host, "t"), Start(input, "1", "t"), Start(input, "2", "t");
    RunSnoc([], a);
    RunSnoc([a], b);
    RunSnoc([a, b], c);
    assert [] + [a] == [a] && [a] + [b] == [a, b] && [a, b] + [c] == [a, b, c];
  }

  lemma RunSnoc(ops: seq<Op>, op: Op)
    ensures Run(ops).Some? && Fresh(Run(ops).value, op) ==>
              Run(ops + [op]) == Some(Apply(Run(ops).value, op))
  {
    assert (ops + [op])[..|ops|] == ops;
  }

  // ----- ended shares stay ended -----

  /** The one existing session a call may rewrite. */
  predicate Touches(s: State, op: Op, id: string) {
    match op
    case Register(_, _) => false
    case Start(input, _, _) =>
      Given(input.chatId) && input.chatId.value in s.chatSessions && s.chatSessions[input.chatId.value] == id
    case Add(x, _, _) => x == id
    case Remove(x, _, _) => x == id
    case Resolve(x, _, _) => x == id
    case SetOwner(x, _, _) => x == id
    case Stop(t, _) => if Given(t) then t.value == id else s.active.Some? && s.active.value.id == id
    case Transfer(_, t, _) => if Given(t) then t.value == id else s.active.Some? && s.active.value.id == id
    case Measure(_, _, _, _) => false
  }

  /** What may happen to session `id` between two states. */
  predicate Change(s: State, t: State, id: string, touched: bool) {
    && (id in s.sessions ==> id in t.sessions)
    && (id in s.sessions && !touched ==> t.sessions[id] == s.sessions[id])
    && (id in s.sessions && s.sessions[id].status == Idle ==> t.sessions[id].status == Idle)
  }

  lemma PutBothChange(s: State, y: Session, id: string)
    requires y.id in s.sessions && (s.sessions[y.id].status == Idle ==> y.status == Idle)
    ensures Change(s, PutBoth(s, y), id, y.id == id)
    ensures Change(s, Unindex(PutBoth(s, y), y), id, y.id == id)
  {
  }

  lemma StartChange(s: State, input: StartInput, freshId: string, now: string, id: string)
    requires KeysOk(s) && freshId !in s.sessions
    ensures Change(s, StartShare(s, input, freshId, now).state, id,
                   Touches(s, Start(input, freshId, now), id))
  {
    hide ControllerCan;
  }

  lemma AddChange(s: State, x: string, deviceId: string, now: string, id: string)
    requires KeysOk(s)
    ensures Change(s, AddViewer(s, x, deviceId, now).state, id, x == id)
  {
    hide ControllerCan;
  }

  lemma ApplyChange(s: State, op: Op, id: string)
    requires Inv(s) && Fresh(s, op)
    ensures Change(s, Apply(s, op), id, Touches(s, op, id))
  {
    hide IndexOk, ControllerCan, Change;
    match op {
      case Register(d, now) => SameSessionsChange(s, RegisterDevice(s, d, now), id);
      case Start(input, freshId, now) => StartChange(s, input, freshId, now, id);
      case Add(x, deviceId, now) => AddChange(s, x, deviceId, now, id);
      case Measure(deviceId, latencyMs, p2p, now) =>
        SameSessionsChange(s, UpdateViewerTransport(s, deviceId, latencyMs, p2p, now).state, id);
      case Stop(_, _) => TargetChange(s, op, id);
      case Transfer(_, _, _) => TargetChange(s, op, id);
      case _ => NamedChange(s, op, id);
    }
  }

  lemma SameSessionsChange(s: State, t: State, id: string)
    requires t.sessions == s.sessions
    ensures Change(s, t, id, false)
  {
  }

  lemma NamedChange(s: State, op: Op, id: string)
    requires Inv(s) && (op.Remove? || op.Resolve? || op.SetOwner?)
    ensures Change(s, Apply(s, op), id, Touches(s, op, id))
  {
    hide IndexOk, ControllerCan, CanControl, Attached, Without, PutBoth, Unindex, Change;
    match op {
      case Remove(x, deviceId, now) =>
        var e := RemoveViewer(s, x, deviceId, now);
        if e.state != s { PutBothChange(s, e.result.value, id); } else { NoChange(s, id, x == id); }
      case Resolve(x, approved, now) =>
        var e := ResolveApproval(s, x, approved, now);
        if e.result.Ok? { PutBothChange(s, e.result.value, id); } else { NoChange(s, id, x == id); }
      case SetOwner(x, owner, now) =>
        var e := SetControlOwner(s, x, owner, now);
        if e.result.Ok? { PutBothChange(s, e.result.value, id); } else { NoChange(s, id, x == id); }
      case _ =>
    }
  }

  lemma TargetChange(s: State, op: Op, id: string)
    requires Inv(s) && (op.Stop? || op.Transfer?)
    ensures Change(s, Apply(s, op), id, Touches(s, op, id))
  {
    hide IndexOk, ControllerCan, CanControl, PutBoth, Unindex, Change;
    match op {
      case Stop(t, now) =>
        var e := StopShare(s, t, now);
        if Target(s, t).Some? { PutBothChange(s, e.result.value.value, id); } else { NoChange(s, id, Touches(s, op, id)); }
      case Transfer(deviceId, t, now) =>
        var e := TransferControl(s, deviceId, t, now);
        if e.result.Ok? { PutBothChange(s, e.result.value, id); } else { NoChange(s, id, Touches(s, op, id)); }
      case _ =>
    }
  }

  lemma NoChange(s: State, id: string, touched: bool)
    ensures Change(s, s, id, touched)
  {
  }

  /** Sessions are never forgotten, and no later call brings an ended one back. */
  lemma {:induction false} NeverRevived(s: State, more: seq<Op>, id: string)
    requires Inv(s) && id in s.sessions && RunFrom(s, more).Some?
    ensures id in RunFrom(s, more).value.sessions
    ensures s.sessions[id].status == Idle ==> RunFrom(s, more).value.sessions[id].status == Idle
    decreases |more|
  {
    hide Inv, Apply;
    if more != [] {
      NeverRevived(s, more[..|more| - 1], id);
      RunFromKeeps(s, more[..|more| - 1]);
      ApplyChange(RunFrom(s, more[..|more| - 1]).value, more[|more| - 1], id);
    }
  }

  lemma EndedForGood(ops: seq<Op>, more: seq<Op>, id: string)
    requires Run(ops).Some? && id in Run(ops).value.sessions && Run(ops).value.sessions[id].status == Idle
    requires RunFrom(Run(ops).value, more).Some?
    ensures id in RunFrom(Run(ops).value, more).value.sessions
    ensures RunFrom(Run(ops).value, more).value.sessions[id].status == Idle
  {
    RunKeeps(ops);
    NeverRevived(Run(ops).value, more, id);
  }

  // ----- chats do not disturb one another -----

  /** The session id a call names, if it names one. */
  function Named(op: Op): Option<string> {
    match op
    case Add(id, _, _) => Some(id)
    case Remove(id, _, _) => Some(id)
    case Resolve(id, _, _) => Some(id)
    case SetOwner(id, _, _) => Some(id)
    case Stop(t, _) => t
    case Transfer(_, t, _) => t
    case _ => None
  }

  /** A chat's share changes only by a call that names it, or a new share in the same chat. */
  lemma ChatsAreIsolated(s: State, op: Op, id: string)
    requires Inv(s) && Fresh(s, op) && id in s.sessions && Given(s.sessions[id].chatId)
    requires Named(op) != Some(id)
    requires op.Start? ==> op.input.chatId != s.sessions[id].chatId
    ensures id in Apply(s, op).sessions && Apply(s, op).sessions[id] == s.sessions[id]
  {
    hide ControllerCan, Apply;
    ApplyChange(s, op, id);
    assert !Touches(s, op, id);
  }
}
