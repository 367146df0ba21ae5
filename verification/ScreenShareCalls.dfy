/** What single calls of the screen-share service, and pairs of them, come to. */
module ScreenShareCalls {
  import opened Prelude
  import opened ScreenShare
  import opened ScreenShareRuns

  // ----- who views and who controls -----

  /** A device that may view, and one that may control as well: not a browser. */
  predicate MayView(devices: map<string, Device>, id: string) {
    id in devices && devices[id].authorized
  }

  predicate MayControl(devices: map<string, Device>, id: string) {
    MayView(devices, id) && devices[id].platform != "web"
  }

  /** The viewer that device `d` becomes when it joins. */
  predicate ViewerOf(v: Viewer, d: Device, latencyMs: real, now: string) {
    && v.deviceId == d.id && v.connectedAt == now && (v.canControl <==> d.platform != "web")
    && v.transportMode == P2P && v.latencyMs == latencyMs
  }

  function Allowed(devices: map<string, Device>, ids: seq<string>): seq<string> {
    if ids == [] then []
    else
      var id := ids[|ids| - 1];
      Allowed(devices, ids[..|ids| - 1]) + if MayView(devices, id) then [id] else []
  }

  lemma {:induction false} ViewersMean(devices: map<string, Device>, ids: seq<string>, now: string)
    ensures var viewers, allowed := Viewers(devices, ids, now), Allowed(devices, ids);
            && |viewers| == |allowed|
            && forall i :: 0 <= i < |viewers| ==>
                 allowed[i] in ids && MayView(devices, allowed[i]) && ViewerOf(viewers[i], devices[allowed[i]], 45.0, now)
  {
    if ids != [] {
      var front := ids[..|ids| - 1];
      ViewersMean(devices, front, now);
      assert ids == front + [ids[|ids| - 1]];
    }
  }

  lemma {:induction false} ControllerSnoc(a: seq<Viewer>, v: Viewer)
    ensures FirstController(a + [v])
            == if FirstController(a).Some? then FirstController(a) else if v.canControl then Some(v.deviceId) else None
  {
    if a == [] {
      assert a + [v] == [v] && [v][1..] == [];
    } else {
      assert (a + [v])[1..] == a[1..] + [v];
      ControllerSnoc(a[1..], v);
    }
  }

  /** `c` is the first of `ids` that may control. */
  predicate FirstToControl(devices: map<string, Device>, ids: seq<string>, c: string) {
    exists k :: 0 <= k < |ids| && MayControl(devices, ids[k]) && devices[ids[k]].id == c
                && forall j :: 0 <= j < k ==> !MayControl(devices, ids[j])
  }

  lemma {:induction false} ControllerMeans(devices: map<string, Device>, ids: seq<string>, now: string)
    ensures match FirstController(Viewers(devices, ids, now))
            case None => forall i :: 0 <= i < |ids| ==> !MayControl(devices, ids[i])
            case Some(c) => FirstToControl(devices, ids, c)
  {
    if ids != [] {
      var front, last := ids[..|ids| - 1], ids[|ids| - 1];
      ControllerMeans(devices, front, now);
      assert forall i :: 0 <= i < |front| ==> front[i] == ids[i];
      if MayView(devices, last) {
        ControllerSnoc(Viewers(devices, front, now), NewViewer(devices[last], 45.0, now));
      } else {
        assert Viewers(devices, front, now) + [] == Viewers(devices, front, now);
      }
      var before := FirstController(Viewers(devices, front, now));
      if before.Some? {
        var k :| 0 <= k < |front| && MayControl(devices, front[k]) && devices[front[k]].id == before.value
                 && forall j :: 0 <= j < k ==> !MayControl(devices, front[j]);
        assert MayControl(devices, ids[k]) && devices[ids[k]].id == before.value;
      } else if MayControl(devices, last) {
        assert FirstToControl(devices, ids, devices[last].id);
      }
    }
  }

  /** What the request says of the new share. */
  predicate AsRequested(x: Session, host: Device, input: StartInput, freshId: string, now: string) {
    && x.id == freshId && x.status == Sharing && x.hostDeviceId == host.id && x.updatedAt == now
    && x.chatId == input.chatId && x.nodeId == input.nodeId && x.reason == input.reason
    && x.pendingApproval == input.requireConsent
    && (x.initiatedBy == Agent <==> input.initiatedBy == Some(Agent))
    && (x.controlOwner == Agent <==> input.initiatedBy == Some(Agent))
    && (x.capabilities.remoteInput <==> "remote-input" in host.capabilities)
    && x.capabilities.recording && x.capabilities.turnRelay && x.capabilities.adaptiveStreaming
    && (if x.viewers == [] then x.transport == Transport(Checking, P2P, 0.0, false)
        else x.transport == Transport(Connected, P2P, 45.0, false))
  }

  /** The viewers are the requested devices that may view, in order, and the controller is the first of
      them that is no browser. */
  predicate AsSeated(x: Session, devices: map<string, Device>, ids: seq<string>, now: string) {
    var allowed := Allowed(devices, ids);
    && |x.viewers| == |allowed|
    && (forall i :: 0 <= i < |allowed| ==>
          allowed[i] in ids && MayView(devices, allowed[i]) && ViewerOf(x.viewers[i], devices[allowed[i]], 45.0, now))
    && match x.controllerDeviceId
       case None => forall i :: 0 <= i < |ids| ==> !MayControl(devices, ids[i])
       case Some(c) => FirstToControl(devices, ids, c)
  }

  lemma NewAsRequested(s: State, input: StartInput, freshId: string, now: string)
    requires MayView(s.devices, input.hostDeviceId)
    ensures var host := s.devices[input.hostDeviceId];
            var x := NewSession(host, Viewers(s.devices, input.viewerDeviceIds, now), input, freshId, now);
            AsRequested(x, host, input, freshId, now) && AsSeated(x, s.devices, input.viewerDeviceIds, now)
  {
    ViewersMean(s.devices, input.viewerDeviceIds, now);
    ControllerMeans(s.devices, input.viewerDeviceIds, now);
    hide Viewers, FirstController, FirstToControl, Allowed, ViewerOf, MayControl;
  }

  /** A share starts exactly when its host may share, as requested and with the devices that may view.
      In a chat it is the one that is found there, and the one before it has ended. */
  lemma StartedShare(s: State, input: StartInput, freshId: string, now: string)
    requires Inv(s) && freshId != "" && freshId !in s.sessions
    ensures var e := StartShare(s, input, freshId, now);
            && (e.result.Ok? <==> MayView(s.devices, input.hostDeviceId))
            && (e.result.Err? ==> e.state == s)
            && (e.result.Ok? ==>
                  var x := e.result.value;
                  && AsRequested(x, s.devices[input.hostDeviceId], input, freshId, now)
                  && AsSeated(x, s.devices, input.viewerDeviceIds, now)
                  && freshId in e.state.sessions && e.state.sessions[freshId] == x
                  && (if Given(input.chatId) then SessionForChat(e.state, input.chatId.value) == Some(x)
                      else e.state.active == Some(x))
                  && (Given(input.chatId) && SessionForChat(s, input.chatId.value).Some? ==>
                        var previous := SessionForChat(s, input.chatId.value).value.id;
                        && previous in e.state.sessions && e.state.sessions[previous].status == Idle
                        && e.state.sessions[previous].updatedAt == now
                        && e.state.sessions[previous].viewers == s.sessions[previous].viewers))
  {
    if MayView(s.devices, input.hostDeviceId) {
      NewAsRequested(s, input, freshId, now);
    }
    hide ControllerCan, Viewers, NewSession, AsRequested, AsSeated;
    if Given(input.chatId) && input.chatId.value in s.chatSessions {
      assert LiveIn(s.sessions[s.chatSessions[input.chatId.value]], input.chatId.value);
    }
  }

  /** A device joins exactly a live share of another device, and only if it may view; unless it was there
      already it becomes the last viewer, with the latency the share has or 45 ms. */
  lemma JoinedShare(s: State, id: string, deviceId: string, now: string)
    requires Inv(s)
    ensures var e := AddViewer(s, id, deviceId, now);
            && (e.result.Ok? <==>
                  id in s.sessions && s.sessions[id].status != Idle && deviceId != s.sessions[id].hostDeviceId
                  && MayView(s.devices, deviceId))
            && (e.result.Err? ==> e.state == s)
            && (e.result.Ok? && Attached(s.sessions[id], deviceId) ==> e.state == s && e.result.value == s.sessions[id])
            && (e.result.Ok? && !Attached(s.sessions[id], deviceId) ==>
                  var x, y := s.sessions[id], e.result.value;
                  var latency := if x.transport.avgLatencyMs != 0.0 then x.transport.avgLatencyMs else 45.0;
                  && |y.viewers| == |x.viewers| + 1 && y.viewers[..|x.viewers|] == x.viewers
                  && ViewerOf(y.viewers[|x.viewers|], s.devices[deviceId], latency, now)
                  && y.transport == x.transport.(ice := Connected)
                  && y == x.(viewers := y.viewers, transport := y.transport, updatedAt := now)
                  && e.state == s.(sessions := s.sessions[id := y]))
  {
    hide ControllerCan;
  }

  /** Devices are kept under their own ids. */
  predicate DevicesKeyed(s: State) {
    forall d :: d in s.devices ==> s.devices[d].id == d
  }

  lemma {:induction false} RunDevicesKeyed(ops: seq<Op>)
    requires Run(ops).Some?
    ensures DevicesKeyed(Run(ops).value)
    decreases |ops|
  {
    if ops != [] {
      var front, op := ops[..|ops| - 1], ops[|ops| - 1];
      RunDevicesKeyed(front);
      DevicesStay(Run(front).value, op);
    }
  }

  lemma DevicesStay(s: State, op: Op)
    requires DevicesKeyed(s)
    ensures DevicesKeyed(Apply(s, op))
  {
    hide Without, CanControl, Attached, Retransport, Summary, Viewers, NewSession;
  }

  /** Joining again changes nothing and gives the same session. */
  lemma JoiningIsIdempotent(s: State, id: string, deviceId: string, now: string, later: string)
    requires AddViewer(s, id, deviceId, now).result.Ok?
    requires Inv(s) && DevicesKeyed(s)
    ensures var e := AddViewer(s, id, deviceId, now);
            AddViewer(e.state, id, deviceId, later) == Effect(e.state, e.result)
  {
    hide ControllerCan;
    var x, y := s.sessions[id], AddViewer(s, id, deviceId, now).result.value;
    if y != x {
      assert y.viewers[|x.viewers|].deviceId == deviceId;
    }
    assert Attached(y, deviceId);
  }

  lemma {:induction false} WithoutAbsent(viewers: seq<Viewer>, deviceId: string)
    requires forall i :: 0 <= i < |viewers| ==> viewers[i].deviceId != deviceId
    ensures Without(viewers, deviceId) == viewers
  {
    if viewers != [] {
      WithoutAbsent(viewers[..|viewers| - 1], deviceId);
    }
  }

  lemma {:induction false} WithoutExactly(viewers: seq<Viewer>, deviceId: string, v: Viewer)
    ensures multiset(Without(viewers, deviceId))[v] == if v.deviceId == deviceId then 0 else multiset(viewers)[v]
  {
    if viewers != [] {
      var front, last := viewers[..|viewers| - 1], viewers[|viewers| - 1];
      WithoutExactly(front, deviceId, v);
      assert viewers == front + [last];
    }
  }

  /** A device leaves exactly a live share of another device, in every copy; the other viewers stay, and so
      does a controller who is another one. */
  lemma LeftShare(s: State, id: string, deviceId: string, now: string)
    requires Inv(s)
    ensures var e := RemoveViewer(s, id, deviceId, now);
            && (e.result.Ok? <==> id in s.sessions && s.sessions[id].status != Idle && deviceId != s.sessions[id].hostDeviceId)
            && (e.result.Err? || !Attached(s.sessions[id], deviceId) ==> e.state == s)
            && (e.result.Ok? && Attached(s.sessions[id], deviceId) ==>
                  var x, y := s.sessions[id], e.result.value;
                  && (forall v :: multiset(y.viewers)[v] == if v.deviceId == deviceId then 0 else multiset(x.viewers)[v])
                  && y.controllerDeviceId == (if x.controllerDeviceId == Some(deviceId) then None else x.controllerDeviceId)
                  && y.updatedAt == now
                  && y == x.(viewers := y.viewers, controllerDeviceId := y.controllerDeviceId, updatedAt := now)
                  && e.state.sessions[id] == y
                  && (e.state.active.Some? && e.state.active.value.id == id ==> e.state.active == Some(y)))
  {
    hide ControllerCan, Attached;
    if id in s.sessions {
      forall v ensures multiset(Without(s.sessions[id].viewers, deviceId))[v]
                       == if v.deviceId == deviceId then 0 else multiset(s.sessions[id].viewers)[v]
      {
        WithoutExactly(s.sessions[id].viewers, deviceId, v);
      }
      hide Without;
    }
  }

  /** Leaving undoes joining: viewers and controller are what they were. */
  lemma LeavingUndoesJoining(s: State, id: string, deviceId: string, now: string, later: string)
    requires Inv(s) && DevicesKeyed(s) && id in s.sessions && !Attached(s.sessions[id], deviceId)
    requires AddViewer(s, id, deviceId, now).result.Ok?
    ensures var e := RemoveViewer(AddViewer(s, id, deviceId, now).state, id, deviceId, later);
            && e.result.Ok? && e.result.value.viewers == s.sessions[id].viewers
            && e.result.value.controllerDeviceId == s.sessions[id].controllerDeviceId
  {
    var x, y := s.sessions[id], AddViewer(s, id, deviceId, now).result.value;
    assert y.viewers[|x.viewers|].deviceId == deviceId;
    assert Attached(y, deviceId);
    assert y.viewers[..|y.viewers| - 1] == x.viewers;
    WithoutAbsent(x.viewers, deviceId);
    assert ControllerCan(x);
  }

  /** What has ended: nobody can join or take control, no decision is open, and no chat finds it. */
  ghost predicate Over(s: State, x: Session) {
    && x.id in s.sessions && s.sessions[x.id] == x && x.status == Idle
    && (forall d, now :: AddViewer(s, x.id, d, now).result.Err?)
    && (forall d, now :: x.id != "" ==> TransferControl(s, d, Some(x.id), now).result.Err?)
    && (forall a, now :: ResolveApproval(s, x.id, a, now).result.Err?)
    && forall c :: SessionForChat(s, c).Some? ==> SessionForChat(s, c).value.id != x.id
  }

  /** Stopping ends a share for all later calls. */
  lemma StoppedIsOver(s: State, target: Option<string>, now: string)
    requires Inv(s)
    ensures var e := StopShare(s, target, now);
            && (e.result.value.Some? <==> Target(s, target).Some?)
            && (e.result.value.Some? ==>
                  && Over(e.state, e.result.value.value)
                  && e.result.value.value.id == Target(s, target).value.id
                  && e.result.value.value.viewers == Target(s, target).value.viewers
                  && e.result.value.value.updatedAt == now)
  {
    hide ControllerCan;
    var e := StopShare(s, target, now);
    if Target(s, target).Some? {
      var y := e.result.value.value;
      NotFound(s, Target(s, target).value, y);
    }
  }

  lemma NotFound(s: State, x: Session, y: Session)
    requires Inv(s) && x.id in s.sessions && (x == s.sessions[x.id] || s.active == Some(x))
    requires y.id == x.id && y.chatId == x.chatId && y.status == Idle
    ensures var t := Unindex(PutBoth(s, y), y);
            forall c :: SessionForChat(t, c).Some? ==> SessionForChat(t, c).value.id != y.id
  {
    hide ControllerCan;
  }

  /** A decision is taken exactly on a live share, and a rejection only on a pending one. Rejecting ends
      the share; after approving, a rejection comes too late. */
  lemma DecisionIsFinal(s: State, id: string, approved: bool, now: string, later: string)
    requires Inv(s)
    ensures var e := ResolveApproval(s, id, approved, now);
            && (e.result.Ok? <==> id in s.sessions && s.sessions[id].status == Sharing && (approved || s.sessions[id].pendingApproval))
            && (e.result.Err? ==> e.state == s)
            && (e.result.Ok? ==>
                  && (approved ==> e.result.value.status == Sharing)
                  && !e.result.value.pendingApproval && e.result.value.updatedAt == now
                  && e.result.value.viewers == s.sessions[id].viewers
                  && e.result.value.controllerDeviceId == s.sessions[id].controllerDeviceId
                  && (!approved ==> Over(e.state, e.result.value))
                  && ResolveApproval(e.state, id, false, later).result.Err?)
  {
    hide ControllerCan;
    var e := ResolveApproval(s, id, approved, now);
    if e.result.Ok? && !approved {
      NotFound(s, s.sessions[id], e.result.value);
    }
  }

  /** The owner of control changes exactly on a running share whose approval is not pending, in every
      copy. A person holds no seat of control; the agent keeps the one there is. */
  lemma OwnerIsSet(s: State, id: string, owner: Party, now: string)
    requires Inv(s)
    ensures var e := SetControlOwner(s, id, owner, now);
            && (e.result.Ok? <==> id in s.sessions && s.sessions[id].status == Sharing && !s.sessions[id].pendingApproval)
            && (e.result.Err? ==> e.state == s)
            && (e.result.Ok? ==>
                  var x, y := s.sessions[id], e.result.value;
                  && y.controlOwner == owner && y.updatedAt == now
                  && (owner == User ==> y.controllerDeviceId == None)
                  && (owner == Agent ==> y.controllerDeviceId == x.controllerDeviceId)
                  && x == y.(controlOwner := x.controlOwner, controllerDeviceId := x.controllerDeviceId, updatedAt := x.updatedAt)
                  && e.state.sessions[id] == y
                  && (e.state.active.Some? && e.state.active.value.id == id ==> e.state.active == Some(y)))
  {
    hide ControllerCan;
  }

  /** Registering again keeps the time of the first connection, and replaces all else. */
  lemma Registered(s: State, d: Device, now: string)
    ensures var t := RegisterDevice(s, d, now);
            && d.id in t.devices
            && (var k := t.devices[d.id];
                && k.name == d.name && k.platform == d.platform && k.authorized == d.authorized
                && k.capabilities == d.capabilities && k.id == d.id && k.lastSeenAt == now
                && (d.id in s.devices ==> k.connectedAt == s.devices[d.id].connectedAt)
                && (d.id !in s.devices ==> k.connectedAt == now))
            && (forall i :: i != d.id ==> (i in t.devices <==> i in s.devices) && (i in s.devices ==> t.devices[i] == s.devices[i]))
            && t.sessions == s.sessions && t.chatSessions == s.chatSessions && t.active == s.active
  {
  }

  /** The whole milliseconds nearest to the mean of the latencies, halves upwards. */
  predicate IsMean(avg: real, viewers: seq<Viewer>) {
    if viewers == [] then avg == 0.0
    else
      && avg.Floor as real == avg
      && (avg - 0.5) * |viewers| as real <= TotalLatency(viewers) < (avg + 0.5) * |viewers| as real
  }

  function Times(a: real, n: real): real {
    a * n
  }

  lemma RoundedMean(total: real, n: real, avg: real)
    requires n > 0.0 && avg == Round(total / n)
    ensures avg.Floor as real == avg && (avg - 0.5) * n <= total < (avg + 0.5) * n
  {
    var mean, lo, hi := total / n, avg - 0.5, avg + 0.5;
    assert Times(mean, n) == total;
    assert lo <= mean < hi;
    Scale(lo, mean, n);
    Scale(mean, hi, n);
    assert Times(lo, n) == (avg - 0.5) * n && Times(hi, n) == (avg + 0.5) * n;
  }

  lemma Scale(a: real, b: real, n: real)
    requires a <= b && n > 0.0
    ensures Times(a, n) <= Times(b, n) && (a < b ==> Times(a, n) < Times(b, n))
  {
    var d := b - a;
    assert d * n == b * n - a * n;
    assert d > 0.0 ==> d * n > 0.0;
  }

  /** A measurement changes the viewers with the device's id, and what the share says of its transport:
      the mean latency, direct only if every viewer is, over a relay if any viewer is. */
  lemma Measured(s: State, deviceId: string, latencyMs: real, preferP2P: bool, now: string)
    ensures var e := UpdateViewerTransport(s, deviceId, latencyMs, preferP2P, now);
            && (e.result.Ok? <==> s.active.Some?)
            && (e.result.Err? ==> e.state == s)
            && (e.result.Ok? ==>
                  var x, y := s.active.value, e.result.value;
                  && e.state == s.(active := Some(y))
                  && |y.viewers| == |x.viewers|
                  && (forall i :: 0 <= i < |x.viewers| ==>
                        var u, v := x.viewers[i], y.viewers[i];
                        && v.deviceId == u.deviceId && v.canControl == u.canControl && v.connectedAt == u.connectedAt
                        && (u.deviceId != deviceId ==> v == u)
                        && (u.deviceId == deviceId ==>
                              v.latencyMs == latencyMs && (v.transportMode == P2P <==> preferP2P && latencyMs < 100.0)))
                  && (y.transport.routeMode == P2P <==> forall i :: 0 <= i < |y.viewers| ==> y.viewers[i].transportMode == P2P)
                  && (y.transport.relayActive <==> y.transport.routeMode == Turn)
                  && y.transport.ice == x.transport.ice
                  && IsMean(y.transport.avgLatencyMs, y.viewers)
                  && y == x.(viewers := y.viewers, transport := y.transport, updatedAt := now))
  {
    if s.active.Some? {
      var y := UpdateViewerTransport(s, deviceId, latencyMs, preferP2P, now).result.value;
      MeanOf(y.viewers, s.active.value.transport);
      RelayOrNot(y.viewers, s.active.value.transport);
      hide Summary, IsMean;
    }
  }

  lemma MeanOf(viewers: seq<Viewer>, was: Transport)
    ensures IsMean(Summary(viewers, was).avgLatencyMs, viewers) && Summary(viewers, was).ice == was.ice
  {
    if viewers == [] {
      assert (0.0 + 0.5).Floor == 0;
    } else {
      RoundedMean(TotalLatency(viewers), |viewers| as real, Summary(viewers, was).avgLatencyMs);
    }
  }

  lemma RelayOrNot(viewers: seq<Viewer>, was: Transport)
    ensures var t := Summary(viewers, was);
            && (t.routeMode == P2P <==> forall i :: 0 <= i < |viewers| ==> viewers[i].transportMode == P2P)
            && (t.relayActive <==> t.routeMode == Turn)
  {
    hide Round, TotalLatency;
  }

  /** Control goes exactly to viewers of a live share that may have it, in every copy of the share, and
      the person at an approved, running share takes it back with one call. */
  lemma ControlGoesAndReturns(s: State, deviceId: string, target: Option<string>, now: string, later: string)
    requires Inv(s)
    ensures var e := TransferControl(s, deviceId, target, now);
            && (e.result.Ok? <==>
                  Target(s, target).Some? && Target(s, target).value.status != Idle && CanControl(Target(s, target).value, deviceId))
            && (e.result.Err? ==> e.state == s)
            && (e.result.Ok? ==>
                  var x := e.result.value;
                  && x.controllerDeviceId == Some(deviceId) && CanControl(x, deviceId) && x.controlOwner == Agent
                  && x.updatedAt == now && x.id == Target(s, target).value.id && x.viewers == Target(s, target).value.viewers
                  && e.state.sessions[x.id] == x
                  && (e.state.active.Some? && e.state.active.value.id == x.id ==> e.state.active == Some(x))
                  && (x.status == Sharing && !x.pendingApproval ==>
                        var back := SetControlOwner(e.state, x.id, User, later);
                        && back.result.Ok? && back.result.value.controllerDeviceId == None && back.result.value.controlOwner == User
                        && back.result.value.viewers == x.viewers))
  {
    hide ControllerCan;
  }
}
