/**
 The screen-share session service (`packages/screen-share/src/service.ts`): the state it keeps,
 what each method does to it, and the class itself. `now` stands for the clock and `freshId` for
 the random session id.
 */
module ScreenShare {
  import opened Prelude

  datatype Device = Device(
    id: string, name: string, platform: string, authorized: bool, capabilities: seq<string>,
    connectedAt: string, lastSeenAt: string)

  datatype RouteMode = P2P | Turn
  datatype Viewer = Viewer(
    deviceId: string, connectedAt: string, canControl: bool, transportMode: RouteMode, latencyMs: real)

  datatype Status = Idle | Sharing | Paused
  datatype Party = User | Agent
  datatype Ice = New | Checking | Connected | Disconnected | Failed
  datatype Transport = Transport(ice: Ice, routeMode: RouteMode, avgLatencyMs: real, relayActive: bool)
  datatype Capabilities = Capabilities(
    remoteInput: bool, recording: bool, turnRelay: bool, adaptiveStreaming: bool)

  datatype Session = Session(
    id: string, status: Status, hostDeviceId: string, controllerDeviceId: Option<string>,
    viewers: seq<Viewer>, capabilities: Capabilities, transport: Transport, updatedAt: string,
    chatId: Option<string>, nodeId: Option<string>, initiatedBy: Party, controlOwner: Party,
    pendingApproval: bool, reason: Option<string>)

  datatype StartInput = StartInput(
    hostDeviceId: string, viewerDeviceIds: seq<string>, chatId: Option<string>, nodeId: Option<string>,
    initiatedBy: Option<Party>, requireConsent: bool, reason: Option<string>)

  /** `sessions` holds every share; `active` is a second copy of the gateway-wide one. */
  datatype State = State(
    devices: map<string, Device>, sessions: map<string, Session>, chatSessions: map<string, string>,
    active: Option<Session>)

  const EMPTY := State(map[], map[], map[], None)

  /** A method's new state with what it returned or threw. */
  datatype Effect<T> = Effect(state: State, result: Result<T, string>)

  // ----- what the methods do -----

  function Put(s: State, x: Session): State {
    s.(sessions := s.sessions[x.id := x])
  }

  /** Write a session to the map, and to the second copy when it is the same share. */
  function PutBoth(s: State, x: Session): State {
    Put(s, x).(active := if s.active.Some? && s.active.value.id == x.id then Some(x) else s.active)
  }

  /** A missing or empty argument, and an empty chat id, count as not given. */
  predicate Given(x: Option<string>) {
    x.Some? && x.value != ""
  }

  function Find(s: State, id: string): Option<Session> {
    if id in s.sessions then Some(s.sessions[id]) else None
  }

  function Target(s: State, sessionId: Option<string>): Option<Session> {
    if Given(sessionId) then Find(s, sessionId.value) else s.active
  }

  predicate Attached(x: Session, deviceId: string) {
    exists i :: 0 <= i < |x.viewers| && x.viewers[i].deviceId == deviceId
  }

  predicate CanControl(x: Session, deviceId: string) {
    exists i :: 0 <= i < |x.viewers| && x.viewers[i].deviceId == deviceId && x.viewers[i].canControl
  }

  function RegisterDevice(s: State, d: Device, now: string): State {
    var since := if d.id in s.devices then s.devices[d.id].connectedAt else now;
    s.(devices := s.devices[d.id := d.(connectedAt := since, lastSeenAt := now)])
  }

  function NewViewer(d: Device, latencyMs: real, now: string): Viewer {
    Viewer(d.id, now, d.platform != "web", P2P, latencyMs)
  }

  function Viewers(devices: map<string, Device>, ids: seq<string>, now: string): seq<Viewer> {
    if ids == [] then []
    else
      var last := ids[|ids| - 1];
      Viewers(devices, ids[..|ids| - 1], now)
      + (if last in devices && devices[last].authorized then [NewViewer(devices[last], 45.0, now)] else [])
  }

  function FirstController(viewers: seq<Viewer>): Option<string> {
    if viewers == [] then None
    else if viewers[0].canControl then Some(viewers[0].deviceId)
    else FirstController(viewers[1..])
  }

  /** Starting again in a chat ends the chat's previous share. */
  function EndPrevious(s: State, chatId: Option<string>, now: string): State {
    if Given(chatId) && chatId.value in s.chatSessions && s.chatSessions[chatId.value] != ""
       && s.chatSessions[chatId.value] in s.sessions then
      Put(s, s.sessions[s.chatSessions[chatId.value]].(status := Idle, updatedAt := now))
    else s
  }

  function NewSession(host: Device, viewers: seq<Viewer>, input: StartInput, freshId: string, now: string): Session {
    var initiator := if input.initiatedBy.Some? then input.initiatedBy.value else User;
    Session(
      freshId, Sharing, host.id, FirstController(viewers), viewers,
      Capabilities("remote-input" in host.capabilities, true, true, true),
      Transport(if |viewers| > 0 then Connected else Checking, P2P, if |viewers| > 0 then 45.0 else 0.0, false),
      now, input.chatId, input.nodeId, initiator, if initiator == Agent then Agent else User,
      input.requireConsent, input.reason)
  }

  function StartShare(s: State, input: StartInput, freshId: string, now: string): Effect<Session> {
    if input.hostDeviceId !in s.devices || !s.devices[input.hostDeviceId].authorized then
      Effect(s, Err("Host device is not registered or authorized."))
    else
      var viewers := Viewers(s.devices, input.viewerDeviceIds, now);
      var x := NewSession(s.devices[input.hostDeviceId], viewers, input, freshId, now);
      var t := Put(EndPrevious(s, input.chatId, now), x);
      Effect(
        if Given(input.chatId) then t.(chatSessions := t.chatSessions[input.chatId.value := freshId])
        else t.(active := Some(x)),
        Ok(x))
  }

  function AddViewer(s: State, sessionId: string, deviceId: string, now: string): Effect<Session> {
    match Find(s, sessionId)
    case None => Effect(s, Err("Unknown share session."))
    case Some(x) =>
      if x.status == Idle then Effect(s, Err("This share has already ended."))
      else if deviceId == x.hostDeviceId then
        Effect(s, Err("The sharing device cannot also join as a viewer."))
      else if deviceId !in s.devices || !s.devices[deviceId].authorized then
        Effect(s, Err("Viewer device is not registered or authorized."))
      else if Attached(x, deviceId) then Effect(s, Ok(x))
      else
        var latency := if x.transport.avgLatencyMs == 0.0 then 45.0 else x.transport.avgLatencyMs;
        var updated := x.(
          viewers := x.viewers + [NewViewer(s.devices[deviceId], latency, now)],
          transport := x.transport.(ice := Connected), updatedAt := now);
        Effect(Put(s, updated), Ok(updated))
  }

  function Without(viewers: seq<Viewer>, deviceId: string): seq<Viewer> {
    if viewers == [] then []
    else
      Without(viewers[..|viewers| - 1], deviceId)
      + (if viewers[|viewers| - 1].deviceId != deviceId then [viewers[|viewers| - 1]] else [])
  }

  function RemoveViewer(s: State, sessionId: string, deviceId: string, now: string): Effect<Session> {
    match Find(s, sessionId)
    case None => Effect(s, Err("Unknown active share session."))
    case Some(x) =>
      if x.status == Idle then Effect(s, Err("Unknown active share session."))
      else if deviceId == x.hostDeviceId then Effect(s, Err("The host cannot leave as a viewer."))
      else if !Attached(x, deviceId) then Effect(s, Ok(x))
      else
        var updated := x.(
          viewers := Without(x.viewers, deviceId),
          controllerDeviceId := if x.controllerDeviceId == Some(deviceId) then None else x.controllerDeviceId,
          updatedAt := now);
        Effect(PutBoth(s, updated), Ok(updated))
  }

  /** Drop a chat's index entry when it names the session that just ended. */
  function Unindex(s: State, x: Session): State {
    if Given(x.chatId) && x.chatId.value in s.chatSessions && s.chatSessions[x.chatId.value] == x.id
    then s.(chatSessions := s.chatSessions - {x.chatId.value})
    else s
  }

  function StopShare(s: State, sessionId: Option<string>, now: string): Effect<Option<Session>> {
    match Target(s, sessionId)
    case None => Effect(s, Ok(None))
    case Some(x) =>
      var stopped := x.(status := Idle, updatedAt := now);
      Effect(Unindex(PutBoth(s, stopped), stopped), Ok(Some(stopped)))
  }

  function ResolveApproval(s: State, sessionId: string, approved: bool, now: string): Effect<Session> {
    match Find(s, sessionId)
    case None => Effect(s, Err("Unknown share session."))
    case Some(x) =>
      if x.status != Sharing || (!approved && !x.pendingApproval) then
        Effect(s, Err("Screen share approval is no longer pending."))
      else
        var next := x.(pendingApproval := false, status := if approved then Sharing else Idle, updatedAt := now);
        var t := PutBoth(s, next);
        Effect(if approved then t else Unindex(t, next), Ok(next))
  }

  function SetControlOwner(s: State, sessionId: string, owner: Party, now: string): Effect<Session> {
    var found := if sessionId in s.sessions then Some(s.sessions[sessionId])
                 else if s.active.Some? && s.active.value.id == sessionId then s.active else None;
    match found
    case None => Effect(s, Err("Unknown share session."))
    case Some(x) =>
      if x.status != Sharing || x.pendingApproval then
        Effect(s, Err("Screen share is not active and approved."))
      else
        var next := x.(
          controlOwner := owner, controllerDeviceId := if owner == User then None else x.controllerDeviceId,
          updatedAt := now);
        Effect(PutBoth(s, next), Ok(next))
  }

  function TransferControl(s: State, deviceId: string, sessionId: Option<string>, now: string): Effect<Session> {
    match Target(s, sessionId)
    case None => Effect(s, Err("No active share session."))
    case Some(x) =>
      if x.status == Idle then Effect(s, Err("No active share session."))
      else if !CanControl(x, deviceId) then
        Effect(s, Err("Target device is not an authorized controller for this session."))
      else
        var updated := x.(controllerDeviceId := Some(deviceId), controlOwner := Agent, updatedAt := now);
        Effect(PutBoth(s, updated), Ok(updated))
  }

  function Retransport(viewers: seq<Viewer>, deviceId: string, latencyMs: real, mode: RouteMode): seq<Viewer> {
    seq(|viewers|, i requires 0 <= i < |viewers| =>
      if viewers[i].deviceId == deviceId
      then viewers[i].(latencyMs := latencyMs, transportMode := mode)
      else viewers[i])
  }

  function TotalLatency(viewers: seq<Viewer>): real {
    if viewers == [] then 0.0
    else TotalLatency(viewers[..|viewers| - 1]) + viewers[|viewers| - 1].latencyMs
  }

  /** `Math.round`: the nearest integer, halves upwards. */
  function Round(x: real): real {
    (x + 0.5).Floor as real
  }

  function Summary(viewers: seq<Viewer>, was: Transport): Transport {
    var avg := if |viewers| > 0 then TotalLatency(viewers) / |viewers| as real else 0.0;
    was.(
      avgLatencyMs := Round(avg),
      routeMode := if forall i :: 0 <= i < |viewers| ==> viewers[i].transportMode == P2P then P2P else Turn,
      relayActive := exists i :: 0 <= i < |viewers| && viewers[i].transportMode == Turn)
  }

  function UpdateViewerTransport(
    s: State, deviceId: string, latencyMs: real, preferP2P: bool, now: string): Effect<Session>
  {
    match s.active
    case None => Effect(s, Err("No active share session."))
    case Some(x) =>
      var mode := if preferP2P && latencyMs < 100.0 then P2P else Turn;
      var viewers := Retransport(x.viewers, deviceId, latencyMs, mode);
      var updated := x.(viewers := viewers, transport := Summary(viewers, x.transport), updatedAt := now);
      Effect(s.(active := Some(updated)), Ok(updated))
  }

  /** The live share of a chat, as the index finds it. */
  function SessionForChat(s: State, chatId: string): Option<Session> {
    if chatId !in s.chatSessions || s.chatSessions[chatId] == "" then None
    else
      match Find(s, s.chatSessions[chatId])
      case None => None
      case Some(x) => if x.status == Idle then None else Some(x)
  }

  // ----- the class -----

  class ScreenShareService {
    var devices: map<string, Device>
    var sessions: map<string, Session>
    var chatSessions: map<string, string>
    var activeSession: Option<Session>

    ghost function View(): State
      reads this
    {
      State(devices, sessions, chatSessions, activeSession)
    }

    constructor ()
      ensures View() == EMPTY
    {
      devices, sessions, chatSessions, activeSession := map[], map[], map[], None;
    }

    method GetSessionForChat(chatId: string) returns (r: Option<Session>)
      ensures r == SessionForChat(View(), chatId)
    {
      if chatId !in chatSessions || chatSessions[chatId] == "" {
        return None;
      }
      var sessionId := chatSessions[chatId];
      if sessionId !in sessions || sessions[sessionId].status == Idle {
        return None;
      }
      return Some(sessions[sessionId]);
    }

    method Register(device: Device, now: string) returns (normalized: Device)
      modifies this
      ensures View() == RegisterDevice(old(View()), device, now)
      ensures normalized == devices[device.id]
    {
      var since := if device.id in devices then devices[device.id].connectedAt else now;
      normalized := device.(connectedAt := since, lastSeenAt := now);
      devices := devices[normalized.id := normalized];
    }

    method CollectViewers(ids: seq<string>, now: string) returns (viewers: seq<Viewer>)
      ensures viewers == Viewers(devices, ids, now)
    {
      viewers := [];
      for i := 0 to |ids|
        invariant viewers == Viewers(devices, ids[..i], now)
      {
        assert ids[..i + 1][..i] == ids[..i];
        if ids[i] in devices && devices[ids[i]].authorized {
          viewers := viewers + [NewViewer(devices[ids[i]], 45.0, now)];
        }
      }
      assert ids[..|ids|] == ids;
    }

    method Start(input: StartInput, freshId: string, now: string) returns (r: Result<Session, string>)
      modifies this
      ensures Effect(View(), r) == StartShare(old(View()), input, freshId, now)
    {
      if input.hostDeviceId !in devices || !devices[input.hostDeviceId].authorized {
        return Err("Host device is not registered or authorized.");
      }
      var host := devices[input.hostDeviceId];
      var viewers := CollectViewers(input.viewerDeviceIds, now);
      if Given(input.chatId) && input.chatId.value in chatSessions {
        var previousId := chatSessions[input.chatId.value];
        if previousId != "" && previousId in sessions {
          var previous := sessions[previousId];
          sessions := sessions[previous.id := previous.(status := Idle, updatedAt := now)];
        }
      }
      var session := NewSession(host, viewers, input, freshId, now);
      sessions := sessions[session.id := session];
      if Given(input.chatId) {
        chatSessions := chatSessions[input.chatId.value := session.id];
      } else {
        activeSession := Some(session);
      }
      return Ok(session);
    }

    method Add(sessionId: string, deviceId: string, now: string) returns (r: Result<Session, string>)
      modifies this
      ensures Effect(View(), r) == AddViewer(old(View()), sessionId, deviceId, now)
    {
      if sessionId !in sessions {
        return Err("Unknown share session.");
      }
      var session := sessions[sessionId];
      if session.status == Idle {
        return Err("This share has already ended.");
      }
      if deviceId == session.hostDeviceId {
        return Err("The sharing device cannot also join as a viewer.");
      }
      if deviceId !in devices || !devices[deviceId].authorized {
        return Err("Viewer device is not registered or authorized.");
      }
      if Attached(session, deviceId) {
        return Ok(session);
      }
      var latency := if session.transport.avgLatencyMs == 0.0 then 45.0 else session.transport.avgLatencyMs;
      var updated := session.(
        viewers := session.viewers + [NewViewer(devices[deviceId], latency, now)],
        transport := session.transport.(ice := Connected), updatedAt := now);
      sessions := sessions[session.id := updated];
      return Ok(updated);
    }

    method Remove(sessionId: string, deviceId: string, now: string) returns (r: Result<Session, string>)
      modifies this
      ensures Effect(View(), r) == RemoveViewer(old(View()), sessionId, deviceId, now)
    {
      if sessionId !in sessions || sessions[sessionId].status == Idle {
        return Err("Unknown active share session.");
      }
      var session := sessions[sessionId];
      if deviceId == session.hostDeviceId {
        return Err("The host cannot leave as a viewer.");
      }
      if !Attached(session, deviceId) {
        return Ok(session);
      }
      var kept := [];
      for i := 0 to |session.viewers|
        invariant kept == Without(session.viewers[..i], deviceId)
      {
        assert session.viewers[..i + 1][..i] == session.viewers[..i];
        if session.viewers[i].deviceId != deviceId {
          kept := kept + [session.viewers[i]];
        }
      }
      assert session.viewers[..|session.viewers|] == session.viewers;
      var updated := session.(
        viewers := kept,
        controllerDeviceId :=
          if session.controllerDeviceId == Some(deviceId) then None else session.controllerDeviceId,
        updatedAt := now);
      WriteBoth(updated);
      return Ok(updated);
    }

    method WriteBoth(updated: Session)
      modifies this`sessions, this`activeSession
      ensures View() == PutBoth(old(View()), updated)
    {
      sessions := sessions[updated.id := updated];
      if activeSession.Some? && activeSession.value.id == updated.id {
        activeSession := Some(updated);
      }
    }

    method DropIndex(ended: Session)
      modifies this`chatSessions
      ensures View() == Unindex(old(View()), ended)
    {
      if Given(ended.chatId) && ended.chatId.value in chatSessions
         && chatSessions[ended.chatId.value] == ended.id {
        chatSessions := chatSessions - {ended.chatId.value};
      }
    }

    method Stop(sessionId: Option<string>, now: string) returns (r: Option<Session>)
      modifies this
      ensures Effect(View(), Ok(r)) == StopShare(old(View()), sessionId, now)
    {
      var target := if !Given(sessionId) then activeSession
                    else if sessionId.value in sessions then Some(sessions[sessionId.value]) else None;
      if target.None? {
        return None;
      }
      var stopped := target.value.(status := Idle, updatedAt := now);
      WriteBoth(stopped);
      DropIndex(stopped);
      return Some(stopped);
    }

    method Resolve(sessionId: string, approved: bool, now: string) returns (r: Result<Session, string>)
      modifies this
      ensures Effect(View(), r) == ResolveApproval(old(View()), sessionId, approved, now)
    {
      if sessionId !in sessions {
        return Err("Unknown share session.");
      }
      var session := sessions[sessionId];
      if session.status != Sharing || (!approved && !session.pendingApproval) {
        return Err("Screen share approval is no longer pending.");
      }
      var next := if approved
      then session.(pendingApproval := false, status := Sharing, updatedAt := now)
      else session.(pendingApproval := false, status := Idle, updatedAt := now);
      WriteBoth(next);
      if !approved {
        DropIndex(next);
      }
      return Ok(next);
    }

    method SetOwner(sessionId: string, owner: Party, now: string) returns (r: Result<Session, string>)
      modifies this
      ensures Effect(View(), r) == SetControlOwner(old(View()), sessionId, owner, now)
    {
      var found := if sessionId in sessions then Some(sessions[sessionId])
      else if activeSession.Some? && activeSession.value.id == sessionId then activeSession else None;
      if found.None? {
        return Err("Unknown share session.");
      }
      var session := found.value;
      if session.status != Sharing || session.pendingApproval {
        return Err("Screen share is not active and approved.");
      }
      var next := session.(
        controlOwner := owner,
        controllerDeviceId := if owner == User then None else session.controllerDeviceId,
        updatedAt := now);
      WriteBoth(next);
      return Ok(next);
    }

    method Transfer(deviceId: string, sessionId: Option<string>, now: string) returns (r: Result<Session, string>)
      modifies this
      ensures Effect(View(), r) == TransferControl(old(View()), deviceId, sessionId, now)
    {
      var target := if !Given(sessionId) then activeSession
                    else if sessionId.value in sessions then Some(sessions[sessionId.value]) else None;
      if target.None? || target.value.status == Idle {
        return Err("No active share session.");
      }
      var session := target.value;
      if !CanControl(session, deviceId) {
        return Err("Target device is not an authorized controller for this session.");
      }
      var updated := session.(controllerDeviceId := Some(deviceId), controlOwner := Agent, updatedAt := now);
      WriteBoth(updated);
      return Ok(updated);
    }

    method UpdateTransport(deviceId: string, latencyMs: real, preferP2P: bool, now: string)
      returns (r: Result<Session, string>)
      modifies this
      ensures Effect(View(), r) == UpdateViewerTransport(old(View()), deviceId, latencyMs, preferP2P, now)
    {
      if activeSession.None? {
        return Err("No active share session.");
      }
      var session := activeSession.value;
      var mode := if preferP2P && latencyMs < 100.0 then P2P else Turn;
      var viewers := Retransport(session.viewers, deviceId, latencyMs, mode);
      var sum := 0.0;
      for i := 0 to |viewers|
        invariant sum == TotalLatency(viewers[..i])
      {
        assert viewers[..i + 1][..i] == viewers[..i];
        sum := sum + viewers[i].latencyMs;
      }
      assert viewers[..|viewers|] == viewers;
      var avg := if |viewers| > 0 then sum / |viewers| as real else 0.0;
      var updated := session.(
        viewers := viewers,
        transport := session.transport.(
          avgLatencyMs := Round(avg),
          routeMode := if forall i :: 0 <= i < |viewers| ==> viewers[i].transportMode == P2P then P2P else Turn,
          relayActive := exists i :: 0 <= i < |viewers| && viewers[i].transportMode == Turn),
        updatedAt := now);
      activeSession := Some(updated);
      return Ok(updated);
    }
  }
}
