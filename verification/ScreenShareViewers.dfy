/** Over every run of the screen-share service: where each viewer came from, and as what it joined. */
module ScreenShareViewers {
  import opened Prelude
  import opened ScreenShare
  import opened ScreenShareRuns
  import opened ScreenShareCalls

  /** A session as one of its copies has it. */
  predicate IsCopy(s: State, x: Session) {
    (x.id in s.sessions && s.sessions[x.id] == x) || s.active == Some(x)
  }

  /** The call makes the device a viewer of session `id`; `can` says that it is no browser. */
  predicate Joins(s: State, op: Op, id: string, deviceId: string, can: bool) {
    && MayView(s.devices, deviceId) && (can <==> s.devices[deviceId].platform != "web")
    && ((op.Start? && op.freshId == id && deviceId in op.input.viewerDeviceIds)
        || (op.Add? && op.id == id && op.deviceId == deviceId))
  }

  /** A copy of session `id` had the device as a viewer already, with the same right to control. */
  ghost predicate Had(s: State, id: string, deviceId: string, can: bool) {
    exists x, v :: IsCopy(s, x) && x.id == id && v in x.viewers && v.deviceId == deviceId && v.canControl == can
  }

  lemma {:induction false} WithoutFrom(viewers: seq<Viewer>, deviceId: string)
    ensures forall v :: v in Without(viewers, deviceId) ==> v in viewers
  {
    if viewers != [] {
      WithoutFrom(viewers[..|viewers| - 1], deviceId);
    }
  }

  /** Viewers of the written session are viewers of the one it was written from. */
  predicate ViewersFrom(y: Session, x: Session) {
    && y.id == x.id
    && forall v :: v in y.viewers ==> exists u :: u in x.viewers && u.deviceId == v.deviceId && u.canControl == v.canControl
  }

  lemma PutBothFrom(s: State, x: Session, y: Session, z: Session, v: Viewer)
    requires KeysOk(s) && IsCopy(s, x) && ViewersFrom(y, x)
    requires IsCopy(PutBoth(s, y), z) && v in z.viewers
    ensures Had(s, z.id, v.deviceId, v.canControl)
  {
    hide ControllerCan;
    if z == y {
      var u :| u in x.viewers && u.deviceId == v.deviceId && u.canControl == v.canControl;
    } else {
      assert IsCopy(s, z);
    }
  }

  lemma SameViewers(x: Session, y: Session)
    requires y.id == x.id && y.viewers == x.viewers
    ensures ViewersFrom(y, x)
  {
  }

  lemma UnindexCopies(s: State, y: Session, z: Session)
    ensures IsCopy(Unindex(s, y), z) <==> IsCopy(s, z)
  {
  }

  lemma TargetIsCopy(s: State, t: Option<string>)
    requires KeysOk(s) && Target(s, t).Some?
    ensures IsCopy(s, Target(s, t).value)
  {
  }

  lemma WriterFrom(s: State, op: Op, z: Session, v: Viewer)
    requires Inv(s) && (op.Remove? || op.Stop? || op.Resolve? || op.SetOwner? || op.Transfer?)
    requires IsCopy(Apply(s, op), z) && v in z.viewers
    ensures Had(s, z.id, v.deviceId, v.canControl)
  {
    hide ControllerCan, IndexOk, CanControl, Attached, Without, Unindex, PutBoth, Had, ViewersFrom;
    if Apply(s, op) == s {
      Already(s, z, v);
      return;
    }
    match op {
      case Remove(id, deviceId, now) =>
        var x, y := s.sessions[id], RemoveViewer(s, id, deviceId, now).result.value;
        RemovedFrom(x, y, deviceId);
        PutBothFrom(s, x, y, z, v);
      case Resolve(id, approved, now) =>
        var x, y := s.sessions[id], ResolveApproval(s, id, approved, now).result.value;
        SameViewers(x, y);
        UnindexCopies(PutBoth(s, y), y, z);
        PutBothFrom(s, x, y, z, v);
      case SetOwner(id, owner, now) =>
        var x, y := s.sessions[id], SetControlOwner(s, id, owner, now).result.value;
        SameViewers(x, y);
        PutBothFrom(s, x, y, z, v);
      case Stop(t, now) =>
        TargetIsCopy(s, t);
        var x, y := Target(s, t).value, StopShare(s, t, now).result.value.value;
        SameViewers(x, y);
        UnindexCopies(PutBoth(s, y), y, z);
        PutBothFrom(s, x, y, z, v);
      case Transfer(deviceId, t, now) =>
        TargetIsCopy(s, t);
        var x, y := Target(s, t).value, TransferControl(s, deviceId, t, now).result.value;
        SameViewers(x, y);
        PutBothFrom(s, x, y, z, v);
    }
  }

  lemma RemovedFrom(x: Session, y: Session, deviceId: string)
    requires y.id == x.id && y.viewers == Without(x.viewers, deviceId)
    ensures ViewersFrom(y, x)
  {
    WithoutFrom(x.viewers, deviceId);
  }

  lemma Already(s: State, z: Session, v: Viewer)
    requires IsCopy(s, z) && v in z.viewers
    ensures Had(s, z.id, v.deviceId, v.canControl)
  {
  }

  lemma EndedPrevious(s: State, chatId: Option<string>, now: string, z: Session, v: Viewer)
    requires KeysOk(s) && IsCopy(EndPrevious(s, chatId, now), z) && v in z.viewers
    ensures Had(s, z.id, v.deviceId, v.canControl)
  {
    hide ControllerCan;
    if !IsCopy(s, z) {
      var x := s.sessions[s.chatSessions[chatId.value]];
      assert IsCopy(s, x) && z.viewers == x.viewers && z.id == x.id;
    }
  }

  lemma StartFrom(s: State, op: Op, z: Session, v: Viewer)
    requires Inv(s) && DevicesKeyed(s) && op.Start? && IsCopy(Apply(s, op), z) && v in z.viewers
    ensures Had(s, z.id, v.deviceId, v.canControl) || Joins(s, op, z.id, v.deviceId, v.canControl)
  {
    var input := op.input;
    if !MayView(s.devices, input.hostDeviceId) {
      Already(s, z, v);
    } else {
      var x := StartShare(s, input, op.freshId, op.now).result.value;
      ViewersMean(s.devices, input.viewerDeviceIds, op.now);
      hide ControllerCan, IndexOk, Had, Viewers, Allowed, EndPrevious, FirstController;
      if z == x {
        var i :| 0 <= i < |x.viewers| && x.viewers[i] == v;
      } else {
        assert IsCopy(EndPrevious(s, input.chatId, op.now), z) by { EndKeepsActive(s, input.chatId, op.now); }
        EndedPrevious(s, input.chatId, op.now, z, v);
      }
    }
  }

  lemma EndKeepsActive(s: State, chatId: Option<string>, now: string)
    ensures EndPrevious(s, chatId, now).active == s.active
  {
  }

  lemma AddFrom(s: State, op: Op, z: Session, v: Viewer)
    requires Inv(s) && DevicesKeyed(s) && op.Add? && IsCopy(Apply(s, op), z) && v in z.viewers
    ensures Had(s, z.id, v.deviceId, v.canControl) || Joins(s, op, z.id, v.deviceId, v.canControl)
  {
    JoinedShare(s, op.id, op.deviceId, op.now);
    var e := AddViewer(s, op.id, op.deviceId, op.now);
    if IsCopy(s, z) {
      Already(s, z, v);
    } else {
      hide ControllerCan, IndexOk, AddViewer, Attached;
      var x, y := s.sessions[op.id], e.result.value;
      assert z == y;
      var i :| 0 <= i < |y.viewers| && y.viewers[i] == v;
      if i < |x.viewers| {
        assert x.viewers[i] == y.viewers[..|x.viewers|][i];
        assert IsCopy(s, x) && v in x.viewers;
        Already(s, x, v);
      }
    }
  }

  lemma MeasureFrom(s: State, op: Op, z: Session, v: Viewer)
    requires KeysOk(s) && op.Measure? && IsCopy(Apply(s, op), z) && v in z.viewers
    ensures Had(s, z.id, v.deviceId, v.canControl)
  {
    Measured(s, op.deviceId, op.latencyMs, op.preferP2P, op.now);
    var e := UpdateViewerTransport(s, op.deviceId, op.latencyMs, op.preferP2P, op.now);
    hide UpdateViewerTransport, IsMean, ControllerCan;
    if IsCopy(s, z) {
      Already(s, z, v);
    } else {
      var x := s.active.value;
      assert z == e.result.value && IsCopy(s, x) && z.id == x.id;
      var i :| 0 <= i < |z.viewers| && z.viewers[i] == v;
      assert x.viewers[i] in x.viewers;
    }
  }

  /** A viewer of a copy was one before, or joined with this call. */
  lemma ViewerFrom(s: State, op: Op, z: Session, v: Viewer)
    requires Inv(s) && DevicesKeyed(s) && IsCopy(Apply(s, op), z) && v in z.viewers
    ensures Had(s, z.id, v.deviceId, v.canControl) || Joins(s, op, z.id, v.deviceId, v.canControl)
  {
    hide Had, Joins, Inv;
    match op {
      case Register(_, _) => Already(s, z, v);
      case Start(_, _, _) => StartFrom(s, op, z, v);
      case Add(_, _, _) => AddFrom(s, op, z, v);
      case Measure(_, _, _, _) =>
        InvKeys(s);
        MeasureFrom(s, op, z, v);
      case _ => WriterFrom(s, op, z, v);
    }
  }

  lemma InvKeys(s: State)
    requires Inv(s)
    ensures KeysOk(s)
  {
  }

  /** Some call of the run made the device a viewer of the session, when it was authorized and was, or
      was not, a browser. */
  ghost predicate Joined(ops: seq<Op>, id: string, deviceId: string, can: bool) {
    exists k :: 0 <= k < |ops| && Run(ops[..k]).Some? && Joins(Run(ops[..k]).value, ops[k], id, deviceId, can)
  }

  lemma JoinedStays(ops: seq<Op>, op: Op, id: string, deviceId: string, can: bool)
    requires Joined(ops, id, deviceId, can)
    ensures Joined(ops + [op], id, deviceId, can)
  {
    hide Joins, Run;
    var k :| 0 <= k < |ops| && Run(ops[..k]).Some? && Joins(Run(ops[..k]).value, ops[k], id, deviceId, can);
    assert (ops + [op])[..k] == ops[..k] && (ops + [op])[k] == ops[k];
  }

  /** Every viewer of every copy joined in the run, and may control exactly if it was no browser then. */
  lemma {:induction false} ViewersJoined(ops: seq<Op>, z: Session, v: Viewer)
    requires Run(ops).Some? && IsCopy(Run(ops).value, z) && v in z.viewers
    ensures Joined(ops, z.id, v.deviceId, v.canControl)
    decreases |ops|
  {
    if ops != [] {
      var front, op := ops[..|ops| - 1], ops[|ops| - 1];
      var s := Run(front).value;
      RunKeeps(front);
      RunDevicesKeyed(front);
      assert front + [op] == ops;
      hide Apply, Inv, DevicesKeyed, Joined, Joins;
      ViewerFrom(s, op, z, v);
      if Had(s, z.id, v.deviceId, v.canControl) {
        var x, u :| IsCopy(s, x) && x.id == z.id && u in x.viewers && u.deviceId == v.deviceId && u.canControl == v.canControl;
        ViewersJoined(front, x, u);
        JoinedStays(front, op, z.id, v.deviceId, v.canControl);
      } else {
        JoinedNow(ops, z.id, v.deviceId, v.canControl);
      }
    }
  }

  lemma JoinedNow(ops: seq<Op>, id: string, deviceId: string, can: bool)
    requires ops != [] && Run(ops[..|ops| - 1]).Some?
    requires Joins(Run(ops[..|ops| - 1]).value, ops[|ops| - 1], id, deviceId, can)
    ensures Joined(ops, id, deviceId, can)
  {
  }

  /** Whoever controls a copy joined that session as an authorized device that was no browser. */
  lemma ControllersAreNoBrowsers(ops: seq<Op>, z: Session)
    requires Run(ops).Some? && IsCopy(Run(ops).value, z) && z.controllerDeviceId.Some?
    ensures Joined(ops, z.id, z.controllerDeviceId.value, true)
  {
    ControllersMayControl(ops);
    hide Run, Joined;
    assert ControllerCan(z);
    var i :| 0 <= i < |z.viewers| && z.viewers[i].deviceId == z.controllerDeviceId.value && z.viewers[i].canControl;
    ViewersJoined(ops, z, z.viewers[i]);
  }
}
