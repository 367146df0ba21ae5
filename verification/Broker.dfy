/**
 The shared state of the PTY broker client (`packages/gateway-rust/src/pty_broker_client.rs`):
 the critical sections of `rpc`, `handle_line` and `stop`, each as one atomic change.
 */
module Broker {
  import opened Prelude

  /** One decoded line from the broker. */
  datatype Message = Message(
    id: Option<nat>, ok: Option<bool>, error: Option<string>, ptyId: Option<string>, pid: Option<int>,
    event: Option<string>, data: Option<string>, exitCode: Option<int>, signal: Option<int>)
  {
    predicate IsEvent() {
      event.Some? && event.value != ""
    }

    /** A response to call `n`: events are never responses, even when they carry an id. */
    predicate Answers(n: nat) {
      !IsEvent() && id == Some(n)
    }
  }

  /** What a line makes the client tell its owner. */
  datatype Callback =
    | Output(ptyId: string, data: string)
    | Exited(ptyId: string, exitCode: int, signal: Option<int>)

  function CallbackOf(m: Message): Option<Callback> {
    if !m.IsEvent() || m.ptyId.None? || m.ptyId.value == "" then None
    else if m.event.value == "output" then
      if m.data.Some? then Some(Output(m.ptyId.value, m.data.value)) else None
    else if m.event.value == "exit" then
      Some(Exited(m.ptyId.value, if m.exitCode.Some? then m.exitCode.value else -1, m.signal))
    else None
  }

  /** How one call ends for its caller. */
  datatype Outcome = Reply(message: Message) | Stopped | TimedOut | WriteFailed(reason: string)

  /** The mutex-protected fields. `pending` holds the ids whose sender is still in the map. */
  datatype Client = Client(nextId: nat, pending: set<nat>, ready: bool)

  const INITIAL := Client(1, {}, false)

  function Register(c: Client): Client {
    c.(nextId := c.nextId + 1, pending := c.pending + {c.nextId})
  }

  /** The id whose sender a line takes out of the map, if any. */
  function Claimed(c: Client, m: Message): Option<nat> {
    if !m.IsEvent() && m.id.Some? && m.id.value in c.pending then Some(m.id.value) else None
  }

  function Take(c: Client, m: Message): Client {
    match Claimed(c, m)
    case None => c
    case Some(id) => c.(pending := c.pending - {id})
  }

  function Forget(c: Client, id: nat): Client {
    c.(pending := c.pending - {id})
  }

  function Halt(c: Client): Client {
    c.(pending := {}, ready := false)
  }

  /** The client object; each method is the body of one lock of the mutex. */
  class PtyBrokerClient {
    var nextId: nat
    var pending: set<nat>
    var ready: bool

    ghost function View(): Client
      reads this
    {
      Client(nextId, pending, ready)
    }

    constructor ()
      ensures View() == INITIAL
    {
      nextId, pending, ready := 1, {}, false;
    }

    /** First lock of `rpc`: take the next id and file the sender under it. */
    method BeginCall() returns (id: nat)
      modifies this
      ensures id == old(nextId)
      ensures View() == Register(old(View()))
    {
      id := nextId;
      nextId := nextId + 1;
      pending := pending + {id};
    }

    /** `handle_line` on a decoded message, up to handing the sender to the reader. */
    method HandleLine(m: Message) returns (callback: Option<Callback>, claimed: Option<nat>)
      modifies this
      ensures callback == CallbackOf(m)
      ensures claimed == Claimed(old(View()), m)
      ensures View() == Take(old(View()), m)
    {
      callback, claimed := None, None;
      if m.event.Some? && m.event.value != "" {
        var ptyId := if m.ptyId.Some? && m.ptyId.value != "" then m.ptyId else None;
        if m.event.value == "output" {
          if ptyId.Some? && m.data.Some? {
            callback := Some(Output(ptyId.value, m.data.value));
          }
        } else if m.event.value == "exit" && ptyId.Some? {
          var code := if m.exitCode.Some? then m.exitCode.value else -1;
          callback := Some(Exited(ptyId.value, code, m.signal));
        }
        return;
      }
      if m.id.Some? {
        var id := m.id.value;
        if id in pending {
          claimed := Some(id);
        }
        pending := pending - {id};
      }
    }

    /** Last lock of `rpc` after a timeout or a failed write. */
    method EndCall(id: nat)
      modifies this
      ensures View() == Forget(old(View()), id)
    {
      pending := pending - {id};
    }

    /** `stop`: every filed sender is taken out at once, to be dropped. */
    method Stop() returns (drained: set<nat>)
      modifies this
      ensures drained == old(pending)
      ensures View() == Halt(old(View()))
    {
      ready := false;
      drained := pending;
      pending := {};
    }

    method HandleStderrLine(marked: bool) returns (becameReady: bool)
      modifies this
      ensures becameReady == marked
      ensures View() == old(View()).(ready := old(ready) || marked)
    {
      if marked {
        ready := true;
        return true;
      }
      return false;
    }
  }
}
