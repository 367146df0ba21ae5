/**
 Runs of the manager queues: any mix of enqueues, removals, edits, drags, drains and sends that
 succeed or fail. A send that ended leaves its thread marked until its last handler has run. A drain
 belongs to a render, which may show any queues the component has had so far.
 */
module ManagerQueueRuns {
  import opened Prelude
  import opened ManagerQueue
  import opened Permutations

  datatype Phase = Sending | Settled

  datatype Call = Call(thread: string, item: Item, phase: Phase)

  /** What happened to one thread's messages so far. */
  datatype History = History(enqueued: seq<string>, delivered: seq<string>, removed: seq<string>, dragged: bool)

  /** `owner` names the thread of every id handed out; `seen` holds all queues there were, the latest
      ones last. */
  datatype Sys = Sys(
    m: Manager, calls: map<nat, Call>, next: nat, past: map<string, History>, owner: map<string, string>,
    seen: seq<Queues>)

  const Start := Sys(Manager(map[], {}), map[], 0, map[], map[], [map[]])

  datatype Event =
    | Post(thread: string, item: Item)
    | Remove(thread: string, id: string)
    | Change(thread: string, id: string, content: string, fullContent: string)
    | Move(thread: string, source: string, target: Option<string>, after: bool)
    | Drain(thread: string, running: map<string, bool>, render: nat)
    | Succeed(call: nat)
    | Fail(call: nat)
    | Finish(call: nat)

  predicate Enabled(s: Sys, e: Event) {
    match e
    case Post(_, item) => item.id !in s.owner
    case Drain(_, _, render) => render < |s.seen|
    case Succeed(c) => c in s.calls && s.calls[c].phase.Sending?
    case Fail(c) => c in s.calls && s.calls[c].phase.Sending?
    case Finish(c) => c in s.calls && s.calls[c].phase.Settled?
    case _ => true
  }

  function Past(s: Sys, t: string): History {
    if t in s.past then s.past[t] else History([], [], [], false)
  }

  function IdsOf(q: Queues, t: string): seq<string> {
    Ids(QueueOf(q, t))
  }

  function Queued(s: Sys, t: string): seq<string> {
    IdsOf(s.m.queues, t)
  }

  /** The ids of `a` that are not in `gone`, in order. */
  function Keep(a: seq<string>, gone: seq<string>): seq<string> {
    if a == [] then []
    else if a[0] in gone then Keep(a[1..], gone)
    else [a[0]] + Keep(a[1..], gone)
  }

  function Lost(h: History, ids: seq<string>): History {
    h.(removed := h.removed + ids)
  }

  function Hit(queued: seq<string>, id: string): seq<string> {
    if id in queued then [id] else []
  }

  /** The drain of an event. */
  function Turn(s: Sys, e: Event): (Manager, Option<Started>)
    requires Enabled(s, e) && e.Drain?
  {
    DrainOne(s.m, s.seen[e.render], e.thread, e.running)
  }

  function Apply(s: Sys, e: Event): Sys
    requires Enabled(s, e)
  {
    var r := Act(s, e);
    r.(seen := r.seen + [r.m.queues])
  }

  function Act(s: Sys, e: Event): Sys
    requires Enabled(s, e)
  {
    match e
    case Post(t, item) =>
      var h := Past(s, t);
      s.(m := s.m.(queues := Enqueue(s.m.queues, t, item)),
         past := s.past[t := h.(enqueued := h.enqueued + [item.id])],
         owner := s.owner[item.id := t])
    case Remove(t, id) =>
      s.(m := s.m.(queues := Dequeue(s.m.queues, t, id)),
         past := s.past[t := Lost(Past(s, t), Hit(Queued(s, t), id))])
    case Change(t, id, content, fullContent) =>
      s.(m := s.m.(queues := Edit(s.m.queues, t, id, content, fullContent)))
    case Move(t, source, target, after) =>
      s.(m := s.m.(queues := Reorder(s.m.queues, t, source, target, after)),
         past := s.past[t := Past(s, t).(dragged := true)])
    case Drain(t, _, _) =>
      var (m, started) := Turn(s, e);
      if started.Some? then
        s.(m := m, calls := s.calls[s.next := Call(started.value.thread, started.value.item, Sending)], next := s.next + 1)
      else
        // Nothing was sent. A queue that is gone now belonged to an unknown thread.
        s.(m := m,
           past := if IdsOf(m.queues, t) == [] then s.past[t := Lost(Past(s, t), Queued(s, t))] else s.past)
    case Succeed(c) =>
      var t := s.calls[c].thread;
      var h := Past(s, t);
      s.(calls := s.calls[c := s.calls[c].(phase := Settled)],
         past := s.past[t := h.(delivered := h.delivered + [s.calls[c].item.id])])
    case Fail(c) =>
      s.(m := s.m.(queues := Requeue(s.m.queues, s.calls[c].thread, s.calls[c].item)),
         calls := s.calls[c := s.calls[c].(phase := Settled)])
    case Finish(c) =>
      s.(m := s.m.(processing := s.m.processing - {s.calls[c].thread}), calls := s.calls - {c})
  }

  ghost predicate Run(s: Sys, es: seq<Event>, t: Sys)
    decreases |es|
  {
    if es == [] then s == t
    else Enabled(s, es[0]) && Run(Apply(s, es[0]), es[1..], t)
  }

  // ----- the calls -----

  type Calls = map<nat, Call>

  /** No thread has two calls, and the marked threads are those that have one. */
  ghost predicate OneCallPerThread(calls: Calls, next: nat, processing: set<string>) {
    && (forall c :: c in calls ==> c < next && calls[c].thread in processing)
    && (forall t :: t in processing ==> exists c :: c in calls && calls[c].thread == t)
    && (forall c, d :: c in calls && d in calls && calls[c].thread == calls[d].thread ==> c == d)
  }

  predicate Sends(calls: Calls, c: nat, t: string) {
    c in calls && calls[c].thread == t && calls[c].phase.Sending?
  }

  /** The message of thread `t` that is being sent. */
  ghost function InFlight(calls: Calls, t: string): seq<string> {
    if exists c :: Sends(calls, c, t) then
      var c :| Sends(calls, c, t);
      [calls[c].item.id]
    else []
  }

  ghost predicate Alone(calls: Calls) {
    forall c, d :: c in calls && d in calls && calls[c].thread == calls[d].thread ==> c == d
  }

  lemma InFlightIs(calls: Calls, c: nat, t: string)
    requires Alone(calls) && Sends(calls, c, t)
    ensures InFlight(calls, t) == [calls[c].item.id]
  {
  }

  lemma CallAdded(calls: Calls, next: nat, processing: set<string>, call: Call)
    requires OneCallPerThread(calls, next, processing) && call.thread !in processing
    ensures OneCallPerThread(calls[next := call], next + 1, processing + {call.thread})
  {
    var after, marked := calls[next := call], processing + {call.thread};
    forall t | t in marked ensures exists c :: c in after && after[c].thread == t {
      if t in processing {
        var c :| c in calls && calls[c].thread == t;
        assert c in after && after[c].thread == t;
      } else {
        assert after[next].thread == t;
      }
    }
  }

  /** Starting a call on a thread without one. */
  lemma CallStarts(calls: Calls, next: nat, processing: set<string>, call: Call)
    requires OneCallPerThread(calls, next, processing)
    requires call.thread !in processing && call.phase.Sending?
    ensures var after := calls[next := call];
            && OneCallPerThread(after, next + 1, processing + {call.thread})
            && InFlight(calls, call.thread) == [] && InFlight(after, call.thread) == [call.item.id]
            && forall t :: t != call.thread ==> InFlight(after, t) == InFlight(calls, t)
  {
    var after := calls[next := call];
    CallAdded(calls, next, processing, call);
    assert next !in calls && Alone(calls) && Alone(after);
    assert forall c :: c in calls ==> calls[c].thread != call.thread;
    hide OneCallPerThread, Alone;
    InFlightIs(after, next, call.thread);
    forall t | t != call.thread ensures InFlight(after, t) == InFlight(calls, t) {
      SameFlight(calls, after, t);
    }
  }

  lemma SameFlight(calls: Calls, after: Calls, t: string)
    requires Alone(calls) && Alone(after)
    requires forall c :: Sends(after, c, t) ==> Sends(calls, c, t)
    requires forall c :: Sends(calls, c, t) ==> Sends(after, c, t) && after[c].item == calls[c].item
    ensures InFlight(after, t) == InFlight(calls, t)
  {
    if c :| Sends(calls, c, t) {
      InFlightIs(calls, c, t);
      InFlightIs(after, c, t);
    }
  }

  /** The send of call `c` ends; the call stays until its last handler. */
  lemma CallSettles(calls: Calls, next: nat, processing: set<string>, c: nat)
    requires OneCallPerThread(calls, next, processing)
    requires c in calls && calls[c].phase.Sending?
    ensures var after := calls[c := calls[c].(phase := Settled)];
            && OneCallPerThread(after, next, processing)
            && InFlight(calls, calls[c].thread) == [calls[c].item.id] && InFlight(after, calls[c].thread) == []
            && forall t :: t != calls[c].thread ==> InFlight(after, t) == InFlight(calls, t)
  {
    var after := calls[c := calls[c].(phase := Settled)];
    forall t | t in processing ensures exists d :: d in after && after[d].thread == t {
      var d :| d in calls && calls[d].thread == t;
      assert d in after && after[d].thread == t;
    }
    InFlightIs(calls, c, calls[c].thread);
    forall t | t != calls[c].thread ensures InFlight(after, t) == InFlight(calls, t) {
      SameFlight(calls, after, t);
    }
  }

  lemma CallEnds(calls: Calls, next: nat, processing: set<string>, c: nat)
    requires OneCallPerThread(calls, next, processing)
    requires c in calls && calls[c].phase.Settled?
    ensures OneCallPerThread(calls - {c}, next, processing - {calls[c].thread})
    ensures forall t :: InFlight(calls - {c}, t) == InFlight(calls, t)
  {
    var after := calls - {c};
    forall t | t in processing - {calls[c].thread} ensures exists d :: d in after && after[d].thread == t {
      var d :| d in calls && calls[d].thread == t;
      assert d in after && after[d].thread == t;
    }
    forall t ensures InFlight(after, t) == InFlight(calls, t) {
      SameFlight(calls, after, t);
    }
  }

  // ----- the ledger of one thread -----

  ghost predicate Distinct(a: seq<string>) {
    forall i, j :: 0 <= i < j < |a| ==> a[i] != a[j]
  }

  /** Each message is delivered, in flight, queued or removed, and without drags the ones that were
      not removed go out in the order they came in. */
  ghost predicate Ledger(h: History, flight: seq<string>, queued: seq<string>) {
    && Distinct(h.enqueued)
    && multiset(h.enqueued) == multiset(h.delivered) + multiset(flight) + multiset(queued) + multiset(h.removed)
    && (!h.dragged ==> Keep(h.enqueued, h.removed) == h.delivered + flight + queued)
  }

  lemma {:induction false} KeepConcat(a: seq<string>, b: seq<string>, gone: seq<string>)
    ensures Keep(a + b, gone) == Keep(a, gone) + Keep(b, gone)
  {
    if a == [] {
      assert a + b == b;
    } else {
      assert (a + b)[1..] == a[1..] + b;
      KeepConcat(a[1..], b, gone);
    }
  }

  lemma {:induction false} KeepTwice(a: seq<string>, gone: seq<string>, more: seq<string>)
    ensures Keep(a, gone + more) == Keep(Keep(a, gone), more)
  {
    if a != [] {
      KeepTwice(a[1..], gone, more);
      if a[0] !in gone {
        assert ([a[0]] + Keep(a[1..], gone))[1..] == Keep(a[1..], gone);
      }
    }
  }

  lemma {:induction false} KeepApart(a: seq<string>, gone: seq<string>)
    requires forall k :: 0 <= k < |a| ==> a[k] !in gone
    ensures Keep(a, gone) == a
  {
    if a != [] {
      KeepApart(a[1..], gone);
    }
  }

  lemma {:induction false} DistinctCounts(a: seq<string>, x: string)
    requires Distinct(a)
    ensures multiset(a)[x] <= 1
  {
    if a != [] {
      DistinctCounts(a[1..], x);
      assert a == [a[0]] + a[1..];
    }
  }

  lemma NeverSeen(h: History, flight: seq<string>, queued: seq<string>, x: string)
    requires Ledger(h, flight, queued) && x !in h.enqueued
    ensures x !in h.removed && x !in queued
  {
    assert x !in multiset(h.enqueued);
    assert x !in multiset(h.removed) && x !in multiset(queued);
  }

  lemma Longer(a: seq<string>, x: string)
    ensures multiset(a + [x]) == multiset(a) + multiset{x}
  {
  }

  lemma LedgerPost(h: History, flight: seq<string>, queued: seq<string>, x: string)
    requires Ledger(h, flight, queued) && x !in h.enqueued
    ensures Ledger(h.(enqueued := h.enqueued + [x]), flight, queued + [x])
  {
    Longer(h.enqueued, x);
    Longer(queued, x);
    if !h.dragged {
      KeepConcat(h.enqueued, [x], h.removed);
      NeverSeen(h, flight, queued, x);
      assert Keep([x], h.removed) == [x];
      assert h.delivered + flight + (queued + [x]) == h.delivered + flight + queued + [x];
    }
  }

  lemma LedgerRemove(h: History, flight: seq<string>, queued: seq<string>, gone: seq<string>)
    requires Ledger(h, flight, queued)
    requires multiset(queued) == multiset(Keep(queued, gone)) + multiset(gone)
    ensures Ledger(Lost(h, gone), flight, Keep(queued, gone))
  {
    if !h.dragged {
      var out := h.delivered + flight;
      KeepTwice(h.enqueued, h.removed, gone);
      KeepConcat(out, queued, gone);
      forall k | 0 <= k < |out| ensures out[k] !in gone {
        var y := out[k];
        DistinctCounts(h.enqueued, y);
        assert multiset(out) == multiset(h.delivered) + multiset(flight);
        assert y in multiset(out);
        assert multiset(queued)[y] == 0;
        assert y !in multiset(gone);
      }
      KeepApart(out, gone);
    }
  }

  lemma LedgerMove(h: History, flight: seq<string>, queued: seq<string>, next: seq<string>)
    requires Ledger(h, flight, queued) && multiset(next) == multiset(queued)
    ensures Ledger(h.(dragged := true), flight, next)
  {
  }

  lemma LedgerSend(h: History, x: string, rest: seq<string>)
    ensures Ledger(h, [], [x] + rest) <==> Ledger(h, [x], rest)
  {
    assert h.delivered + [] + ([x] + rest) == h.delivered + [x] + rest;
    assert multiset([x] + rest) == multiset([x]) + multiset(rest);
  }

  lemma LedgerDeliver(h: History, x: string, queued: seq<string>)
    requires Ledger(h, [x], queued)
    ensures Ledger(h.(delivered := h.delivered + [x]), [], queued)
  {
    assert (h.delivered + [x]) + [] + queued == h.delivered + [x] + queued;
  }

  // ----- from items to ids -----

  lemma {:induction false} IdsWithout(items: seq<Item>, id: string)
    ensures Ids(Without(items, id)) == Keep(Ids(items), [id])
  {
    if items != [] {
      IdsWithout(items[1..], id);
      assert Ids(items)[1..] == Ids(items[1..]);
      assert Ids([items[0]] + Without(items[1..], id)) == [items[0].id] + Ids(Without(items[1..], id));
    }
  }

  lemma {:induction false} KeepCounts(a: seq<string>, x: string)
    ensures multiset(a) == multiset(Keep(a, [x])) + multiset{}[x := multiset(a)[x]]
  {
    if a != [] {
      KeepCounts(a[1..], x);
      assert a == [a[0]] + a[1..];
    }
  }

  lemma {:induction false} KeepSelf(a: seq<string>, gone: seq<string>)
    requires forall k :: 0 <= k < |a| ==> a[k] in gone
    ensures Keep(a, gone) == []
  {
    if a != [] {
      KeepSelf(a[1..], gone);
    }
  }

  lemma IdsPermute(a: seq<Item>, b: seq<Item>)
    requires multiset(a) == multiset(b)
    ensures multiset(Ids(a)) == multiset(Ids(b))
  {
    var f := (item: Item) => item.id;
    MapPermutes(a, b, f);
    assert Map(a, f) == Ids(a) && Map(b, f) == Ids(b);
  }

  lemma {:induction false} WithoutLength(items: seq<Item>, id: string)
    ensures |Without(items, id)| <= |items|
    ensures |Without(items, id)| == |items| ==> Without(items, id) == items
  {
    if items != [] {
      WithoutLength(items[1..], id);
    }
  }

  // ----- what each update does to the ids queued for the threads -----

  ghost predicate SameBut(q: Queues, r: Queues, t: string) {
    forall u :: u != t ==> IdsOf(r, u) == IdsOf(q, u)
  }

  lemma EnqueueIds(q: Queues, t: string, item: Item)
    ensures SameBut(q, Enqueue(q, t, item), t) && IdsOf(Enqueue(q, t, item), t) == IdsOf(q, t) + [item.id]
  {
  }

  lemma RequeueIds(q: Queues, t: string, item: Item)
    ensures SameBut(q, Requeue(q, t, item), t) && IdsOf(Requeue(q, t, item), t) == [item.id] + IdsOf(q, t)
  {
  }

  lemma DequeueIds(q: Queues, t: string, id: string)
    ensures SameBut(q, Dequeue(q, t, id), t) && IdsOf(Dequeue(q, t, id), t) == Keep(IdsOf(q, t), [id])
  {
    IdsWithout(QueueOf(q, t), id);
    WithoutLength(QueueOf(q, t), id);
    assert QueueOf(Dequeue(q, t, id), t) == Without(QueueOf(q, t), id);
  }

  lemma EditIds(q: Queues, t: string, id: string, content: string, fullContent: string)
    ensures SameBut(q, Edit(q, t, id, content, fullContent), t)
    ensures IdsOf(Edit(q, t, id, content, fullContent), t) == IdsOf(q, t)
  {
  }

  lemma ReorderIds(q: Queues, t: string, source: string, target: Option<string>, after: bool)
    ensures SameBut(q, Reorder(q, t, source, target, after), t)
    ensures multiset(IdsOf(Reorder(q, t, source, target, after), t)) == multiset(IdsOf(q, t))
  {
    hide Moved;
    var items := QueueOf(q, t);
    if Moved(items, source, target, after).Some? {
      MovedPermutes(items, source, target, after);
      IdsPermute(Moved(items, source, target, after).value, items);
    }
  }

  function Tail(a: seq<string>): seq<string> {
    if |a| <= 1 then [] else a[1..]
  }

  lemma DrainIds(m: Manager, rendered: Queues, t: string, running: map<string, bool>)
    ensures var (n, started) := DrainOne(m, rendered, t, running);
            && SameBut(m.queues, n.queues, t)
            && (started.Some? ==>
                  && t !in m.processing && n.processing == m.processing + {t}
                  && started.value.thread == t && IdsOf(n.queues, t) == Tail(IdsOf(m.queues, t))
                  && IdsOf(rendered, t) != [] && started.value.item.id == IdsOf(rendered, t)[0])
            && (started.None? ==>
                  && n.processing == m.processing
                  && (IdsOf(n.queues, t) == [] || IdsOf(n.queues, t) == IdsOf(m.queues, t)))
  {
  }

  lemma LedgerRemoveOne(h: History, flight: seq<string>, queued: seq<string>, x: string)
    requires Ledger(h, flight, queued)
    ensures Ledger(Lost(h, Hit(queued, x)), flight, Keep(queued, [x]))
  {
    if x in queued {
      DistinctCounts(h.enqueued, x);
      KeepCounts(queued, x);
      assert multiset(queued)[x] == 1;
      assert multiset{}[x := 1] == multiset([x]);
      LedgerRemove(h, flight, queued, [x]);
    } else {
      KeepApart(queued, [x]);
      assert h.removed + [] == h.removed;
    }
  }

  lemma LedgerRemoveAll(h: History, flight: seq<string>, queued: seq<string>)
    requires Ledger(h, flight, queued)
    ensures Ledger(Lost(h, queued), flight, [])
  {
    KeepSelf(queued, queued);
    LedgerRemove(h, flight, queued, queued);
  }

  // ----- one event -----

  ghost predicate Good(s: Sys, t: string) {
    && Ledger(Past(s, t), InFlight(s.calls, t), Queued(s, t))
    && forall x :: x in Past(s, t).enqueued ==> x in s.owner && s.owner[x] == t
  }

  ghost predicate Inv(s: Sys) {
    && OneCallPerThread(s.calls, s.next, s.m.processing)
    && forall t :: Good(s, t)
  }

  lemma SameQueues(q: Queues, t: string)
    ensures SameBut(q, q, t)
  {
  }

  /** An event that touches one thread only has to keep that one. */
  lemma OneThread(s: Sys, r: Sys, t: string)
    requires Inv(s) && Good(r, t) && OneCallPerThread(r.calls, r.next, r.m.processing)
    requires SameBut(s.m.queues, r.m.queues, t)
    requires forall u :: u != t ==> Past(r, u) == Past(s, u) && InFlight(r.calls, u) == InFlight(s.calls, u)
    requires forall x :: x in s.owner ==> x in r.owner && r.owner[x] == s.owner[x]
    ensures Inv(r)
  {
    hide Ledger, InFlight, OneCallPerThread, IdsOf;
    forall u ensures Good(r, u) {
      assert Good(s, u);
    }
  }

  lemma PostKeeps(s: Sys, e: Event)
    requires Inv(s) && Enabled(s, e) && e.Post?
    ensures Inv(Act(s, e))
  {
    hide Ledger, InFlight, OneCallPerThread, IdsOf, Enqueue, SameBut;
    var r, t := Act(s, e), e.thread;
    assert Good(s, t);
    EnqueueIds(s.m.queues, t, e.item);
    LedgerPost(Past(s, t), InFlight(s.calls, t), Queued(s, t), e.item.id);
    OneThread(s, r, t);
  }

  lemma RemoveKeeps(s: Sys, e: Event)
    requires Inv(s) && Enabled(s, e) && e.Remove?
    ensures Inv(Act(s, e))
  {
    hide Ledger, InFlight, OneCallPerThread, IdsOf, Dequeue, SameBut, Keep, Hit;
    var r, t := Act(s, e), e.thread;
    assert Good(s, t);
    DequeueIds(s.m.queues, t, e.id);
    LedgerRemoveOne(Past(s, t), InFlight(s.calls, t), Queued(s, t), e.id);
    OneThread(s, r, t);
  }

  lemma ChangeKeeps(s: Sys, e: Event)
    requires Inv(s) && Enabled(s, e) && e.Change?
    ensures Inv(Act(s, e))
  {
    hide Ledger, InFlight, OneCallPerThread, IdsOf, Edit, SameBut;
    var r, t := Act(s, e), e.thread;
    assert Good(s, t);
    EditIds(s.m.queues, t, e.id, e.content, e.fullContent);
    OneThread(s, r, t);
  }

  lemma MoveKeeps(s: Sys, e: Event)
    requires Inv(s) && Enabled(s, e) && e.Move?
    ensures Inv(Act(s, e))
  {
    hide Ledger, InFlight, OneCallPerThread, IdsOf, Reorder, SameBut;
    var r, t := Act(s, e), e.thread;
    assert Good(s, t);
    ReorderIds(s.m.queues, t, e.source, e.target, e.after);
    LedgerMove(Past(s, t), InFlight(s.calls, t), Queued(s, t), Queued(r, t));
    OneThread(s, r, t);
  }

  /** A drain that sends, sends the message that is first in the latest queue as well. */
  predicate HeadFresh(s: Sys, e: Event)
    requires Enabled(s, e)
  {
    e.Drain? && Turn(s, e).1.Some? ==>
      Queued(s, e.thread) != [] && Queued(s, e.thread)[0] == Turn(s, e).1.value.item.id
  }

  lemma DrainSends(s: Sys, e: Event)
    requires Inv(s) && Enabled(s, e) && e.Drain? && Turn(s, e).1.Some? && HeadFresh(s, e)
    ensures Inv(Act(s, e))
  {
    hide Ledger, InFlight, OneCallPerThread, IdsOf, DrainOne, SameBut;
    var r, t := Act(s, e), e.thread;
    assert Good(s, t);
    DrainIds(s.m, s.seen[e.render], t, e.running);
    var item := Turn(s, e).1.value.item;
    CallStarts(s.calls, s.next, s.m.processing, Call(t, item, Sending));
    assert Queued(s, t) == [item.id] + Queued(r, t);
    LedgerSend(Past(s, t), item.id, Queued(r, t));
    OneThread(s, r, t);
  }

  lemma DrainForgets(s: Sys, e: Event)
    requires Inv(s) && Enabled(s, e) && e.Drain? && Turn(s, e).1.None?
    requires Queued(Act(s, e), e.thread) == []
    ensures Inv(Act(s, e))
  {
    hide Ledger, InFlight, OneCallPerThread, IdsOf, DrainOne, SameBut, Keep, Lost;
    var r, t := Act(s, e), e.thread;
    assert Good(s, t);
    DrainIds(s.m, s.seen[e.render], t, e.running);
    LedgerRemoveAll(Past(s, t), InFlight(s.calls, t), Queued(s, t));
    LostEnqueued(Past(s, t), Queued(s, t));
    OneThread(s, r, t);
  }

  lemma LostEnqueued(h: History, ids: seq<string>)
    ensures Lost(h, ids).enqueued == h.enqueued
  {
  }

  lemma DrainWaits(s: Sys, e: Event)
    requires Inv(s) && Enabled(s, e) && e.Drain? && Turn(s, e).1.None?
    requires Queued(Act(s, e), e.thread) != []
    ensures Inv(Act(s, e))
  {
    hide Ledger, InFlight, OneCallPerThread, IdsOf, DrainOne, SameBut, Keep, Lost;
    var r, t := Act(s, e), e.thread;
    assert Good(s, t);
    DrainIds(s.m, s.seen[e.render], t, e.running);
    OneThread(s, r, t);
  }

  lemma SucceedKeeps(s: Sys, e: Event)
    requires Inv(s) && Enabled(s, e) && e.Succeed?
    ensures Inv(Act(s, e))
  {
    hide Ledger, InFlight, OneCallPerThread, IdsOf, SameBut;
    var r, t, item := Act(s, e), s.calls[e.call].thread, s.calls[e.call].item;
    assert Good(s, t);
    CallSettles(s.calls, s.next, s.m.processing, e.call);
    LedgerDeliver(Past(s, t), item.id, Queued(s, t));
    SameQueues(s.m.queues, t);
    OneThread(s, r, t);
  }

  lemma FailKeeps(s: Sys, e: Event)
    requires Inv(s) && Enabled(s, e) && e.Fail?
    ensures Inv(Act(s, e))
  {
    hide Ledger, InFlight, OneCallPerThread, IdsOf, Requeue, SameBut;
    var r, t, item := Act(s, e), s.calls[e.call].thread, s.calls[e.call].item;
    assert Good(s, t);
    CallSettles(s.calls, s.next, s.m.processing, e.call);
    RequeueIds(s.m.queues, t, item);
    LedgerSend(Past(s, t), item.id, Queued(s, t));
    OneThread(s, r, t);
  }

  lemma FinishKeeps(s: Sys, e: Event)
    requires Inv(s) && Enabled(s, e) && e.Finish?
    ensures Inv(Act(s, e))
  {
    hide Ledger, InFlight, OneCallPerThread, IdsOf, SameBut;
    var r, t := Act(s, e), s.calls[e.call].thread;
    assert Good(s, t);
    CallEnds(s.calls, s.next, s.m.processing, e.call);
    SameQueues(s.m.queues, t);
    OneThread(s, r, t);
  }

  lemma ActKeeps(s: Sys, e: Event)
    requires Inv(s) && Enabled(s, e) && HeadFresh(s, e)
    ensures Inv(Act(s, e))
  {
    hide Inv, Enabled, Act, HeadFresh, Turn;
    match e
    case Post(_, _) => PostKeeps(s, e);
    case Remove(_, _) => RemoveKeeps(s, e);
    case Change(_, _, _, _) => ChangeKeeps(s, e);
    case Move(_, _, _, _) => MoveKeeps(s, e);
    case Drain(t, _, _) =>
      if Turn(s, e).1.Some? {
        DrainSends(s, e);
      } else if Queued(Act(s, e), t) == [] {
        DrainForgets(s, e);
      } else {
        DrainWaits(s, e);
      }
    case Succeed(_) => SucceedKeeps(s, e);
    case Fail(_) => FailKeeps(s, e);
    case Finish(_) => FinishKeeps(s, e);
  }

  lemma ApplyKeeps(s: Sys, e: Event)
    requires Inv(s) && Enabled(s, e) && HeadFresh(s, e)
    ensures Inv(Apply(s, e))
  {
    hide Act, Enabled, HeadFresh, Inv;
    ActKeeps(s, e);
    SeenAside(Act(s, e), Apply(s, e));
  }

  lemma SeenAside(r: Sys, after: Sys)
    requires Inv(r) && after == r.(seen := after.seen)
    ensures Inv(after)
  {
    hide Ledger, OneCallPerThread, InFlight, IdsOf;
    forall t ensures Good(after, t) {
      assert Good(r, t);
    }
  }

  lemma StartHolds()
    ensures Inv(Start)
  {
    forall t ensures Good(Start, t) {
      assert Queued(Start, t) == [];
    }
  }

  // ----- messages are kept as long as drains are fresh -----

  function Count(a: seq<string>, x: string): nat {
    multiset(a)[x]
  }

  /** Message `x` of thread `t` is in one place, once, if it was enqueued there, and in none if not. */
  ghost predicate PlacedOnce(s: Sys, t: string, x: string) {
    Count(Queued(s, t), x) + Count(InFlight(s.calls, t), x) + Count(Past(s, t).delivered, x)
    + Count(Past(s, t).removed, x) == if x in Past(s, t).enqueued then 1 else 0
  }

  ghost predicate Whole(s: Sys) {
    forall t, x :: PlacedOnce(s, t, x)
  }

  lemma InvIsWhole(s: Sys)
    requires Inv(s)
    ensures Whole(s)
  {
    forall t, x ensures PlacedOnce(s, t, x) {
      assert Good(s, t);
      DistinctCounts(Past(s, t).enqueued, x);
      assert x in Past(s, t).enqueued <==> x in multiset(Past(s, t).enqueued);
    }
  }

  /** A drain that sends another message than it drops loses one or doubles one at once. */
  lemma StaleBreaks(s: Sys, e: Event)
    requires Inv(s) && Enabled(s, e) && !HeadFresh(s, e)
    ensures !Whole(Apply(s, e))
  {
    hide Ledger, OneCallPerThread, IdsOf, DrainOne, SameBut;
    var r, t := Apply(s, e), e.thread;
    var x := Turn(s, e).1.value.item.id;
    InvIsWhole(s);
    DrainIds(s.m, s.seen[e.render], t, e.running);
    CallStarts(s.calls, s.next, s.m.processing, Call(t, Turn(s, e).1.value.item, Sending));
    hide InFlight;
    TailCount(Queued(s, t), x);
    assert PlacedOnce(s, t, x);
    assert !PlacedOnce(r, t, x);
  }

  lemma TailCount(a: seq<string>, x: string)
    requires a == [] || a[0] != x
    ensures Count(Tail(a), x) == Count(a, x)
  {
    if a != [] {
      assert a == [a[0]] + a[1..];
    }
  }

  /** Every state of a run keeps every message in one place. */
  ghost predicate StaysWhole(s: Sys, es: seq<Event>)
    decreases |es|
  {
    Whole(s) && (es != [] && Enabled(s, es[0]) ==> StaysWhole(Apply(s, es[0]), es[1..]))
  }

  /** Every drain of a run is fresh when it happens. */
  predicate HeadsFresh(s: Sys, es: seq<Event>)
    decreases |es|
  {
    es != [] && Enabled(s, es[0]) ==> HeadFresh(s, es[0]) && HeadsFresh(Apply(s, es[0]), es[1..])
  }

  lemma {:induction false} WholeWhileFresh(s: Sys, es: seq<Event>)
    requires Inv(s)
    ensures StaysWhole(s, es) <==> HeadsFresh(s, es)
    decreases |es|
  {
    hide Inv, Whole, Enabled, Apply, HeadFresh;
    InvIsWhole(s);
    if es != [] && Enabled(s, es[0]) {
      if HeadFresh(s, es[0]) {
        ApplyKeeps(s, es[0]);
        WholeWhileFresh(Apply(s, es[0]), es[1..]);
      } else {
        StaleBreaks(s, es[0]);
      }
    }
  }

  /** A run keeps every message in exactly one place all along if and only if each of its drains sends
      the message that is first in the latest queue. */
  lemma WholeExactlyWhenFresh(es: seq<Event>)
    ensures StaysWhole(Start, es) <==> HeadsFresh(Start, es)
  {
    StartHolds();
    WholeWhileFresh(Start, es);
  }

  lemma {:induction false} RunKeeps(s: Sys, es: seq<Event>, r: Sys)
    requires Inv(s) && Run(s, es, r) && HeadsFresh(s, es)
    ensures Inv(r)
    decreases |es|
  {
    hide Inv, Enabled, Apply, HeadFresh;
    if es != [] {
      ApplyKeeps(s, es[0]);
      RunKeeps(Apply(s, es[0]), es[1..], r);
    }
  }

  /** After a run with fresh drains an enqueued message is in exactly one place, once, and a message
      that was never enqueued for the thread is in none. */
  lemma ExactlyOnePlace(es: seq<Event>, s: Sys, t: string, x: string)
    requires Run(Start, es, s) && HeadsFresh(Start, es)
    ensures Count(Queued(s, t), x) + Count(InFlight(s.calls, t), x) + Count(Past(s, t).delivered, x)
            + Count(Past(s, t).removed, x) == if x in Past(s, t).enqueued then 1 else 0
  {
    StartHolds();
    RunKeeps(Start, es, s);
    InvIsWhole(s);
    assert PlacedOnce(s, t, x);
  }

  /** Without a drag, and with fresh drains, what was delivered, then what is being sent, then what is
      queued are the messages enqueued for the thread and not removed, in the order they came in. */
  lemma DeliveredInOrder(es: seq<Event>, s: Sys, t: string)
    requires Run(Start, es, s) && HeadsFresh(Start, es) && !Past(s, t).dragged
    ensures Past(s, t).delivered + InFlight(s.calls, t) + Queued(s, t) == Keep(Past(s, t).enqueued, Past(s, t).removed)
  {
    StartHolds();
    RunKeeps(Start, es, s);
    assert Good(s, t);
  }
}
