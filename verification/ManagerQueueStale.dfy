/** What holds in every run of the manager queues, also when drains come from old renders, and a run
    that such a drain spoils. */
module ManagerQueueStale {
  import opened Prelude
  import opened Permutations
  import opened ManagerQueue
  import opened ManagerQueueRuns

  // ----- calls and threads -----

  /** Whatever is queued, was rendered, is being sent or was delivered for a thread was enqueued there. */
  ghost predicate Own(s: Sys, t: string) {
    && (forall x :: x in Past(s, t).enqueued ==> x in s.owner && s.owner[x] == t)
    && (forall x :: x in Queued(s, t) || x in Past(s, t).delivered ==> x in Past(s, t).enqueued)
    && (forall c :: c in s.calls && s.calls[c].thread == t ==> s.calls[c].item.id in Past(s, t).enqueued)
    && forall k, x :: 0 <= k < |s.seen| && x in IdsOf(s.seen[k], t) ==> x in Past(s, t).enqueued
  }

  ghost predicate Base(s: Sys) {
    OneCallPerThread(s.calls, s.next, s.m.processing) && forall t :: Own(s, t)
  }

  lemma CallsKept(s: Sys, e: Event)
    requires OneCallPerThread(s.calls, s.next, s.m.processing) && Enabled(s, e)
    ensures var r := Act(s, e); OneCallPerThread(r.calls, r.next, r.m.processing)
  {
    hide OneCallPerThread, DrainOne, SameBut, Enqueue, Dequeue, Edit, Reorder, Requeue;
    match e
    case Drain(t, running, render) =>
      DrainIds(s.m, s.seen[render], t, running);
      if Turn(s, e).1.Some? {
        CallStarts(s.calls, s.next, s.m.processing, Call(t, Turn(s, e).1.value.item, Sending));
      }
    case Succeed(c) => CallSettles(s.calls, s.next, s.m.processing, c);
    case Fail(c) => CallSettles(s.calls, s.next, s.m.processing, c);
    case Finish(c) => CallEnds(s.calls, s.next, s.m.processing, c);
    case _ =>
  }

  lemma {:induction false} KeepMembers(a: seq<string>, gone: seq<string>)
    ensures forall x :: x in Keep(a, gone) ==> x in a
  {
    if a != [] {
      KeepMembers(a[1..], gone);
    }
  }

  lemma TailMembers(a: seq<string>)
    ensures forall x :: x in Tail(a) ==> x in a
  {
  }

  lemma SameIds(a: seq<string>, b: seq<string>)
    requires multiset(a) == multiset(b)
    ensures forall x :: x in a <==> x in b
  {
    SameMembers(a, b);
  }

  /** What an event can bring into the queue of a thread. */
  lemma QueuedFrom(s: Sys, e: Event, t: string, x: string)
    requires Enabled(s, e) && x in Queued(Act(s, e), t)
    ensures x in Queued(s, t)
            || (e.Post? && e.thread == t && e.item.id == x)
            || (e.Fail? && s.calls[e.call].thread == t && s.calls[e.call].item.id == x)
  {
    hide IdsOf, DrainOne, Enqueue, Dequeue, Edit, Reorder, Requeue, Keep;
    var q := s.m.queues;
    match e
    case Post(u, item) => EnqueueIds(q, u, item);
    case Remove(u, id) =>
      DequeueIds(q, u, id);
      KeepMembers(IdsOf(q, u), [id]);
    case Change(u, id, content, fullContent) => EditIds(q, u, id, content, fullContent);
    case Move(u, source, target, after) =>
      ReorderIds(q, u, source, target, after);
      SameIds(IdsOf(Reorder(q, u, source, target, after), u), IdsOf(q, u));
    case Drain(u, running, render) =>
      DrainIds(s.m, s.seen[render], u, running);
      TailMembers(IdsOf(q, u));
      assert Act(s, e).m == Turn(s, e).0;
      assert t != u ==> IdsOf(Turn(s, e).0.queues, t) == IdsOf(q, t);
    case Fail(c) => RequeueIds(q, s.calls[c].thread, s.calls[c].item);
    case _ =>
  }

  lemma EnqueuedGrows(s: Sys, e: Event, t: string)
    requires Enabled(s, e)
    ensures forall x :: x in Past(s, t).enqueued ==> x in Past(Act(s, e), t).enqueued
    ensures e.Post? && e.thread == t ==> e.item.id in Past(Act(s, e), t).enqueued
    ensures forall x :: x in Past(Act(s, e), t).enqueued ==> x in Past(s, t).enqueued || (e.Post? && e.thread == t && x == e.item.id)
    ensures forall x :: x in Past(Act(s, e), t).delivered ==>
              x in Past(s, t).delivered || (e.Succeed? && s.calls[e.call].thread == t && x == s.calls[e.call].item.id)
  {
    hide DrainOne, Enqueue, Dequeue, Edit, Reorder, Requeue, IdsOf, Hit;
  }

  /** A call carries a message it carried before, or the head of the queue its drain was rendered with. */
  lemma CallsFrom(s: Sys, e: Event, c: nat)
    requires Enabled(s, e) && c in Act(s, e).calls
    ensures var call := Act(s, e).calls[c];
            || (c in s.calls && s.calls[c].thread == call.thread && s.calls[c].item == call.item)
            || (e.Drain? && call.thread == e.thread && call.item.id in IdsOf(s.seen[e.render], e.thread))
  {
    hide IdsOf, DrainOne, Enqueue, Dequeue, Edit, Reorder, Requeue;
    if e.Drain? {
      DrainIds(s.m, s.seen[e.render], e.thread, e.running);
    }
  }

  lemma OwnersKept(s: Sys, e: Event)
    requires Enabled(s, e)
    ensures Act(s, e).seen == s.seen
    ensures forall x :: x in s.owner ==> x in Act(s, e).owner && Act(s, e).owner[x] == s.owner[x]
    ensures e.Post? ==> e.item.id in Act(s, e).owner && Act(s, e).owner[e.item.id] == e.thread
  {
    hide DrainOne, Enqueue, Dequeue, Edit, Reorder, Requeue, IdsOf, Hit, Lost;
  }

  lemma OwnKept(s: Sys, e: Event, t: string)
    requires Own(s, t) && Enabled(s, e)
    ensures Own(Apply(s, e), t)
  {
    hide Act, IdsOf, Past;
    var r, after := Act(s, e), Apply(s, e);
    OwnersKept(s, e);
    EnqueuedGrows(s, e, t);
    PastAside(r, after, t);
    forall x | x in Queued(r, t) ensures x in Past(r, t).enqueued {
      QueuedFrom(s, e, t, x);
    }
    forall c | c in r.calls && r.calls[c].thread == t ensures r.calls[c].item.id in Past(r, t).enqueued {
      CallsFrom(s, e, c);
    }
    forall k, x | 0 <= k < |after.seen| && x in IdsOf(after.seen[k], t) ensures x in Past(after, t).enqueued {
      if k == |s.seen| {
        assert after.seen[k] == r.m.queues;
        assert x in Queued(r, t);
      }
    }
  }

  lemma PastAside(r: Sys, after: Sys, t: string)
    requires r.past == after.past
    ensures Past(r, t) == Past(after, t)
  {
  }

  lemma BaseKept(s: Sys, e: Event)
    requires Base(s) && Enabled(s, e)
    ensures Base(Apply(s, e))
  {
    CallsKept(s, e);
    hide Act, OneCallPerThread, Own, Enabled;
    forall t ensures Own(Apply(s, e), t) {
      OwnKept(s, e, t);
    }
  }

  lemma {:induction false} BaseRun(s: Sys, es: seq<Event>, r: Sys)
    requires Base(s) && Run(s, es, r)
    ensures Base(r)
    decreases |es|
  {
    hide Base, Enabled, Apply;
    if es != [] {
      BaseKept(s, es[0]);
      BaseRun(Apply(s, es[0]), es[1..], r);
    }
  }

  lemma BaseStart()
    ensures Base(Start)
  {
    assert forall t :: IdsOf(map[], t) == [];
  }

  /** In any run no thread has two calls, and a thread is marked exactly while it has one. */
  lemma OneAtATime(es: seq<Event>, s: Sys, t: string)
    requires Run(Start, es, s)
    ensures t in s.m.processing <==> exists c :: c in s.calls && s.calls[c].thread == t
    ensures forall c, d :: c in s.calls && d in s.calls && s.calls[c].thread == s.calls[d].thread ==> c == d
    ensures |InFlight(s.calls, t)| <= 1
  {
    BaseStart();
    BaseRun(Start, es, s);
  }

  /** In any run no message crosses from one thread to another. */
  lemma ThreadsApart(es: seq<Event>, s: Sys, t: string, u: string, x: string)
    requires Run(Start, es, s) && t != u && x in Past(s, t).enqueued
    ensures x !in Queued(s, u) && x !in InFlight(s.calls, u) && x !in Past(s, u).delivered
  {
    BaseStart();
    BaseRun(Start, es, s);
    assert Own(s, t) && Own(s, u);
  }

  // ----- a run with one stale drain -----

  const A := Item("a", "", "", "")
  const B := Item("b", "", "", "")
  const T := "t"
  const IDLE := map["t" := false]

  /** Post A and B; the component renders; B is dragged before A; the effect of that render drains. */
  const STALE: seq<Event> :=
    [Post(T, A), Post(T, B), Move(T, "b", Some("a"), false), Drain(T, IDLE, 2), Succeed(0), Finish(0),
     Drain(T, IDLE, 4), Succeed(1), Finish(1)]

  lemma {:induction false} RunOn(s: Sys, es: seq<Event>, r: Sys, e: Event)
    requires Run(s, es, r) && Enabled(r, e)
    ensures Run(s, es + [e], Apply(r, e))
    ensures HeadsFresh(s, es + [e]) ==> HeadFresh(r, e)
    decreases |es|
  {
    hide Enabled, Apply, HeadFresh;
    if es == [] {
      assert es + [e] == [e] && [e][1..] == [];
    } else {
      assert (es + [e])[1..] == es[1..] + [e];
      RunOn(Apply(s, es[0]), es[1..], r, e);
    }
  }

  // ----- states with one thread and at most one call -----

  function Queue(items: seq<Item>): Queues {
    if items == [] then map[] else map[T := items]
  }

  /** `call` is the call numbered `next - 1`, if it has not finished. */
  function One(items: seq<Item>, call: Option<Call>, next: nat, h: History, owner: map<string, string>, seen: seq<Queues>): Sys
    requires call.Some? ==> next > 0
  {
    Sys(Manager(Queue(items), if call.Some? then {T} else {}),
        if call.Some? then map[next - 1 := call.value] else map[],
        next, map[T := h], owner, seen)
  }

  lemma FirstPost(item: Item)
    ensures Enabled(Start, Post(T, item))
    ensures Apply(Start, Post(T, item))
            == One([item], None, 0, History([item.id], [], [], false), map[item.id := T], [map[], Queue([item])])
  {
    assert [] + [item] == [item] && [] + [item.id] == [item.id];
    assert Enqueue(map[], T, item) == Queue([item]);
    assert [map[]] + [Queue([item])] == [map[], Queue([item])];
  }

  lemma NextPost(items: seq<Item>, next: nat, h: History, owner: map<string, string>, seen: seq<Queues>, item: Item)
    requires item.id !in owner
    ensures var s := One(items, None, next, h, owner, seen);
            && Enabled(s, Post(T, item))
            && Apply(s, Post(T, item))
               == One(items + [item], None, next, h.(enqueued := h.enqueued + [item.id]), owner[item.id := T],
                      seen + [Queue(items + [item])])
  {
    assert Enqueue(Queue(items), T, item) == Queue(items + [item]);
    assert map[T := h][T := h.(enqueued := h.enqueued + [item.id])] == map[T := h.(enqueued := h.enqueued + [item.id])];
  }

  lemma Dragged(items: seq<Item>, next: nat, h: History, owner: map<string, string>, seen: seq<Queues>,
                source: string, target: Option<string>, after: bool, moved: seq<Item>)
    requires Moved(items, source, target, after) == Some(moved) && items != [] && moved != []
    ensures var s := One(items, None, next, h, owner, seen);
            && Enabled(s, Move(T, source, target, after))
            && Apply(s, Move(T, source, target, after))
               == One(moved, None, next, h.(dragged := true), owner, seen + [Queue(moved)])
  {
    hide Moved;
    assert Reorder(Queue(items), T, source, target, after) == Queue(moved);
    assert map[T := h][T := h.(dragged := true)] == map[T := h.(dragged := true)];
  }

  lemma Drained(items: seq<Item>, next: nat, h: History, owner: map<string, string>, seen: seq<Queues>, render: nat, item: Item)
    requires items != [] && render < |seen| && QueueOf(seen[render], T) != [] && QueueOf(seen[render], T)[0] == item
    ensures var s := One(items, None, next, h, owner, seen);
            && Enabled(s, Drain(T, IDLE, render))
            && (HeadFresh(s, Drain(T, IDLE, render)) ==> items[0].id == item.id)
            && Apply(s, Drain(T, IDLE, render))
               == One(items[1..], Some(Call(T, item, Sending)), next + 1, h, owner, seen + [Queue(items[1..])])
  {
    assert DropHead(Queue(items), T) == Queue(items[1..]);
  }

  lemma Sent(items: seq<Item>, next: nat, h: History, owner: map<string, string>, seen: seq<Queues>, item: Item)
    requires next > 0
    ensures var s := One(items, Some(Call(T, item, Sending)), next, h, owner, seen);
            && Enabled(s, Succeed(next - 1))
            && Apply(s, Succeed(next - 1))
               == One(items, Some(Call(T, item, Settled)), next, h.(delivered := h.delivered + [item.id]), owner, seen + [Queue(items)])
  {
    assert map[T := h][T := h.(delivered := h.delivered + [item.id])] == map[T := h.(delivered := h.delivered + [item.id])];
  }

  lemma Ended(items: seq<Item>, next: nat, h: History, owner: map<string, string>, seen: seq<Queues>, item: Item)
    requires next > 0
    ensures var s := One(items, Some(Call(T, item, Settled)), next, h, owner, seen);
            && Enabled(s, Finish(next - 1))
            && Apply(s, Finish(next - 1)) == One(items, None, next, h, owner, seen + [Queue(items)])
  {
    assert {T} - {T} == {};
  }

  // ----- the run -----

  lemma DragPutsBFirst()
    ensures Moved([A, B], "b", Some("a"), false) == Some([B, A])
  {
    assert [A, B][..1] + [A, B][2..] == [A];
    assert IndexOf([A, B], "b") == 1;
    assert IndexOf([A], "a") == 0;
    assert [A][..0] + [B] + [A][0..] == [B, A];
  }

  const OWNERS := map["a" := T, "b" := T]
  const DRAGGED := History(["a", "b"], [], [], true)

  function Renders(): seq<Queues> {
    [map[], Queue([A]), Queue([A, B]), Queue([B, A])]
  }

  /** Up to the drag. */
  lemma UpToTheDrag()
    ensures Run(Start, STALE[..3], One([B, A], None, 0, DRAGGED, OWNERS, Renders()))
  {
    var e1, e2, e3 := STALE[0], STALE[1], STALE[2];
    Nothing(Start);
    FirstPost(A);
    NextPost([A], 0, History(["a"], [], [], false), map["a" := T], [map[], Queue([A])], B);
    assert [A] + [B] == [A, B] && ["a"] + ["b"] == ["a", "b"];
    assert map["a" := T]["b" := T] == OWNERS;
    assert [map[], Queue([A])] + [Queue([A, B])] == [map[], Queue([A]), Queue([A, B])];
    DragPutsBFirst();
    Dragged([A, B], 0, History(["a", "b"], [], [], false), OWNERS, [map[], Queue([A]), Queue([A, B])], "b", Some("a"), false, [B, A]);
    assert [map[], Queue([A]), Queue([A, B])] + [Queue([B, A])] == Renders();
    hide One, Run, HeadsFresh, Apply, Enabled, HeadFresh, Queue, Renders;
    RunOn(Start, [], Start, e1);
    assert [] + [e1] == [e1];
    RunOn(Start, [e1], Apply(Start, e1), e2);
    assert [e1] + [e2] == [e1, e2];
    RunOn(Start, [e1, e2], Apply(Apply(Start, e1), e2), e3);
    assert [e1, e2] + [e3] == STALE[..3];
  }

  /** The drain of the render before the drag: A is sent and stays queued, and B is dropped. */
  lemma TheStaleDrain()
    ensures Run(Start, STALE[..4], One([A], Some(Call(T, A, Sending)), 1, DRAGGED, OWNERS, Renders() + [Queue([A])]))
    ensures !HeadsFresh(Start, STALE[..4])
  {
    UpToTheDrag();
    assert [B, A][1..] == [A];
    Drained([B, A], 0, DRAGGED, OWNERS, Renders(), 2, A);
    RunOn(Start, STALE[..3], One([B, A], None, 0, DRAGGED, OWNERS, Renders()), STALE[3]);
    assert STALE[..3] + [STALE[3]] == STALE[..4];
  }

  /** A send that succeeds and ends. */
  lemma Delivered(es: seq<Event>, items: seq<Item>, next: nat, h: History, seen: seq<Queues>, item: Item)
    requires next > 0 && Run(Start, es, One(items, Some(Call(T, item, Sending)), next, h, OWNERS, seen))
    ensures Run(Start, es + [Succeed(next - 1), Finish(next - 1)],
                One(items, None, next, h.(delivered := h.delivered + [item.id]), OWNERS, seen + [Queue(items), Queue(items)]))
  {
    var g, sent := h.(delivered := h.delivered + [item.id]), seen + [Queue(items)];
    Sent(items, next, h, OWNERS, seen, item);
    Ended(items, next, g, OWNERS, sent, item);
    hide One, Run, Apply, Enabled;
    var s := One(items, Some(Call(T, item, Sending)), next, h, OWNERS, seen);
    RunOn(Start, es, s, Succeed(next - 1));
    RunOn(Start, es + [Succeed(next - 1)], Apply(s, Succeed(next - 1)), Finish(next - 1));
    assert es + [Succeed(next - 1)] + [Finish(next - 1)] == es + [Succeed(next - 1), Finish(next - 1)];
    assert sent + [Queue(items)] == seen + [Queue(items), Queue(items)];
  }

  lemma {:induction false} FreshPrefix(s: Sys, a: seq<Event>, b: seq<Event>, r: Sys)
    requires Run(s, a, r) && !HeadsFresh(s, a)
    ensures !HeadsFresh(s, a + b)
    decreases |a|
  {
    hide Enabled, Apply, HeadFresh;
    if a != [] {
      assert (a + b)[0] == a[0] && (a + b)[1..] == a[1..] + b;
      if HeadFresh(s, a[0]) {
        FreshPrefix(Apply(s, a[0]), a[1..], b, r);
      }
    }
  }

  /** One stale drain: A is delivered twice, and B, which nobody removed, is nowhere. */
  lemma StaleRun() returns (s: Sys)
    ensures Run(Start, STALE, s) && !HeadsFresh(Start, STALE)
    ensures Past(s, T) == History(["a", "b"], ["a", "a"], [], true)
    ensures Queued(s, T) == [] && s.calls == map[]
  {
    hide One, Run, HeadsFresh, Apply, Enabled, HeadFresh;
    TheStaleDrain();
    var seen := Renders() + [Queue([A])];
    FreshPrefix(Start, STALE[..4], STALE[4..], One([A], Some(Call(T, A, Sending)), 1, DRAGGED, OWNERS, seen));
    assert STALE[..4] + STALE[4..] == STALE;
    var once := DRAGGED.(delivered := ["a"]);
    Delivered(STALE[..4], [A], 1, DRAGGED, seen, A);
    assert [] + ["a"] == ["a"];
    assert STALE[..4] + [Succeed(0), Finish(0)] == STALE[..6];
    seen := seen + [Queue([A]), Queue([A])];
    assert seen[4] == Queue([A]);
    assert [A][1..] == [];
    Drained([A], 1, once, OWNERS, seen, 4, A);
    RunOn(Start, STALE[..6], One([A], None, 1, once, OWNERS, seen), STALE[6]);
    assert STALE[..6] + [STALE[6]] == STALE[..7];
    seen := seen + [Queue([])];
    Delivered(STALE[..7], [], 2, once, seen, A);
    assert ["a"] + ["a"] == ["a", "a"];
    assert STALE[..7] + [Succeed(1), Finish(1)] == STALE;
    s := One([], None, 2, once.(delivered := ["a", "a"]), OWNERS, seen + [Queue([]), Queue([])]);
    EmptyOne(2, once.(delivered := ["a", "a"]), OWNERS, seen + [Queue([]), Queue([])]);
  }

  lemma EmptyOne(next: nat, h: History, owner: map<string, string>, seen: seq<Queues>)
    ensures var s := One([], None, next, h, owner, seen);
            Past(s, T) == h && Queued(s, T) == [] && s.calls == map[]
  {
  }

  lemma Nothing(s: Sys)
    ensures Run(s, [], s)
  {
  }
}
