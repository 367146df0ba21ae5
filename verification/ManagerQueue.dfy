/**
 The manager's message queues in `apps/web/src/App.tsx`: the pure updates of the queue record, the
 component state with its set of threads being processed, and the drain effect.
 */
module ManagerQueue {
  import opened Prelude
  import opened Permutations

  datatype Item = Item(id: string, provider: string, content: string, fullContent: string)

  type Queues = map<string, seq<Item>>

  function QueueOf(q: Queues, t: string): seq<Item> {
    if t in q then q[t] else []
  }

  function Ids(items: seq<Item>): seq<string> {
    seq(|items|, i requires 0 <= i < |items| => items[i].id)
  }

  // ----- the updates -----

  function Enqueue(q: Queues, t: string, item: Item): Queues {
    q[t := QueueOf(q, t) + [item]]
  }

  function Without(items: seq<Item>, id: string): seq<Item> {
    if items == [] then []
    else if items[0].id == id then Without(items[1..], id)
    else [items[0]] + Without(items[1..], id)
  }

  function Dequeue(q: Queues, t: string, id: string): Queues {
    var next := Without(QueueOf(q, t), id);
    if |next| == |QueueOf(q, t)| then q
    else if next == [] then q - {t}
    else q[t := next]
  }

  function EditItem(item: Item, id: string, content: string, fullContent: string): Item {
    if item.id == id then item.(content := content, fullContent := fullContent) else item
  }

  function Edit(q: Queues, t: string, id: string, content: string, fullContent: string): Queues {
    var existing := QueueOf(q, t);
    if existing == [] then q
    else q[t := seq(|existing|, i requires 0 <= i < |existing| => EditItem(existing[i], id, content, fullContent))]
  }

  function IndexOf(items: seq<Item>, id: string): (i: int)
    ensures -1 <= i < |items|
    ensures i >= 0 ==> items[i].id == id && forall k :: 0 <= k < i ==> items[k].id != id
    ensures i < 0 ==> forall k :: 0 <= k < |items| ==> items[k].id != id
  {
    if items == [] then -1
    else if items[0].id == id then 0
    else
      var k := IndexOf(items[1..], id);
      if k < 0 then -1 else k + 1
  }

  /** The list after a drag, or None when the source or the target is not there. */
  function Moved(items: seq<Item>, source: string, target: Option<string>, after: bool): Option<seq<Item>> {
    var i := IndexOf(items, source);
    if i < 0 then None
    else
      var rest := items[..i] + items[i + 1..];
      match target
      case None => Some(rest + [items[i]])
      case Some(id) =>
        var j := IndexOf(rest, id);
        if j < 0 then None
        else
          var k := j + (if after then 1 else 0);
          Some(rest[..k] + [items[i]] + rest[k..])
  }

  function Reorder(q: Queues, t: string, source: string, target: Option<string>, after: bool): Queues {
    var moved := Moved(QueueOf(q, t), source, target, after);
    if moved.Some? then q[t := moved.value] else q
  }

  function DropHead(q: Queues, t: string): Queues {
    var existing := QueueOf(q, t);
    if |existing| <= 1 then q - {t} else q[t := existing[1..]]
  }

  function Requeue(q: Queues, t: string, item: Item): Queues {
    q[t := [item] + QueueOf(q, t)]
  }

  // ----- the drain -----

  /** What the component keeps: the queues, and the threads whose head is being sent. */
  datatype Manager = Manager(queues: Queues, processing: set<string>)

  datatype Started = Started(thread: string, item: Item)

  /** One turn of the drain loop. The queue it looks at, and the message it sends, are those of the
      render the effect belongs to; what it drops is the head of the latest queue. `running` gives the
      known threads and which of them run. */
  function DrainOne(m: Manager, rendered: Queues, t: string, running: map<string, bool>): (Manager, Option<Started>) {
    var queue := QueueOf(rendered, t);
    if queue == [] || t in m.processing then (m, None)
    else if t !in running then (m.(queues := m.queues - {t}), None)
    else if running[t] then (m, None)
    else (Manager(DropHead(m.queues, t), m.processing + {t}), Some(Started(t, queue[0])))
  }

  function DrainAll(m: Manager, rendered: Queues, threads: seq<string>, running: map<string, bool>): (Manager, seq<Started>) {
    if threads == [] then (m, [])
    else
      var (n, started) := DrainAll(m, rendered, threads[..|threads| - 1], running);
      var (o, one) := DrainOne(n, rendered, threads[|threads| - 1], running);
      (o, if one.Some? then started + [one.value] else started)
  }

  /** Cut the source out of a copy of the list, then splice it in beside the target or at the end. */
  method Drag(existing: seq<Item>, source: string, target: Option<string>, after: bool)
    returns (next: Option<seq<Item>>)
    ensures next == Moved(existing, source, target, after)
  {
    var sourceIndex := IndexOf(existing, source);
    if sourceIndex < 0 {
      return None;
    }
    var rest := existing[..sourceIndex] + existing[sourceIndex + 1..];
    var moved := existing[sourceIndex];
    if target.None? {
      return Some(rest + [moved]);
    }
    var targetIndex := IndexOf(rest, target.value);
    if targetIndex < 0 {
      return None;
    }
    var at := targetIndex + (if after then 1 else 0);
    return Some(rest[..at] + [moved] + rest[at..]);
  }

  class ManagerQueues {
    var queues: Queues
    var processing: set<string>

    ghost function View(): Manager
      reads this
    {
      Manager(queues, processing)
    }

    constructor ()
      ensures View() == Manager(map[], {})
    {
      queues, processing := map[], {};
    }

    method EnqueueMessage(t: string, item: Item)
      modifies this`queues
      ensures queues == Enqueue(old(queues), t, item)
    {
      queues := queues[t := QueueOf(queues, t) + [item]];
    }

    method DequeueMessage(t: string, id: string)
      modifies this`queues
      ensures queues == Dequeue(old(queues), t, id)
    {
      var existing := QueueOf(queues, t);
      var next := Without(existing, id);
      if |next| == |existing| {
        return;
      }
      if next == [] {
        queues := queues - {t};
      } else {
        queues := queues[t := next];
      }
    }

    method UpdateItem(t: string, id: string, content: string, fullContent: string)
      modifies this`queues
      ensures queues == Edit(old(queues), t, id, content, fullContent)
    {
      var existing := QueueOf(queues, t);
      if existing != [] {
        queues := queues[t := seq(|existing|, i requires 0 <= i < |existing| =>
          EditItem(existing[i], id, content, fullContent))];
      }
    }

    method ReorderItem(t: string, source: string, target: Option<string>, after: bool)
      modifies this`queues
      ensures queues == Reorder(old(queues), t, source, target, after)
    {
      var existing := QueueOf(queues, t);
      if existing != [] {
        var next := Drag(existing, source, target, after);
        if next.Some? {
          queues := queues[t := next.value];
        }
      }
    }

    /** The effect: each rendered queue in turn. `threads` are the keys of the rendered record. */
    method Drain(rendered: Queues, threads: seq<string>, running: map<string, bool>) returns (started: seq<Started>)
      modifies this
      ensures (View(), started) == DrainAll(old(View()), rendered, threads, running)
    {
      started := [];
      for i := 0 to |threads|
        invariant (View(), started) == DrainAll(old(View()), rendered, threads[..i], running)
      {
        assert threads[..i + 1][..i] == threads[..i];
        var t := threads[i];
        var queue := QueueOf(rendered, t);
        if queue == [] || t in processing {
          continue;
        }
        if t !in running {
          queues := queues - {t};
          continue;
        }
        if running[t] {
          continue;
        }
        processing := processing + {t};
        var existing := QueueOf(queues, t);
        if |existing| <= 1 {
          queues := queues - {t};
        } else {
          queues := queues[t := existing[1..]];
        }
        started := started + [Started(t, queue[0])];
      }
      assert threads[..|threads|] == threads;
    }

    method SendFailed(t: string, item: Item)
      modifies this`queues
      ensures queues == Requeue(old(queues), t, item)
    {
      queues := queues[t := [item] + QueueOf(queues, t)];
    }

    method SendSettled(t: string)
      modifies this`processing
      ensures processing == old(processing) - {t}
    {
      processing := processing - {t};
    }
  }

  // ----- what a drag does -----

  /** A drag keeps the messages: the same ones, the same number of times. */
  lemma MovedPermutes(items: seq<Item>, source: string, target: Option<string>, after: bool)
    requires Moved(items, source, target, after).Some?
    ensures multiset(Moved(items, source, target, after).value) == multiset(items)
  {
    hide IndexOf;
    var i := IndexOf(items, source);
    var rest := items[..i] + items[i + 1..];
    CutAndSplice(items, i, if target.Some? then IndexOf(rest, target.value) + (if after then 1 else 0) else 0);
  }

  ghost predicate HasId(items: seq<Item>, id: string) {
    exists k :: 0 <= k < |items| && items[k].id == id
  }

  /** A drag takes effect exactly when its source is there and its target, if it has one, is among the
      other messages. */
  lemma MovedExactly(items: seq<Item>, source: string, target: Option<string>, after: bool)
    ensures Moved(items, source, target, after).Some? <==>
            HasId(items, source)
            && (target.Some? ==> exists i, k :: 0 <= i < |items| && 0 <= k < |items| && k != i
                                                && items[i].id == source && (forall j :: 0 <= j < i ==> items[j].id != source)
                                                && items[k].id == target.value)
  {
    var i := IndexOf(items, source);
    if i >= 0 && target.Some? {
      var rest := items[..i] + items[i + 1..];
      var j := IndexOf(rest, target.value);
      if j >= 0 {
        var k := if j < i then j else j + 1;
        assert items[k] == rest[j] && items[k].id == target.value && k != i;
      } else {
        forall k | 0 <= k < |items| && k != i ensures items[k].id != target.value {
          assert items[k] == rest[if k < i then k else k - 1];
        }
      }
    }
  }

  ghost predicate DistinctIds(items: seq<Item>) {
    forall i, j :: 0 <= i < j < |items| ==> items[i].id != items[j].id
  }

  lemma {:induction false} WithoutConcat(a: seq<Item>, b: seq<Item>, id: string)
    ensures Without(a + b, id) == Without(a, id) + Without(b, id)
    decreases |a|
  {
    if a == [] {
      assert a + b == b;
    } else {
      assert (a + b)[1..] == a[1..] + b;
      WithoutConcat(a[1..], b, id);
    }
  }

  lemma {:induction false} WithoutAbsent(items: seq<Item>, id: string)
    requires forall k :: 0 <= k < |items| ==> items[k].id != id
    ensures Without(items, id) == items
  {
    if items != [] {
      WithoutAbsent(items[1..], id);
    }
  }

  /** Somewhere in the list `x` comes right before `y`. */
  ghost predicate Adjacent(items: seq<Item>, x: string, y: string) {
    exists k :: 0 <= k < |items| - 1 && items[k].id == x && items[k + 1].id == y
  }

  /** The other messages keep their order, and the moved one stands right at its target. */
  lemma MovedKeepsOrder(items: seq<Item>, source: string, target: Option<string>, after: bool)
    requires DistinctIds(items)
    requires Moved(items, source, target, after).Some?
    ensures var r := Moved(items, source, target, after).value;
            && Without(r, source) == Without(items, source)
            && (target == None ==> r[|r| - 1].id == source)
            && (target.Some? && after ==> Adjacent(r, target.value, source))
            && (target.Some? && !after ==> Adjacent(r, source, target.value))
  {
    var i := IndexOf(items, source);
    var x := items[i];
    var rest := items[..i] + items[i + 1..];
    assert items == items[..i] + [x] + items[i + 1..];
    DroppedOut(items[..i], x, items[i + 1..], source);
    if target.None? {
      DroppedOut(rest, x, [], source);
      assert rest + [x] + [] == rest + [x] && rest + [] == rest;
    } else {
      var j := IndexOf(rest, target.value);
      Spliced(rest, x, j, target.value, after);
    }
  }

  lemma Spliced(rest: seq<Item>, x: Item, j: nat, id: string, after: bool)
    requires j < |rest| && rest[j].id == id
    ensures var k := j + (if after then 1 else 0);
            var r := rest[..k] + [x] + rest[k..];
            && Without(r, x.id) == Without(rest, x.id)
            && (if after then Adjacent(r, id, x.id) else Adjacent(r, x.id, id))
  {
    var k := j + (if after then 1 else 0);
    var r := rest[..k] + [x] + rest[k..];
    DroppedOut(rest[..k], x, rest[k..], x.id);
    assert rest == rest[..k] + rest[k..];
    assert r[j + 1] == (if after then x else rest[j]) && r[j] == (if after then rest[j] else x);
  }

  lemma DroppedOut(a: seq<Item>, x: Item, b: seq<Item>, id: string)
    requires x.id == id
    ensures Without(a + [x] + b, id) == Without(a + b, id)
  {
    WithoutConcat(a + [x], b, id);
    WithoutConcat(a, [x], id);
    WithoutConcat(a, b, id);
    assert Without([x], id) == [];
  }

  // ----- what an edit and a turn of the drain do -----

  /** An edit gives the named messages the two new texts, and touches nothing else. */
  lemma EditedExactly(q: Queues, t: string, id: string, content: string, fullContent: string)
    ensures var r := Edit(q, t, id, content, fullContent);
            && (forall u :: u != t ==> (u in r <==> u in q) && QueueOf(r, u) == QueueOf(q, u))
            && |QueueOf(r, t)| == |QueueOf(q, t)|
            && forall i :: 0 <= i < |QueueOf(q, t)| ==>
                 var x, y := QueueOf(q, t)[i], QueueOf(r, t)[i];
                 && y.id == x.id && y.provider == x.provider
                 && (x.id == id ==> y.content == content && y.fullContent == fullContent)
                 && (x.id != id ==> y == x)
  {
  }

  /** A turn sends exactly when the rendered queue is not empty, no send of the thread is under way, and
      the thread is known and does not run; it sends the rendered head, and drops one message of the
      latest queue. It forgets the latest queue exactly when the thread would have been served but is
      not known. */
  lemma TurnExactly(m: Manager, rendered: Queues, t: string, running: map<string, bool>)
    ensures var (n, started) := DrainOne(m, rendered, t, running);
            var due := QueueOf(rendered, t) != [] && t !in m.processing;
            && (started.Some? <==> due && t in running && !running[t])
            && (started.Some? ==>
                  && started.value == Started(t, QueueOf(rendered, t)[0])
                  && n.processing == m.processing + {t}
                  && QueueOf(n.queues, t) == (if |QueueOf(m.queues, t)| <= 1 then [] else QueueOf(m.queues, t)[1..])
                  && (t in n.queues <==> QueueOf(n.queues, t) != []))
            && (started.None? ==> n.processing == m.processing)
            && (due && t !in running ==> t !in n.queues)
            && (!due || (t in running && running[t]) ==> n == m)
            && forall u :: u != t ==> (u in n.queues <==> u in m.queues) && QueueOf(n.queues, u) == QueueOf(m.queues, u)
  {
  }
}
