/**
 The budgeted copy of a directory tree: `copy_tree` of `packages/gateway-rust/src/bundle_web.rs`, on
 a source that does not change. A directory is the list of its entries in listing order.
 */
module CopyTree {
  import opened Prelude
  import opened Permutations

  const MAX_ENTRIES: nat := 100_000
  const MAX_BYTES: nat := 1024 * 1024 * 1024
  const MAX_DEPTH: nat := 64
  const U64: nat := 0x1_0000_0000_0000_0000

  datatype Node = File(data: seq<bv8>) | Special | Dir(children: seq<Entry>)

  datatype Entry = Entry(name: string, node: Node)

  datatype CopyError = Nesting | EntryBudget | ByteBudget | NotAFile | Exists

  // ----- what a tree amounts to -----

  /** Entries below a node, bytes in its files, directories on the longest way down including itself,
      and whether all of it are files and directories with a name each. */
  datatype Tally = Tally(entries: nat, bytes: nat, levels: nat, clean: bool)

  datatype Kid = Kid(name: string, tally: Tally)

  function Max(a: nat, b: nat): nat {
    if a >= b then a else b
  }

  function Sum(kids: seq<Kid>): Tally {
    if kids == [] then Tally(0, 0, 0, true)
    else
      var front, k := Sum(kids[..|kids| - 1]), kids[|kids| - 1];
      Tally(front.entries + 1 + k.tally.entries,
            front.bytes + k.tally.bytes,
            Max(front.levels, k.tally.levels),
            front.clean && k.tally.clean && forall o :: o in kids[..|kids| - 1] ==> o.name != k.name)
  }

  function TallyOf(t: Node): Tally {
    match t
    case File(data) => Tally(0, |data|, 0, true)
    case Special => Tally(0, 0, 0, false)
    case Dir(_) =>
      var sum := Sum(Kids(t));
      sum.(levels := sum.levels + 1)
  }

  function Kids(t: Node): seq<Kid>
    requires t.Dir?
    decreases t, 0
  {
    seq(|t.children|, i requires 0 <= i < |t.children| => Kid(t.children[i].name, TallyOf(t.children[i].node)))
  }

  /** The tree fits what is left of the budgets when it is copied at `depth`. */
  predicate Fits(t: Node, depth: nat, entries: nat, bytes: nat)
    requires t.Dir?
  {
    var tally := TallyOf(t);
    && depth + tally.levels - 1 <= MAX_DEPTH
    && entries + tally.entries <= MAX_ENTRIES
    && bytes + tally.bytes <= MAX_BYTES
    && tally.clean
  }

  /** What each error says about the tree. */
  predicate Blames(e: CopyError, t: Node, depth: nat, entries: nat, bytes: nat)
    requires t.Dir?
  {
    var tally := TallyOf(t);
    match e
    case Nesting => depth + tally.levels - 1 > MAX_DEPTH
    case EntryBudget => entries + tally.entries > MAX_ENTRIES
    case ByteBudget => bytes + tally.bytes > MAX_BYTES
    case NotAFile => !tally.clean
    case Exists => !tally.clean
  }

  /** A copy that stopped somewhere: whole entries in order, and at most one directory partly done. */
  predicate PartOf(copy: Node, t: Node)
    decreases t
  {
    copy == t
    || (copy.Dir? && t.Dir? && |copy.children| <= |t.children|
        && forall i :: 0 <= i < |copy.children| ==>
             && copy.children[i].name == t.children[i].name
             && (i < |copy.children| - 1 ==> copy.children[i] == t.children[i])
             && PartOf(copy.children[i].node, t.children[i].node))
  }

  predicate HasName(children: seq<Entry>, name: string) {
    exists i :: 0 <= i < |children| && children[i].name == name
  }

  // ----- the copy -----

  lemma {:induction false} SumGrows(kids: seq<Kid>, i: nat)
    requires i <= |kids|
    ensures var part, all := Sum(kids[..i]), Sum(kids);
            && part.entries <= all.entries && part.bytes <= all.bytes && part.levels <= all.levels
            && (all.clean ==> part.clean)
  {
    if i < |kids| {
      SumGrows(kids[..|kids| - 1], i);
      assert kids[..|kids| - 1][..i] == kids[..i];
    } else {
      assert kids[..i] == kids;
    }
  }

  lemma SumStep(kids: seq<Kid>, i: nat)
    requires i < |kids|
    ensures var part, k, next := Sum(kids[..i]), kids[i], Sum(kids[..i + 1]);
            && next.entries == part.entries + 1 + k.tally.entries
            && next.bytes == part.bytes + k.tally.bytes
            && next.levels == Max(part.levels, k.tally.levels)
            && (next.clean <==> part.clean && k.tally.clean && forall j :: 0 <= j < i ==> kids[j].name != k.name)
  {
    assert kids[..i + 1][..i] == kids[..i];
    assert forall j :: 0 <= j < i ==> kids[..i][j] == kids[j];
  }

  method CopyTree(source: Node, depth: nat, entries: nat, bytes: nat)
    returns (failed: Option<CopyError>, copy: Node, entriesOut: nat, bytesOut: nat)
    requires source.Dir? && entries <= MAX_ENTRIES && bytes <= MAX_BYTES
    ensures failed == None <==> Fits(source, depth, entries, bytes)
    ensures failed.Some? ==> Blames(failed.value, source, depth, entries, bytes)
    ensures failed == None ==>
      && copy == source
      && entriesOut == entries + TallyOf(source).entries && bytesOut == bytes + TallyOf(source).bytes
    ensures PartOf(copy, source)
    decreases source
  {
    hide Sum;
    copy, entriesOut, bytesOut := Dir([]), entries, bytes;
    var n := |source.children|;
    ghost var kids := Kids(source);
    if depth > MAX_DEPTH {
      return Some(Nesting), copy, entriesOut, bytesOut;
    }
    EmptySum(kids);
    for i := 0 to n
      invariant copy == Dir(source.children[..i])
      invariant entriesOut == entries + Sum(kids[..i]).entries <= MAX_ENTRIES
      invariant bytesOut == bytes + Sum(kids[..i]).bytes <= MAX_BYTES
      invariant depth + Sum(kids[..i]).levels <= MAX_DEPTH && Sum(kids[..i]).clean
    {
      SumStep(kids, i);
      SumGrows(kids, i + 1);
      var entry := source.children[i];
      var done := copy.children;
      assert kids[i] == Kid(entry.name, TallyOf(entry.node));
      NameTaken(source, i);
      entriesOut := entriesOut + 1;
      if entriesOut > MAX_ENTRIES {
        return Some(EntryBudget), copy, entriesOut, bytesOut;
      }
      match entry.node {
        case Dir(_) =>
          if HasName(done, entry.name) {
            return Some(Exists), copy, entriesOut, bytesOut;
          }
          copy := Dir(done + [Entry(entry.name, Dir([]))]);
          var inner, sub;
          inner, sub, entriesOut, bytesOut := CopyTree(entry.node, depth + 1, entriesOut, bytesOut);
          copy := Dir(done + [Entry(entry.name, sub)]);
          if inner.Some? {
            return inner, copy, entriesOut, bytesOut;
          }
        case File(data) =>
          if bytesOut + |data| >= U64 {
            return Some(ByteBudget), copy, entriesOut, bytesOut;
          }
          bytesOut := bytesOut + |data|;
          if bytesOut > MAX_BYTES {
            return Some(ByteBudget), copy, entriesOut, bytesOut;
          }
          if HasName(done, entry.name) {
            return Some(Exists), copy, entriesOut, bytesOut;
          }
          copy := Dir(done + [Entry(entry.name, File(data))]);
        case Special =>
          return Some(NotAFile), copy, entriesOut, bytesOut;
      }
    }
    assert kids[..n] == kids && source.children[..n] == source.children;
    failed := None;
  }

  lemma NameTaken(t: Node, i: nat)
    requires t.Dir? && i < |t.children|
    ensures HasName(t.children[..i], t.children[i].name) <==> exists j :: 0 <= j < i && Kids(t)[j].name == Kids(t)[i].name
  {
    if HasName(t.children[..i], t.children[i].name) {
      var j :| 0 <= j < i && t.children[..i][j].name == t.children[i].name;
      assert Kids(t)[j].name == Kids(t)[i].name;
    }
    if j :| 0 <= j < i && Kids(t)[j].name == Kids(t)[i].name {
      assert t.children[..i][j].name == t.children[i].name;
    }
  }

  lemma EmptySum(kids: seq<Kid>)
    ensures Sum(kids[..0]) == Tally(0, 0, 0, true)
  {
  }

  // ----- the order of listing does not matter -----

  predicate Fresh(kids: seq<Kid>, name: string) {
    forall o :: o in kids ==> o.name != name
  }

  function Add(s: Tally, k: Tally, unique: bool): Tally {
    Tally(s.entries + 1 + k.entries, s.bytes + k.bytes, Max(s.levels, k.levels), s.clean && k.clean && unique)
  }

  lemma SumLast(kids: seq<Kid>, k: Kid)
    ensures Sum(kids + [k]) == Add(Sum(kids), k.tally, Fresh(kids, k.name))
  {
    assert (kids + [k])[..|kids|] == kids;
  }

  lemma FreshParts(front: seq<Kid>, less: seq<Kid>, x: Kid, last: Kid)
    requires forall o :: o in front <==> o in less || o == x
    ensures Fresh(less, x.name) && Fresh(front, last.name) <==> Fresh(less, last.name) && Fresh(less + [last], x.name)
  {
    assert forall o :: o in less + [last] <==> o in less || o == last;
    assert x in front && last in less + [last];
  }

  /** Any part can be the one added last. */
  lemma {:induction false} SumWithout(kids: seq<Kid>, i: nat)
    requires i < |kids|
    ensures var rest, k := DropAt(kids, i), kids[i];
            Sum(kids) == Add(Sum(rest), k.tally, Fresh(rest, k.name))
  {
    hide Sum, Fresh;
    var n := |kids| - 1;
    var last, front := kids[n], kids[..n];
    assert kids == front + [last];
    SumLast(front, last);
    if i == n {
      assert DropAt(kids, i) == front;
    } else {
      var less, x := DropAt(front, i), kids[i];
      SumWithout(front, i);
      assert DropAt(kids, i) == less + [last];
      SumLast(less, last);
      assert front == front[..i] + [x] + front[i + 1..];
      assert forall o :: o in front <==> o in less || o == x;
      FreshParts(front, less, x, last);
    }
  }

  lemma {:induction false} SumPermutes(a: seq<Kid>, b: seq<Kid>)
    requires multiset(a) == multiset(b)
    ensures Sum(a) == Sum(b)
    decreases |a|
  {
    hide Sum, DropAt;
    SameMembers(a, b);
    if a == [] {
      assert b == [];
    } else {
      var k := Match(a, b);
      var p, q := DropAt(a, 0), DropAt(b, k);
      TakeOut(a, 0);
      assert |multiset(a)| == |multiset(p)| + 1;
      assert |p| < |a|;
      SumPermutes(p, q);
      SumWithout(a, 0);
      SumWithout(b, k);
      SameMembers(p, q);
    }
  }

  /** The same tree with its directories listed in another order, at every level. */
  ghost predicate Relisted(a: Node, b: Node)
    decreases b
  {
    match b
    case Dir(cs) =>
      a.Dir? && exists order: seq<Entry> ::
        && multiset(order) == multiset(a.children) && |order| == |cs|
        && forall i :: 0 <= i < |cs| ==> order[i].name == cs[i].name && Relisted(order[i].node, cs[i].node)
    case _ => a == b
  }

  function KidOf(e: Entry): Kid {
    Kid(e.name, TallyOf(e.node))
  }

  lemma KidsOf(t: Node, order: seq<Entry>)
    requires t.Dir? && |order| == |t.children|
    requires forall i :: 0 <= i < |order| ==> KidOf(order[i]) == KidOf(t.children[i])
    ensures Kids(t) == Map(order, KidOf)
  {
    hide TallyOf;
  }

  /** Whether a tree can be copied does not depend on the order its directories are listed in. */
  lemma {:induction false} VerdictIgnoresOrder(a: Node, b: Node)
    requires Relisted(a, b)
    ensures TallyOf(a) == TallyOf(b)
    decreases b
  {
    hide Sum, Kids, Map;
    if b.Dir? {
      var cs := b.children;
      var order: seq<Entry> :|
        && multiset(order) == multiset(a.children) && |order| == |cs|
        && forall i :: 0 <= i < |cs| ==> order[i].name == cs[i].name && Relisted(order[i].node, cs[i].node);
      forall i | 0 <= i < |cs| ensures KidOf(order[i]) == KidOf(cs[i]) {
        VerdictIgnoresOrder(order[i].node, cs[i].node);
      }
      KidsOf(b, order);
      KidsOf(a, a.children);
      MapPermutes(a.children, order, KidOf);
      SumPermutes(Kids(a), Kids(b));
    }
  }
}
