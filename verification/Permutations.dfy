/** Sequences with the same elements. */
module Permutations {
  function Map<A, B>(a: seq<A>, f: A -> B): seq<B> {
    seq(|a|, i requires 0 <= i < |a| => f(a[i]))
  }

  /** One more element counts once, wherever it stands. */
  lemma SpliceCounts<A>(a: seq<A>, x: A, b: seq<A>)
    ensures multiset(a + [x] + b) == multiset(a + b) + multiset{x}
  {
  }

  /** An element cut out and put back in, at a position or at the end. */
  lemma CutAndSplice<A>(items: seq<A>, i: nat, k: nat)
    requires i < |items| && k < |items|
    ensures var rest := items[..i] + items[i + 1..];
            && multiset(rest[..k] + [items[i]] + rest[k..]) == multiset(items)
            && multiset(rest + [items[i]]) == multiset(items)
  {
    var rest := items[..i] + items[i + 1..];
    SpliceCounts(items[..i], items[i], items[i + 1..]);
    assert items == items[..i] + [items[i]] + items[i + 1..];
    SpliceCounts(rest[..k], items[i], rest[k..]);
    assert rest == rest[..k] + rest[k..];
  }

  function DropAt<A>(a: seq<A>, k: nat): seq<A>
    requires k < |a|
  {
    a[..k] + a[k + 1..]
  }

  lemma TakeOut<A>(a: seq<A>, k: nat)
    requires k < |a|
    ensures multiset(a) == multiset(DropAt(a, k)) + multiset{a[k]}
  {
    assert a == a[..k] + [a[k]] + a[k + 1..];
  }

  /** Where the first element of one permutation stands in another; the rests are permutations too. */
  lemma Match<A>(a: seq<A>, b: seq<A>) returns (k: nat)
    requires multiset(a) == multiset(b) && a != []
    ensures k < |b| && b[k] == a[0] && multiset(DropAt(a, 0)) == multiset(DropAt(b, k))
  {
    assert a[0] in multiset(b);
    k :| 0 <= k < |b| && b[k] == a[0];
    TakeOut(a, 0);
    TakeOut(b, k);
    assert multiset(DropAt(a, 0)) == multiset(a) - multiset{a[0]};
  }

  lemma SameMembers<A>(a: seq<A>, b: seq<A>)
    requires multiset(a) == multiset(b)
    ensures forall x :: x in a <==> x in b
  {
    assert forall x :: x in a <==> x in multiset(a);
    assert forall x :: x in b <==> x in multiset(b);
  }

  lemma MapWithout<A, B>(a: seq<A>, k: nat, f: A -> B)
    requires k < |a|
    ensures Map(DropAt(a, k), f) == DropAt(Map(a, f), k)
  {
  }

  lemma {:induction false} MapPermutes<A, B>(a: seq<A>, b: seq<A>, f: A -> B)
    requires multiset(a) == multiset(b)
    ensures multiset(Map(a, f)) == multiset(Map(b, f))
    decreases |a|
  {
    if a == [] {
      SameMembers(a, b);
    } else {
      var k := Match(a, b);
      MapPermutes(DropAt(a, 0), DropAt(b, k), f);
      MapWithout(a, 0, f);
      MapWithout(b, k, f);
      TakeOut(Map(a, f), 0);
      TakeOut(Map(b, f), k);
    }
  }
}
