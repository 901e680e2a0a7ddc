/** Lists that are made element by element, and what permuting the elements does to them. */
module Permutations {
  /** The lists that f gives for the elements of a sequence, one after the other. */
  ghost function FlatMap<A(!new), B>(f: A -> seq<B>, order: seq<A>): seq<B>
  {
    if order == [] then [] else FlatMap(f, order[..|order| - 1]) + f(order[|order| - 1])
  }

  lemma FlatMapSnoc<A(!new), B>(f: A -> seq<B>, order: seq<A>, x: A)
    ensures FlatMap(f, order + [x]) == FlatMap(f, order) + f(x)
  {
    assert (order + [x])[..|order|] == order;
  }

  function Drop<A>(s: seq<A>, i: nat): (rest: seq<A>)
    requires i < |s|
    ensures |rest| == |s| - 1
  {
    s[..i] + s[i + 1..]
  }

  lemma DropLast<A>(front: seq<A>, x: A)
    ensures Drop(front + [x], |front|) == front
  {
  }

  lemma DropSnoc<A>(front: seq<A>, x: A, i: nat)
    requires i < |front|
    ensures Drop(front + [x], i) == Drop(front, i) + [x]
  {
  }

  lemma DropEnd<A>(s: seq<A>)
    requires s != []
    ensures Drop(s, |s| - 1) == s[..|s| - 1]
  {
  }

  lemma Swap<B>(a: multiset<B>, b: multiset<B>, c: multiset<B>)
    ensures a + b + c == a + c + b
  {
  }

  lemma {:induction false} FlatMapWithout<A(!new), B>(f: A -> seq<B>, order: seq<A>, i: nat)
    requires i < |order|
    ensures multiset(FlatMap(f, order)) == multiset(FlatMap(f, Drop(order, i))) + multiset(f(order[i]))
  {
    hide *;
    var front, x := order[..|order| - 1], order[|order| - 1];
    assert order == front + [x];
    FlatMapSnoc(f, front, x);
    if i == |front| {
      DropLast(front, x);
    } else {
      FlatMapWithout(f, front, i);
      DropSnoc(front, x, i);
      FlatMapSnoc(f, Drop(front, i), x);
      Swap(multiset(FlatMap(f, Drop(front, i))), multiset(f(order[i])), multiset(f(x)));
    }
  }

  /** Permuting the elements permutes the lists. */
  lemma {:induction false} FlatMapPermutes<A(!new), B>(f: A -> seq<B>, a: seq<A>, b: seq<A>)
    requires multiset(a) == multiset(b)
    ensures multiset(FlatMap(f, a)) == multiset(FlatMap(f, b))
    decreases |a|
  {
    hide *;
    if a == [] {
      EmptyPermutes(a, b);
    } else {
      var front, x := a[..|a| - 1], a[|a| - 1];
      assert a == front + [x];
      var i := Without(a, b);
      FlatMapPermutes(f, front, Drop(b, i));
      FlatMapSnoc(f, front, x);
      FlatMapWithout(f, b, i);
    }
  }

  /** Where the last element of a sequence stands in a permutation of it. */
  lemma Without<A>(a: seq<A>, b: seq<A>) returns (i: nat)
    requires a != [] && multiset(a) == multiset(b)
    ensures i < |b| && b[i] == a[|a| - 1] && multiset(a[..|a| - 1]) == multiset(Drop(b, i))
  {
    var front, x := a[..|a| - 1], a[|a| - 1];
    assert a == front + [x];
    assert x in multiset(b);
    i :| 0 <= i < |b| && b[i] == x;
    assert b == b[..i] + [x] + b[i + 1..];
    assert multiset(b) == multiset(Drop(b, i)) + multiset{x};
    assert multiset(a) == multiset(front) + multiset{x};
    Cancel(multiset(front), multiset(Drop(b, i)), x);
  }

  lemma EmptyPermutes<A>(a: seq<A>, b: seq<A>)
    requires a == [] && multiset(a) == multiset(b)
    ensures b == []
  {
    assert |multiset(b)| == 0;
  }

  lemma Cancel<A>(a: multiset<A>, b: multiset<A>, x: A)
    requires a + multiset{x} == b + multiset{x}
    ensures a == b
  {
    assert a == (a + multiset{x}) - multiset{x} && b == (b + multiset{x}) - multiset{x};
  }

  lemma {:induction false} Distinct<A>(order: seq<A>, x: A)
    requires forall i, j | 0 <= i < j < |order| :: order[i] != order[j]
    ensures multiset(order)[x] == if x in order then 1 else 0
  {
    if order != [] {
      var front := order[..|order| - 1];
      Distinct(front, x);
      assert order == front + [order[|order| - 1]];
    }
  }

  /** Two orders of one collection are permutations of each other. */
  lemma OrdersPermute<A(!new)>(a: seq<A>, b: seq<A>)
    requires forall x :: x in a <==> x in b
    requires forall i, j | 0 <= i < j < |a| :: a[i] != a[j]
    requires forall i, j | 0 <= i < j < |b| :: b[i] != b[j]
    ensures multiset(a) == multiset(b)
  {
    forall x
      ensures multiset(a)[x] == multiset(b)[x]
    {
      Distinct(a, x);
      Distinct(b, x);
    }
  }
}
