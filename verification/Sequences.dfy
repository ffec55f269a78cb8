/** Sequences without repetition, and sequences up to order. */
module Sequences {

  ghost predicate Distinct<T>(xs: seq<T>) {
    forall i, j :: 0 <= i < j < |xs| ==> xs[i] != xs[j]
  }

  function Elements<T>(xs: seq<T>): set<T> {
    set x | x in xs
  }

  lemma {:induction false} DistinctCount<T>(xs: seq<T>)
    requires Distinct(xs)
    ensures |Elements(xs)| == |xs|
  {
    if xs != [] {
      DistinctCount(xs[1..]);
      assert Elements(xs) == Elements(xs[1..]) + {xs[0]};
    }
  }

  lemma DistinctSplits<T>(a: seq<T>, b: seq<T>)
    requires Distinct(a + b)
    ensures Distinct(a) && Distinct(b) && forall x :: x in a ==> x !in b
  {
    assert forall i :: 0 <= i < |a| ==> (a + b)[i] == a[i];
    assert forall j :: 0 <= j < |b| ==> (a + b)[|a| + j] == b[j];
  }

  lemma {:induction false} DistinctIsOnce<T(!new)>(xs: seq<T>)
    ensures Distinct(xs) <==> forall x :: multiset(xs)[x] <= 1
  {
    if xs != [] {
      var rest := xs[1..];
      DistinctIsOnce(rest);
      assert xs == [xs[0]] + rest;
      assert multiset(xs) == multiset{xs[0]} + multiset(rest);
      assert Distinct(xs) <==> Distinct(rest) && xs[0] !in rest by {
        DistinctHead(xs);
      }
      assert xs[0] in rest <==> xs[0] in multiset(rest);
      assert multiset(xs)[xs[0]] == 1 + multiset(rest)[xs[0]];
      assert forall x :: x != xs[0] ==> multiset(xs)[x] == multiset(rest)[x];
    }
  }

  lemma DistinctHead<T(!new)>(xs: seq<T>)
    requires xs != []
    ensures Distinct(xs) <==> Distinct(xs[1..]) && xs[0] !in xs[1..]
  {
    var rest := xs[1..];
    if Distinct(xs) {
      assert forall j :: 0 <= j < |rest| ==> rest[j] == xs[j + 1] && rest[j] != xs[0];
    } else if Distinct(rest) && xs[0] !in rest {
      forall i, j | 0 <= i < j < |xs|
        ensures xs[i] != xs[j]
      {
        assert xs[j] == rest[j - 1];
        if i > 0 {
          assert xs[i] == rest[i - 1];
        }
      }
    }
  }

  lemma DistinctJoins<T>(a: seq<T>, b: seq<T>)
    requires Distinct(a) && Distinct(b) && forall x :: x in a ==> x !in b
    ensures Distinct(a + b)
  {
    forall i, j | 0 <= i < j < |a + b|
      ensures (a + b)[i] != (a + b)[j]
    {
      if i < |a| <= j {
        assert a[i] in a && b[j - |a|] in b;
      }
    }
  }

  lemma DistinctLast<T>(xs: seq<T>, x: T)
    ensures Distinct(xs + [x]) <==> Distinct(xs) && x !in xs
  {
    var ys := xs + [x];
    assert forall k :: 0 <= k < |xs| ==> ys[k] == xs[k];
    assert ys[|xs|] == x;
    if x in xs {
      var k :| 0 <= k < |xs| && xs[k] == x;
      assert ys[k] == ys[|xs|];
    }
  }

  lemma PrefixIsDistinct<T>(xs: seq<T>, i: nat)
    requires i <= |xs|
    ensures Distinct(xs) ==> Distinct(xs[..i])
  {
  }

  /** Going on by one element keeps a prefix distinct exactly when the element has not been seen. */
  lemma OneMoreSeen<T>(xs: seq<T>, i: nat, seen: set<T>)
    requires i < |xs| && seen == Elements(xs[..i]) && Distinct(xs[..i])
    ensures Elements(xs[..i + 1]) == seen + {xs[i]}
    ensures Distinct(xs[..i + 1]) <==> xs[i] !in seen
    ensures xs[i] in seen ==> !Distinct(xs)
  {
    assert xs[..i + 1] == xs[..i] + [xs[i]];
    DistinctLast(xs[..i], xs[i]);
    PrefixIsDistinct(xs, i + 1);
  }

  /** Two sequences without repetition and with the same elements are permutations of each other. */
  lemma SameElementsPermute<T(!new)>(xs: seq<T>, ys: seq<T>)
    requires Distinct(xs) && Distinct(ys) && forall x :: x in xs <==> x in ys
    ensures multiset(xs) == multiset(ys)
  {
    DistinctIsOnce(xs);
    DistinctIsOnce(ys);
    forall x
      ensures multiset(xs)[x] == multiset(ys)[x]
    {
      assert x in xs <==> x in multiset(xs);
      assert x in ys <==> x in multiset(ys);
    }
  }

  function Map<A, B>(f: A -> B, xs: seq<A>): (ys: seq<B>)
    ensures |ys| == |xs|
    ensures forall i :: 0 <= i < |ys| ==> ys[i] == f(xs[i])
  {
    seq(|xs|, i requires 0 <= i < |xs| => f(xs[i]))
  }

  function WithoutAt<T>(xs: seq<T>, i: nat): seq<T>
    requires i < |xs|
  {
    xs[..i] + xs[i + 1..]
  }

  lemma TakeOut<T>(xs: seq<T>, i: nat)
    requires i < |xs|
    ensures multiset(xs) == multiset(WithoutAt(xs, i)) + multiset{xs[i]}
  {
    assert xs == xs[..i] + [xs[i]] + xs[i + 1..];
  }

  lemma MapWithoutAt<A, B>(f: A -> B, xs: seq<A>, i: nat)
    requires i < |xs|
    ensures Map(f, WithoutAt(xs, i)) == WithoutAt(Map(f, xs), i)
  {
  }

  /** Mapping respects permutations. */
  lemma {:induction false} MapPermutes<A, B>(f: A -> B, xs: seq<A>, ys: seq<A>)
    requires multiset(xs) == multiset(ys)
    ensures multiset(Map(f, xs)) == multiset(Map(f, ys))
  {
    if xs == [] {
      assert |ys| == |multiset(ys)|;
    } else {
      assert xs[0] in multiset(ys);
      var i :| 0 <= i < |ys| && ys[i] == xs[0];
      TakeOut(xs, 0);
      TakeOut(ys, i);
      assert multiset(WithoutAt(xs, 0)) == multiset(xs) - multiset{xs[0]};
      assert multiset(WithoutAt(ys, i)) == multiset(ys) - multiset{ys[i]};
      MapPermutes(f, WithoutAt(xs, 0), WithoutAt(ys, i));
      MapWithoutAt(f, xs, 0);
      MapWithoutAt(f, ys, i);
      TakeOut(Map(f, xs), 0);
      TakeOut(Map(f, ys), i);
    }
  }
}
