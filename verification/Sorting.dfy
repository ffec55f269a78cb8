/** Sorting by a key, as Python's stable `sorted` does, and why the result is unique. */
module Sorting {

  ghost predicate TotalPreorder<T(!new)>(le: (T, T) -> bool) {
    && (forall x, y :: le(x, y) || le(y, x))
    && (forall x, y, z :: le(x, y) && le(y, z) ==> le(x, z))
  }

  /** The order tells the elements of this sequence apart. */
  ghost predicate Separates<T(!new)>(le: (T, T) -> bool, xs: seq<T>) {
    forall x, y :: x in xs && y in xs && le(x, y) && le(y, x) ==> x == y
  }

  ghost predicate SortedBy<T(!new)>(le: (T, T) -> bool, xs: seq<T>) {
    forall i, j :: 0 <= i < j < |xs| ==> le(xs[i], xs[j])
  }

  function Insert<T>(le: (T, T) -> bool, x: T, xs: seq<T>): seq<T> {
    if xs == [] || le(x, xs[0]) then [x] + xs else [xs[0]] + Insert(le, x, xs[1..])
  }

  function Sort<T>(le: (T, T) -> bool, xs: seq<T>): seq<T> {
    if xs == [] then [] else Insert(le, xs[0], Sort(le, xs[1..]))
  }

  function Filter<T(!new)>(keep: T -> bool, xs: seq<T>): (r: seq<T>)
    ensures forall x :: x in r <==> x in xs && keep(x)
    ensures |r| <= |xs|
  {
    if xs == [] then []
    else if keep(xs[0]) then [xs[0]] + Filter(keep, xs[1..])
    else Filter(keep, xs[1..])
  }

  lemma {:induction false} InsertHolds<T>(le: (T, T) -> bool, x: T, xs: seq<T>)
    ensures multiset(Insert(le, x, xs)) == multiset(xs) + multiset{x}
  {
    if xs != [] && !le(x, xs[0]) {
      InsertHolds(le, x, xs[1..]);
      assert xs == [xs[0]] + xs[1..];
    }
  }

  lemma PrependIsSorted<T(!new)>(le: (T, T) -> bool, x: T, xs: seq<T>)
    requires SortedBy(le, xs) && forall y :: y in multiset(xs) ==> le(x, y)
    ensures SortedBy(le, [x] + xs)
  {
    assert forall k :: 0 <= k < |xs| ==> xs[k] in multiset(xs);
  }

  lemma {:induction false} InsertIsSorted<T(!new)>(le: (T, T) -> bool, x: T, xs: seq<T>)
    requires TotalPreorder(le) && SortedBy(le, xs)
    ensures SortedBy(le, Insert(le, x, xs))
  {
    if xs == [] || le(x, xs[0]) {
    } else {
      InsertIsSorted(le, x, xs[1..]);
      InsertHolds(le, x, xs[1..]);
      forall y | y in multiset(xs[1..])
        ensures le(xs[0], y)
      {
        assert y in xs[1..];
      }
      PrependIsSorted(le, xs[0], Insert(le, x, xs[1..]));
    }
  }

  lemma {:induction false} SortIsSorted<T(!new)>(le: (T, T) -> bool, xs: seq<T>)
    requires TotalPreorder(le)
    ensures SortedBy(le, Sort(le, xs)) && multiset(Sort(le, xs)) == multiset(xs)
  {
    if xs != [] {
      SortIsSorted(le, xs[1..]);
      InsertIsSorted(le, xs[0], Sort(le, xs[1..]));
      InsertHolds(le, xs[0], Sort(le, xs[1..]));
      assert xs == [xs[0]] + xs[1..];
    }
  }

  lemma HeadIsLeast<T(!new)>(le: (T, T) -> bool, xs: seq<T>, x: T)
    requires TotalPreorder(le) && SortedBy(le, xs) && x in xs
    ensures le(xs[0], x)
  {
    var i :| 0 <= i < |xs| && xs[i] == x;
    assert i == 0 ==> le(x, x);
  }

  lemma TailCounts<T>(xs: seq<T>)
    requires xs != []
    ensures multiset(xs[1..]) == multiset(xs) - multiset{xs[0]}
  {
    assert xs == [xs[0]] + xs[1..];
  }

  lemma SortedHeadsAgree<T(!new)>(le: (T, T) -> bool, xs: seq<T>, ys: seq<T>)
    requires TotalPreorder(le) && Separates(le, xs)
    requires SortedBy(le, xs) && SortedBy(le, ys) && multiset(xs) == multiset(ys) && xs != []
    ensures ys != [] && xs[0] == ys[0] && multiset(xs[1..]) == multiset(ys[1..])
  {
    assert |ys| == |multiset(ys)| == |multiset(xs)|;
    assert xs[0] in multiset(ys) && ys[0] in multiset(xs);
    HeadIsLeast(le, xs, ys[0]);
    HeadIsLeast(le, ys, xs[0]);
    TailCounts(xs);
    TailCounts(ys);
  }

  /** A multiset has one sorted form, once the order tells its elements apart. */
  lemma {:induction false} SortedFormIsUnique<T(!new)>(le: (T, T) -> bool, xs: seq<T>, ys: seq<T>)
    requires TotalPreorder(le) && Separates(le, xs)
    requires SortedBy(le, xs) && SortedBy(le, ys) && multiset(xs) == multiset(ys)
    ensures xs == ys
  {
    if xs == [] {
      assert |ys| == |multiset(ys)|;
    } else {
      SortedHeadsAgree(le, xs, ys);
      SortedFormIsUnique(le, xs[1..], ys[1..]);
    }
  }

  lemma SortOfSorted<T(!new)>(le: (T, T) -> bool, xs: seq<T>, sorted: seq<T>)
    requires TotalPreorder(le) && Separates(le, sorted)
    requires SortedBy(le, sorted) && multiset(xs) == multiset(sorted)
    ensures Sort(le, xs) == sorted
  {
    SortIsSorted(le, xs);
    SortedFormIsUnique(le, sorted, Sort(le, xs));
  }

  lemma {:induction false} FilterCounts<T(!new)>(keep: T -> bool, xs: seq<T>, x: T)
    ensures multiset(Filter(keep, xs))[x] == if keep(x) then multiset(xs)[x] else 0
  {
    if xs != [] {
      FilterCounts(keep, xs[1..], x);
      assert xs == [xs[0]] + xs[1..];
    }
  }

  lemma {:induction false} FilterIsSorted<T(!new)>(le: (T, T) -> bool, keep: T -> bool, xs: seq<T>)
    requires SortedBy(le, xs)
    ensures SortedBy(le, Filter(keep, xs))
  {
    if xs != [] {
      FilterIsSorted(le, keep, xs[1..]);
      var rest := Filter(keep, xs[1..]);
      forall k | 0 <= k < |rest|
        ensures le(xs[0], rest[k])
      {
        assert rest[k] in xs[1..];
      }
    }
  }

  /** Dropping elements before the sort or after it makes no difference. */
  lemma FilterOfSort<T(!new)>(le: (T, T) -> bool, keep: T -> bool, xs: seq<T>)
    requires TotalPreorder(le) && Separates(le, xs)
    ensures Filter(keep, Sort(le, xs)) == Sort(le, Filter(keep, xs))
  {
    var kept := Filter(keep, xs);
    var sorted := Filter(keep, Sort(le, xs));
    SortIsSorted(le, xs);
    FilterIsSorted(le, keep, Sort(le, xs));
    forall x
      ensures multiset(kept)[x] == multiset(sorted)[x]
    {
      FilterCounts(keep, xs, x);
      FilterCounts(keep, Sort(le, xs), x);
    }
    forall x | x in sorted
      ensures x in xs
    {
      assert x in multiset(Sort(le, xs));
    }
    SortOfSorted(le, kept, sorted);
  }

  lemma {:induction false} FilterAgrees<T(!new)>(p: T -> bool, q: T -> bool, xs: seq<T>)
    requires forall x :: x in xs ==> p(x) == q(x)
    ensures Filter(p, xs) == Filter(q, xs)
  {
    if xs != [] {
      FilterAgrees(p, q, xs[1..]);
    }
  }

  lemma {:induction false} FilterTwice<T(!new)>(p: T -> bool, q: T -> bool, xs: seq<T>)
    requires forall x :: x in xs && q(x) ==> p(x)
    ensures Filter(q, Filter(p, xs)) == Filter(q, xs)
  {
    if xs != [] {
      FilterTwice(p, q, xs[1..]);
      if p(xs[0]) {
        assert Filter(p, xs)[1..] == Filter(p, xs[1..]);
      }
    }
  }

  lemma FilterPermutes<T(!new)>(keep: T -> bool, xs: seq<T>, ys: seq<T>)
    requires multiset(xs) == multiset(ys)
    ensures multiset(Filter(keep, xs)) == multiset(Filter(keep, ys))
  {
    forall x
      ensures multiset(Filter(keep, xs))[x] == multiset(Filter(keep, ys))[x]
    {
      FilterCounts(keep, xs, x);
      FilterCounts(keep, ys, x);
    }
  }

  lemma {:induction false} FilterNothing<T(!new)>(keep: T -> bool, xs: seq<T>)
    requires forall x :: x in xs ==> !keep(x)
    ensures Filter(keep, xs) == []
  {
    if xs != [] {
      FilterNothing(keep, xs[1..]);
    }
  }

  lemma {:induction false} FilterAll<T(!new)>(keep: T -> bool, xs: seq<T>)
    requires forall x :: x in xs ==> keep(x)
    ensures Filter(keep, xs) == xs
  {
    if xs != [] {
      FilterAll(keep, xs[1..]);
    }
  }

  lemma Associates<T>(x: T, xs: seq<T>, ys: seq<T>)
    ensures [x] + xs + ys == [x] + (xs + ys)
  {
  }

  lemma {:induction false} FilterSplits<T(!new)>(keep: T -> bool, xs: seq<T>, ys: seq<T>)
    ensures Filter(keep, xs + ys) == Filter(keep, xs) + Filter(keep, ys)
  {
    if xs == [] {
      assert xs + ys == ys;
    } else {
      FilterSplits(keep, xs[1..], ys);
      assert (xs + ys)[1..] == xs[1..] + ys;
      Associates(xs[0], Filter(keep, xs[1..]), Filter(keep, ys));
    }
  }

  lemma {:induction false} FilterStart<T(!new)>(keep: T -> bool, xs: seq<T>, to: nat)
    requires to <= |xs| && forall i :: 0 <= i < |xs| ==> (keep(xs[i]) <==> i < to)
    ensures Filter(keep, xs) == xs[..to]
  {
    if to == 0 {
      FilterNothing(keep, xs);
    } else {
      FilterStart(keep, xs[1..], to - 1);
      assert [xs[0]] + xs[1..][..to - 1] == xs[..to];
    }
  }

  /** Elements that lie together are filtered out as one stretch. */
  lemma {:induction false} FilterStretch<T(!new)>(keep: T -> bool, xs: seq<T>, from: nat, to: nat)
    requires from <= to <= |xs|
    requires forall i :: 0 <= i < |xs| ==> (keep(xs[i]) <==> from <= i < to)
    ensures Filter(keep, xs) == xs[from..to]
  {
    if from == 0 {
      FilterStart(keep, xs, to);
    } else {
      FilterStretch(keep, xs[1..], from - 1, to - 1);
      assert xs[1..][from - 1..to - 1] == xs[from..to];
    }
  }

  lemma FilterLast<T(!new)>(keep: T -> bool, xs: seq<T>, x: T)
    ensures Filter(keep, xs + [x]) == Filter(keep, xs) + if keep(x) then [x] else []
  {
    FilterSplits(keep, xs, [x]);
  }
}
