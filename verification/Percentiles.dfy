/** The interpolated percentile of a bootstrap distribution
    (evals/education_memory_v2/analyze.py: percentile), over exact numbers. */
module Percentiles {
  import opened Sorting

  function AtMost(): (real, real) -> bool {
    (a: real, b: real) => a <= b
  }

  function Ceiling(x: real): int {
    if x == x.Floor as real then x.Floor else x.Floor + 1
  }

  /** The value at a position between the first and the last place of a sorted sequence. */
  function Interpolated(sorted: seq<real>, position: real): real
    requires sorted != [] && 0.0 <= position <= (|sorted| - 1) as real
  {
    var lo, hi := position.Floor, Ceiling(position);
    Along(sorted[lo], sorted[hi], position - lo as real)
  }

  /** The value a fraction of the way from `a` to `b`. */
  function Along(a: real, b: real, t: real): real {
    a + (b - a) * t
  }

  function Percentile(values: seq<real>, p: real): real
    requires values != [] && 0.0 <= p <= 1.0
  {
    Interpolated(Sorted(values), Position(|values|, p))
  }

  function Position(n: nat, p: real): (x: real)
    requires n > 0 && 0.0 <= p <= 1.0
    ensures 0.0 <= x <= (n - 1) as real
  {
    Between(0.0, (n - 1) as real, p);
    assert Along(0.0, (n - 1) as real, p) == (n - 1) as real * p;
    (n - 1) as real * p
  }

  function Sorted(values: seq<real>): (sorted: seq<real>)
    ensures SortedBy(AtMost(), sorted) && |sorted| == |values|
    ensures multiset(sorted) == multiset(values)
  {
    SortIsSorted(AtMost(), values);
    var sorted := Sort(AtMost(), values);
    assert |sorted| == |multiset(sorted)| == |values|;
    sorted
  }

  lemma Between(a: real, b: real, t: real)
    requires a <= b && 0.0 <= t <= 1.0
    ensures a <= Along(a, b, t) <= b
  {
    Product(b - a, t);
    Product(b - a, 1.0 - t);
    assert (b - a) * (1.0 - t) == (b - a) - (b - a) * t;
  }

  lemma Product(a: real, b: real)
    requires a >= 0.0 && b >= 0.0
    ensures a * b >= 0.0
  {
  }

  lemma Grows(d: real, s: real, t: real)
    requires d >= 0.0 && s <= t
    ensures d * s <= d * t
  {
    Product(d, t - s);
    assert d * (t - s) == d * t - d * s;
  }

  lemma Ordered(sorted: seq<real>, i: nat, j: nat)
    requires SortedBy(AtMost(), sorted) && i <= j < |sorted|
    ensures sorted[i] <= sorted[j]
  {
    if i < j {
      assert AtMost()(sorted[i], sorted[j]);
    }
  }

  /** The value lies between its two neighbours. */
  lemma BetweenNeighbours(sorted: seq<real>, x: real)
    requires SortedBy(AtMost(), sorted) && sorted != [] && 0.0 <= x <= (|sorted| - 1) as real
    ensures sorted[x.Floor] <= Interpolated(sorted, x) <= sorted[Ceiling(x)]
  {
    Ordered(sorted, x.Floor, Ceiling(x));
    Between(sorted[x.Floor], sorted[Ceiling(x)], x - x.Floor as real);
  }

  lemma InterpolationIsMonotone(sorted: seq<real>, x: real, y: real)
    requires SortedBy(AtMost(), sorted) && sorted != [] && 0.0 <= x <= y <= (|sorted| - 1) as real
    ensures Interpolated(sorted, x) <= Interpolated(sorted, y)
  {
    BetweenNeighbours(sorted, x);
    BetweenNeighbours(sorted, y);
    if Ceiling(x) <= y.Floor {
      Ordered(sorted, Ceiling(x), y.Floor);
    } else {
      SameCell(sorted, x.Floor, x, y);
    }
  }

  lemma InCell(sorted: seq<real>, lo: nat, x: real)
    requires lo + 1 < |sorted| && lo as real < x < (lo + 1) as real
    ensures Interpolated(sorted, x) == Along(sorted[lo], sorted[lo + 1], x - lo as real)
  {
    assert x.Floor == lo && Ceiling(x) == lo + 1;
  }

  lemma FurtherAlong(a: real, b: real, s: real, t: real)
    requires a <= b && s <= t
    ensures Along(a, b, s) <= Along(a, b, t)
  {
    Grows(b - a, s, t);
  }

  lemma SameCell(sorted: seq<real>, lo: nat, x: real, y: real)
    requires SortedBy(AtMost(), sorted) && lo + 1 < |sorted|
    requires lo as real < x <= y < (lo + 1) as real
    ensures Interpolated(sorted, x) <= Interpolated(sorted, y)
  {
    InCell(sorted, lo, x);
    InCell(sorted, lo, y);
    Ordered(sorted, lo, lo + 1);
    FurtherAlong(sorted[lo], sorted[lo + 1], x - lo as real, y - lo as real);
  }

  /** A percentile lies between the smallest and the greatest value. */
  lemma PercentileIsWithinRange(values: seq<real>, p: real, low: real, high: real)
    requires values != [] && 0.0 <= p <= 1.0
    requires forall v :: v in values ==> low <= v <= high
    ensures low <= Percentile(values, p) <= high
  {
    var sorted, x := Sorted(values), Position(|values|, p);
    BetweenNeighbours(sorted, x);
    assert sorted[x.Floor] in multiset(sorted) && sorted[Ceiling(x)] in multiset(sorted);
    assert sorted[x.Floor] in values && sorted[Ceiling(x)] in values;
  }

  /** A higher level never gives a lower value: the ends of an interval are in order. */
  lemma PercentileIsMonotone(values: seq<real>, p: real, q: real)
    requires values != [] && 0.0 <= p <= q <= 1.0
    ensures Percentile(values, p) <= Percentile(values, q)
  {
    PositionsGrow(|values|, p, q);
    InterpolationIsMonotone(Sorted(values), Position(|values|, p), Position(|values|, q));
  }

  lemma PositionsGrow(n: nat, p: real, q: real)
    requires n > 0 && 0.0 <= p <= q <= 1.0
    ensures Position(n, p) <= Position(n, q)
  {
    Grows((n - 1) as real, p, q);
  }
}
