/** Strided shards of one track (evals/education_memory_upgrade/run_suite.py: build_plan), and why the
    pooled audit of a complete plan cannot fail (report.py: audit_and_report). */
module Sharding {
  import opened Sequences
  import opened Sorting
  import opened Matrix

  datatype Case = Case(id: string, cluster: string)

  /** xs[from::step] */
  function Stride<T>(xs: seq<T>, from: nat, step: nat): seq<T>
    requires step > 0
    decreases |xs| - from
  {
    if from >= |xs| then [] else [xs[from]] + Stride(xs, from + step, step)
  }

  // ---- Every cluster has one shard ---------------------------------------------------------

  predicate Reaches(from: nat, k: nat, step: nat)
    requires step > 0
    decreases k - from
  {
    k == from || (from + step <= k && Reaches(from + step, k, step))
  }

  lemma {:induction false} StrideHolds<T>(xs: seq<T>, from: nat, step: nat, k: nat)
    requires step > 0 && Distinct(xs) && k < |xs|
    ensures xs[k] in Stride(xs, from, step) <==> Reaches(from, k, step)
    decreases |xs| - from
  {
    if from < |xs| {
      StrideHolds(xs, from + step, step, k);
    }
  }

  lemma {:induction false} ReachesShifts(from: nat, k: nat, step: nat)
    requires 0 < step <= k
    ensures Reaches(from + step, k, step) <==> Reaches(from, k - step, step)
    decreases k - from
  {
    if from + step <= k {
      ReachesShifts(from + step, k, step);
    }
  }

  /** The remainder of `k` by `n`. */
  function ShardOf(k: nat, n: nat): (s: nat)
    requires n > 0
    ensures s < n
  {
    if k < n then k else ShardOf(k - n, n)
  }

  /** xs[s::n] holds the elements whose position is s modulo n. */
  lemma {:induction false} ReachesIffRemainder(s: nat, k: nat, n: nat)
    requires s < n
    ensures Reaches(s, k, n) <==> ShardOf(k, n) == s
    decreases k
  {
    if k >= n {
      ReachesShifts(s, k, n);
      ReachesIffRemainder(s, k - n, n);
    }
  }

  /** With distinct clusters, each is in exactly one of the slices. */
  lemma ClusterHasOneShard<T>(clusters: seq<T>, n: nat, k: nat, s: nat)
    requires s < n && Distinct(clusters) && k < |clusters|
    ensures clusters[k] in Stride(clusters, s, n) <==> s == ShardOf(k, n)
  {
    StrideHolds(clusters, s, n, k);
    ReachesIffRemainder(s, k, n);
  }

  lemma {:induction false} StrideIsInside<T>(xs: seq<T>, from: nat, step: nat, x: T)
    requires step > 0 && x in Stride(xs, from, step)
    ensures x in xs
    decreases |xs| - from
  {
    if x != xs[from] {
      StrideIsInside(xs, from + step, step, x);
    }
  }

  // ---- Every case has one shard ------------------------------------------------------------

  function IdsIn(data: seq<Case>, clusters: seq<string>): seq<string> {
    if data == [] then []
    else (if data[0].cluster in clusters then [data[0].id] else []) + IdsIn(data[1..], clusters)
  }

  /** The case ids of the shards from `s` on. */
  ghost function IdsFrom(data: seq<Case>, clusters: seq<string>, n: nat, s: nat): multiset<string>
    requires s <= n
    decreases n - s
  {
    if s == n then multiset{}
    else multiset(IdsIn(data, Stride(clusters, s, n))) + IdsFrom(data, clusters, n, s + 1)
  }

  lemma {:induction false} NoCaseNoIds(clusters: seq<string>, n: nat, s: nat)
    requires s <= n
    ensures IdsFrom([], clusters, n, s) == multiset{}
    decreases n - s
  {
    if s < n {
      NoCaseNoIds(clusters, n, s + 1);
    }
  }

  predicate HomeFrom(clusters: seq<string>, n: nat, s: nat, cluster: string)
    requires n > 0
  {
    exists k :: 0 <= k < |clusters| && clusters[k] == cluster && s <= ShardOf(k, n)
  }

  lemma HomeHere(clusters: seq<string>, n: nat, s: nat, cluster: string)
    requires s < n && Distinct(clusters)
    ensures HomeFrom(clusters, n, s, cluster)
       <==> cluster in Stride(clusters, s, n) || HomeFrom(clusters, n, s + 1, cluster)
    ensures !(cluster in Stride(clusters, s, n) && HomeFrom(clusters, n, s + 1, cluster))
  {
    if cluster in clusters {
      var k :| 0 <= k < |clusters| && clusters[k] == cluster;
      ClusterHasOneShard(clusters, n, k, s);
    } else if cluster in Stride(clusters, s, n) {
      StrideIsInside(clusters, s, n, cluster);
      assert false;
    }
  }

  lemma {:induction false} OneCase(data: seq<Case>, clusters: seq<string>, n: nat, s: nat)
    requires s <= n && n > 0 && Distinct(clusters) && data != []
    ensures IdsFrom(data, clusters, n, s)
         == IdsFrom(data[1..], clusters, n, s)
            + if HomeFrom(clusters, n, s, data[0].cluster) then multiset{data[0].id} else multiset{}
    decreases n - s
  {
    if s < n {
      OneCase(data, clusters, n, s + 1);
      HomeHere(clusters, n, s, data[0].cluster);
    }
  }

  /** The shards partition the case ids. */
  lemma {:induction false} ShardsPartitionCases(data: seq<Case>, clusters: seq<string>, n: nat)
    requires n > 0 && Distinct(clusters)
    ensures IdsFrom(data, clusters, n, 0) == multiset(IdsIn(data, clusters))
  {
    if data == [] {
      NoCaseNoIds(clusters, n, 0);
    } else {
      OneCase(data, clusters, n, 0);
      ShardsPartitionCases(data[1..], clusters, n);
      var cluster := data[0].cluster;
      assert HomeFrom(clusters, n, 0, cluster) <==> cluster in clusters by {
        if cluster in clusters {
          var k :| 0 <= k < |clusters| && clusters[k] == cluster;
          assert 0 <= ShardOf(k, n);
        }
      }
    }
  }

  // ---- The plan ----------------------------------------------------------------------------

  datatype Planned = Planned(clusters: seq<string>, cases: seq<string>, conditions: nat)

  /** n * k, as a sum. */
  function Times(n: nat, k: nat): nat {
    if n == 0 then 0 else k + Times(n - 1, k)
  }

  lemma {:induction false} TimesIsProduct(n: nat, k: nat)
    ensures Times(n, k) == n * k
  {
    if n > 0 {
      TimesIsProduct(n - 1, k);
      OneMore(n, k);
    }
  }

  lemma {:induction false} TimesAdds(a: nat, b: nat, k: nat)
    ensures Times(a + b, k) == Times(a, k) + Times(b, k)
  {
    if a > 0 {
      TimesAdds(a - 1, b, k);
    }
  }

  ghost predicate IsShard(p: Planned, text: (string, string) -> bool, data: seq<Case>, selected: seq<string>, perCase: nat) {
    && p.clusters == selected
    && SortedBy(text, p.cases) && multiset(p.cases) == multiset(IdsIn(data, selected))
    && p.conditions == Times(|p.cases|, perCase)
  }

  ghost predicate PlanOf(plan: seq<Planned>, text: (string, string) -> bool, data: seq<Case>, clusters: seq<string>,
                         shards: nat, perCase: nat)
    requires shards > 0
  {
    && |plan| == shards
    && forall s :: 0 <= s < shards ==> IsShard(plan[s], text, data, Stride(clusters, s, shards), perCase)
  }

  method BuildTrack(text: (string, string) -> bool, data: seq<Case>, clusters: seq<string>, shards: nat,
                    variants: seq<string>, budgets: seq<int>) returns (plan: seq<Planned>)
    requires TotalPreorder(text) && shards > 0
    ensures PlanOf(plan, text, data, clusters, shards, |variants| * |budgets|)
  {
    plan := [];
    for shard := 0 to shards
      invariant |plan| == shard
      invariant forall s :: 0 <= s < shard ==>
        IsShard(plan[s], text, data, Stride(clusters, s, shards), |variants| * |budgets|)
    {
      var selected := Stride(clusters, shard, shards);
      var job := PlanShard(text, data, selected, |variants| * |budgets|);
      plan := plan + [job];
    }
  }

  method PlanShard(text: (string, string) -> bool, data: seq<Case>, selected: seq<string>, perCase: nat) returns (p: Planned)
    requires TotalPreorder(text)
    ensures IsShard(p, text, data, selected, perCase)
  {
    var ids := Sort(text, IdsIn(data, selected));
    SortIsSorted(text, IdsIn(data, selected));
    p := Planned(selected, ids, Times(|ids|, perCase));
  }

  function TotalConditions(plan: seq<Planned>): nat {
    if plan == [] then 0 else plan[0].conditions + TotalConditions(plan[1..])
  }

  /** What the shards of a plan observed. */
  function Observed(plan: seq<Planned>, rows: seq<seq<Row>>): (r: seq<Shard>)
    requires |rows| == |plan|
    ensures |r| == |plan|
    ensures forall i :: 0 <= i < |r| ==> r[i] == Shard(plan[i].cases, rows[i])
  {
    seq(|plan|, i requires 0 <= i < |plan| => Shard(plan[i].cases, rows[i]))
  }

  lemma PooledSplits(shards: seq<Shard>, s: nat)
    requires s < |shards|
    ensures PooledCases(shards[s..]) == shards[s].cases + PooledCases(shards[s + 1..])
  {
    assert shards[s..][1..] == shards[s + 1..];
  }

  lemma TotalSplits(plan: seq<Planned>, s: nat)
    requires s < |plan|
    ensures TotalConditions(plan[s..]) == plan[s].conditions + TotalConditions(plan[s + 1..])
  {
    assert plan[s..][1..] == plan[s + 1..];
  }

  lemma {:induction false} PlannedCases(plan: seq<Planned>, text: (string, string) -> bool, data: seq<Case>, clusters: seq<string>,
                                        perCase: nat, shards: seq<Shard>, s: nat)
    requires s <= |plan| && plan != [] && PlanOf(plan, text, data, clusters, |plan|, perCase)
    requires |shards| == |plan| && forall i :: 0 <= i < |plan| ==> shards[i].cases == plan[i].cases
    ensures multiset(PooledCases(shards[s..])) == IdsFrom(data, clusters, |plan|, s)
    decreases |plan| - s
  {
    if s < |plan| {
      PlannedCases(plan, text, data, clusters, perCase, shards, s + 1);
      PooledSplits(shards, s);
      assert IsShard(plan[s], text, data, Stride(clusters, s, |plan|), perCase);
    }
  }

  lemma {:induction false} PlannedTotal(plan: seq<Planned>, perCase: nat, shards: seq<Shard>, s: nat)
    requires s <= |plan| && |shards| == |plan|
    requires forall i :: 0 <= i < |plan| ==>
      shards[i].cases == plan[i].cases && plan[i].conditions == Times(|plan[i].cases|, perCase)
    ensures TotalConditions(plan[s..]) == Times(|PooledCases(shards[s..])|, perCase)
    decreases |plan| - s
  {
    if s < |plan| {
      PlannedTotal(plan, perCase, shards, s + 1);
      PooledSplits(shards, s);
      TotalSplits(plan, s);
      TimesAdds(|plan[s].cases|, |PooledCases(shards[s + 1..])|, perCase);
    }
  }

  lemma {:induction false} IdsOfAll(data: seq<Case>, clusters: seq<string>)
    requires forall c :: c in data ==> c.cluster in clusters
    ensures IdsIn(data, clusters) == Ids(data)
  {
    if data != [] {
      IdsOfAll(data[1..], clusters);
    }
  }

  function Ids(data: seq<Case>): seq<string> {
    if data == [] then [] else [data[0].id] + Ids(data[1..])
  }

  /** Distinct clusters that cover the data: the shards partition the cases, and the planned conditions
      are cases x variants x budgets. */
  lemma PlanPartitionsTheTrack(plan: seq<Planned>, text: (string, string) -> bool, data: seq<Case>, clusters: seq<string>,
                               perCase: nat, rows: seq<seq<Row>>)
    requires plan != [] && PlanOf(plan, text, data, clusters, |plan|, perCase) && |rows| == |plan|
    requires Distinct(clusters) && forall c :: c in data ==> c.cluster in clusters
    ensures multiset(PooledCases(Observed(plan, rows))) == multiset(Ids(data))
    ensures TotalConditions(plan) == |Ids(data)| * perCase
  {
    var shards := Observed(plan, rows);
    PlannedCases(plan, text, data, clusters, perCase, shards, 0);
    PlannedTotal(plan, perCase, shards, 0);
    assert shards[0..] == shards && plan[0..] == plan;
    ShardsPartitionCases(data, clusters, |plan|);
    IdsOfAll(data, clusters);
    assert |PooledCases(shards)| == |multiset(PooledCases(shards))| == |multiset(Ids(data))|;
    TimesIsProduct(|Ids(data)|, perCase);
  }

  /** Once every shard of a plan is accepted, the pooled audit finds no overlap, an exact matrix and the
      planned number of rows. */
  lemma PooledAuditCannotFail(plan: seq<Planned>, text: (string, string) -> bool, data: seq<Case>, clusters: seq<string>,
                              variants: seq<string>, budgets: seq<int>, rows: seq<seq<Row>>)
    requires plan != [] && PlanOf(plan, text, data, clusters, |plan|, |variants| * |budgets|) && |rows| == |plan|
    requires Distinct(clusters) && forall c :: c in data ==> c.cluster in clusters
    requires Distinct(Ids(data)) && Distinct(variants) && Distinct(budgets)
    requires EachExact(Observed(plan, rows), variants, budgets)
    ensures
      var shards := Observed(plan, rows);
      && Distinct(PooledCases(shards))
      && Exact(PooledRows(shards), PooledCases(shards), variants, budgets)
      && |PooledRows(shards)| == TotalConditions(plan)
  {
    var shards := Observed(plan, rows);
    PlanPartitionsTheTrack(plan, text, data, clusters, |variants| * |budgets|, rows);
    DistinctIsOnce(Ids(data));
    DistinctIsOnce(PooledCases(shards));
    ShardsExactIffPoolExact(shards, variants, budgets);
    ExactRowsCount(PooledRows(shards), PooledCases(shards), variants, budgets);
    assert |PooledCases(shards)| == |multiset(PooledCases(shards))| == |multiset(Ids(data))|;
  }
}
