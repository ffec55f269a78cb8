/** Sharding a track of cases and auditing that the shards observed every condition exactly once
    (evals/education_memory_upgrade/run_suite.py: build_plan; report.py: validate_matrix, audit_and_report). */
module Matrix {
  import opened Sequences

  // ---- The exact matrix --------------------------------------------------------------------

  datatype Condition = Condition(caseId: string, variant: string, budget: int)

  /** `measured`: the row has metrics and no number in it is infinite or undefined. */
  datatype Row = Row(condition: Condition, repeat: int, repetitions: int, measured: bool)

  predicate Once(r: Row) {
    r.repeat == 0 && r.repetitions == 1
  }

  /** One measured row, not repeated, for each case, variant and budget, and no other row. */
  ghost predicate IsMatrix(rows: seq<Row>, cases: seq<string>, variants: seq<string>, budgets: seq<int>) {
    && (forall i :: 0 <= i < |rows| ==> IsOwn(rows[i], cases, variants, budgets))
    && (forall i, j :: 0 <= i < j < |rows| ==> rows[i].condition != rows[j].condition)
    && forall c, v, b :: c in cases && v in variants && b in budgets ==> HasRow(rows, c, v, b)
  }

  ghost predicate HasRow(rows: seq<Row>, c: string, v: string, b: int) {
    exists i :: 0 <= i < |rows| && rows[i].condition == Condition(c, v, b)
  }

  ghost predicate IsOwn(r: Row, cases: seq<string>, variants: seq<string>, budgets: seq<int>) {
    && r.repeat == 0 && r.repetitions == 1 && r.measured
    && r.condition.caseId in cases && r.condition.variant in variants && r.condition.budget in budgets
  }

  lemma AreExpectedIff(rows: seq<Row>, cases: seq<string>, variants: seq<string>, budgets: seq<int>)
    ensures (Conditions(rows) <= Expected(Elements(cases), Elements(variants), Elements(budgets)))
       <==> forall r :: r in rows ==>
              r.condition.caseId in cases && r.condition.variant in variants && r.condition.budget in budgets
  {
    forall r | r in rows
      ensures r.condition in Conditions(rows)
      ensures r.condition in Expected(Elements(cases), Elements(variants), Elements(budgets))
         <==> r.condition.caseId in cases && r.condition.variant in variants && r.condition.budget in budgets
    {
      assert r.condition == Condition(r.condition.caseId, r.condition.variant, r.condition.budget);
    }
  }

  lemma HasRowIff(rows: seq<Row>, c: string, v: string, b: int)
    ensures Condition(c, v, b) in Conditions(rows) <==> HasRow(rows, c, v, b)
  {
    if Condition(c, v, b) in Conditions(rows) {
      var r :| r in rows && r.condition == Condition(c, v, b);
      var i :| 0 <= i < |rows| && rows[i] == r;
      assert rows[i].condition == Condition(c, v, b);
    }
  }

  lemma ExpectedHaveRowsIff(rows: seq<Row>, cases: seq<string>, variants: seq<string>, budgets: seq<int>)
    ensures (Expected(Elements(cases), Elements(variants), Elements(budgets)) <= Conditions(rows))
       <==> forall c, v, b :: c in cases && v in variants && b in budgets ==> HasRow(rows, c, v, b)
  {
    var expected := Expected(Elements(cases), Elements(variants), Elements(budgets));
    forall c, v, b
      ensures Condition(c, v, b) in expected <==> c in cases && v in variants && b in budgets
      ensures Condition(c, v, b) in Conditions(rows) <==> HasRow(rows, c, v, b)
    {
      HasRowIff(rows, c, v, b);
    }
    forall k | k in expected
      ensures k == Condition(k.caseId, k.variant, k.budget)
    {
    }
  }

  /** The rows are accepted exactly when they are such a matrix. */
  lemma ExactIffMatrix(rows: seq<Row>, cases: seq<string>, variants: seq<string>, budgets: seq<int>)
    ensures Exact(rows, cases, variants, budgets) <==> IsMatrix(rows, cases, variants, budgets)
  {
    AreExpectedIff(rows, cases, variants, budgets);
    ExpectedHaveRowsIff(rows, cases, variants, budgets);
    assert forall i :: 0 <= i < |rows| ==> rows[i] in rows;
  }

  function Expected(cases: set<string>, variants: set<string>, budgets: set<int>): set<Condition> {
    set c, v, b | c in cases && v in variants && b in budgets :: Condition(c, v, b)
  }

  function Conditions(rows: seq<Row>): set<Condition> {
    set r | r in rows :: r.condition
  }

  ghost predicate Clean(rows: seq<Row>) {
    && (forall i, j :: 0 <= i < j < |rows| ==> rows[i].condition != rows[j].condition)
    && (forall r :: r in rows ==> Once(r) && r.measured)
  }

  ghost predicate Exact(rows: seq<Row>, cases: seq<string>, variants: seq<string>, budgets: seq<int>) {
    Clean(rows) && Conditions(rows) == Expected(Elements(cases), Elements(variants), Elements(budgets))
  }

  datatype Verdict =
    | Accepted(seen: set<Condition>)
    | Duplicate(condition: Condition)
    | NotOnce
    | Unmeasured(condition: Condition)
    | Incomplete(missing: nat, extra: nat)

  /** Row `i` is the first to be refused, for this reason. */
  ghost predicate RefusedAt(rows: seq<Row>, i: nat, v: Verdict) {
    && i < |rows| && Clean(rows[..i])
    && match v
       case Duplicate(c) => c == rows[i].condition && c in Conditions(rows[..i])
       case NotOnce => rows[i].condition !in Conditions(rows[..i]) && !Once(rows[i])
       case Unmeasured(c) => c == rows[i].condition && c !in Conditions(rows[..i]) && Once(rows[i]) && !rows[i].measured
       case _ => false
  }

  method ValidateMatrix(rows: seq<Row>, cases: seq<string>, variants: seq<string>, budgets: seq<int>) returns (v: Verdict)
    ensures v.Accepted? <==> IsMatrix(rows, cases, variants, budgets)
    ensures v.Accepted? <==> Exact(rows, cases, variants, budgets)
    ensures v.Accepted? ==> v.seen == Expected(Elements(cases), Elements(variants), Elements(budgets))
    ensures v.Incomplete? ==>
      var expected := Expected(Elements(cases), Elements(variants), Elements(budgets));
      && Clean(rows) && v.missing == |expected - Conditions(rows)| && v.extra == |Conditions(rows) - expected|
    ensures !v.Accepted? && !v.Incomplete? ==> exists i :: RefusedAt(rows, i, v)
  {
    ExactIffMatrix(rows, cases, variants, budgets);
    var expected := Expected(Elements(cases), Elements(variants), Elements(budgets));
    var seen: set<Condition> := {};
    for i := 0 to |rows|
      invariant seen == Conditions(rows[..i]) && Clean(rows[..i])
    {
      var row := rows[i];
      NextRow(rows, i);
      if row.condition in seen {
        v := Duplicate(row.condition);
      } else if !Once(row) {
        v := NotOnce;
      } else if !row.measured {
        v := Unmeasured(row.condition);
      } else {
        seen := seen + {row.condition};
        continue;
      }
      assert RefusedAt(rows, i, v);
      return;
    }
    assert rows[..|rows|] == rows;
    if seen != expected {
      return Incomplete(|expected - seen|, |seen - expected|);
    }
    return Accepted(seen);
  }

  /** One more row keeps the matrix clean exactly when it is new, single and measured. */
  lemma NextRow(rows: seq<Row>, i: nat)
    requires i < |rows| && Clean(rows[..i])
    ensures Conditions(rows[..i + 1]) == Conditions(rows[..i]) + {rows[i].condition}
    ensures Clean(rows[..i + 1]) <==> rows[i].condition !in Conditions(rows[..i]) && Once(rows[i]) && rows[i].measured
    ensures !Clean(rows[..i + 1]) ==> !Clean(rows)
  {
    assert rows[..i + 1] == rows[..i] + [rows[i]];
    assert rows[..i + 1][i] == rows[i];
    assert forall r :: r in rows[..i + 1] ==> r in rows;
    if rows[i].condition in Conditions(rows[..i]) {
      var r :| r in rows[..i] && r.condition == rows[i].condition;
      var j :| 0 <= j < i && rows[..i][j] == r;
      assert rows[..i + 1][j].condition == rows[..i + 1][i].condition;
    }
  }

  // ---- How many conditions -----------------------------------------------------------------

  lemma {:induction false} CleanRowsCount(rows: seq<Row>)
    requires Clean(rows)
    ensures |Conditions(rows)| == |rows|
  {
    if rows != [] {
      var n := |rows| - 1;
      assert forall i, j :: 0 <= i < j < n ==> rows[..n][i].condition != rows[..n][j].condition;
      CleanRowsCount(rows[..n]);
      NextRow(rows, n);
      assert rows[..n + 1] == rows;
    }
  }

  lemma OneCaseMore(cases: set<string>, c: string, variants: set<string>, budgets: set<int>)
    requires c in cases
    ensures |Expected(cases, variants, budgets)| == |Expected(cases - {c}, variants, budgets)| + |Expected({c}, variants, budgets)|
  {
    assert Expected(cases, variants, budgets) == Expected(cases - {c}, variants, budgets) + Expected({c}, variants, budgets);
    assert Expected(cases - {c}, variants, budgets) !! Expected({c}, variants, budgets);
  }

  lemma OneVariantMore(c: string, variants: set<string>, v: string, budgets: set<int>)
    requires v in variants
    ensures |Expected({c}, variants, budgets)| == |Expected({c}, variants - {v}, budgets)| + |Expected({c}, {v}, budgets)|
  {
    assert Expected({c}, variants, budgets) == Expected({c}, variants - {v}, budgets) + Expected({c}, {v}, budgets);
    assert Expected({c}, variants - {v}, budgets) !! Expected({c}, {v}, budgets);
  }

  lemma OneMore(n: nat, k: nat)
    requires n > 0
    ensures n * k == (n - 1) * k + k
  {
  }

  lemma {:induction false} BudgetsCount(c: string, v: string, budgets: set<int>)
    ensures |Expected({c}, {v}, budgets)| == |budgets|
    decreases |budgets|
  {
    if forall b :: b !in budgets {
      assert budgets == {} && Expected({c}, {v}, budgets) == {};
    } else {
      var b :| b in budgets;
      BudgetsCount(c, v, budgets - {b});
      assert Expected({c}, {v}, budgets) == Expected({c}, {v}, budgets - {b}) + {Condition(c, v, b)};
    }
  }

  lemma {:induction false} VariantsCount(c: string, variants: set<string>, budgets: set<int>)
    ensures |Expected({c}, variants, budgets)| == |variants| * |budgets|
    decreases |variants|
  {
    if v :| v in variants {
      VariantsCount(c, variants - {v}, budgets);
      BudgetsCount(c, v, budgets);
      OneVariantMore(c, variants, v, budgets);
      OneMore(|variants|, |budgets|);
    } else {
      assert Expected({c}, variants, budgets) == {} && variants == {};
    }
  }

  /** cases x variants x budgets */
  lemma {:induction false} ExpectedCount(cases: set<string>, variants: set<string>, budgets: set<int>)
    ensures |Expected(cases, variants, budgets)| == |cases| * (|variants| * |budgets|)
    decreases |cases|
  {
    if c :| c in cases {
      ExpectedCount(cases - {c}, variants, budgets);
      VariantsCount(c, variants, budgets);
      OneCaseMore(cases, c, variants, budgets);
      OneMore(|cases|, |variants| * |budgets|);
    } else {
      assert Expected(cases, variants, budgets) == {} && cases == {};
    }
  }

  /** An accepted matrix has one row for every case, variant and budget. */
  lemma ExactRowsCount(rows: seq<Row>, cases: seq<string>, variants: seq<string>, budgets: seq<int>)
    requires Exact(rows, cases, variants, budgets)
    requires Distinct(cases) && Distinct(variants) && Distinct(budgets)
    ensures |rows| == |cases| * (|variants| * |budgets|)
  {
    CleanRowsCount(rows);
    ExpectedCount(Elements(cases), Elements(variants), Elements(budgets));
    DistinctCount(cases);
    DistinctCount(variants);
    DistinctCount(budgets);
  }

  // ---- Pooling shards ----------------------------------------------------------------------

  predicate Within(rows: seq<Row>, cases: seq<string>) {
    forall r :: r in rows ==> r.condition.caseId in cases
  }

  predicate Apart(a: seq<string>, b: seq<string>) {
    forall x :: x in a ==> x !in b
  }

  lemma CleanJoins(a: seq<Row>, b: seq<Row>)
    ensures Clean(a + b) <==> Clean(a) && Clean(b) && Conditions(a) !! Conditions(b)
  {
    if Clean(a + b) {
      assert forall i :: 0 <= i < |a| ==> (a + b)[i] == a[i];
      assert forall j :: 0 <= j < |b| ==> (a + b)[|a| + j] == b[j];
      forall c | c in Conditions(a)
        ensures c !in Conditions(b)
      {
        var i :| 0 <= i < |a| && a[i].condition == c;
        assert (a + b)[i].condition == c;
      }
      assert forall r :: r in a || r in b ==> r in a + b;
    } else if Clean(a) && Clean(b) && Conditions(a) !! Conditions(b) {
      forall i, j | 0 <= i < j < |a + b|
        ensures (a + b)[i].condition != (a + b)[j].condition
      {
        if i < |a| <= j {
          assert a[i].condition in Conditions(a) && b[j - |a|].condition in Conditions(b);
        }
      }
    }
  }

  lemma ConditionsJoin(a: seq<Row>, b: seq<Row>)
    ensures Conditions(a + b) == Conditions(a) + Conditions(b)
  {
  }

  /** Two shards with no case in common are each exact if and only if their union is exact and each
      has rows of its own cases only. */
  lemma ExactJoins(a: seq<Row>, casesA: seq<string>, b: seq<Row>, casesB: seq<string>, variants: seq<string>, budgets: seq<int>)
    requires Apart(casesA, casesB)
    ensures Exact(a, casesA, variants, budgets) && Exact(b, casesB, variants, budgets)
       <==> Exact(a + b, casesA + casesB, variants, budgets) && Within(a, casesA) && Within(b, casesB)
  {
    var vs, bs := Elements(variants), Elements(budgets);
    CleanJoins(a, b);
    ConditionsJoin(a, b);
    ExpectedJoins(casesA, casesB, vs, bs);
    ExactIsWithin(a, casesA, vs, bs);
    ExactIsWithin(b, casesB, vs, bs);
    if Within(a, casesA) && Within(b, casesB) && Conditions(a + b) == Expected(Elements(casesA + casesB), vs, bs) {
      ExactSplits(a, casesA, b, casesB, vs, bs);
    }
  }

  lemma ExpectedJoins(a: seq<string>, b: seq<string>, variants: set<string>, budgets: set<int>)
    ensures Expected(Elements(a + b), variants, budgets)
         == Expected(Elements(a), variants, budgets) + Expected(Elements(b), variants, budgets)
    ensures Apart(a, b) ==> Expected(Elements(a), variants, budgets) !! Expected(Elements(b), variants, budgets)
  {
  }

  lemma ExactIsWithin(rows: seq<Row>, cases: seq<string>, variants: set<string>, budgets: set<int>)
    ensures Conditions(rows) == Expected(Elements(cases), variants, budgets) ==> Within(rows, cases)
  {
    if Conditions(rows) == Expected(Elements(cases), variants, budgets) {
      forall r | r in rows
        ensures r.condition.caseId in cases
      {
        assert r.condition in Conditions(rows);
      }
    }
  }

  lemma ExactSplits(a: seq<Row>, casesA: seq<string>, b: seq<Row>, casesB: seq<string>, variants: set<string>, budgets: set<int>)
    requires Apart(casesA, casesB) && Within(a, casesA) && Within(b, casesB)
    requires Conditions(a) + Conditions(b)
          == Expected(Elements(casesA), variants, budgets) + Expected(Elements(casesB), variants, budgets)
    ensures Conditions(a) == Expected(Elements(casesA), variants, budgets)
    ensures Conditions(b) == Expected(Elements(casesB), variants, budgets)
  {
    var ea, eb := Expected(Elements(casesA), variants, budgets), Expected(Elements(casesB), variants, budgets);
    assert forall c :: c in Conditions(a) ==> c.caseId in casesA;
    assert forall c :: c in Conditions(b) ==> c.caseId in casesB;
    assert forall c :: c in ea ==> c.caseId in casesA;
    assert forall c :: c in eb ==> c.caseId in casesB;
    forall c
      ensures c in Conditions(a) <==> c in ea
      ensures c in Conditions(b) <==> c in eb
    {
      assert c in Conditions(a) + Conditions(b) <==> c in ea + eb;
    }
  }

  /** One shard: its planned case ids and its observed rows. */
  datatype Shard = Shard(cases: seq<string>, rows: seq<Row>)

  function PooledCases(shards: seq<Shard>): seq<string> {
    if shards == [] then [] else shards[0].cases + PooledCases(shards[1..])
  }

  function PooledRows(shards: seq<Shard>): seq<Row> {
    if shards == [] then [] else shards[0].rows + PooledRows(shards[1..])
  }

  ghost predicate EachExact(shards: seq<Shard>, variants: seq<string>, budgets: seq<int>) {
    forall s :: s in shards ==> Exact(s.rows, s.cases, variants, budgets)
  }

  ghost predicate EachWithin(shards: seq<Shard>) {
    forall s :: s in shards ==> Within(s.rows, s.cases)
  }

  lemma {:induction false} PooledWithin(shards: seq<Shard>)
    requires EachWithin(shards)
    ensures Within(PooledRows(shards), PooledCases(shards))
  {
    if shards != [] {
      assert shards[0] in shards && forall s :: s in shards[1..] ==> s in shards;
      PooledWithin(shards[1..]);
    }
  }

  /** With no overlap, all shards are accepted if and only if the pool is accepted and no shard holds a
      row of another shard's case. */
  lemma {:induction false} ShardsExactIffPoolExact(shards: seq<Shard>, variants: seq<string>, budgets: seq<int>)
    requires Distinct(PooledCases(shards))
    ensures EachExact(shards, variants, budgets)
       <==> Exact(PooledRows(shards), PooledCases(shards), variants, budgets) && EachWithin(shards)
  {
    if shards == [] {
      assert Expected(Elements<string>([]), Elements(variants), Elements(budgets)) == {};
    } else {
      var first, rest := shards[0], shards[1..];
      DistinctSplits(first.cases, PooledCases(rest));
      ShardsExactIffPoolExact(rest, variants, budgets);
      ExactJoins(first.rows, first.cases, PooledRows(rest), PooledCases(rest), variants, budgets);
      EachOf(shards, variants, budgets);
      if EachWithin(rest) {
        PooledWithin(rest);
      }
    }
  }

  lemma EachOf(shards: seq<Shard>, variants: seq<string>, budgets: seq<int>)
    requires shards != []
    ensures EachExact(shards, variants, budgets)
       <==> Exact(shards[0].rows, shards[0].cases, variants, budgets) && EachExact(shards[1..], variants, budgets)
    ensures EachWithin(shards) <==> Within(shards[0].rows, shards[0].cases) && EachWithin(shards[1..])
  {
    assert shards == [shards[0]] + shards[1..];
  }
}
