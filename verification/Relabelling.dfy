/** Packaging a review export under fresh random ids, and undoing it with the coordinator's keys
    (scripts/package_private_teacher_review.py: _index, _load, _new_id, package).

    Random draws are parameters.  The contents of cases are opaque; `shape` says that a row has the fields
    and the constants its table requires. */
module Relabelling {
  import opened Options
  import opened Sequences

  /** A teacher's review inside a rubric: its status, and every other mark. */
  datatype Review = Review(status: string, marks: seq<Option<string>>)

  datatype CaseRow = CaseRow(
    reviewId: string, shape: bool, caseId: string, rubricCase: string, review: Option<Review>, content: string)

  /** A JSON value, as far as field names go. */
  datatype Content = Object(fields: seq<Field>) | Array(items: seq<Content>) | Leaf(text: string)

  datatype Field = Field(name: string, value: Content)

  datatype PlanRow = PlanRow(planId: string, reviewId: string, shape: bool, plan: Content)

  datatype FormRow = FormRow(id: string, status: string, answers: seq<string>)

  datatype KeyRow = KeyRow(planId: string, caseId: string, budget: string, variant: string)

  datatype Export = Export(
    pending: bool, ratingsFilled: Option<int>, declaredCases: int, declaredPlans: int,
    cases: seq<CaseRow>, plans: seq<PlanRow>, caseForms: seq<FormRow>, planForms: seq<FormRow>, keys: seq<KeyRow>)

  function CaseId(): CaseRow -> string { (r: CaseRow) => r.reviewId }
  function PlanId(): PlanRow -> string { (r: PlanRow) => r.planId }
  function FormId(): FormRow -> string { (r: FormRow) => r.id }
  function KeyId(): KeyRow -> string { (r: KeyRow) => r.planId }
  function DataId(): CaseRow -> string { (r: CaseRow) => r.caseId }

  // ---- Indexes -----------------------------------------------------------------------------

  ghost predicate Indexed(ids: seq<string>) {
    ids != [] && "" !in ids && Distinct(ids)
  }

  /** The first row with this id. */
  function Find<T>(rows: seq<T>, id: T -> string, key: string): Option<T> {
    if rows == [] then None
    else if id(rows[0]) == key then Some(rows[0])
    else Find(rows[1..], id, key)
  }

  /** The row of `rows` that another row names. */
  function Named<R, T>(rows: seq<T>, id: T -> string, name: R -> string, missing: T): R -> T {
    (r: R) => match Find(rows, id, name(r)) case Some(row) => row case None => missing
  }

  lemma {:induction false} FindsRow<T>(rows: seq<T>, id: T -> string, i: nat)
    requires i < |rows| && Distinct(Map(id, rows))
    ensures Find(rows, id, id(rows[i])) == Some(rows[i])
  {
    assert forall j :: 0 <= j < |rows| ==> Map(id, rows)[j] == id(rows[j]);
    if i > 0 {
      assert Map(id, rows)[0] != Map(id, rows)[i];
      assert Map(id, rows[1..]) == Map(id, rows)[1..];
      FindsRow(rows[1..], id, i - 1);
    }
  }

  lemma {:induction false} FoundIsThere<T>(rows: seq<T>, id: T -> string, key: string)
    ensures Find(rows, id, key).Some? <==> key in Map(id, rows)
    ensures Find(rows, id, key).Some? ==> Find(rows, id, key).value in rows && id(Find(rows, id, key).value) == key
  {
    if rows != [] {
      FoundIsThere(rows[1..], id, key);
      assert Map(id, rows) == [id(rows[0])] + Map(id, rows[1..]);
    }
  }

  lemma {:induction false} FindAppends<T>(rows: seq<T>, row: T, id: T -> string, key: string)
    ensures Find(rows + [row], id, key)
         == if Find(rows, id, key).Some? then Find(rows, id, key) else if id(row) == key then Some(row) else None
  {
    if rows == [] {
      assert rows + [row] == [row];
    } else {
      FindAppends(rows[1..], row, id, key);
      assert (rows + [row])[1..] == rows[1..] + [row];
    }
  }

  ghost predicate IsIndex<T(!new)>(index: map<string, T>, rows: seq<T>, id: T -> string) {
    forall key :: (key in index <==> Find(rows, id, key).Some?) && (key in index ==> Find(rows, id, key) == Some(index[key]))
  }

  /** The rows by id, unless there is none, or an id is missing or repeated. */
  method Index<T(!new)>(rows: seq<T>, id: T -> string) returns (r: Option<map<string, T>>)
    ensures r.Some? <==> Indexed(Map(id, rows))
    ensures r.Some? ==> IsIndex(r.value, rows, id)
  {
    if rows == [] {
      return None;
    }
    var index: map<string, T> := map[];
    ghost var ids := Map(id, rows);
    for i := 0 to |rows|
      invariant IsIndex(index, rows[..i], id)
      invariant "" !in ids[..i] && Distinct(ids[..i])
    {
      var value := id(rows[i]);
      FoundIsThere(rows[..i], id, value);
      assert Map(id, rows[..i]) == ids[..i];
      assert ids[..i + 1] == ids[..i] + [ids[i]];
      DistinctLast(ids[..i], ids[i]);
      PrefixIsDistinct(ids, i + 1);
      if value == "" {
        assert ids[i] == "";
        return None;
      }
      if value in index {
        return None;
      }
      assert rows[..i + 1] == rows[..i] + [rows[i]];
      forall key
        ensures Find(rows[..i + 1], id, key)
             == if Find(rows[..i], id, key).Some? then Find(rows[..i], id, key) else if value == key then Some(rows[i]) else None
      {
        FindAppends(rows[..i], rows[i], id, key);
      }
      index := index[value := rows[i]];
    }
    assert rows[..|rows|] == rows && ids[..|ids|] == ids;
    return Some(index);
  }

  // ---- Fresh ids ---------------------------------------------------------------------------

  /** New ids for old ones: one each, all different, none of them taken. */
  ghost predicate Fresh(names: map<string, string>, ids: seq<string>, taken: set<string>) {
    && (forall id :: id in names <==> id in ids)
    && (forall a, b :: a in names && b in names && names[a] == names[b] ==> a == b)
    && (forall a :: a in names ==> names[a] !in taken)
  }

  lemma ValuesGrow(names: map<string, string>, id: string, name: string)
    requires id !in names
    ensures names[id := name].Values == names.Values + {name}
  {
    forall v | v in names.Values
      ensures v in names[id := name].Values
    {
      var k :| k in names && names[k] == v;
      assert names[id := name][k] == v;
    }
    assert names[id := name][id] == name;
  }

  const TRIES := 100

  const PREFIXES := {"case_", "plan_"}

  /** The draws from `n` up to `m` differ from each other, and no name given uses one of them. */
  ghost predicate ClearBetween(draw: nat -> string, given: set<string>, n: nat, m: nat) {
    && (forall i: nat, j: nat :: n <= i < j < m ==> draw(i) != draw(j))
    && (forall i: nat, prefix :: n <= i < m && prefix in PREFIXES ==> prefix + draw(i) !in given)
  }

  lemma DrawStaysClear(draw: nat -> string, given: set<string>, n: nat, m: nat, prefix: string)
    ensures prefix in PREFIXES && ClearBetween(draw, given, n, m) && n < m ==>
      ClearBetween(draw, given + {prefix + draw(n)}, n + 1, m)
  {
    if prefix in PREFIXES && ClearBetween(draw, given, n, m) && n < m {
      forall i: nat, other | n + 1 <= i < m && other in PREFIXES
        ensures other + draw(i) != prefix + draw(n)
      {
        NamesDiffer(other, draw(i), prefix, draw(n));
      }
    }
  }

  lemma NamesDiffer(p: string, a: string, q: string, b: string)
    requires p in PREFIXES && q in PREFIXES && a != b
    ensures p + a != q + b
  {
    assert (p + a)[0] == p[0] && (q + b)[0] == q[0];
    assert (p + a)[5..] == a && (q + b)[5..] == b;
  }

  class Allocator {
    const draw: nat -> string
    var given: set<string>
    var drawn: nat

    constructor (draw: nat -> string, given: set<string>)
      ensures this.draw == draw && this.given == given && drawn == 0
    {
      this.draw, this.given, this.drawn := draw, given, 0;
    }

    /** The draws to come, up to draw `m`, collide neither with each other nor with a name given. */
    ghost predicate Clear(m: nat)
      reads this
    {
      ClearBetween(draw, given, drawn, m)
    }

    /** A name nobody has yet, unless a hundred draws in a row are taken. */
    method NewId(prefix: string, ghost m: nat) returns (r: Option<string>)
      modifies this
      ensures r.Some? ==> r.value !in old(given) && prefix <= r.value && given == old(given) + {r.value}
      ensures r.None? ==> given == old(given)
      ensures old(Clear(m) && drawn < m) && prefix in PREFIXES ==> r.Some? && drawn == old(drawn) + 1 && Clear(m)
      ensures r.None? <==> forall i :: old(drawn) <= i < old(drawn) + TRIES ==> prefix + draw(i) in old(given)
    {
      var first := drawn;
      for i := 0 to TRIES
        invariant drawn == first + i && given == old(given)
        invariant forall k :: first <= k < drawn ==> prefix + draw(k) in given
      {
        var value := prefix + draw(drawn);
        drawn := drawn + 1;
        if value !in given {
          assert i > 0 ==> prefix + draw(first) in given;
          DrawStaysClear(draw, given, drawn - 1, m, prefix);
          given := given + {value};
          return Some(value);
        }
      }
      assert prefix + draw(first) in given;
      return None;
    }

    /** A new name for every id; as many clear draws as ids are enough. */
    method NewIds(prefix: string, ids: seq<string>, ghost m: nat) returns (r: Option<map<string, string>>)
      requires Distinct(ids)
      modifies this
      ensures r.Some? ==> Fresh(r.value, ids, old(given)) && given == old(given) + r.value.Values
      ensures r.Some? ==> forall id :: id in r.value ==> prefix <= r.value[id]
      ensures old(Clear(m) && drawn + |ids| <= m) && prefix in PREFIXES ==>
        r.Some? && drawn == old(drawn) + |ids| && Clear(m)
    {
      var names: map<string, string> := map[];
      for i := 0 to |ids|
        invariant Fresh(names, ids[..i], old(given)) && given == old(given) + names.Values
        invariant forall id :: id in names ==> prefix <= names[id]
        invariant old(Clear(m) && drawn + |ids| <= m) && prefix in PREFIXES ==> Clear(m) && drawn == old(drawn) + i
      {
        var name := NewId(prefix, m);
        if name.None? {
          return None;
        }
        assert ids[..i + 1] == ids[..i] + [ids[i]];
        DistinctLast(ids[..i], ids[i]);
        PrefixIsDistinct(ids, i + 1);
        ValuesGrow(names, ids[i], name.value);
        names := names[ids[i] := name.value];
      }
      assert ids[..|ids|] == ids;
      return Some(names);
    }
  }

  // ---- Relabelling -------------------------------------------------------------------------

  datatype CaseKey = CaseKey(reviewId: string, originalReviewId: string, caseId: string)

  datatype PlanKey = PlanKey(
    planId: string, reviewId: string, originalPlanId: string, originalReviewId: string,
    caseId: string, budget: string, variant: string)

  datatype Package = Package(
    cases: seq<CaseRow>, plans: seq<PlanRow>, caseForms: seq<FormRow>, planForms: seq<FormRow>,
    caseKey: seq<CaseKey>, planKey: seq<PlanKey>)

  function At(names: map<string, string>, id: string): string {
    if id in names then names[id] else ""
  }

  function RelabelCase(caseIds: map<string, string>): CaseRow -> CaseRow {
    (r: CaseRow) => var n := At(caseIds, r.reviewId); r.(reviewId := n, caseId := n, rubricCase := n)
  }

  function RelabelPlan(caseIds: map<string, string>, planIds: map<string, string>): PlanRow -> PlanRow {
    (r: PlanRow) => r.(planId := At(planIds, r.planId), reviewId := At(caseIds, r.reviewId))
  }

  const NO_KEY := KeyRow("", "", "", "")

  const NO_FORM := FormRow("", "", [])

  function CaseKeyOf(caseIds: map<string, string>): CaseRow -> CaseKey {
    (r: CaseRow) => CaseKey(At(caseIds, r.reviewId), r.reviewId, r.caseId)
  }

  function PlanKeyOf(caseIds: map<string, string>, planIds: map<string, string>, keys: seq<KeyRow>): PlanRow -> PlanKey {
    (r: PlanRow) => PlanKeyWith(caseIds, planIds, r, Named(keys, KeyId(), PlanId(), NO_KEY)(r))
  }

  function PlanKeyWith(caseIds: map<string, string>, planIds: map<string, string>, r: PlanRow, k: KeyRow): PlanKey {
    PlanKey(At(planIds, r.planId), At(caseIds, r.reviewId), r.planId, r.reviewId, k.caseId, k.budget, k.variant)
  }

  function CaseKeyId(): CaseKey -> string { (k: CaseKey) => k.reviewId }
  function PlanKeyId(): PlanKey -> string { (k: PlanKey) => k.planId }

  /** The coordinator's way back. */
  function RestoreCase(key: seq<CaseKey>): CaseRow -> CaseRow {
    (r: CaseRow) =>
      match Find(key, CaseKeyId(), r.reviewId)
      case Some(k) => r.(reviewId := k.originalReviewId, caseId := k.caseId, rubricCase := k.caseId)
      case None => r
  }

  function RestorePlan(key: seq<PlanKey>): PlanRow -> PlanRow {
    (r: PlanRow) =>
      match Find(key, PlanKeyId(), r.planId)
      case Some(k) => r.(planId := k.originalPlanId, reviewId := k.originalReviewId)
      case None => r
  }

  function RestoreCaseForm(key: seq<CaseKey>): FormRow -> FormRow {
    (f: FormRow) =>
      match Find(key, CaseKeyId(), f.id)
      case Some(k) => f.(id := k.originalReviewId)
      case None => f
  }

  function RestorePlanForm(key: seq<PlanKey>): FormRow -> FormRow {
    (f: FormRow) =>
      match Find(key, PlanKeyId(), f.id)
      case Some(k) => f.(id := k.originalPlanId)
      case None => f
  }

  function RestoreKey(): PlanKey -> KeyRow {
    (k: PlanKey) => KeyRow(k.originalPlanId, k.caseId, k.budget, k.variant)
  }

  /** What relabelling needs of the export. */
  ghost predicate Linked(x: Export) {
    && Distinct(Map(CaseId(), x.cases)) && Distinct(Map(PlanId(), x.plans))
    && Distinct(Map(FormId(), x.caseForms)) && Distinct(Map(FormId(), x.planForms)) && Distinct(Map(KeyId(), x.keys))
    && (forall id :: id in Map(CaseId(), x.cases) <==> id in Map(FormId(), x.caseForms))
    && (forall id :: id in Map(PlanId(), x.plans) <==> id in Map(FormId(), x.planForms))
    && (forall id :: id in Map(PlanId(), x.plans) <==> id in Map(KeyId(), x.keys))
    && (forall r :: r in x.cases ==> r.caseId == r.rubricCase)
    && (forall r :: r in x.plans ==> r.reviewId in Map(CaseId(), x.cases))
  }

  function OldIds(x: Export): set<string> {
    Elements(Map(CaseId(), x.cases)) + Elements(Map(PlanId(), x.plans))
  }

  ghost predicate Renamed(x: Export, caseIds: map<string, string>, planIds: map<string, string>) {
    && Fresh(caseIds, Map(CaseId(), x.cases), OldIds(x))
    && Fresh(planIds, Map(PlanId(), x.plans), OldIds(x) + caseIds.Values)
  }

  /** The package, in whatever order its rows were shuffled. */
  ghost predicate IsPackage(x: Export, caseIds: map<string, string>, planIds: map<string, string>, p: Package) {
    && multiset(p.cases) == multiset(Map(RelabelCase(caseIds), x.cases))
    && multiset(p.plans) == multiset(Map(RelabelPlan(caseIds, planIds), x.plans))
    && p.caseKey == Map(CaseKeyOf(caseIds), x.cases)
    && p.planKey == Map(PlanKeyOf(caseIds, planIds, x.keys), x.plans)
    && |p.caseForms| == |p.cases| && |p.planForms| == |p.plans|
    && (forall i :: 0 <= i < |p.cases| ==> FormFor(p.caseForms[i], x.caseForms, p.cases[i].reviewId, caseIds))
    && (forall i :: 0 <= i < |p.plans| ==> FormFor(p.planForms[i], x.planForms, p.plans[i].planId, planIds))
  }

  /** The blank form of the row now called `name`. */
  ghost predicate FormFor(f: FormRow, forms: seq<FormRow>, name: string, names: map<string, string>) {
    && f.id == name
    && exists id :: id in names && names[id] == name && Find(forms, FormId(), id) == Some(f.(id := id))
  }

  // ---- The way back ------------------------------------------------------------------------

  lemma InMap<A, B>(f: A -> B, xs: seq<A>, x: A)
    requires x in xs
    ensures f(x) in Map(f, xs)
  {
    var i :| 0 <= i < |xs| && xs[i] == x;
    assert Map(f, xs)[i] == f(x);
  }

  lemma CaseKeyFinds(x: Export, caseIds: map<string, string>, planIds: map<string, string>, r: CaseRow)
    requires Linked(x) && Renamed(x, caseIds, planIds) && r in x.cases
    ensures Find(Map(CaseKeyOf(caseIds), x.cases), CaseKeyId(), At(caseIds, r.reviewId)) == Some(CaseKeyOf(caseIds)(r))
  {
    var key := Map(CaseKeyOf(caseIds), x.cases);
    var ids := Map(CaseId(), x.cases);
    var i :| 0 <= i < |x.cases| && x.cases[i] == r;
    forall j | 0 <= j < |x.cases|
      ensures Map(CaseKeyId(), key)[j] == caseIds[ids[j]] && ids[j] in caseIds
    {
      assert ids[j] in ids;
    }
    FindsRow(key, CaseKeyId(), i);
  }

  lemma PlanKeyIdsAreDistinct(x: Export, caseIds: map<string, string>, planIds: map<string, string>, key: seq<PlanKey>)
    requires Linked(x) && Renamed(x, caseIds, planIds) && |key| == |x.plans|
    requires forall j :: 0 <= j < |key| ==> key[j].planId == At(planIds, x.plans[j].planId)
    ensures Distinct(Map(PlanKeyId(), key))
  {
    var ids := Map(PlanId(), x.plans);
    forall j | 0 <= j < |key|
      ensures Map(PlanKeyId(), key)[j] == planIds[ids[j]] && ids[j] in planIds
    {
      assert ids[j] in ids;
    }
  }

  lemma PlanKeyFields(caseIds: map<string, string>, planIds: map<string, string>, keys: seq<KeyRow>, plans: seq<PlanRow>, j: nat)
    requires j < |plans|
    ensures
      var k := Map(PlanKeyOf(caseIds, planIds, keys), plans)[j];
      k.planId == At(planIds, plans[j].planId) && k.originalPlanId == plans[j].planId && k.originalReviewId == plans[j].reviewId
  {
    var k := Named(keys, KeyId(), PlanId(), NO_KEY)(plans[j]);
    assert Map(PlanKeyOf(caseIds, planIds, keys), plans)[j] == PlanKeyWith(caseIds, planIds, plans[j], k);
  }

  lemma PlanKeyFinds(x: Export, caseIds: map<string, string>, planIds: map<string, string>, r: PlanRow)
    requires Linked(x) && Renamed(x, caseIds, planIds) && r in x.plans
    ensures
      var found := Find(Map(PlanKeyOf(caseIds, planIds, x.keys), x.plans), PlanKeyId(), At(planIds, r.planId));
      found.Some? && found.value.originalPlanId == r.planId && found.value.originalReviewId == r.reviewId
  {
    var key := Map(PlanKeyOf(caseIds, planIds, x.keys), x.plans);
    forall j | 0 <= j < |key|
      ensures key[j].planId == At(planIds, x.plans[j].planId)
    {
      PlanKeyFields(caseIds, planIds, x.keys, x.plans, j);
    }
    PlanKeyIdsAreDistinct(x, caseIds, planIds, key);
    var i :| 0 <= i < |x.plans| && x.plans[i] == r;
    PlanKeyFields(caseIds, planIds, x.keys, x.plans, i);
    FindsRow(key, PlanKeyId(), i);
  }

  lemma CasesComeBack(x: Export, caseIds: map<string, string>, planIds: map<string, string>)
    requires Linked(x) && Renamed(x, caseIds, planIds)
    ensures Map(RestoreCase(Map(CaseKeyOf(caseIds), x.cases)), Map(RelabelCase(caseIds), x.cases)) == x.cases
  {
    var key, cases := Map(CaseKeyOf(caseIds), x.cases), Map(RelabelCase(caseIds), x.cases);
    forall i | 0 <= i < |cases|
      ensures RestoreCase(key)(cases[i]) == x.cases[i]
    {
      assert x.cases[i] in x.cases;
      CaseKeyFinds(x, caseIds, planIds, x.cases[i]);
    }
  }

  lemma PlansComeBack(x: Export, caseIds: map<string, string>, planIds: map<string, string>)
    requires Linked(x) && Renamed(x, caseIds, planIds)
    ensures Map(RestorePlan(Map(PlanKeyOf(caseIds, planIds, x.keys), x.plans)), Map(RelabelPlan(caseIds, planIds), x.plans))
         == x.plans
  {
    var key, plans := Map(PlanKeyOf(caseIds, planIds, x.keys), x.plans), Map(RelabelPlan(caseIds, planIds), x.plans);
    forall i | 0 <= i < |plans|
      ensures RestorePlan(key)(plans[i]) == x.plans[i]
    {
      assert x.plans[i] in x.plans;
      PlanKeyFinds(x, caseIds, planIds, x.plans[i]);
    }
  }

  /** The keys restore the cases and the plans, up to their order. */
  lemma RowsComeBack(x: Export, caseIds: map<string, string>, planIds: map<string, string>, p: Package)
    requires Linked(x) && Renamed(x, caseIds, planIds) && IsPackage(x, caseIds, planIds, p)
    ensures multiset(Map(RestoreCase(p.caseKey), p.cases)) == multiset(x.cases)
    ensures multiset(Map(RestorePlan(p.planKey), p.plans)) == multiset(x.plans)
  {
    MapPermutes(RestoreCase(p.caseKey), p.cases, Map(RelabelCase(caseIds), x.cases));
    MapPermutes(RestorePlan(p.planKey), p.plans, Map(RelabelPlan(caseIds, planIds), x.plans));
    CasesComeBack(x, caseIds, planIds);
    PlansComeBack(x, caseIds, planIds);
  }

  /** Looking up one row for each of these names goes through all the rows. */
  lemma NamedInOrder<R, T(!new)>(others: seq<R>, name: R -> string, rows: seq<T>, id: T -> string, missing: T)
    requires Distinct(Map(name, others)) && Distinct(Map(id, rows))
    requires forall k :: k in Map(name, others) <==> k in Map(id, rows)
    ensures multiset(Map(Named(rows, id, name, missing), others)) == multiset(rows)
  {
    var found, names, ids := Map(Named(rows, id, name, missing), others), Map(name, others), Map(id, rows);
    forall i | 0 <= i < |others|
      ensures found[i] in rows && id(found[i]) == names[i]
    {
      assert names[i] in names;
      FoundIsThere(rows, id, names[i]);
    }
    DistinctByKey(found, id, names);
    DistinctByKey(rows, id, ids);
    forall row | row in rows
      ensures row in found
    {
      var j :| 0 <= j < |rows| && rows[j] == row;
      FindsRow(rows, id, j);
      assert ids[j] in ids;
      var i :| 0 <= i < |names| && names[i] == id(row);
      assert found[i] == row;
    }
    SameElementsPermute(found, rows);
  }

  lemma DistinctByKey<T>(rows: seq<T>, id: T -> string, ids: seq<string>)
    requires |ids| == |rows| && Distinct(ids) && forall i :: 0 <= i < |ids| ==> id(rows[i]) == ids[i]
    ensures Distinct(rows)
  {
  }

  lemma RelabelledFrom<A, B>(f: A -> B, xs: seq<A>, ys: seq<B>, y: B) returns (x: A)
    requires multiset(ys) == multiset(Map(f, xs)) && y in ys
    ensures x in xs && y == f(x)
  {
    assert y in multiset(Map(f, xs));
    var i :| 0 <= i < |xs| && Map(f, xs)[i] == y;
    x := xs[i];
  }

  lemma CaseFormComesBack(x: Export, caseIds: map<string, string>, planIds: map<string, string>, p: Package, i: nat)
    requires Linked(x) && Renamed(x, caseIds, planIds) && IsPackage(x, caseIds, planIds, p) && i < |p.cases|
    ensures RestoreCaseForm(p.caseKey)(p.caseForms[i])
         == Named(x.caseForms, FormId(), CaseId(), NO_FORM)(RestoreCase(p.caseKey)(p.cases[i]))
  {
    var r := RelabelledFrom(RelabelCase(caseIds), x.cases, p.cases, p.cases[i]);
    CaseKeyFinds(x, caseIds, planIds, r);
    InMap(CaseId(), x.cases, r);
    assert FormFor(p.caseForms[i], x.caseForms, p.cases[i].reviewId, caseIds);
  }

  lemma PlanFormComesBack(x: Export, caseIds: map<string, string>, planIds: map<string, string>, p: Package, i: nat)
    requires Linked(x) && Renamed(x, caseIds, planIds) && IsPackage(x, caseIds, planIds, p) && i < |p.plans|
    ensures RestorePlanForm(p.planKey)(p.planForms[i])
         == Named(x.planForms, FormId(), PlanId(), NO_FORM)(RestorePlan(p.planKey)(p.plans[i]))
  {
    var r := RelabelledFrom(RelabelPlan(caseIds, planIds), x.plans, p.plans, p.plans[i]);
    PlanKeyFinds(x, caseIds, planIds, r);
    InMap(PlanId(), x.plans, r);
    assert FormFor(p.planForms[i], x.planForms, p.plans[i].planId, planIds);
  }

  lemma CaseFormsAreNamed(x: Export, caseIds: map<string, string>, planIds: map<string, string>, p: Package)
    requires Linked(x) && Renamed(x, caseIds, planIds) && IsPackage(x, caseIds, planIds, p)
    ensures Map(RestoreCaseForm(p.caseKey), p.caseForms)
         == Map(Named(x.caseForms, FormId(), CaseId(), NO_FORM), Map(RestoreCase(p.caseKey), p.cases))
  {
    forall i | 0 <= i < |p.cases|
      ensures RestoreCaseForm(p.caseKey)(p.caseForms[i]) == Named(x.caseForms, FormId(), CaseId(), NO_FORM)(RestoreCase(p.caseKey)(p.cases[i]))
    {
      CaseFormComesBack(x, caseIds, planIds, p, i);
    }
  }

  /** The keys restore the blank forms of the cases, up to their order. */
  lemma CaseFormsComeBack(x: Export, caseIds: map<string, string>, planIds: map<string, string>, p: Package)
    requires Linked(x) && Renamed(x, caseIds, planIds) && IsPackage(x, caseIds, planIds, p)
    ensures multiset(Map(RestoreCaseForm(p.caseKey), p.caseForms)) == multiset(x.caseForms)
  {
    var cases := Map(RestoreCase(p.caseKey), p.cases);
    RowsComeBack(x, caseIds, planIds, p);
    CaseFormsAreNamed(x, caseIds, planIds, p);
    MapPermutes(Named(x.caseForms, FormId(), CaseId(), NO_FORM), cases, x.cases);
    NamedInOrder(x.cases, CaseId(), x.caseForms, FormId(), NO_FORM);
  }

  lemma PlanFormsAreNamed(x: Export, caseIds: map<string, string>, planIds: map<string, string>, p: Package)
    requires Linked(x) && Renamed(x, caseIds, planIds) && IsPackage(x, caseIds, planIds, p)
    ensures Map(RestorePlanForm(p.planKey), p.planForms)
         == Map(Named(x.planForms, FormId(), PlanId(), NO_FORM), Map(RestorePlan(p.planKey), p.plans))
  {
    forall i | 0 <= i < |p.plans|
      ensures RestorePlanForm(p.planKey)(p.planForms[i]) == Named(x.planForms, FormId(), PlanId(), NO_FORM)(RestorePlan(p.planKey)(p.plans[i]))
    {
      PlanFormComesBack(x, caseIds, planIds, p, i);
    }
  }

  lemma PlanFormsComeBack(x: Export, caseIds: map<string, string>, planIds: map<string, string>, p: Package)
    requires Linked(x) && Renamed(x, caseIds, planIds) && IsPackage(x, caseIds, planIds, p)
    ensures multiset(Map(RestorePlanForm(p.planKey), p.planForms)) == multiset(x.planForms)
  {
    var plans := Map(RestorePlan(p.planKey), p.plans);
    RowsComeBack(x, caseIds, planIds, p);
    PlanFormsAreNamed(x, caseIds, planIds, p);
    MapPermutes(Named(x.planForms, FormId(), PlanId(), NO_FORM), plans, x.plans);
    NamedInOrder(x.plans, PlanId(), x.planForms, FormId(), NO_FORM);
  }

  /** The plan key holds the conditions of the export. */
  lemma KeysComeBack(x: Export, caseIds: map<string, string>, planIds: map<string, string>)
    requires Linked(x)
    ensures multiset(Map(RestoreKey(), Map(PlanKeyOf(caseIds, planIds, x.keys), x.plans))) == multiset(x.keys)
  {
    var restored := Map(RestoreKey(), Map(PlanKeyOf(caseIds, planIds, x.keys), x.plans));
    var named := Map(Named(x.keys, KeyId(), PlanId(), NO_KEY), x.plans);
    forall i | 0 <= i < |x.plans|
      ensures restored[i] == named[i]
    {
      InMap(PlanId(), x.plans, x.plans[i]);
      FoundIsThere(x.keys, KeyId(), x.plans[i].planId);
    }
    assert restored == named;
    NamedInOrder(x.plans, PlanId(), x.keys, KeyId(), NO_KEY);
  }

  /** A packaged plan belongs to a packaged case exactly when their originals belong together. */
  lemma JoinsArePreserved(x: Export, caseIds: map<string, string>, planIds: map<string, string>, p: Package, c: CaseRow, q: PlanRow)
    requires Linked(x) && Renamed(x, caseIds, planIds) && IsPackage(x, caseIds, planIds, p)
    requires c in p.cases && q in p.plans
    ensures q.reviewId == c.reviewId <==> RestorePlan(p.planKey)(q).reviewId == RestoreCase(p.caseKey)(c).reviewId
  {
    var r := RelabelledFrom(RelabelCase(caseIds), x.cases, p.cases, c);
    var s := RelabelledFrom(RelabelPlan(caseIds, planIds), x.plans, p.plans, q);
    CaseKeyFinds(x, caseIds, planIds, r);
    PlanKeyFinds(x, caseIds, planIds, s);
    InMap(CaseId(), x.cases, r);
  }

  /** No id of the package occurs in the export. */
  lemma IdsAreFresh(x: Export, caseIds: map<string, string>, planIds: map<string, string>, p: Package, c: CaseRow, q: PlanRow)
    requires Linked(x) && Renamed(x, caseIds, planIds) && IsPackage(x, caseIds, planIds, p)
    requires c in p.cases && q in p.plans
    ensures c.reviewId !in Map(CaseId(), x.cases) && c.reviewId !in Map(PlanId(), x.plans)
    ensures q.planId !in Map(CaseId(), x.cases) && q.planId !in Map(PlanId(), x.plans) && q.planId != c.reviewId
    ensures c.caseId == c.reviewId && c.rubricCase == c.reviewId
  {
    var r := RelabelledFrom(RelabelCase(caseIds), x.cases, p.cases, c);
    var s := RelabelledFrom(RelabelPlan(caseIds, planIds), x.plans, p.plans, q);
    InMap(CaseId(), x.cases, r);
    InMap(PlanId(), x.plans, s);
  }

  lemma NamesAreDistinct(names: map<string, string>, ids: seq<string>, given: set<string>, named: seq<string>)
    requires Fresh(names, ids, given) && Distinct(ids) && |named| == |ids|
    requires forall i :: 0 <= i < |ids| ==> named[i] == At(names, ids[i])
    ensures Distinct(named)
  {
    forall i, j | 0 <= i < j < |named|
      ensures named[i] != named[j]
    {
      assert ids[i] in ids && ids[j] in ids;
    }
  }

  lemma DistinctInAnyOrder(a: seq<string>, b: seq<string>)
    requires Distinct(a) && multiset(a) == multiset(b)
    ensures Distinct(b)
  {
    DistinctIsOnce(a);
    DistinctIsOnce(b);
  }

  /** No id of the package names two rows, whether cases or plans. */
  lemma PackageIdsAreDistinct(x: Export, caseIds: map<string, string>, planIds: map<string, string>, p: Package)
    requires Linked(x) && Renamed(x, caseIds, planIds) && IsPackage(x, caseIds, planIds, p)
    ensures Distinct(Map(CaseId(), p.cases) + Map(PlanId(), p.plans))
  {
    var cases, plans := Map(RelabelCase(caseIds), x.cases), Map(RelabelPlan(caseIds, planIds), x.plans);
    NamesAreDistinct(caseIds, Map(CaseId(), x.cases), OldIds(x), Map(CaseId(), cases));
    NamesAreDistinct(planIds, Map(PlanId(), x.plans), OldIds(x) + caseIds.Values, Map(PlanId(), plans));
    MapPermutes(CaseId(), p.cases, cases);
    MapPermutes(PlanId(), p.plans, plans);
    DistinctInAnyOrder(Map(CaseId(), cases), Map(CaseId(), p.cases));
    DistinctInAnyOrder(Map(PlanId(), plans), Map(PlanId(), p.plans));
    forall n | n in Map(CaseId(), p.cases)
      ensures n !in Map(PlanId(), p.plans)
    {
      CaseNames(x, caseIds, planIds, p.cases);
      PlanNames(x, caseIds, planIds, p.plans);
    }
    DistinctJoins(Map(CaseId(), p.cases), Map(PlanId(), p.plans));
  }

  // ---- Loading -----------------------------------------------------------------------------

  predicate Unscored(f: FormRow) {
    f.status == "pending" && forall a :: a in f.answers ==> a == ""
  }

  predicate CaseFits(r: CaseRow) {
    && r.shape && r.caseId != "" && r.caseId == r.rubricCase
    && r.review.Some? && r.review.value.status == "pending"
    && forall m :: m in r.review.value.marks ==> m in {None, Some("")}
  }

  const PLAN_FIELDS := {"title", "objective", "estimated_minutes", "session_focus", "phases"}

  const INTERNAL_FIELDS := {"variant", "budget", "policy_version", "schema_version", "source_kind",
                            "source_event_id", "source_event_ids", "source_fact_ids", "source_mutation_ids",
                            "evidence_refs", "evidence_event_ids", "attempt_id", "kernel", "scope",
                            "teaching_preparation_sources", "teaching_constraints", "teaching_decisions",
                            "retrieval_diagnostics", "personalization_basis", "provenance"}

  /** No internal field at any depth. */
  predicate Blind(c: Content) {
    match c
    case Object(fields) => forall i :: 0 <= i < |fields| ==> fields[i].name !in INTERNAL_FIELDS && Blind(fields[i].value)
    case Array(items) => forall i :: 0 <= i < |items| ==> Blind(items[i])
    case Leaf(_) => true
  }

  /** A step into a value: a field's name, or a place in a list. */
  datatype Key = ByName(name: string) | ByPlace(i: nat)

  /** The path leads from `c` to some value. */
  ghost predicate Leads(c: Content, path: seq<Key>)
    decreases |path|
  {
    path == [] ||
    match path[0]
    case ByName(name) => c.Object? && exists f :: f in c.fields && f.name == name && Leads(f.value, path[1..])
    case ByPlace(i) => c.Array? && i < |c.items| && Leads(c.items[i], path[1..])
  }

  /** A plan is blind exactly when no path into it goes through an internal field. */
  lemma {:induction false} BlindIffNoInternalPath(c: Content)
    ensures Blind(c) <==> !exists path: seq<Key>, k: nat :: k < |path| && Leads(c, path) && path[k].ByName? && path[k].name in INTERNAL_FIELDS
    decreases c
  {
    if Blind(c) {
      forall path: seq<Key>, k: nat | k < |path| && Leads(c, path) && path[k].ByName?
        ensures path[k].name !in INTERNAL_FIELDS
      {
        BlindPath(c, path, k);
      }
    } else {
      var path, k := InternalPath(c);
    }
  }

  lemma {:induction false} BlindPath(c: Content, path: seq<Key>, k: nat)
    requires Blind(c) && k < |path| && Leads(c, path) && path[k].ByName?
    ensures path[k].name !in INTERNAL_FIELDS
    decreases |path|
  {
    match path[0] {
      case ByName(name) =>
        var f :| f in c.fields && f.name == name && Leads(f.value, path[1..]);
        var i :| 0 <= i < |c.fields| && c.fields[i] == f;
        assert Blind(c.fields[i].value);
        if k > 0 {
          BlindPath(f.value, path[1..], k - 1);
        }
      case ByPlace(i) =>
        assert Blind(c.items[i]);
        if k > 0 {
          BlindPath(c.items[i], path[1..], k - 1);
        }
    }
  }

  lemma {:induction false} InternalPath(c: Content) returns (path: seq<Key>, k: nat)
    requires !Blind(c)
    ensures k < |path| && Leads(c, path) && path[k].ByName? && path[k].name in INTERNAL_FIELDS
    decreases c
  {
    match c {
      case Object(fields) =>
        var i :| 0 <= i < |fields| && !(fields[i].name !in INTERNAL_FIELDS && Blind(fields[i].value));
        assert fields[i] in fields;
        if fields[i].name in INTERNAL_FIELDS {
          path, k := [ByName(fields[i].name)], 0;
        } else {
          var rest, j := InternalPath(fields[i].value);
          path, k := [ByName(fields[i].name)] + rest, j + 1;
          assert path[1..] == rest;
        }
      case Array(items) =>
        var i :| 0 <= i < |items| && !Blind(items[i]);
        var rest, j := InternalPath(items[i]);
        path, k := [ByPlace(i)] + rest, j + 1;
        assert path[1..] == rest;
      case Leaf(_) => assert false;
    }
  }

  /** The projection shown to a teacher: known fields, a list of phases, and nothing internal. */
  predicate Projected(plan: Content) {
    && plan.Object?
    && (forall f :: f in plan.fields ==> f.name in PLAN_FIELDS)
    && (exists f :: f in plan.fields && f.name == "phases" && f.value.Array?)
    && Blind(plan)
  }

  /** A plan of a known case, bound to that case under a positive budget and a variant. */
  predicate PlanFits(r: PlanRow, c: Option<CaseRow>, k: Option<KeyRow>, number: string -> Option<nat>) {
    && r.shape && Projected(r.plan) && c.Some? && k.Some? && k.value.caseId == c.value.caseId
    && number(k.value.budget).Some? && number(k.value.budget).value > 0 && k.value.variant != ""
  }

  datatype Condition = Condition(caseId: string, budget: Option<nat>, variant: string)

  function ConditionOf(keys: seq<KeyRow>, number: string -> Option<nat>): PlanRow -> Condition {
    (r: PlanRow) =>
      match Find(keys, KeyId(), r.planId)
      case Some(k) => Condition(k.caseId, number(k.budget), k.variant)
      case None => Condition("", None, "")
  }

  ghost predicate CasesFit(cases: seq<CaseRow>) {
    (forall r :: r in cases ==> CaseFits(r)) && Distinct(Map(DataId(), cases))
  }

  ghost predicate PlanFitsIn(r: PlanRow, x: Export, number: string -> Option<nat>) {
    PlanFits(r, Find(x.cases, CaseId(), r.reviewId), Find(x.keys, KeyId(), r.planId), number)
  }

  ghost predicate PlansFit(x: Export, number: string -> Option<nat>) {
    && (forall r :: r in x.plans ==> PlanFitsIn(r, x, number))
    && Distinct(Map(ConditionOf(x.keys, number), x.plans))
  }

  function ReviewId(): PlanRow -> string { (r: PlanRow) => r.reviewId }

  ghost predicate Consistent(x: Export, number: string -> Option<nat>) {
    && x.pending && x.ratingsFilled == Some(0)
    && Indexed(Map(CaseId(), x.cases)) && Indexed(Map(PlanId(), x.plans))
    && Indexed(Map(FormId(), x.caseForms)) && Indexed(Map(FormId(), x.planForms)) && Indexed(Map(KeyId(), x.keys))
    && (forall f :: f in x.caseForms + x.planForms ==> Unscored(f))
    && Elements(Map(CaseId(), x.cases)) == Elements(Map(FormId(), x.caseForms))
    && Elements(Map(PlanId(), x.plans)) == Elements(Map(FormId(), x.planForms)) == Elements(Map(KeyId(), x.keys))
    && x.declaredCases == |x.cases| && x.declaredPlans == |x.plans|
    && CasesFit(x.cases) && PlansFit(x, number)
    && Elements(Map(ReviewId(), x.plans)) == Elements(Map(CaseId(), x.cases))
  }

  // ---- The same, row by row ----------------------------------------------------------------

  /** A table that is not empty, whose rows have different ids, none of them missing. */
  ghost predicate IsTable<T>(rows: seq<T>, id: T -> string) {
    && rows != [] && (forall i :: 0 <= i < |rows| ==> id(rows[i]) != "")
    && forall i, j :: 0 <= i < j < |rows| ==> id(rows[i]) != id(rows[j])
  }

  ghost predicate HasRow<T>(rows: seq<T>, id: T -> string, name: string) {
    exists i :: 0 <= i < |rows| && id(rows[i]) == name
  }

  /** Every row of one table has its row in the other, and the other way round. */
  ghost predicate Corresponds<A, B>(rows: seq<A>, id: A -> string, others: seq<B>, other: B -> string) {
    && (forall i :: 0 <= i < |rows| ==> HasRow(others, other, id(rows[i])))
    && (forall j :: 0 <= j < |others| ==> HasRow(rows, id, other(others[j])))
  }

  ghost predicate IsBlank(f: FormRow) {
    f.status == "pending" && forall i :: 0 <= i < |f.answers| ==> f.answers[i] == ""
  }

  /** A case with one name in its data and its rubric, on which no teacher has ruled. */
  ghost predicate IsOpenCase(r: CaseRow) {
    && r.shape && r.caseId != "" && r.rubricCase == r.caseId && r.review.Some? && r.review.value.status == "pending"
    && forall i :: 0 <= i < |r.review.value.marks| ==> r.review.value.marks[i] == None || r.review.value.marks[i] == Some("")
  }

  /** A plan of the five known fields, a list of phases among them, with no internal field at any depth. */
  ghost predicate IsShownPlan(plan: Content) {
    && plan.Object?
    && (forall i :: 0 <= i < |plan.fields| ==>
          || plan.fields[i].name == "title" || plan.fields[i].name == "objective" || plan.fields[i].name == "estimated_minutes"
          || plan.fields[i].name == "session_focus" || plan.fields[i].name == "phases")
    && (exists i :: 0 <= i < |plan.fields| && plan.fields[i].name == "phases" && plan.fields[i].value.Array?)
    && !exists path: seq<Key>, k: nat :: k < |path| && Leads(plan, path) && path[k].ByName? && path[k].name in INTERNAL_FIELDS
  }

  /** The key binds the plan to its case, under a budget that is a positive number and a variant. */
  ghost predicate Binds(x: Export, number: string -> Option<nat>, r: PlanRow, k: KeyRow) {
    && k in x.keys && k.planId == r.planId
    && (exists c :: c in x.cases && c.reviewId == r.reviewId && c.caseId == k.caseId)
    && number(k.budget).Some? && number(k.budget).value > 0 && k.variant != ""
  }

  ghost predicate SameCondition(number: string -> Option<nat>, k: KeyRow, l: KeyRow) {
    k.caseId == l.caseId && number(k.budget) == number(l.budget) && k.variant == l.variant
  }

  /** Each plan is of the shape its table requires and bound by its key. */
  ghost predicate AreBound(x: Export, number: string -> Option<nat>) {
    forall r :: r in x.plans ==> r.shape && IsShownPlan(r.plan) && exists k :: Binds(x, number, r, k)
  }

  /** No two plans are bound to the same condition. */
  ghost predicate OwnConditions(x: Export, number: string -> Option<nat>) {
    forall i, j, k, l :: 0 <= i < j < |x.plans| && Binds(x, number, x.plans[i], k) && Binds(x, number, x.plans[j], l) ==>
      !SameCondition(number, k, l)
  }

  ghost predicate AreOpenCases(cases: seq<CaseRow>) {
    && (forall r :: r in cases ==> IsOpenCase(r))
    && forall i, j :: 0 <= i < j < |cases| ==> cases[i].caseId != cases[j].caseId
  }

  ghost predicate AllHavePlans(x: Export) {
    forall r :: r in x.cases ==> exists q :: q in x.plans && q.reviewId == r.reviewId
  }

  /** An export that may be packaged: pending, unrated, complete across its tables, and each plan bound to a
      condition of its own. */
  ghost predicate IsReviewable(x: Export, number: string -> Option<nat>) {
    && x.pending && x.ratingsFilled == Some(0) && x.declaredCases == |x.cases| && x.declaredPlans == |x.plans|
    && IsTable(x.cases, CaseId()) && IsTable(x.plans, PlanId())
    && IsTable(x.caseForms, FormId()) && IsTable(x.planForms, FormId()) && IsTable(x.keys, KeyId())
    && Corresponds(x.cases, CaseId(), x.caseForms, FormId())
    && Corresponds(x.plans, PlanId(), x.planForms, FormId()) && Corresponds(x.plans, PlanId(), x.keys, KeyId())
    && (forall f :: f in x.caseForms || f in x.planForms ==> IsBlank(f))
    && AreOpenCases(x.cases) && AllHavePlans(x) && AreBound(x, number) && OwnConditions(x, number)
  }

  lemma IndexedIff<T>(rows: seq<T>, id: T -> string)
    ensures Indexed(Map(id, rows)) <==> IsTable(rows, id)
  {
    var ids := Map(id, rows);
    assert forall i :: 0 <= i < |rows| ==> ids[i] == id(rows[i]);
    assert |ids| == |rows|;
    if Indexed(ids) {
      assert forall i :: 0 <= i < |ids| ==> ids[i] in ids;
    }
  }

  lemma ElementsIff<A, B>(rows: seq<A>, id: A -> string, others: seq<B>, other: B -> string)
    ensures Elements(Map(id, rows)) == Elements(Map(other, others)) <==> Corresponds(rows, id, others, other)
  {
    AllHaveRows(rows, id, others, other);
    AllHaveRows(others, other, rows, id);
  }

  lemma HasRowIff<T>(rows: seq<T>, id: T -> string, name: string)
    ensures name in Elements(Map(id, rows)) <==> HasRow(rows, id, name)
  {
    var ids := Map(id, rows);
    if name in ids {
      var i :| 0 <= i < |ids| && ids[i] == name;
      assert id(rows[i]) == name;
    }
    if HasRow(rows, id, name) {
      var i :| 0 <= i < |rows| && id(rows[i]) == name;
      assert ids[i] == name;
    }
  }

  lemma AllHaveRows<A, B>(rows: seq<A>, id: A -> string, others: seq<B>, other: B -> string)
    ensures Elements(Map(id, rows)) <= Elements(Map(other, others))
       <==> forall i :: 0 <= i < |rows| ==> HasRow(others, other, id(rows[i]))
  {
    var ids, names := Elements(Map(id, rows)), Elements(Map(other, others));
    forall i | 0 <= i < |rows|
      ensures id(rows[i]) in names <==> HasRow(others, other, id(rows[i]))
      ensures id(rows[i]) in ids
    {
      HasRowIff(others, other, id(rows[i]));
      HasRowIff(rows, id, id(rows[i]));
    }
    if forall i :: 0 <= i < |rows| ==> HasRow(others, other, id(rows[i])) {
      forall name | name in ids
        ensures name in names
      {
        HasRowIff(rows, id, name);
      }
    }
  }

  lemma BlankIff(f: FormRow)
    ensures Unscored(f) <==> IsBlank(f)
  {
    assert forall i :: 0 <= i < |f.answers| ==> f.answers[i] in f.answers;
  }

  lemma OpenCaseIff(r: CaseRow)
    ensures CaseFits(r) <==> IsOpenCase(r)
  {
    if r.review.Some? {
      var marks := r.review.value.marks;
      assert forall i :: 0 <= i < |marks| ==> marks[i] in marks;
    }
  }

  lemma ShownPlanIff(plan: Content)
    ensures Projected(plan) <==> IsShownPlan(plan)
  {
    BlindIffNoInternalPath(plan);
    if plan.Object? {
      assert forall i :: 0 <= i < |plan.fields| ==> plan.fields[i] in plan.fields;
    }
  }

  /** The one row with this id. */
  lemma FindIff<T(!new)>(rows: seq<T>, id: T -> string, key: string, row: T)
    requires Distinct(Map(id, rows))
    ensures Find(rows, id, key) == Some(row) <==> row in rows && id(row) == key
  {
    FoundIsThere(rows, id, key);
    if row in rows && id(row) == key {
      var i :| 0 <= i < |rows| && rows[i] == row;
      FindsRow(rows, id, i);
    }
  }

  lemma BindsIff(x: Export, number: string -> Option<nat>, r: PlanRow, k: KeyRow)
    requires Distinct(Map(CaseId(), x.cases)) && Distinct(Map(KeyId(), x.keys))
    ensures r.shape && Projected(r.plan) && Binds(x, number, r, k)
       <==> PlanFitsIn(r, x, number) && Find(x.keys, KeyId(), r.planId) == Some(k)
  {
    FindIff(x.keys, KeyId(), r.planId, k);
    forall c
      ensures Find(x.cases, CaseId(), r.reviewId) == Some(c) <==> c in x.cases && c.reviewId == r.reviewId
    {
      FindIff(x.cases, CaseId(), r.reviewId, c);
    }
  }

  lemma PlanIff(x: Export, number: string -> Option<nat>, r: PlanRow)
    requires Distinct(Map(CaseId(), x.cases)) && Distinct(Map(KeyId(), x.keys))
    ensures PlanFitsIn(r, x, number) <==> r.shape && IsShownPlan(r.plan) && exists k :: Binds(x, number, r, k)
  {
    ShownPlanIff(r.plan);
    forall k
      ensures r.shape && Projected(r.plan) && Binds(x, number, r, k)
         <==> PlanFitsIn(r, x, number) && Find(x.keys, KeyId(), r.planId) == Some(k)
    {
      BindsIff(x, number, r, k);
    }
    if PlanFitsIn(r, x, number) {
      assert Binds(x, number, r, Find(x.keys, KeyId(), r.planId).value);
    }
  }

  lemma ConditionIs(x: Export, number: string -> Option<nat>, r: PlanRow, k: KeyRow)
    requires Distinct(Map(CaseId(), x.cases)) && Distinct(Map(KeyId(), x.keys))
    requires PlanFitsIn(r, x, number) && Binds(x, number, r, k)
    ensures ConditionOf(x.keys, number)(r) == Condition(k.caseId, number(k.budget), k.variant)
  {
    BindsIff(x, number, r, k);
  }

  lemma ConditionsIff(x: Export, number: string -> Option<nat>)
    requires Distinct(Map(CaseId(), x.cases)) && Distinct(Map(KeyId(), x.keys))
    requires forall r :: r in x.plans ==> PlanFitsIn(r, x, number)
    ensures Distinct(Map(ConditionOf(x.keys, number), x.plans))
       <==> OwnConditions(x, number)
  {
    var all := Map(ConditionOf(x.keys, number), x.plans);
    forall i, k | 0 <= i < |x.plans| && Binds(x, number, x.plans[i], k)
      ensures all[i] == Condition(k.caseId, number(k.budget), k.variant)
    {
      ConditionIs(x, number, x.plans[i], k);
    }
    if Distinct(all) {
      forall i, j, k, l | 0 <= i < j < |x.plans| && Binds(x, number, x.plans[i], k) && Binds(x, number, x.plans[j], l)
        ensures !SameCondition(number, k, l)
      {
        assert all[i] != all[j];
      }
    }
    if OwnConditions(x, number) {
      forall i, j | 0 <= i < j < |x.plans|
        ensures all[i] != all[j]
      {
        PlanIff(x, number, x.plans[i]);
        PlanIff(x, number, x.plans[j]);
        var k :| Binds(x, number, x.plans[i], k);
        var l :| Binds(x, number, x.plans[j], l);
        assert !SameCondition(number, k, l);
      }
    }
  }

  lemma CasesIff(x: Export)
    ensures CasesFit(x.cases)
       <==> AreOpenCases(x.cases)
  {
    forall r
      ensures CaseFits(r) <==> IsOpenCase(r)
    {
      OpenCaseIff(r);
    }
    var ids := Map(DataId(), x.cases);
    assert forall i :: 0 <= i < |x.cases| ==> ids[i] == x.cases[i].caseId;
  }

  lemma UsedCasesIff(x: Export)
    requires forall r :: r in x.plans ==> exists c :: c in x.cases && c.reviewId == r.reviewId
    ensures Elements(Map(ReviewId(), x.plans)) == Elements(Map(CaseId(), x.cases))
       <==> AllHavePlans(x)
  {
    AllHaveRows(x.plans, ReviewId(), x.cases, CaseId());
    AllHaveRows(x.cases, CaseId(), x.plans, ReviewId());
    forall i | 0 <= i < |x.plans|
      ensures HasRow(x.cases, CaseId(), x.plans[i].reviewId)
    {
      assert x.plans[i] in x.plans;
    }
    forall r | r in x.cases
      ensures HasRow(x.plans, ReviewId(), r.reviewId) <==> exists q :: q in x.plans && q.reviewId == r.reviewId
    {
      if q :| q in x.plans && q.reviewId == r.reviewId {
        var i :| 0 <= i < |x.plans| && x.plans[i] == q;
      }
    }
  }

  lemma TablesIff(x: Export)
    ensures Indexed(Map(CaseId(), x.cases)) <==> IsTable(x.cases, CaseId())
    ensures Indexed(Map(PlanId(), x.plans)) <==> IsTable(x.plans, PlanId())
    ensures Indexed(Map(FormId(), x.caseForms)) <==> IsTable(x.caseForms, FormId())
    ensures Indexed(Map(FormId(), x.planForms)) <==> IsTable(x.planForms, FormId())
    ensures Indexed(Map(KeyId(), x.keys)) <==> IsTable(x.keys, KeyId())
    ensures Elements(Map(CaseId(), x.cases)) == Elements(Map(FormId(), x.caseForms))
       <==> Corresponds(x.cases, CaseId(), x.caseForms, FormId())
    ensures Elements(Map(PlanId(), x.plans)) == Elements(Map(FormId(), x.planForms))
       <==> Corresponds(x.plans, PlanId(), x.planForms, FormId())
    ensures Elements(Map(PlanId(), x.plans)) == Elements(Map(KeyId(), x.keys)) <==> Corresponds(x.plans, PlanId(), x.keys, KeyId())
  {
    IndexedIff(x.cases, CaseId());
    IndexedIff(x.plans, PlanId());
    IndexedIff(x.caseForms, FormId());
    IndexedIff(x.planForms, FormId());
    IndexedIff(x.keys, KeyId());
    ElementsIff(x.cases, CaseId(), x.caseForms, FormId());
    ElementsIff(x.plans, PlanId(), x.planForms, FormId());
    ElementsIff(x.plans, PlanId(), x.keys, KeyId());
  }

  lemma FormsIff(x: Export)
    ensures (forall f :: f in x.caseForms + x.planForms ==> Unscored(f))
       <==> forall f :: f in x.caseForms || f in x.planForms ==> IsBlank(f)
  {
    forall f
      ensures Unscored(f) <==> IsBlank(f)
    {
      BlankIff(f);
    }
  }

  lemma PlansIff(x: Export, number: string -> Option<nat>)
    requires Distinct(Map(CaseId(), x.cases)) && Distinct(Map(KeyId(), x.keys))
    ensures PlansFit(x, number)
       <==> AreBound(x, number) && OwnConditions(x, number)
  {
    forall r
      ensures PlanFitsIn(r, x, number) <==> r.shape && IsShownPlan(r.plan) && exists k :: Binds(x, number, r, k)
    {
      PlanIff(x, number, r);
    }
    if forall r :: r in x.plans ==> PlanFitsIn(r, x, number) {
      ConditionsIff(x, number);
    }
  }

  lemma AllBoundToCases(x: Export, number: string -> Option<nat>)
    requires AreBound(x, number)
    ensures forall r :: r in x.plans ==> exists c :: c in x.cases && c.reviewId == r.reviewId
  {
    forall r | r in x.plans
      ensures exists c :: c in x.cases && c.reviewId == r.reviewId
    {
      var k :| Binds(x, number, r, k);
    }
  }

  /** What is checked table by table is what makes an export reviewable. */
  lemma ConsistentIffReviewable(x: Export, number: string -> Option<nat>)
    ensures Consistent(x, number) <==> IsReviewable(x, number)
  {
    TablesIff(x);
    FormsIff(x);
    CasesIff(x);
    if IsTable(x.cases, CaseId()) && IsTable(x.keys, KeyId()) {
      PlansIff(x, number);
      if AreBound(x, number) {
        AllBoundToCases(x, number);
        UsedCasesIff(x);
      }
    }
  }

  lemma ConsistentIsLinked(x: Export, number: string -> Option<nat>)
    requires Consistent(x, number)
    ensures Linked(x)
  {
    forall id
      ensures id in Map(CaseId(), x.cases) <==> id in Map(FormId(), x.caseForms)
      ensures id in Map(PlanId(), x.plans) <==> id in Map(FormId(), x.planForms)
      ensures id in Map(PlanId(), x.plans) <==> id in Map(KeyId(), x.keys)
    {
      assert id in Map(CaseId(), x.cases) <==> id in Elements(Map(CaseId(), x.cases));
      assert id in Map(PlanId(), x.plans) <==> id in Elements(Map(PlanId(), x.plans));
    }
    forall r | r in x.plans
      ensures r.reviewId in Map(CaseId(), x.cases)
    {
      assert PlanFitsIn(r, x, number);
      FoundIsThere(x.cases, CaseId(), r.reviewId);
    }
  }

  method CheckCases(cases: seq<CaseRow>) returns (ok: bool)
    ensures ok <==> CasesFit(cases)
  {
    var original: set<string> := {};
    ghost var ids := Map(DataId(), cases);
    for i := 0 to |cases|
      invariant forall k :: 0 <= k < i ==> CaseFits(cases[k])
      invariant original == Elements(ids[..i]) && Distinct(ids[..i])
    {
      OneMoreSeen(ids, i, original);
      if !CaseFits(cases[i]) || cases[i].caseId in original {
        assert cases[i] in cases;
        return false;
      }
      original := original + {cases[i].caseId};
    }
    assert ids[..|ids|] == ids;
    return true;
  }

  /** The condition a plan is bound to, if the plan fits. */
  method CheckPlan(x: Export, r: PlanRow, ai: map<string, CaseRow>, ki: map<string, KeyRow>, number: string -> Option<nat>)
    returns (condition: Option<Condition>)
    requires IsIndex(ai, x.cases, CaseId()) && IsIndex(ki, x.keys, KeyId())
    ensures condition.Some? <==> PlanFitsIn(r, x, number)
    ensures condition.Some? ==> condition.value == ConditionOf(x.keys, number)(r)
  {
    var c := if r.reviewId in ai then Some(ai[r.reviewId]) else None;
    var k := if r.planId in ki then Some(ki[r.planId]) else None;
    assert c == Find(x.cases, CaseId(), r.reviewId) && k == Find(x.keys, KeyId(), r.planId);
    if !PlanFits(r, c, k, number) {
      return None;
    }
    return Some(Condition(k.value.caseId, number(k.value.budget), k.value.variant));
  }

  ghost predicate PlansFitTo(x: Export, number: string -> Option<nat>, i: nat, conditions: set<Condition>)
    requires i <= |x.plans|
  {
    var all := Map(ConditionOf(x.keys, number), x.plans);
    && (forall j :: 0 <= j < i ==> PlanFitsIn(x.plans[j], x, number))
    && conditions == Elements(all[..i]) && Distinct(all[..i])
  }

  /** The next plan is refused exactly if it does not fit or its condition is taken. */
  lemma OnePlanMore(x: Export, number: string -> Option<nat>, i: nat, conditions: set<Condition>)
    requires i < |x.plans| && PlansFitTo(x, number, i, conditions)
    ensures
      var condition := ConditionOf(x.keys, number)(x.plans[i]);
      if PlanFitsIn(x.plans[i], x, number) && condition !in conditions then PlansFitTo(x, number, i + 1, conditions + {condition})
      else !PlansFit(x, number)
  {
    OneMoreSeen(Map(ConditionOf(x.keys, number), x.plans), i, conditions);
    assert x.plans[i] in x.plans;
  }

  lemma AllPlansFit(x: Export, number: string -> Option<nat>, conditions: set<Condition>)
    requires PlansFitTo(x, number, |x.plans|, conditions)
    ensures PlansFit(x, number)
  {
    var all := Map(ConditionOf(x.keys, number), x.plans);
    assert all[..|all|] == all;
  }

  method CheckPlans(x: Export, ai: map<string, CaseRow>, ki: map<string, KeyRow>, number: string -> Option<nat>)
    returns (ok: bool)
    requires IsIndex(ai, x.cases, CaseId()) && IsIndex(ki, x.keys, KeyId())
    ensures ok <==> PlansFit(x, number)
  {
    var conditions: set<Condition> := {};
    for i := 0 to |x.plans|
      invariant PlansFitTo(x, number, i, conditions)
    {
      OnePlanMore(x, number, i, conditions);
      var condition := CheckPlan(x, x.plans[i], ai, ki, number);
      if condition.None? || condition.value in conditions {
        return false;
      }
      conditions := conditions + {condition.value};
    }
    AllPlansFit(x, number, conditions);
    return true;
  }

  datatype Indexes = Indexes(caseForms: map<string, FormRow>, planForms: map<string, FormRow>, keys: map<string, KeyRow>)

  ghost predicate AreIndexes(ix: Indexes, x: Export) {
    && IsIndex(ix.caseForms, x.caseForms, FormId())
    && IsIndex(ix.planForms, x.planForms, FormId())
    && IsIndex(ix.keys, x.keys, KeyId())
  }

  /** Accepts exactly the consistent exports. */
  method Load(x: Export, number: string -> Option<nat>) returns (r: Option<Indexes>)
    ensures r.Some? <==> Consistent(x, number)
    ensures r.Some? ==> AreIndexes(r.value, x)
  {
    if !x.pending || x.ratingsFilled != Some(0) {
      return None;
    }
    var ai := Index(x.cases, CaseId());
    var bi := Index(x.plans, PlanId());
    var afi := Index(x.caseForms, FormId());
    var bfi := Index(x.planForms, FormId());
    var ki := Index(x.keys, KeyId());
    if ai.None? || bi.None? || afi.None? || bfi.None? || ki.None? {
      return None;
    }
    if exists f :: f in x.caseForms + x.planForms && !Unscored(f) {
      return None;
    }
    KeysAreElements(ai.value, x.cases, CaseId());
    KeysAreElements(bi.value, x.plans, PlanId());
    KeysAreElements(afi.value, x.caseForms, FormId());
    KeysAreElements(bfi.value, x.planForms, FormId());
    KeysAreElements(ki.value, x.keys, KeyId());
    if ai.value.Keys != afi.value.Keys || bi.value.Keys != bfi.value.Keys || bi.value.Keys != ki.value.Keys {
      return None;
    }
    if x.declaredCases != |x.cases| || x.declaredPlans != |x.plans| {
      return None;
    }
    var ok := CheckCases(x.cases);
    if !ok {
      return None;
    }
    ok := CheckPlans(x, ai.value, ki.value, number);
    if !ok || Elements(Map(ReviewId(), x.plans)) != ai.value.Keys {
      return None;
    }
    return Some(Indexes(afi.value, bfi.value, ki.value));
  }

  lemma KeysAreElements<T(!new)>(index: map<string, T>, rows: seq<T>, id: T -> string)
    requires IsIndex(index, rows, id)
    ensures index.Keys == Elements(Map(id, rows))
  {
    forall key
      ensures key in index <==> key in Map(id, rows)
    {
      FoundIsThere(rows, id, key);
    }
  }

  // ---- Packaging ---------------------------------------------------------------------------

  /** random.shuffle: from the end, each place changes with a random earlier one or itself. */
  method Shuffle<T>(xs: seq<T>, pick: nat -> nat) returns (ys: seq<T>)
    ensures multiset(ys) == multiset(xs)
  {
    ys := xs;
    var i := |ys|;
    while i > 1
      invariant |ys| == |xs| && 0 <= i <= |ys| && multiset(ys) == multiset(xs)
    {
      i := i - 1;
      var j := pick(i) % (i + 1);
      ys := ys[i := ys[j]][j := ys[i]];
    }
  }

  /** The blank forms of the shuffled rows, under their new names. */
  method FormsFor(names: seq<string>, ids: map<string, string>, forms: seq<FormRow>, index: map<string, FormRow>)
    returns (out: seq<FormRow>)
    requires IsIndex(index, forms, FormId())
    requires forall a, b :: a in ids && b in ids && ids[a] == ids[b] ==> a == b
    requires forall n :: n in names ==> n in ids.Values
    requires forall id :: id in ids ==> id in index
    ensures |out| == |names| && forall i :: 0 <= i < |out| ==> FormFor(out[i], forms, names[i], ids)
  {
    out := [];
    for i := 0 to |names|
      invariant |out| == i && forall k :: 0 <= k < i ==> FormFor(out[k], forms, names[k], ids)
    {
      assert names[i] in names;
      var id :| id in ids && ids[id] == names[i];
      var form := index[id];
      FoundIsThere(forms, FormId(), id);
      assert form.(id := names[i]).(id := id) == form;
      out := out + [form.(id := names[i])];
    }
  }

  lemma NamesAreValues<R>(rows: seq<R>, others: seq<R>, name: R -> string, original: seq<string>, ids: map<string, string>)
    requires multiset(rows) == multiset(others) && |others| == |original|
    requires forall i :: 0 <= i < |others| ==> original[i] in ids && name(others[i]) == ids[original[i]]
    ensures forall n :: n in Map(name, rows) ==> n in ids.Values
  {
    forall n | n in Map(name, rows)
      ensures n in ids.Values
    {
      var i :| 0 <= i < |rows| && name(rows[i]) == n;
      assert rows[i] in multiset(others);
      var j :| 0 <= j < |others| && others[j] == rows[i];
      assert original[j] in ids;
    }
  }

  method RelabelCases(cases: seq<CaseRow>, caseIds: map<string, string>) returns (out: seq<CaseRow>, key: seq<CaseKey>)
    ensures out == Map(RelabelCase(caseIds), cases) && key == Map(CaseKeyOf(caseIds), cases)
  {
    out, key := [], [];
    for i := 0 to |cases|
      invariant |out| == |key| == i
      invariant forall j :: 0 <= j < i ==> out[j] == RelabelCase(caseIds)(cases[j]) && key[j] == CaseKeyOf(caseIds)(cases[j])
    {
      var identifier := At(caseIds, cases[i].reviewId);
      out := out + [cases[i].(reviewId := identifier, caseId := identifier, rubricCase := identifier)];
      key := key + [CaseKey(identifier, cases[i].reviewId, cases[i].caseId)];
    }
  }

  method RelabelPlans(x: Export, keys: map<string, KeyRow>, caseIds: map<string, string>, planIds: map<string, string>)
    returns (out: seq<PlanRow>, key: seq<PlanKey>)
    requires IsIndex(keys, x.keys, KeyId()) && forall r :: r in x.plans ==> r.planId in keys
    ensures out == Map(RelabelPlan(caseIds, planIds), x.plans) && key == Map(PlanKeyOf(caseIds, planIds, x.keys), x.plans)
  {
    out, key := [], [];
    for i := 0 to |x.plans|
      invariant |out| == |key| == i
      invariant forall j :: 0 <= j < i ==> out[j] == RelabelPlan(caseIds, planIds)(x.plans[j])
      invariant forall j :: 0 <= j < i ==> key[j] == PlanKeyOf(caseIds, planIds, x.keys)(x.plans[j])
    {
      var row := x.plans[i];
      assert row in x.plans;
      var k := keys[row.planId];
      assert k == Named(x.keys, KeyId(), PlanId(), NO_KEY)(row);
      out := out + [row.(planId := At(planIds, row.planId), reviewId := At(caseIds, row.reviewId))];
      key := key + [PlanKeyWith(caseIds, planIds, row, k)];
    }
  }

  /** With its keys, a package gives the export back, up to the order of the rows. */
  ghost predicate Restores(p: Package, x: Export) {
    && multiset(Map(RestoreCase(p.caseKey), p.cases)) == multiset(x.cases)
    && multiset(Map(RestorePlan(p.planKey), p.plans)) == multiset(x.plans)
    && multiset(Map(RestoreCaseForm(p.caseKey), p.caseForms)) == multiset(x.caseForms)
    && multiset(Map(RestorePlanForm(p.planKey), p.planForms)) == multiset(x.planForms)
    && multiset(Map(RestoreKey(), p.planKey)) == multiset(x.keys)
  }

  lemma PackageRestores(x: Export, caseIds: map<string, string>, planIds: map<string, string>, p: Package)
    requires Linked(x) && Renamed(x, caseIds, planIds) && IsPackage(x, caseIds, planIds, p)
    ensures Restores(p, x)
  {
    RowsComeBack(x, caseIds, planIds, p);
    CaseFormsComeBack(x, caseIds, planIds, p);
    PlanFormsComeBack(x, caseIds, planIds, p);
    KeysComeBack(x, caseIds, planIds);
  }

  lemma CaseNames(x: Export, caseIds: map<string, string>, planIds: map<string, string>, cases: seq<CaseRow>)
    requires Linked(x) && Renamed(x, caseIds, planIds)
    requires multiset(cases) == multiset(Map(RelabelCase(caseIds), x.cases))
    ensures forall n :: n in Map(CaseId(), cases) ==> n in caseIds.Values
  {
    assert forall i :: 0 <= i < |x.cases| ==> Map(CaseId(), x.cases)[i] in Map(CaseId(), x.cases);
    NamesAreValues(cases, Map(RelabelCase(caseIds), x.cases), CaseId(), Map(CaseId(), x.cases), caseIds);
  }

  lemma PlanNames(x: Export, caseIds: map<string, string>, planIds: map<string, string>, plans: seq<PlanRow>)
    requires Linked(x) && Renamed(x, caseIds, planIds)
    requires multiset(plans) == multiset(Map(RelabelPlan(caseIds, planIds), x.plans))
    ensures forall n :: n in Map(PlanId(), plans) ==> n in planIds.Values
  {
    assert forall i :: 0 <= i < |x.plans| ==> Map(PlanId(), x.plans)[i] in Map(PlanId(), x.plans);
    NamesAreValues(plans, Map(RelabelPlan(caseIds, planIds), x.plans), PlanId(), Map(PlanId(), x.plans), planIds);
  }

  lemma KeysCover<R, T(!new)>(x: Export, index: map<string, T>, rows: seq<T>, id: T -> string, others: seq<R>, name: R -> string)
    requires IsIndex(index, rows, id) && forall k :: k in Map(name, others) <==> k in Map(id, rows)
    ensures forall k :: k in Map(name, others) ==> k in index
  {
    KeysAreElements(index, rows, id);
  }

  /** A packaged case: the new name in all three places, everything else untouched. */
  ghost predicate IsCaseAs(c: CaseRow, r: CaseRow, name: string) {
    && c.reviewId == name && c.caseId == name && c.rubricCase == name
    && c.shape == r.shape && c.review == r.review && c.content == r.content
  }

  ghost predicate IsPlanAs(q: PlanRow, s: PlanRow, name: string, caseName: string) {
    q.planId == name && q.reviewId == caseName && q.shape == s.shape && q.plan == s.plan
  }

  /** The key of the coordinator names the plan and its case, new and old, and its condition. */
  ghost function KeyTo(s: PlanRow, bound: KeyRow, name: string, caseName: string): PlanKey {
    PlanKey(name, caseName, s.planId, s.reviewId, bound.caseId, bound.budget, bound.variant)
  }

  ghost predicate IsInPackage(x: Export, p: Package, s: PlanRow, name: string, caseName: string) {
    && (exists q :: q in p.plans && IsPlanAs(q, s, name, caseName))
    && exists bound :: bound in x.keys && bound.planId == s.planId && KeyTo(s, bound, name, caseName) in p.planKey
  }

  /** Each row is packaged under its new name, and only the keys tell the old one; the forms follow the rows. */
  ghost predicate Hides(x: Export, caseIds: map<string, string>, planIds: map<string, string>, p: Package) {
    && |p.cases| == |x.cases| == |p.caseForms| && |p.plans| == |x.plans| == |p.planForms|
    && (forall r :: r in x.cases ==> r.reviewId in caseIds && exists c :: c in p.cases && IsCaseAs(c, r, caseIds[r.reviewId]))
    && (forall r :: r in x.cases ==> r.reviewId in caseIds && CaseKey(caseIds[r.reviewId], r.reviewId, r.caseId) in p.caseKey)
    && (forall s :: s in x.plans ==> s.planId in planIds && s.reviewId in caseIds)
    && (forall s :: s in x.plans ==> IsInPackage(x, p, s, planIds[s.planId], caseIds[s.reviewId]))
    && (forall i :: 0 <= i < |p.cases| ==> p.caseForms[i].id == p.cases[i].reviewId && IsBlank(p.caseForms[i]))
    && (forall i :: 0 <= i < |p.plans| ==> p.planForms[i].id == p.plans[i].planId && IsBlank(p.planForms[i]))
  }

  lemma HidesCase(x: Export, caseIds: map<string, string>, planIds: map<string, string>, p: Package, r: CaseRow)
    requires Linked(x) && Renamed(x, caseIds, planIds) && IsPackage(x, caseIds, planIds, p) && r in x.cases
    ensures r.reviewId in caseIds && exists c :: c in p.cases && IsCaseAs(c, r, caseIds[r.reviewId])
    ensures CaseKey(caseIds[r.reviewId], r.reviewId, r.caseId) in p.caseKey
  {
    InMap(CaseId(), x.cases, r);
    InMap(RelabelCase(caseIds), x.cases, r);
    InMap(CaseKeyOf(caseIds), x.cases, r);
    var c := RelabelCase(caseIds)(r);
    assert c in multiset(p.cases);
    assert IsCaseAs(c, r, caseIds[r.reviewId]);
  }

  lemma HidesPlan(x: Export, caseIds: map<string, string>, planIds: map<string, string>, p: Package, s: PlanRow)
    requires Linked(x) && Renamed(x, caseIds, planIds) && IsPackage(x, caseIds, planIds, p) && s in x.plans
    ensures s.planId in planIds && s.reviewId in caseIds && IsInPackage(x, p, s, planIds[s.planId], caseIds[s.reviewId])
  {
    InMap(PlanId(), x.plans, s);
    HidesPlanRow(x, caseIds, planIds, p, s);
    KeyNamesPlan(x, caseIds, planIds, s);
    FoundIsThere(x.keys, KeyId(), s.planId);
  }

  lemma HidesPlanRow(x: Export, caseIds: map<string, string>, planIds: map<string, string>, p: Package, s: PlanRow)
    requires IsPackage(x, caseIds, planIds, p) && s in x.plans
    ensures exists q :: q in p.plans && IsPlanAs(q, s, At(planIds, s.planId), At(caseIds, s.reviewId))
  {
    var q := RelabelPlan(caseIds, planIds)(s);
    InMap(RelabelPlan(caseIds, planIds), x.plans, s);
    assert q in multiset(p.plans);
    assert IsPlanAs(q, s, At(planIds, s.planId), At(caseIds, s.reviewId));
  }

  lemma KeyNamesPlan(x: Export, caseIds: map<string, string>, planIds: map<string, string>, s: PlanRow)
    requires s in x.plans
    ensures
      var found := Find(x.keys, KeyId(), s.planId);
      found.Some? ==>
        KeyTo(s, found.value, At(planIds, s.planId), At(caseIds, s.reviewId)) in Map(PlanKeyOf(caseIds, planIds, x.keys), x.plans)
  {
    var i :| 0 <= i < |x.plans| && x.plans[i] == s;
    var k := Named(x.keys, KeyId(), PlanId(), NO_KEY)(s);
    assert Map(PlanKeyOf(caseIds, planIds, x.keys), x.plans)[i] == PlanKeyWith(caseIds, planIds, s, k);
  }

  lemma FormStaysBlank(f: FormRow, forms: seq<FormRow>, name: string, names: map<string, string>)
    requires FormFor(f, forms, name, names) && forall g :: g in forms ==> IsBlank(g)
    ensures f.id == name && IsBlank(f)
  {
    var id :| id in names && names[id] == name && Find(forms, FormId(), id) == Some(f.(id := id));
    FoundIsThere(forms, FormId(), id);
  }

  lemma PackageHides(x: Export, number: string -> Option<nat>, caseIds: map<string, string>, planIds: map<string, string>, p: Package)
    requires Linked(x) && Renamed(x, caseIds, planIds) && IsPackage(x, caseIds, planIds, p) && IsReviewable(x, number)
    ensures Hides(x, caseIds, planIds, p)
  {
    assert |p.cases| == |multiset(p.cases)| && |p.plans| == |multiset(p.plans)|;
    forall r | r in x.cases
      ensures r.reviewId in caseIds && exists c :: c in p.cases && IsCaseAs(c, r, caseIds[r.reviewId])
      ensures CaseKey(caseIds[r.reviewId], r.reviewId, r.caseId) in p.caseKey
    {
      HidesCase(x, caseIds, planIds, p, r);
    }
    forall s | s in x.plans
      ensures s.planId in planIds && s.reviewId in caseIds && IsInPackage(x, p, s, planIds[s.planId], caseIds[s.reviewId])
    {
      HidesPlan(x, caseIds, planIds, p, s);
    }
    forall i | 0 <= i < |p.cases|
      ensures p.caseForms[i].id == p.cases[i].reviewId && IsBlank(p.caseForms[i])
    {
      FormStaysBlank(p.caseForms[i], x.caseForms, p.cases[i].reviewId, caseIds);
    }
    forall i | 0 <= i < |p.plans|
      ensures p.planForms[i].id == p.plans[i].planId && IsBlank(p.planForms[i])
    {
      FormStaysBlank(p.planForms[i], x.planForms, p.plans[i].planId, planIds);
    }
  }

  /** Names that tell a case from a plan, and nothing else. */
  ghost predicate SaysItsKind(caseIds: map<string, string>, planIds: map<string, string>) {
    && (forall id :: id in caseIds ==> "case_" <= caseIds[id])
    && (forall id :: id in planIds ==> "plan_" <= planIds[id])
  }

  method NewNames(x: Export, draw: nat -> string) returns (r: Option<(map<string, string>, map<string, string>)>)
    requires Linked(x)
    ensures r.Some? ==> Renamed(x, r.value.0, r.value.1) && SaysItsKind(r.value.0, r.value.1)
    ensures ClearBetween(draw, OldIds(x), 0, |x.cases| + |x.plans|) ==> r.Some?
  {
    var names := new Allocator(draw, OldIds(x));
    var caseIds := names.NewIds("case_", Map(CaseId(), x.cases), |x.cases| + |x.plans|);
    if caseIds.None? {
      return None;
    }
    var planIds := names.NewIds("plan_", Map(PlanId(), x.plans), |x.cases| + |x.plans|);
    if planIds.None? {
      return None;
    }
    return Some((caseIds.value, planIds.value));
  }

  /** The packaged tables of a loaded export under given names. */
  method Assemble(x: Export, ix: Indexes, caseIds: map<string, string>, planIds: map<string, string>,
                  pickCase: nat -> nat, pickPlan: nat -> nat) returns (p: Package)
    requires Linked(x) && AreIndexes(ix, x) && Renamed(x, caseIds, planIds)
    ensures IsPackage(x, caseIds, planIds, p)
  {
    KeysCover(x, ix.caseForms, x.caseForms, FormId(), x.cases, CaseId());
    KeysCover(x, ix.planForms, x.planForms, FormId(), x.plans, PlanId());
    KeysCover(x, ix.keys, x.keys, KeyId(), x.plans, PlanId());
    forall r | r in x.plans
      ensures r.planId in ix.keys
    {
      InMap(PlanId(), x.plans, r);
    }
    var cases, caseKey := RelabelCases(x.cases, caseIds);
    var plans, planKey := RelabelPlans(x, ix.keys, caseIds, planIds);
    cases := Shuffle(cases, pickCase);
    plans := Shuffle(plans, pickPlan);
    CaseNames(x, caseIds, planIds, cases);
    PlanNames(x, caseIds, planIds, plans);
    var caseForms := FormsFor(Map(CaseId(), cases), caseIds, x.caseForms, ix.caseForms);
    var planForms := FormsFor(Map(PlanId(), plans), planIds, x.planForms, ix.planForms);
    p := Package(cases, plans, caseForms, planForms, caseKey, planKey);
  }

  /** A package of a consistent export, unless the random names keep colliding. */
  method PackageExport(x: Export, number: string -> Option<nat>, draw: nat -> string, pickCase: nat -> nat, pickPlan: nat -> nat)
    returns (p: Option<Package>)
    ensures p.Some? ==> IsReviewable(x, number) && Restores(p.value, x)
    ensures IsReviewable(x, number) && ClearBetween(draw, OldIds(x), 0, |x.cases| + |x.plans|) ==> p.Some?
    ensures p.Some? ==> Distinct(Map(CaseId(), p.value.cases) + Map(PlanId(), p.value.plans))
    ensures p.Some? ==> exists caseIds, planIds ::
      Renamed(x, caseIds, planIds) && SaysItsKind(caseIds, planIds) && Hides(x, caseIds, planIds, p.value)
  {
    var ix := Load(x, number);
    ConsistentIffReviewable(x, number);
    if ix.None? {
      return None;
    }
    ConsistentIsLinked(x, number);
    var names := NewNames(x, draw);
    if names.None? {
      return None;
    }
    var package := Assemble(x, ix.value, names.value.0, names.value.1, pickCase, pickPlan);
    PackageRestores(x, names.value.0, names.value.1, package);
    PackageIdsAreDistinct(x, names.value.0, names.value.1, package);
    PackageHides(x, number, names.value.0, names.value.1, package);
    assert Renamed(x, names.value.0, names.value.1) && SaysItsKind(names.value.0, names.value.1);
    return Some(package);
  }
}
