/** Canonical evidence records and their four renderings
    (evals/education_memory_counterfactual/representation.py: annotated, render, pack). */
module Evidence {
  import opened Options
  import opened Reference
  import opened Sorting

  // ---- Records -----------------------------------------------------------------------------

  datatype Kernel = Structure | Knowledge | Human | Worth | Practice | Foreign(name: string)

  const KERNELS := [Structure, Knowledge, Human, Worth, Practice]

  datatype RecordKind = Graded | Budgeted | Supporting | Prioritized | Anchored | Gap | SelfReport

  datatype RecordId = RecordId(event: int, kind: RecordKind, suffix: string)

  /** A stored value; only its truth matters here. */
  datatype Datum = Nothing | Flag(b: bool) | Words(s: string) | Number(n: int)

  predicate Truthy(d: Datum) {
    match d
    case Nothing => false
    case Flag(b) => b
    case Words(s) => s != ""
    case Number(n) => n != 0
  }

  /** A saved time: its text, and the instant it denotes if it is not empty. */
  datatype Time = Time(text: string, instant: Option<int>)

  datatype Validity = Current | Expired | NotApplicable

  datatype Condition = Unassisted | Assisted | Unclear

  /** The derived, read-only annotation of the gated variants. */
  datatype Notes = Notes(validity: Validity, condition: Option<Condition>, notVerified: bool)

  datatype Record = Record(
    id: RecordId, kernel: Kernel, kind: RecordKind, occurredAt: string, expiresAt: Time, source: int,
    attempt: Option<int>, facts: seq<int>, mutations: set<int>, scope: Scope, content: map<string, Datum>,
    eligibility: Option<Notes>)

  function Value(content: map<string, Datum>, key: string): Datum {
    if key in content then content[key] else Nothing
  }

  function Annotated(r: Record, now: int): Record {
    var applicable := Value(r.content, "status") in {Nothing, Words("active")}
                      && !Truthy(Value(r.content, "cancelled")) && !Truthy(Value(r.content, "diagnostic_only"));
    var validity := if !applicable then NotApplicable
                    else if r.expiresAt.instant.Some? && r.expiresAt.instant.value <= now then Expired
                    else Current;
    var help := Value(r.content, "assistance_level");
    var condition := if !r.kind.Graded? then None
                     else if help == Words("none") then Some(Unassisted)
                     else if help in {Words("guided"), Words("hint"), Words("answer"), Words("solution"), Words("full"), Words("partial")} then
                       Some(Assisted)
                     else Some(Unclear);
    r.(eligibility := Some(Notes(validity, condition, r.kind.SelfReport? || r.kind.Gap?)))
  }

  function Cleaned(r: Record): Record {
    r.(eligibility := None)
  }

  // ---- Renderings --------------------------------------------------------------------------

  datatype Variant = Variant(grouped: bool, gated: bool)

  const VARIANTS := [Variant(true, true), Variant(false, true), Variant(true, false), Variant(false, false)]

  datatype Rendering = Flat(records: seq<Record>) | Grouped(groups: seq<seq<Record>>)

  function Shown(records: seq<Record>, now: int, gated: bool): (r: seq<Record>)
    ensures |r| == |records|
    ensures forall i :: 0 <= i < |r| ==> r[i] == if gated then Annotated(records[i], now) else records[i]
  {
    seq(|records|, i requires 0 <= i < |records| => if gated then Annotated(records[i], now) else records[i])
  }

  function GroupsBy(records: seq<Record>, kernels: seq<Kernel>): seq<seq<Record>> {
    if kernels == [] then [] else [Filter((r: Record) => r.kernel == kernels[0], records)] + GroupsBy(records, kernels[1..])
  }

  function Render(records: seq<Record>, now: int, v: Variant): Rendering {
    var shown := Shown(records, now, v.gated);
    if v.grouped then Grouped(GroupsBy(shown, KERNELS)) else Flat(shown)
  }

  // ---- What a rendering shows --------------------------------------------------------------

  /** The record says of itself that it does not apply: its status is not active, or it is cancelled or was only
      meant as a diagnosis. */
  ghost predicate IsSetAside(r: Record) {
    || ("status" in r.content && r.content["status"] != Nothing && r.content["status"] != Words("active"))
    || ("cancelled" in r.content && Truthy(r.content["cancelled"]))
    || ("diagnostic_only" in r.content && Truthy(r.content["diagnostic_only"]))
  }

  ghost predicate HelpLevelIs(r: Record, levels: set<string>) {
    "assistance_level" in r.content && r.content["assistance_level"].Words? && r.content["assistance_level"].s in levels
  }

  const HELPED := {"guided", "hint", "answer", "solution", "full", "partial"}

  /** What the annotation adds to a record, and that it adds nothing else. */
  lemma AnnotationMeans(r: Record, now: int)
    ensures
      var a := Annotated(r, now);
      && a.eligibility.Some? && a.(eligibility := None) == r.(eligibility := None)
      && var n := a.eligibility.value;
         && (n.validity.NotApplicable? <==> IsSetAside(r))
         && (n.validity.Expired? <==> !IsSetAside(r) && r.expiresAt.instant.Some? && r.expiresAt.instant.value <= now)
         && (n.condition.None? <==> !r.kind.Graded?)
         && (n.condition == Some(Unassisted) <==> r.kind.Graded? && HelpLevelIs(r, {"none"}))
         && (n.condition == Some(Assisted) <==> r.kind.Graded? && HelpLevelIs(r, HELPED))
         && (n.notVerified <==> r.kind.SelfReport? || r.kind.Gap?)
  {
  }

  /** The gated variants show every record annotated, the others as it is, in the order given; the grouped ones
      one group for each of the five kernels, with exactly its records, in that order. */
  lemma RenderMeans(records: seq<Record>, now: int, v: Variant)
    ensures
      var shown := Shown(records, now, v.gated);
      && |shown| == |records|
      && (forall i :: 0 <= i < |records| ==> shown[i] == if v.gated then Annotated(records[i], now) else records[i])
      && match Render(records, now, v)
         case Flat(all) => !v.grouped && all == shown
         case Grouped(groups) =>
           && v.grouped && |groups| == 5
           && groups[0] == Filter((r: Record) => r.kernel == Structure, shown)
           && groups[1] == Filter((r: Record) => r.kernel == Knowledge, shown)
           && groups[2] == Filter((r: Record) => r.kernel == Human, shown)
           && groups[3] == Filter((r: Record) => r.kernel == Worth, shown)
           && groups[4] == Filter((r: Record) => r.kernel == Practice, shown)
  {
    var shown := Shown(records, now, v.gated);
    if v.grouped {
      GroupsAt(shown, KERNELS, 0);
      GroupsAt(shown, KERNELS, 1);
      GroupsAt(shown, KERNELS, 2);
      GroupsAt(shown, KERNELS, 3);
      GroupsAt(shown, KERNELS, 4);
    }
  }

  lemma {:induction false} GroupsAt(records: seq<Record>, kernels: seq<Kernel>, i: nat)
    requires i < |kernels|
    ensures |GroupsBy(records, kernels)| == |kernels|
    ensures GroupsBy(records, kernels)[i] == Filter((r: Record) => r.kernel == kernels[i], records)
  {
    GroupsCountKernels(records, kernels);
    if i > 0 {
      GroupsAt(records, kernels[1..], i - 1);
      FilterAgrees((r: Record) => r.kernel == kernels[1..][i - 1], (r: Record) => r.kernel == kernels[i], records);
    }
  }

  lemma {:induction false} GroupsCountKernels(records: seq<Record>, kernels: seq<Kernel>)
    ensures |GroupsBy(records, kernels)| == |kernels|
  {
    if kernels != [] {
      GroupsCountKernels(records, kernels[1..]);
    }
  }

  lemma EveryVariant()
    ensures forall v: Variant :: v in VARIANTS
  {
    forall v: Variant
      ensures v in VARIANTS
    {
      assert v == Variant(v.grouped, v.gated);
    }
  }

  function Concat(groups: seq<seq<Record>>): seq<Record> {
    if groups == [] then [] else groups[0] + Concat(groups[1..])
  }

  function Flattened(r: Rendering): seq<Record> {
    match r
    case Flat(records) => records
    case Grouped(groups) => Concat(groups)
  }

  function CleanAll(records: seq<Record>): (r: seq<Record>)
    ensures |r| == |records|
    ensures forall i :: 0 <= i < |r| ==> r[i] == Cleaned(records[i])
  {
    if records == [] then [] else [Cleaned(records[0])] + CleanAll(records[1..])
  }

  /** The records a rendering carries, with the annotation taken off again. */
  function Delivered(r: Rendering): seq<Record> {
    CleanAll(Flattened(r))
  }

  predicate Native(records: seq<Record>) {
    forall r :: r in records ==> r.kernel in KERNELS && r.eligibility.None?
  }

  lemma {:induction false} GroupsCount(records: seq<Record>, kernels: seq<Kernel>, r: Record)
    requires forall i, j :: 0 <= i < j < |kernels| ==> kernels[i] != kernels[j]
    ensures multiset(Concat(GroupsBy(records, kernels)))[r] == if r.kernel in kernels then multiset(records)[r] else 0
  {
    if kernels != [] {
      var first := Filter((r: Record) => r.kernel == kernels[0], records);
      FilterCounts((r: Record) => r.kernel == kernels[0], records, r);
      GroupsCount(records, kernels[1..], r);
      assert GroupsBy(records, kernels)[1..] == GroupsBy(records, kernels[1..]);
      assert Concat(GroupsBy(records, kernels)) == first + Concat(GroupsBy(records, kernels[1..]));
    }
  }

  /** Grouping by kernel neither loses nor repeats a record. */
  lemma GroupingPermutes(records: seq<Record>)
    requires forall r :: r in records ==> r.kernel in KERNELS
    ensures multiset(Concat(GroupsBy(records, KERNELS))) == multiset(records)
  {
    forall r: Record
      ensures multiset(Concat(GroupsBy(records, KERNELS)))[r] == multiset(records)[r]
    {
      KernelsDiffer();
      GroupsCount(records, KERNELS, r);
      assert r in multiset(records) <==> r in records;
    }
  }

  lemma KernelsDiffer()
    ensures forall i, j :: 0 <= i < j < |KERNELS| ==> KERNELS[i] != KERNELS[j]
  {
  }

  lemma CleanAllJoins(a: seq<Record>, b: seq<Record>)
    ensures CleanAll(a + b) == CleanAll(a) + CleanAll(b)
  {
  }

  lemma {:induction false} CleaningKeepsGroups(records: seq<Record>, kernel: Kernel)
    ensures CleanAll(Filter((r: Record) => r.kernel == kernel, records))
         == Filter((r: Record) => r.kernel == kernel, CleanAll(records))
  {
    if records != [] {
      CleaningKeepsGroups(records[1..], kernel);
      var rest := Filter((r: Record) => r.kernel == kernel, records[1..]);
      CleanAllJoins([records[0]], rest);
      assert CleanAll(records)[1..] == CleanAll(records[1..]);
    }
  }

  lemma {:induction false} CleaningGroups(records: seq<Record>, kernels: seq<Kernel>)
    ensures CleanAll(Concat(GroupsBy(records, kernels))) == Concat(GroupsBy(CleanAll(records), kernels))
  {
    if kernels != [] {
      var first := Filter((r: Record) => r.kernel == kernels[0], records);
      CleaningKeepsGroups(records, kernels[0]);
      CleaningGroups(records, kernels[1..]);
      CleanAllJoins(first, Concat(GroupsBy(records, kernels[1..])));
      assert GroupsBy(records, kernels)[1..] == GroupsBy(records, kernels[1..]);
      assert GroupsBy(CleanAll(records), kernels)[1..] == GroupsBy(CleanAll(records), kernels[1..]);
    }
  }

  /** Every variant delivers exactly the selected records, in some order. */
  lemma DeliveryPermutes(records: seq<Record>, now: int, v: Variant)
    requires Native(records)
    ensures multiset(Delivered(Render(records, now, v))) == multiset(records)
  {
    var shown := Shown(records, now, v.gated);
    assert CleanAll(shown) == records by {
      assert forall i :: 0 <= i < |records| ==> records[i] in records;
    }
    if v.grouped {
      CleaningGroups(shown, KERNELS);
      GroupingPermutes(records);
    }
  }
}
