/** Choosing the evidence that fits a budget in all four renderings at once
    (evals/education_memory_counterfactual/representation.py: pack). */
module Packing {
  import opened Sequences
  import opened Sorting
  import opened Evidence

  /** The text order of times and of record ids; any total orders will do. */
  datatype Order = Order(text: (string, string) -> bool, id: (RecordId, RecordId) -> bool)

  ghost predicate ProperOrder(o: Order) {
    && TotalPreorder(o.text) && (forall x, y :: o.text(x, y) && o.text(y, x) ==> x == y)
    && TotalPreorder(o.id) && (forall x, y :: o.id(x, y) && o.id(y, x) ==> x == y)
  }

  function Chronological(o: Order): (Record, Record) -> bool {
    (a: Record, b: Record) =>
      if a.occurredAt != b.occurredAt then o.text(a.occurredAt, b.occurredAt)
      else a.source < b.source || (a.source == b.source && o.id(a.id, b.id))
  }

  lemma ChronologicalIsTotal(o: Order)
    requires ProperOrder(o)
    ensures TotalPreorder(Chronological(o))
  {
    var le := Chronological(o);
    forall a, b
      ensures le(a, b) || le(b, a)
    {
      assert o.text(a.occurredAt, b.occurredAt) || o.text(b.occurredAt, a.occurredAt);
      assert o.id(a.id, b.id) || o.id(b.id, a.id);
    }
    forall a, b, c | le(a, b) && le(b, c)
      ensures le(a, c)
    {
      assert o.text(a.occurredAt, b.occurredAt) && o.text(b.occurredAt, c.occurredAt) by {
        assert o.text(a.occurredAt, a.occurredAt) && o.text(b.occurredAt, b.occurredAt);
      }
      assert o.text(a.occurredAt, c.occurredAt);
    }
  }

  // ---- What normalisation hands over -------------------------------------------------------

  ghost predicate DistinctIds(records: seq<Record>) {
    forall i, j :: 0 <= i < j < |records| ==> records[i].id != records[j].id
  }

  /** An id tells a record from all others. */
  ghost predicate UniqueIds(records: seq<Record>) {
    forall x, y :: x in records && y in records && x.id == y.id ==> x == y
  }

  ghost predicate OneTimePerEvent(records: seq<Record>) {
    forall x, y :: x in records && y in records && x.source == y.source ==> x.occurredAt == y.occurredAt
  }

  ghost predicate Canonical(o: Order, records: seq<Record>) {
    SortedBy(Chronological(o), records) && DistinctIds(records) && OneTimePerEvent(records) && Native(records)
  }

  function RecordIds(): Record -> RecordId {
    (r: Record) => r.id
  }

  lemma IdsTellRecords(records: seq<Record>)
    requires DistinctIds(records)
    ensures UniqueIds(records)
  {
    forall x, y | x in records && y in records && x.id == y.id
      ensures x == y
    {
      var i :| 0 <= i < |records| && records[i] == x;
      var j :| 0 <= j < |records| && records[j] == y;
      assert i == j;
    }
  }

  lemma DistinctIdsAre(records: seq<Record>)
    ensures DistinctIds(records) <==> Distinct(Map(RecordIds(), records))
  {
    var ids := Map(RecordIds(), records);
    assert forall i :: 0 <= i < |records| ==> ids[i] == records[i].id;
  }

  /** Distinct ids stay distinct in any order. */
  lemma DistinctIdsInAnyOrder(a: seq<Record>, b: seq<Record>)
    requires DistinctIds(a) && multiset(a) == multiset(b)
    ensures DistinctIds(b)
  {
    DistinctIdsAre(a);
    DistinctIdsAre(b);
    MapPermutes(RecordIds(), a, b);
    DistinctIsOnce(Map(RecordIds(), a));
    DistinctIsOnce(Map(RecordIds(), b));
  }

  lemma ChronologicalSeparates(o: Order, records: seq<Record>)
    requires ProperOrder(o) && DistinctIds(records)
    ensures Separates(Chronological(o), records)
  {
    IdsTellRecords(records);
  }

  /** The records of one event lie together. */
  lemma EventsLieTogether(o: Order, records: seq<Record>, i: nat, j: nat, k: nat)
    requires ProperOrder(o) && Canonical(o, records) && i < j < k < |records|
    ensures records[i].source == records[k].source ==> records[j].source == records[i].source
  {
    var le := Chronological(o);
    assert le(records[i], records[j]) && le(records[j], records[k]);
    assert records[i] in records && records[k] in records;
  }

  // ---- Event boundaries --------------------------------------------------------------------

  predicate Boundary(records: seq<Record>, c: nat) {
    c <= |records| && (0 < c < |records| ==> records[c - 1].source != records[c].source)
  }

  /** The boundary before boundary `c`. */
  function Previous(records: seq<Record>, c: nat): (p: nat)
    requires 0 < c <= |records|
    ensures p < c && Boundary(records, p)
    ensures forall i :: p <= i < c ==> records[i].source == records[c - 1].source
    ensures forall b :: p < b < c ==> !Boundary(records, b)
  {
    if c == 1 || records[c - 2].source != records[c - 1].source then c - 1 else Previous(records, c - 1)
  }

  /** The cut the greedy selection makes: every suffix from a boundary at or after it fits, and the
      suffix from the boundary before it does not. */
  ghost predicate GreedyCut(records: seq<Record>, fits: seq<Record> -> bool, c: nat) {
    && Boundary(records, c)
    && (forall b :: c <= b && Boundary(records, b) ==> fits(records[b..]))
    && (c > 0 ==> !fits(records[Previous(records, c)..]))
  }

  /** A selection is the suffix from the greedy cut. */
  ghost predicate GreedySelection(records: seq<Record>, fits: seq<Record> -> bool, selected: seq<Record>) {
    exists c: nat :: GreedyCut(records, fits, c) && selected == records[c..]
  }

  lemma PreviousIsNotBelow(records: seq<Record>, b: nat, c: nat)
    requires Boundary(records, b) && b < c <= |records|
    ensures Previous(records, c) >= b
  {
  }

  lemma GreedyCutIsUnique(records: seq<Record>, fits: seq<Record> -> bool, c: nat, d: nat)
    requires GreedyCut(records, fits, c) && GreedyCut(records, fits, d)
    ensures c == d
  {
    if c < d {
      PreviousIsNotBelow(records, c, d);
    } else if d < c {
      PreviousIsNotBelow(records, d, c);
    }
  }

  /** What fits a budget fits every larger one, so a larger budget never selects less. */
  lemma LargerBudgetSelectsMore(records: seq<Record>, less: seq<Record> -> bool, more: seq<Record> -> bool, c: nat, d: nat)
    requires forall rs :: less(rs) ==> more(rs)
    requires GreedyCut(records, less, c) && GreedyCut(records, more, d)
    ensures d <= c
  {
    if c < d {
      PreviousIsNotBelow(records, c, d);
    }
  }

  /** A suffix keeps the latest record of every kind it keeps any record of. */
  lemma LatestOfEachKindIsKept(records: seq<Record>, c: nat, kind: RecordKind, i: nat, latest: nat)
    requires c <= i < |records| && records[i].kind == kind
    requires latest < |records| && records[latest].kind == kind
    requires forall j :: latest < j < |records| ==> records[j].kind != kind
    ensures latest >= c && records[latest] in records[c..]
  {
    assert records[c..][latest - c] == records[latest];
  }

  // ---- The selection in time ---------------------------------------------------------------

  /** `a` happened before `b`, or at the same time in an earlier event. */
  ghost predicate Earlier(o: Order, a: Record, b: Record) {
    || (a.occurredAt != b.occurredAt && o.text(a.occurredAt, b.occurredAt))
    || (a.occurredAt == b.occurredAt && a.source < b.source)
  }

  /** Records in order of time, then of event, then of record id. */
  ghost predicate InTimeOrder(o: Order, records: seq<Record>) {
    forall i, j :: 0 <= i < j < |records| ==>
      && o.text(records[i].occurredAt, records[j].occurredAt)
      && (records[i].occurredAt == records[j].occurredAt ==> records[i].source <= records[j].source)
      && (records[i].occurredAt == records[j].occurredAt && records[i].source == records[j].source ==> o.id(records[i].id, records[j].id))
  }

  lemma CanonicalIsInTimeOrder(o: Order, records: seq<Record>)
    requires ProperOrder(o) && SortedBy(Chronological(o), records)
    ensures InTimeOrder(o, records)
  {
    forall i, j | 0 <= i < j < |records|
      ensures o.text(records[i].occurredAt, records[j].occurredAt)
    {
      assert Chronological(o)(records[i], records[j]);
      assert o.text(records[i].occurredAt, records[i].occurredAt);
    }
    forall i, j | 0 <= i < j < |records|
      ensures Chronological(o)(records[i], records[j])
    {
    }
  }

  /** Whatever is selected, its whole event is, and everything later. */
  ghost predicate KeepsTheLatest(o: Order, records: seq<Record>, selected: seq<Record>) {
    && (forall a :: a in selected ==> a in records)
    && forall a, b :: a in selected && b in records && (b.source == a.source || Earlier(o, a, b)) ==> b in selected
  }

  /** The event to come next: one that is not selected, with no later one that is not. */
  ghost predicate IsNext(o: Order, records: seq<Record>, selected: seq<Record>, x: Record) {
    && x in records && x !in selected
    && forall y :: y in records && y !in selected ==> y.source == x.source || Earlier(o, y, x)
  }

  /** What was selected together with all of the next event would not fit. */
  ghost predicate IsFull(o: Order, records: seq<Record>, fits: seq<Record> -> bool, selected: seq<Record>) {
    forall x :: IsNext(o, records, selected, x) ==>
      exists p :: 0 <= p <= |records| && !fits(records[p..])
                  && forall y :: y in records ==> (y in records[p..] <==> y in selected || y.source == x.source)
  }

  lemma SuffixHolds(records: seq<Record>, c: nat, i: nat)
    requires DistinctIds(records) && c <= |records| && i < |records|
    ensures records[i] in records[c..] <==> c <= i
  {
    if c <= i {
      assert records[c..][i - c] == records[i];
    }
  }

  lemma LaterIsInSuffix(o: Order, records: seq<Record>, c: nat, i: nat, j: nat)
    requires ProperOrder(o) && Canonical(o, records) && Boundary(records, c) && c <= i < |records| && j < c
    ensures records[j].source != records[i].source && Earlier(o, records[j], records[i]) && !Earlier(o, records[i], records[j])
  {
    if j < c - 1 {
      EventsLieTogether(o, records, j, c - 1, i);
    }
    if c < i {
      EventsLieTogether(o, records, c - 1, c, i);
    }
    NotEarlier(o, records, j, i);
  }

  lemma NotEarlier(o: Order, records: seq<Record>, i: nat, j: nat)
    requires ProperOrder(o) && Canonical(o, records) && i <= j < |records|
    ensures !Earlier(o, records[j], records[i])
    ensures records[i].source != records[j].source ==> Earlier(o, records[i], records[j])
  {
    CanonicalIsInTimeOrder(o, records);
    assert i < j ==> o.text(records[i].occurredAt, records[j].occurredAt);
  }

  lemma SuffixKeepsTheLatest(o: Order, records: seq<Record>, c: nat)
    requires ProperOrder(o) && Canonical(o, records) && Boundary(records, c)
    ensures KeepsTheLatest(o, records, records[c..])
  {
    forall a, b | a in records[c..] && b in records && (b.source == a.source || Earlier(o, a, b))
      ensures b in records[c..]
    {
      var i :| c <= i < |records| && records[i] == a;
      var j :| 0 <= j < |records| && records[j] == b;
      SuffixHolds(records, c, j);
      if j < c {
        LaterIsInSuffix(o, records, c, i, j);
      }
    }
  }

  lemma NextIsBeforeCut(o: Order, records: seq<Record>, c: nat, x: Record)
    requires ProperOrder(o) && Canonical(o, records) && Boundary(records, c) && IsNext(o, records, records[c..], x)
    ensures c > 0 && x.source == records[c - 1].source
  {
    var i :| 0 <= i < |records| && records[i] == x;
    SuffixHolds(records, c, i);
    SuffixHolds(records, c, c - 1);
    NotEarlier(o, records, i, c - 1);
    assert records[c - 1] in records;
  }

  lemma CutIsFull(o: Order, records: seq<Record>, fits: seq<Record> -> bool, c: nat)
    requires ProperOrder(o) && Canonical(o, records) && GreedyCut(records, fits, c)
    ensures IsFull(o, records, fits, records[c..])
  {
    forall x | IsNext(o, records, records[c..], x)
      ensures exists p :: 0 <= p <= |records| && !fits(records[p..])
                          && forall y :: y in records ==> (y in records[p..] <==> y in records[c..] || y.source == x.source)
    {
      NextIsBeforeCut(o, records, c, x);
      var p := Previous(records, c);
      forall y | y in records
        ensures y in records[p..] <==> y in records[c..] || y.source == x.source
      {
        var j :| 0 <= j < |records| && records[j] == y;
        SuffixHolds(records, p, j);
        SuffixHolds(records, c, j);
        if j < p || c <= j {
          EventStaysInside(o, records, c, j);
        }
      }
    }
  }

  /** The greedy selection in terms of time: the latest events, whole, as many as fit. */
  lemma SelectionIsTheLatest(o: Order, records: seq<Record>, fits: seq<Record> -> bool, selected: seq<Record>)
    requires ProperOrder(o) && Canonical(o, records) && GreedySelection(records, fits, selected)
    ensures KeepsTheLatest(o, records, selected) && IsFull(o, records, fits, selected) && InTimeOrder(o, selected)
  {
    var c: nat :| GreedyCut(records, fits, c) && selected == records[c..];
    SuffixKeepsTheLatest(o, records, c);
    CutIsFull(o, records, fits, c);
    SuffixIsSorted(o, records, c);
    CanonicalIsInTimeOrder(o, selected);
  }

  /** The latest record of a kind, by time and event, is selected if any of the kind is. */
  lemma LatestInTimeIsKept(o: Order, records: seq<Record>, fits: seq<Record> -> bool, selected: seq<Record>, any: Record, latest: Record)
    requires ProperOrder(o) && Canonical(o, records) && GreedySelection(records, fits, selected)
    requires any in selected && latest in records && any.kind == latest.kind
    requires forall r :: r in records && r.kind == latest.kind && r.source != latest.source ==> Earlier(o, r, latest)
    ensures latest in selected
  {
    SelectionKeepsTheLatest(o, records, fits, selected);
    assert any.source == latest.source || Earlier(o, any, latest);
  }

  lemma SelectionKeepsTheLatest(o: Order, records: seq<Record>, fits: seq<Record> -> bool, selected: seq<Record>)
    requires ProperOrder(o) && Canonical(o, records) && GreedySelection(records, fits, selected)
    ensures KeepsTheLatest(o, records, selected)
  {
    var c: nat :| GreedyCut(records, fits, c) && selected == records[c..];
    SuffixKeepsTheLatest(o, records, c);
  }

  // ---- Fitting the budget ------------------------------------------------------------------

  /** `tokens` counts the serialized messages of a rendering, whatever the tokenizer. */
  function Fits(now: int, tokens: Rendering -> nat, budget: nat): seq<Record> -> bool {
    (rs: seq<Record>) => forall v :: v in VARIANTS ==> tokens(Render(rs, now, v)) <= budget
  }

  /** Every one of the four renderings stays within the budget. */
  ghost predicate FitsEvery(now: int, tokens: Rendering -> nat, budget: nat, rs: seq<Record>) {
    forall v :: tokens(Render(rs, now, v)) <= budget
  }

  lemma FullForEvery(o: Order, now: int, tokens: Rendering -> nat, budget: nat, records: seq<Record>, selected: seq<Record>)
    requires IsFull(o, records, Fits(now, tokens, budget), selected)
    ensures IsFull(o, records, rs => FitsEvery(now, tokens, budget, rs), selected)
  {
    var fits, every := Fits(now, tokens, budget), (rs: seq<Record>) => FitsEvery(now, tokens, budget, rs);
    forall rs
      ensures fits(rs) <==> every(rs)
    {
      FitsIff(now, tokens, budget, rs);
    }
    FullAgrees(o, records, fits, every, selected);
  }

  lemma FitsIff(now: int, tokens: Rendering -> nat, budget: nat, rs: seq<Record>)
    ensures Fits(now, tokens, budget)(rs) <==> FitsEvery(now, tokens, budget, rs)
  {
    EveryVariant();
  }

  lemma FullAgrees(o: Order, records: seq<Record>, fits: seq<Record> -> bool, every: seq<Record> -> bool, selected: seq<Record>)
    requires IsFull(o, records, fits, selected) && forall rs :: fits(rs) <==> every(rs)
    ensures IsFull(o, records, every, selected)
  {
  }

  /** Event ids in order of first appearance. */
  function Dedupe(ids: seq<int>): seq<int> {
    if ids == [] then []
    else
      var init, last := ids[..|ids| - 1], ids[|ids| - 1];
      if last in init then Dedupe(init) else Dedupe(init) + [last]
  }

  function Sources(records: seq<Record>): (r: seq<int>)
    ensures |r| == |records|
    ensures forall i :: 0 <= i < |r| ==> r[i] == records[i].source
  {
    seq(|records|, i requires 0 <= i < |records| => records[i].source)
  }

  function Reversed<T>(xs: seq<T>): (r: seq<T>)
    ensures |r| == |xs|
    ensures forall i :: 0 <= i < |r| ==> r[i] == xs[|xs| - 1 - i]
  {
    seq(|xs|, i requires 0 <= i < |xs| => xs[|xs| - 1 - i])
  }

  /** The events of `records[c..]`, latest first. */
  function EventsFrom(records: seq<Record>, c: nat): seq<int>
    requires c <= |records|
  {
    Dedupe(Reversed(Sources(records[c..])))
  }

  lemma SourceRecurs(o: Order, records: seq<Record>, c: nat)
    requires ProperOrder(o) && Canonical(o, records) && 0 < c <= |records|
    ensures records[c - 1].source in Sources(records[c..]) <==> !Boundary(records, c)
  {
    var later := Sources(records[c..]);
    if records[c - 1].source in later {
      var i :| 0 <= i < |later| && later[i] == records[c - 1].source;
      if i > 0 {
        EventsLieTogether(o, records, c - 1, c, c + i);
      }
    }
    if !Boundary(records, c) {
      assert later[0] == records[c].source;
    }
  }

  lemma ReversedHolds<T>(xs: seq<T>, x: T)
    ensures x in Reversed(xs) <==> x in xs
  {
    if x in xs {
      var i :| 0 <= i < |xs| && xs[i] == x;
      assert Reversed(xs)[|xs| - 1 - i] == x;
    }
  }

  lemma EventsFromNext(o: Order, records: seq<Record>, c: nat)
    requires ProperOrder(o) && Canonical(o, records) && 0 < c <= |records|
    ensures EventsFrom(records, c - 1)
         == if Boundary(records, c) then EventsFrom(records, c) + [records[c - 1].source] else EventsFrom(records, c)
  {
    var longer, shorter := Reversed(Sources(records[c - 1..])), Reversed(Sources(records[c..]));
    assert longer[..|longer| - 1] == shorter;
    assert longer[|longer| - 1] == records[c - 1].source;
    SourceRecurs(o, records, c);
    ReversedHolds(Sources(records[c..]), records[c - 1].source);
  }

  lemma {:induction false} EventsFromPrevious(o: Order, records: seq<Record>, c: nat, b: nat)
    requires ProperOrder(o) && Canonical(o, records) && 0 < c <= |records|
    requires Boundary(records, c) && Previous(records, c) <= b < c
    ensures EventsFrom(records, b) == EventsFrom(records, c) + [records[c - 1].source]
    decreases c - b
  {
    EventsFromNext(o, records, b + 1);
    if b + 1 < c {
      EventsFromPrevious(o, records, c, b + 1);
    }
  }

  lemma {:induction false} EventsArePrefix(o: Order, records: seq<Record>, c: nat)
    requires ProperOrder(o) && Canonical(o, records) && c <= |records|
    ensures EventsFrom(records, c) <= EventsFrom(records, 0)
  {
    if c > 0 {
      EventsFromNext(o, records, c);
      EventsArePrefix(o, records, c - 1);
    }
  }

  // ---- One bundle --------------------------------------------------------------------------

  lemma SuffixIsSorted(o: Order, records: seq<Record>, c: nat)
    requires Canonical(o, records) && c <= |records|
    ensures Canonical(o, records[c..])
  {
    assert forall x :: x in records[c..] ==> x in records;
  }

  /** No record of the event before boundary `c` lies outside its stretch. */
  lemma EventStaysInside(o: Order, records: seq<Record>, c: nat, i: nat)
    requires ProperOrder(o) && Canonical(o, records) && 0 < c <= |records| && Boundary(records, c)
    requires i < Previous(records, c) || c <= i < |records|
    ensures records[i].source != records[c - 1].source
  {
    var p := Previous(records, c);
    if i < p {
      if i < p - 1 {
        EventsLieTogether(o, records, i, p - 1, c - 1);
      }
    } else if i > c {
      EventsLieTogether(o, records, c - 1, c, i);
    }
  }

  predicate Of(r: Record, event: int) {
    r.source == event
  }

  /** The bundle of an event is the stretch of records between two boundaries. */
  lemma BundleIsStretch(o: Order, records: seq<Record>, c: nat)
    requires ProperOrder(o) && Canonical(o, records) && 0 < c <= |records| && Boundary(records, c)
    ensures Filter(r => Of(r, records[c - 1].source), records) == records[Previous(records, c)..c]
  {
    var p := Previous(records, c);
    forall i | 0 <= i < |records|
      ensures records[i].source == records[c - 1].source <==> p <= i < c
    {
      if i < p || c <= i {
        EventStaysInside(o, records, c, i);
      }
    }
    FilterStretch(r => Of(r, records[c - 1].source), records, p, c);
  }

  lemma SuffixSplits(records: seq<Record>, p: nat, c: nat, bundle: seq<Record>)
    requires p <= c <= |records| && multiset(bundle) == multiset(records[p..c])
    ensures multiset(records[c..] + bundle) == multiset(records[p..])
  {
    assert records[p..] == records[p..c] + records[c..];
  }

  /** Adding the bundle of the next event and sorting again yields the next longer suffix. */
  lemma TrialIsNextSuffix(o: Order, records: seq<Record>, c: nat, ranked: seq<Record>)
    requires ProperOrder(o) && Canonical(o, records) && 0 < c <= |records| && Boundary(records, c)
    requires multiset(ranked) == multiset(records)
    ensures
      var bundle := Filter(r => Of(r, records[c - 1].source), ranked);
      Sort(Chronological(o), records[c..] + bundle) == records[Previous(records, c)..]
  {
    var p := Previous(records, c);
    BundleIsStretch(o, records, c);
    FilterPermutes(r => Of(r, records[c - 1].source), ranked, records);
    SuffixSplits(records, p, c, Filter(r => Of(r, records[c - 1].source), ranked));
    ChronologicalIsTotal(o);
    SuffixIsSorted(o, records, p);
    ChronologicalSeparates(o, records[p..]);
    SortOfSorted(Chronological(o), records[c..] + Filter(r => Of(r, records[c - 1].source), ranked), records[p..]);
  }

  // ---- The program -------------------------------------------------------------------------

  datatype Packed = OverheadExceedsBudget | EvidenceChanged | Selected(records: seq<Record>)

  /** list(dict.fromkeys(...)) */
  method EventOrder(ranked: seq<Record>) returns (order: seq<int>)
    ensures order == Dedupe(Sources(ranked))
  {
    order := [];
    var ids := Sources(ranked);
    for i := 0 to |ids|
      invariant order == Dedupe(ids[..i])
      invariant forall id :: id in order <==> id in ids[..i]
    {
      assert ids[..i + 1] == ids[..i] + [ids[i]];
      assert ids[..i + 1][..i] == ids[..i];
      if ids[i] !in order {
        order := order + [ids[i]];
      }
    }
    assert ids[..|ids|] == ids;
  }

  lemma RankingIsReversal(o: Order, records: seq<Record>)
    requires ProperOrder(o) && Canonical(o, records)
    ensures
      var ranked := Reversed(Sort(Chronological(o), records));
      && multiset(ranked) == multiset(records) && Dedupe(Sources(ranked)) == EventsFrom(records, 0)
  {
    ChronologicalIsTotal(o);
    ChronologicalSeparates(o, records);
    SortOfSorted(Chronological(o), records, records);
    ReversedCounts(records);
    assert Sources(Reversed(records)) == Reversed(Sources(records));
    assert records[0..] == records;
  }

  lemma {:induction false} ReversedCounts<T>(xs: seq<T>)
    ensures multiset(Reversed(xs)) == multiset(xs)
  {
    if xs != [] {
      ReversedCounts(xs[1..]);
      assert Reversed(xs) == Reversed(xs[1..]) + [xs[0]];
      assert xs == [xs[0]] + xs[1..];
    }
  }

  /** The next event of the order is the one whose stretch ends at the cut. */
  lemma NextEvent(o: Order, records: seq<Record>, order: seq<int>, k: nat, c: nat)
    requires ProperOrder(o) && Canonical(o, records) && Boundary(records, c)
    requires order == EventsFrom(records, 0) && k <= |order| && order[..k] == EventsFrom(records, c)
    ensures k == |order| <==> c == 0
    ensures c > 0 ==> order[k] == records[c - 1].source
                      && order[..k + 1] == EventsFrom(records, Previous(records, c))
  {
    if c > 0 {
      EventsFromPrevious(o, records, c, Previous(records, c));
      EventsArePrefix(o, records, Previous(records, c));
      PrefixGrows(order, EventsFrom(records, c), records[c - 1].source, k);
    }
  }

  lemma PrefixGrows(order: seq<int>, shorter: seq<int>, next: int, k: nat)
    requires k <= |order| && order[..k] == shorter && shorter + [next] <= order
    ensures k < |order| && order[k] == next && order[..k + 1] == shorter + [next]
  {
    assert (shorter + [next])[k] == next;
  }

  lemma CutMoves(records: seq<Record>, fits: seq<Record> -> bool, c: nat)
    requires 0 < c <= |records|
    requires forall b :: c <= b && Boundary(records, b) ==> fits(records[b..])
    requires fits(records[Previous(records, c)..])
    ensures forall b :: Previous(records, c) <= b && Boundary(records, b) ==> fits(records[b..])
  {
  }

  /** The state of the selection after `k` events: the suffix from boundary `c`. */
  ghost predicate Cut(records: seq<Record>, fits: seq<Record> -> bool, order: seq<int>, k: nat, c: nat) {
    && Boundary(records, c) && k <= |order| && order[..k] == EventsFrom(records, c)
    && forall b :: c <= b && Boundary(records, b) ==> fits(records[b..])
  }

  lemma NextEventIsTried(o: Order, records: seq<Record>, ranked: seq<Record>, fits: seq<Record> -> bool, order: seq<int>, k: nat, c: nat)
    requires ProperOrder(o) && Canonical(o, records) && multiset(ranked) == multiset(records)
    requires order == EventsFrom(records, 0) && Cut(records, fits, order, k, c)
    ensures k == |order| <==> c == 0
    ensures c > 0 ==>
      var p := Previous(records, c);
      && Sort(Chronological(o), records[c..] + Filter(r => Of(r, order[k]), ranked)) == records[p..]
      && (fits(records[p..]) ==> Cut(records, fits, order, k + 1, p))
  {
    NextEvent(o, records, order, k, c);
    if c > 0 {
      TrialIsNextSuffix(o, records, c, ranked);
      if fits(records[Previous(records, c)..]) {
        CutMoves(records, fits, c);
      }
    }
  }

  lemma CutIsGreedy(records: seq<Record>, fits: seq<Record> -> bool, order: seq<int>, k: nat, c: nat)
    requires Cut(records, fits, order, k, c)
    ensures c == 0 || !fits(records[Previous(records, c)..]) ==> GreedySelection(records, fits, records[c..])
  {
    assert c == 0 || !fits(records[Previous(records, c)..]) ==> GreedyCut(records, fits, c);
  }

  /** Latest events first, one whole event at a time, until one no longer fits. */
  method Greedy(o: Order, fits: seq<Record> -> bool, records: seq<Record>) returns (selected: seq<Record>)
    requires ProperOrder(o) && Canonical(o, records) && fits([])
    ensures GreedySelection(records, fits, selected)
    ensures KeepsTheLatest(o, records, selected) && IsFull(o, records, fits, selected) && InTimeOrder(o, selected)
  {
    selected := GreedySuffix(o, fits, records);
    SelectionIsTheLatest(o, records, fits, selected);
  }

  method GreedySuffix(o: Order, fits: seq<Record> -> bool, records: seq<Record>) returns (selected: seq<Record>)
    requires ProperOrder(o) && Canonical(o, records) && fits([])
    ensures GreedySelection(records, fits, selected)
  {
    var ranked := Reversed(Sort(Chronological(o), records));
    RankingIsReversal(o, records);
    var order := EventOrder(ranked);
    selected := [];
    ghost var c: nat := |records|;
    assert EventsFrom(records, |records|) == [];
    var k := 0;
    while k < |order|
      invariant Cut(records, fits, order, k, c) && selected == records[c..]
    {
      NextEventIsTried(o, records, ranked, fits, order, k, c);
      CutIsGreedy(records, fits, order, k, c);
      var event := order[k];
      var trial := Sort(Chronological(o), selected + Filter(r => Of(r, event), ranked));
      if !fits(trial) {
        return;
      }
      selected, c := trial, Previous(records, c);
      k := k + 1;
    }
    NextEventIsTried(o, records, ranked, fits, order, k, c);
    CutIsGreedy(records, fits, order, k, c);
  }

  function ById(o: Order): (Record, Record) -> bool {
    (a: Record, b: Record) => o.id(a.id, b.id)
  }

  lemma ByIdIsTotal(o: Order)
    requires ProperOrder(o)
    ensures TotalPreorder(ById(o))
  {
    var le := ById(o);
    forall a, b
      ensures le(a, b) || le(b, a)
    {
      assert o.id(a.id, b.id) || o.id(b.id, a.id);
    }
    forall a, b, c | le(a, b) && le(b, c)
      ensures le(a, c)
    {
      assert o.id(a.id, b.id) && o.id(b.id, c.id);
    }
  }

  lemma ByIdSeparates(o: Order, records: seq<Record>, sorted: seq<Record>)
    requires ProperOrder(o) && DistinctIds(records) && multiset(sorted) == multiset(records)
    ensures Separates(ById(o), sorted)
  {
    IdsTellRecords(records);
    forall x | x in sorted
      ensures x in records
    {
      assert x in multiset(sorted);
    }
  }

  /** The evidence read back from a rendering is the selected evidence. */
  lemma DeliveryIsUnchanged(o: Order, now: int, v: Variant, selected: seq<Record>)
    requires ProperOrder(o) && DistinctIds(selected) && Native(selected)
    ensures Sort(ById(o), Delivered(Render(selected, now, v))) == Sort(ById(o), selected)
  {
    DeliveryPermutes(selected, now, v);
    ByIdIsTotal(o);
    SortIsSorted(ById(o), selected);
    ByIdSeparates(o, selected, Sort(ById(o), selected));
    SortOfSorted(ById(o), Delivered(Render(selected, now, v)), Sort(ById(o), selected));
  }

  lemma SelectionIsCanonical(o: Order, fits: seq<Record> -> bool, records: seq<Record>, selected: seq<Record>)
    requires Canonical(o, records) && GreedySelection(records, fits, selected)
    ensures Canonical(o, selected) && fits(selected)
  {
    var c: nat :| GreedyCut(records, fits, c) && selected == records[c..];
    SuffixIsSorted(o, records, c);
  }

  /** Every variant delivers each id once. */
  lemma DeliveredIdsAreDistinct(now: int, v: Variant, selected: seq<Record>)
    requires DistinctIds(selected) && Native(selected)
    ensures DistinctIds(Delivered(Render(selected, now, v)))
  {
    DeliveryPermutes(selected, now, v);
    DistinctIdsInAnyOrder(selected, Delivered(Render(selected, now, v)));
  }

  /** The selected records, unless the instructions alone are over budget.  The final comparison of the
      delivered evidence with the selection can never fail. */
  method Pack(o: Order, now: int, tokens: Rendering -> nat, budget: nat, records: seq<Record>)
    returns (r: Packed)
    requires ProperOrder(o) && Canonical(o, records)
    ensures r.OverheadExceedsBudget? <==> exists v :: tokens(Render([], now, v)) > budget
    ensures !r.EvidenceChanged?
    ensures r.Selected? ==>
      && GreedySelection(records, Fits(now, tokens, budget), r.records)
      && KeepsTheLatest(o, records, r.records) && InTimeOrder(o, r.records)
      && IsFull(o, records, rs => FitsEvery(now, tokens, budget, rs), r.records)
      && forall v ::
           && tokens(Render(r.records, now, v)) <= budget
           && multiset(Delivered(Render(r.records, now, v))) == multiset(r.records)
           && DistinctIds(Delivered(Render(r.records, now, v)))
  {
    var fits := Fits(now, tokens, budget);
    EveryVariant();
    if !fits([]) {
      return OverheadExceedsBudget;
    }
    var selected := Greedy(o, fits, records);
    SelectionIsCanonical(o, fits, records, selected);
    for i := 0 to |VARIANTS|
    {
      DeliveryIsUnchanged(o, now, VARIANTS[i], selected);
      if Sort(ById(o), Delivered(Render(selected, now, VARIANTS[i]))) != Sort(ById(o), selected) {
        return EvidenceChanged;
      }
    }
    FullForEvery(o, now, tokens, budget, records, selected);
    forall v
      ensures multiset(Delivered(Render(selected, now, v))) == multiset(selected)
      ensures DistinctIds(Delivered(Render(selected, now, v)))
    {
      DeliveryPermutes(selected, now, v);
      DeliveredIdsAreDistinct(now, v, selected);
    }
    r := Selected(selected);
  }
}
