/** From saved tables to canonical evidence records
    (evals/education_memory_counterfactual/representation.py: scope_ok, ownership_ok, normalize).

    The audit rows of `normalize` are not part of this model. */
module Normalising {
  import opened Options
  import opened Reference
  import opened Sorting
  import opened Evidence
  import opened Packing

  // ---- Saved tables ------------------------------------------------------------------------

  datatype EventKind = ConceptAttempt | ObservationRecorded | Message | OtherEvent

  datatype EventPayload = EventPayload(
    attempt: Option<int>, item: Option<int>, correct: Datum, assistance: Datum, independent: Datum,
    text: Datum, content: Datum, statement: Datum, verification: Datum)

  datatype EventRow = EventRow(
    id: int, scope: Scope, occurredAt: Time, kind: EventKind, source: string, receipt: string, payload: EventPayload)

  /** A place in a text: a pair of positions, or something else. */
  datatype Span = Pair(from: int, to: int) | Other

  /** One teaching directive; `fields` holds its plain keys, `spanText` is its printed span. */
  datatype Entry = Entry(
    sourceEvent: Option<int>, span: Span, spanText: string, expiresAt: Time, fields: map<string, Datum>)

  datatype Body = Body(directives: Field<seq<Entry>>, preferences: Field<seq<Entry>>)

  datatype Mutation = Mutation(
    id: int, event: Option<int>, learner: Option<int>, applied: bool, kernel: Kernel,
    shortTerm: Body, longTerm: Body, values: map<string, map<string, Datum>>)

  /** `path` is the predicate split at its first point, if it has one. */
  datatype Fact = Fact(
    node: int, event: Option<int>, mutation: int, scope: Scope, path: Option<(string, string)>, objectValue: Datum)

  datatype Node = Node(scope: Scope, fact: bool, kernel: Kernel)

  datatype AttemptRow = AttemptRow(
    scope: Scope, status: string, submittedAt: Option<int>, evaluatedAt: Option<int>, concept: bool,
    item: Option<int>, assistance: Datum, role: Datum, correct: Datum)

  /** Who owns what: projects have a learner, roadmaps a project, checkpoints a roadmap. */
  datatype Owners = Owners(
    projects: map<int, Option<int>>, roadmaps: map<int, Option<int>>, checkpoints: map<int, Option<int>>,
    sessions: map<int, Session>)

  datatype Form = Form(
    scope: Scope, at: int, owners: Owners, nodes: map<int, Node>, questions: map<int, Option<int>>,
    events: seq<EventRow>, mutations: seq<Mutation>, facts: seq<Fact>, attempts: map<int, AttemptRow>)

  // ---- Which events count ------------------------------------------------------------------

  predicate InScope(row: Scope, scope: Scope) {
    SameCheckpoint(row, scope) && (row.session.None? || row.session == scope.session)
  }

  function OwnerIn(table: map<int, Option<int>>, id: Option<int>): Option<int> {
    match Lookup(table, id)
    case None => None
    case Some(owner) => owner
  }

  predicate Belongs(s: Scope, w: Owners) {
    var project := if Lookup(w.projects, s.project).Some? then s.project else None;
    var session := match Lookup(w.sessions, s.session)
      case None => Session(None, None, None)
      case Some(row) => row;
    && OwnerIn(w.projects, s.project) == s.learner
    && OwnerIn(w.roadmaps, OwnerIn(w.checkpoints, s.checkpoint)) == project
    && (s.session.None? || session == Session(s.learner, s.project, s.checkpoint))
  }

  predicate Included(f: Form, e: EventRow) {
    && InScope(e.scope, f.scope)
    && Belongs(e.scope, f.owners)
    && e.occurredAt.instant.Some? && e.occurredAt.instant.value <= f.at
  }

  /** {e['id']: e for e in rows}: the last row of each id. */
  function LastById(rows: seq<EventRow>): seq<EventRow> {
    if rows == [] then []
    else if exists e :: e in rows[1..] && e.id == rows[0].id then LastById(rows[1..])
    else [rows[0]] + LastById(rows[1..])
  }

  function ByTime(o: Order): (EventRow, EventRow) -> bool {
    (a: EventRow, b: EventRow) =>
      if a.occurredAt.text != b.occurredAt.text then o.text(a.occurredAt.text, b.occurredAt.text) else a.id <= b.id
  }

  function IncludedIn(f: Form): EventRow -> bool {
    e => Included(f, e)
  }

  /** The events in the order in which they are gone through. */
  function SavedEvents(o: Order, f: Form): seq<EventRow> {
    Sort(ByTime(o), LastById(f.events))
  }

  function IncludedEvents(o: Order, f: Form): seq<EventRow> {
    Filter(IncludedIn(f), SavedEvents(o, f))
  }

  // ---- The records of one event ------------------------------------------------------------

  predicate Local(m: Mutation, event: int, learner: Option<int>) {
    m.event == Some(event) && m.learner == learner && m.applied
  }

  function LocalMutations(f: Form, e: EventRow): seq<Mutation> {
    Filter(m => Local(m, e.id, f.scope.learner), f.mutations)
  }

  function FirstWithId(mutations: seq<Mutation>, id: int): Option<Mutation> {
    if mutations == [] then None
    else if mutations[0].id == id then Some(mutations[0])
    else FirstWithId(mutations[1..], id)
  }

  function Patched(m: Mutation, path: (string, string)): Datum {
    if path.0 in m.values then Value(m.values[path.0], path.1) else Nothing
  }

  predicate SamePlace(a: Scope, b: Scope) {
    a.project == b.project && a.checkpoint == b.checkpoint && a.session == b.session
  }

  predicate Verified(scope: Scope, nodes: map<int, Node>, local: seq<Mutation>, e: EventRow, fact: Fact) {
    var m := FirstWithId(local, fact.mutation);
    && fact.event == Some(e.id) && m.Some? && fact.path.Some?
    && fact.node in nodes
    && InScope(nodes[fact.node].scope, scope) && nodes[fact.node].fact
    && nodes[fact.node].kernel == m.value.kernel
    && SamePlace(fact.scope, e.scope) && SamePlace(nodes[fact.node].scope, e.scope)
    && Patched(m.value, fact.path.value) == fact.objectValue
  }

  function VerifiedFacts(f: Form, e: EventRow): seq<Fact> {
    Filter(fact => Verified(f.scope, f.nodes, LocalMutations(f, e), e, fact), f.facts)
  }

  function FactsOf(facts: seq<Fact>, nodes: map<int, Node>, kernel: Kernel): seq<int> {
    if facts == [] then []
    else (if facts[0].node in nodes && nodes[facts[0].node].kernel == kernel then [facts[0].node] else [])
         + FactsOf(facts[1..], nodes, kernel)
  }

  function Ids(mutations: seq<Mutation>): set<int> {
    set m | m in mutations :: m.id
  }

  function NewRecord(f: Form, e: EventRow, kernel: Kernel, kind: RecordKind, content: map<string, Datum>, expiresAt: Time,
                     attempt: Option<int>, suffix: string): (r: Record)
    ensures r.id == RecordId(e.id, kind, suffix) && r.source == e.id && r.kind == kind && r.kernel == kernel
    ensures r.occurredAt == e.occurredAt.text && r.content == content && r.eligibility.None?
    ensures r.scope == e.scope && r.attempt == attempt && r.mutations == Ids(LocalMutations(f, e))
    ensures r.facts == FactsOf(VerifiedFacts(f, e), f.nodes, kernel)
  {
    Record(RecordId(e.id, kind, suffix), kernel, kind, e.occurredAt.text, expiresAt, e.id, attempt,
           FactsOf(VerifiedFacts(f, e), f.nodes, kernel), Ids(LocalMutations(f, e)), e.scope, content, None)
  }

  const NEVER := Time("", None)

  function Printed(id: Option<int>): string {
    if id.None? then "None" else if id.value < 0 then "-" + Decimal(-id.value) else Decimal(id.value)
  }

  function Identifier(id: Option<int>): Datum {
    if id.Some? then Number(id.value) else Nothing
  }

  predicate FormalAttempt(f: Form, e: EventRow, a: AttemptRow) {
    var receipt := "attempt:" + Printed(e.payload.attempt) + ":evaluated";
    && InScope(a.scope, f.scope) && LocalMutations(f, e) != [] && e.source == "assessment"
    && (e.receipt == receipt || e.receipt == Printed(f.scope.learner) + ":" + receipt)
    && a.status == "evaluated" && a.submittedAt.Some? && a.evaluatedAt.Some?
    && a.submittedAt.value <= a.evaluatedAt.value <= f.at
    && a.evaluatedAt == e.occurredAt.instant
    && a.concept && a.item == e.payload.item
    && Lookup(f.questions, e.payload.item).Some? && OwnerIn(f.questions, e.payload.item) == f.scope.checkpoint
    && e.payload.assistance == a.assistance
    && !(e.payload.independent == Flag(true) && a.assistance in {Words("hint"), Words("guided")})
  }

  function GradedRecord(f: Form, e: EventRow): seq<Record> {
    var a := Lookup(f.attempts, e.payload.attempt);
    if e.kind.ConceptAttempt? && a.Some? && FormalAttempt(f, e, a.value)
       && a.value.correct.Flag? && e.payload.correct == a.value.correct then
      [NewRecord(f, e, Practice, Graded,
                 map["result" := Words(if a.value.correct.b then "correct" else "incorrect"),
                     "assistance_level" := a.value.assistance, "item_type" := Words("concept"),
                     "item_id" := Identifier(a.value.item), "attempt_kind" := a.value.role,
                     "stable_mastery_evidence" := Flag(false), "transfer_verified" := Flag(false)],
                 NEVER, e.payload.attempt, "")]
    else []
  }

  function FirstTrue(a: Datum, b: Datum): Datum {
    if Truthy(a) then a else b
  }

  function ReportRecord(f: Form, e: EventRow): (r: seq<Record>)
    ensures forall x :: x in r ==> x.kind.SelfReport?
  {
    var said := if e.kind.ObservationRecorded? then e.payload.statement else FirstTrue(e.payload.text, e.payload.content);
    if (e.kind.Message? || (e.kind.ObservationRecorded? && e.payload.verification == Words("unverified")))
       && LocalMutations(f, e) != [] && said.Words? && said.s != "" then
      [NewRecord(f, e, Knowledge, SelfReport, map["text" := said, "evidence_grade" := Words("self_report")], NEVER, None, "")]
    else []
  }

  function SlotKind(slot: Datum): (kind: Option<RecordKind>)
    ensures kind.Some? ==> IsControl(kind.value)
  {
    if slot == Words("time_budget") then Some(Budgeted)
    else if slot == Words("support") then Some(Supporting)
    else if slot == Words("current_priority") then Some(Prioritized)
    else if slot == Words("return_anchor") then Some(Anchored)
    else if slot == Words("current_blocker") then Some(Gap)
    else None
  }

  const CONTENT := {"slot", "evidence_kind", "minutes", "requested_priority", "requested_anchor", "lifetime", "status",
                    "cancelled", "diagnostic_only", "instruction"}

  const STATUS := {"status", "cancelled", "diagnostic_only"}

  function Only(fields: map<string, Datum>, keys: set<string>): map<string, Datum> {
    map k | k in fields && k in keys :: fields[k]
  }

  /** s[from:to], with positions counted from the end when negative. */
  function Slice(s: string, from: int, to: int): string {
    var i, j := Place(|s|, from), Place(|s|, to);
    if i <= j then s[i..j] else ""
  }

  function Place(length: nat, at: int): (p: nat)
    ensures p <= length
  {
    var from := if at < 0 then at + length else at;
    if from < 0 then 0 else if from > length then length else from
  }

  function ControlContent(e: EventRow, entry: Entry): map<string, Datum> {
    var raw := FirstTrue(FirstTrue(e.payload.text, e.payload.content), Words(""));
    Only(entry.fields, CONTENT)
    + if raw.Words? && entry.span.Pair? then map["source_text" := Words(Slice(raw.s, entry.span.from, entry.span.to))] else map[]
  }

  /** A directive and the kernel of the mutation that carries it. */
  datatype Posting = Posting(kernel: Kernel, entry: Entry)

  function Chosen(b: Body): seq<Entry> {
    match b.directives
    case Present(entries) => entries
    case Absent => if b.preferences.Present? then b.preferences.value else []
  }

  /** The short-term directives of a mutation, then its long-term ones. */
  function Entries(m: Mutation): seq<Entry> {
    Chosen(m.shortTerm) + Chosen(m.longTerm)
  }

  predicate Slotted(postings: seq<Posting>) {
    forall p :: p in postings ==> SlotKind(Value(p.entry.fields, "slot")).Some?
  }

  function PostingsOf(kernel: Kernel, entries: seq<Entry>): (r: seq<Posting>)
    ensures Slotted(r)
  {
    if entries == [] then []
    else
      var last := entries[|entries| - 1];
      PostingsOf(kernel, entries[..|entries| - 1]) + PostingIf(kernel, last)
  }

  function PostingIf(kernel: Kernel, entry: Entry): seq<Posting> {
    if SlotKind(Value(entry.fields, "slot")).Some? then [Posting(kernel, entry)] else []
  }

  function Postings(mutations: seq<Mutation>): (r: seq<Posting>)
    ensures Slotted(r)
  {
    if mutations == [] then []
    else
      var last := mutations[|mutations| - 1];
      Postings(mutations[..|mutations| - 1]) + PostingsOf(last.kernel, Entries(last))
  }

  function ControlRecords(f: Form, e: EventRow, postings: seq<Posting>): seq<Record>
    requires Slotted(postings)
  {
    if postings == [] then []
    else
      var last := postings[|postings| - 1];
      ControlRecords(f, e, postings[..|postings| - 1])
      + if last.entry.sourceEvent == Some(e.id) then [ControlRecord(f, e, last)] else []
  }

  function ControlRecord(f: Form, e: EventRow, p: Posting): (r: Record)
    requires SlotKind(Value(p.entry.fields, "slot")).Some?
    ensures IsControl(r.kind)
  {
    NewRecord(f, e, p.kernel, SlotKind(Value(p.entry.fields, "slot")).value, ControlContent(e, p.entry),
              p.entry.expiresAt, None, p.entry.spanText)
  }

  function Candidates(f: Form, e: EventRow): seq<Record> {
    GradedRecord(f, e) + ControlRecords(f, e, Postings(LocalMutations(f, e))) + ReportRecord(f, e)
  }

  // ---- Control status ----------------------------------------------------------------------

  datatype Key = Key(event: Option<int>, slot: Datum, span: string)

  datatype Write = Write(key: Key, status: map<string, Datum>)

  function WriteOf(p: Posting): Write {
    Write(Key(p.entry.sourceEvent, Value(p.entry.fields, "slot"), p.entry.spanText), Only(p.entry.fields, STATUS))
  }

  function Writes(postings: seq<Posting>): (r: seq<Write>)
    ensures |r| == |postings|
    ensures forall i :: 0 <= i < |r| ==> r[i] == WriteOf(postings[i])
  {
    seq(|postings|, i requires 0 <= i < |postings| => WriteOf(postings[i]))
  }

  function EventWrites(f: Form, e: EventRow): seq<Write> {
    Writes(Postings(LocalMutations(f, e)))
  }

  function LastWrites(writes: seq<Write>): map<Key, map<string, Datum>> {
    if writes == [] then map[]
    else
      var last := writes[|writes| - 1];
      LastWrites(writes[..|writes| - 1])[last.key := last.status]
  }

  predicate IsControl(kind: RecordKind) {
    !kind.Graded? && !kind.SelfReport?
  }

  function KeyOf(r: Record): Key {
    Key(Some(r.source), Value(r.content, "slot"), r.id.suffix)
  }

  function WithStatus(r: Record, status: map<Key, map<string, Datum>>): (u: Record)
    ensures u == r.(content := u.content)
  {
    if IsControl(r.kind) && KeyOf(r) in status then r.(content := r.content + status[KeyOf(r)]) else r
  }

  function WithStatuses(records: seq<Record>, status: map<Key, map<string, Datum>>): (r: seq<Record>)
    ensures |r| == |records|
    ensures forall i :: 0 <= i < |r| ==> r[i] == WithStatus(records[i], status)
  {
    seq(|records|, i requires 0 <= i < |records| => WithStatus(records[i], status))
  }

  // ---- All events --------------------------------------------------------------------------

  function AllCandidates(f: Form, events: seq<EventRow>): seq<Record> {
    if events == [] then []
    else AllCandidates(f, events[..|events| - 1]) + Candidates(f, events[|events| - 1])
  }

  function AllWrites(f: Form, events: seq<EventRow>): seq<Write> {
    if events == [] then []
    else AllWrites(f, events[..|events| - 1]) + EventWrites(f, events[|events| - 1])
  }

  predicate HasId(records: seq<Record>, id: RecordId) {
    exists r :: r in records && r.id == id
  }

  function FirstOfEachId(records: seq<Record>): seq<Record> {
    if records == [] then []
    else
      var init, last := FirstOfEachId(records[..|records| - 1]), records[|records| - 1];
      if HasId(init, last.id) then init else init + [last]
  }

  predicate KernelsAreNative(records: seq<Record>) {
    forall r :: r in records ==> r.kernel in KERNELS
  }

  datatype Normalised = InvalidKernel | Normalised(records: seq<Record>)

  /** The records the saved tables determine. */
  function Normal(o: Order, f: Form): Normalised {
    var events := IncludedEvents(o, f);
    var candidates := AllCandidates(f, events);
    if !KernelsAreNative(candidates) then InvalidKernel
    else Normalised(Sort(Chronological(o), WithStatuses(FirstOfEachId(candidates), LastWrites(AllWrites(f, events)))))
  }

  // ---- Excluded events make no difference --------------------------------------------------

  ghost predicate OnePerId(events: seq<EventRow>) {
    && (forall e :: multiset(events)[e] <= 1)
    && (forall x, y :: x in events && y in events && x.id == y.id ==> x == y)
  }

  lemma {:induction false} LastByIdIsOnePerId(rows: seq<EventRow>)
    ensures OnePerId(LastById(rows)) && forall e :: e in LastById(rows) ==> e in rows
  {
    if rows != [] {
      LastByIdIsOnePerId(rows[1..]);
      var rest := LastById(rows[1..]);
      if !exists e :: e in rows[1..] && e.id == rows[0].id {
        assert rows[0] !in rest;
      }
    }
  }

  lemma TailIsOnePerId(rows: seq<EventRow>)
    requires OnePerId(rows) && rows != []
    ensures OnePerId(rows[1..]) && rows[0] !in rows[1..] && forall e :: e in rows[1..] ==> e in rows
  {
    assert rows == [rows[0]] + rows[1..];
    assert multiset(rows) == multiset{rows[0]} + multiset(rows[1..]);
    assert multiset(rows)[rows[0]] == 1 + multiset(rows[1..])[rows[0]];
    forall e
      ensures multiset(rows[1..])[e] <= 1
    {
      assert multiset(rows[1..])[e] <= multiset(rows)[e];
    }
  }

  lemma {:induction false} LastByIdOfOnePerId(rows: seq<EventRow>)
    requires OnePerId(rows)
    ensures LastById(rows) == rows
  {
    if rows != [] {
      TailIsOnePerId(rows);
      LastByIdOfOnePerId(rows[1..]);
    }
  }

  lemma ByTimeIsTotal(o: Order)
    requires ProperOrder(o)
    ensures TotalPreorder(ByTime(o))
  {
    var le := ByTime(o);
    forall a, b
      ensures le(a, b) || le(b, a)
    {
      assert o.text(a.occurredAt.text, b.occurredAt.text) || o.text(b.occurredAt.text, a.occurredAt.text);
    }
    forall a, b, c | le(a, b) && le(b, c)
      ensures le(a, c)
    {
      assert o.text(a.occurredAt.text, b.occurredAt.text) && o.text(b.occurredAt.text, c.occurredAt.text) by {
        assert o.text(a.occurredAt.text, a.occurredAt.text) && o.text(b.occurredAt.text, b.occurredAt.text);
      }
      assert o.text(a.occurredAt.text, c.occurredAt.text);
    }
  }

  lemma ByTimeSeparates(o: Order, events: seq<EventRow>)
    requires ProperOrder(o) && OnePerId(events)
    ensures Separates(ByTime(o), events)
  {
    var le := ByTime(o);
    forall x, y | x in events && y in events && le(x, y) && le(y, x)
      ensures x == y
    {
      assert o.text(x.occurredAt.text, y.occurredAt.text) && o.text(y.occurredAt.text, x.occurredAt.text)
             ==> x.occurredAt.text == y.occurredAt.text;
      assert x.id == y.id;
    }
  }

  lemma RearrangedIsOnePerId(a: seq<EventRow>, b: seq<EventRow>)
    requires OnePerId(a) && multiset(a) == multiset(b)
    ensures OnePerId(b)
  {
    forall e | e in b
      ensures e in a
    {
      assert e in multiset(b);
    }
  }

  lemma IncludedEventsAre(o: Order, f: Form)
    requires ProperOrder(o)
    ensures
      var events := IncludedEvents(o, f);
      && OnePerId(events) && SortedBy(ByTime(o), events)
      && forall e :: e in events <==> e in LastById(f.events) && Included(f, e)
  {
    var rows := LastById(f.events);
    LastByIdIsOnePerId(f.events);
    ByTimeIsTotal(o);
    SortIsSorted(ByTime(o), rows);
    var sorted := Sort(ByTime(o), rows);
    RearrangedIsOnePerId(rows, sorted);
    FilterIsSorted(ByTime(o), IncludedIn(f), sorted);
    forall e
      ensures multiset(IncludedEvents(o, f))[e] <= 1
      ensures e in sorted <==> e in rows
    {
      FilterCounts(IncludedIn(f), sorted, e);
      assert e in sorted <==> e in multiset(sorted);
      assert e in rows <==> e in multiset(rows);
    }
  }

  predicate OfSome(event: Option<int>, events: seq<EventRow>) {
    exists e :: e in events && event == Some(e.id)
  }

  function RowOf<T>(table: map<int, T>, id: Option<int>): map<int, T> {
    map k | k in table && id == Some(k) :: table[k]
  }

  /** The rows that say who owns a scope. */
  function OwnersOf(s: Scope, w: Owners): Owners {
    Owners(RowOf(w.projects, s.project), RowOf(w.roadmaps, OwnerIn(w.checkpoints, s.checkpoint)),
           RowOf(w.checkpoints, s.checkpoint), RowOf(w.sessions, s.session))
  }

  function FactsAbout(facts: seq<Fact>, events: seq<EventRow>): seq<Fact> {
    Filter((fact: Fact) => OfSome(fact.event, events), facts)
  }

  function NodesOf(nodes: map<int, Node>, facts: seq<Fact>): map<int, Node> {
    map n | n in nodes && (exists fact :: fact in facts && fact.node == n) :: nodes[n]
  }

  function QuestionsOf(questions: map<int, Option<int>>, events: seq<EventRow>): map<int, Option<int>> {
    map q | q in questions && (exists e :: e in events && e.payload.item == Some(q)) :: questions[q]
  }

  function AttemptsOf(attempts: map<int, AttemptRow>, events: seq<EventRow>): map<int, AttemptRow> {
    map a | a in attempts && (exists e :: e in events && e.payload.attempt == Some(a)) :: attempts[a]
  }

  /** Only the included events, with their applied mutations, facts and attempts, and the nodes, questions and
      owners that these name. */
  function Relevant(o: Order, f: Form): Form {
    var events := IncludedEvents(o, f);
    var facts := FactsAbout(f.facts, events);
    f.(owners := OwnersOf(f.scope, f.owners), nodes := NodesOf(f.nodes, facts), questions := QuestionsOf(f.questions, events),
       events := events,
       mutations := Filter((m: Mutation) => m.applied && m.learner == f.scope.learner && OfSome(m.event, events), f.mutations),
       facts := facts, attempts := AttemptsOf(f.attempts, events))
  }

  lemma RowDecides<T>(table: map<int, T>, other: map<int, T>, id: Option<int>)
    requires RowOf(table, id) == RowOf(other, id)
    ensures Lookup(table, id) == Lookup(other, id)
  {
    if id.Some? {
      assert id.value in table <==> id.value in RowOf(table, id);
      assert id.value in other <==> id.value in RowOf(other, id);
      assert id.value in table ==> table[id.value] == RowOf(table, id)[id.value] == other[id.value];
    }
  }

  /** Whether an event is included depends on the owners of the form's own scope alone. */
  lemma SameOwnersInclude(f: Form, g: Form, e: EventRow)
    requires f.scope == g.scope && f.at == g.at && OwnersOf(f.scope, f.owners) == OwnersOf(f.scope, g.owners)
    ensures Included(f, e) == Included(g, e)
  {
    var s, v, w := f.scope, f.owners, g.owners;
    RowDecides(v.projects, w.projects, s.project);
    RowDecides(v.checkpoints, w.checkpoints, s.checkpoint);
    RowDecides(v.roadmaps, w.roadmaps, OwnerIn(v.checkpoints, s.checkpoint));
    RowDecides(v.sessions, w.sessions, s.session);
    if InScope(e.scope, s) {
      assert Belongs(e.scope, v) == Belongs(e.scope, w);
    }
  }

  lemma RowOnce<T>(table: map<int, T>, id: Option<int>)
    ensures RowOf(RowOf(table, id), id) == RowOf(table, id) && Lookup(RowOf(table, id), id) == Lookup(table, id)
  {
  }

  lemma OwnersOnce(s: Scope, w: Owners)
    ensures OwnersOf(s, OwnersOf(s, w)) == OwnersOf(s, w)
  {
    RowOnce(w.projects, s.project);
    RowOnce(w.checkpoints, s.checkpoint);
    RowOnce(w.roadmaps, OwnerIn(w.checkpoints, s.checkpoint));
    RowOnce(w.sessions, s.session);
  }

  lemma RelevantEvents(o: Order, f: Form)
    requires ProperOrder(o)
    ensures IncludedEvents(o, Relevant(o, f)) == IncludedEvents(o, f)
  {
    var events, g := IncludedEvents(o, f), Relevant(o, f);
    IncludedEventsAre(o, f);
    LastByIdOfOnePerId(events);
    ByTimeIsTotal(o);
    ByTimeSeparates(o, events);
    SortOfSorted(ByTime(o), events, events);
    OwnersOnce(f.scope, f.owners);
    forall e | e in events
      ensures Included(g, e)
    {
      SameOwnersInclude(f, g, e);
    }
    FilterAll(IncludedIn(g), events);
  }

  lemma RelevantMutations(o: Order, f: Form, e: EventRow)
    requires e in IncludedEvents(o, f)
    ensures LocalMutations(Relevant(o, f), e) == LocalMutations(f, e)
  {
    var events := IncludedEvents(o, f);
    FilterTwice((m: Mutation) => m.applied && m.learner == f.scope.learner && OfSome(m.event, events),
                m => Local(m, e.id, f.scope.learner), f.mutations);
  }

  /** Two tables hold the same row, or none, under an id. */
  predicate SameRow<T(==)>(table: map<int, T>, other: map<int, T>, id: int) {
    && (id in table <==> id in other)
    && (id in table && id in other ==> table[id] == other[id])
  }

  lemma {:induction false} SameNodesSameFacts(facts: seq<Fact>, nodes: map<int, Node>, other: map<int, Node>, kernel: Kernel)
    requires forall fact :: fact in facts ==> SameRow(nodes, other, fact.node)
    ensures FactsOf(facts, nodes, kernel) == FactsOf(facts, other, kernel)
  {
    if facts != [] {
      SameNodesSameFacts(facts[1..], nodes, other, kernel);
    }
  }

  /** Tables with the same mutations of an event, and with the same nodes for the same facts, verify the same. */
  lemma SameFactsVerify(f: Form, g: Form, e: EventRow, facts: seq<Fact>)
    requires f.scope == g.scope && LocalMutations(f, e) == LocalMutations(g, e)
    requires forall fact :: fact in facts ==> SameRow(f.nodes, g.nodes, fact.node)
    requires VerifiedFacts(f, e) == Filter(fact => Verified(f.scope, f.nodes, LocalMutations(f, e), e, fact), facts)
    requires VerifiedFacts(g, e) == Filter(fact => Verified(g.scope, g.nodes, LocalMutations(g, e), e, fact), facts)
    ensures VerifiedFacts(f, e) == VerifiedFacts(g, e)
    ensures forall kernel :: FactsOf(VerifiedFacts(f, e), f.nodes, kernel) == FactsOf(VerifiedFacts(g, e), g.nodes, kernel)
  {
    var local := LocalMutations(f, e);
    FilterAgrees(fact => Verified(f.scope, f.nodes, local, e, fact), fact => Verified(g.scope, g.nodes, local, e, fact), facts);
    forall kernel
      ensures FactsOf(VerifiedFacts(f, e), f.nodes, kernel) == FactsOf(VerifiedFacts(f, e), g.nodes, kernel)
    {
      SameNodesSameFacts(VerifiedFacts(f, e), f.nodes, g.nodes, kernel);
    }
  }

  lemma RelevantFacts(o: Order, f: Form, e: EventRow)
    requires e in IncludedEvents(o, f)
    ensures Agree(Relevant(o, f), f, e)
  {
    var events, g := IncludedEvents(o, f), Relevant(o, f);
    RelevantMutations(o, f, e);
    FilterTwice((fact: Fact) => OfSome(fact.event, events),
                fact => Verified(f.scope, f.nodes, LocalMutations(f, e), e, fact), f.facts);
    NodesOfHold(f.nodes, g.facts);
    SameFactsVerify(g, f, e, g.facts);
    RelevantLookups(o, f, e);
  }

  lemma NodesOfHold(nodes: map<int, Node>, facts: seq<Fact>)
    ensures forall fact :: fact in facts ==> SameRow(NodesOf(nodes, facts), nodes, fact.node)
  {
  }

  lemma RelevantLookups(o: Order, f: Form, e: EventRow)
    requires e in IncludedEvents(o, f)
    ensures Lookup(Relevant(o, f).attempts, e.payload.attempt) == Lookup(f.attempts, e.payload.attempt)
    ensures Lookup(Relevant(o, f).questions, e.payload.item) == Lookup(f.questions, e.payload.item)
  {
  }

  /** Two sets of tables that say the same about one event. */
  ghost predicate Agree(f: Form, g: Form, e: EventRow) {
    && f.scope == g.scope && f.at == g.at
    && LocalMutations(f, e) == LocalMutations(g, e) && VerifiedFacts(f, e) == VerifiedFacts(g, e)
    && (forall kernel :: FactsOf(VerifiedFacts(f, e), f.nodes, kernel) == FactsOf(VerifiedFacts(g, e), g.nodes, kernel))
    && Lookup(f.attempts, e.payload.attempt) == Lookup(g.attempts, e.payload.attempt)
    && Lookup(f.questions, e.payload.item) == Lookup(g.questions, e.payload.item)
  }

  lemma {:induction false} SameControls(f: Form, g: Form, e: EventRow, postings: seq<Posting>)
    requires Slotted(postings)
    requires Agree(f, g, e)
    ensures ControlRecords(f, e, postings) == ControlRecords(g, e, postings)
  {
    if postings != [] {
      SameControls(f, g, e, postings[..|postings| - 1]);
    }
  }

  lemma SameGrading(f: Form, g: Form, e: EventRow, a: AttemptRow)
    requires Agree(f, g, e)
    ensures FormalAttempt(f, e, a) == FormalAttempt(g, e, a)
  {
  }

  lemma SameGraded(f: Form, g: Form, e: EventRow)
    requires Agree(f, g, e)
    ensures GradedRecord(f, e) == GradedRecord(g, e)
  {
    var a := Lookup(f.attempts, e.payload.attempt);
    if a.Some? {
      SameGrading(f, g, e, a.value);
    }
  }

  lemma SameReport(f: Form, g: Form, e: EventRow)
    requires Agree(f, g, e)
    ensures ReportRecord(f, e) == ReportRecord(g, e)
  {
  }

  lemma SameCandidates(f: Form, g: Form, e: EventRow)
    requires Agree(f, g, e)
    ensures Candidates(f, e) == Candidates(g, e) && EventWrites(f, e) == EventWrites(g, e)
  {
    SameGraded(f, g, e);
    SameReport(f, g, e);
    SameControls(f, g, e, Postings(LocalMutations(f, e)));
  }

  lemma {:induction false} SameAll(f: Form, g: Form, events: seq<EventRow>)
    requires forall e :: e in events ==> Agree(f, g, e)
    ensures AllCandidates(f, events) == AllCandidates(g, events) && AllWrites(f, events) == AllWrites(g, events)
  {
    if events != [] {
      SameAll(f, g, events[..|events| - 1]);
      SameCandidates(f, g, events[|events| - 1]);
    }
  }

  lemma RelevantIsEnough(o: Order, f: Form)
    requires ProperOrder(o)
    ensures Normal(o, Relevant(o, f)) == Normal(o, f)
  {
    var events := IncludedEvents(o, f);
    RelevantEvents(o, f);
    forall e | e in events
      ensures Agree(Relevant(o, f), f, e)
    {
      RelevantFacts(o, f, e);
    }
    SameAll(Relevant(o, f), f, events);
  }

  /** Out-of-scope, wrongly owned, undated and future events make no difference, and neither do their
      mutations, facts and attempts, nor any node, question or owner that only they name. */
  lemma ExcludedEventsMakeNoDifference(o: Order, f: Form)
    requires ProperOrder(o)
    ensures Normal(o, Relevant(o, f)) == Normal(o, f)
    ensures forall g :: Relevant(o, g) == Relevant(o, f) ==> Normal(o, g) == Normal(o, f)
  {
    forall g | Relevant(o, g) == Relevant(o, f)
      ensures Normal(o, g) == Normal(o, Relevant(o, f))
    {
      RelevantIsEnough(o, g);
    }
  }

  /** The form with the rows of another one added to every table. */
  function WithRows(f: Form, more: Form): Form {
    f.(owners := Owners(f.owners.projects + more.owners.projects, f.owners.roadmaps + more.owners.roadmaps,
                        f.owners.checkpoints + more.owners.checkpoints, f.owners.sessions + more.owners.sessions),
       nodes := f.nodes + more.nodes, questions := f.questions + more.questions, events := f.events + more.events,
       mutations := f.mutations + more.mutations, facts := f.facts + more.facts, attempts := f.attempts + more.attempts)
  }

  /** Owner rows that do not concern a scope. */
  predicate OwnersOfOthers(s: Scope, w: Owners, more: Owners) {
    && Lookup(more.projects, s.project).None? && Lookup(more.checkpoints, s.checkpoint).None?
    && Lookup(more.roadmaps, OwnerIn(w.checkpoints, s.checkpoint)).None? && Lookup(more.sessions, s.session).None?
  }

  /** Events under new ids that would be excluded, with mutations and facts of their own, and with nodes,
      questions, attempts and owners that no row saved before refers to. */
  ghost predicate Foreigners(f: Form, more: Form) {
    && (forall e :: e in more.events ==> !Included(f, e) && forall known :: known in f.events ==> known.id != e.id)
    && (forall m :: m in more.mutations ==> OfSome(m.event, more.events))
    && (forall fact :: fact in more.facts ==> OfSome(fact.event, more.events))
    && (forall fact :: fact in f.facts ==> fact.node !in more.nodes)
    && (forall e :: e in f.events ==> Lookup(more.questions, e.payload.item).None? && Lookup(more.attempts, e.payload.attempt).None?)
    && OwnersOfOthers(f.scope, f.owners, more.owners)
  }

  lemma {:induction false} LastByIdJoins(a: seq<EventRow>, b: seq<EventRow>)
    requires forall x, y :: x in a && y in b ==> x.id != y.id
    ensures LastById(a + b) == LastById(a) + LastById(b)
  {
    if a == [] {
      assert a + b == b;
    } else {
      assert (a + b)[0] == a[0] && (a + b)[1..] == a[1..] + b;
      LastByIdJoins(a[1..], b);
      assert forall e :: e in a[1..] + b <==> e in a[1..] || e in b;
    }
  }

  lemma SortLeavesOut(o: Order, keep: EventRow -> bool, rows: seq<EventRow>, more: seq<EventRow>)
    requires ProperOrder(o) && OnePerId(rows) && OnePerId(rows + more)
    requires forall e :: e in more ==> !keep(e)
    ensures Filter(keep, Sort(ByTime(o), rows + more)) == Filter(keep, Sort(ByTime(o), rows))
  {
    ByTimeIsTotal(o);
    ByTimeSeparates(o, rows + more);
    ByTimeSeparates(o, rows);
    FilterOfSort(ByTime(o), keep, rows + more);
    FilterOfSort(ByTime(o), keep, rows);
    AddedRowsAreIrrelevant(keep, rows, more);
  }

  lemma AddedEventsAreLeftOut(o: Order, f: Form, g: Form, events: seq<EventRow>)
    requires ProperOrder(o) && g.events == f.events + events
    requires g.scope == f.scope && g.at == f.at && OwnersOf(f.scope, f.owners) == OwnersOf(f.scope, g.owners)
    requires forall e :: e in events ==> !Included(f, e)
    requires forall known, e :: known in f.events && e in events ==> known.id != e.id
    ensures IncludedEvents(o, g) == IncludedEvents(o, f)
  {
    var rows, more := LastById(f.events), LastById(events);
    LastByIdJoins(f.events, events);
    LastByIdIsOnePerId(g.events);
    LastByIdIsOnePerId(f.events);
    LastByIdIsOnePerId(events);
    forall e
      ensures Included(f, e) == Included(g, e)
    {
      SameOwnersInclude(f, g, e);
    }
    SortLeavesOut(o, IncludedIn(g), rows, more);
    FilterAgrees(IncludedIn(g), IncludedIn(f), Sort(ByTime(o), rows));
  }

  lemma AddedRowsAreIrrelevant<T(!new)>(keep: T -> bool, rows: seq<T>, more: seq<T>)
    requires forall x :: x in more ==> !keep(x)
    ensures Filter(keep, rows + more) == Filter(keep, rows)
  {
    FilterSplits(keep, rows, more);
    FilterNothing(keep, more);
  }

  lemma OfOthers(o: Order, f: Form, events: seq<EventRow>, event: Option<int>)
    requires ProperOrder(o) && OfSome(event, events)
    requires forall e, known :: e in events && known in f.events ==> known.id != e.id
    ensures !OfSome(event, IncludedEvents(o, f))
  {
    IncludedEventsAre(o, f);
    LastByIdIsOnePerId(f.events);
  }

  lemma RowsApart<T>(table: map<int, T>, more: map<int, T>, id: Option<int>)
    requires Lookup(more, id).None?
    ensures RowOf(table + more, id) == RowOf(table, id) && Lookup(table + more, id) == Lookup(table, id)
  {
  }

  lemma AddedOwnersAreOthers(s: Scope, w: Owners, more: Owners)
    requires OwnersOfOthers(s, w, more)
    ensures
      var all := Owners(w.projects + more.projects, w.roadmaps + more.roadmaps, w.checkpoints + more.checkpoints,
                        w.sessions + more.sessions);
      OwnersOf(s, all) == OwnersOf(s, w)
  {
    RowsApart(w.projects, more.projects, s.project);
    RowsApart(w.checkpoints, more.checkpoints, s.checkpoint);
    RowsApart(w.roadmaps, more.roadmaps, OwnerIn(w.checkpoints, s.checkpoint));
    RowsApart(w.sessions, more.sessions, s.session);
  }

  lemma AddedEventsAreExcluded(o: Order, f: Form, more: Form)
    requires ProperOrder(o) && Foreigners(f, more)
    ensures IncludedEvents(o, WithRows(f, more)) == IncludedEvents(o, f)
    ensures forall e :: e in IncludedEvents(o, f) ==> e in f.events
  {
    AddedOwnersAreOthers(f.scope, f.owners, more.owners);
    AddedEventsAreLeftOut(o, f, WithRows(f, more), more.events);
    IncludedEventsAre(o, f);
    LastByIdIsOnePerId(f.events);
  }

  lemma AddedMutationsAreOthers(o: Order, f: Form, more: Form)
    requires ProperOrder(o) && Foreigners(f, more)
    ensures Relevant(o, WithRows(f, more)).mutations == Relevant(o, f).mutations
  {
    var included := IncludedEvents(o, f);
    AddedEventsAreExcluded(o, f, more);
    forall m | m in more.mutations
      ensures !OfSome(m.event, included)
    {
      OfOthers(o, f, more.events, m.event);
    }
    AddedRowsAreIrrelevant((m: Mutation) => m.applied && m.learner == f.scope.learner && OfSome(m.event, included),
                           f.mutations, more.mutations);
  }

  lemma AddedFactsAreOthers(o: Order, f: Form, more: Form)
    requires ProperOrder(o) && Foreigners(f, more)
    ensures FactsAbout(f.facts + more.facts, IncludedEvents(o, f)) == FactsAbout(f.facts, IncludedEvents(o, f))
  {
    var included := IncludedEvents(o, f);
    forall fact | fact in more.facts
      ensures !OfSome(fact.event, included)
    {
      OfOthers(o, f, more.events, fact.event);
    }
    AddedRowsAreIrrelevant((fact: Fact) => OfSome(fact.event, included), f.facts, more.facts);
  }

  lemma {:induction false} FactsAboutAreSaved(facts: seq<Fact>, events: seq<EventRow>)
    ensures forall fact :: fact in FactsAbout(facts, events) ==> fact in facts
  {
    if facts != [] {
      FactsAboutAreSaved(facts[1..], events);
    }
  }

  lemma AddedTablesAreOthers(f: Form, more: Form, events: seq<EventRow>)
    requires Foreigners(f, more) && forall e :: e in events ==> e in f.events
    ensures NodesOf(f.nodes + more.nodes, FactsAbout(f.facts, events)) == NodesOf(f.nodes, FactsAbout(f.facts, events))
    ensures QuestionsOf(f.questions + more.questions, events) == QuestionsOf(f.questions, events)
    ensures AttemptsOf(f.attempts + more.attempts, events) == AttemptsOf(f.attempts, events)
  {
    FactsAboutAreSaved(f.facts, events);
    NodesApart(f.nodes, more.nodes, FactsAbout(f.facts, events));
    QuestionsApart(f.questions, more.questions, events);
    AttemptsApart(f.attempts, more.attempts, events);
  }

  lemma NodesApart(nodes: map<int, Node>, more: map<int, Node>, facts: seq<Fact>)
    requires forall fact :: fact in facts ==> fact.node !in more
    ensures NodesOf(nodes + more, facts) == NodesOf(nodes, facts)
  {
  }

  lemma QuestionsApart(questions: map<int, Option<int>>, more: map<int, Option<int>>, events: seq<EventRow>)
    requires forall e :: e in events ==> Lookup(more, e.payload.item).None?
    ensures QuestionsOf(questions + more, events) == QuestionsOf(questions, events)
  {
  }

  lemma AttemptsApart(attempts: map<int, AttemptRow>, more: map<int, AttemptRow>, events: seq<EventRow>)
    requires forall e :: e in events ==> Lookup(more, e.payload.attempt).None?
    ensures AttemptsOf(attempts + more, events) == AttemptsOf(attempts, events)
  {
  }

  /** Excluded events can be added under new ids, with rows of their own in every table, and nothing changes. */
  lemma ExcludedEventsCanBeAdded(o: Order, f: Form, more: Form)
    requires ProperOrder(o) && Foreigners(f, more)
    ensures Relevant(o, WithRows(f, more)) == Relevant(o, f) && Normal(o, WithRows(f, more)) == Normal(o, f)
  {
    AddedEventsAreExcluded(o, f, more);
    AddedMutationsAreOthers(o, f, more);
    AddedFactsAreOthers(o, f, more);
    AddedTablesAreOthers(f, more, IncludedEvents(o, f));
    AddedOwnersAreOthers(f.scope, f.owners, more.owners);
    ExcludedEventsMakeNoDifference(o, f);
  }

  // ---- What packing needs ------------------------------------------------------------------

  /** A record of event `e`, as `normalize` first adds it. */
  predicate RecordOf(r: Record, e: EventRow) {
    r.source == e.id && r.id.event == e.id && r.occurredAt == e.occurredAt.text && r.eligibility.None?
  }

  lemma {:induction false} ControlRecordsAre(f: Form, e: EventRow, postings: seq<Posting>, r: Record)
    requires Slotted(postings)
    requires r in ControlRecords(f, e, postings)
    ensures exists p :: p in postings && p.entry.sourceEvent == Some(e.id) && r == ControlRecord(f, e, p)
  {
    var last := postings[|postings| - 1];
    if r in ControlRecords(f, e, postings[..|postings| - 1]) {
      ControlRecordsAre(f, e, postings[..|postings| - 1], r);
    } else {
      assert last in postings && r == ControlRecord(f, e, last);
    }
  }

  lemma CandidatesAre(f: Form, e: EventRow, r: Record)
    requires r in Candidates(f, e)
    ensures RecordOf(r, e)
    ensures IsControl(r.kind) ==>
      exists p :: p in Postings(LocalMutations(f, e)) && p.entry.sourceEvent == Some(e.id) && r == ControlRecord(f, e, p)
  {
    if r in ControlRecords(f, e, Postings(LocalMutations(f, e))) {
      ControlRecordsAre(f, e, Postings(LocalMutations(f, e)), r);
    }
  }

  lemma {:induction false} AllCandidatesAre(f: Form, events: seq<EventRow>, r: Record)
    requires r in AllCandidates(f, events)
    ensures exists e :: e in events && r in Candidates(f, e)
  {
    var last := events[|events| - 1];
    if r in AllCandidates(f, events[..|events| - 1]) {
      AllCandidatesAre(f, events[..|events| - 1], r);
    } else {
      assert last in events && r in Candidates(f, last);
    }
  }

  /** No earlier record has the id of record `i`. */
  ghost predicate IsFirst(records: seq<Record>, i: nat) {
    i < |records| && forall j :: 0 <= j < i ==> records[j].id != records[i].id
  }

  /** One record of each id survives. */
  lemma {:induction false} FirstOfEachIdAre(records: seq<Record>)
    ensures DistinctIds(FirstOfEachId(records))
    ensures forall r :: r in FirstOfEachId(records) ==> r in records
    ensures forall id :: HasId(FirstOfEachId(records), id) <==> HasId(records, id)
  {
    if records != [] {
      var init, last := records[..|records| - 1], records[|records| - 1];
      FirstOfEachIdAre(init);
      assert records == init + [last];
      assert forall k :: 0 <= k < |FirstOfEachId(init)| ==> FirstOfEachId(init)[k] in FirstOfEachId(init);
      forall id
        ensures HasId(FirstOfEachId(records), id) <==> HasId(records, id)
      {
        HasIdExtends(init, last, id);
        HasIdExtends(FirstOfEachId(init), last, id);
      }
    }
  }

  /** It is the first one. */
  lemma {:induction false} FirstsSurvive(records: seq<Record>, r: Record)
    ensures r in FirstOfEachId(records) <==> exists i: nat :: IsFirst(records, i) && records[i] == r
  {
    if records != [] {
      var n := |records| - 1;
      var init, last := records[..n], records[n];
      FirstsSurvive(init, r);
      FirstOfEachIdAre(init);
      LastIsFirst(records);
      forall i: nat | i < n
        ensures IsFirst(records, i) <==> IsFirst(init, i)
      {
        assert forall j :: 0 <= j <= i ==> init[j] == records[j];
      }
      if i: nat :| IsFirst(records, i) && records[i] == r {
        assert i == n || IsFirst(init, i);
      }
      if r in FirstOfEachId(init) {
        var i: nat :| IsFirst(init, i) && init[i] == r;
        assert IsFirst(records, i);
      }
    }
  }

  lemma LastIsFirst(records: seq<Record>)
    requires records != []
    ensures IsFirst(records, |records| - 1) <==> !HasId(records[..|records| - 1], records[|records| - 1].id)
  {
    var n := |records| - 1;
    assert forall j :: 0 <= j < n ==> records[..n][j] == records[j] && records[j] in records[..n];
  }

  lemma HasIdExtends(records: seq<Record>, r: Record, id: RecordId)
    ensures HasId(records + [r], id) <==> HasId(records, id) || r.id == id
  {
    if r.id == id {
      assert r in records + [r];
    }
  }

  /** The status written last to each control. */
  function Status(o: Order, f: Form): map<Key, map<string, Datum>> {
    LastWrites(AllWrites(f, IncludedEvents(o, f)))
  }

  /** Where a canonical record comes from. */
  lemma RecordsComeFrom(o: Order, f: Form, r: Record) returns (e: EventRow, c: Record)
    requires ProperOrder(o) && Normal(o, f).Normalised? && r in Normal(o, f).records
    ensures e in LastById(f.events) && Included(f, e) && e in IncludedEvents(o, f)
    ensures c in Candidates(f, e) && r == WithStatus(c, Status(o, f)) && c.kernel in KERNELS
  {
    var events := IncludedEvents(o, f);
    var first := FirstOfEachId(AllCandidates(f, events));
    var updated := WithStatuses(first, Status(o, f));
    ChronologicalIsTotal(o);
    SortIsSorted(Chronological(o), updated);
    assert r in multiset(Sort(Chronological(o), updated));
    assert r in updated;
    var i :| 0 <= i < |updated| && updated[i] == r;
    c := first[i];
    FirstOfEachIdAre(AllCandidates(f, events));
    assert c in first;
    AllCandidatesAre(f, events, c);
    e :| e in events && c in Candidates(f, e);
    IncludedEventsAre(o, f);
  }

  lemma UpdatedHaveDistinctIds(records: seq<Record>, status: map<Key, map<string, Datum>>)
    requires DistinctIds(records)
    ensures DistinctIds(WithStatuses(records, status))
  {
  }

  lemma SortKeepsIds(o: Order, records: seq<Record>)
    requires ProperOrder(o) && DistinctIds(records)
    ensures DistinctIds(Sort(Chronological(o), records)) && SortedBy(Chronological(o), Sort(Chronological(o), records))
  {
    ChronologicalIsTotal(o);
    SortIsSorted(Chronological(o), records);
    DistinctIdsInAnyOrder(records, Sort(Chronological(o), records));
  }

  /** Normalised records are what packing expects: chronological, with distinct ids, one time per
      event, native kernels and no annotation yet. */
  lemma NormalisedRecordsAreCanonical(o: Order, f: Form)
    requires ProperOrder(o) && Normal(o, f).Normalised?
    ensures Canonical(o, Normal(o, f).records)
  {
    var records := Normal(o, f).records;
    FirstOfEachIdAre(AllCandidates(f, IncludedEvents(o, f)));
    UpdatedHaveDistinctIds(FirstOfEachId(AllCandidates(f, IncludedEvents(o, f))), Status(o, f));
    SortKeepsIds(o, WithStatuses(FirstOfEachId(AllCandidates(f, IncludedEvents(o, f))), Status(o, f)));
    IncludedEventsAre(o, f);
    forall x, y | x in records && y in records && x.source == y.source
      ensures x.occurredAt == y.occurredAt && x.kernel in KERNELS && x.eligibility.None?
    {
      var d, a := RecordsComeFrom(o, f, x);
      var e, b := RecordsComeFrom(o, f, y);
      CandidatesAre(f, d, a);
      CandidatesAre(f, e, b);
    }
  }

  lemma {:induction false} FactsAreOf(facts: seq<Fact>, nodes: map<int, Node>, kernel: Kernel, n: int)
    requires n in FactsOf(facts, nodes, kernel)
    ensures n in nodes && nodes[n].kernel == kernel && exists fact :: fact in facts && fact.node == n
  {
    if n in FactsOf(facts[1..], nodes, kernel) {
      FactsAreOf(facts[1..], nodes, kernel, n);
    } else {
      assert facts[0] in facts;
    }
  }

  /** What a record claims about its event is in the saved tables. */
  ghost predicate Backed(f: Form, e: EventRow, r: Record) {
    && r.source == e.id && r.occurredAt == e.occurredAt.text && r.scope == e.scope
    && (forall id :: id in r.mutations ==> exists m :: m in f.mutations && m.id == id && Local(m, e.id, f.scope.learner))
    && (forall n :: n in r.facts ==>
          && n in f.nodes && f.nodes[n].kernel == r.kernel && f.nodes[n].fact
          && InScope(f.nodes[n].scope, f.scope) && SamePlace(f.nodes[n].scope, e.scope)
          && exists fact, m :: fact in f.facts && m in f.mutations && fact.node == n && Wrote(f, e, fact, m))
  }

  /** The mutation applied for the event wrote the value that the fact states, in the event's place. */
  predicate Wrote(f: Form, e: EventRow, fact: Fact, m: Mutation) {
    && fact.event == Some(e.id) && fact.mutation == m.id && Local(m, e.id, f.scope.learner)
    && SamePlace(fact.scope, e.scope)
    && fact.node in f.nodes && f.nodes[fact.node].kernel == m.kernel
    && fact.path.Some? && Patched(m, fact.path.value) == fact.objectValue
  }

  lemma {:induction false} FirstWithIdIsThere(mutations: seq<Mutation>, id: int)
    ensures FirstWithId(mutations, id).Some? ==>
      FirstWithId(mutations, id).value in mutations && FirstWithId(mutations, id).value.id == id
  {
    if mutations != [] {
      FirstWithIdIsThere(mutations[1..], id);
    }
  }

  lemma VerifiedFactIsWritten(f: Form, e: EventRow, fact: Fact)
    requires fact in VerifiedFacts(f, e)
    ensures fact in f.facts && fact.node in f.nodes && f.nodes[fact.node].fact
    ensures InScope(f.nodes[fact.node].scope, f.scope) && SamePlace(f.nodes[fact.node].scope, e.scope)
    ensures exists m :: m in f.mutations && Wrote(f, e, fact, m)
  {
    FirstWithIdIsThere(LocalMutations(f, e), fact.mutation);
    var m := FirstWithId(LocalMutations(f, e), fact.mutation).value;
    assert m in f.mutations && Wrote(f, e, fact, m);
  }

  /** A graded record repeats the verdict of an evaluated attempt that the event answers for. */
  predicate GradedBy(f: Form, e: EventRow, r: Record, a: AttemptRow) {
    && InScope(a.scope, f.scope) && a.status == "evaluated" && a.item == e.payload.item
    && a.submittedAt.Some? && a.evaluatedAt.Some? && a.submittedAt.value <= a.evaluatedAt.value <= f.at
    && a.evaluatedAt == e.occurredAt.instant
    && a.correct.Flag? && e.payload.correct == a.correct && e.payload.assistance == a.assistance
    && Value(r.content, "result") == Words(if a.correct.b then "correct" else "incorrect")
    && Value(r.content, "assistance_level") == a.assistance
  }

  lemma CandidateIsBacked(f: Form, e: EventRow, c: Record)
    requires c in Candidates(f, e)
    ensures Backed(f, e, c)
  {
    if c in ControlRecords(f, e, Postings(LocalMutations(f, e))) {
      ControlRecordsAre(f, e, Postings(LocalMutations(f, e)), c);
    }
    assert c.mutations == Ids(LocalMutations(f, e)) && c.facts == FactsOf(VerifiedFacts(f, e), f.nodes, c.kernel);
    forall n | n in c.facts
      ensures n in f.nodes && f.nodes[n].kernel == c.kernel && f.nodes[n].fact
      ensures InScope(f.nodes[n].scope, f.scope) && SamePlace(f.nodes[n].scope, e.scope)
      ensures exists fact, m :: fact in f.facts && m in f.mutations && fact.node == n && Wrote(f, e, fact, m)
    {
      FactsAreOf(VerifiedFacts(f, e), f.nodes, c.kernel, n);
      var fact :| fact in VerifiedFacts(f, e) && fact.node == n;
      VerifiedFactIsWritten(f, e, fact);
    }
  }

  lemma GradedComesFirst(f: Form, e: EventRow, c: Record)
    requires c in Candidates(f, e) && c.kind.Graded?
    ensures c in GradedRecord(f, e)
  {
    if c in ControlRecords(f, e, Postings(LocalMutations(f, e))) {
      ControlRecordsAre(f, e, Postings(LocalMutations(f, e)), c);
    }
  }

  lemma GradedCandidate(f: Form, e: EventRow, c: Record)
    requires c in GradedRecord(f, e)
    ensures c.attempt.Some? && c.attempt.value in f.attempts && GradedBy(f, e, c, f.attempts[c.attempt.value])
  {
    assert FormalAttempt(f, e, f.attempts[c.attempt.value]);
  }

  /** Every record is backed by an included event, and every graded one by its evaluated attempt. */
  lemma RecordsAreBacked(o: Order, f: Form, r: Record) returns (e: EventRow)
    requires ProperOrder(o) && Normal(o, f).Normalised? && r in Normal(o, f).records
    ensures e in LastById(f.events) && Included(f, e) && Backed(f, e, r)
    ensures r.kind.Graded? ==>
      r.attempt.Some? && r.attempt.value in f.attempts && GradedBy(f, e, r, f.attempts[r.attempt.value])
  {
    var c;
    e, c := RecordsComeFrom(o, f, r);
    CandidateIsBacked(f, e, c);
    if c.kind.Graded? {
      GradedComesFirst(f, e, c);
      GradedCandidate(f, e, c);
    }
  }

  // ---- Control status ----------------------------------------------------------------------

  /** `writes[n]` is the last write to `key`. */
  ghost predicate IsLastWrite(writes: seq<Write>, key: Key, n: nat) {
    n < |writes| && writes[n].key == key && forall m :: n < m < |writes| ==> writes[m].key != key
  }

  lemma {:induction false} LastWriteWins(writes: seq<Write>, key: Key) returns (n: nat)
    requires exists w :: w in writes && w.key == key
    ensures IsLastWrite(writes, key, n) && key in LastWrites(writes) && LastWrites(writes)[key] == writes[n].status
  {
    var last := |writes| - 1;
    if writes[last].key == key {
      n := last;
    } else {
      n := LastWriteWins(writes[..last], key);
    }
  }

  lemma {:induction false} EventsWritesAreIncluded(f: Form, events: seq<EventRow>, e: EventRow, w: Write)
    requires e in events && w in EventWrites(f, e)
    ensures w in AllWrites(f, events)
  {
    if events[|events| - 1] != e {
      EventsWritesAreIncluded(f, events[..|events| - 1], e, w);
    }
  }

  lemma {:induction false} WritesComeFromEvents(f: Form, events: seq<EventRow>, w: Write)
    requires w in AllWrites(f, events)
    ensures exists e :: e in events && w in EventWrites(f, e)
  {
    var last := events[|events| - 1];
    if w in AllWrites(f, events[..|events| - 1]) {
      WritesComeFromEvents(f, events[..|events| - 1], w);
    } else {
      assert last in events && w in EventWrites(f, last);
    }
  }

  lemma ControlIsWritten(f: Form, e: EventRow, c: Record)
    requires c in Candidates(f, e) && IsControl(c.kind)
    ensures exists w :: w in EventWrites(f, e) && w.key == KeyOf(c)
  {
    CandidatesAre(f, e, c);
    var p :| p in Postings(LocalMutations(f, e)) && p.entry.sourceEvent == Some(e.id) && c == ControlRecord(f, e, p);
    var i :| 0 <= i < |Postings(LocalMutations(f, e))| && Postings(LocalMutations(f, e))[i] == p;
    assert EventWrites(f, e)[i] == WriteOf(p);
    assert KeyOf(c) == WriteOf(p).key;
  }

  lemma WritesAreStatuses(f: Form, events: seq<EventRow>, w: Write)
    requires w in AllWrites(f, events)
    ensures w.status.Keys <= STATUS
  {
    WritesComeFromEvents(f, events, w);
  }

  lemma LastWriteOf(f: Form, events: seq<EventRow>, e: EventRow, c: Record) returns (n: nat)
    requires e in events && c in Candidates(f, e) && IsControl(c.kind)
    ensures
      var writes := AllWrites(f, events);
      && IsLastWrite(writes, KeyOf(c), n) && KeyOf(c) in LastWrites(writes)
      && LastWrites(writes)[KeyOf(c)] == writes[n].status && writes[n].status.Keys <= STATUS
  {
    ControlIsWritten(f, e, c);
    var w :| w in EventWrites(f, e) && w.key == KeyOf(c);
    EventsWritesAreIncluded(f, events, e, w);
    n := LastWriteWins(AllWrites(f, events), KeyOf(c));
    WritesAreStatuses(f, events, AllWrites(f, events)[n]);
  }

  lemma StatusIsMerged(c: Record, status: map<Key, map<string, Datum>>)
    requires IsControl(c.kind) && KeyOf(c) in status && status[KeyOf(c)].Keys <= STATUS
    ensures
      var r := WithStatus(c, status);
      && KeyOf(r) == KeyOf(c) && r.kind == c.kind
      && (forall k :: k in status[KeyOf(c)] ==> k in r.content && r.content[k] == status[KeyOf(c)][k])
      && (forall k :: k !in STATUS ==> Value(r.content, k) == Value(c.content, k))
  {
  }

  /** Every control record carries the status that the last directive naming its event, slot and span
      wrote, among all directives of applied mutations of included events in time order. */
  lemma ControlsCarryTheLastStatus(o: Order, f: Form, r: Record) returns (n: nat)
    requires ProperOrder(o) && Normal(o, f).Normalised? && r in Normal(o, f).records && IsControl(r.kind)
    ensures
      var writes := AllWrites(f, IncludedEvents(o, f));
      && IsLastWrite(writes, KeyOf(r), n)
      && forall k :: k in writes[n].status ==> k in r.content && r.content[k] == writes[n].status[k]
  {
    var e, c := RecordsComeFrom(o, f, r);
    n := LastWriteOf(f, IncludedEvents(o, f), e, c);
    StatusIsMerged(c, Status(o, f));
  }

  // ---- The program -------------------------------------------------------------------------

  /** records, seen and control_status. */
  datatype Work = Work(records: seq<Record>, seen: set<RecordId>, status: map<Key, map<string, Datum>>)

  ghost predicate Tracks(work: Work, candidates: seq<Record>, writes: seq<Write>) {
    && work.records == FirstOfEachId(candidates)
    && (forall id :: id in work.seen <==> HasId(work.records, id))
    && work.status == LastWrites(writes)
    && KernelsAreNative(candidates)
  }

  method Add(work: Work, r: Record, ghost candidates: seq<Record>, ghost writes: seq<Write>) returns (ok: bool, next: Work)
    requires Tracks(work, candidates, writes)
    ensures ok <==> r.kernel in KERNELS
    ensures ok ==> Tracks(next, candidates + [r], writes)
  {
    if r.kernel !in KERNELS {
      return false, work;
    }
    assert (candidates + [r])[..|candidates|] == candidates;
    forall id
      ensures HasId(work.records + [r], id) <==> HasId(work.records, id) || r.id == id
    {
      HasIdExtends(work.records, r, id);
    }
    if r.id in work.seen {
      return true, work;
    }
    return true, work.(records := work.records + [r], seen := work.seen + {r.id});
  }

  method AddControl(f: Form, e: EventRow, work: Work, p: Posting, ghost candidates: seq<Record>, ghost writes: seq<Write>)
    returns (ok: bool, next: Work)
    requires SlotKind(Value(p.entry.fields, "slot")).Some? && Tracks(work, candidates, writes)
    ensures ok ==> Tracks(next, candidates + (if p.entry.sourceEvent == Some(e.id) then [ControlRecord(f, e, p)] else []),
                          writes + [WriteOf(p)])
    ensures !ok ==> p.entry.sourceEvent == Some(e.id) && p.kernel !in KERNELS
  {
    ok := true;
    next := work.(status := work.status[WriteOf(p).key := WriteOf(p).status]);
    assert (writes + [WriteOf(p)])[..|writes|] == writes;
    assert candidates + [] == candidates;
    if p.entry.sourceEvent == Some(e.id) {
      ok, next := Add(next, ControlRecord(f, e, p), candidates, writes + [WriteOf(p)]);
    }
  }

  lemma OnePostingMore(f: Form, e: EventRow, candidates: seq<Record>, writes: seq<Write>, postings: seq<Posting>, p: Posting)
    requires Slotted(postings + [p])
    ensures Slotted(postings)
    ensures candidates + ControlRecords(f, e, postings + [p])
         == candidates + ControlRecords(f, e, postings)
            + if p.entry.sourceEvent == Some(e.id) then [ControlRecord(f, e, p)] else []
    ensures writes + Writes(postings + [p]) == writes + Writes(postings) + [WriteOf(p)]
  {
    assert forall q :: q in postings ==> q in postings + [p];
    assert (postings + [p])[..|postings|] == postings;
  }

  /** A directive with a foreign kernel that names this event. */
  ghost predicate Stuck(e: EventRow, postings: seq<Posting>) {
    exists p :: p in postings && p.entry.sourceEvent == Some(e.id) && p.kernel !in KERNELS
  }

  ghost function Done(before: seq<Posting>, kernel: Kernel, entries: seq<Entry>, j: nat): seq<Posting>
    requires j <= |entries|
  {
    before + PostingsOf(kernel, entries[..j])
  }

  lemma OneEntryMore(before: seq<Posting>, kernel: Kernel, entries: seq<Entry>, j: nat)
    requires j < |entries|
    ensures Done(before, kernel, entries, j + 1) == Done(before, kernel, entries, j) + PostingIf(kernel, entries[j])
  {
    assert entries[..j + 1][..j] == entries[..j];
  }

  lemma AllEntriesDone(before: seq<Posting>, kernel: Kernel, entries: seq<Entry>)
    ensures Done(before, kernel, entries, 0) == before
    ensures Done(before, kernel, entries, |entries|) == before + PostingsOf(kernel, entries)
  {
    assert entries[..|entries|] == entries;
  }

  /** `Tracks`, with the directives `done` of event `e` added. */
  ghost predicate TracksControls(f: Form, e: EventRow, work: Work, candidates: seq<Record>, writes: seq<Write>, done: seq<Posting>) {
    Slotted(done) && Tracks(work, candidates + ControlRecords(f, e, done), writes + Writes(done))
  }

  method AddEntry(f: Form, e: EventRow, work: Work, kernel: Kernel, entry: Entry, ghost done: seq<Posting>,
                  ghost candidates: seq<Record>, ghost writes: seq<Write>) returns (ok: bool, next: Work)
    requires TracksControls(f, e, work, candidates, writes, done)
    ensures ok ==> TracksControls(f, e, next, candidates, writes, done + PostingIf(kernel, entry))
    ensures !ok ==> Stuck(e, PostingIf(kernel, entry))
  {
    ok, next := true, work;
    if SlotKind(Value(entry.fields, "slot")).Some? {
      var p := Posting(kernel, entry);
      OnePostingMore(f, e, candidates, writes, done, p);
      ok, next := AddControl(f, e, next, p, candidates + ControlRecords(f, e, done), writes + Writes(done));
    } else {
      assert done + PostingIf(kernel, entry) == done;
    }
  }

  lemma OneMutationMore(mutations: seq<Mutation>, i: nat)
    requires i < |mutations|
    ensures Postings(mutations[..i + 1]) == Postings(mutations[..i]) + PostingsOf(mutations[i].kernel, Entries(mutations[i]))
  {
    assert mutations[..i + 1][..i] == mutations[..i];
  }

  /** The directives of one mutation. */
  method AddEntries(f: Form, e: EventRow, work: Work, m: Mutation, ghost before: seq<Posting>,
                    ghost candidates: seq<Record>, ghost writes: seq<Write>) returns (ok: bool, next: Work)
    requires TracksControls(f, e, work, candidates, writes, before)
    ensures ok ==> TracksControls(f, e, next, candidates, writes, before + PostingsOf(m.kernel, Entries(m)))
    ensures !ok ==> Stuck(e, PostingsOf(m.kernel, Entries(m)))
  {
    var entries := Entries(m);
    ok, next := true, work;
    AllEntriesDone(before, m.kernel, entries);
    for j := 0 to |entries|
      invariant TracksControls(f, e, next, candidates, writes, Done(before, m.kernel, entries, j))
    {
      OneEntryMore(before, m.kernel, entries, j);
      ok, next := AddEntry(f, e, next, m.kernel, entries[j], Done(before, m.kernel, entries, j), candidates, writes);
      if !ok {
        StuckOnEntry(e, m.kernel, entries, j);
        return;
      }
    }
    ok := true;
  }

  lemma {:induction false} StuckOnEntry(e: EventRow, kernel: Kernel, entries: seq<Entry>, j: nat)
    requires j < |entries| && Stuck(e, PostingIf(kernel, entries[j]))
    ensures Stuck(e, PostingsOf(kernel, entries))
  {
    if j < |entries| - 1 {
      StuckOnEntry(e, kernel, entries[..|entries| - 1], j);
    }
  }

  lemma {:induction false} StuckOnMutation(e: EventRow, mutations: seq<Mutation>, i: nat)
    requires i < |mutations| && Stuck(e, PostingsOf(mutations[i].kernel, Entries(mutations[i])))
    ensures Stuck(e, Postings(mutations))
  {
    if i < |mutations| - 1 {
      StuckOnMutation(e, mutations[..|mutations| - 1], i);
    }
  }

  lemma {:induction false} StuckIsForeign(f: Form, e: EventRow, postings: seq<Posting>)
    requires Slotted(postings)
    requires Stuck(e, postings)
    ensures !KernelsAreNative(ControlRecords(f, e, postings))
  {
    var last := postings[|postings| - 1];
    if last.entry.sourceEvent == Some(e.id) && last.kernel !in KERNELS {
      assert ControlRecord(f, e, last) in ControlRecords(f, e, postings);
    } else {
      StuckIsForeign(f, e, postings[..|postings| - 1]);
    }
  }

  /** The directives of all mutations of an event. */
  method AddControls(f: Form, e: EventRow, work: Work, ghost candidates: seq<Record>, ghost writes: seq<Write>)
    returns (ok: bool, next: Work)
    requires Tracks(work, candidates, writes)
    ensures ok ==> Tracks(next, candidates + ControlRecords(f, e, Postings(LocalMutations(f, e))), writes + EventWrites(f, e))
    ensures !ok ==> !KernelsAreNative(ControlRecords(f, e, Postings(LocalMutations(f, e))))
  {
    var local := LocalMutations(f, e);
    ok, next := true, work;
    assert candidates + ControlRecords(f, e, []) == candidates && writes + Writes([]) == writes;
    for i := 0 to |local|
      invariant ok && TracksControls(f, e, next, candidates, writes, Postings(local[..i]))
    {
      OneMutationMore(local, i);
      ok, next := AddEntries(f, e, next, local[i], Postings(local[..i]), candidates, writes);
      if !ok {
        StuckOnMutation(e, local, i);
        StuckIsForeign(f, e, Postings(local));
        return;
      }
    }
    assert local[..|local|] == local;
  }

  lemma AddsUp(candidates: seq<Record>, a: seq<Record>, b: seq<Record>, c: seq<Record>)
    ensures candidates + a + b + c == candidates + (a + b + c)
  {
  }

  /** Everything one included event contributes. */
  method AddEvent(f: Form, e: EventRow, work: Work, ghost candidates: seq<Record>, ghost writes: seq<Write>)
    returns (ok: bool, next: Work)
    requires Tracks(work, candidates, writes)
    ensures ok ==> Tracks(next, candidates + Candidates(f, e), writes + EventWrites(f, e))
    ensures !ok ==> !KernelsAreNative(Candidates(f, e))
  {
    ok, next := true, work;
    var graded, report := GradedRecord(f, e), ReportRecord(f, e);
    ghost var controls := ControlRecords(f, e, Postings(LocalMutations(f, e)));
    assert Candidates(f, e) == graded + controls + report;
    AddsUp(candidates, graded, controls, report);
    assert candidates + [] == candidates;
    if graded != [] {
      ok, next := Add(next, graded[0], candidates, writes);
      assert graded == [graded[0]];
    }
    ok, next := AddControls(f, e, next, candidates + graded, writes);
    if !ok {
      ForeignInTheMiddle(graded, controls, report);
      return;
    }
    if report != [] {
      ok, next := Add(next, report[0], candidates + graded + controls, writes + EventWrites(f, e));
      assert report == [report[0]];
    } else {
      assert candidates + graded + controls + report == candidates + graded + controls;
    }
  }

  lemma ForeignInTheMiddle(a: seq<Record>, b: seq<Record>, c: seq<Record>)
    requires !KernelsAreNative(b)
    ensures !KernelsAreNative(a + b + c)
  {
    var r :| r in b && r.kernel !in KERNELS;
    assert r in a + b + c;
  }

  lemma {:induction false} CandidateCounts(f: Form, events: seq<EventRow>, i: nat, r: Record)
    requires i < |events| && r in Candidates(f, events[i])
    ensures r in AllCandidates(f, events)
  {
    if i < |events| - 1 {
      CandidateCounts(f, events[..|events| - 1], i, r);
    }
  }

  lemma ForeignEvent(f: Form, events: seq<EventRow>, i: nat)
    requires i < |events| && !KernelsAreNative(Candidates(f, events[i]))
    ensures !KernelsAreNative(AllCandidates(f, events))
  {
    var r :| r in Candidates(f, events[i]) && r.kernel !in KERNELS;
    CandidateCounts(f, events, i, r);
  }

  lemma OneEventMore(f: Form, events: seq<EventRow>, e: EventRow)
    ensures AllCandidates(f, events + [e]) == AllCandidates(f, events) + Candidates(f, e)
    ensures AllWrites(f, events + [e]) == AllWrites(f, events) + EventWrites(f, e)
  {
    assert (events + [e])[..|events|] == events;
  }

  lemma FilterNext<T(!new)>(keep: T -> bool, xs: seq<T>, i: nat)
    requires i < |xs|
    ensures Filter(keep, xs[..i + 1]) == Filter(keep, xs[..i]) + if keep(xs[i]) then [xs[i]] else []
  {
    assert xs[..i + 1] == xs[..i] + [xs[i]];
    FilterLast(keep, xs[..i], xs[i]);
  }

  /** An included event at which the work stops makes the whole outcome invalid. */
  lemma StuckOnEvent(o: Order, f: Form, i: nat)
    requires i < |SavedEvents(o, f)| && Included(f, SavedEvents(o, f)[i])
    requires !KernelsAreNative(Candidates(f, SavedEvents(o, f)[i]))
    ensures !KernelsAreNative(AllCandidates(f, IncludedEvents(o, f)))
  {
    var e, included := SavedEvents(o, f)[i], IncludedEvents(o, f);
    assert e in included;
    var n :| 0 <= n < |included| && included[n] == e;
    ForeignEvent(f, included, n);
  }

  ghost predicate TracksEvents(f: Form, work: Work, events: seq<EventRow>) {
    var included := Filter(IncludedIn(f), events);
    Tracks(work, AllCandidates(f, included), AllWrites(f, included))
  }

  lemma IncludedIsTracked(f: Form, events: seq<EventRow>, i: nat, before: seq<EventRow>, work: Work)
    requires i < |events| && Included(f, events[i]) && before == Filter(IncludedIn(f), events[..i])
    requires Tracks(work, AllCandidates(f, before) + Candidates(f, events[i]), AllWrites(f, before) + EventWrites(f, events[i]))
    ensures TracksEvents(f, work, events[..i + 1])
  {
    FilterNext(IncludedIn(f), events, i);
    OneEventMore(f, before, events[i]);
  }

  lemma ExcludedIsTracked(f: Form, events: seq<EventRow>, i: nat, work: Work)
    requires i < |events| && !Included(f, events[i]) && TracksEvents(f, work, events[..i])
    ensures TracksEvents(f, work, events[..i + 1])
  {
    FilterNext(IncludedIn(f), events, i);
    assert Filter(IncludedIn(f), events[..i + 1]) == Filter(IncludedIn(f), events[..i]);
  }

  /** One turn of the loop: an excluded event adds nothing, an included one everything it contributes. */
  method TakeEvent(f: Form, events: seq<EventRow>, i: nat, work: Work) returns (ok: bool, next: Work)
    requires i < |events| && TracksEvents(f, work, events[..i])
    ensures ok ==> TracksEvents(f, next, events[..i + 1])
    ensures !ok ==> Included(f, events[i]) && !KernelsAreNative(Candidates(f, events[i]))
  {
    if !Included(f, events[i]) {
      ExcludedIsTracked(f, events, i, work);
      return true, work;
    }
    ghost var before := Filter(IncludedIn(f), events[..i]);
    ok, next := AddEvent(f, events[i], work, AllCandidates(f, before), AllWrites(f, before));
    if ok {
      IncludedIsTracked(f, events, i, before, next);
    }
  }

  lemma NothingTaken(f: Form, events: seq<EventRow>)
    ensures TracksEvents(f, Work([], {}, map[]), events[..0])
  {
  }

  lemma AllTaken(o: Order, f: Form, work: Work)
    requires TracksEvents(f, work, SavedEvents(o, f)[..|SavedEvents(o, f)|])
    ensures Tracks(work, AllCandidates(f, IncludedEvents(o, f)), AllWrites(f, IncludedEvents(o, f)))
  {
    var events := SavedEvents(o, f);
    assert events[..|events|] == events;
  }

  /** The records and the status writes of all included events. */
  method TakeEvents(o: Order, f: Form) returns (ok: bool, work: Work)
    ensures ok <==> KernelsAreNative(AllCandidates(f, IncludedEvents(o, f)))
    ensures ok ==> Tracks(work, AllCandidates(f, IncludedEvents(o, f)), AllWrites(f, IncludedEvents(o, f)))
  {
    var events := SavedEvents(o, f);
    work := Work([], {}, map[]);
    NothingTaken(f, events);
    for i := 0 to |events|
      invariant TracksEvents(f, work, events[..i])
    {
      ok, work := TakeEvent(f, events, i, work);
      if !ok {
        StuckOnEvent(o, f, i);
        return;
      }
    }
    AllTaken(o, f, work);
    ok := true;
  }

  /** Every control record takes on the status last written for its key. */
  method TakeStatus(work: Work) returns (records: seq<Record>)
    ensures records == WithStatuses(work.records, work.status)
  {
    records := work.records;
    for i := 0 to |records|
      invariant |records| == |work.records|
      invariant forall j :: 0 <= j < |records| ==>
        records[j] == if j < i then WithStatus(work.records[j], work.status) else work.records[j]
    {
      records := records[i := WithStatus(records[i], work.status)];
    }
  }

  method Normalise(o: Order, f: Form) returns (r: Normalised)
    ensures r == Normal(o, f)
  {
    var ok, work := TakeEvents(o, f);
    if !ok {
      return InvalidKernel;
    }
    var records := TakeStatus(work);
    return Normalised(Sort(Chronological(o), records));
  }

  /** Normalise, then pack: the packer never finds its evidence changed, whatever was saved. */
  method PackForm(o: Order, f: Form, tokens: Rendering -> nat, budget: nat) returns (n: Normalised, r: Packed)
    requires ProperOrder(o)
    ensures n == Normal(o, f) && !r.EvidenceChanged?
    ensures n.Normalised? && r.Selected? ==>
      && GreedySelection(n.records, Fits(f.at, tokens, budget), r.records)
      && KeepsTheLatest(o, n.records, r.records) && InTimeOrder(o, r.records)
      && IsFull(o, n.records, rs => FitsEvery(f.at, tokens, budget, rs), r.records)
      && forall v ::
           && tokens(Render(r.records, f.at, v)) <= budget
           && multiset(Delivered(Render(r.records, f.at, v))) == multiset(r.records)
           && DistinctIds(Delivered(Render(r.records, f.at, v)))
  {
    n := Normalise(o, f);
    if n.InvalidKernel? {
      return n, OverheadExceedsBudget;
    }
    NormalisedRecordsAreCanonical(o, f);
    r := Pack(o, f.at, tokens, budget, n.records);
  }
}
