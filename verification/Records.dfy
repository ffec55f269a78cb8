/** What the saved tables say becomes a canonical record, and nothing else does, told on the rows themselves
    (evals/education_memory_counterfactual/representation.py: scope_ok, ownership_ok, normalize). */
module Records {
  import opened Options
  import opened Reference
  import opened Sorting
  import opened Evidence
  import opened Packing
  import opened Normalising

  // ---- Usable events -----------------------------------------------------------------------

  /** A row of the learner, project and checkpoint asked about, of the same session or of none. */
  ghost predicate RowInScope(row: Scope, scope: Scope) {
    && row.learner == scope.learner && row.project == scope.project && row.checkpoint == scope.checkpoint
    && (row.session.None? || row.session == scope.session)
  }

  /** What the owner tables say of an id; a missing row says nothing. */
  ghost predicate Leads(table: map<int, Option<int>>, id: Option<int>, owner: Option<int>) {
    owner == if id.Some? && id.value in table then table[id.value] else None
  }

  /** The project is the learner's, the roadmap of the checkpoint is the project's, and a session is of all three. */
  ghost predicate RowsBelong(s: Scope, w: Owners) {
    && Leads(w.projects, s.project, s.learner)
    && (exists roadmap, project ::
          && Leads(w.checkpoints, s.checkpoint, roadmap) && Leads(w.roadmaps, roadmap, project)
          && project == if s.project.Some? && s.project.value in w.projects then s.project else None)
    && (s.session.Some? ==>
          if s.session.value in w.sessions
          then w.sessions[s.session.value] == Session(s.learner, s.project, s.checkpoint)
          else s.learner.None? && s.project.None? && s.checkpoint.None?)
  }

  /** The last saved row of its id, in scope, owned, dated and not in the future. */
  ghost predicate IsUsable(f: Form, e: EventRow) {
    && (exists i :: 0 <= i < |f.events| && f.events[i] == e && forall j :: i < j < |f.events| ==> f.events[j].id != e.id)
    && RowInScope(e.scope, f.scope) && RowsBelong(e.scope, f.owners)
    && e.occurredAt.instant.Some? && e.occurredAt.instant.value <= f.at
  }

  lemma BelongsIff(s: Scope, w: Owners)
    ensures Belongs(s, w) <==> RowsBelong(s, w)
  {
    var roadmap := OwnerIn(w.checkpoints, s.checkpoint);
    assert Leads(w.checkpoints, s.checkpoint, roadmap) && Leads(w.roadmaps, roadmap, OwnerIn(w.roadmaps, roadmap));
  }

  ghost predicate IsLastRow(rows: seq<EventRow>, e: EventRow) {
    exists i :: 0 <= i < |rows| && rows[i] == e && forall j :: i < j < |rows| ==> rows[j].id != e.id
  }

  lemma {:induction false} LastRowsAre(rows: seq<EventRow>, e: EventRow)
    ensures e in LastById(rows) <==> IsLastRow(rows, e)
  {
    if rows != [] {
      LastRowsAre(rows[1..], e);
      LastRowOfTail(rows, e);
    }
  }

  lemma LastRowOfTail(rows: seq<EventRow>, e: EventRow)
    requires rows != []
    ensures IsLastRow(rows, e) <==> IsLastRow(rows[1..], e) || (e == rows[0] && forall x :: x in rows[1..] ==> x.id != e.id)
  {
    var rest := rows[1..];
    assert forall j :: 1 <= j < |rows| ==> rows[j] == rest[j - 1];
    if i :| 0 <= i < |rows| && rows[i] == e && forall j :: i < j < |rows| ==> rows[j].id != e.id {
      if i > 0 {
        assert rest[i - 1] == e && forall j :: i - 1 < j < |rest| ==> rest[j] == rows[j + 1];
      }
    }
    if i :| 0 <= i < |rest| && rest[i] == e && forall j :: i < j < |rest| ==> rest[j].id != e.id {
      assert rows[i + 1] == e && forall j :: i + 1 < j < |rows| ==> rows[j] == rest[j - 1];
    }
    if e == rows[0] && forall x :: x in rest ==> x.id != e.id {
      assert forall j :: 0 < j < |rows| ==> rows[j] == rest[j - 1] && rest[j - 1] in rest;
    }
  }

  lemma IncludedIffUsable(o: Order, f: Form, e: EventRow)
    requires ProperOrder(o)
    ensures e in IncludedEvents(o, f) <==> IsUsable(f, e)
  {
    IncludedEventsAre(o, f);
    LastRowsAre(f.events, e);
    BelongsIff(e.scope, f.owners);
  }

  // ---- What one event says -----------------------------------------------------------------

  ghost predicate AppliedFor(f: Form, e: EventRow, m: Mutation) {
    m.applied && m.event == Some(e.id) && m.learner == f.scope.learner
  }

  ghost predicate HasMutation(f: Form, e: EventRow) {
    exists m :: m in f.mutations && AppliedFor(f, e, m)
  }

  lemma LocalAre(f: Form, e: EventRow)
    ensures forall m :: m in LocalMutations(f, e) <==> m in f.mutations && AppliedFor(f, e, m)
    ensures LocalMutations(f, e) != [] <==> HasMutation(f, e)
  {
    if LocalMutations(f, e) != [] {
      assert LocalMutations(f, e)[0] in LocalMutations(f, e);
    }
  }

  /** The first mutation applied for the event that has this id. */
  ghost predicate IsFirstApplied(f: Form, e: EventRow, id: int, m: Mutation) {
    exists i :: 0 <= i < |f.mutations| && f.mutations[i] == m && AppliedFor(f, e, m) && m.id == id
                && forall j :: 0 <= j < i && AppliedFor(f, e, f.mutations[j]) ==> f.mutations[j].id != id
  }

  /** A fact of the event whose node is in scope, of the kernel of the mutation that it names, in the place of the
      event, and whose value that mutation wrote. */
  ghost predicate FactStands(f: Form, e: EventRow, fact: Fact) {
    && fact in f.facts && fact.event == Some(e.id)
    && fact.scope.project == e.scope.project && fact.scope.checkpoint == e.scope.checkpoint && fact.scope.session == e.scope.session
    && fact.node in f.nodes
    && var node := f.nodes[fact.node];
       && node.fact && RowInScope(node.scope, f.scope)
       && node.scope.project == e.scope.project && node.scope.checkpoint == e.scope.checkpoint && node.scope.session == e.scope.session
       && exists m :: IsFirstApplied(f, e, fact.mutation, m) && m.kernel == node.kernel && FactIsWritten(m, fact)
  }

  /** The mutation wrote this value, or none where the fact has none. */
  ghost predicate FactIsWritten(m: Mutation, fact: Fact) {
    && fact.path.Some?
    && var (section, key) := fact.path.value;
       if section in m.values && key in m.values[section] then m.values[section][key] == fact.objectValue else fact.objectValue == Nothing
  }

  /** An evaluated attempt at a question of the checkpoint that the event answers for, with the same verdict. */
  ghost predicate AttemptStands(f: Form, e: EventRow, a: AttemptRow) {
    && e.payload.attempt.Some? && e.payload.attempt.value in f.attempts && f.attempts[e.payload.attempt.value] == a
    && e.kind.ConceptAttempt? && e.source == "assessment" && HasMutation(f, e)
    && (|| e.receipt == "attempt:" + Printed(e.payload.attempt) + ":evaluated"
        || e.receipt == Printed(f.scope.learner) + ":attempt:" + Printed(e.payload.attempt) + ":evaluated")
    && RowInScope(a.scope, f.scope) && a.status == "evaluated" && a.concept
    && a.submittedAt.Some? && a.evaluatedAt.Some? && a.submittedAt.value <= a.evaluatedAt.value <= f.at
    && a.evaluatedAt == e.occurredAt.instant
    && a.item == e.payload.item && a.item.Some? && a.item.value in f.questions && f.questions[a.item.value] == f.scope.checkpoint
    && e.payload.assistance == a.assistance
    && (e.payload.independent == Flag(true) ==> a.assistance != Words("hint") && a.assistance != Words("guided"))
    && a.correct.Flag? && e.payload.correct == a.correct
  }

  /** The words of a report: the statement of an unverified observation, or what a message says. */
  ghost predicate Reports(f: Form, e: EventRow, words: string) {
    && words != "" && HasMutation(f, e)
    && (|| (e.kind.ObservationRecorded? && e.payload.verification == Words("unverified") && e.payload.statement == Words(words))
        || (e.kind.Message? && IsRawText(e, Words(words))))
  }

  /** The text of an event, or its content if it has no text. */
  ghost predicate IsRawText(e: EventRow, d: Datum) {
    if Truthy(e.payload.text) then d == e.payload.text else d == e.payload.content
  }

  /** The kind of record a directive of this slot becomes. */
  ghost predicate SlotIs(slot: Datum, kind: RecordKind) {
    || (slot == Words("time_budget") && kind == Budgeted)
    || (slot == Words("support") && kind == Supporting)
    || (slot == Words("current_priority") && kind == Prioritized)
    || (slot == Words("return_anchor") && kind == Anchored)
    || (slot == Words("current_blocker") && kind == Gap)
  }

  /** The directives of a storage body; preferences are read only where it has no directives key. */
  ghost predicate InBody(b: Body, entry: Entry) {
    || (b.directives.Present? && entry in b.directives.value)
    || (b.directives.Absent? && b.preferences.Present? && entry in b.preferences.value)
  }

  /** A directive of a mutation applied for the event. */
  ghost predicate Directs(f: Form, e: EventRow, m: Mutation, entry: Entry) {
    && m in f.mutations && AppliedFor(f, e, m)
    && (InBody(m.shortTerm, entry) || InBody(m.longTerm, entry))
    && exists kind :: SlotIs(Value(entry.fields, "slot"), kind)
  }

  /** The keys of a directive that its record shows as they are, and the words its span points at. */
  ghost predicate ShowsDirective(e: EventRow, entry: Entry, content: map<string, Datum>) {
    && (forall k :: k != "source_text" ==> (k in content <==> k in entry.fields && k in KEPT))
    && (forall k :: k in content && k != "source_text" ==> content[k] == entry.fields[k])
    && ("source_text" in content <==> exists s :: SpanReads(e, entry, s))
    && ("source_text" in content ==> exists s :: SpanReads(e, entry, s) && content["source_text"] == Words(s))
  }

  const KEPT := {"slot", "evidence_kind", "minutes", "requested_priority", "requested_anchor", "lifetime", "status",
                 "cancelled", "diagnostic_only", "instruction"}

  ghost predicate SpanReads(e: EventRow, entry: Entry, s: string) {
    && entry.span.Pair?
    && exists text :: IsSpokenText(e, text) && s == Slice(text, entry.span.from, entry.span.to)
  }

  /** The text a span refers to; the empty text if the event has neither text nor content. */
  ghost predicate IsSpokenText(e: EventRow, text: string) {
    if Truthy(e.payload.text) then e.payload.text == Words(text)
    else if Truthy(e.payload.content) then e.payload.content == Words(text)
    else text == ""
  }

  /** Positions of a span count from the end when negative, and stop at the ends of the text. */
  lemma SliceMeans(s: string, from: int, to: int)
    ensures 0 <= from <= to <= |s| ==> Slice(s, from, to) == s[from..to]
    ensures -|s| <= from < 0 ==> Slice(s, from, to) == Slice(s, from + |s|, to)
    ensures -|s| <= to < 0 ==> Slice(s, from, to) == Slice(s, from, to + |s|)
    ensures from < -|s| ==> Slice(s, from, to) == Slice(s, 0, to)
    ensures to > |s| ==> Slice(s, from, to) == Slice(s, from, |s|)
    ensures from > |s| || to < -|s| ==> Slice(s, from, to) == ""
  {
  }

  /** What every record of the event shares. */
  ghost predicate IsOf(f: Form, e: EventRow, r: Record) {
    && r.source == e.id && r.id.event == e.id && r.id.kind == r.kind && r.occurredAt == e.occurredAt.text
    && r.scope == e.scope && r.eligibility.None?
    && (forall id :: id in r.mutations <==> exists m :: m in f.mutations && AppliedFor(f, e, m) && m.id == id)
    && r.facts == FactsOf(VerifiedFacts(f, e), f.nodes, r.kernel)
  }

  /** The record of one directive. */
  ghost predicate TellsOf(f: Form, e: EventRow, r: Record, m: Mutation, entry: Entry) {
    && Directs(f, e, m, entry) && entry.sourceEvent == Some(e.id) && SlotIs(Value(entry.fields, "slot"), r.kind)
    && r.kernel == m.kernel && r.id.suffix == entry.spanText && r.expiresAt == entry.expiresAt && r.attempt == None
    && ShowsDirective(e, entry, r.content)
  }

  /** A record of the event, as the tables have it: before later directives change its status. */
  ghost predicate Tells(f: Form, e: EventRow, r: Record) {
    && IsOf(f, e, r)
    && match r.kind
       case Graded =>
         && r.kernel == Practice && r.id.suffix == "" && r.expiresAt == NEVER && r.attempt == e.payload.attempt
         && exists a :: AttemptStands(f, e, a) && ShowsVerdict(a, r.content)
       case SelfReport =>
         && r.kernel == Knowledge && r.id.suffix == "" && r.expiresAt == NEVER && r.attempt == None
         && exists words :: Reports(f, e, words) && r.content == map["text" := Words(words), "evidence_grade" := Words("self_report")]
       case _ => exists m, entry :: TellsOf(f, e, r, m, entry)
  }

  ghost predicate ShowsVerdict(a: AttemptRow, content: map<string, Datum>) {
    content == map["result" := if a.correct == Flag(true) then Words("correct") else Words("incorrect"),
                   "assistance_level" := a.assistance, "item_type" := Words("concept"),
                   "item_id" := if a.item.Some? then Number(a.item.value) else Nothing, "attempt_kind" := a.role,
                   "stable_mastery_evidence" := Flag(false), "transfer_verified" := Flag(false)]
  }

  // ---- Candidates are what is told ---------------------------------------------------------

  lemma InBodyIff(b: Body, entry: Entry)
    ensures entry in Chosen(b) <==> InBody(b, entry)
  {
  }

  lemma {:induction false} PostingsOfAre(kernel: Kernel, entries: seq<Entry>, p: Posting)
    ensures p in PostingsOf(kernel, entries)
       <==> p.kernel == kernel && p.entry in entries && SlotKind(Value(p.entry.fields, "slot")).Some?
  {
    if entries != [] {
      var n := |entries| - 1;
      PostingsOfAre(kernel, entries[..n], p);
      assert p.entry in entries <==> p.entry in entries[..n] || p.entry == entries[n];
    }
  }

  lemma {:induction false} PostingsAre(mutations: seq<Mutation>, p: Posting)
    ensures p in Postings(mutations)
       <==> SlotKind(Value(p.entry.fields, "slot")).Some?
            && exists m :: m in mutations && m.kernel == p.kernel && p.entry in Entries(m)
  {
    if mutations != [] {
      var n := |mutations| - 1;
      var init, last := mutations[..n], mutations[n];
      PostingsAre(init, p);
      PostingsOfAre(last.kernel, Entries(last), p);
      assert forall m :: m in mutations <==> m in init || m == last;
    }
  }

  lemma SlotKindIs(slot: Datum)
    ensures forall kind :: SlotIs(slot, kind) <==> SlotKind(slot) == Some(kind)
  {
  }

  lemma PostedIffDirected(f: Form, e: EventRow, p: Posting)
    ensures p in Postings(LocalMutations(f, e)) <==> exists m :: Directs(f, e, m, p.entry) && m.kernel == p.kernel
  {
    LocalAre(f, e);
    PostingsAre(LocalMutations(f, e), p);
    SlotKindIs(Value(p.entry.fields, "slot"));
    forall m: Mutation
      ensures p.entry in Entries(m) <==> InBody(m.shortTerm, p.entry) || InBody(m.longTerm, p.entry)
    {
      InBodyIff(m.shortTerm, p.entry);
      InBodyIff(m.longTerm, p.entry);
    }
    assert SlotKind(Value(p.entry.fields, "slot")).Some? ==>
      SlotIs(Value(p.entry.fields, "slot"), SlotKind(Value(p.entry.fields, "slot")).value);
  }

  ghost predicate IsFirstIn(f: Form, e: EventRow, mutations: seq<Mutation>, id: int, m: Mutation) {
    exists i :: 0 <= i < |mutations| && mutations[i] == m && AppliedFor(f, e, m) && m.id == id
                && forall j :: 0 <= j < i && AppliedFor(f, e, mutations[j]) ==> mutations[j].id != id
  }

  lemma FirstOfTail(f: Form, e: EventRow, mutations: seq<Mutation>, id: int, m: Mutation)
    requires mutations != []
    ensures IsFirstIn(f, e, mutations, id, m)
       <==> if AppliedFor(f, e, mutations[0]) && mutations[0].id == id then m == mutations[0] else IsFirstIn(f, e, mutations[1..], id, m)
  {
    var rest := mutations[1..];
    assert forall j :: 1 <= j < |mutations| ==> mutations[j] == rest[j - 1];
    if i :| 0 <= i < |mutations| && mutations[i] == m && AppliedFor(f, e, m) && m.id == id
            && forall j :: 0 <= j < i && AppliedFor(f, e, mutations[j]) ==> mutations[j].id != id {
      if i > 0 {
        assert rest[i - 1] == m && forall j :: 0 <= j < i - 1 ==> rest[j] == mutations[j + 1];
      }
    }
    if i :| 0 <= i < |rest| && rest[i] == m && AppliedFor(f, e, m) && m.id == id
            && forall j :: 0 <= j < i && AppliedFor(f, e, rest[j]) ==> rest[j].id != id {
      assert mutations[i + 1] == m;
    }
  }

  lemma {:induction false} FirstAppliedIs(f: Form, e: EventRow, mutations: seq<Mutation>, id: int, m: Mutation)
    ensures FirstWithId(Filter(x => Local(x, e.id, f.scope.learner), mutations), id) == Some(m) <==> IsFirstIn(f, e, mutations, id, m)
  {
    if mutations != [] {
      FirstAppliedIs(f, e, mutations[1..], id, m);
      FirstOfTail(f, e, mutations, id, m);
      if Local(mutations[0], e.id, f.scope.learner) {
        assert Filter(x => Local(x, e.id, f.scope.learner), mutations)[1..] == Filter(x => Local(x, e.id, f.scope.learner), mutations[1..]);
      }
    }
  }

  lemma VerifiedIffStands(f: Form, e: EventRow, fact: Fact)
    ensures fact in VerifiedFacts(f, e) <==> FactStands(f, e, fact)
  {
    var first := FirstWithId(LocalMutations(f, e), fact.mutation);
    forall m
      ensures first == Some(m) <==> IsFirstApplied(f, e, fact.mutation, m)
    {
      FirstAppliedIs(f, e, f.mutations, fact.mutation, m);
    }
    if first.Some? {
      assert IsFirstApplied(f, e, fact.mutation, first.value);
    }
  }

  lemma {:induction false} FactsOfHold(facts: seq<Fact>, nodes: map<int, Node>, kernel: Kernel, n: int)
    ensures n in FactsOf(facts, nodes, kernel) <==> n in nodes && nodes[n].kernel == kernel && exists fact :: fact in facts && fact.node == n
  {
    if facts != [] {
      FactsOfHold(facts[1..], nodes, kernel, n);
      assert forall fact :: fact in facts <==> fact == facts[0] || fact in facts[1..];
    }
  }

  /** The facts a record lists are the ones that stand for its event, of its own kernel. */
  lemma FactsMean(f: Form, e: EventRow, kernel: Kernel, n: int)
    ensures n in FactsOf(VerifiedFacts(f, e), f.nodes, kernel)
       <==> n in f.nodes && f.nodes[n].kernel == kernel && exists fact :: FactStands(f, e, fact) && fact.node == n
  {
    FactsOfHold(VerifiedFacts(f, e), f.nodes, kernel, n);
    forall fact
      ensures fact in VerifiedFacts(f, e) <==> FactStands(f, e, fact)
    {
      VerifiedIffStands(f, e, fact);
    }
  }

  lemma SpokenTextIs(e: EventRow, text: string)
    ensures IsSpokenText(e, text) <==> FirstTrue(FirstTrue(e.payload.text, e.payload.content), Words("")) == Words(text)
  {
  }

  lemma ContentIs(e: EventRow, entry: Entry, content: map<string, Datum>)
    ensures content == ControlContent(e, entry) <==> ShowsDirective(e, entry, content)
  {
    ContentShows(e, entry);
    if ShowsDirective(e, entry, content) {
      ShownOnce(e, entry, content, ControlContent(e, entry));
    }
  }

  lemma ContentShows(e: EventRow, entry: Entry)
    ensures ShowsDirective(e, entry, ControlContent(e, entry))
  {
    var raw := FirstTrue(FirstTrue(e.payload.text, e.payload.content), Words(""));
    forall s
      ensures SpanReads(e, entry, s) <==> raw.Words? && entry.span.Pair? && s == Slice(raw.s, entry.span.from, entry.span.to)
    {
      SpanReadsIs(e, entry, s);
    }
    if raw.Words? && entry.span.Pair? {
      assert SpanReads(e, entry, Slice(raw.s, entry.span.from, entry.span.to));
    }
    assert KEPT == CONTENT;
  }

  lemma ShownOnce(e: EventRow, entry: Entry, a: map<string, Datum>, b: map<string, Datum>)
    requires ShowsDirective(e, entry, a) && ShowsDirective(e, entry, b)
    ensures a == b
  {
    forall k: string
      ensures k in a <==> k in b
      ensures k in a && k in b ==> a[k] == b[k]
    {
      ShownKeyOnce(e, entry, a, b, k);
    }
  }

  lemma ShownKeyOnce(e: EventRow, entry: Entry, a: map<string, Datum>, b: map<string, Datum>, k: string)
    requires ShowsDirective(e, entry, a) && ShowsDirective(e, entry, b)
    ensures (k in a <==> k in b) && (k in a && k in b ==> a[k] == b[k])
  {
    if k == "source_text" && k in a {
      var s :| SpanReads(e, entry, s) && a[k] == Words(s);
      var t :| SpanReads(e, entry, t) && b[k] == Words(t);
      SpanReadsIs(e, entry, s);
      SpanReadsIs(e, entry, t);
    }
  }

  lemma SpanReadsIs(e: EventRow, entry: Entry, s: string)
    ensures
      var raw := FirstTrue(FirstTrue(e.payload.text, e.payload.content), Words(""));
      SpanReads(e, entry, s) <==> raw.Words? && entry.span.Pair? && s == Slice(raw.s, entry.span.from, entry.span.to)
  {
    var raw := FirstTrue(FirstTrue(e.payload.text, e.payload.content), Words(""));
    if raw.Words? {
      SpokenTextIs(e, raw.s);
    }
    forall text | IsSpokenText(e, text)
      ensures raw == Words(text)
    {
      SpokenTextIs(e, text);
    }
  }

  lemma {:induction false} ControlRecordsHold(f: Form, e: EventRow, postings: seq<Posting>, r: Record)
    requires Slotted(postings)
    ensures r in ControlRecords(f, e, postings)
       <==> exists p :: p in postings && p.entry.sourceEvent == Some(e.id) && r == ControlRecord(f, e, p)
  {
    if postings != [] {
      var init, last := postings[..|postings| - 1], postings[|postings| - 1];
      ControlRecordsHold(f, e, init, r);
      assert forall p :: p in postings <==> p in init || p == last;
    }
  }

  lemma MutationIds(f: Form, e: EventRow)
    ensures forall id :: id in Ids(LocalMutations(f, e)) <==> exists m :: m in f.mutations && AppliedFor(f, e, m) && m.id == id
  {
    LocalAre(f, e);
  }

  lemma NewRecordIs(f: Form, e: EventRow, r: Record)
    ensures IsOf(f, e, r) <==> r == NewRecord(f, e, r.kernel, r.kind, r.content, r.expiresAt, r.attempt, r.id.suffix)
  {
    MutationIds(f, e);
    if IsOf(f, e, r) {
      forall id
        ensures id in r.mutations <==> id in Ids(LocalMutations(f, e))
      {
      }
      assert r.mutations == Ids(LocalMutations(f, e));
    }
  }

  lemma GradedIffTold(f: Form, e: EventRow, r: Record)
    ensures r in GradedRecord(f, e) <==> r.kind.Graded? && Tells(f, e, r)
  {
    NewRecordIs(f, e, r);
    LocalAre(f, e);
    if e.payload.attempt.Some? && e.payload.attempt.value in f.attempts {
      AttemptStandsIff(f, e, f.attempts[e.payload.attempt.value]);
    }
  }

  lemma AttemptStandsIff(f: Form, e: EventRow, a: AttemptRow)
    requires Lookup(f.attempts, e.payload.attempt) == Some(a)
    ensures AttemptStands(f, e, a)
       <==> e.kind.ConceptAttempt? && FormalAttempt(f, e, a) && a.correct.Flag? && e.payload.correct == a.correct
  {
    LocalAre(f, e);
    var id := Printed(e.payload.attempt);
    assert Printed(f.scope.learner) + ":attempt:" + id + ":evaluated" == Printed(f.scope.learner) + ":" + ("attempt:" + id + ":evaluated");
  }

  lemma ReportIffTold(f: Form, e: EventRow, r: Record)
    ensures r in ReportRecord(f, e) <==> r.kind.SelfReport? && Tells(f, e, r)
  {
    NewRecordIs(f, e, r);
    LocalAre(f, e);
  }

  lemma ControlRecordTells(f: Form, e: EventRow, r: Record, m: Mutation, entry: Entry)
    requires Directs(f, e, m, entry) && entry.sourceEvent == Some(e.id)
    ensures SlotKind(Value(entry.fields, "slot")).Some?
    ensures r == ControlRecord(f, e, Posting(m.kernel, entry)) <==> IsOf(f, e, r) && TellsOf(f, e, r, m, entry)
  {
    SlotKindIs(Value(entry.fields, "slot"));
    ContentIs(e, entry, r.content);
    NewRecordIs(f, e, r);
  }

  lemma ControlIffTold(f: Form, e: EventRow, r: Record)
    ensures r in ControlRecords(f, e, Postings(LocalMutations(f, e)))
       <==> IsControl(r.kind) && IsOf(f, e, r) && exists m, entry :: TellsOf(f, e, r, m, entry)
  {
    var postings := Postings(LocalMutations(f, e));
    ControlRecordsHold(f, e, postings, r);
    if r in ControlRecords(f, e, postings) {
      var p :| p in postings && p.entry.sourceEvent == Some(e.id) && r == ControlRecord(f, e, p);
      PostedIffDirected(f, e, p);
      var m :| Directs(f, e, m, p.entry) && m.kernel == p.kernel;
      ControlRecordTells(f, e, r, m, p.entry);
    }
    if IsOf(f, e, r) {
      forall m, entry | TellsOf(f, e, r, m, entry)
        ensures r in ControlRecords(f, e, postings)
      {
        PostedIffDirected(f, e, Posting(m.kernel, entry));
        ControlRecordTells(f, e, r, m, entry);
      }
    }
  }

  /** The records first made of an event are the ones its rows tell. */
  lemma CandidatesAreTold(f: Form, e: EventRow, r: Record)
    ensures r in Candidates(f, e) <==> Tells(f, e, r)
  {
    GradedIffTold(f, e, r);
    ReportIffTold(f, e, r);
    ControlIffTold(f, e, r);
  }

  // ---- The outcome -------------------------------------------------------------------------

  lemma ToldAreCandidates(o: Order, f: Form, e: EventRow, r: Record)
    requires ProperOrder(o) && IsUsable(f, e) && Tells(f, e, r)
    ensures r in AllCandidates(f, IncludedEvents(o, f))
  {
    var events := IncludedEvents(o, f);
    IncludedIffUsable(o, f, e);
    CandidatesAreTold(f, e, r);
    var i :| 0 <= i < |events| && events[i] == e;
    CandidateCounts(f, events, i, r);
  }

  lemma CandidatesAreOfUsable(o: Order, f: Form, r: Record) returns (e: EventRow)
    requires ProperOrder(o) && r in AllCandidates(f, IncludedEvents(o, f))
    ensures IsUsable(f, e) && Tells(f, e, r)
  {
    AllCandidatesAre(f, IncludedEvents(o, f), r);
    e :| e in IncludedEvents(o, f) && r in Candidates(f, e);
    IncludedIffUsable(o, f, e);
    CandidatesAreTold(f, e, r);
  }

  lemma NativeIffNotForeign(kernel: Kernel)
    ensures kernel in KERNELS <==> !kernel.Foreign?
  {
    match kernel
    case Structure =>
    case Knowledge =>
    case Human =>
    case Worth =>
    case Practice =>
    case Foreign(name) => assert forall k :: k in KERNELS ==> !k.Foreign?;
  }

  lemma ForeignIsTold(o: Order, f: Form) returns (e: EventRow, r: Record)
    requires ProperOrder(o) && Normal(o, f).InvalidKernel?
    ensures IsUsable(f, e) && Tells(f, e, r) && r.kernel.Foreign?
  {
    r :| r in AllCandidates(f, IncludedEvents(o, f)) && r.kernel !in KERNELS;
    e := CandidatesAreOfUsable(o, f, r);
    NativeIffNotForeign(r.kernel);
  }

  lemma ForeignIsRefused(o: Order, f: Form, e: EventRow, r: Record)
    requires ProperOrder(o) && IsUsable(f, e) && Tells(f, e, r) && r.kernel.Foreign?
    ensures Normal(o, f).InvalidKernel?
  {
    ToldAreCandidates(o, f, e, r);
    NativeIffNotForeign(r.kernel);
  }

  /** The tables are refused exactly if a usable event tells a record of a kernel that is not one of the five. */
  lemma RefusedIffForeign(o: Order, f: Form)
    requires ProperOrder(o)
    ensures Normal(o, f).InvalidKernel? <==> exists e, r :: IsUsable(f, e) && Tells(f, e, r) && r.kernel.Foreign?
  {
    if Normal(o, f).InvalidKernel? {
      var e, r := ForeignIsTold(o, f);
    }
    forall e, r | IsUsable(f, e) && Tells(f, e, r) && r.kernel.Foreign?
      ensures Normal(o, f).InvalidKernel?
    {
      ForeignIsRefused(o, f, e, r);
    }
  }

  lemma UsableById(f: Form, d: EventRow, e: EventRow)
    requires IsUsable(f, d) && IsUsable(f, e) && d.id == e.id
    ensures d == e
  {
    var i :| 0 <= i < |f.events| && f.events[i] == d && forall j :: i < j < |f.events| ==> f.events[j].id != d.id;
    var k :| 0 <= k < |f.events| && f.events[k] == e && forall j :: k < j < |f.events| ==> f.events[j].id != e.id;
    assert i == k;
  }

  /** An event tells at most one graded record and one report. */
  lemma OneGradedOneReport(f: Form, e: EventRow, a: Record, b: Record)
    requires Tells(f, e, a) && Tells(f, e, b) && a.id == b.id && !IsControl(a.kind)
    ensures a == b
  {
    assert forall id :: id in a.mutations <==> id in b.mutations;
    assert a.mutations == b.mutations;
  }

  lemma KeptRecord(o: Order, f: Form, id: RecordId) returns (first: Record)
    requires ProperOrder(o) && Normal(o, f).Normalised? && HasId(AllCandidates(f, IncludedEvents(o, f)), id)
    ensures first in AllCandidates(f, IncludedEvents(o, f)) && first.id == id
    ensures WithStatus(first, Status(o, f)) in Normal(o, f).records
  {
    var firsts := FirstOfEachId(AllCandidates(f, IncludedEvents(o, f)));
    FirstOfEachIdAre(AllCandidates(f, IncludedEvents(o, f)));
    assert HasId(firsts, id);
    first :| first in firsts && first.id == id;
    var updated := WithStatuses(firsts, Status(o, f));
    var i :| 0 <= i < |firsts| && firsts[i] == first;
    assert updated[i] == WithStatus(first, Status(o, f));
    ChronologicalIsTotal(o);
    SortIsSorted(Chronological(o), updated);
    assert updated[i] in multiset(updated);
    assert updated[i] in multiset(Sort(Chronological(o), updated));
  }

  /** Everything a usable event tells becomes a record: a verdict and a report as they are, a directive under its
      event, kind and span. */
  lemma RowsBecomeRecords(o: Order, f: Form, e: EventRow, told: Record) returns (r: Record)
    requires ProperOrder(o) && Normal(o, f).Normalised? && IsUsable(f, e) && Tells(f, e, told)
    ensures r in Normal(o, f).records && r.id == told.id
    ensures told.kind.Graded? || told.kind.SelfReport? ==> r == told
  {
    ToldAreCandidates(o, f, e, told);
    assert HasId(AllCandidates(f, IncludedEvents(o, f)), told.id);
    var first := KeptRecord(o, f, told.id);
    r := WithStatus(first, Status(o, f));
    var d := CandidatesAreOfUsable(o, f, first);
    UsableById(f, d, e);
    if !IsControl(told.kind) {
      OneGradedOneReport(f, e, first, told);
    }
  }

  /** Every record is told by a usable event; later directives can only have changed its status. */
  lemma RecordsAreTold(o: Order, f: Form, r: Record) returns (e: EventRow, told: Record)
    requires ProperOrder(o) && Normal(o, f).Normalised? && r in Normal(o, f).records
    ensures IsUsable(f, e) && Tells(f, e, told) && r == told.(content := r.content)
    ensures told.kind.Graded? || told.kind.SelfReport? ==> r == told
    ensures forall k :: k != "status" && k != "cancelled" && k != "diagnostic_only" ==>
      && (k in r.content <==> k in told.content)
      && (k in r.content ==> r.content[k] == told.content[k])
  {
    e, told := RecordsComeFrom(o, f, r);
    IncludedIffUsable(o, f, e);
    CandidatesAreTold(f, e, told);
    StatusOnlyChanges(o, f, told);
  }

  lemma StatusOnlyChanges(o: Order, f: Form, told: Record)
    ensures
      var r := WithStatus(told, Status(o, f));
      && r == told.(content := r.content) && (!IsControl(told.kind) ==> r == told)
      && forall k :: k != "status" && k != "cancelled" && k != "diagnostic_only" ==>
           && (k in r.content <==> k in told.content)
           && (k in r.content ==> r.content[k] == told.content[k])
  {
    if IsControl(told.kind) && KeyOf(told) in Status(o, f) {
      StatusKeysAre(o, f, KeyOf(told));
      UpdatesOnly(told.content, Status(o, f)[KeyOf(told)]);
    }
  }

  lemma UpdatesOnly(content: map<string, Datum>, status: map<string, Datum>)
    requires status.Keys <= {"status", "cancelled", "diagnostic_only"}
    ensures forall k :: k != "status" && k != "cancelled" && k != "diagnostic_only" ==>
      && (k in content + status <==> k in content)
      && (k in content ==> (content + status)[k] == content[k])
  {
  }

  lemma {:induction false} LastWritesAreWrites(writes: seq<Write>, key: Key)
    requires key in LastWrites(writes)
    ensures exists w :: w in writes && w.key == key && w.status == LastWrites(writes)[key]
  {
    var last := writes[|writes| - 1];
    if last.key != key {
      LastWritesAreWrites(writes[..|writes| - 1], key);
    } else {
      assert last in writes;
    }
  }

  lemma StatusKeysAre(o: Order, f: Form, key: Key)
    requires key in Status(o, f)
    ensures Status(o, f)[key].Keys <= STATUS
  {
    var writes := AllWrites(f, IncludedEvents(o, f));
    LastWritesAreWrites(writes, key);
    var w :| w in writes && w.key == key && w.status == LastWrites(writes)[key];
    WritesAreStatuses(f, IncludedEvents(o, f), w);
  }

  // ---- The four ways into the records ------------------------------------------------------

  /** What a learner says in a message becomes a report. */
  lemma MessageBecomesReport(o: Order, f: Form, e: EventRow, words: string) returns (r: Record)
    requires ProperOrder(o) && Normal(o, f).Normalised? && IsUsable(f, e) && HasMutation(f, e) && words != ""
    requires e.kind.Message?
    requires e.payload.text == Words(words) || (!Truthy(e.payload.text) && e.payload.content == Words(words))
    ensures r in Normal(o, f).records && r.id == RecordId(e.id, SelfReport, "") && r.kernel == Knowledge
    ensures r.content == map["text" := Words(words), "evidence_grade" := Words("self_report")]
  {
    assert Reports(f, e, words);
    r := ReportIsMade(o, f, e, words);
  }

  /** So does an unverified observation. */
  lemma ObservationBecomesReport(o: Order, f: Form, e: EventRow, words: string) returns (r: Record)
    requires ProperOrder(o) && Normal(o, f).Normalised? && IsUsable(f, e) && HasMutation(f, e) && words != ""
    requires e.kind.ObservationRecorded? && e.payload.verification == Words("unverified") && e.payload.statement == Words(words)
    ensures r in Normal(o, f).records && r.id == RecordId(e.id, SelfReport, "") && r.kernel == Knowledge
    ensures r.content == map["text" := Words(words), "evidence_grade" := Words("self_report")]
  {
    assert Reports(f, e, words);
    r := ReportIsMade(o, f, e, words);
  }

  lemma ReportIsMade(o: Order, f: Form, e: EventRow, words: string) returns (r: Record)
    requires ProperOrder(o) && Normal(o, f).Normalised? && IsUsable(f, e) && Reports(f, e, words)
    ensures r in Normal(o, f).records && r.id == RecordId(e.id, SelfReport, "") && r.kernel == Knowledge
    ensures r.content == map["text" := Words(words), "evidence_grade" := Words("self_report")]
  {
    var content := map["text" := Words(words), "evidence_grade" := Words("self_report")];
    var told := NewRecord(f, e, Knowledge, SelfReport, content, NEVER, None, "");
    NewRecordIs(f, e, told);
    r := RowsBecomeRecords(o, f, e, told);
  }

  /** A formal attempt becomes a verdict. */
  lemma AttemptBecomesVerdict(o: Order, f: Form, e: EventRow, a: AttemptRow) returns (r: Record)
    requires ProperOrder(o) && Normal(o, f).Normalised? && IsUsable(f, e) && AttemptStands(f, e, a)
    ensures r in Normal(o, f).records && r.id == RecordId(e.id, Graded, "") && r.kernel == Practice
    ensures r.attempt == e.payload.attempt && ShowsVerdict(a, r.content)
  {
    var content := map["result" := if a.correct == Flag(true) then Words("correct") else Words("incorrect"),
                       "assistance_level" := a.assistance, "item_type" := Words("concept"),
                       "item_id" := if a.item.Some? then Number(a.item.value) else Nothing, "attempt_kind" := a.role,
                       "stable_mastery_evidence" := Flag(false), "transfer_verified" := Flag(false)];
    var told := NewRecord(f, e, Practice, Graded, content, NEVER, e.payload.attempt, "");
    NewRecordIs(f, e, told);
    r := RowsBecomeRecords(o, f, e, told);
  }

  /** A directive that names its own event becomes a record of the kind of its slot. */
  lemma DirectiveBecomesControl(o: Order, f: Form, e: EventRow, m: Mutation, entry: Entry, kind: RecordKind) returns (r: Record)
    requires ProperOrder(o) && Normal(o, f).Normalised? && IsUsable(f, e)
    requires Directs(f, e, m, entry) && entry.sourceEvent == Some(e.id) && SlotIs(Value(entry.fields, "slot"), kind)
    ensures r in Normal(o, f).records && r.id == RecordId(e.id, kind, entry.spanText)
  {
    var told := NewRecord(f, e, m.kernel, kind, ControlContent(e, entry), entry.expiresAt, None, entry.spanText);
    NewRecordIs(f, e, told);
    ContentIs(e, entry, told.content);
    assert TellsOf(f, e, told, m, entry);
    r := RowsBecomeRecords(o, f, e, told);
  }

  /** The records are in order of time, then of event, then of id. */
  lemma RecordsAreInTimeOrder(o: Order, f: Form)
    requires ProperOrder(o) && Normal(o, f).Normalised?
    ensures InTimeOrder(o, Normal(o, f).records)
  {
    NormalisedRecordsAreCanonical(o, f);
    CanonicalIsInTimeOrder(o, Normal(o, f).records);
  }

  // ---- The status of a control -------------------------------------------------------------

  lemma {:induction false} HasWriteIff(writes: seq<Write>, key: Key)
    ensures key in LastWrites(writes) <==> exists w :: w in writes && w.key == key
  {
    if writes != [] {
      var init, last := writes[..|writes| - 1], writes[|writes| - 1];
      HasWriteIff(init, key);
      assert forall w :: w in writes <==> w in init || w == last;
    }
  }

  lemma {:induction false} LastWritesJoin(a: seq<Write>, b: seq<Write>, key: Key)
    ensures key in LastWrites(a + b) <==> key in LastWrites(a) || key in LastWrites(b)
    ensures key in LastWrites(a + b) ==>
      LastWrites(a + b)[key] == if key in LastWrites(b) then LastWrites(b)[key] else LastWrites(a)[key]
    decreases |b|
  {
    if b == [] {
      assert a + b == a;
    } else {
      var n := |b| - 1;
      LastWritesJoin(a, b[..n], key);
      assert (a + b)[..|a + b| - 1] == a + b[..n];
    }
  }

  /** The last of several lists of writes that has the key decides. */
  ghost predicate IsLastList(lists: seq<seq<Write>>, key: Key, i: nat) {
    i < |lists| && key in LastWrites(lists[i]) && forall j :: i < j < |lists| ==> key !in LastWrites(lists[j])
  }

  function Joined(lists: seq<seq<Write>>): seq<Write> {
    if lists == [] then [] else Joined(lists[..|lists| - 1]) + lists[|lists| - 1]
  }

  lemma {:induction false} LastListDecides(lists: seq<seq<Write>>, key: Key) returns (i: nat)
    requires key in LastWrites(Joined(lists))
    ensures IsLastList(lists, key, i) && LastWrites(Joined(lists))[key] == LastWrites(lists[i])[key]
  {
    var n := |lists| - 1;
    LastWritesJoin(Joined(lists[..n]), lists[n], key);
    if key in LastWrites(lists[n]) {
      i := n;
    } else {
      i := LastListDecides(lists[..n], key);
      assert forall j :: i < j < n ==> lists[..n][j] == lists[j];
    }
  }

  /** What one directive writes, if its slot is recognised. */
  function EntryWrites(entry: Entry): seq<Write> {
    Writes(PostingIf(Structure, entry))
  }

  function MutationWrites(m: Mutation): seq<Write> {
    Writes(PostingsOf(m.kernel, Entries(m)))
  }

  lemma WritesJoin(a: seq<Posting>, b: seq<Posting>)
    ensures Writes(a + b) == Writes(a) + Writes(b)
  {
  }

  function EachEntry(entries: seq<Entry>): (r: seq<seq<Write>>)
    ensures |r| == |entries| && forall i :: 0 <= i < |r| ==> r[i] == EntryWrites(entries[i])
  {
    seq(|entries|, i requires 0 <= i < |entries| => EntryWrites(entries[i]))
  }

  lemma {:induction false} WritesByEntry(kernel: Kernel, entries: seq<Entry>)
    ensures Writes(PostingsOf(kernel, entries)) == Joined(EachEntry(entries))
  {
    if entries != [] {
      var n := |entries| - 1;
      WritesByEntry(kernel, entries[..n]);
      WritesJoin(PostingsOf(kernel, entries[..n]), PostingIf(kernel, entries[n]));
      assert EachEntry(entries)[..n] == EachEntry(entries[..n]);
      assert Writes(PostingIf(kernel, entries[n])) == EntryWrites(entries[n]);
    }
  }

  function EachMutation(mutations: seq<Mutation>): (r: seq<seq<Write>>)
    ensures |r| == |mutations| && forall i :: 0 <= i < |r| ==> r[i] == MutationWrites(mutations[i])
  {
    seq(|mutations|, i requires 0 <= i < |mutations| => MutationWrites(mutations[i]))
  }

  lemma {:induction false} WritesByMutation(mutations: seq<Mutation>)
    ensures Writes(Postings(mutations)) == Joined(EachMutation(mutations))
  {
    if mutations != [] {
      var n := |mutations| - 1;
      WritesByMutation(mutations[..n]);
      WritesJoin(Postings(mutations[..n]), PostingsOf(mutations[n].kernel, Entries(mutations[n])));
      assert EachMutation(mutations)[..n] == EachMutation(mutations[..n]);
    }
  }

  function EachEvent(f: Form, events: seq<EventRow>): (r: seq<seq<Write>>)
    ensures |r| == |events| && forall i :: 0 <= i < |r| ==> r[i] == EventWrites(f, events[i])
  {
    seq(|events|, i requires 0 <= i < |events| => EventWrites(f, events[i]))
  }

  lemma {:induction false} WritesByEvent(f: Form, events: seq<EventRow>)
    ensures AllWrites(f, events) == Joined(EachEvent(f, events))
  {
    if events != [] {
      var n := |events| - 1;
      WritesByEvent(f, events[..n]);
      assert EachEvent(f, events)[..n] == EachEvent(f, events[..n]);
    }
  }

  /** The directive names this event, slot and span. */
  ghost predicate Names(entry: Entry, key: Key) {
    && entry.sourceEvent == key.event && entry.spanText == key.span && Value(entry.fields, "slot") == key.slot
    && exists kind :: SlotIs(key.slot, kind)
  }

  lemma EntryWritesAre(entry: Entry, key: Key)
    ensures key in LastWrites(EntryWrites(entry)) <==> Names(entry, key)
    ensures Names(entry, key) ==>
      forall k :: && (k in LastWrites(EntryWrites(entry))[key] <==> k in entry.fields && k in STATUS)
                  && (k in LastWrites(EntryWrites(entry))[key] ==> LastWrites(EntryWrites(entry))[key][k] == entry.fields[k])
  {
    SlotKindIs(Value(entry.fields, "slot"));
    HasWriteIff(EntryWrites(entry), key);
    var postings := PostingIf(Structure, entry);
    if postings != [] {
      assert SlotIs(Value(entry.fields, "slot"), SlotKind(Value(entry.fields, "slot")).value);
      assert EntryWrites(entry) == [WriteOf(postings[0])];
      assert EntryWrites(entry)[..0] == [];
    }
  }

  /** Entry `k` of mutation `i` applied for the event is the last of them to name the key. */
  ghost predicate IsLastOf(f: Form, e: EventRow, i: nat, k: nat, key: Key) {
    && i < |LocalMutations(f, e)| && k < |Entries(LocalMutations(f, e)[i])|
    && Names(Entries(LocalMutations(f, e)[i])[k], key)
    && (forall l :: k < l < |Entries(LocalMutations(f, e)[i])| ==> !Names(Entries(LocalMutations(f, e)[i])[l], key))
    && forall j, l :: i < j < |LocalMutations(f, e)| && 0 <= l < |Entries(LocalMutations(f, e)[j])| ==>
         !Names(Entries(LocalMutations(f, e)[j])[l], key)
  }

  lemma MutationHasKey(m: Mutation, key: Key)
    ensures key in LastWrites(MutationWrites(m)) <==> exists l :: 0 <= l < |Entries(m)| && Names(Entries(m)[l], key)
  {
    var entries := Entries(m);
    WritesByEntry(m.kernel, entries);
    if key in LastWrites(MutationWrites(m)) {
      var l := LastListDecides(EachEntry(entries), key);
      EntryWritesAre(entries[l], key);
    }
    if l :| 0 <= l < |entries| && Names(entries[l], key) {
      EntryWritesAre(entries[l], key);
      ListHasKey(EachEntry(entries), key, l);
    }
  }

  lemma {:induction false} ListHasKey(lists: seq<seq<Write>>, key: Key, i: nat)
    requires i < |lists| && key in LastWrites(lists[i])
    ensures key in LastWrites(Joined(lists))
  {
    var n := |lists| - 1;
    LastWritesJoin(Joined(lists[..n]), lists[n], key);
    if i < n {
      ListHasKey(lists[..n], key, i);
    }
  }

  /** Within an event the last entry of the last mutation that names the key decides. */
  lemma EventStatusIs(f: Form, e: EventRow, key: Key) returns (i: nat, k: nat, entry: Entry)
    requires key in LastWrites(EventWrites(f, e))
    ensures IsLastOf(f, e, i, k, key) && entry == Entries(LocalMutations(f, e)[i])[k] && key in LastWrites(EntryWrites(entry))
    ensures LastWrites(EventWrites(f, e))[key] == LastWrites(EntryWrites(entry))[key]
  {
    var local := LocalMutations(f, e);
    WritesByMutation(local);
    i := LastListDecides(EachMutation(local), key);
    var entries := Entries(local[i]);
    WritesByEntry(local[i].kernel, entries);
    k := LastListDecides(EachEntry(entries), key);
    entry := entries[k];
    EntryWritesAre(entry, key);
    forall l | k < l < |entries|
      ensures !Names(entries[l], key)
    {
      EntryWritesAre(entries[l], key);
    }
    forall j | i < j < |local|
      ensures forall l :: 0 <= l < |Entries(local[j])| ==> !Names(Entries(local[j])[l], key)
    {
      MutationHasKey(local[j], key);
    }
  }

  /** No directive of the event names the key. */
  ghost predicate IsSilent(f: Form, e: EventRow, key: Key) {
    forall j, l :: 0 <= j < |LocalMutations(f, e)| && 0 <= l < |Entries(LocalMutations(f, e)[j])| ==>
      !Names(Entries(LocalMutations(f, e)[j])[l], key)
  }

  lemma SilentIff(f: Form, e: EventRow, key: Key)
    requires key !in LastWrites(EventWrites(f, e))
    ensures IsSilent(f, e, key)
  {
    var local := LocalMutations(f, e);
    WritesByMutation(local);
    forall j | 0 <= j < |local|
      ensures forall l :: 0 <= l < |Entries(local[j])| ==> !Names(Entries(local[j])[l], key)
    {
      MutationHasKey(local[j], key);
      if key in LastWrites(MutationWrites(local[j])) {
        ListHasKey(EachMutation(local), key, j);
      }
    }
  }

  /** `d` comes after `e`: at a later time, or at the same time under a greater id. */
  ghost predicate ComesAfter(o: Order, d: EventRow, e: EventRow) {
    if d.occurredAt.text != e.occurredAt.text then o.text(e.occurredAt.text, d.occurredAt.text) else e.id < d.id
  }

  lemma EventsAreInOrder(o: Order, f: Form, i: nat, j: nat)
    requires ProperOrder(o) && i < |IncludedEvents(o, f)| && j < |IncludedEvents(o, f)|
    requires ComesAfter(o, IncludedEvents(o, f)[j], IncludedEvents(o, f)[i])
    ensures i < j
  {
    var events := IncludedEvents(o, f);
    IncludedEventsAre(o, f);
    if j <= i {
      NotBefore(o, events, j, i);
    }
  }

  lemma NotBefore(o: Order, events: seq<EventRow>, i: nat, j: nat)
    requires ProperOrder(o) && SortedBy(ByTime(o), events) && i <= j < |events|
    ensures !ComesAfter(o, events[i], events[j])
  {
    assert i < j ==> ByTime(o)(events[i], events[j]);
  }

  /** The last usable event that names the key, and its last directive that does, decide the status. */
  lemma StatusIsTheLast(o: Order, f: Form, key: Key) returns (e: EventRow, i: nat, k: nat)
    requires ProperOrder(o) && key in Status(o, f)
    ensures IsUsable(f, e) && IsLastOf(f, e, i, k, key)
    ensures forall d :: IsUsable(f, d) && ComesAfter(o, d, e) ==> IsSilent(f, d, key)
    ensures
      var entry := Entries(LocalMutations(f, e)[i])[k];
      forall s :: && (s in Status(o, f)[key] <==> s in entry.fields && s in STATUS)
                  && (s in Status(o, f)[key] ==> Status(o, f)[key][s] == entry.fields[s])
  {
    var events := IncludedEvents(o, f);
    WritesByEvent(f, events);
    var n := LastListDecides(EachEvent(f, events), key);
    e := events[n];
    IncludedIffUsable(o, f, e);
    var entry;
    i, k, entry := EventStatusIs(f, e, key);
    EntryWritesAre(entry, key);
    forall d | IsUsable(f, d) && ComesAfter(o, d, e)
      ensures IsSilent(f, d, key)
    {
      IncludedIffUsable(o, f, d);
      var j :| 0 <= j < |events| && events[j] == d;
      EventsAreInOrder(o, f, n, j);
      SilentIff(f, d, key);
    }
  }

  lemma ControlHasStatus(o: Order, f: Form, r: Record)
    requires ProperOrder(o) && Normal(o, f).Normalised? && r in Normal(o, f).records && IsControl(r.kind)
    ensures SlotIs(Value(r.content, "slot"), r.kind) && KeyOf(r) in Status(o, f)
    ensures forall s :: s in Status(o, f)[KeyOf(r)] ==> s in r.content && r.content[s] == Status(o, f)[KeyOf(r)][s]
  {
    var e, told := RecordsComeFrom(o, f, r);
    var n := LastWriteOf(f, IncludedEvents(o, f), e, told);
    StatusIsMerged(told, Status(o, f));
    CandidatesAreTold(f, e, told);
    ControlShowsSlot(f, e, told);
  }

  lemma ControlShowsSlot(f: Form, e: EventRow, told: Record)
    requires Tells(f, e, told) && IsControl(told.kind)
    ensures SlotIs(Value(told.content, "slot"), told.kind)
  {
    var m, entry :| TellsOf(f, e, told, m, entry);
    assert "slot" in KEPT && Value(told.content, "slot") == Value(entry.fields, "slot");
  }

  /** Every control record carries the status keys of the last directive, among all usable events, that names its
      event, slot and span: the last by time, then by event, then by mutation, then by place in the mutation. */
  lemma ControlsShowTheLastDirective(o: Order, f: Form, r: Record) returns (e: EventRow, i: nat, k: nat)
    requires ProperOrder(o) && Normal(o, f).Normalised? && r in Normal(o, f).records && IsControl(r.kind)
    ensures
      var key := Key(Some(r.source), Value(r.content, "slot"), r.id.suffix);
      && SlotIs(key.slot, r.kind) && IsUsable(f, e) && IsLastOf(f, e, i, k, key)
      && (forall d :: IsUsable(f, d) && ComesAfter(o, d, e) ==> IsSilent(f, d, key))
      && var entry := Entries(LocalMutations(f, e)[i])[k];
         forall s :: s in {"status", "cancelled", "diagnostic_only"} && s in entry.fields ==>
           s in r.content && r.content[s] == entry.fields[s]
  {
    ControlHasStatus(o, f, r);
    e, i, k := StatusIsTheLast(o, f, KeyOf(r));
  }

  /** The directives of a mutation, short-term ones first. */
  lemma EntriesAre(m: Mutation, k: nat)
    requires k < |Entries(m)|
    ensures
      if k < |Chosen(m.shortTerm)| then InBody(m.shortTerm, Entries(m)[k])
      else k - |Chosen(m.shortTerm)| < |Chosen(m.longTerm)| && InBody(m.longTerm, Entries(m)[k])
  {
    InBodyIff(m.shortTerm, Entries(m)[k]);
    InBodyIff(m.longTerm, Entries(m)[k]);
  }
}
