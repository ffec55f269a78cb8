/** Receipts of assessments, and the projections of a packet that deliver them
    (scripts/audit_education_episode_freshness.py: valid_assessment, valid_excerpt, episode_delivery,
    guidance_delivery).

    Times are instants; `None` is a text that does not parse.  A digest is modelled by the text it digests. */
module Receipts {
  import opened Options

  /** A saved id: missing, a number, or something else. */
  datatype Ident = Missing | Number(n: int) | Junk

  predicate Whole(i: Ident) {
    i.Number? && i.n > 0
  }

  predicate SameId(a: Ident, b: Ident) {
    (a.Missing? && b.Missing?) || (Whole(a) && a == b)
  }

  datatype Scope = Scope(learner: Ident, project: Ident, checkpoint: Ident, session: Ident)

  predicate SameCheckpoint(a: Scope, b: Scope) {
    SameId(a.learner, b.learner) && SameId(a.project, b.project) && SameId(a.checkpoint, b.checkpoint)
  }

  predicate SamePlace(a: Scope, b: Scope) {
    SameId(a.project, b.project) && SameId(a.checkpoint, b.checkpoint) && SameId(a.session, b.session)
  }

  predicate SameScope(a: Scope, b: Scope) {
    SameId(a.learner, b.learner) && SamePlace(a, b)
  }

  /** A value that should be a boolean. */
  datatype Answer = Unset | Yes | No | Odd

  function Told(b: bool): Answer {
    if b then Yes else No
  }

  // ---- Saved state -------------------------------------------------------------------------

  datatype EventKind = ConceptEvaluated | ExerciseEvaluated | TeachingInput | OtherEvent

  datatype Payload = Payload(
    attempt: Ident, item: Ident, correct: Answer, passed: Answer, assistance: Option<string>, independent: Answer)

  datatype Event = Event(
    id: int, kind: EventKind, source: string, client: string, scope: Scope, occurred: Option<int>, payload: Payload)

  datatype AttemptRow = AttemptRow(
    id: int, scope: Scope, status: string, itemType: string, item: Ident, submitted: Option<int>, evaluated: Option<int>,
    correct: Answer, passed: Option<int>, total: Option<int>, assistance: Option<string>, role: Option<string>)

  datatype Fact = Fact(id: int, event: Ident, mutation: Ident, kernel: string, scope: Scope, text: Option<string>)

  datatype Mutation = Mutation(applied: bool, event: Ident, learner: Ident, kernel: string)

  /** The end of a validity, if one is given, as far as it parses. */
  datatype Node = Node(
    fact: bool, kernel: string, scope: Scope, status: string, validTo: Option<Option<int>>, text: Option<string>)

  datatype Indexes = Indexes(
    events: seq<Event>, attempts: map<int, AttemptRow>, facts: map<int, Fact>, mutations: map<int, Mutation>,
    nodes: map<int, Node>)

  function Row<T>(table: map<int, T>, id: Ident): Option<T> {
    if id.Number? && id.n in table then Some(table[id.n]) else None
  }

  // ---- Receipts ----------------------------------------------------------------------------

  datatype Outcome = Outcome(correct: bool, assistance: Option<string>, independent: Answer)

  datatype Receipt = Receipt(
    event: int, attempt: int, itemType: string, item: Ident, role: Option<string>, occurred: int, scope: Scope,
    outcome: Outcome, action: string, facts: set<int>)

  datatype Reason =
    | NotNative | OutsideScope | InvalidTime | InvalidAttemptId | MissingAttempt | UnboundReceipt | AttemptScope
    | ItemMismatch | AttemptTime | NoOutcome | ResultMismatch | AssistanceMismatch | Contradiction | NoFactChain

  datatype Checked = Valid(receipt: Receipt) | Excluded(reason: Reason)

  predicate Helped(assistance: Option<string>) {
    assistance == Some("hint") || assistance == Some("guided")
  }

  function ExpectedAction(o: Outcome, role: Option<string>): string {
    if !o.correct then "diagnose_first_error"
    else if Helped(o.assistance) || role == Some("retry") then "fade_support_then_independent_probe"
    else if o.assistance == Some("none") && o.independent.Yes? then "independent_variant_or_reasoning_check"
    else "clarify_assistance"
  }

  /** A current fact that an applied mutation formed for the event, in the event's place. */
  predicate Linked(ix: Indexes, e: Event, scope: Scope, at: int, id: int) {
    && id in ix.facts && id in ix.nodes
    && var fact, node := ix.facts[id], ix.nodes[id];
       && SameId(fact.event, Number(e.id)) && Whole(fact.mutation)
       && fact.mutation.n in ix.mutations
       && var m := ix.mutations[fact.mutation.n];
          && m.applied && SameId(m.event, Number(e.id)) && SameId(m.learner, scope.learner)
          && m.kernel == node.kernel == fact.kernel
          && node.fact && node.kernel in {"knowledge", "practice", "structure", "value"}
          && SameId(node.scope.learner, scope.learner)
          && node.status in {"active", "transient", "legacy"}
          && (node.status == "transient" ==> Whole(scope.session) && SameId(node.scope.session, scope.session))
          && (node.validTo.Some? ==> node.validTo.value.Some? && node.validTo.value.value > at)
          && SamePlace(fact.scope, e.scope) && SamePlace(node.scope, e.scope)
  }

  function LinkedFacts(ix: Indexes, e: Event, scope: Scope, at: int): set<int> {
    set id | id in ix.facts && Linked(ix, e, scope, at, id)
  }

  predicate ResultAgrees(concept: bool, a: AttemptRow, correct: bool) {
    if concept then a.correct == Told(correct)
    else
      a.passed.Some? && a.total.Some? && 0 <= a.passed.value <= a.total.value && a.total.value > 0 &&
      (a.passed.value == a.total.value) == correct
  }

  function ValidAssessment(ix: Indexes, shown: Ident -> string, e: Event, scope: Scope, at: int): Checked {
    var concept := e.kind.ConceptEvaluated?;
    var a := Row(ix.attempts, e.payload.attempt);
    var itemType := if concept then "concept" else "exercise";
    var correct := if concept then e.payload.correct else e.payload.passed;
    var independent := if e.payload.independent.Odd? then Unset else e.payload.independent;
    if !(concept || e.kind.ExerciseEvaluated?) || e.source != "assessment" then Excluded(NotNative)
    else if !SameCheckpoint(e.scope, scope) then Excluded(OutsideScope)
    else if e.occurred.None? || e.occurred.value > at then Excluded(InvalidTime)
    else if !Whole(e.payload.attempt) then Excluded(InvalidAttemptId)
    else if a.None? || a.value.status != "evaluated" then Excluded(MissingAttempt)
    else if e.client != "attempt:" + shown(Number(a.value.id)) + ":evaluated"
            && e.client != shown(scope.learner) + ":attempt:" + shown(Number(a.value.id)) + ":evaluated" then
      Excluded(UnboundReceipt)
    else if !SameCheckpoint(a.value.scope, scope) then Excluded(AttemptScope)
    else if a.value.itemType != itemType || !Whole(e.payload.item) || e.payload.item != a.value.item then Excluded(ItemMismatch)
    else if a.value.submitted.None? || a.value.evaluated.None?
            || !(a.value.submitted.value <= a.value.evaluated.value <= at) then
      Excluded(AttemptTime)
    else if !(correct.Yes? || correct.No?) then Excluded(NoOutcome)
    else if !ResultAgrees(concept, a.value, correct.Yes?) then Excluded(ResultMismatch)
    else if !(e.payload.assistance in {None, Some("none"), Some("hint"), Some("guided")})
            || (e.payload.assistance.Some? && e.payload.assistance != a.value.assistance) then
      Excluded(AssistanceMismatch)
    else if independent.Yes? && Helped(e.payload.assistance) then Excluded(Contradiction)
    else if LinkedFacts(ix, e, scope, at) == {} then Excluded(NoFactChain)
    else
      var outcome := Outcome(correct.Yes?, e.payload.assistance, independent);
      Valid(Receipt(e.id, a.value.id, itemType, a.value.item, a.value.role, e.occurred.value, e.scope, outcome,
                    ExpectedAction(outcome, a.value.role), LinkedFacts(ix, e, scope, at)))
  }

  function ReceiptOf(ix: Indexes, shown: Ident -> string, e: Event, scope: Scope, at: int): Option<Receipt> {
    match ValidAssessment(ix, shown, e, scope, at)
    case Valid(r) => Some(r)
    case Excluded(_) => None
  }

  /** A receipt is of its event and its time, repeats an evaluated attempt of the same checkpoint, and
      rests on at least one current fact. */
  lemma ReceiptsAreSound(ix: Indexes, shown: Ident -> string, e: Event, scope: Scope, at: int)
    requires ReceiptOf(ix, shown, e, scope, at).Some?
    ensures
      var r := ReceiptOf(ix, shown, e, scope, at).value;
      && r.event == e.id && e.occurred == Some(r.occurred) && r.occurred <= at && r.scope == e.scope
      && r.facts != {} && (forall id :: id in r.facts ==> Linked(ix, e, scope, at, id))
      && exists a :: a in ix.attempts.Values && a.id == r.attempt && a.status == "evaluated"
                     && SameCheckpoint(a.scope, scope) && ResultAgrees(r.itemType == "concept", a, r.outcome.correct)
  {
    assert ix.attempts[e.payload.attempt.n] in ix.attempts.Values;
  }

  // ---- Episodes ----------------------------------------------------------------------------

  datatype Source = Source(ranges: Option<seq<Option<(int, int)>>>, digest: Option<string>, chars: Option<int>)

  datatype Observation = Observation(
    fact: Ident, event: Ident, mutation: Ident, kernel: string, text: Option<string>, source: Option<Source>)

  datatype Task = Task(canonical: bool, itemType: string, item: Ident, kind: Option<string>)

  datatype Shown = Shown(correct: Answer, assistance: Option<string>, independent: Answer)

  /** A list that may be something else, and whose members may be. */
  type List<T> = Option<seq<T>>

  /** `known` says that the projection is an episode of the known schema, `full` that it shows all its
      conditions. */
  datatype Episode = Episode(
    known: bool, full: bool, events: List<Ident>, facts: List<Ident>, mutations: List<Ident>, anchors: List<Ident>,
    scope: Option<Scope>, task: Option<Task>, outcome: Option<Shown>, attempt: Ident, occurred: Option<int>,
    observations: List<Option<Observation>>)

  predicate ProperIds(ids: List<Ident>) {
    && ids.Some? && ids.value != []
    && (forall i :: i in ids.value ==> Whole(i))
    && forall i, j :: 0 <= i < j < |ids.value| ==> ids.value[i] != ids.value[j]
  }

  function Numbers(ids: seq<Ident>): set<int> {
    set i | i in ids && i.Number? :: i.n
  }

  predicate ProperRanges(ranges: List<Option<(int, int)>>, length: nat) {
    && ranges.Some? && ranges.value != []
    && forall r :: r in ranges.value ==> r.Some? && 0 <= r.value.0 < r.value.1 <= length
  }

  /** The pieces of a text, joined by an ellipsis. */
  function Excerpt(text: string, ranges: seq<Option<(int, int)>>): string
    requires forall r :: r in ranges ==> r.Some? && 0 <= r.value.0 < r.value.1 <= |text|
  {
    if ranges == [] then ""
    else
      var last := ranges[|ranges| - 1];
      var piece := text[last.value.0..last.value.1];
      if |ranges| == 1 then piece else Excerpt(text, ranges[..|ranges| - 1]) + " … " + piece
  }

  predicate ValidExcerpt(o: Observation, fact: Fact, node: Node) {
    && o.text.Some? && o.text.value != "" && node.text.Some? && fact.text == node.text && o.source.Some?
    && ProperRanges(o.source.value.ranges, |node.text.value|)
    && o.source.value.digest == node.text && o.source.value.chars == Some(|node.text.value|)
    && o.text.value == Excerpt(node.text.value, o.source.value.ranges.value)
  }

  /** The observation quotes a fact of the receipt it names. */
  predicate Observes(ix: Indexes, eligible: map<int, Receipt>, o: Observation) {
    && Whole(o.fact) && Whole(o.event) && Whole(o.mutation)
    && o.event.n in eligible && o.fact.n in eligible[o.event.n].facts
    && o.fact.n in ix.facts && o.fact.n in ix.nodes
    && ix.facts[o.fact.n].event == o.event && ix.facts[o.fact.n].mutation == o.mutation
    && o.kernel == ix.nodes[o.fact.n].kernel && ValidExcerpt(o, ix.facts[o.fact.n], ix.nodes[o.fact.n])
  }

  /** What the observations gone through add up to. */
  datatype Seen = Seen(facts: set<int>, events: set<int>, mutations: set<int>)

  datatype Problem =
    | Schema | ReferenceShape | ReceiptNotApplicable | Fields | AttemptIdentity | ReceiptIdentity | ReceiptOutcome
    | ReceiptTime | Observations | ObservationReferences | ObservationBinding | Closure
    | GuidanceContract | GuidanceTime | GuidanceScope | ApplicationScope | SourceScope | ItemBinding

  datatype Look = Look(seen: Seen) | Flaw(problem: Problem)

  function LookAt(ix: Indexes, eligible: map<int, Receipt>, events: set<int>, os: seq<Option<Observation>>): Look {
    if os == [] then Look(Seen({}, {}, {}))
    else
      match LookAt(ix, eligible, events, os[..|os| - 1])
      case Flaw(problem) => Flaw(problem)
      case Look(seen) => LookAtOne(ix, eligible, events, seen, os[|os| - 1])
  }

  function LookAtOne(ix: Indexes, eligible: map<int, Receipt>, events: set<int>, seen: Seen, o: Option<Observation>): Look {
    if o.None? then Flaw(Observations)
    else
      var v := o.value;
      if !(Whole(v.fact) && Whole(v.event) && Whole(v.mutation)) || v.fact.n in seen.facts || v.event.n !in events then
        Flaw(ObservationReferences)
      else if !Observes(ix, eligible, v) then Flaw(ObservationBinding)
      else Look(Seen(seen.facts + {v.fact.n}, seen.events + {v.event.n}, seen.mutations + {v.mutation.n}))
  }

  predicate SameTask(ep: Episode, r: Receipt)
    requires ep.scope.Some? && ep.task.Some?
  {
    && ep.attempt == Number(r.attempt)
    && ep.task.value.itemType == r.itemType && SameId(ep.task.value.item, r.item)
    && ep.task.value.kind == (if r.role in {Some("original"), Some("retry"), Some("variant")} then r.role else None)
    && SameScope(ep.scope.value, r.scope)
  }

  predicate SameOutcome(o: Shown, r: Receipt) {
    o.correct == Told(r.outcome.correct) && o.assistance == r.outcome.assistance && o.independent == r.outcome.independent
  }

  /** The episode happened when the last of its receipts did. */
  predicate LastTime(at: int, events: set<int>, eligible: map<int, Receipt>)
    requires events <= eligible.Keys
  {
    (exists id :: id in events && eligible[id].occurred == at) && forall id :: id in events ==> eligible[id].occurred <= at
  }

  function FactsOf(events: set<int>, eligible: map<int, Receipt>): set<int> {
    set id, f | id in events && id in eligible && f in eligible[id].facts :: f
  }

  datatype Delivery = Delivers(ids: set<int>) | Fails(problem: Problem)

  function EpisodeDelivery(ix: Indexes, ep: Episode, eligible: map<int, Receipt>): Delivery {
    if !ep.known then Fails(Schema)
    else if !(ProperIds(ep.events) && ProperIds(ep.facts) && ProperIds(ep.mutations) && ProperIds(ep.anchors)) then
      Fails(ReferenceShape)
    else
      var events := Numbers(ep.events.value);
      if !(events <= eligible.Keys) then Fails(ReceiptNotApplicable)
      else if ep.scope.None? || ep.task.None? || ep.outcome.None? then Fails(Fields)
      else if !Whole(ep.attempt) || ep.task.value.canonical then Fails(AttemptIdentity)
      else if exists id :: id in events && !SameTask(ep, eligible[id]) then Fails(ReceiptIdentity)
      else if exists id :: id in events && !SameOutcome(ep.outcome.value, eligible[id]) then Fails(ReceiptOutcome)
      else if ep.occurred.None? || !LastTime(ep.occurred.value, events, eligible) then Fails(ReceiptTime)
      else if ep.observations.None? || ep.observations.value == [] || None in ep.observations.value then Fails(Observations)
      else
        match LookAt(ix, eligible, events, ep.observations.value)
        case Flaw(problem) => Fails(problem)
        case Look(seen) =>
          if seen.facts == Numbers(ep.facts.value) && seen.events == events && seen.mutations == Numbers(ep.mutations.value)
             && Numbers(ep.anchors.value) * seen.facts != {} && Numbers(ep.anchors.value) <= FactsOf(events, eligible) then
            Delivers(events)
          else Fails(Closure)
  }

  /** Every fact, event and mutation seen comes from an observation that quotes its receipt. */
  lemma {:induction false} SeenIsObserved(ix: Indexes, eligible: map<int, Receipt>, events: set<int>, os: seq<Option<Observation>>)
    requires LookAt(ix, eligible, events, os).Look?
    ensures
      var seen := LookAt(ix, eligible, events, os).seen;
      && seen.events <= events
      && (forall id :: id in seen.events ==> exists o :: o in os && o.Some? && o.value.event == Number(id) && Observes(ix, eligible, o.value))
      && (forall f :: f in seen.facts ==> exists o :: o in os && o.Some? && o.value.fact == Number(f) && Observes(ix, eligible, o.value))
  {
    if os != [] {
      var init, last := os[..|os| - 1], os[|os| - 1];
      SeenIsObserved(ix, eligible, events, init);
      assert last in os && forall o :: o in init ==> o in os;
    }
  }

  /** A delivered episode is about receipts that count; each of them is quoted through one of its own
      facts; and they are of one attempt with one outcome, the last of them at the episode's time. */
  lemma EpisodesDeliverObservedReceipts(ix: Indexes, ep: Episode, eligible: map<int, Receipt>)
    requires EpisodeDelivery(ix, ep, eligible).Delivers?
    ensures
      var ids := EpisodeDelivery(ix, ep, eligible).ids;
      && ids != {} && ids <= eligible.Keys && ep.occurred.Some? && LastTime(ep.occurred.value, ids, eligible)
      && (forall id :: id in ids ==>
            exists o :: o in ep.observations.value && o.Some? && o.value.event == Number(id) && Observes(ix, eligible, o.value))
      && (forall a, b :: a in ids && b in ids ==>
            && eligible[a].attempt == eligible[b].attempt && eligible[a].itemType == eligible[b].itemType
            && eligible[a].outcome == eligible[b].outcome)
  {
    var events := Numbers(ep.events.value);
    assert ep.events.value[0] in ep.events.value;
    SeenIsObserved(ix, eligible, events, ep.observations.value);
    forall id | id in events
      ensures SameTask(ep, eligible[id]) && SameOutcome(ep.outcome.value, eligible[id])
    {
    }
  }

  // ---- Guidance ----------------------------------------------------------------------------

  /** `feedback`: a practice feedback entry; `contract`: an active, uncancelled, task-long entry of a known
      version with evidence of assessment and an instruction; `second`: of the second version. */
  datatype Guidance = Guidance(
    known: bool, feedback: bool, contract: bool, second: bool, event: Ident, occurred: Option<int>, expires: Option<int>,
    scope: Option<Scope>, applied: Option<Scope>, exactScopes: bool, origin: Option<Scope>, item: Option<string>)

  /** Each part of the scope that is given is the query's. */
  predicate Applies(s: Scope, query: Scope) {
    && (!s.project.Missing? ==> SameId(s.project, query.project))
    && (!s.checkpoint.Missing? ==> SameId(s.checkpoint, query.checkpoint))
    && (!s.session.Missing? ==> SameId(s.session, query.session))
  }

  function GuidanceDelivery(g: Guidance, eligible: map<int, Receipt>, shown: Ident -> string, query: Scope, at: int): Delivery {
    var scope := if g.second then g.applied else g.scope;
    if !g.known then Fails(Schema)
    else if !g.feedback then Delivers({})
    else if !Whole(g.event) || g.event.n !in eligible then Fails(ReceiptNotApplicable)
    else if !g.contract then Fails(GuidanceContract)
    else
      var r := eligible[g.event.n];
      if g.occurred != Some(r.occurred) || g.expires.None? || !(r.occurred <= at < g.expires.value) then Fails(GuidanceTime)
      else if scope.None? || !SamePlace(scope.value, r.scope) then Fails(GuidanceScope)
      else if !Applies(scope.value, query) then Fails(ApplicationScope)
      else if g.second && !(g.exactScopes && g.applied == g.scope && g.origin.Some? && SamePlace(g.origin.value, r.scope)) then
        Fails(SourceScope)
      else if g.item.Some? && g.item.value != r.itemType + ":" + shown(r.item) then Fails(ItemBinding)
      else Delivers({g.event.n})
  }

  /** Guidance delivers at most its own receipt, while it stands and in the place of the receipt. */
  lemma GuidanceDeliversItsReceipt(g: Guidance, eligible: map<int, Receipt>, shown: Ident -> string, query: Scope, at: int, id: int)
    requires GuidanceDelivery(g, eligible, shown, query, at).Delivers? && id in GuidanceDelivery(g, eligible, shown, query, at).ids
    ensures id in eligible && g.event == Number(id) && g.occurred == Some(eligible[id].occurred)
    ensures g.expires.Some? && eligible[id].occurred <= at < g.expires.value
    ensures exists scope :: SamePlace(scope, eligible[id].scope) && Applies(scope, query)
  {
    var scope := if g.second then g.applied else g.scope;
    assert SamePlace(scope.value, eligible[id].scope);
  }

  /** Looks at every observation until one has a flaw. */
  method LookThrough(ix: Indexes, eligible: map<int, Receipt>, events: set<int>, os: seq<Option<Observation>>) returns (r: Look)
    ensures r == LookAt(ix, eligible, events, os)
  {
    r := Look(Seen({}, {}, {}));
    for i := 0 to |os|
      invariant r == LookAt(ix, eligible, events, os[..i]) && r.Look?
    {
      assert os[..i + 1][..i] == os[..i];
      r := LookAtOne(ix, eligible, events, r.seen, os[i]);
      if r.Flaw? {
        FlawStays(ix, eligible, events, os, i + 1);
        return;
      }
    }
    assert os[..|os|] == os;
  }

  lemma {:induction false} FlawStays(ix: Indexes, eligible: map<int, Receipt>, events: set<int>, os: seq<Option<Observation>>, i: nat)
    requires i <= |os| && LookAt(ix, eligible, events, os[..i]).Flaw?
    ensures LookAt(ix, eligible, events, os) == LookAt(ix, eligible, events, os[..i])
    decreases |os|
  {
    if i < |os| {
      assert os[..|os| - 1][..i] == os[..i];
      FlawStays(ix, eligible, events, os[..|os| - 1], i);
    } else {
      assert os[..i] == os;
    }
  }
}
