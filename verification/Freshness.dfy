/** Whether a decision rests on the latest assessment, and the report that relies on that audit
    (scripts/audit_education_episode_freshness.py: delivered_assessments, audit_condition;
    evals/education_memory_upgrade/report.py: educational_diagnostics).

    The audit is stated for any checks of a single receipt, episode and guidance; `Saved` are the program's. */
module Freshness {
  import opened Options
  import opened Receipts

  lemma SameScopesAreEqual(a: Scope, b: Scope)
    requires SameScope(a, b)
    ensures a == b
  {
  }

  predicate Assesses(e: Event) {
    e.kind.ConceptEvaluated? || e.kind.ExerciseEvaluated?
  }

  /** `receipt` answers whether an event is a valid assessment of a scope at a time; `episode` and
      `guidance` give the receipts a projection delivers. */
  datatype Checks = Checks(
    receipt: (Event, Scope, int) -> Option<Receipt>,
    episode: (Episode, map<int, Receipt>) -> Option<set<int>>,
    guidance: (Guidance, map<int, Receipt>, Scope, int) -> Option<set<int>>,
    shown: Ident -> string)

  /** A receipt is of its event and of its time. */
  ghost predicate ProperChecks(k: Checks) {
    forall e, s, at :: k.receipt(e, s, at).Some? ==>
      k.receipt(e, s, at).value.event == e.id && e.occurred == Some(k.receipt(e, s, at).value.occurred)
  }

  datatype Decision = Decision(action: string, sources: List<Ident>)

  /** `None` is a projection that is not a list. */
  datatype Packet = Packet(
    checkpointMode: bool, scope: Scope, currentFeedback: bool,
    episodes: List<Episode>, guidance: List<Guidance>)

  datatype Condition = Condition(caseId: string, packet: Packet, decisions: seq<Decision>)

  const FEEDBACK := {"fade_support_then_independent_probe", "independent_variant_or_reasoning_check",
                     "diagnose_first_error", "clarify_nonresponse", "clarify_assistance"}

  // ---- Receipts ----------------------------------------------------------------------------

  ghost predicate DistinctEvents(events: seq<Event>) {
    forall i, j :: 0 <= i < j < |events| ==> events[i].id != events[j].id
  }

  /** The valid assessments by event. */
  ghost predicate AreReceipts(eligible: map<int, Receipt>, k: Checks, events: seq<Event>, scope: Scope, at: int) {
    && (forall e :: e in events && Assesses(e) && k.receipt(e, scope, at).Some? ==>
          e.id in eligible && eligible[e.id] == k.receipt(e, scope, at).value)
    && (forall id :: id in eligible ==>
          exists e :: e in events && Assesses(e) && k.receipt(e, scope, at) == Some(eligible[id]) && e.id == id)
  }

  lemma ReceiptsAreUnique(a: map<int, Receipt>, b: map<int, Receipt>, k: Checks, events: seq<Event>, scope: Scope, at: int)
    requires AreReceipts(a, k, events, scope, at) && AreReceipts(b, k, events, scope, at)
    ensures a == b
  {
    assert forall id :: id in a ==> id in b && a[id] == b[id];
    assert forall id :: id in b ==> id in a;
  }

  method FindReceipts(k: Checks, events: seq<Event>, scope: Scope, at: int) returns (eligible: map<int, Receipt>)
    requires ProperChecks(k) && DistinctEvents(events)
    ensures AreReceipts(eligible, k, events, scope, at)
    ensures forall id :: id in eligible ==> eligible[id].event == id
  {
    eligible := map[];
    for i := 0 to |events|
      invariant AreReceipts(eligible, k, events[..i], scope, at)
      invariant forall id :: id in eligible ==> eligible[id].event == id && exists e :: e in events[..i] && e.id == id
    {
      var event := events[i];
      assert events[..i + 1] == events[..i] + [event];
      assert forall j :: 0 <= j < i ==> events[..i][j] == events[j];
      if Assesses(event) {
        var receipt := k.receipt(event, scope, at);
        if receipt.Some? {
          eligible := eligible[receipt.value.event := receipt.value];
        }
      }
    }
    assert events[..|events|] == events;
  }

  predicate NotAfter(a: Receipt, b: Receipt) {
    a.occurred < b.occurred || (a.occurred == b.occurred && a.event <= b.event)
  }

  ghost predicate IsLatest(r: Receipt, ids: set<int>, eligible: map<int, Receipt>) {
    && (exists id :: id in ids && id in eligible && eligible[id] == r)
    && forall id :: id in ids && id in eligible ==> NotAfter(eligible[id], r)
  }

  method Choose<T>(s: set<T>) returns (x: T)
    requires s != {}
    ensures x in s
  {
    x :| x in s;
  }

  /** max(...) by time, then event. */
  method Latest(ids: set<int>, eligible: map<int, Receipt>) returns (r: Receipt)
    requires ids != {} && ids <= eligible.Keys
    ensures IsLatest(r, ids, eligible)
  {
    var first := Choose(ids);
    r := eligible[first];
    var left := ids - {first};
    while left != {}
      invariant left <= ids && IsLatest(r, ids - left, eligible)
      decreases left
    {
      var id := Choose(left);
      if !NotAfter(eligible[id], r) {
        r := eligible[id];
      }
      left := left - {id};
      assert forall x :: x in ids - left ==> x == id || x in ids - (left + {id});
    }
    assert ids - left == ids;
  }

  // ---- Delivery ----------------------------------------------------------------------------

  ghost predicate DeliveredBy(id: int, k: Checks, p: Packet, eligible: map<int, Receipt>, at: int) {
    || (p.episodes.Some? && exists x :: x in p.episodes.value && k.episode(x, eligible).Some? && id in k.episode(x, eligible).value)
    || (p.guidance.Some? && exists x :: x in p.guidance.value && k.guidance(x, eligible, p.scope, at).Some?
                                        && id in k.guidance(x, eligible, p.scope, at).value)
  }

  method FromEpisodes(k: Checks, episodes: seq<Episode>, eligible: map<int, Receipt>, all: bool) returns (ids: set<int>)
    ensures forall id :: id in ids <==>
      exists x :: x in episodes && k.episode(x, eligible).Some? && id in k.episode(x, eligible).value && (all || x.full)
  {
    ids := {};
    for i := 0 to |episodes|
      invariant forall id :: id in ids <==>
        exists x :: x in episodes[..i] && k.episode(x, eligible).Some? && id in k.episode(x, eligible).value && (all || x.full)
    {
      assert episodes[..i + 1] == episodes[..i] + [episodes[i]];
      var found := k.episode(episodes[i], eligible);
      if found.Some? && (all || episodes[i].full) {
        ids := ids + found.value;
      }
    }
    assert episodes[..|episodes|] == episodes;
  }

  method FromGuidance(k: Checks, guidance: seq<Guidance>, eligible: map<int, Receipt>, scope: Scope, at: int) returns (ids: set<int>)
    ensures forall id :: id in ids <==>
      exists x :: x in guidance && k.guidance(x, eligible, scope, at).Some? && id in k.guidance(x, eligible, scope, at).value
  {
    ids := {};
    for i := 0 to |guidance|
      invariant forall id :: id in ids <==>
        exists x :: x in guidance[..i] && k.guidance(x, eligible, scope, at).Some? && id in k.guidance(x, eligible, scope, at).value
    {
      assert guidance[..i + 1] == guidance[..i] + [guidance[i]];
      var found := k.guidance(guidance[i], eligible, scope, at);
      if found.Some? {
        ids := ids + found.value;
      }
    }
    assert guidance[..|guidance|] == guidance;
  }

  method DeliveredAssessments(k: Checks, p: Packet, eligible: map<int, Receipt>, scope: Scope, at: int) returns (ids: set<int>)
    ensures forall id :: id in ids <==> DeliveredBy(id, k, p.(scope := scope), eligible, at)
  {
    ids := {};
    if p.episodes.Some? {
      ids := FromEpisodes(k, p.episodes.value, eligible, true);
    }
    if p.guidance.Some? {
      var more := FromGuidance(k, p.guidance.value, eligible, scope, at);
      ids := ids + more;
    }
  }

  // ---- The audit ---------------------------------------------------------------------------

  datatype Status =
    | NoFeedbackAction | ScopeNotExplicit | NotCurrentFeedback | NoInputReceipt | NoAssessment
    | SeveralActions | BadSources | SourceNotValid | SourceNotDelivered
    | Stale | Pass

  datatype Audit = Audit(status: Status, latest: Option<Receipt>, cited: set<int>, differs: bool)

  function FeedbackActions(decisions: seq<Decision>): seq<Decision> {
    if decisions == [] then []
    else (if decisions[0].action in FEEDBACK then [decisions[0]] else []) + FeedbackActions(decisions[1..])
  }

  /** The input this query answers, in this scope. */
  predicate AnswersIn(k: Checks, e: Event, c: Condition, scope: Scope) {
    && e.kind.TeachingInput? && e.source == "vnext"
    && (e.client == "current-" + c.caseId || e.client == k.shown(scope.learner) + ":current-" + c.caseId)
    && SameScope(e.scope, scope)
  }

  /** The input this query answers, in the scope the input itself names. */
  predicate Answers(k: Checks, e: Event, c: Condition) {
    && e.kind.TeachingInput? && e.source == "vnext"
    && (e.client == "current-" + c.caseId || e.client == k.shown(e.scope.learner) + ":current-" + c.caseId)
  }

  ghost predicate OnlyInput(k: Checks, events: seq<Event>, c: Condition, input: Event) {
    && input in events && AnswersIn(k, input, c, c.packet.scope)
    && forall e :: e in events && AnswersIn(k, e, c, c.packet.scope) ==> e == input
  }

  /** The input the query answers, if there is exactly one and it is dated. */
  method FindInput(k: Checks, events: seq<Event>, c: Condition) returns (r: Option<Event>)
    requires DistinctEvents(events)
    ensures r.Some? ==> OnlyInput(k, events, c, r.value) && r.value.occurred.Some?
    ensures r.None? ==> !exists input :: OnlyInput(k, events, c, input) && input.occurred.Some?
  {
    var current: seq<Event> := [];
    for i := 0 to |events|
      invariant forall e :: e in current <==> e in events[..i] && AnswersIn(k, e, c, c.packet.scope)
      invariant forall a, b :: 0 <= a < b < |current| ==> current[a] != current[b]
    {
      assert events[..i + 1] == events[..i] + [events[i]];
      assert forall j :: 0 <= j < i ==> events[..i][j] != events[i];
      if AnswersIn(k, events[i], c, c.packet.scope) {
        current := current + [events[i]];
      }
    }
    assert events[..|events|] == events;
    if |current| != 1 || current[0].occurred.None? {
      if |current| > 1 {
        assert current[0] in current && current[1] in current && current[0] != current[1];
      }
      return None;
    }
    return Some(current[0]);
  }

  predicate Explicit(p: Packet) {
    p.checkpointMode && Whole(p.scope.learner) && Whole(p.scope.project) && Whole(p.scope.checkpoint) && p.currentFeedback
  }

  /** One feedback action, all of whose sources are valid receipts that the packet delivered. */
  ghost predicate JudgedBy(k: Checks, c: Condition, at: int, eligible: map<int, Receipt>, latest: Receipt, cited: set<int>) {
    var actions := FeedbackActions(c.decisions);
    && |actions| == 1 && Explicit(c.packet)
    && ProperIds(actions[0].sources) && cited == Numbers(actions[0].sources.value)
    && IsLatest(latest, eligible.Keys, eligible)
    && cited <= eligible.Keys && forall id :: id in cited ==> DeliveredBy(id, k, c.packet, eligible, at)
  }

  /** The condition can be judged: `latest` is the latest valid assessment, `cited` the ids relied on. */
  ghost predicate Judged(k: Checks, events: seq<Event>, c: Condition, latest: Receipt, cited: set<int>) {
    exists input, eligible ::
      && OnlyInput(k, events, c, input) && input.occurred.Some?
      && AreReceipts(eligible, k, events, c.packet.scope, input.occurred.value)
      && JudgedBy(k, c, input.occurred.value, eligible, latest, cited)
  }

  /** There is one input and one set of receipts to judge by. */
  lemma OneJudgement(k: Checks, events: seq<Event>, c: Condition, input: Event, eligible: map<int, Receipt>,
                     latest: Receipt, cited: set<int>)
    requires OnlyInput(k, events, c, input) && input.occurred.Some?
    requires AreReceipts(eligible, k, events, c.packet.scope, input.occurred.value)
    ensures Judged(k, events, c, latest, cited) <==> JudgedBy(k, c, input.occurred.value, eligible, latest, cited)
  {
    if Judged(k, events, c, latest, cited) {
      var i, e :|
        && OnlyInput(k, events, c, i) && i.occurred.Some?
        && AreReceipts(e, k, events, c.packet.scope, i.occurred.value)
        && JudgedBy(k, c, i.occurred.value, e, latest, cited);
      ReceiptsAreUnique(e, eligible, k, events, c.packet.scope, input.occurred.value);
    }
  }

  lemma OneLatest(a: Receipt, b: Receipt, ids: set<int>, eligible: map<int, Receipt>)
    requires forall id :: id in eligible ==> eligible[id].event == id
    requires IsLatest(a, ids, eligible) && IsLatest(b, ids, eligible)
    ensures a == b
  {
  }

  /** A condition passes exactly when it can be judged and the latest valid assessment is cited. */
  method AuditCondition(k: Checks, events: seq<Event>, c: Condition) returns (a: Audit)
    requires ProperChecks(k) && DistinctEvents(events)
    ensures a.status.Pass? || a.status.Stale? ==> a.latest.Some? && Judged(k, events, c, a.latest.value, a.cited)
    ensures forall latest, cited :: Judged(k, events, c, latest, cited) ==>
      a.latest == Some(latest) && a.cited == cited && a.status == if latest.event in cited then Pass else Stale
    ensures a.status.Pass? || a.status.Stale? ==>
      |FeedbackActions(c.decisions)| == 1 && (a.differs <==> FeedbackActions(c.decisions)[0].action != a.latest.value.action)
    ensures a.differs ==> a.status.Pass? || a.status.Stale?
    ensures a.status.NoFeedbackAction? <==> FeedbackActions(c.decisions) == []
    ensures a.status.ScopeNotExplicit? || a.status.NotCurrentFeedback? <==>
      FeedbackActions(c.decisions) != [] && !Explicit(c.packet)
    ensures a.status.NoInputReceipt? <==>
      && FeedbackActions(c.decisions) != [] && Explicit(c.packet)
      && !exists input :: OnlyInput(k, events, c, input) && input.occurred.Some?
  {
    a := Audit(NoFeedbackAction, None, {}, false);
    var actions := FeedbackActions(c.decisions);
    if actions == [] {
      return;
    }
    if !c.packet.checkpointMode || !Whole(c.packet.scope.learner) || !Whole(c.packet.scope.project) || !Whole(c.packet.scope.checkpoint) {
      return Audit(ScopeNotExplicit, None, {}, false);
    }
    if !c.packet.currentFeedback {
      return Audit(NotCurrentFeedback, None, {}, false);
    }
    var input := FindInput(k, events, c);
    if input.None? {
      return Audit(NoInputReceipt, None, {}, false);
    }
    var at := input.value.occurred.value;
    var eligible := FindReceipts(k, events, c.packet.scope, at);
    forall latest, cited
      ensures Judged(k, events, c, latest, cited) <==> JudgedBy(k, c, at, eligible, latest, cited)
    {
      OneJudgement(k, events, c, input.value, eligible, latest, cited);
    }
    if eligible == map[] {
      return Audit(NoAssessment, None, {}, false);
    }
    a := JudgeSources(k, c, actions, at, eligible);
  }

  /** The audit of a condition whose receipts are known. */
  method JudgeSources(k: Checks, c: Condition, actions: seq<Decision>, at: int, eligible: map<int, Receipt>) returns (a: Audit)
    requires actions == FeedbackActions(c.decisions) && Explicit(c.packet) && eligible != map[]
    requires forall id :: id in eligible ==> eligible[id].event == id
    ensures a.status.Pass? || a.status.Stale? ==> a.latest.Some? && JudgedBy(k, c, at, eligible, a.latest.value, a.cited)
    ensures forall latest, cited :: JudgedBy(k, c, at, eligible, latest, cited) ==>
      a.latest == Some(latest) && a.cited == cited && a.status == if latest.event in cited then Pass else Stale
    ensures a.status.Pass? || a.status.Stale? ==>
      |FeedbackActions(c.decisions)| == 1 && (a.differs <==> FeedbackActions(c.decisions)[0].action != a.latest.value.action)
    ensures a.differs ==> a.status.Pass? || a.status.Stale?
    ensures a.status in {SeveralActions, BadSources, SourceNotValid, SourceNotDelivered, Stale, Pass}
    ensures a.status.SeveralActions? <==> |actions| != 1
    ensures a.status.BadSources? <==> |actions| == 1 && !ProperIds(actions[0].sources)
    ensures a.status.SourceNotValid? <==>
      |actions| == 1 && ProperIds(actions[0].sources) && !(Numbers(actions[0].sources.value) <= eligible.Keys)
  {
    var latest := Latest(eligible.Keys, eligible);
    a := Audit(SeveralActions, Some(latest), {}, false);
    if |actions| != 1 {
      return;
    }
    if !ProperIds(actions[0].sources) {
      return a.(status := BadSources);
    }
    var ids := Numbers(actions[0].sources.value);
    if !(ids <= eligible.Keys) {
      return a.(status := SourceNotValid);
    }
    var delivered := DeliveredAssessments(k, c.packet, eligible, c.packet.scope, at);
    if !(ids <= delivered) {
      return a.(status := SourceNotDelivered);
    }
    assert actions[0].sources.value[0] in actions[0].sources.value && actions[0].sources.value[0].n in ids;
    var cited := Latest(ids, eligible);
    CitedIsLatest(cited, latest, ids, eligible);
    a := Audit(if NotAfter(latest, cited) then Pass else Stale, Some(latest), ids, actions[0].action != latest.action);
    forall other, cited | JudgedBy(k, c, at, eligible, other, cited)
      ensures other == latest
    {
      OneLatest(other, latest, eligible.Keys, eligible);
    }
  }

  /** The latest cited receipt is not older than the latest of all exactly when the latter is cited. */
  lemma CitedIsLatest(cited: Receipt, latest: Receipt, ids: set<int>, eligible: map<int, Receipt>)
    requires forall id :: id in eligible ==> eligible[id].event == id
    requires ids <= eligible.Keys && IsLatest(cited, ids, eligible) && IsLatest(latest, eligible.Keys, eligible)
    ensures NotAfter(latest, cited) <==> latest.event in ids
  {
  }

  // ---- The report --------------------------------------------------------------------------

  datatype Metrics = Metrics(applicable: bool, coverage: Option<bool>, conditionsShown: Option<bool>)

  datatype Diagnosis = NoInput | Diagnosed(metrics: Metrics, latest: Option<Receipt>, delivered: set<int>)

  /** Only this event is the learner's own input under the name of the query, plain or with the learner it names. */
  ghost predicate OnlyAnswer(k: Checks, events: seq<Event>, c: Condition, input: Event) {
    input in events && forall e :: e in events ==>
      (e == input <==>
         && e.kind.TeachingInput? && e.source == "vnext"
         && e.client in {"current-" + c.caseId, k.shown(e.scope.learner) + ":current-" + c.caseId})
  }

  method FindAnswer(k: Checks, events: seq<Event>, c: Condition) returns (r: Option<Event>)
    requires DistinctEvents(events)
    ensures r.Some? ==> OnlyAnswer(k, events, c, r.value) && r.value.occurred.Some?
    ensures r.None? ==> !exists input :: OnlyAnswer(k, events, c, input) && input.occurred.Some?
  {
    var current: seq<Event> := [];
    for i := 0 to |events|
      invariant forall e :: e in current <==> e in events[..i] && Answers(k, e, c)
      invariant forall a, b :: 0 <= a < b < |current| ==> current[a] != current[b]
    {
      assert events[..i + 1] == events[..i] + [events[i]];
      assert forall j :: 0 <= j < i ==> events[..i][j] != events[i];
      if Answers(k, events[i], c) {
        current := current + [events[i]];
      }
    }
    assert events[..|events|] == events;
    if |current| != 1 || current[0].occurred.None? {
      if |current| > 1 {
        assert current[0] in current && current[1] in current && current[0] != current[1];
      }
      return None;
    }
    return Some(current[0]);
  }

  /** Both programs found the same input, so they judge the same receipts. */
  lemma SameInput(k: Checks, events: seq<Event>, c: Condition, a: Event, b: Event)
    requires OnlyInput(k, events, c, a) && OnlyAnswer(k, events, c, b)
    ensures a == b && b.scope == c.packet.scope
  {
    SameScopesAreEqual(a.scope, c.packet.scope);
  }

  /** An episode that shows all its conditions delivers the receipt. */
  ghost predicate ShownInFull(k: Checks, p: Packet, eligible: map<int, Receipt>, id: int) {
    p.episodes.Some? && exists x ::
      x in p.episodes.value && x.full && k.episode(x, eligible).Some? && id in k.episode(x, eligible).value
  }

  ghost predicate IsShown(k: Checks, events: seq<Event>, c: Condition, id: int) {
    exists input, eligible ::
      && OnlyAnswer(k, events, c, input) && input.occurred.Some?
      && AreReceipts(eligible, k, events, input.scope, input.occurred.value)
      && ShownInFull(k, c.packet, eligible, id)
  }

  lemma ShownIff(k: Checks, events: seq<Event>, c: Condition, input: Event, eligible: map<int, Receipt>, id: int)
    requires OnlyAnswer(k, events, c, input) && input.occurred.Some?
    requires AreReceipts(eligible, k, events, input.scope, input.occurred.value)
    ensures IsShown(k, events, c, id) <==> ShownInFull(k, c.packet, eligible, id)
  {
    forall receipts | AreReceipts(receipts, k, events, input.scope, input.occurred.value)
      ensures receipts == eligible
    {
      ReceiptsAreUnique(receipts, eligible, k, events, input.scope, input.occurred.value);
    }
  }

  /** The receipts that episodes with all their conditions deliver. */
  method Complete(k: Checks, p: Packet, eligible: map<int, Receipt>) returns (ids: set<int>)
    ensures forall id :: id in ids <==> ShownInFull(k, p, eligible, id)
  {
    ids := {};
    if p.episodes.Some? {
      ids := FromEpisodes(k, p.episodes.value, eligible, false);
    }
  }

  lemma ShownIsDelivered(k: Checks, p: Packet, eligible: map<int, Receipt>, scope: Scope, at: int, id: int)
    requires ShownInFull(k, p, eligible, id)
    ensures DeliveredBy(id, k, p.(scope := scope), eligible, at)
  {
  }

  /** An action marked as covered rests on the very receipt the report found to be the latest, and the
      packet delivered it. */
  method EducationalDiagnostics(k: Checks, events: seq<Event>, c: Condition) returns (d: Diagnosis)
    requires ProperChecks(k) && DistinctEvents(events)
    ensures d.NoInput? <==> !exists input :: OnlyAnswer(k, events, c, input) && input.occurred.Some?
    ensures d.Diagnosed? ==> (d.metrics.applicable <==> d.latest.Some?) && (d.metrics.coverage.Some? <==> d.latest.Some?)
    ensures d.Diagnosed? && d.latest.Some? ==>
      (d.metrics.coverage == Some(true) <==>
         && |FeedbackActions(c.decisions)| == 1 && FeedbackActions(c.decisions)[0].action == d.latest.value.action
         && exists cited :: Judged(k, events, c, d.latest.value, cited) && d.latest.value.event in cited)
    ensures d.Diagnosed? && d.metrics.coverage == Some(true) ==> d.latest.Some? && d.latest.value.event in d.delivered
    ensures d.Diagnosed? && d.metrics.conditionsShown == Some(true) ==> d.latest.Some? && d.latest.value.event in d.delivered
    ensures d.Diagnosed? ==> (d.metrics.conditionsShown.Some? <==> d.latest.Some?)
    ensures d.Diagnosed? && d.latest.Some? ==>
      (d.metrics.conditionsShown == Some(true) <==>
         IsShown(k, events, c, d.latest.value.event))
  {
    var source := FindAnswer(k, events, c);
    if source.None? {
      return NoInput;
    }
    var scope, at := source.value.scope, source.value.occurred.value;
    var eligible := FindReceipts(k, events, scope, at);
    var audit := AuditCondition(k, events, c);
    var latest := None;
    if eligible != map[] {
      var r := Latest(eligible.Keys, eligible);
      latest := Some(r);
    }
    var delivered := DeliveredAssessments(k, c.packet, eligible, scope, at);
    var complete := Complete(k, c.packet, eligible);
    if latest.Some? {
      ShownIff(k, events, c, source.value, eligible, latest.value.event);
      if latest.value.event in complete {
        ShownIsDelivered(k, c.packet, eligible, scope, at, latest.value.event);
      }
    }
    var covered := audit.status.Pass? && !audit.differs;
    if covered {
      CoverageIsOfTheLatest(k, events, c, audit.latest.value, audit.cited, source.value, eligible, latest, delivered);
    }
    d := Diagnosed(
      Metrics(latest.Some?, if latest.Some? then Some(covered) else None,
              if latest.Some? then Some(latest.value.event in complete) else None),
      latest, delivered);
  }

  /** The audit's latest receipt is the report's, and the report's packet delivered it. */
  lemma CoverageIsOfTheLatest(k: Checks, events: seq<Event>, c: Condition, audited: Receipt, cited: set<int>, source: Event,
                              eligible: map<int, Receipt>, latest: Option<Receipt>, delivered: set<int>)
    requires Judged(k, events, c, audited, cited) && audited.event in cited
    requires OnlyAnswer(k, events, c, source) && source.occurred.Some?
    requires AreReceipts(eligible, k, events, source.scope, source.occurred.value)
    requires forall id :: id in eligible ==> eligible[id].event == id
    requires latest.Some? <==> eligible != map[]
    requires latest.Some? ==> IsLatest(latest.value, eligible.Keys, eligible)
    requires forall id :: id in delivered <==> DeliveredBy(id, k, c.packet.(scope := source.scope), eligible, source.occurred.value)
    ensures latest == Some(audited) && audited.event in delivered
  {
    var input, receipts :|
      && OnlyInput(k, events, c, input) && input.occurred.Some?
      && AreReceipts(receipts, k, events, c.packet.scope, input.occurred.value)
      && JudgedBy(k, c, input.occurred.value, receipts, audited, cited);
    SameInput(k, events, c, input, source);
    ReceiptsAreUnique(eligible, receipts, k, events, source.scope, source.occurred.value);
    assert audited.event in eligible;
    OneLatest(latest.value, audited, eligible.Keys, eligible);
  }

  // ---- The program's own checks ------------------------------------------------------------

  /** The checks against the saved state. */
  function Saved(ix: Indexes, shown: Ident -> string): Checks {
    Checks(
      (e, scope, at) => ReceiptOf(ix, shown, e, scope, at),
      (x, eligible) => DeliveredIds(EpisodeDelivery(ix, x, eligible)),
      (x, eligible, query, at) => DeliveredIds(GuidanceDelivery(x, eligible, shown, query, at)),
      shown)
  }

  function DeliveredIds(d: Delivery): Option<set<int>> {
    match d
    case Delivers(ids) => Some(ids)
    case Fails(_) => None
  }

  lemma SavedChecksAreProper(ix: Indexes, shown: Ident -> string)
    ensures ProperChecks(Saved(ix, shown))
  {
    forall e, scope, at | ReceiptOf(ix, shown, e, scope, at).Some?
      ensures ReceiptOf(ix, shown, e, scope, at).value.event == e.id
      ensures e.occurred == Some(ReceiptOf(ix, shown, e, scope, at).value.occurred)
    {
      ReceiptsAreSound(ix, shown, e, scope, at);
    }
  }

  /** The packet quotes the receipt through a fact of its own, or holds standing guidance from it. */
  ghost predicate Backs(ix: Indexes, p: Packet, eligible: map<int, Receipt>, at: int, id: int) {
    || (p.episodes.Some? && exists x, o ::
          && x in p.episodes.value && x.observations.Some? && o in x.observations.value && o.Some?
          && o.value.event == Number(id) && Observes(ix, eligible, o.value))
    || (p.guidance.Some? && exists g ::
          && g in p.guidance.value && g.event == Number(id) && id in eligible
          && g.expires.Some? && eligible[id].occurred <= at < g.expires.value)
  }

  lemma EpisodeBacks(ix: Indexes, p: Packet, eligible: map<int, Receipt>, at: int, x: Episode, id: int)
    requires p.episodes.Some? && x in p.episodes.value
    requires EpisodeDelivery(ix, x, eligible).Delivers? && id in EpisodeDelivery(ix, x, eligible).ids
    ensures id in eligible && Backs(ix, p, eligible, at, id)
  {
    EpisodesDeliverObservedReceipts(ix, x, eligible);
    var o :| o in x.observations.value && o.Some? && o.value.event == Number(id) && Observes(ix, eligible, o.value);
  }

  lemma DeliveredAreBacked(ix: Indexes, shown: Ident -> string, p: Packet, eligible: map<int, Receipt>, at: int, id: int)
    requires DeliveredBy(id, Saved(ix, shown), p, eligible, at)
    ensures id in eligible && Backs(ix, p, eligible, at, id)
  {
    var k := Saved(ix, shown);
    if p.episodes.Some? && exists x :: x in p.episodes.value && k.episode(x, eligible).Some? && id in k.episode(x, eligible).value {
      var x :| x in p.episodes.value && k.episode(x, eligible).Some? && id in k.episode(x, eligible).value;
      EpisodeBacks(ix, p, eligible, at, x, id);
    } else {
      var g :| g in p.guidance.value && k.guidance(g, eligible, p.scope, at).Some? && id in k.guidance(g, eligible, p.scope, at).value;
      GuidanceDeliversItsReceipt(g, eligible, shown, p.scope, at, id);
    }
  }

  /** Every id that a judged decision cites is a valid receipt of its checkpoint, and the packet quotes a
      fact of it or holds standing guidance from it. */
  lemma CitedReceiptsAreBacked(ix: Indexes, shown: Ident -> string, c: Condition, latest: Receipt, cited: set<int>, id: int)
    requires Judged(Saved(ix, shown), ix.events, c, latest, cited) && id in cited
    ensures exists e, at, eligible ::
      && e in ix.events && e.id == id && ReceiptOf(ix, shown, e, c.packet.scope, at).Some?
      && id in eligible && eligible[id] == ReceiptOf(ix, shown, e, c.packet.scope, at).value
      && Backs(ix, c.packet, eligible, at, id)
  {
    var k := Saved(ix, shown);
    var input, eligible :|
      && OnlyInput(k, ix.events, c, input) && input.occurred.Some?
      && AreReceipts(eligible, k, ix.events, c.packet.scope, input.occurred.value)
      && JudgedBy(k, c, input.occurred.value, eligible, latest, cited);
    DeliveredAreBacked(ix, shown, c.packet, eligible, input.occurred.value, id);
    var e :| e in ix.events && Assesses(e) && k.receipt(e, c.packet.scope, input.occurred.value) == Some(eligible[id]) && e.id == id;
  }
}
