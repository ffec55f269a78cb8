/** When a saved condition passes the audit, told on the saved rows
    (scripts/audit_education_episode_freshness.py: valid_assessment, valid_excerpt, episode_delivery,
    guidance_delivery, audit_condition). */
module Judgements {
  import opened Options
  import opened Receipts
  import opened Freshness

  // ---- Receipts ----------------------------------------------------------------------------

  /** The same positive number, or missing on both sides. */
  ghost predicate Same(a: Ident, b: Ident) {
    a == b && (a == Missing || (a.Number? && a.n > 0))
  }

  ghost predicate OfCheckpoint(a: Scope, b: Scope) {
    Same(a.learner, b.learner) && Same(a.project, b.project) && Same(a.checkpoint, b.checkpoint)
  }

  ghost predicate InPlace(a: Scope, b: Scope) {
    Same(a.project, b.project) && Same(a.checkpoint, b.checkpoint) && Same(a.session, b.session)
  }

  /** A fact of the event that an applied mutation of the learner wrote, whose node is a current fact of the same
      kernel, learner and place. */
  ghost predicate IsLinked(ix: Indexes, e: Event, scope: Scope, at: int, id: int) {
    && id in ix.facts && id in ix.nodes
    && var fact, node := ix.facts[id], ix.nodes[id];
       && Same(fact.event, Number(e.id)) && fact.mutation.Number? && fact.mutation.n > 0 && fact.mutation.n in ix.mutations
       && var m := ix.mutations[fact.mutation.n];
          && m.applied && Same(m.event, Number(e.id)) && Same(m.learner, scope.learner)
          && m.kernel == node.kernel && fact.kernel == node.kernel
          && (node.kernel == "knowledge" || node.kernel == "practice" || node.kernel == "structure" || node.kernel == "value")
          && node.fact && Same(node.scope.learner, scope.learner)
          && (|| node.status == "active" || node.status == "legacy"
              || (node.status == "transient" && scope.session.Number? && Same(node.scope.session, scope.session)))
          && (node.validTo == None || (node.validTo.value.Some? && node.validTo.value.value > at))
          && InPlace(fact.scope, e.scope) && InPlace(node.scope, e.scope)
  }

  function Answered(e: Event): Answer {
    if e.kind.ConceptEvaluated? then e.payload.correct else e.payload.passed
  }

  /** The attempt the event is about, evaluated and of the checkpoint, and the receipt that names it. */
  ghost predicate IsAttemptOf(shown: Ident -> string, e: Event, a: AttemptRow, scope: Scope, at: int) {
    && a.status == "evaluated" && OfCheckpoint(a.scope, scope)
    && (|| e.client == "attempt:" + shown(Number(a.id)) + ":evaluated"
        || e.client == shown(scope.learner) + ":attempt:" + shown(Number(a.id)) + ":evaluated")
    && a.itemType == (if e.kind.ConceptEvaluated? then "concept" else "exercise")
    && e.payload.item.Number? && e.payload.item.n > 0 && a.item == e.payload.item
    && a.submitted.Some? && a.evaluated.Some? && a.submitted.value <= a.evaluated.value <= at
  }

  /** Event and attempt agree on the outcome; an exercise is passed when all its checks are. */
  ghost predicate AgreeOnOutcome(e: Event, a: AttemptRow) {
    && (Answered(e) == Yes || Answered(e) == No)
    && if e.kind.ConceptEvaluated? then a.correct == Answered(e)
       else
         && a.passed.Some? && a.total.Some? && 0 <= a.passed.value <= a.total.value && a.total.value > 0
         && (a.passed.value == a.total.value <==> Answered(e) == Yes)
  }

  ghost predicate AgreeOnHelp(e: Event, a: AttemptRow) {
    && (|| e.payload.assistance == None
        || (e.payload.assistance == a.assistance && e.payload.assistance in {Some("none"), Some("hint"), Some("guided")}))
    && (e.payload.independent == Yes ==> e.payload.assistance != Some("hint") && e.payload.assistance != Some("guided"))
  }

  /** The event is an assessment of the checkpoint that its attempt and at least one current fact bear out. */
  ghost predicate IsReceipt(ix: Indexes, shown: Ident -> string, e: Event, scope: Scope, at: int) {
    && (e.kind.ConceptEvaluated? || e.kind.ExerciseEvaluated?) && e.source == "assessment"
    && OfCheckpoint(e.scope, scope) && e.occurred.Some? && e.occurred.value <= at
    && e.payload.attempt.Number? && e.payload.attempt.n > 0 && e.payload.attempt.n in ix.attempts
    && (var a := ix.attempts[e.payload.attempt.n];
        IsAttemptOf(shown, e, a, scope, at) && AgreeOnOutcome(e, a) && AgreeOnHelp(e, a))
    && exists id :: IsLinked(ix, e, scope, at, id)
  }

  /** What a receipt says of its event and attempt, and the action it calls for. */
  ghost predicate ReceiptSays(r: Receipt, ix: Indexes, e: Event, scope: Scope, at: int) {
    && e.payload.attempt.Number? && e.payload.attempt.n in ix.attempts && e.occurred.Some?
    && var a := ix.attempts[e.payload.attempt.n];
       && r.event == e.id && r.occurred == e.occurred.value && r.scope == e.scope
       && r.attempt == a.id && r.itemType == a.itemType && r.item == a.item && r.role == a.role
       && (r.outcome.correct <==> Answered(e) == Yes) && r.outcome.assistance == e.payload.assistance
       && r.outcome.independent == (if e.payload.independent == Yes then Yes else if e.payload.independent == No then No else Unset)
       && (forall id :: id in r.facts <==> IsLinked(ix, e, scope, at, id))
       && CallsFor(r.action, Answered(e) == Yes, e.payload.assistance, e.payload.independent == Yes, a.role == Some("retry"))
  }

  /** An error is diagnosed; help, or a retry, is faded; unaided work is varied; anything else is clarified. */
  ghost predicate CallsFor(action: string, correct: bool, assistance: Option<string>, independent: bool, retry: bool) {
    && (!correct ==> action == "diagnose_first_error")
    && (correct && (retry || assistance == Some("hint") || assistance == Some("guided")) ==> action == "fade_support_then_independent_probe")
    && (correct && !retry && assistance == Some("none") && independent ==> action == "independent_variant_or_reasoning_check")
    && (correct && !retry && assistance == Some("none") && !independent ==> action == "clarify_assistance")
    && (correct && !retry && assistance == None ==> action == "clarify_assistance")
  }

  lemma LinkedIff(ix: Indexes, e: Event, scope: Scope, at: int, id: int)
    ensures Linked(ix, e, scope, at, id) <==> IsLinked(ix, e, scope, at, id)
  {
  }

  lemma LinkedFactsAre(ix: Indexes, e: Event, scope: Scope, at: int)
    ensures forall id :: id in LinkedFacts(ix, e, scope, at) <==> IsLinked(ix, e, scope, at, id)
    ensures LinkedFacts(ix, e, scope, at) != {} <==> exists id :: IsLinked(ix, e, scope, at, id)
  {
    forall id
      ensures id in LinkedFacts(ix, e, scope, at) <==> IsLinked(ix, e, scope, at, id)
    {
      LinkedIff(ix, e, scope, at, id);
    }
  }

  /** An event has a receipt exactly if its rows bear it out, and the receipt says what they say. */
  lemma ReceiptIff(ix: Indexes, shown: Ident -> string, e: Event, scope: Scope, at: int)
    ensures ReceiptOf(ix, shown, e, scope, at).Some? <==> IsReceipt(ix, shown, e, scope, at)
    ensures IsReceipt(ix, shown, e, scope, at) ==> ReceiptSays(ReceiptOf(ix, shown, e, scope, at).value, ix, e, scope, at)
  {
    LinkedFactsAre(ix, e, scope, at);
  }

  // ---- Episodes ----------------------------------------------------------------------------

  /** A list of different positive ids, and the set of them. */
  ghost predicate Lists(list: List<Ident>, ids: set<int>) {
    && list.Some? && list.value != []
    && (forall i :: 0 <= i < |list.value| ==> list.value[i].Number? && list.value[i].n > 0 && list.value[i].n in ids)
    && (forall i, j :: 0 <= i < j < |list.value| ==> list.value[i] != list.value[j])
    && forall id :: id in ids ==> exists i :: 0 <= i < |list.value| && list.value[i] == Number(id)
  }

  /** The observation shows pieces of the text of a fact that its receipt rests on. */
  ghost predicate QuotesFact(ix: Indexes, eligible: map<int, Receipt>, o: Observation) {
    && o.fact.Number? && o.fact.n > 0 && o.event.Number? && o.event.n > 0 && o.mutation.Number? && o.mutation.n > 0
    && o.event.n in eligible && o.fact.n in eligible[o.event.n].facts && o.fact.n in ix.facts && o.fact.n in ix.nodes
    && var fact, node := ix.facts[o.fact.n], ix.nodes[o.fact.n];
       && fact.event == o.event && fact.mutation == o.mutation && o.kernel == node.kernel
       && o.text.Some? && o.text.value != "" && node.text.Some? && fact.text == node.text && o.source.Some?
       && var text, source := node.text.value, o.source.value;
          && source.digest == Some(text) && source.chars == Some(|text|) && source.ranges.Some? && source.ranges.value != []
          && (forall i :: 0 <= i < |source.ranges.value| ==>
                source.ranges.value[i].Some? && 0 <= source.ranges.value[i].value.0 < source.ranges.value[i].value.1 <= |text|)
          && Pieces(text, source.ranges.value, o.text.value)
  }

  /** The pieces of a text in order, with an ellipsis between each two. */
  ghost predicate Pieces(text: string, ranges: seq<Option<(int, int)>>, joined: string)
    decreases |ranges|
  {
    && ranges != [] && ranges[0].Some? && 0 <= ranges[0].value.0 <= ranges[0].value.1 <= |text|
    && var first := text[ranges[0].value.0..ranges[0].value.1];
       if |ranges| == 1 then joined == first
       else exists rest :: Pieces(text, ranges[1..], rest) && joined == first + " … " + rest
  }

  lemma JoinsLater(first: string, middle: string, last: string)
    ensures first + " … " + middle + " … " + last == first + " … " + (middle + " … " + last)
  {
  }

  lemma {:induction false} ExcerptPrepends(text: string, ranges: seq<Option<(int, int)>>, first: string, rest: string)
    requires |ranges| > 1 && forall r :: r in ranges ==> r.Some? && 0 <= r.value.0 < r.value.1 <= |text|
    requires first == text[ranges[0].value.0..ranges[0].value.1] && rest == Excerpt(text, ranges[1..])
    ensures Excerpt(text, ranges) == first + " … " + rest
    decreases |ranges|
  {
    var n := |ranges| - 1;
    assert ranges[1..][..n - 1] == ranges[..n][1..];
    if n == 1 {
      assert ranges[..1] == [ranges[0]] && ranges[1..] == [ranges[1]];
    } else {
      ExcerptPrepends(text, ranges[..n], first, Excerpt(text, ranges[..n][1..]));
      JoinsLater(first, Excerpt(text, ranges[..n][1..]), text[ranges[n].value.0..ranges[n].value.1]);
    }
  }

  lemma {:induction false} PiecesAreExcerpt(text: string, ranges: seq<Option<(int, int)>>, joined: string)
    requires ranges != [] && forall r :: r in ranges ==> r.Some? && 0 <= r.value.0 < r.value.1 <= |text|
    ensures Pieces(text, ranges, joined) <==> joined == Excerpt(text, ranges)
    decreases |ranges|
  {
    if |ranges| > 1 {
      ExcerptPrepends(text, ranges, text[ranges[0].value.0..ranges[0].value.1], Excerpt(text, ranges[1..]));
      PiecesAreExcerpt(text, ranges[1..], Excerpt(text, ranges[1..]));
      forall rest | Pieces(text, ranges[1..], rest)
        ensures rest == Excerpt(text, ranges[1..])
      {
        PiecesAreExcerpt(text, ranges[1..], rest);
      }
    }
  }

  lemma ListsIff(list: List<Ident>, ids: set<int>)
    ensures Lists(list, ids) <==> ProperIds(list) && ids == Numbers(list.value)
  {
    if list.Some? {
      assert forall i :: 0 <= i < |list.value| ==> list.value[i] in list.value;
      if Lists(list, ids) {
        forall id
          ensures id in ids <==> id in Numbers(list.value)
        {
        }
      }
      if ProperIds(list) {
        assert list.value[0].n in Numbers(list.value);
      }
    }
  }

  lemma ObservesIff(ix: Indexes, eligible: map<int, Receipt>, o: Observation)
    ensures Observes(ix, eligible, o) <==> QuotesFact(ix, eligible, o)
  {
    if o.fact.Number? && o.fact.n in ix.nodes && ix.nodes[o.fact.n].text.Some? && o.source.Some? && o.text.Some? {
      var text := ix.nodes[o.fact.n].text.value;
      if ProperRanges(o.source.value.ranges, |text|) {
        PiecesAreExcerpt(text, o.source.value.ranges.value, o.text.value);
      }
    }
  }

  /** All observations quote facts of the receipts, no fact twice. */
  ghost predicate AllQuote(ix: Indexes, eligible: map<int, Receipt>, events: set<int>, os: seq<Option<Observation>>) {
    && (forall i :: 0 <= i < |os| ==> os[i].Some? && QuotesFact(ix, eligible, os[i].value) && os[i].value.event.n in events)
    && forall i, j :: 0 <= i < j < |os| ==> os[i].Some? && os[j].Some? && os[i].value.fact != os[j].value.fact
  }

  /** The ids the observations name. */
  ghost predicate NameAll(os: seq<Option<Observation>>, seen: Seen) {
    && (forall id :: id in seen.facts <==> exists i :: 0 <= i < |os| && os[i].Some? && os[i].value.fact == Number(id))
    && (forall id :: id in seen.events <==> exists i :: 0 <= i < |os| && os[i].Some? && os[i].value.event == Number(id))
    && (forall id :: id in seen.mutations <==> exists i :: 0 <= i < |os| && os[i].Some? && os[i].value.mutation == Number(id))
  }

  lemma NamesGrow(os: seq<Option<Observation>>, seen: Seen, v: Observation)
    requires NameAll(os, seen) && v.fact.Number? && v.event.Number? && v.mutation.Number?
    ensures NameAll(os + [Some(v)], Seen(seen.facts + {v.fact.n}, seen.events + {v.event.n}, seen.mutations + {v.mutation.n}))
  {
    var more := os + [Some(v)];
    assert more[|os|] == Some(v);
    assert forall i :: 0 <= i < |os| ==> more[i] == os[i];
  }

  lemma QuotesGrow(ix: Indexes, eligible: map<int, Receipt>, events: set<int>, os: seq<Option<Observation>>, o: Option<Observation>)
    ensures AllQuote(ix, eligible, events, os + [o])
       <==> && AllQuote(ix, eligible, events, os)
            && o.Some? && QuotesFact(ix, eligible, o.value) && o.value.event.n in events
            && forall i :: 0 <= i < |os| ==> os[i].value.fact != o.value.fact
  {
    var more := os + [o];
    assert more[|os|] == o;
    assert forall i :: 0 <= i < |os| ==> more[i] == os[i];
  }

  lemma {:induction false} LookAtIff(ix: Indexes, eligible: map<int, Receipt>, events: set<int>, os: seq<Option<Observation>>)
    ensures LookAt(ix, eligible, events, os).Look? <==> AllQuote(ix, eligible, events, os)
    ensures LookAt(ix, eligible, events, os).Look? ==> NameAll(os, LookAt(ix, eligible, events, os).seen)
  {
    if os != [] {
      var init, o := os[..|os| - 1], os[|os| - 1];
      assert init + [o] == os;
      LookAtIff(ix, eligible, events, init);
      LookAtNext(ix, eligible, events, init, o);
    }
  }

  lemma LookAtNext(ix: Indexes, eligible: map<int, Receipt>, events: set<int>, os: seq<Option<Observation>>, o: Option<Observation>)
    requires LookAt(ix, eligible, events, os).Look? <==> AllQuote(ix, eligible, events, os)
    requires LookAt(ix, eligible, events, os).Look? ==> NameAll(os, LookAt(ix, eligible, events, os).seen)
    ensures LookAt(ix, eligible, events, os + [o]).Look? <==> AllQuote(ix, eligible, events, os + [o])
    ensures LookAt(ix, eligible, events, os + [o]).Look? ==> NameAll(os + [o], LookAt(ix, eligible, events, os + [o]).seen)
  {
    QuotesGrow(ix, eligible, events, os, o);
    LookAtLast(ix, eligible, events, os, o);
    if LookAt(ix, eligible, events, os).Look? && o.Some? {
      LookAtOneIff(ix, eligible, events, os, LookAt(ix, eligible, events, os).seen, o.value);
    }
  }

  lemma LookAtLast(ix: Indexes, eligible: map<int, Receipt>, events: set<int>, os: seq<Option<Observation>>, o: Option<Observation>)
    ensures LookAt(ix, eligible, events, os + [o])
         == if LookAt(ix, eligible, events, os).Flaw? then LookAt(ix, eligible, events, os)
            else LookAtOne(ix, eligible, events, LookAt(ix, eligible, events, os).seen, o)
  {
    assert (os + [o])[..|os + [o]| - 1] == os;
  }

  lemma LookAtOneIff(ix: Indexes, eligible: map<int, Receipt>, events: set<int>, os: seq<Option<Observation>>, seen: Seen, v: Observation)
    requires AllQuote(ix, eligible, events, os) && NameAll(os, seen)
    ensures LookAtOne(ix, eligible, events, seen, Some(v)).Look?
       <==> QuotesFact(ix, eligible, v) && v.event.n in events && forall i :: 0 <= i < |os| ==> os[i].value.fact != v.fact
    ensures LookAtOne(ix, eligible, events, seen, Some(v)).Look? ==>
      NameAll(os + [Some(v)], LookAtOne(ix, eligible, events, seen, Some(v)).seen)
  {
    ObservesIff(ix, eligible, v);
    if v.fact.Number? && v.event.Number? && v.mutation.Number? {
      NamesGrow(os, seen, v);
      assert v.fact.n in seen.facts <==> exists i :: 0 <= i < |os| && os[i].Some? && os[i].value.fact == v.fact;
    }
  }

  /** The episode is about the attempt, item and place of the receipt, and shows its outcome. */
  ghost predicate IsAbout(ep: Episode, r: Receipt) {
    && ep.scope.Some? && ep.task.Some? && ep.outcome.Some?
    && ep.attempt == Number(r.attempt) && ep.task.value.itemType == r.itemType && Same(ep.task.value.item, r.item)
    && ep.task.value.kind == (if r.role == Some("original") || r.role == Some("retry") || r.role == Some("variant") then r.role else None)
    && Same(ep.scope.value.learner, r.scope.learner) && InPlace(ep.scope.value, r.scope)
    && ep.outcome.value.correct == (if r.outcome.correct then Yes else No)
    && ep.outcome.value.assistance == r.outcome.assistance && ep.outcome.value.independent == r.outcome.independent
  }

  /** The lists of an episode name what its observations quote; one of its anchors at least is quoted, and all of
      them are facts of its receipts. */
  ghost predicate Closes(ep: Episode, eligible: map<int, Receipt>, seen: Seen) {
    && Lists(ep.events, seen.events) && Lists(ep.facts, seen.facts) && Lists(ep.mutations, seen.mutations)
    && exists anchors :: Lists(ep.anchors, anchors) && Anchor(anchors, eligible, seen)
  }

  ghost predicate Anchor(anchors: set<int>, eligible: map<int, Receipt>, seen: Seen) {
    && (exists f :: f in anchors && f in seen.facts)
    && forall f :: f in anchors ==> IsFactOf(eligible, seen.events, f)
  }

  ghost predicate IsFactOf(eligible: map<int, Receipt>, events: set<int>, f: int) {
    exists id :: id in events && id in eligible && f in eligible[id].facts
  }

  /** An episode of the known schema that delivers its receipts. */
  ghost predicate EpisodeDelivers(ix: Indexes, ep: Episode, eligible: map<int, Receipt>, seen: Seen) {
    && ep.known && Closes(ep, eligible, seen)
    && ep.attempt.Number? && ep.attempt.n > 0 && ep.task.Some? && !ep.task.value.canonical
    && (forall id :: id in seen.events ==> id in eligible && IsAbout(ep, eligible[id]))
    && ep.occurred.Some? && (exists id :: id in seen.events && eligible[id].occurred == ep.occurred.value)
    && (forall id :: id in seen.events ==> eligible[id].occurred <= ep.occurred.value)
    && ep.observations.Some? && ep.observations.value != []
    && AllQuote(ix, eligible, seen.events, ep.observations.value) && NameAll(ep.observations.value, seen)
  }

  lemma AboutIff(ep: Episode, r: Receipt)
    requires ep.scope.Some? && ep.task.Some? && ep.outcome.Some?
    ensures IsAbout(ep, r) <==> SameTask(ep, r) && SameOutcome(ep.outcome.value, r)
  {
  }

  lemma DeliveredEpisodeDelivers(ix: Indexes, ep: Episode, eligible: map<int, Receipt>)
    requires EpisodeDelivery(ix, ep, eligible).Delivers?
    ensures exists seen :: EpisodeDelivers(ix, ep, eligible, seen) && seen.events == EpisodeDelivery(ix, ep, eligible).ids
  {
    var events := Numbers(ep.events.value);
    var seen := LookAt(ix, eligible, events, ep.observations.value).seen;
    LookAtIff(ix, eligible, events, ep.observations.value);
    ListsIff(ep.events, events);
    ListsIff(ep.facts, seen.facts);
    ListsIff(ep.mutations, seen.mutations);
    ListsIff(ep.anchors, Numbers(ep.anchors.value));
    AnchorsClose(ep, eligible, seen);
    forall id | id in events
      ensures IsAbout(ep, eligible[id])
    {
      AboutIff(ep, eligible[id]);
    }
    assert EpisodeDelivers(ix, ep, eligible, seen);
  }

  lemma AnchorsClose(ep: Episode, eligible: map<int, Receipt>, seen: Seen)
    requires Lists(ep.events, seen.events) && Lists(ep.facts, seen.facts) && Lists(ep.mutations, seen.mutations)
    requires ep.anchors.Some? && Lists(ep.anchors, Numbers(ep.anchors.value))
    requires Numbers(ep.anchors.value) * seen.facts != {} && Numbers(ep.anchors.value) <= FactsOf(seen.events, eligible)
    ensures Closes(ep, eligible, seen)
  {
    var anchors := Numbers(ep.anchors.value);
    var f :| f in anchors * seen.facts;
    forall f | f in anchors
      ensures IsFactOf(eligible, seen.events, f)
    {
      assert f in FactsOf(seen.events, eligible);
    }
    assert Anchor(anchors, eligible, seen);
  }

  lemma NamesAreOne(os: seq<Option<Observation>>, a: Seen, b: Seen)
    requires NameAll(os, a) && NameAll(os, b)
    ensures a == b
  {
    assert forall id :: id in a.facts <==> id in b.facts;
    assert forall id :: id in a.events <==> id in b.events;
    assert forall id :: id in a.mutations <==> id in b.mutations;
    assert a.facts == b.facts && a.events == b.events && a.mutations == b.mutations;
  }

  lemma DeliveringEpisodeIsDelivered(ix: Indexes, ep: Episode, eligible: map<int, Receipt>, seen: Seen)
    requires EpisodeDelivers(ix, ep, eligible, seen)
    ensures EpisodeDelivery(ix, ep, eligible) == Delivers(seen.events)
  {
    ListsIff(ep.events, seen.events);
    ListsIff(ep.facts, seen.facts);
    ListsIff(ep.mutations, seen.mutations);
    AboutEach(ep, eligible, seen.events, ep.events.value[0].n);
    AllAreSeen(ix, ep, eligible, seen);
    ClosingAnchors(ep, eligible, seen);
    ChecksPass(ix, ep, eligible, seen);
  }

  lemma ChecksPass(ix: Indexes, ep: Episode, eligible: map<int, Receipt>, seen: Seen)
    requires ep.known && ProperIds(ep.events) && ProperIds(ep.facts) && ProperIds(ep.mutations) && ProperIds(ep.anchors)
    requires seen == Seen(Numbers(ep.facts.value), Numbers(ep.events.value), Numbers(ep.mutations.value))
    requires seen.events <= eligible.Keys && Whole(ep.attempt)
    requires ep.scope.Some? && ep.task.Some? && ep.outcome.Some? && !ep.task.value.canonical
    requires forall id :: id in seen.events ==> SameTask(ep, eligible[id]) && SameOutcome(ep.outcome.value, eligible[id])
    requires ep.occurred.Some? && LastTime(ep.occurred.value, seen.events, eligible)
    requires ep.observations.Some? && ep.observations.value != [] && None !in ep.observations.value
    requires LookAt(ix, eligible, seen.events, ep.observations.value) == Look(seen)
    requires Numbers(ep.anchors.value) * seen.facts != {} && Numbers(ep.anchors.value) <= FactsOf(seen.events, eligible)
    ensures EpisodeDelivery(ix, ep, eligible) == Delivers(seen.events)
  {
  }

  lemma AllAreSeen(ix: Indexes, ep: Episode, eligible: map<int, Receipt>, seen: Seen)
    requires ep.observations.Some? && AllQuote(ix, eligible, seen.events, ep.observations.value) && NameAll(ep.observations.value, seen)
    ensures LookAt(ix, eligible, seen.events, ep.observations.value) == Look(seen) && None !in ep.observations.value
  {
    LookAtIff(ix, eligible, seen.events, ep.observations.value);
    NamesAreOne(ep.observations.value, seen, LookAt(ix, eligible, seen.events, ep.observations.value).seen);
  }

  lemma ClosingAnchors(ep: Episode, eligible: map<int, Receipt>, seen: Seen)
    requires Closes(ep, eligible, seen)
    ensures ProperIds(ep.anchors)
    ensures Numbers(ep.anchors.value) * seen.facts != {} && Numbers(ep.anchors.value) <= FactsOf(seen.events, eligible)
  {
    var anchors :| Lists(ep.anchors, anchors) && Anchor(anchors, eligible, seen);
    ListsIff(ep.anchors, anchors);
    AnchorsAreOfReceipts(eligible, seen, anchors);
  }

  lemma AnchorsAreOfReceipts(eligible: map<int, Receipt>, seen: Seen, anchors: set<int>)
    requires Anchor(anchors, eligible, seen)
    ensures anchors * seen.facts != {} && anchors <= FactsOf(seen.events, eligible)
  {
    var quoted :| quoted in anchors && quoted in seen.facts;
    assert quoted in anchors * seen.facts;
    forall f | f in anchors
      ensures f in FactsOf(seen.events, eligible)
    {
      assert IsFactOf(eligible, seen.events, f);
    }
  }

  lemma AboutEach(ep: Episode, eligible: map<int, Receipt>, events: set<int>, any: int)
    requires any in events && forall id :: id in events ==> id in eligible && IsAbout(ep, eligible[id])
    ensures ep.scope.Some? && ep.task.Some? && ep.outcome.Some?
    ensures forall id :: id in events ==> SameTask(ep, eligible[id]) && SameOutcome(ep.outcome.value, eligible[id])
  {
    assert IsAbout(ep, eligible[any]);
    forall id | id in events
      ensures SameTask(ep, eligible[id]) && SameOutcome(ep.outcome.value, eligible[id])
    {
      AboutIff(ep, eligible[id]);
    }
  }

  /** An episode delivers a receipt exactly if it stands on its rows and lists the receipt. */
  lemma EpisodeDeliversIff(ix: Indexes, ep: Episode, eligible: map<int, Receipt>, id: int)
    ensures EpisodeDelivery(ix, ep, eligible).Delivers? && id in EpisodeDelivery(ix, ep, eligible).ids
       <==> exists seen :: EpisodeDelivers(ix, ep, eligible, seen) && id in seen.events
  {
    if EpisodeDelivery(ix, ep, eligible).Delivers? {
      DeliveredEpisodeDelivers(ix, ep, eligible);
    }
    forall seen | EpisodeDelivers(ix, ep, eligible, seen)
      ensures EpisodeDelivery(ix, ep, eligible) == Delivers(seen.events)
    {
      DeliveringEpisodeIsDelivered(ix, ep, eligible, seen);
    }
  }

  // ---- Guidance ----------------------------------------------------------------------------

  /** Practice feedback that stands at the time, from the receipt in whose place it is and applies; the second
      version says so twice. */
  ghost predicate GuidanceDelivers(g: Guidance, eligible: map<int, Receipt>, shown: Ident -> string, query: Scope, at: int, id: int) {
    && g.known && g.feedback && g.contract && g.event == Number(id) && id > 0 && id in eligible
    && var r := eligible[id];
       && g.occurred == Some(r.occurred) && g.expires.Some? && r.occurred <= at < g.expires.value
       && (exists scope ::
             && (if g.second then g.applied == Some(scope) else g.scope == Some(scope))
             && InPlace(scope, r.scope)
             && (scope.project != Missing ==> Same(scope.project, query.project))
             && (scope.checkpoint != Missing ==> Same(scope.checkpoint, query.checkpoint))
             && (scope.session != Missing ==> Same(scope.session, query.session)))
       && (g.second ==> g.exactScopes && g.applied == g.scope && g.origin.Some? && InPlace(g.origin.value, r.scope))
       && (g.item.Some? ==> g.item.value == r.itemType + ":" + shown(r.item))
  }

  lemma GuidanceDeliversIff(g: Guidance, eligible: map<int, Receipt>, shown: Ident -> string, query: Scope, at: int, id: int)
    ensures GuidanceDelivery(g, eligible, shown, query, at).Delivers? && id in GuidanceDelivery(g, eligible, shown, query, at).ids
       <==> GuidanceDelivers(g, eligible, shown, query, at, id)
  {
    var scope := if g.second then g.applied else g.scope;
    if scope.Some? && id in eligible {
      assert SamePlace(scope.value, eligible[id].scope) <==> InPlace(scope.value, eligible[id].scope);
      assert g.origin.Some? ==> (SamePlace(g.origin.value, eligible[id].scope) <==> InPlace(g.origin.value, eligible[id].scope));
      assert Applies(scope.value, query)
        <==> && (scope.value.project != Missing ==> Same(scope.value.project, query.project))
             && (scope.value.checkpoint != Missing ==> Same(scope.value.checkpoint, query.checkpoint))
             && (scope.value.session != Missing ==> Same(scope.value.session, query.session));
    }
  }

  /** Some episode or some guidance of the packet delivers the receipt. */
  ghost predicate IsDelivered(ix: Indexes, shown: Ident -> string, p: Packet, eligible: map<int, Receipt>, at: int, id: int) {
    || (p.episodes.Some? && exists i, seen ::
          0 <= i < |p.episodes.value| && EpisodeDelivers(ix, p.episodes.value[i], eligible, seen) && id in seen.events)
    || (p.guidance.Some? && exists i ::
          0 <= i < |p.guidance.value| && GuidanceDelivers(p.guidance.value[i], eligible, shown, p.scope, at, id))
  }

  lemma EpisodesDeliver(ix: Indexes, shown: Ident -> string, episodes: seq<Episode>, eligible: map<int, Receipt>, id: int)
    ensures
      var k := Saved(ix, shown);
      (exists x :: x in episodes && k.episode(x, eligible).Some? && id in k.episode(x, eligible).value)
      <==> exists i, seen :: 0 <= i < |episodes| && EpisodeDelivers(ix, episodes[i], eligible, seen) && id in seen.events
  {
    var k := Saved(ix, shown);
    forall i | 0 <= i < |episodes|
      ensures (k.episode(episodes[i], eligible).Some? && id in k.episode(episodes[i], eligible).value)
         <==> exists seen :: EpisodeDelivers(ix, episodes[i], eligible, seen) && id in seen.events
    {
      EpisodeDeliversIff(ix, episodes[i], eligible, id);
    }
  }

  lemma GuidanceIsDelivered(ix: Indexes, shown: Ident -> string, guidance: seq<Guidance>, eligible: map<int, Receipt>,
                            query: Scope, at: int, id: int)
    ensures
      var k := Saved(ix, shown);
      (exists x :: x in guidance && k.guidance(x, eligible, query, at).Some? && id in k.guidance(x, eligible, query, at).value)
      <==> exists i :: 0 <= i < |guidance| && GuidanceDelivers(guidance[i], eligible, shown, query, at, id)
  {
    var k := Saved(ix, shown);
    forall i | 0 <= i < |guidance|
      ensures (k.guidance(guidance[i], eligible, query, at).Some? && id in k.guidance(guidance[i], eligible, query, at).value)
         <==> GuidanceDelivers(guidance[i], eligible, shown, query, at, id)
    {
      GuidanceDeliversIff(guidance[i], eligible, shown, query, at, id);
    }
  }

  lemma DeliveredIff(ix: Indexes, shown: Ident -> string, p: Packet, eligible: map<int, Receipt>, at: int, id: int)
    ensures DeliveredBy(id, Saved(ix, shown), p, eligible, at) <==> IsDelivered(ix, shown, p, eligible, at, id)
  {
    if p.episodes.Some? {
      EpisodesDeliver(ix, shown, p.episodes.value, eligible, id);
    }
    if p.guidance.Some? {
      GuidanceIsDelivered(ix, shown, p.guidance.value, eligible, p.scope, at, id);
    }
  }

  // ---- The audit ---------------------------------------------------------------------------

  ghost predicate IsFeedback(action: string) {
    || action == "fade_support_then_independent_probe" || action == "independent_variant_or_reasoning_check"
    || action == "diagnose_first_error" || action == "clarify_nonresponse" || action == "clarify_assistance"
  }

  /** Decision `i` is the only one that gives feedback on practice. */
  ghost predicate OnlyFeedback(decisions: seq<Decision>, i: int) {
    0 <= i < |decisions| && forall j :: 0 <= j < |decisions| ==> (IsFeedback(decisions[j].action) <==> j == i)
  }

  lemma {:induction false} NoFeedback(decisions: seq<Decision>)
    ensures FeedbackActions(decisions) == [] <==> forall j :: 0 <= j < |decisions| ==> !IsFeedback(decisions[j].action)
  {
    if decisions != [] {
      NoFeedback(decisions[1..]);
      assert forall j :: 1 <= j < |decisions| ==> decisions[j] == decisions[1..][j - 1];
    }
  }

  lemma FirstIsOnly(decisions: seq<Decision>, i: int)
    requires decisions != [] && IsFeedback(decisions[0].action)
    ensures OnlyFeedback(decisions, i) <==> i == 0 && forall j :: 0 <= j < |decisions[1..]| ==> !IsFeedback(decisions[1..][j].action)
  {
    var rest := decisions[1..];
    assert forall j :: 1 <= j < |decisions| ==> decisions[j] == rest[j - 1];
    assert forall j :: 0 <= j < |rest| ==> rest[j] == decisions[j + 1];
  }

  lemma FirstIsPassed(decisions: seq<Decision>, i: int)
    requires decisions != [] && !IsFeedback(decisions[0].action)
    ensures OnlyFeedback(decisions, i) <==> OnlyFeedback(decisions[1..], i - 1)
  {
    var rest := decisions[1..];
    assert forall j :: 1 <= j < |decisions| ==> decisions[j] == rest[j - 1];
    assert forall j :: 0 <= j < |rest| ==> rest[j] == decisions[j + 1];
  }

  lemma {:induction false} OneFeedback(decisions: seq<Decision>, d: Decision)
    ensures FeedbackActions(decisions) == [d] <==> exists i :: OnlyFeedback(decisions, i) && decisions[i] == d
  {
    if decisions != [] {
      var rest := decisions[1..];
      if IsFeedback(decisions[0].action) {
        NoFeedback(rest);
        FirstIsOnly(decisions, 0);
        forall i
          ensures OnlyFeedback(decisions, i) <==> i == 0 && FeedbackActions(rest) == []
        {
          FirstIsOnly(decisions, i);
        }
        assert FeedbackActions(decisions) == [decisions[0]] + FeedbackActions(rest);
        assert FeedbackActions(decisions)[0] == decisions[0] && |FeedbackActions(decisions)| == 1 + |FeedbackActions(rest)|;
      } else {
        OneFeedback(rest, d);
        forall i
          ensures OnlyFeedback(decisions, i) <==> OnlyFeedback(rest, i - 1)
        {
          FirstIsPassed(decisions, i);
        }
        forall i
          ensures OnlyFeedback(decisions, i + 1) <==> OnlyFeedback(rest, i)
        {
          FirstIsPassed(decisions, i + 1);
        }
        assert FeedbackActions(decisions) == FeedbackActions(rest);
      }
    }
  }

  /** The learner's input that the query answers: of the query's case and scope. */
  ghost predicate IsInput(shown: Ident -> string, c: Condition, e: Event) {
    && e.kind.TeachingInput? && e.source == "vnext"
    && (e.client == "current-" + c.caseId || e.client == shown(c.packet.scope.learner) + ":current-" + c.caseId)
    && Same(e.scope.learner, c.packet.scope.learner) && InPlace(e.scope, c.packet.scope)
  }

  /** There is one such input, and it came at this time. */
  ghost predicate IsAsked(shown: Ident -> string, events: seq<Event>, c: Condition, at: int) {
    exists e :: e in events && IsInput(shown, c, e) && e.occurred == Some(at)
                && forall d :: d in events && IsInput(shown, c, d) ==> d == e
  }

  ghost predicate IsExplicit(p: Packet) {
    && p.checkpointMode && p.currentFeedback
    && p.scope.learner.Number? && p.scope.learner.n > 0 && p.scope.project.Number? && p.scope.project.n > 0
    && p.scope.checkpoint.Number? && p.scope.checkpoint.n > 0
  }

  /** The receipts of all saved events that have one. */
  ghost predicate AreAllReceipts(ix: Indexes, shown: Ident -> string, scope: Scope, at: int, receipts: map<int, Receipt>) {
    && (forall id :: id in receipts <==> exists e :: e in ix.events && e.id == id && IsReceipt(ix, shown, e, scope, at))
    && forall e :: e in ix.events && IsReceipt(ix, shown, e, scope, at) ==> e.id in receipts && ReceiptSays(receipts[e.id], ix, e, scope, at)
  }

  /** No receipt is later, by time and then by event. */
  ghost predicate IsNewest(receipts: map<int, Receipt>, id: int) {
    id in receipts && forall other :: other in receipts ==>
      || receipts[other].occurred < receipts[id].occurred
      || (receipts[other].occurred == receipts[id].occurred && other <= id)
  }

  /** The one piece of feedback relies on these events, receipts that the packet delivered. */
  ghost predicate ReliesOn(ix: Indexes, shown: Ident -> string, c: Condition, receipts: map<int, Receipt>, at: int, ids: set<int>) {
    && (exists i :: OnlyFeedback(c.decisions, i) && Lists(c.decisions[i].sources, ids))
    && forall id :: id in ids ==> id in receipts && IsDelivered(ix, shown, c.packet, receipts, at, id)
  }

  /** The condition can be judged, on these receipts and the events relied on. */
  ghost predicate CanBeJudged(ix: Indexes, shown: Ident -> string, c: Condition, receipts: map<int, Receipt>, ids: set<int>) {
    && IsExplicit(c.packet)
    && exists at ::
         && IsAsked(shown, ix.events, c, at) && AreAllReceipts(ix, shown, c.packet.scope, at, receipts)
         && ReliesOn(ix, shown, c, receipts, at, ids)
  }

  lemma InputIff(ix: Indexes, shown: Ident -> string, c: Condition, e: Event)
    ensures AnswersIn(Saved(ix, shown), e, c, c.packet.scope) <==> IsInput(shown, c, e)
  {
  }

  lemma AskedIff(ix: Indexes, shown: Ident -> string, c: Condition, at: int)
    ensures (exists input :: OnlyInput(Saved(ix, shown), ix.events, c, input) && input.occurred == Some(at))
       <==> IsAsked(shown, ix.events, c, at)
  {
    forall e
      ensures AnswersIn(Saved(ix, shown), e, c, c.packet.scope) <==> IsInput(shown, c, e)
    {
      InputIff(ix, shown, c, e);
    }
  }

  lemma SavedReceiptsAre(ix: Indexes, shown: Ident -> string, scope: Scope, at: int, eligible: map<int, Receipt>)
    requires DistinctEvents(ix.events) && AreReceipts(eligible, Saved(ix, shown), ix.events, scope, at)
    ensures AreAllReceipts(ix, shown, scope, at, eligible)
    ensures forall id :: id in eligible ==> eligible[id].event == id
  {
    forall e
      ensures Assesses(e) && Saved(ix, shown).receipt(e, scope, at).Some? <==> IsReceipt(ix, shown, e, scope, at)
      ensures IsReceipt(ix, shown, e, scope, at) ==> ReceiptSays(Saved(ix, shown).receipt(e, scope, at).value, ix, e, scope, at)
    {
      SavedReceiptIff(ix, shown, e, scope, at);
    }
  }

  lemma SavedReceiptIff(ix: Indexes, shown: Ident -> string, e: Event, scope: Scope, at: int)
    ensures Assesses(e) && Saved(ix, shown).receipt(e, scope, at).Some? <==> IsReceipt(ix, shown, e, scope, at)
    ensures IsReceipt(ix, shown, e, scope, at) ==> ReceiptSays(Saved(ix, shown).receipt(e, scope, at).value, ix, e, scope, at)
  {
    ReceiptIff(ix, shown, e, scope, at);
  }

  lemma ReliesIff(ix: Indexes, shown: Ident -> string, c: Condition, at: int, eligible: map<int, Receipt>, ids: set<int>)
    ensures ReliesOn(ix, shown, c, eligible, at, ids)
       <==> && |FeedbackActions(c.decisions)| == 1
            && ProperIds(FeedbackActions(c.decisions)[0].sources) && ids == Numbers(FeedbackActions(c.decisions)[0].sources.value)
            && forall id :: id in ids ==> id in eligible && DeliveredBy(id, Saved(ix, shown), c.packet, eligible, at)
  {
    forall id
      ensures DeliveredBy(id, Saved(ix, shown), c.packet, eligible, at) <==> IsDelivered(ix, shown, c.packet, eligible, at, id)
    {
      DeliveredIff(ix, shown, c.packet, eligible, at, id);
    }
    SourcesIff(c, ids);
  }

  lemma SourcesIff(c: Condition, ids: set<int>)
    ensures (exists i :: OnlyFeedback(c.decisions, i) && Lists(c.decisions[i].sources, ids))
       <==> && |FeedbackActions(c.decisions)| == 1
            && ProperIds(FeedbackActions(c.decisions)[0].sources) && ids == Numbers(FeedbackActions(c.decisions)[0].sources.value)
  {
    var actions := FeedbackActions(c.decisions);
    if |actions| == 1 {
      assert actions == [actions[0]];
      OneFeedback(c.decisions, actions[0]);
      ListsIff(actions[0].sources, ids);
    }
    if i :| OnlyFeedback(c.decisions, i) && Lists(c.decisions[i].sources, ids) {
      OneFeedback(c.decisions, c.decisions[i]);
      ListsIff(c.decisions[i].sources, ids);
    }
  }

  lemma NewestIff(eligible: map<int, Receipt>, r: Receipt)
    requires forall id :: id in eligible ==> eligible[id].event == id
    ensures IsLatest(r, eligible.Keys, eligible) <==> r.event in eligible && eligible[r.event] == r && IsNewest(eligible, r.event)
  {
  }

  /** The audit judges a condition exactly when its rows let it, and by these receipts. */
  lemma JudgedIff(ix: Indexes, shown: Ident -> string, c: Condition, latest: Receipt, ids: set<int>)
    requires DistinctEvents(ix.events)
    ensures Judged(Saved(ix, shown), ix.events, c, latest, ids)
       <==> exists receipts ::
              && CanBeJudged(ix, shown, c, receipts, ids)
              && latest.event in receipts && receipts[latest.event] == latest && IsNewest(receipts, latest.event)
  {
    var k := Saved(ix, shown);
    if Judged(k, ix.events, c, latest, ids) {
      var input, eligible :|
        && OnlyInput(k, ix.events, c, input) && input.occurred.Some?
        && AreReceipts(eligible, k, ix.events, c.packet.scope, input.occurred.value)
        && JudgedBy(k, c, input.occurred.value, eligible, latest, ids);
      JudgedCanBe(ix, shown, c, input, eligible, latest, ids);
    }
    forall receipts | CanBeJudged(ix, shown, c, receipts, ids) && latest.event in receipts && receipts[latest.event] == latest
                      && IsNewest(receipts, latest.event)
      ensures Judged(k, ix.events, c, latest, ids)
    {
      CanBeIsJudged(ix, shown, c, receipts, latest, ids);
    }
  }

  lemma JudgedCanBe(ix: Indexes, shown: Ident -> string, c: Condition, input: Event, eligible: map<int, Receipt>,
                    latest: Receipt, ids: set<int>)
    requires DistinctEvents(ix.events)
    requires OnlyInput(Saved(ix, shown), ix.events, c, input) && input.occurred.Some?
    requires AreReceipts(eligible, Saved(ix, shown), ix.events, c.packet.scope, input.occurred.value)
    requires JudgedBy(Saved(ix, shown), c, input.occurred.value, eligible, latest, ids)
    ensures CanBeJudged(ix, shown, c, eligible, ids)
    ensures latest.event in eligible && eligible[latest.event] == latest && IsNewest(eligible, latest.event)
  {
    AskedIff(ix, shown, c, input.occurred.value);
    SavedReceiptsAre(ix, shown, c.packet.scope, input.occurred.value, eligible);
    NewestIff(eligible, latest);
    ReliesIff(ix, shown, c, input.occurred.value, eligible, ids);
  }

  lemma AllReceiptsAreOne(ix: Indexes, shown: Ident -> string, scope: Scope, at: int, a: map<int, Receipt>, b: map<int, Receipt>)
    requires AreAllReceipts(ix, shown, scope, at, a) && AreAllReceipts(ix, shown, scope, at, b)
    ensures a == b
  {
    assert forall id :: id in a <==> id in b;
    forall id | id in a
      ensures a[id] == b[id]
    {
      var e :| e in ix.events && e.id == id && IsReceipt(ix, shown, e, scope, at);
      SaysOneThing(a[id], b[id], ix, e, scope, at);
    }
  }

  lemma SaysOneThing(a: Receipt, b: Receipt, ix: Indexes, e: Event, scope: Scope, at: int)
    requires ReceiptSays(a, ix, e, scope, at) && ReceiptSays(b, ix, e, scope, at)
    requires e.payload.assistance in {None, Some("none"), Some("hint"), Some("guided")}
    ensures a == b
  {
    assert forall id :: id in a.facts <==> id in b.facts;
    assert a.facts == b.facts;
  }

  lemma CanBeIsJudged(ix: Indexes, shown: Ident -> string, c: Condition, receipts: map<int, Receipt>, latest: Receipt, ids: set<int>)
    requires DistinctEvents(ix.events) && CanBeJudged(ix, shown, c, receipts, ids)
    requires latest.event in receipts && receipts[latest.event] == latest && IsNewest(receipts, latest.event)
    ensures Judged(Saved(ix, shown), ix.events, c, latest, ids)
  {
    var k := Saved(ix, shown);
    var at :| IsAsked(shown, ix.events, c, at) && AreAllReceipts(ix, shown, c.packet.scope, at, receipts)
              && ReliesOn(ix, shown, c, receipts, at, ids);
    AskedIff(ix, shown, c, at);
    var input :| OnlyInput(k, ix.events, c, input) && input.occurred == Some(at);
    AllReceiptsAreReceipts(ix, shown, c.packet.scope, at, receipts);
    NewestIff(receipts, latest);
    ReliesIff(ix, shown, c, at, receipts, ids);
    assert JudgedBy(k, c, at, receipts, latest, ids);
  }

  lemma AllReceiptsAreReceipts(ix: Indexes, shown: Ident -> string, scope: Scope, at: int, receipts: map<int, Receipt>)
    requires DistinctEvents(ix.events) && AreAllReceipts(ix, shown, scope, at, receipts)
    ensures AreReceipts(receipts, Saved(ix, shown), ix.events, scope, at)
    ensures forall id :: id in receipts ==> receipts[id].event == id
  {
    var eligible := ReceiptsExist(ix, shown, ix.events, scope, at);
    SavedReceiptsAre(ix, shown, scope, at, eligible);
    AllReceiptsAreOne(ix, shown, scope, at, receipts, eligible);
  }

  lemma {:induction false} ReceiptsExist(ix: Indexes, shown: Ident -> string, events: seq<Event>, scope: Scope, at: int)
    returns (eligible: map<int, Receipt>)
    requires DistinctEvents(events)
    ensures AreReceipts(eligible, Saved(ix, shown), events, scope, at)
    ensures forall id :: id in eligible ==> exists e :: e in events && e.id == id
  {
    eligible := map[];
    if events != [] {
      var n := |events| - 1;
      eligible := ReceiptsExist(ix, shown, events[..n], scope, at);
      var r := ReceiptOf(ix, shown, events[n], scope, at);
      assert forall e :: e in events <==> e in events[..n] || e == events[n];
      assert forall e :: e in events[..n] ==> e.id != events[n].id;
      if Assesses(events[n]) && r.Some? {
        eligible := eligible[events[n].id := r.value];
      }
    }
  }

  // ---- The program -------------------------------------------------------------------------

  /** A condition passes exactly when it can be judged and the newest receipt of all is among those it relies on. */
  ghost predicate Passes(ix: Indexes, shown: Ident -> string, c: Condition) {
    exists receipts, ids :: CanBeJudged(ix, shown, c, receipts, ids) && HoldsNewest(receipts, ids)
  }

  ghost predicate HoldsNewest(receipts: map<int, Receipt>, ids: set<int>) {
    exists id :: id in ids && IsNewest(receipts, id)
  }

  ghost predicate MissesNewest(receipts: map<int, Receipt>, ids: set<int>) {
    exists id :: id !in ids && IsNewest(receipts, id)
  }

  /** It is stale exactly when it can be judged and the newest receipt of all is not among them. */
  ghost predicate IsStale(ix: Indexes, shown: Ident -> string, c: Condition) {
    exists receipts, ids :: CanBeJudged(ix, shown, c, receipts, ids) && MissesNewest(receipts, ids)
  }

  /** The audit of a saved condition. */
  method AuditSaved(ix: Indexes, shown: Ident -> string, c: Condition) returns (a: Audit)
    requires DistinctEvents(ix.events)
    ensures a.status.Pass? <==>
      exists latest, cited :: Judged(Saved(ix, shown), ix.events, c, latest, cited) && latest.event in cited
    ensures a.status.Stale? <==>
      exists latest, cited :: Judged(Saved(ix, shown), ix.events, c, latest, cited) && latest.event !in cited
    ensures a.status.Pass? <==> Passes(ix, shown, c)
    ensures a.status.Stale? <==> IsStale(ix, shown, c)
  {
    SavedChecksAreProper(ix, shown);
    PassesIff(ix, shown, c);
    a := AuditCondition(Saved(ix, shown), ix.events, c);
  }

  lemma PassesIff(ix: Indexes, shown: Ident -> string, c: Condition)
    requires DistinctEvents(ix.events)
    ensures Passes(ix, shown, c)
       <==> exists latest, cited :: Judged(Saved(ix, shown), ix.events, c, latest, cited) && latest.event in cited
    ensures IsStale(ix, shown, c)
       <==> exists latest, cited :: Judged(Saved(ix, shown), ix.events, c, latest, cited) && latest.event !in cited
  {
    forall latest, ids | Judged(Saved(ix, shown), ix.events, c, latest, ids)
      ensures if latest.event in ids then Passes(ix, shown, c) else IsStale(ix, shown, c)
    {
      JudgedPasses(ix, shown, c, latest, ids);
    }
    if Passes(ix, shown, c) {
      PassingIsJudged(ix, shown, c);
    }
    if IsStale(ix, shown, c) {
      StaleIsJudged(ix, shown, c);
    }
  }

  lemma PassingIsJudged(ix: Indexes, shown: Ident -> string, c: Condition)
    requires DistinctEvents(ix.events) && Passes(ix, shown, c)
    ensures exists latest, cited :: Judged(Saved(ix, shown), ix.events, c, latest, cited) && latest.event in cited
  {
    var receipts, ids :| CanBeJudged(ix, shown, c, receipts, ids) && HoldsNewest(receipts, ids);
    var id :| id in ids && IsNewest(receipts, id);
    NewestIsJudged(ix, shown, c, receipts, ids, id);
  }

  lemma StaleIsJudged(ix: Indexes, shown: Ident -> string, c: Condition)
    requires DistinctEvents(ix.events) && IsStale(ix, shown, c)
    ensures exists latest, cited :: Judged(Saved(ix, shown), ix.events, c, latest, cited) && latest.event !in cited
  {
    var receipts, ids :| CanBeJudged(ix, shown, c, receipts, ids) && MissesNewest(receipts, ids);
    var id :| id !in ids && IsNewest(receipts, id);
    NewestIsJudged(ix, shown, c, receipts, ids, id);
  }

  lemma NewestIsJudged(ix: Indexes, shown: Ident -> string, c: Condition, receipts: map<int, Receipt>, ids: set<int>, id: int)
    requires DistinctEvents(ix.events) && CanBeJudged(ix, shown, c, receipts, ids) && IsNewest(receipts, id)
    ensures receipts[id].event == id && Judged(Saved(ix, shown), ix.events, c, receipts[id], ids)
  {
    NewestIsOfItsEvent(ix, shown, c, receipts, ids, id);
    CanBeIsJudged(ix, shown, c, receipts, receipts[id], ids);
  }

  lemma JudgedPasses(ix: Indexes, shown: Ident -> string, c: Condition, latest: Receipt, ids: set<int>)
    requires DistinctEvents(ix.events) && Judged(Saved(ix, shown), ix.events, c, latest, ids)
    ensures if latest.event in ids then Passes(ix, shown, c) else IsStale(ix, shown, c)
  {
    JudgedIff(ix, shown, c, latest, ids);
    var receipts :| CanBeJudged(ix, shown, c, receipts, ids) && latest.event in receipts && receipts[latest.event] == latest
                    && IsNewest(receipts, latest.event);
  }

  lemma NewestIsOfItsEvent(ix: Indexes, shown: Ident -> string, c: Condition, receipts: map<int, Receipt>, ids: set<int>, id: int)
    requires CanBeJudged(ix, shown, c, receipts, ids) && id in receipts
    ensures receipts[id].event == id
  {
    var at :| AreAllReceipts(ix, shown, c.packet.scope, at, receipts);
    assert AreAllReceipts(ix, shown, c.packet.scope, at, receipts);
    var e :| e in ix.events && e.id == id && IsReceipt(ix, shown, e, c.packet.scope, at);
    assert ReceiptSays(receipts[e.id], ix, e, c.packet.scope, at);
  }
}
