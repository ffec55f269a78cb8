/** Each field of the reference on its own: what it says of the evidence, and which evidence it needs
    (evals/education_memory_counterfactual/verifier.py: _controls, _derive). */
module FieldEvidence {
  import opened Options
  import opened Reference
  import opened Derivation
  import opened Scoring

  predicate IsSupport(item: Item) {
    item.Wanted? && item.control.slot.Support?
  }

  /** A request for support ends eight hours after it was made. */
  lemma SupportEnds(g: Grammar, f: Formation, item: Item)
    requires item in Items(g, f, |f.events|) && IsSupport(item)
    ensures item.control.expiresAt == item.stamp.time + 8 * HOUR
  {
    ItemsHaveEvents(g, f, |f.events|, item);
    var e :| e in f.events && Classify(g, f, e).Counts? && item in Classify(g, f, e).items;
    ItemsOfEvent(g, f, e, item);
    SupportStandsEightHours(g, e, item.control);
    WantedCarryTheirStamp(g, f, e, item);
  }

  lemma WantedCarryTheirStamp(g: Grammar, f: Formation, e: Event, item: Item)
    requires Classify(g, f, e).Counts? && item in Classify(g, f, e).items && item.Wanted?
    ensures item.stamp == item.control.stamp
  {
  }

  ghost predicate SupportStands(g: Grammar, f: Formation, sel: Selection) {
    exists item :: item in Items(g, f, |f.events|) && IsSupport(item) && Allows(sel, item.stamp.event)
                   && item.control.expiresAt > f.at
  }

  lemma LatestIsSupport(items: seq<Item>, sel: Selection)
    ensures
      var latest := Latest(items, Requested(Support), sel);
      latest.Some? ==> latest.value in items && IsSupport(latest.value) && Allows(sel, latest.value.stamp.event)
  {
    LatestIsGreatest(items, Requested(Support), sel);
  }

  /** Support is active exactly while some request for it stands, whichever request that is. */
  lemma SupportIffSomeRequestStands(g: Grammar, f: Formation, sel: Selection)
    ensures Derive(g, f, sel).support <==> SupportStands(g, f, sel)
  {
    var items := Items(g, f, |f.events|);
    var latest := Latest(items, Requested(Support), sel);
    LatestIsGreatest(items, Requested(Support), sel);
    LatestIsSupport(items, sel);
    if SupportStands(g, f, sel) {
      var item :| item in items && IsSupport(item) && Allows(sel, item.stamp.event) && item.control.expiresAt > f.at;
      assert Eligible(item, Requested(Support), sel);
      SupportEnds(g, f, item);
      SupportEnds(g, f, latest.value);
    }
  }

  lemma NarrowerStands(g: Grammar, f: Formation, big: Selection, small: Selection)
    requires Narrower(small, big) && SupportStands(g, f, small)
    ensures SupportStands(g, f, big)
  {
  }

  /** The assessment named is the latest one, and result, help and next step are about it. */
  lemma AssessmentIsTheLatest(g: Grammar, f: Formation, sel: Selection)
    ensures
      var x, items := Derive(g, f, sel), Items(g, f, |f.events|);
      match x.assessment
      case None =>
        && x.result.NoResult? && x.help.Unknown? && x.nextStep.CollectEvidence? && !x.independentSuccess
        && forall item :: item in items && Allows(sel, item.stamp.event) ==> !item.Graded?
      case Some(id) =>
        exists item ::
          && item in items && item.Graded? && Allows(sel, id) && item.stamp.event == id
          && (forall other :: other in items && other.Graded? && Allows(sel, other.stamp.event) ==> !Before(item.stamp, other.stamp))
          && (x.result.Correct? <==> item.assessment.correct) && !x.result.NoResult?
          && x.help == item.assessment.help
          && (x.nextStep.IndependentCheck? <==> x.independentSuccess)
          && (x.nextStep.DiagnoseError? <==> x.result.Incorrect?)
          && (x.nextStep.ReduceHelpThenCheck? <==> x.result.Correct? && x.help.Supported?)
          && (x.nextStep.ClarifyHelp? <==> x.result.Correct? && x.help.Unknown?)
  {
    LatestIsGreatest(Items(g, f, |f.events|), Grades, sel);
    var latest := Latest(Items(g, f, |f.events|), Grades, sel);
    if latest.None? {
      forall item | item in Items(g, f, |f.events|) && Allows(sel, item.stamp.event)
        ensures !item.Graded?
      {
        assert !Eligible(item, Grades, sel);
      }
    } else {
      forall other | other in Items(g, f, |f.events|) && other.Graded? && Allows(sel, other.stamp.event)
        ensures !Before(latest.value.stamp, other.stamp)
      {
        assert Eligible(other, Grades, sel);
      }
    }
  }

  /** Result, help and assessment rest on the assessment named and on nothing else, independent success and next
      step too where there is one, and the denial of stable mastery on nothing. */
  lemma AssessmentFieldsRestOnIt(g: Grammar, f: Formation, sel: Selection, field: FieldName, id: int)
    ensures
      var x, rests := Derive(g, f, sel), id in Dependencies(ViewOf(Items(g, f, |f.events|), sel), f.at, field);
      && (field in {LatestResult, LatestAssistance, AssessmentEventId} ==> (rests <==> x.assessment == Some(id)))
      && (field in {IndependentSuccess, Next} && x.assessment.Some? ==> (rests <==> x.assessment == Some(id)))
      && (field.StableMastery? ==> !rests)
  {
    LatestIsGreatest(Items(g, f, |f.events|), Grades, sel);
  }

  /** The event and the attempt behind an independent success. */
  ghost predicate Earned(f: Formation, e: Event) {
    && e in f.events && SourceProblem(e, f).None? && (e.kind.ConceptEvaluated? || e.kind.ExerciseEvaluated?)
    && e.payload.value.attemptId.Some? && e.payload.value.attemptId.value in f.attempts
    && var p, a := e.payload.value, f.attempts[e.payload.value.attemptId.value];
       && (if e.kind.ConceptEvaluated? then p.correct else p.passed) == Some(true)
       && a.status == "evaluated" && a.grade.Some? && GradeAgrees(e.kind.ConceptEvaluated?, a.grade.value, true)
       && p.independent == Stated(true) && p.assistance == a.assistance == Some("none")
       && a.role != Some("retry") && a.role != Some("repeated_original")
       && Owned(a.scope, f).None? && SameCheckpoint(a.scope, f.scope)
       && a.evaluatedAt.Some? && a.evaluatedAt.value <= e.occurredAt.value <= f.at
  }

  /** Whatever evidence is used, independent success is read off one graded, owned and unaided first
      attempt: that of the assessment named. */
  lemma IndependentSuccessIsEarned(g: Grammar, f: Formation, sel: Selection)
    requires Derive(g, f, sel).independentSuccess
    ensures exists e :: Earned(f, e) && Derive(g, f, sel).assessment == Some(e.id) && Allows(sel, e.id)
  {
    var items := Items(g, f, |f.events|);
    LatestIsGreatest(items, Grades, sel);
    var item := Latest(items, Grades, sel).value;
    ItemsHaveEvents(g, f, |f.events|, item);
    var e :| e in f.events && Classify(g, f, e).Counts? && item in Classify(g, f, e).items;
    ItemsOfEvent(g, f, e, item);
    GradedItemIsAssessed(g, f, e, item);
    IndependentAssessmentIsEarned(f, e);
  }

  lemma IndependentAssessmentIsEarned(f: Formation, e: Event)
    requires e in f.events && SourceProblem(e, f).None? && (e.kind.ConceptEvaluated? || e.kind.ExerciseEvaluated?)
    requires Assess(e, f).Accepted? && Assess(e, f).assessment.correct && Assess(e, f).assessment.help.Independent?
    ensures Earned(f, e)
  {
    IndependenceIsEarned(e, f);
  }

  lemma GradedItemIsAssessed(g: Grammar, f: Formation, e: Event, item: Item)
    requires Classify(g, f, e).Counts? && item in Classify(g, f, e).items && item.Graded?
    ensures SourceProblem(e, f).None? && (e.kind.ConceptEvaluated? || e.kind.ExerciseEvaluated?)
    ensures Assess(e, f) == Accepted(item.assessment)
  {
  }

  predicate IsWish(item: Item, slot: Slot, sel: Selection) {
    item.Wanted? && item.control.slot == slot && Allows(sel, item.stamp.event)
  }

  function WordingOf(x: Expected, slot: Slot): Option<string> {
    if slot.CurrentPriority? then x.priority else x.anchor
  }

  /** Priority and return point are the words of the latest request, and there are none only if every
      request that still stands was followed by one that has run out. */
  lemma WordingIsTheLatest(g: Grammar, f: Formation, sel: Selection, slot: Slot)
    requires Proper(g) && (slot.CurrentPriority? || slot.ReturnAnchor?)
    ensures
      var items := Items(g, f, |f.events|);
      match WordingOf(Derive(g, f, sel), slot)
      case Some(words) =>
        exists item ::
          && item in items && IsWish(item, slot, sel)
          && item.control.wish == Wording(words) && item.control.expiresAt > f.at
          && forall other :: other in items && IsWish(other, slot, sel) ==> !Before(item.stamp, other.stamp)
      case None =>
        forall item :: item in items && IsWish(item, slot, sel) && item.control.expiresAt > f.at ==>
          exists other ::
            && other in items && IsWish(other, slot, sel)
            && other.control.expiresAt <= f.at && !Before(other.stamp, item.stamp)
  {
    var items := Items(g, f, |f.events|);
    LatestIsGreatest(items, Requested(slot), sel);
    LatestWishIsPresentable(g, f, slot, sel);
    assert forall item :: item in items && IsWish(item, slot, sel) ==> Eligible(item, Requested(slot), sel);
  }

  /** The time limit is the least of those that stand: the latest budget, and the cap on support. */
  lemma MinutesAreTheLeastLimit(g: Grammar, f: Formation, sel: Selection)
    requires Proper(g)
    ensures
      var x := Derive(g, f, sel);
      var budget := ActiveMinutes(Latest(Items(g, f, |f.events|), Requested(TimeBudget), sel), f.at);
      && (x.minutes.Some? <==> budget.Some? || SupportStands(g, f, sel))
      && (x.minutes.Some? ==>
           && (budget.Some? ==> x.minutes.value <= budget.value)
           && (SupportStands(g, f, sel) ==> x.minutes.value <= SUPPORT_CAP)
           && (x.minutes == budget || (x.minutes.value == SUPPORT_CAP && SupportStands(g, f, sel))))
  {
    SupportIffSomeRequestStands(g, f, sel);
    LatestWishIsPresentable(g, f, TimeBudget, sel);
  }

  /** A field keeps its value as long as the evidence listed for that field is kept.  For the time limit
      this needs that an older request for support never outlasts a newer one. */
  lemma FieldEvidenceSuffices(g: Grammar, f: Formation, big: Selection, small: Selection, field: FieldName)
    requires Narrower(small, big)
    requires forall id :: id in Dependencies(ViewOf(Items(g, f, |f.events|), big), f.at, field) ==> Allows(small, id)
    ensures ValueOf(Derive(g, f, small), field) == ValueOf(Derive(g, f, big), field)
  {
    var items := Items(g, f, |f.events|);
    match field {
      case Priority => LatestSurvives(items, Requested(CurrentPriority), big, small);
      case Anchor => LatestSurvives(items, Requested(ReturnAnchor), big, small);
      case SupportActive => LatestSurvives(items, Requested(Support), big, small);
      case Minutes => MinutesSurvive(g, f, big, small);
      case StableMastery =>
      case _ => GradeSurvives(items, f.at, big, small, field);
    }
  }

  lemma GradeSurvives(items: seq<Item>, at: int, big: Selection, small: Selection, field: FieldName)
    requires Narrower(small, big)
    requires field in {LatestResult, LatestAssistance, AssessmentEventId, IndependentSuccess, Next}
    requires forall id :: id in Dependencies(ViewOf(items, big), at, field) ==> Allows(small, id)
    ensures Latest(items, Grades, small) == Latest(items, Grades, big)
  {
    LatestSurvives(items, Grades, big, small);
  }

  lemma MinutesSurvive(g: Grammar, f: Formation, big: Selection, small: Selection)
    requires Narrower(small, big)
    requires forall id :: id in Dependencies(ViewOf(Items(g, f, |f.events|), big), f.at, Minutes) ==> Allows(small, id)
    ensures Derive(g, f, small).minutes == Derive(g, f, big).minutes
  {
    var items := Items(g, f, |f.events|);
    LatestSurvives(items, Requested(TimeBudget), big, small);
    if Active(Latest(items, Requested(Support), big), f.at) {
      LatestSurvives(items, Requested(Support), big, small);
    } else {
      SupportIffSomeRequestStands(g, f, big);
      SupportIffSomeRequestStands(g, f, small);
      if SupportStands(g, f, small) {
        NarrowerStands(g, f, big, small);
        assert false;
      }
    }
  }
}
