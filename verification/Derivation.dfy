/** From valid evidence to the reference record, and back to the evidence it needs
    (evals/education_memory_counterfactual/verifier.py: _derive, derive_expected). */
module Derivation {
  import opened JsonLines
  import opened Options
  import opened Reference

  // ---- What an event contributes -----------------------------------------------------------

  datatype Item =
    | Graded(stamp: Stamp, assessment: Assessment)
    | Reported(stamp: Stamp)
    | Wanted(stamp: Stamp, control: Control)

  datatype Class =
    | Excluded(problem: Problem)
    | Counts(items: seq<Item>)

  function Classify(g: Grammar, f: Formation, e: Event): (r: Class)
    ensures r.Counts? ==> e.occurredAt.Some?
  {
    if SourceProblem(e, f).Some? then Excluded(SourceProblem(e, f).value)
    else
      match e.kind
      case ConceptEvaluated => Grading(e, f)
      case ExerciseEvaluated => Grading(e, f)
      case Observation =>
        var statement := e.payload.value.statement;
        if statement.None? || Trim(statement.value) == "" then Excluded(MissingStatement)
        else Counts([Reported(Stamp(e.occurredAt.value, e.id, 0))])
      case UserMessage =>
        var text := e.payload.value.text;
        if text.None? || Trim(text.value) == "" then Excluded(MissingText) else Counts([])
      case TeachingInput =>
        (match Controls(g, e)
         case Unread(problem) => Excluded(problem)
         case Requests(controls) => Counts(Wishes(controls)))
      case OtherKind => Excluded(UnsupportedType)
  }

  function Grading(e: Event, f: Formation): (r: Class)
    requires SourceProblem(e, f).None? && (e.kind.ConceptEvaluated? || e.kind.ExerciseEvaluated?)
  {
    match Assess(e, f)
    case Rejected(problem) => Excluded(problem)
    case Accepted(a) => Counts([Graded(a.stamp, a)])
  }

  function Wishes(controls: seq<Control>): (r: seq<Item>)
    ensures |r| == |controls|
    ensures forall i :: 0 <= i < |r| ==> r[i] == Wanted(controls[i].stamp, controls[i])
  {
    seq(|controls|, i requires 0 <= i < |controls| => Wanted(controls[i].stamp, controls[i]))
  }

  /** All evidence of the history, in the order of its saved events. */
  function Items(g: Grammar, f: Formation, n: nat): seq<Item>
    requires n <= |f.events|
  {
    if n == 0 then []
    else Items(g, f, n - 1) + (match Classify(g, f, f.events[n - 1]) case Excluded(_) => [] case Counts(items) => items)
  }

  function ValidIds(g: Grammar, f: Formation): set<int> {
    set e | e in f.events && Classify(g, f, e).Counts? :: e.id
  }

  // ---- The latest item on each topic -------------------------------------------------------

  datatype Topic = Grades | Reports | Requested(slot: Slot)

  function TopicOf(item: Item): Topic {
    match item
    case Graded(_, _) => Grades
    case Reported(_) => Reports
    case Wanted(_, control) => Requested(control.slot)
  }

  /** The events that may be used: all of them, or a selection. */
  datatype Selection = Everything | Only(ids: set<int>)

  predicate Allows(sel: Selection, id: int) {
    sel.Everything? || id in sel.ids
  }

  predicate Eligible(item: Item, topic: Topic, sel: Selection) {
    TopicOf(item) == topic && Allows(sel, item.stamp.event)
  }

  /** The first of the eligible items with the greatest stamp. */
  function Latest(items: seq<Item>, topic: Topic, sel: Selection): Option<Item> {
    if items == [] then None
    else
      var prior, item := Latest(items[..|items| - 1], topic, sel), items[|items| - 1];
      if Eligible(item, topic, sel) && (prior.None? || Before(prior.value.stamp, item.stamp)) then Some(item) else prior
  }

  lemma {:induction false} LatestIsGreatest(items: seq<Item>, topic: Topic, sel: Selection)
    ensures
      match Latest(items, topic, sel)
      case None => forall x :: x in items ==> !Eligible(x, topic, sel)
      case Some(latest) =>
        latest in items && Eligible(latest, topic, sel) &&
        forall x :: x in items && Eligible(x, topic, sel) ==> !Before(latest.stamp, x.stamp)
  {
    if items != [] {
      var init := items[..|items| - 1];
      LatestIsGreatest(init, topic, sel);
      assert forall x :: x in items <==> x in init || x == items[|items| - 1];
    }
  }

  ghost predicate Narrower(small: Selection, big: Selection) {
    forall id :: Allows(small, id) ==> Allows(big, id)
  }

  /** Leaving out other events never changes which item is the latest, as long as it stays in. */
  lemma {:induction false} LatestSurvives(items: seq<Item>, topic: Topic, big: Selection, small: Selection)
    requires Narrower(small, big)
    requires Latest(items, topic, big).Some? ==> Allows(small, Latest(items, topic, big).value.stamp.event)
    ensures Latest(items, topic, small) == Latest(items, topic, big)
  {
    if items != [] {
      var init, item := items[..|items| - 1], items[|items| - 1];
      var prior := Latest(init, topic, big);
      if Latest(items, topic, big) == prior {
        LatestSurvives(init, topic, big, small);
      } else {
        LatestIsGreatest(init, topic, big);
        LatestIsGreatest(init, topic, small);
      }
    }
  }

  // ---- The reference -----------------------------------------------------------------------

  datatype Verdict = Correct | Incorrect | NoResult

  datatype NextStep = DiagnoseError | ReduceHelpThenCheck | IndependentCheck | ClarifyHelp | CollectEvidence

  datatype Expected = Expected(
    result: Verdict, help: Help, assessment: Option<int>, independentSuccess: bool, stableMastery: bool,
    priority: Option<string>, minutes: Option<int>, support: bool, anchor: Option<string>, nextStep: NextStep,
    evidence: set<int>)

  datatype FieldName =
    | LatestResult | LatestAssistance | AssessmentEventId | IndependentSuccess | StableMastery
    | Priority | Minutes | SupportActive | Anchor | Next

  /** The latest item on each topic. */
  datatype View = View(grade: Option<Item>, report: Option<Item>, budget: Option<Item>, priority: Option<Item>,
                       anchor: Option<Item>, support: Option<Item>)

  function ViewOf(items: seq<Item>, sel: Selection): View {
    View(Latest(items, Grades, sel), Latest(items, Reports, sel), Latest(items, Requested(TimeBudget), sel),
         Latest(items, Requested(CurrentPriority), sel), Latest(items, Requested(ReturnAnchor), sel),
         Latest(items, Requested(Support), sel))
  }

  function SourceOf(item: Option<Item>): set<int> {
    if item.None? then {} else {item.value.stamp.event}
  }

  predicate Active(item: Option<Item>, at: int) {
    item.Some? && item.value.Wanted? && item.value.control.expiresAt > at
  }

  function ActiveText(item: Option<Item>, at: int): Option<string> {
    if Active(item, at) && item.value.control.wish.Wording? then Some(item.value.control.wish.text) else None
  }

  function ActiveMinutes(item: Option<Item>, at: int): Option<int> {
    if Active(item, at) && item.value.control.wish.Budget? then Some(item.value.control.wish.minutes) else None
  }

  const SUPPORT_CAP := 20

  /** The events each field of the reference rests on. */
  function Dependencies(v: View, at: int, field: FieldName): set<int> {
    match field
    case LatestResult => SourceOf(v.grade)
    case LatestAssistance => SourceOf(v.grade)
    case AssessmentEventId => SourceOf(v.grade)
    case IndependentSuccess => if v.grade.Some? then SourceOf(v.grade) else SourceOf(v.report)
    case Next => if v.grade.Some? then SourceOf(v.grade) else SourceOf(v.report)
    case StableMastery => {}
    case Priority => SourceOf(v.priority)
    case Minutes => SourceOf(v.budget) + if Active(v.support, at) then SourceOf(v.support) else {}
    case SupportActive => SourceOf(v.support)
    case Anchor => SourceOf(v.anchor)
  }

  const FIELDS := {LatestResult, LatestAssistance, AssessmentEventId, IndependentSuccess, StableMastery,
                   Priority, Minutes, SupportActive, Anchor, Next}

  function Cited(v: View, at: int): set<int> {
    set field, id | field in FIELDS && id in Dependencies(v, at, field) :: id
  }

  function StepAfter(a: Assessment): NextStep {
    if !a.correct then DiagnoseError
    else match a.help
      case Supported => ReduceHelpThenCheck
      case Independent => IndependentCheck
      case Unknown => ClarifyHelp
  }

  function Expect(v: View, at: int): Expected {
    var a := if v.grade.Some? && v.grade.value.Graded? then Some(v.grade.value.assessment) else None;
    var support := Active(v.support, at);
    var minutes := ActiveMinutes(v.budget, at);
    Expected(
      if a.None? then NoResult else if a.value.correct then Correct else Incorrect,
      if a.None? then Unknown else a.value.help,
      if a.None? then None else Some(v.grade.value.stamp.event),
      a.Some? && a.value.correct && a.value.help.Independent?,
      false,
      ActiveText(v.priority, at),
      if !support then minutes
      else Some(if minutes.Some? && minutes.value != 0 && minutes.value < SUPPORT_CAP then minutes.value else SUPPORT_CAP),
      support,
      ActiveText(v.anchor, at),
      if a.None? then CollectEvidence else StepAfter(a.value),
      Cited(v, at))
  }

  /** The reference on the valid evidence a selection lets through. */
  function Derive(g: Grammar, f: Formation, sel: Selection): Expected {
    Expect(ViewOf(Items(g, f, |f.events|), sel), f.at)
  }

  // ---- Sufficiency -------------------------------------------------------------------------

  lemma CitedAre(v: View, at: int)
    ensures Cited(v, at)
         == (if v.grade.Some? then SourceOf(v.grade) else SourceOf(v.report))
            + SourceOf(v.budget) + SourceOf(v.priority) + SourceOf(v.anchor) + SourceOf(v.support)
  {
    assert Dependencies(v, at, Next) <= Cited(v, at);
    assert Dependencies(v, at, Minutes) <= Cited(v, at);
    assert Dependencies(v, at, Priority) <= Cited(v, at);
    assert Dependencies(v, at, Anchor) <= Cited(v, at);
    assert Dependencies(v, at, SupportActive) <= Cited(v, at);
  }

  /** Only the latest items matter, and self reports only while nothing is graded. */
  lemma SameViewSameReference(v: View, w: View, at: int)
    requires w == v || (v.grade.Some? && w == v.(report := w.report))
    ensures Expect(w, at) == Expect(v, at)
  {
    CitedAre(v, at);
    CitedAre(w, at);
  }

  lemma CitedViewSurvives(items: seq<Item>, at: int, big: Selection, small: Selection)
    requires Narrower(small, big)
    requires forall id :: id in Cited(ViewOf(items, big), at) ==> Allows(small, id)
    ensures
      var v, w := ViewOf(items, big), ViewOf(items, small);
      w == v || (v.grade.Some? && w == v.(report := w.report))
  {
    CitedAre(ViewOf(items, big), at);
    LatestSurvives(items, Grades, big, small);
    LatestSurvives(items, Requested(TimeBudget), big, small);
    LatestSurvives(items, Requested(CurrentPriority), big, small);
    LatestSurvives(items, Requested(ReturnAnchor), big, small);
    LatestSurvives(items, Requested(Support), big, small);
    if Latest(items, Grades, big).None? {
      LatestSurvives(items, Reports, big, small);
    }
  }

  /** The cited events are all it takes: any narrower selection that keeps them derives the same
      eleven fields, citations included. */
  lemma CitedEvidenceSuffices(g: Grammar, f: Formation, big: Selection, small: Selection)
    requires Narrower(small, big)
    requires forall id :: id in Derive(g, f, big).evidence ==> Allows(small, id)
    ensures Derive(g, f, small) == Derive(g, f, big)
  {
    var items := Items(g, f, |f.events|);
    CitedViewSurvives(items, f.at, big, small);
    SameViewSameReference(ViewOf(items, big), ViewOf(items, small), f.at);
  }

  /** The cited ids alone reproduce the reference. */
  lemma CitationsReproduceTheReference(g: Grammar, f: Formation)
    ensures Derive(g, f, Only(Derive(g, f, Everything).evidence)) == Derive(g, f, Everything)
  {
    CitedEvidenceSuffices(g, f, Everything, Only(Derive(g, f, Everything).evidence));
  }

  // ---- What the reference can contain ------------------------------------------------------

  lemma ItemsOfEvent(g: Grammar, f: Formation, e: Event, item: Item)
    requires Classify(g, f, e).Counts? && item in Classify(g, f, e).items
    ensures item.stamp.event == e.id && item.stamp.time == e.occurredAt.value <= f.at
    ensures item.Wanted? ==> Controls(g, e).Requests? && item.control in Controls(g, e).controls
  {
    if e.kind.TeachingInput? {
      ControlsQuoteTheText(g, e, item.control);
    }
  }

  lemma {:induction false} ItemsHaveEvents(g: Grammar, f: Formation, n: nat, item: Item)
    requires n <= |f.events| && item in Items(g, f, n)
    ensures exists e :: e in f.events && Classify(g, f, e).Counts? && item in Classify(g, f, e).items
  {
    if item in Items(g, f, n - 1) {
      ItemsHaveEvents(g, f, n - 1, item);
    } else {
      assert f.events[n - 1] in f.events;
    }
  }

  /** Only valid events are cited, and only selected ones. */
  lemma CitationsAreValid(g: Grammar, f: Formation, sel: Selection, id: int)
    requires id in Derive(g, f, sel).evidence
    ensures id in ValidIds(g, f) && Allows(sel, id)
  {
    var items := Items(g, f, |f.events|);
    var v := ViewOf(items, sel);
    CitedAre(v, f.at);
    var topic :| Latest(items, topic, sel).Some? && id == Latest(items, topic, sel).value.stamp.event;
    LatestIsGreatest(items, topic, sel);
    var item := Latest(items, topic, sel).value;
    ItemsHaveEvents(g, f, |f.events|, item);
    var e :| e in f.events && Classify(g, f, e).Counts? && item in Classify(g, f, e).items;
    ItemsOfEvent(g, f, e, item);
  }

  /** The values a reference field may take: what the output schema asks of every answer. */
  predicate Presentable(x: Expected) {
    && (x.assessment.Some? ==> x.assessment.value > 0)
    && (x.minutes.Some? ==> 1 <= x.minutes.value <= 480)
    && (x.priority.Some? ==> Trim(x.priority.value) != "")
    && (x.anchor.Some? ==> Trim(x.anchor.value) != "")
  }

  lemma WishIsPresentable(g: Grammar, slot: Slot, clause: string)
    requires Proper(g) && Trim(clause) == clause && Wished(g, slot, clause).Some?
    ensures
      match Wished(g, slot, clause).value
      case Budget(n) => slot.TimeBudget? && 1 <= n <= 480
      case Wording(t) => (slot.CurrentPriority? || slot.ReturnAnchor?) && Trim(t) != ""
      case SmallSteps => slot.Support?
  {
    var match' := g.matches(slot, clause).value;
    if match'.Tail? {
      var tail := clause[match'.start..];
      TrimmedEndsInText(clause);
      KeepsText(tail);
      TrimIsIdempotent(tail);
    }
  }

  lemma TrimmedEndsInText(s: string)
    requires Trim(s) == s && s != ""
    ensures !IsSpace(s[|s| - 1])
  {
    var start := TrimStart(s, 0);
    assert |Trim(s)| == TrimEnd(s, start, |s|) - start;
  }

  lemma KeepsText(s: string)
    requires s != "" && !IsSpace(s[|s| - 1])
    ensures Trim(s) != ""
  {
    TrimStartStops(s, 0);
  }

  lemma {:induction false} TrimStartStops(s: string, i: nat)
    requires i < |s| && !IsSpace(s[|s| - 1])
    ensures TrimStart(s, i) < |s|
    decreases |s| - i
  {
    if IsSpace(s[i]) {
      TrimStartStops(s, i + 1);
    }
  }

  lemma LatestWishIsPresentable(g: Grammar, f: Formation, slot: Slot, sel: Selection)
    requires Proper(g)
    ensures
      var latest := Latest(Items(g, f, |f.events|), Requested(slot), sel);
      latest.Some? && latest.value.Wanted? ==>
        match latest.value.control.wish
        case Budget(n) => slot.TimeBudget? && 1 <= n <= 480
        case Wording(t) => (slot.CurrentPriority? || slot.ReturnAnchor?) && Trim(t) != ""
        case SmallSteps => slot.Support?
  {
    var items := Items(g, f, |f.events|);
    LatestIsGreatest(items, Requested(slot), sel);
    if Latest(items, Requested(slot), sel).Some? {
      var item := Latest(items, Requested(slot), sel).value;
      ItemsHaveEvents(g, f, |f.events|, item);
      var e :| e in f.events && Classify(g, f, e).Counts? && item in Classify(g, f, e).items;
      ItemsOfEvent(g, f, e, item);
      ControlsQuoteTheText(g, e, item.control);
      var text := e.payload.value.text.value;
      WishIsPresentable(g, slot, text[item.control.stamp.offset..item.control.end]);
    }
  }

  lemma LatestGradeIsPositive(g: Grammar, f: Formation, sel: Selection)
    requires forall e :: e in f.events ==> e.id > 0
    ensures
      var latest := Latest(Items(g, f, |f.events|), Grades, sel);
      latest.Some? ==> latest.value.stamp.event > 0
  {
    var items := Items(g, f, |f.events|);
    LatestIsGreatest(items, Grades, sel);
    if Latest(items, Grades, sel).Some? {
      var item := Latest(items, Grades, sel).value;
      ItemsHaveEvents(g, f, |f.events|, item);
      var e :| e in f.events && Classify(g, f, e).Counts? && item in Classify(g, f, e).items;
      ItemsOfEvent(g, f, e, item);
    }
  }

  /** Every reference meets the schema its readers are held to. */
  lemma ReferenceIsPresentable(g: Grammar, f: Formation, sel: Selection)
    requires Proper(g)
    requires forall e :: e in f.events ==> e.id > 0
    ensures Presentable(Derive(g, f, sel))
  {
    LatestWishIsPresentable(g, f, TimeBudget, sel);
    LatestWishIsPresentable(g, f, CurrentPriority, sel);
    LatestWishIsPresentable(g, f, ReturnAnchor, sel);
    LatestGradeIsPositive(g, f, sel);
  }

  // ---- The program -------------------------------------------------------------------------

  /** What the saved rows must satisfy before anything is derived from them. */
  predicate Sound(f: Formation) {
    && (forall i :: 0 <= i < |f.events| ==> f.events[i].id > 0)
    && (forall i, j :: 0 <= i < j < |f.events| ==> f.events[i].id != f.events[j].id)
    && PositiveId(f.scope.learner) && PositiveId(f.scope.project) && PositiveId(f.scope.checkpoint)
    && PositiveId(f.scope.session)
    && Owned(f.scope, f).None?
  }

  /** A list of available ids must be positive and free of duplicates. */
  predicate SoundIds(ids: seq<int>) {
    (forall i :: 0 <= i < |ids| ==> ids[i] > 0) && forall i, j :: 0 <= i < j < |ids| ==> ids[i] != ids[j]
  }

  function SelectionOf(available: Option<seq<int>>): Selection {
    if available.None? then Everything else Only(set id | id in available.value)
  }

  lemma LatestNext(items: seq<Item>, item: Item, topic: Topic, sel: Selection)
    ensures
      var prior := Latest(items, topic, sel);
      Latest(items + [item], topic, sel)
      == if Eligible(item, topic, sel) && (prior.None? || Before(prior.value.stamp, item.stamp)) then Some(item) else prior
  {
    assert (items + [item])[..|items|] == items;
  }

  lemma LastSplits(a: seq<Item>, more: seq<Item>)
    requires more != []
    ensures a + more == (a + more[..|more| - 1]) + [more[|more| - 1]]
  {
  }

  /** Appending the same items keeps two latest items equal, if both selections treat them alike. */
  lemma {:induction false} LatestOfBoth(a: seq<Item>, b: seq<Item>, more: seq<Item>, topic: Topic, s: Selection, t: Selection)
    requires Latest(a, topic, s) == Latest(b, topic, t)
    requires forall x :: x in more ==> (Eligible(x, topic, s) <==> Eligible(x, topic, t))
    ensures Latest(a + more, topic, s) == Latest(b + more, topic, t)
    decreases |more|
  {
    if more == [] {
      assert a + more == a && b + more == b;
    } else {
      var n := |more| - 1;
      LatestOfBoth(a, b, more[..n], topic, s, t);
      LastSplits(a, more);
      LastSplits(b, more);
      LatestNext(a + more[..n], more[n], topic, s);
      LatestNext(b + more[..n], more[n], topic, t);
      assert more[n] in more;
    }
  }

  lemma {:induction false} LatestIgnores(a: seq<Item>, more: seq<Item>, topic: Topic, s: Selection)
    requires forall x :: x in more ==> !Eligible(x, topic, s)
    ensures Latest(a + more, topic, s) == Latest(a, topic, s)
    decreases |more|
  {
    if more == [] {
      assert a + more == a;
    } else {
      var n := |more| - 1;
      LatestIgnores(a, more[..n], topic, s);
      LastSplits(a, more);
      LatestNext(a + more[..n], more[n], topic, s);
      assert more[n] in more;
    }
  }

  /** The three lists the program collects show the same latest items as the whole evidence. */
  ghost predicate Collected(grades: seq<Item>, reports: seq<Item>, wishes: seq<Item>, items: seq<Item>, sel: Selection) {
    && Latest(grades, Grades, Everything) == Latest(items, Grades, sel)
    && Latest(reports, Reports, Everything) == Latest(items, Reports, sel)
    && forall slot :: Latest(wishes, Requested(slot), Everything) == Latest(items, Requested(slot), sel)
  }

  predicate Uniform(items: seq<Item>, topic: Topic) {
    forall x :: x in items ==> TopicOf(x) == topic
  }

  lemma CollectEvent(grades: seq<Item>, reports: seq<Item>, wishes: seq<Item>, items: seq<Item>, sel: Selection,
                     more: seq<Item>, id: int)
    requires Collected(grades, reports, wishes, items, sel)
    requires forall x :: x in more ==> x.stamp.event == id
    ensures !Allows(sel, id) ==> Collected(grades, reports, wishes, items + more, sel)
    ensures Allows(sel, id) && Uniform(more, Grades) ==> Collected(grades + more, reports, wishes, items + more, sel)
    ensures Allows(sel, id) && Uniform(more, Reports) ==> Collected(grades, reports + more, wishes, items + more, sel)
    ensures Allows(sel, id) && (forall x :: x in more ==> x.Wanted?) ==>
      Collected(grades, reports, wishes + more, items + more, sel)
  {
    if !Allows(sel, id) {
      LatestIgnores(items, more, Grades, sel);
      LatestIgnores(items, more, Reports, sel);
      forall slot {
        LatestIgnores(items, more, Requested(slot), sel);
      }
    } else {
      AllowedEvent(grades, reports, wishes, items, sel, more, id);
    }
  }

  lemma AllowedEvent(grades: seq<Item>, reports: seq<Item>, wishes: seq<Item>, items: seq<Item>, sel: Selection,
                     more: seq<Item>, id: int)
    requires Collected(grades, reports, wishes, items, sel)
    requires Allows(sel, id) && forall x :: x in more ==> x.stamp.event == id
    ensures Uniform(more, Grades) ==> Collected(grades + more, reports, wishes, items + more, sel)
    ensures Uniform(more, Reports) ==> Collected(grades, reports + more, wishes, items + more, sel)
    ensures (forall x :: x in more ==> x.Wanted?) ==> Collected(grades, reports, wishes + more, items + more, sel)
  {
    LatestOfBoth(grades, items, more, Grades, Everything, sel);
    LatestOfBoth(reports, items, more, Reports, Everything, sel);
    forall slot {
      LatestOfBoth(wishes, items, more, Requested(slot), Everything, sel);
    }
    if Uniform(more, Grades) || forall x :: x in more ==> x.Wanted? {
      LatestIgnores(items, more, Reports, sel);
    }
    if Uniform(more, Reports) || forall x :: x in more ==> x.Wanted? {
      LatestIgnores(items, more, Grades, sel);
    }
    if Uniform(more, Grades) || Uniform(more, Reports) {
      forall slot {
        LatestIgnores(items, more, Requested(slot), sel);
      }
    }
  }

  /** max(..., key=...) over items of one topic. */
  method MaxByStamp(items: seq<Item>, ghost topic: Topic) returns (latest: Option<Item>)
    requires Uniform(items, topic)
    ensures latest == Latest(items, topic, Everything)
  {
    latest := None;
    for i := 0 to |items|
      invariant latest == Latest(items[..i], topic, Everything)
    {
      assert items[..i + 1][..i] == items[..i];
      assert items[i] in items;
      if latest.None? || Before(latest.value.stamp, items[i].stamp) {
        latest := Some(items[i]);
      }
    }
    assert items[..|items|] == items;
  }

  function InSlot(bySlot: map<Slot, Item>, slot: Slot): Option<Item> {
    if slot in bySlot then Some(bySlot[slot]) else None
  }

  /** The latest request in each slot; equal stamps keep the earlier one. */
  method BySlot(wishes: seq<Item>) returns (bySlot: map<Slot, Item>)
    requires forall x :: x in wishes ==> x.Wanted?
    ensures forall slot :: InSlot(bySlot, slot) == Latest(wishes, Requested(slot), Everything)
  {
    bySlot := map[];
    for i := 0 to |wishes|
      invariant forall slot :: InSlot(bySlot, slot) == Latest(wishes[..i], Requested(slot), Everything)
    {
      assert wishes[..i + 1][..i] == wishes[..i];
      assert wishes[i] in wishes;
      var slot := wishes[i].control.slot;
      if slot !in bySlot || Before(bySlot[slot].stamp, wishes[i].stamp) {
        bySlot := bySlot[slot := wishes[i]];
      }
    }
    assert wishes[..|wishes|] == wishes;
  }

  /** The rows set aside, with the reason each was set aside for. */
  function ExcludedRows(g: Grammar, f: Formation, n: nat): seq<(int, Problem)>
    requires n <= |f.events|
  {
    if n == 0 then []
    else
      ExcludedRows(g, f, n - 1) +
      (match Classify(g, f, f.events[n - 1]) case Excluded(why) => [(f.events[n - 1].id, why)] case Counts(_) => [])
  }

  ghost predicate Lists(grades: seq<Item>, reports: seq<Item>, wishes: seq<Item>) {
    Uniform(grades, Grades) && Uniform(reports, Reports) && forall x :: x in wishes ==> x.Wanted?
  }

  lemma OneKindPerEvent(g: Grammar, f: Formation, e: Event)
    requires Classify(g, f, e).Counts?
    ensures
      var items := Classify(g, f, e).items;
      && (forall x :: x in items ==> x.stamp.event == e.id)
      && (e.kind.TeachingInput? ==> forall x :: x in items ==> x.Wanted?)
      && (e.kind.ConceptEvaluated? || e.kind.ExerciseEvaluated? ==> Uniform(items, Grades))
      && (e.kind.Observation? ==> Uniform(items, Reports))
      && (e.kind.UserMessage? || e.kind.OtherKind? ==> items == [])
  {
    forall x | x in Classify(g, f, e).items
      ensures x.stamp.event == e.id
    {
      ItemsOfEvent(g, f, e, x);
    }
  }

  /** Files the items of one selected event under their kind. */
  method FileItems(e: Event, items: seq<Item>, grades: seq<Item>, reports: seq<Item>, wishes: seq<Item>,
                   ghost all: seq<Item>, ghost sel: Selection)
    returns (grades': seq<Item>, reports': seq<Item>, wishes': seq<Item>)
    requires Lists(grades, reports, wishes) && Collected(grades, reports, wishes, all, sel)
    requires Allows(sel, e.id) && forall x :: x in items ==> x.stamp.event == e.id
    requires e.kind.TeachingInput? ==> forall x :: x in items ==> x.Wanted?
    requires e.kind.ConceptEvaluated? || e.kind.ExerciseEvaluated? ==> Uniform(items, Grades)
    requires e.kind.Observation? ==> Uniform(items, Reports)
    requires e.kind.UserMessage? || e.kind.OtherKind? ==> items == []
    ensures Lists(grades', reports', wishes') && Collected(grades', reports', wishes', all + items, sel)
  {
    CollectEvent(grades, reports, wishes, all, sel, items, e.id);
    grades', reports', wishes' := grades, reports, wishes;
    match e.kind {
      case ConceptEvaluated => grades' := grades + items;
      case ExerciseEvaluated => grades' := grades + items;
      case Observation => reports' := reports + items;
      case TeachingInput => wishes' := wishes + items;
      case _ =>
        assert all + items == all;
    }
  }

  lemma ItemsNext(g: Grammar, f: Formation, n: nat)
    requires n < |f.events|
    ensures
      match Classify(g, f, f.events[n])
      case Excluded(problem) =>
        Items(g, f, n + 1) == Items(g, f, n) && ExcludedRows(g, f, n + 1) == ExcludedRows(g, f, n) + [(f.events[n].id, problem)]
      case Counts(items) =>
        Items(g, f, n + 1) == Items(g, f, n) + items && ExcludedRows(g, f, n + 1) == ExcludedRows(g, f, n)
  {
  }

  /** What one event adds to the lists. */
  method CollectItems(g: Grammar, f: Formation, sel: Selection, e: Event, items: seq<Item>,
                      grades: seq<Item>, reports: seq<Item>, wishes: seq<Item>, ghost all: seq<Item>)
    returns (grades': seq<Item>, reports': seq<Item>, wishes': seq<Item>)
    requires Classify(g, f, e) == Counts(items)
    requires Lists(grades, reports, wishes) && Collected(grades, reports, wishes, all, sel)
    ensures Lists(grades', reports', wishes') && Collected(grades', reports', wishes', all + items, sel)
  {
    OneKindPerEvent(g, f, e);
    if Allows(sel, e.id) {
      grades', reports', wishes' := FileItems(e, items, grades, reports, wishes, all, sel);
    } else {
      grades', reports', wishes' := grades, reports, wishes;
      CollectEvent(grades, reports, wishes, all, sel, items, e.id);
    }
  }

  /** One pass over the saved events, sorting what counts by kind and setting the rest aside. */
  method Collect(g: Grammar, f: Formation, sel: Selection)
    returns (grades: seq<Item>, reports: seq<Item>, wishes: seq<Item>, valid: set<int>, excluded: seq<(int, Problem)>)
    ensures Lists(grades, reports, wishes)
    ensures Collected(grades, reports, wishes, Items(g, f, |f.events|), sel)
    ensures valid == ValidIds(g, f) && excluded == ExcludedRows(g, f, |f.events|)
  {
    grades, reports, wishes, valid, excluded := [], [], [], {}, [];
    for i := 0 to |f.events|
      invariant Lists(grades, reports, wishes)
      invariant Collected(grades, reports, wishes, Items(g, f, i), sel)
      invariant valid == ValidUpTo(g, f, i)
      invariant excluded == ExcludedRows(g, f, i)
    {
      var e := f.events[i];
      ValidUpToNext(g, f, i);
      ItemsNext(g, f, i);
      var class' := Classify(g, f, e);
      if class'.Excluded? {
        excluded := excluded + [(e.id, class'.problem)];
      } else {
        valid := valid + {e.id};
        grades, reports, wishes := CollectItems(g, f, sel, e, class'.items, grades, reports, wishes, Items(g, f, i));
      }
    }
    assert f.events[..|f.events|] == f.events;
  }

  function ValidUpTo(g: Grammar, f: Formation, n: nat): set<int>
    requires n <= |f.events|
  {
    set e | e in f.events[..n] && Classify(g, f, e).Counts? :: e.id
  }

  lemma ValidUpToNext(g: Grammar, f: Formation, n: nat)
    requires n < |f.events|
    ensures ValidUpTo(g, f, n + 1)
         == ValidUpTo(g, f, n) + if Classify(g, f, f.events[n]).Counts? then {f.events[n].id} else {}
  {
    assert f.events[..n + 1] == f.events[..n] + [f.events[n]];
  }
}
