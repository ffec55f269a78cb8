/** Scoring an answer against the derived reference
    (evals/education_memory_counterfactual/verifier.py: _equal, _schema_errors, _score, score_output,
    score_pair). */
module Scoring {
  import opened Options
  import opened Reference
  import opened Derivation
  import opened Sources

  datatype Value = Null | Bool(b: bool) | Int(n: int) | Text(s: string) | List(items: seq<Value>) | Other

  datatype Key = Named(field: FieldName) | Citations | Stray(name: string)

  datatype Output = NotAnObject | Object(fields: map<Key, Value>)

  // ---- The reference as an answer ----------------------------------------------------------

  function ResultText(v: Verdict): string {
    match v
    case Correct => "correct"
    case Incorrect => "incorrect"
    case NoResult => "none"
  }

  function HelpText(h: Help): string {
    match h
    case Independent => "independent"
    case Supported => "supported"
    case Unknown => "unknown"
  }

  function StepText(s: NextStep): string {
    match s
    case DiagnoseError => "diagnose_error"
    case ReduceHelpThenCheck => "reduce_help_then_check"
    case IndependentCheck => "independent_check"
    case ClarifyHelp => "clarify_help"
    case CollectEvidence => "collect_evidence"
  }

  function TextOrNull(s: Option<string>): Value {
    if s.None? then Null else Text(s.value)
  }

  function IntOrNull(n: Option<int>): Value {
    if n.None? then Null else Int(n.value)
  }

  function ValueOf(x: Expected, field: FieldName): Value {
    match field
    case LatestResult => Text(ResultText(x.result))
    case LatestAssistance => Text(HelpText(x.help))
    case AssessmentEventId => IntOrNull(x.assessment)
    case IndependentSuccess => Bool(x.independentSuccess)
    case StableMastery => Bool(x.stableMastery)
    case Priority => TextOrNull(x.priority)
    case Minutes => IntOrNull(x.minutes)
    case SupportActive => Bool(x.support)
    case Anchor => TextOrNull(x.anchor)
    case Next => Text(StepText(x.nextStep))
  }

  const KEYS: set<Key> := (set field | field in FIELDS :: Named(field)) + {Citations}

  // ---- The schema --------------------------------------------------------------------------

  datatype SchemaError = Missing(key: Key) | Unexpected(key: Key) | Invalid(key: Key) | OutputNotObject

  predicate FitsField(field: FieldName, v: Value) {
    match field
    case LatestResult => v in {Text("correct"), Text("incorrect"), Text("none")}
    case LatestAssistance => v in {Text("independent"), Text("supported"), Text("unknown")}
    case Next => v in {Text("diagnose_error"), Text("reduce_help_then_check"), Text("independent_check"),
                       Text("clarify_help"), Text("collect_evidence")}
    case IndependentSuccess => v.Bool?
    case StableMastery => v.Bool?
    case SupportActive => v.Bool?
    case Priority => v.Null? || (v.Text? && Trim(v.s) != "")
    case Anchor => v.Null? || (v.Text? && Trim(v.s) != "")
    case AssessmentEventId => v.Null? || (v.Int? && v.n > 0)
    case Minutes => v.Null? || (v.Int? && 1 <= v.n <= 480)
  }

  /** A list of distinct positive ids, and nothing else. */
  predicate CitationShape(v: Value) {
    v.List? && (forall i :: 0 <= i < |v.items| ==> v.items[i].Int? && v.items[i].n > 0)
    && forall i, j :: 0 <= i < j < |v.items| ==> v.items[i] != v.items[j]
  }

  function SchemaErrors(output: Output): set<SchemaError> {
    if output.NotAnObject? then {OutputNotObject}
    else
      var fields := output.fields;
      (set key | key in KEYS && key !in fields :: Missing(key))
      + (set key | key in fields && key !in KEYS :: Unexpected(key))
      + (set field | field in FIELDS && Named(field) in fields && !FitsField(field, fields[Named(field)]) :: Invalid(Named(field)))
      + (if Citations in fields && CitationShape(fields[Citations]) then {} else {Invalid(Citations)})
  }

  // ---- The score ---------------------------------------------------------------------------

  datatype Score = Score(
    errors: set<SchemaError>, correct: set<FieldName>, citationValid: bool, covered: set<int>, complete: bool, whole: bool,
    obligation: bool, unsupportedIndependent: bool, unsupportedStable: bool, falseAbstention: bool)

  function FieldsOf(output: Output): map<Key, Value> {
    if output.Object? then output.fields else map[]
  }

  function CitedIn(values: map<Key, Value>): set<int> {
    if Citations in values && CitationShape(values[Citations]) then
      set v | v in values[Citations].items && v.Int? :: v.n
    else {}
  }

  function Get(values: map<Key, Value>, field: FieldName): Value {
    if Named(field) in values then values[Named(field)] else Null
  }

  function ScoreAgainst(output: Output, x: Expected, valid: set<int>, available: set<int>): Score {
    var values := FieldsOf(output);
    var errors := SchemaErrors(output);
    var correct := set field | field in FIELDS && Named(field) in values && values[Named(field)] == ValueOf(x, field);
    var shape := Citations in values && CitationShape(values[Citations]);
    var cited, usable := CitedIn(values), valid * available;
    var ref := Get(values, AssessmentEventId);
    var citationValid := shape && cited <= usable &&
                         (ref.Null? || (ref.Int? && ref.n > 0 && ref.n in usable && ref.n in cited));
    var covered := x.evidence * cited * usable;
    var complete := citationValid && covered == x.evidence;
    Score(
      errors, correct, citationValid, covered, complete,
      errors == {} && correct == FIELDS && complete,
      Next in correct && AssessmentEventId in correct && complete && errors == {},
      (Get(values, IndependentSuccess) == Bool(true) && !x.independentSuccess)
        || (Get(values, LatestAssistance) == Text("independent") && !x.help.Independent?),
      Get(values, StableMastery) == Bool(true),
      x.assessment.Some? && (Get(values, Next) == Text("collect_evidence") || Get(values, LatestResult) == Text("none") || ref.Null?))
  }

  datatype Scored = Unscorable | Scored(full: Score, conditional: Score, selectionValid: bool)

  function Voided(s: Score): Score {
    s.(whole := false, obligation := false)
  }

  /** End to end against all evidence, and conditional on what was delivered. */
  function ScoreOutput(g: Grammar, f: Formation, output: Output, available: Option<seq<int>>): Scored {
    if !Sound(f) || (available.Some? && !SoundIds(available.value)) then Unscorable
    else
      var valid, sel := ValidIds(g, f), SelectionOf(available);
      var ids := if sel.Everything? then valid else sel.ids;
      var selectionValid := sel.Everything? || sel.ids <= valid;
      var full := ScoreAgainst(output, Derive(g, f, Everything), valid, ids);
      var conditional := ScoreAgainst(output, Derive(g, f, sel), valid, ids);
      if selectionValid then Scored(full, conditional, true) else Scored(Voided(full), Voided(conditional), false)
  }

  /** What a reader would call a right answer: exactly the declared fields, each equal to the
      reference, and a duplicate-free list of usable ids that holds every required one. */
  ghost predicate Exact(output: Output, x: Expected, usable: set<int>) {
    && output.Object? && output.fields.Keys == KEYS
    && (forall field :: field in FIELDS ==> output.fields[Named(field)] == ValueOf(x, field))
    && CitationShape(output.fields[Citations])
    && x.evidence <= CitedIn(output.fields) <= usable
  }

  lemma ReferenceFitsFields(x: Expected, field: FieldName)
    requires Presentable(x)
    ensures FitsField(field, ValueOf(x, field))
  {
  }

  lemma ExactHasNoErrors(output: Output, x: Expected, usable: set<int>)
    requires Presentable(x) && Exact(output, x, usable)
    ensures SchemaErrors(output) == {}
  {
    forall field | field in FIELDS
      ensures FitsField(field, output.fields[Named(field)])
    {
      ReferenceFitsFields(x, field);
    }
  }

  lemma NoErrorsMeansDeclaredFields(output: Output)
    requires SchemaErrors(output) == {}
    ensures output.Object? && output.fields.Keys == KEYS && CitationShape(output.fields[Citations])
  {
    forall key | key in KEYS
      ensures key in output.fields
    {
      assert Missing(key) !in SchemaErrors(output);
    }
    forall key | key in output.fields
      ensures key in KEYS
    {
      assert Unexpected(key) !in SchemaErrors(output);
    }
    assert Invalid(Citations) !in SchemaErrors(output);
  }

  /** A whole record is an exact answer, and the other way round. */
  lemma WholeRecordIffExact(output: Output, x: Expected, valid: set<int>, available: set<int>)
    requires Presentable(x) && (x.assessment.Some? ==> x.assessment.value in x.evidence)
    ensures ScoreAgainst(output, x, valid, available).whole <==> Exact(output, x, valid * available)
  {
    var score := ScoreAgainst(output, x, valid, available);
    if score.whole {
      NoErrorsMeansDeclaredFields(output);
      assert forall field :: field in FIELDS ==> field in score.correct;
      assert forall id :: id in x.evidence ==> id in score.covered;
    }
    if Exact(output, x, valid * available) {
      ExactHasNoErrors(output, x, valid * available);
      assert score.correct == FIELDS;
      assert Get(output.fields, AssessmentEventId) == ValueOf(x, AssessmentEventId);
      assert score.covered == x.evidence;
    }
  }

  // ---- What the reported scores mean -------------------------------------------------------

  lemma AssessmentIsCited(g: Grammar, f: Formation, sel: Selection)
    ensures
      var x := Derive(g, f, sel);
      x.assessment.Some? ==> x.assessment.value in x.evidence
  {
    var v := ViewOf(Items(g, f, |f.events|), sel);
    CitedAre(v, f.at);
  }

  /** The ids a score may rely on. */
  ghost function Usable(g: Grammar, f: Formation, available: Option<seq<int>>): set<int> {
    if available.None? then ValidIds(g, f) else ValidIds(g, f) * SelectionOf(available).ids
  }

  lemma WholeAgainst(g: Grammar, f: Formation, output: Output, sel: Selection, ids: set<int>)
    requires Proper(g) && forall e :: e in f.events ==> e.id > 0
    ensures ScoreAgainst(output, Derive(g, f, sel), ValidIds(g, f), ids).whole
      <==> Exact(output, Derive(g, f, sel), ValidIds(g, f) * ids)
  {
    ReferenceIsPresentable(g, f, sel);
    AssessmentIsCited(g, f, sel);
    WholeRecordIffExact(output, Derive(g, f, sel), ValidIds(g, f), ids);
  }

  /** A scored answer is whole-record correct exactly when it is exact and the selection is valid. */
  lemma WholeRecordIffExactAnswer(g: Grammar, f: Formation, output: Output, available: Option<seq<int>>)
    requires Proper(g) && ScoreOutput(g, f, output, available).Scored?
    ensures
      var s := ScoreOutput(g, f, output, available);
      && (s.full.whole <==>
           s.selectionValid && Exact(output, Derive(g, f, Everything), Usable(g, f, available)))
      && (s.conditional.whole <==>
           s.selectionValid && Exact(output, Derive(g, f, SelectionOf(available)), Usable(g, f, available)))
  {
    var valid := ValidIds(g, f);
    var ids := if available.None? then valid else SelectionOf(available).ids;
    assert valid * ids == Usable(g, f, available);
    assert forall e :: e in f.events ==> e.id > 0;
    WholeAgainst(g, f, output, Everything, ids);
    WholeAgainst(g, f, output, SelectionOf(available), ids);
  }

  /** The reference written out as an answer, its citations in any order. */
  function Answer(x: Expected, citations: seq<Value>): Output {
    Object((map field | field in FIELDS :: Named(field) := ValueOf(x, field)) + map[Citations := List(citations)])
  }

  /** The reference scores perfectly against itself whenever its own evidence was delivered. */
  lemma ReferenceScoresPerfectly(g: Grammar, f: Formation, citations: seq<Value>, available: Option<seq<int>>)
    requires Proper(g)
    requires CitationShape(List(citations))
    requires (set v | v in citations && v.Int? :: v.n) == Derive(g, f, Everything).evidence
    requires ScoreOutput(g, f, Answer(Derive(g, f, Everything), citations), available).Scored?
    requires ScoreOutput(g, f, Answer(Derive(g, f, Everything), citations), available).selectionValid
    ensures
      var x := Derive(g, f, Everything);
      ScoreOutput(g, f, Answer(x, citations), available).full.whole <==> x.evidence <= Usable(g, f, available)
  {
    AnswerIsExact(Derive(g, f, Everything), citations, Usable(g, f, available));
    WholeRecordIffExactAnswer(g, f, Answer(Derive(g, f, Everything), citations), available);
  }

  /** When nothing was delivered, no answer is whole that had to cite anything, the reference included. */
  lemma NothingDeliveredIsNotWhole(g: Grammar, f: Formation, output: Output)
    requires Sound(f) && Derive(g, f, Everything).evidence != {}
    ensures
      var s := ScoreOutput(g, f, output, Some([]));
      s.Scored? && s.selectionValid && !s.full.whole
  {
  }

  const PLACE := Scope(Some(1), Some(1), Some(1), Some(1))

  /** One saved observation, and nothing else. */
  const OBSERVED := Formation(
    PLACE, 0,
    [Event(1, PLACE, Some(0), Observation, "user", "learner", false, true, "",
           Some(Payload(None, None, None, None, None, Unstated, Absent, None, Some("a"))))],
    map[], map[1 := Some(1)], map[1 := Some(1)], map[1 := Some(1)], map[1 := Session(Some(1), Some(1), Some(1))], map[], map[])

  lemma ObservationIsCited(g: Grammar)
    ensures Sound(OBSERVED) && Derive(g, OBSERVED, Everything).evidence == {1}
  {
    var e := OBSERVED.events[0];
    KeepsText("a");
    assert SourceProblem(e, OBSERVED).None?;
    assert Classify(g, OBSERVED, e) == Counts([Reported(Stamp(0, 1, 0))]);
    assert Items(g, OBSERVED, 0) == [];
    assert Items(g, OBSERVED, 1) == [Reported(Stamp(0, 1, 0))];
    OneReportIsCited(Items(g, OBSERVED, 1));
  }

  lemma OneReportIsCited(items: seq<Item>)
    requires items == [Reported(Stamp(0, 1, 0))]
    ensures Cited(ViewOf(items, Everything), 0) == {1}
  {
    LatestOfOne(items[0], Grades);
    LatestOfOne(items[0], Reports);
    LatestOfOne(items[0], Requested(TimeBudget));
    LatestOfOne(items[0], Requested(CurrentPriority));
    LatestOfOne(items[0], Requested(ReturnAnchor));
    LatestOfOne(items[0], Requested(Support));
    CitedAre(ViewOf(items, Everything), 0);
  }

  lemma LatestOfOne(item: Item, topic: Topic)
    ensures Latest([item], topic, Everything) == if TopicOf(item) == topic then Some(item) else None
  {
    assert [item][..0] == [];
  }

  /** There is a history, and a valid selection from it, for which the reference itself is not whole. */
  lemma UndeliveredReferenceIsNotWhole(g: Grammar)
    ensures
      var x := Derive(g, OBSERVED, Everything);
      var s := ScoreOutput(g, OBSERVED, Answer(x, [Int(1)]), Some([]));
      && Sound(OBSERVED) && CitationShape(List([Int(1)])) && x.evidence == {1}
      && s.Scored? && s.selectionValid && !s.full.whole
  {
    ObservationIsCited(g);
    NothingDeliveredIsNotWhole(g, OBSERVED, Answer(Derive(g, OBSERVED, Everything), [Int(1)]));
  }

  lemma AnswerIsExact(x: Expected, citations: seq<Value>, usable: set<int>)
    requires CitationShape(List(citations))
    requires (set v | v in citations && v.Int? :: v.n) == x.evidence
    ensures Exact(Answer(x, citations), x, usable) <==> x.evidence <= usable
  {
    var fields := Answer(x, citations).fields;
    assert fields.Keys == KEYS;
    assert fields[Citations] == List(citations);
    assert CitedIn(fields) == x.evidence;
  }

  /** A whole record is right on every other count as well, and stays whole when it is judged on
      the delivered evidence only. */
  lemma WholeRecordIsRightThroughout(g: Grammar, f: Formation, output: Output, available: Option<seq<int>>)
    requires Proper(g) && ScoreOutput(g, f, output, available).Scored?
    requires ScoreOutput(g, f, output, available).full.whole
    ensures
      var s := ScoreOutput(g, f, output, available);
      && s.conditional == s.full
      && s.full.errors == {} && s.full.correct == FIELDS && s.full.obligation
      && !s.full.unsupportedIndependent && !s.full.unsupportedStable && !s.full.falseAbstention
      && Derive(g, f, SelectionOf(available)) == Derive(g, f, Everything)
  {
    WholeRecordIffExactAnswer(g, f, output, available);
    CitedEvidenceSuffices(g, f, Everything, SelectionOf(available));
    ReferenceIsConsistent(g, f);
    var ids := if available.None? then ValidIds(g, f) else SelectionOf(available).ids;
    WholeScoreIsRight(output, Derive(g, f, Everything), ValidIds(g, f), ids);
  }

  lemma WholeScoreIsRight(output: Output, x: Expected, valid: set<int>, available: set<int>)
    requires !x.stableMastery && (x.independentSuccess ==> x.help.Independent?)
    requires x.assessment.Some? ==> !x.result.NoResult? && !x.nextStep.CollectEvidence?
    requires ScoreAgainst(output, x, valid, available).whole
    ensures
      var s := ScoreAgainst(output, x, valid, available);
      && s.errors == {} && s.correct == FIELDS && s.obligation
      && !s.unsupportedIndependent && !s.unsupportedStable && !s.falseAbstention
  {
    WholeScoreIsComplete(output, x, valid, available);
    WholeScoreClaimsNothingElse(output, x, valid, available);
    WholeScoreDoesNotAbstain(output, x, valid, available);
  }

  lemma WholeScoreClaimsNothingElse(output: Output, x: Expected, valid: set<int>, available: set<int>)
    requires !x.stableMastery && (x.independentSuccess ==> x.help.Independent?)
    requires ScoreAgainst(output, x, valid, available).whole
    ensures
      var s := ScoreAgainst(output, x, valid, available);
      !s.unsupportedIndependent && !s.unsupportedStable
  {
    WholeScoreGetsEveryField(output, x, valid, available);
    assert Get(FieldsOf(output), IndependentSuccess) == ValueOf(x, IndependentSuccess);
    assert Get(FieldsOf(output), StableMastery) == ValueOf(x, StableMastery);
    assert Get(FieldsOf(output), LatestAssistance) == ValueOf(x, LatestAssistance);
  }

  lemma TextsTell(x: Expected)
    ensures ValueOf(x, Next) == Text("collect_evidence") ==> x.nextStep.CollectEvidence?
    ensures ValueOf(x, LatestResult) == Text("none") ==> x.result.NoResult?
    ensures ValueOf(x, AssessmentEventId).Null? ==> x.assessment.None?
  {
  }

  lemma WholeScoreDoesNotAbstain(output: Output, x: Expected, valid: set<int>, available: set<int>)
    requires x.assessment.Some? ==> !x.result.NoResult? && !x.nextStep.CollectEvidence?
    requires ScoreAgainst(output, x, valid, available).whole
    ensures !ScoreAgainst(output, x, valid, available).falseAbstention
  {
    WholeScoreGetsEveryField(output, x, valid, available);
    TextsTell(x);
    assert Get(FieldsOf(output), Next) == ValueOf(x, Next);
    assert Get(FieldsOf(output), LatestResult) == ValueOf(x, LatestResult);
    assert Get(FieldsOf(output), AssessmentEventId) == ValueOf(x, AssessmentEventId);
  }

  lemma WholeScoreIsComplete(output: Output, x: Expected, valid: set<int>, available: set<int>)
    requires ScoreAgainst(output, x, valid, available).whole
    ensures
      var s := ScoreAgainst(output, x, valid, available);
      s.errors == {} && s.correct == FIELDS && s.obligation
  {
    assert Next in FIELDS && AssessmentEventId in FIELDS;
  }

  lemma WholeScoreGetsEveryField(output: Output, x: Expected, valid: set<int>, available: set<int>)
    requires ScoreAgainst(output, x, valid, available).whole
    ensures forall field :: field in FIELDS ==> Get(FieldsOf(output), field) == ValueOf(x, field)
  {
    forall field | field in FIELDS
      ensures Get(FieldsOf(output), field) == ValueOf(x, field)
    {
      assert field in ScoreAgainst(output, x, valid, available).correct;
    }
  }

  /** No reference claims stable mastery, or independent success without independence. */
  lemma ReferenceIsConsistent(g: Grammar, f: Formation)
    ensures
      var x := Derive(g, f, Everything);
      && !x.stableMastery && (x.independentSuccess ==> x.help.Independent?)
      && (x.assessment.Some? ==> !x.result.NoResult? && !x.nextStep.CollectEvidence?)
  {
  }

  // ---- Scores field by field ---------------------------------------------------------------

  ghost predicate States(output: Output, field: FieldName, v: Value) {
    output.Object? && Named(field) in output.fields && output.fields[Named(field)] == v
  }

  /** The answer's field says in the words of the schema what the reference says. */
  ghost predicate Right(output: Output, x: Expected, field: FieldName) {
    match field
    case LatestResult =>
      match x.result {
        case Correct => States(output, field, Text("correct"))
        case Incorrect => States(output, field, Text("incorrect"))
        case NoResult => States(output, field, Text("none"))
      }
    case LatestAssistance =>
      match x.help {
        case Independent => States(output, field, Text("independent"))
        case Supported => States(output, field, Text("supported"))
        case Unknown => States(output, field, Text("unknown"))
      }
    case AssessmentEventId => if x.assessment.Some? then States(output, field, Int(x.assessment.value)) else States(output, field, Null)
    case IndependentSuccess => States(output, field, Bool(x.independentSuccess))
    case StableMastery => States(output, field, Bool(x.stableMastery))
    case Priority => if x.priority.Some? then States(output, field, Text(x.priority.value)) else States(output, field, Null)
    case Minutes => if x.minutes.Some? then States(output, field, Int(x.minutes.value)) else States(output, field, Null)
    case SupportActive => States(output, field, Bool(x.support))
    case Anchor => if x.anchor.Some? then States(output, field, Text(x.anchor.value)) else States(output, field, Null)
    case Next =>
      match x.nextStep {
        case DiagnoseError => States(output, field, Text("diagnose_error"))
        case ReduceHelpThenCheck => States(output, field, Text("reduce_help_then_check"))
        case IndependentCheck => States(output, field, Text("independent_check"))
        case ClarifyHelp => States(output, field, Text("clarify_help"))
        case CollectEvidence => States(output, field, Text("collect_evidence"))
      }
  }

  /** The ids an answer cites, if it cites a list of different positive ids. */
  ghost predicate Cites(output: Output, ids: set<int>) {
    && output.Object? && Citations in output.fields && output.fields[Citations].List?
    && var list := output.fields[Citations].items;
       && (forall i :: 0 <= i < |list| ==> list[i].Int? && list[i].n > 0 && list[i].n in ids)
       && (forall i, j :: 0 <= i < j < |list| ==> list[i] != list[j])
       && forall id :: id in ids ==> exists i :: 0 <= i < |list| && list[i] == Int(id)
  }

  /** All required ids and nothing but usable ones are cited, and the assessment named, if any, among them. */
  ghost predicate CitesWhatItMust(output: Output, x: Expected, usable: set<int>) {
    exists ids ::
      && Cites(output, ids) && x.evidence <= ids <= usable
      && (Named(AssessmentEventId) in output.fields ==>
           || output.fields[Named(AssessmentEventId)].Null?
           || (output.fields[Named(AssessmentEventId)].Int? && output.fields[Named(AssessmentEventId)].n in ids))
  }

  lemma EveryField()
    ensures forall field: FieldName :: field in FIELDS
  {
    forall field: FieldName
      ensures field in FIELDS
    {
      match field
      case LatestResult =>
      case LatestAssistance =>
      case AssessmentEventId =>
      case IndependentSuccess =>
      case StableMastery =>
      case Priority =>
      case Minutes =>
      case SupportActive =>
      case Anchor =>
      case Next =>
    }
  }

  lemma RightIffEqual(output: Output, x: Expected, field: FieldName)
    ensures Right(output, x, field) <==> Named(field) in FieldsOf(output) && FieldsOf(output)[Named(field)] == ValueOf(x, field)
  {
  }

  lemma ShapedCitationsAre(output: Output)
    requires output.Object? && Citations in output.fields && CitationShape(output.fields[Citations])
    ensures Cites(output, CitedIn(output.fields))
  {
    var list := output.fields[Citations].items;
    assert forall i :: 0 <= i < |list| ==> list[i] in list;
    forall id | id in CitedIn(output.fields)
      ensures exists i :: 0 <= i < |list| && list[i] == Int(id)
    {
      var v :| v in list && v.Int? && v.n == id;
      var i :| 0 <= i < |list| && list[i] == v;
    }
  }

  lemma CitesOneSet(output: Output, ids: set<int>)
    requires Cites(output, ids)
    ensures CitationShape(output.fields[Citations]) && ids == CitedIn(output.fields)
  {
    var list := output.fields[Citations].items;
    assert forall i :: 0 <= i < |list| ==> list[i] in list;
    forall id | id in ids
      ensures id in CitedIn(output.fields)
    {
      var i :| 0 <= i < |list| && list[i] == Int(id);
      assert list[i].Int? && list[i].n == id;
    }
    forall id | id in CitedIn(output.fields)
      ensures id in ids
    {
      var v :| v in list && v.Int? && v.n == id;
      var i :| 0 <= i < |list| && list[i] == v;
    }
  }

  lemma CitedInAre(output: Output)
    ensures
      var values := FieldsOf(output);
      if Citations in values && CitationShape(values[Citations]) then Cites(output, CitedIn(values)) else forall ids :: !Cites(output, ids)
    ensures forall ids :: Cites(output, ids) ==> ids == CitedIn(FieldsOf(output))
  {
    var values := FieldsOf(output);
    if Citations in values && CitationShape(values[Citations]) {
      ShapedCitationsAre(output);
    }
    forall ids | Cites(output, ids)
      ensures CitationShape(values[Citations]) && ids == CitedIn(values)
    {
      CitesOneSet(output, ids);
    }
  }

  lemma CompleteIff(output: Output, x: Expected, valid: set<int>, available: set<int>)
    ensures ScoreAgainst(output, x, valid, available).complete <==> CitesWhatItMust(output, x, valid * available)
  {
    var s, values := ScoreAgainst(output, x, valid, available), FieldsOf(output);
    CitedInAre(output);
    if s.complete {
      assert x.evidence <= CitedIn(values);
      assert Cites(output, CitedIn(values));
    }
    if CitesWhatItMust(output, x, valid * available) {
      var ids :| Cites(output, ids) && x.evidence <= ids <= valid * available;
      assert s.covered == x.evidence;
    }
  }

  lemma CorrectAre(output: Output, x: Expected, valid: set<int>, available: set<int>)
    ensures forall field :: field in ScoreAgainst(output, x, valid, available).correct <==> Right(output, x, field)
    ensures ScoreAgainst(output, x, valid, available).correct == FIELDS <==> forall field :: Right(output, x, field)
  {
    var s := ScoreAgainst(output, x, valid, available);
    EveryField();
    forall field
      ensures field in s.correct <==> Right(output, x, field)
    {
      RightIffEqual(output, x, field);
    }
    assert s.correct == FIELDS <==> forall field :: field in FIELDS ==> field in s.correct;
  }

  lemma ClaimsAre(output: Output, x: Expected, valid: set<int>, available: set<int>)
    ensures
      var s := ScoreAgainst(output, x, valid, available);
      && (s.unsupportedIndependent <==>
            || (States(output, IndependentSuccess, Bool(true)) && !x.independentSuccess)
            || (States(output, LatestAssistance, Text("independent")) && !x.help.Independent?))
      && (s.unsupportedStable <==> States(output, StableMastery, Bool(true)))
      && (s.falseAbstention <==>
            && x.assessment.Some?
            && (States(output, Next, Text("collect_evidence")) || States(output, LatestResult, Text("none"))
                || States(output, AssessmentEventId, Null) || output.NotAnObject? || Named(AssessmentEventId) !in output.fields))
  {
  }

  /** A score says which fields of the answer are right, whether its citations are complete, and what else
      is held against it; an invalid selection voids it. */
  ghost predicate Judges(s: Score, output: Output, x: Expected, usable: set<int>, valid: bool) {
    && (forall field :: field in s.correct <==> Right(output, x, field))
    && (s.complete <==> CitesWhatItMust(output, x, usable))
    && (s.errors == {} <==> IsWellFormed(output))
    && (s.whole <==> valid && IsWellFormed(output) && s.complete && forall field :: Right(output, x, field))
    && (s.obligation <==> valid && IsWellFormed(output) && s.complete && Right(output, x, Next) && Right(output, x, AssessmentEventId))
    && (s.unsupportedIndependent <==>
          || (States(output, IndependentSuccess, Bool(true)) && !x.independentSuccess)
          || (States(output, LatestAssistance, Text("independent")) && !x.help.Independent?))
    && (s.unsupportedStable <==> States(output, StableMastery, Bool(true)))
    && (s.falseAbstention <==>
          && x.assessment.Some?
          && (States(output, Next, Text("collect_evidence")) || States(output, LatestResult, Text("none"))
              || States(output, AssessmentEventId, Null) || output.NotAnObject? || Named(AssessmentEventId) !in output.fields))
  }

  lemma ScoreMeans(output: Output, x: Expected, valid: set<int>, available: set<int>)
    ensures
      var s := ScoreAgainst(output, x, valid, available);
      Judges(s, output, x, valid * available, true) && Judges(Voided(s), output, x, valid * available, false)
  {
    CompleteIff(output, x, valid, available);
    CorrectAre(output, x, valid, available);
    ClaimsAre(output, x, valid, available);
    NoErrorsIff(output);
  }

  /** What the schema asks of each field. */
  ghost predicate Fits(output: Output, field: FieldName) {
    && output.Object? && Named(field) in output.fields
    && var v := output.fields[Named(field)];
       match field
       case LatestResult => v == Text("correct") || v == Text("incorrect") || v == Text("none")
       case LatestAssistance => v == Text("independent") || v == Text("supported") || v == Text("unknown")
       case AssessmentEventId => v.Null? || (v.Int? && v.n > 0)
       case IndependentSuccess => v.Bool?
       case StableMastery => v.Bool?
       case Priority => v.Null? || (v.Text? && Trim(v.s) != "")
       case Minutes => v.Null? || (v.Int? && 1 <= v.n <= 480)
       case SupportActive => v.Bool?
       case Anchor => v.Null? || (v.Text? && Trim(v.s) != "")
       case Next =>
         || v == Text("diagnose_error") || v == Text("reduce_help_then_check") || v == Text("independent_check")
         || v == Text("clarify_help") || v == Text("collect_evidence")
  }

  /** The eleven declared fields and no others, each with a value the schema allows. */
  ghost predicate IsWellFormed(output: Output) {
    && output.Object? && (exists ids :: Cites(output, ids))
    && (forall key :: key in output.fields ==> !key.Stray?)
    && forall field :: Fits(output, field)
  }

  lemma NoErrorsIff(output: Output)
    ensures SchemaErrors(output) == {} <==> IsWellFormed(output)
  {
    CitationsFitIff(output);
    if output.Object? {
      ErrorsAre(output);
      FieldsFitIff(output);
    }
  }

  lemma CitationsFitIff(output: Output)
    ensures (exists ids :: Cites(output, ids))
       <==> output.Object? && Citations in output.fields && CitationShape(output.fields[Citations])
  {
    CitedInAre(output);
  }

  lemma FieldsFitIff(output: Output)
    requires output.Object?
    ensures (forall field :: Fits(output, field))
       <==> forall field: FieldName :: Named(field) in output.fields && (field in FIELDS ==> FitsField(field, output.fields[Named(field)]))
  {
    EveryField();
    forall field
      ensures Fits(output, field) <==> Named(field) in output.fields && FitsField(field, output.fields[Named(field)])
    {
    }
  }

  lemma ErrorsAre(output: Output)
    requires output.Object?
    ensures SchemaErrors(output) == {}
       <==> && output.fields.Keys == KEYS && CitationShape(output.fields[Citations])
            && forall field :: field in FIELDS ==> FitsField(field, output.fields[Named(field)])
    ensures output.fields.Keys == KEYS
       <==> Citations in output.fields && (forall field :: Named(field) in output.fields) && forall key :: key in output.fields ==> !key.Stray?
  {
    if SchemaErrors(output) == {} {
      NoErrorsMeansDeclaredFields(output);
      forall field | field in FIELDS
        ensures FitsField(field, output.fields[Named(field)])
      {
        assert Invalid(Named(field)) !in SchemaErrors(output);
      }
    }
    EveryField();
    assert output.fields.Keys == KEYS <==> forall key :: key in output.fields <==> key in KEYS;
  }

  /** The ids of valid events among those that were delivered. */
  ghost predicate AreUsable(g: Grammar, f: Formation, available: Option<seq<int>>, usable: set<int>) {
    forall id :: id in usable <==> (available.None? || id in available.value) && NamesValid(g, f, id)
  }

  ghost predicate NamesValid(g: Grammar, f: Formation, id: int) {
    exists e :: e in f.events && e.id == id && IsValid(g, f, e)
  }

  /** Only valid events are said to be delivered. */
  ghost predicate DeliversValid(g: Grammar, f: Formation, available: Option<seq<int>>) {
    available.Some? ==> forall id :: id in available.value ==> NamesValid(g, f, id)
  }

  /** An answer is scored unless the rows are unsound: against what all rows say and against what the delivered
      ones say, its citations in both cases against what was delivered. */
  lemma ScoreOutputMeans(g: Grammar, f: Formation, output: Output, available: Option<seq<int>>)
    ensures
      var r := ScoreOutput(g, f, output, available);
      && (r.Scored? <==> IsComplete(f) && HasDistinctIds(f) && (available.Some? ==> AreIds(available.value)))
      && (r.Scored? ==>
            && (r.selectionValid <==> DeliversValid(g, f, available))
            && exists all, delivered, sel, usable ::
                 && Says(g, f, Everything, all) && Lets(sel, available) && Says(g, f, sel, delivered)
                 && AreUsable(g, f, available, usable)
                 && Judges(r.full, output, all, usable, r.selectionValid)
                 && Judges(r.conditional, output, delivered, usable, r.selectionValid))
  {
    SoundIff(f);
    if available.Some? {
      SoundIdsIff(available.value);
    }
    var r := ScoreOutput(g, f, output, available);
    if r.Scored? {
      var valid, sel := ValidIds(g, f), SelectionOf(available);
      var ids := if sel.Everything? then valid else sel.ids;
      ReferenceSays(g, f, Everything);
      ReferenceSays(g, f, sel);
      ScoreMeans(output, Derive(g, f, Everything), valid, ids);
      ScoreMeans(output, Derive(g, f, sel), valid, ids);
      DeliveredAreUsable(g, f, available, ids);
      assert Lets(sel, available);
    }
  }

  lemma DeliveredAreUsable(g: Grammar, f: Formation, available: Option<seq<int>>, ids: set<int>)
    requires ids == if available.None? then ValidIds(g, f) else SelectionOf(available).ids
    ensures AreUsable(g, f, available, ValidIds(g, f) * ids)
    ensures DeliversValid(g, f, available) <==> ids <= ValidIds(g, f)
  {
    forall id
      ensures id in ValidIds(g, f) <==> NamesValid(g, f, id)
    {
      ValidIdsName(g, f, id);
    }
    if available.Some? {
      assert forall id :: id in ids <==> id in available.value;
      if DeliversValid(g, f, available) {
        forall id | id in ids
          ensures id in ValidIds(g, f)
        {
          assert NamesValid(g, f, id);
        }
      }
    }
  }

  lemma ValidIdsName(g: Grammar, f: Formation, id: int)
    ensures id in ValidIds(g, f) <==> NamesValid(g, f, id)
  {
    EventsAreSplit(g, f);
  }

  // ---- Pairs -------------------------------------------------------------------------------

  const SEMANTIC := FIELDS - {AssessmentEventId}

  function Agrees(output: Output, x: Expected, field: FieldName): bool {
    Named(field) in FieldsOf(output) && FieldsOf(output)[Named(field)] == ValueOf(x, field)
  }

  datatype Pair = UnscorablePair | Pair(changed: set<FieldName>, invariant': set<FieldName>, checks: set<FieldName>, joint: bool)

  function PairOf(xa: Expected, outA: Output, wholeA: bool, xb: Expected, outB: Output, wholeB: bool): Pair {
    var changed := set field | field in SEMANTIC && ValueOf(xa, field) != ValueOf(xb, field);
    var checks := set field | field in SEMANTIC && Agrees(outA, xa, field) && Agrees(outB, xb, field);
    Pair(changed, SEMANTIC - changed, checks, wholeA && wholeB && checks == SEMANTIC)
  }

  function ScorePair(g: Grammar, a: Formation, outA: Output, availableA: Option<seq<int>>,
                     b: Formation, outB: Output, availableB: Option<seq<int>>): Pair
  {
    var sa, sb := ScoreOutput(g, a, outA, availableA), ScoreOutput(g, b, outB, availableB);
    if sa.Unscorable? || sb.Unscorable? then UnscorablePair
    else PairOf(Derive(g, a, Everything), outA, sa.full.whole, Derive(g, b, Everything), outB, sb.full.whole)
  }

  /** Two references say the same in this field. */
  ghost predicate SameOn(a: Expected, b: Expected, field: FieldName) {
    match field
    case LatestResult => a.result == b.result
    case LatestAssistance => a.help == b.help
    case AssessmentEventId => a.assessment == b.assessment
    case IndependentSuccess => a.independentSuccess == b.independentSuccess
    case StableMastery => a.stableMastery == b.stableMastery
    case Priority => a.priority == b.priority
    case Minutes => a.minutes == b.minutes
    case SupportActive => a.support == b.support
    case Anchor => a.anchor == b.anchor
    case Next => a.nextStep == b.nextStep
  }

  lemma SameOnIffEqual(a: Expected, b: Expected, field: FieldName)
    ensures SameOn(a, b, field) <==> ValueOf(a, field) == ValueOf(b, field)
  {
  }

  /** A field has changed exactly if the references differ on it, and is checked off exactly if both answers
      are right on it; the id of the assessment, which differs between databases, does not take part. */
  ghost predicate Compares(p: Pair, xa: Expected, outA: Output, wholeA: bool, xb: Expected, outB: Output, wholeB: bool) {
    && p.Pair?
    && (forall field :: field in p.changed <==> !field.AssessmentEventId? && !SameOn(xa, xb, field))
    && (forall field :: field in p.invariant' <==> !field.AssessmentEventId? && SameOn(xa, xb, field))
    && (forall field :: field in p.checks <==> !field.AssessmentEventId? && Right(outA, xa, field) && Right(outB, xb, field))
    && (p.joint <==>
          && wholeA && wholeB
          && forall field: FieldName :: !field.AssessmentEventId? ==> Right(outA, xa, field) && Right(outB, xb, field))
  }

  lemma PairMeans(xa: Expected, outA: Output, wholeA: bool, xb: Expected, outB: Output, wholeB: bool)
    ensures Compares(PairOf(xa, outA, wholeA, xb, outB, wholeB), xa, outA, wholeA, xb, outB, wholeB)
  {
    var p := PairOf(xa, outA, wholeA, xb, outB, wholeB);
    forall field: FieldName
      ensures field in SEMANTIC <==> !field.AssessmentEventId?
      ensures SameOn(xa, xb, field) <==> ValueOf(xa, field) == ValueOf(xb, field)
      ensures Right(outA, xa, field) <==> Agrees(outA, xa, field)
      ensures Right(outB, xb, field) <==> Agrees(outB, xb, field)
    {
      SameOnIffEqual(xa, xb, field);
      RightIffEqual(outA, xa, field);
      RightIffEqual(outB, xb, field);
      EveryField();
    }
    assert p.checks == SEMANTIC <==> forall field :: field in SEMANTIC ==> field in p.checks;
  }

  /** A pair is compared on what all rows of each side say; joint success needs both records to be whole. */
  lemma ScorePairMeans(g: Grammar, a: Formation, outA: Output, availableA: Option<seq<int>>,
                       b: Formation, outB: Output, availableB: Option<seq<int>>)
    returns (xa: Expected, xb: Expected)
    ensures Says(g, a, Everything, xa) && Says(g, b, Everything, xb)
    ensures
      var p := ScorePair(g, a, outA, availableA, b, outB, availableB);
      var sa, sb := ScoreOutput(g, a, outA, availableA), ScoreOutput(g, b, outB, availableB);
      && (p.Pair? <==> sa.Scored? && sb.Scored?)
      && (p.Pair? ==> Compares(p, xa, outA, sa.full.whole, xb, outB, sb.full.whole))
  {
    xa, xb := Derive(g, a, Everything), Derive(g, b, Everything);
    ReferenceSays(g, a, Everything);
    ReferenceSays(g, b, Everything);
    ScorePairCompares(g, a, outA, availableA, b, outB, availableB);
  }

  lemma ScorePairCompares(g: Grammar, a: Formation, outA: Output, availableA: Option<seq<int>>,
                          b: Formation, outB: Output, availableB: Option<seq<int>>)
    ensures
      var p := ScorePair(g, a, outA, availableA, b, outB, availableB);
      var sa, sb := ScoreOutput(g, a, outA, availableA), ScoreOutput(g, b, outB, availableB);
      && (p.Pair? <==> sa.Scored? && sb.Scored?)
      && (p.Pair? ==> Compares(p, Derive(g, a, Everything), outA, sa.full.whole, Derive(g, b, Everything), outB, sb.full.whole))
  {
    var sa, sb := ScoreOutput(g, a, outA, availableA), ScoreOutput(g, b, outB, availableB);
    if sa.Scored? && sb.Scored? {
      PairMeans(Derive(g, a, Everything), outA, sa.full.whole, Derive(g, b, Everything), outB, sb.full.whole);
    }
  }

  lemma PairOfWholes(xa: Expected, outA: Output, xb: Expected, outB: Output)
    requires forall field :: field in FIELDS ==> Agrees(outA, xa, field) && Agrees(outB, xb, field)
    ensures
      var p := PairOf(xa, outA, true, xb, outB, true);
      p.joint && p.checks == SEMANTIC == p.changed + p.invariant'
  {
  }

  /** Joint success asks for nothing beyond two whole records, and then every change and every
      invariant of the pair is reproduced. */
  lemma JointSuccessIffBothWhole(g: Grammar, a: Formation, outA: Output, availableA: Option<seq<int>>,
                                 b: Formation, outB: Output, availableB: Option<seq<int>>)
    requires ScorePair(g, a, outA, availableA, b, outB, availableB).Pair?
    ensures
      var p := ScorePair(g, a, outA, availableA, b, outB, availableB);
      var sa, sb := ScoreOutput(g, a, outA, availableA), ScoreOutput(g, b, outB, availableB);
      && (p.joint <==> sa.full.whole && sb.full.whole)
      && (p.joint ==> p.checks == SEMANTIC == p.changed + p.invariant')
  {
    if ScoreOutput(g, a, outA, availableA).full.whole && ScoreOutput(g, b, outB, availableB).full.whole {
      WholeScoreAgrees(g, a, outA, availableA);
      WholeScoreAgrees(g, b, outB, availableB);
      PairOfWholes(Derive(g, a, Everything), outA, Derive(g, b, Everything), outB);
    }
  }

  lemma WholeScoreAgrees(g: Grammar, f: Formation, output: Output, available: Option<seq<int>>)
    requires ScoreOutput(g, f, output, available).Scored? && ScoreOutput(g, f, output, available).full.whole
    ensures forall field :: field in FIELDS ==> Agrees(output, Derive(g, f, Everything), field)
  {
    forall field | field in FIELDS
      ensures Agrees(output, Derive(g, f, Everything), field)
    {
      assert field in ScoreOutput(g, f, output, available).full.correct;
    }
  }
}
