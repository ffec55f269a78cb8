/** The reference a saved learning history determines
    (evals/education_memory_counterfactual/verifier.py: _context, _owned, _source_error, _assessment,
    _controls, _derive).

    A saved field that is missing or has the wrong type is `None`.  Times are read already parsed, in
    any unit; `None` is a text that does not parse.  The request grammar is a parameter. */
module Reference {
  import opened Options
  import opened JsonLines

  // ---- Saved rows --------------------------------------------------------------------------

  datatype Scope = Scope(learner: Option<int>, project: Option<int>, checkpoint: Option<int>, session: Option<int>)

  datatype Kind = ConceptEvaluated | ExerciseEvaluated | TeachingInput | Observation | UserMessage | OtherKind

  /** A key that may be absent, or present with a value. */
  datatype Field<+T> = Absent | Present(value: T)

  datatype Independence = Unstated | Stated(independent: bool) | NotBoolean

  datatype Payload = Payload(
    attemptId: Option<int>, itemId: Option<int>,
    correct: Option<bool>, passed: Option<bool>,
    assistance: Option<string>, independent: Independence, role: Field<Option<string>>,
    text: Option<string>, statement: Option<string>)

  datatype Event = Event(
    id: int, scope: Scope, occurredAt: Option<int>, kind: Kind, source: string, actor: string,
    vnextSync: bool, contractMatches: bool, clientEventId: string, payload: Option<Payload>)

  datatype Grade = Grade(
    correct: Option<bool>, passed: Option<int>, total: Option<int>,
    attemptId: Field<Option<int>>, assistance: Field<Option<string>>, role: Field<Option<string>>)

  datatype Attempt = Attempt(
    scope: Scope, status: string, conceptItem: Option<bool>, itemId: Option<int>,
    submittedAt: Option<int>, evaluatedAt: Option<int>,
    grade: Option<Grade>, assistance: Option<string>, role: Option<string>)

  datatype Session = Session(learner: Option<int>, project: Option<int>, checkpoint: Option<int>)

  /** The tables by id; `events` keeps the order of the saved rows. */
  datatype Formation = Formation(
    scope: Scope, at: int, events: seq<Event>, attempts: map<int, Attempt>,
    projects: map<int, Option<int>>, roadmaps: map<int, Option<int>>, checkpoints: map<int, Option<int>>,
    sessions: map<int, Session>, questions: map<int, Option<int>>, exercises: map<int, Option<int>>)

  predicate PositiveId(v: Option<int>) {
    v.Some? && v.value > 0
  }

  function Lookup<T>(table: map<int, T>, id: Option<int>): Option<T> {
    if id.Some? && id.value in table then Some(table[id.value]) else None
  }

  // ---- Ownership and sources ---------------------------------------------------------------

  datatype Problem =
    | IncompleteScope | ProjectOwnership | CheckpointOwnership | SessionOwnership
    | OutsideQueryScope | InvalidOrFutureTime | InvalidPayload | AssessmentSource | UserSource
    | OutsideQuerySession | UnsupportedType
    | InvalidAttemptId | MissingAttempt | AttemptScope | AttemptOwnership(why: Problem) | UnboundReceipt
    | ItemOwnership | AttemptTime | InvalidOutcome | ResultMismatch | AssistanceMismatch
    | IndependenceType | ContradictoryIndependence | RoleMismatch | ReceiptMismatch
    | MissingStatement | MissingText
    | ControlText | ControlExpression | ControlDeadline | UnsupportedDeadline | NoControl

  function Owned(scope: Scope, f: Formation): Option<Problem> {
    var checkpointRoadmap := Lookup(f.checkpoints, scope.checkpoint);
    var roadmapProject := if checkpointRoadmap.Some? then Lookup(f.roadmaps, checkpointRoadmap.value) else None;
    if !PositiveId(scope.learner) || !PositiveId(scope.project) || !PositiveId(scope.checkpoint) then
      Some(IncompleteScope)
    else if Lookup(f.projects, scope.project) != Some(scope.learner) then Some(ProjectOwnership)
    else if roadmapProject != Some(scope.project) then Some(CheckpointOwnership)
    else if scope.session.Some? &&
            (!PositiveId(scope.session) ||
             Lookup(f.sessions, scope.session) != Some(Session(scope.learner, scope.project, scope.checkpoint))) then
      Some(SessionOwnership)
    else None
  }

  predicate SameCheckpoint(a: Scope, b: Scope) {
    a.learner == b.learner && a.project == b.project && a.checkpoint == b.checkpoint
  }

  function SourceProblem(e: Event, f: Formation): Option<Problem> {
    if !SameCheckpoint(e.scope, f.scope) then Some(OutsideQueryScope)
    else if Owned(e.scope, f).Some? then Owned(e.scope, f)
    else if e.occurredAt.None? || e.occurredAt.value > f.at then Some(InvalidOrFutureTime)
    else if e.payload.None? then Some(InvalidPayload)
    else
      match e.kind
      case ConceptEvaluated => if e.source == "assessment" then None else Some(AssessmentSource)
      case ExerciseEvaluated => if e.source == "assessment" then None else Some(AssessmentSource)
      case OtherKind => Some(UnsupportedType)
      case _ =>
        var origin := e.actor == "learner" && e.contractMatches &&
                      if e.kind.TeachingInput? then e.source == "vnext" && e.vnextSync else e.source == "user";
        if !origin then Some(UserSource)
        else if e.scope.session != f.scope.session then Some(OutsideQuerySession)
        else None
  }

  // ---- Assessments -------------------------------------------------------------------------

  /** Where a piece of evidence stands: by time, then event, then place in the event. */
  datatype Stamp = Stamp(time: int, event: int, offset: int)

  predicate Before(a: Stamp, b: Stamp) {
    a.time < b.time || (a.time == b.time && (a.event < b.event || (a.event == b.event && a.offset < b.offset)))
  }

  datatype Help = Independent | Supported | Unknown

  datatype Assessment = Assessment(stamp: Stamp, correct: bool, help: Help)

  datatype Assessed = Accepted(assessment: Assessment) | Rejected(problem: Problem)

  predicate Helped(assistance: Option<string>) {
    assistance == Some("hint") || assistance == Some("guided")
  }

  function Decimal(n: nat): string {
    var digit := ['0' + (n % 10) as char];
    if n < 10 then digit else Decimal(n / 10) + digit
  }

  function ReadDecimal(digits: string): nat
    requires forall i :: 0 <= i < |digits| ==> '0' <= digits[i] <= '9'
  {
    if digits == "" then 0
    else 10 * ReadDecimal(digits[..|digits| - 1]) + (digits[|digits| - 1] - '0') as nat
  }

  /** A number is printed in its digits, without leading zeros. */
  lemma {:induction false} DecimalReadsBack(n: nat)
    ensures Decimal(n) != "" && forall i :: 0 <= i < |Decimal(n)| ==> '0' <= Decimal(n)[i] <= '9'
    ensures ReadDecimal(Decimal(n)) == n && (n > 0 ==> Decimal(n)[0] != '0')
  {
    var digit := '0' + (n % 10) as char;
    if n < 10 {
      LastDigit("", digit);
      assert "" + [digit] == Decimal(n);
    } else {
      DecimalReadsBack(n / 10);
      LastDigit(Decimal(n / 10), digit);
    }
  }

  lemma LastDigit(digits: string, digit: char)
    requires '0' <= digit <= '9' && forall i :: 0 <= i < |digits| ==> '0' <= digits[i] <= '9'
    ensures forall i :: 0 <= i < |digits| + 1 ==> '0' <= (digits + [digit])[i] <= '9'
    ensures ReadDecimal(digits + [digit]) == 10 * ReadDecimal(digits) + (digit - '0') as nat
  {
    assert (digits + [digit])[..|digits|] == digits;
  }

  /** The two receipt names the evaluation service may give an attempt. */
  predicate BoundReceipt(name: string, learner: nat, attempt: nat) {
    var receipt := "attempt:" + Decimal(attempt) + ":evaluated";
    name == receipt || name == Decimal(learner) + ":" + receipt
  }

  predicate GradeAgrees(concept: bool, grade: Grade, correct: bool) {
    if concept then grade.correct == Some(correct)
    else
      grade.passed.Some? && grade.total.Some? &&
      0 <= grade.passed.value <= grade.total.value && grade.total.value > 0 &&
      (grade.passed.value == grade.total.value) == correct
  }

  function HelpOf(assistance: Option<string>, independent: Independence, role: Option<string>): Help {
    if Helped(assistance) || role == Some("retry") || role == Some("repeated_original") then Supported
    else if assistance == Some("none") && independent == Stated(true) then Independent
    else Unknown
  }

  function Assess(e: Event, f: Formation): (r: Assessed)
    requires SourceProblem(e, f).None? && (e.kind.ConceptEvaluated? || e.kind.ExerciseEvaluated?)
    ensures r.Accepted? ==> r.assessment.stamp == Stamp(e.occurredAt.value, e.id, 0)
  {
    var p := e.payload.value;
    var concept := e.kind.ConceptEvaluated?;
    var found := Lookup(f.attempts, p.attemptId);
    if !PositiveId(p.attemptId) then Rejected(InvalidAttemptId)
    else if found.None? || found.value.status != "evaluated" then Rejected(MissingAttempt)
    else
      var a := found.value;
      var item := Lookup(if concept then f.questions else f.exercises, a.itemId);
      var correct := if concept then p.correct else p.passed;
      if !SameCheckpoint(a.scope, e.scope) then Rejected(AttemptScope)
      else if Owned(a.scope, f).Some? then Rejected(AttemptOwnership(Owned(a.scope, f).value))
      else if !BoundReceipt(e.clientEventId, e.scope.learner.value, p.attemptId.value) then Rejected(UnboundReceipt)
      else if a.conceptItem != Some(concept) || !PositiveId(p.itemId) || p.itemId != a.itemId
              || item != Some(a.scope.checkpoint) then
        Rejected(ItemOwnership)
      else if a.submittedAt.None? || a.evaluatedAt.None?
              || !(a.submittedAt.value <= a.evaluatedAt.value <= e.occurredAt.value <= f.at) then
        Rejected(AttemptTime)
      else if correct.None? || a.grade.None? then Rejected(InvalidOutcome)
      else if !GradeAgrees(concept, a.grade.value, correct.value) then Rejected(ResultMismatch)
      else if !(p.assistance in {None, Some("none"), Some("hint"), Some("guided")}) || p.assistance != a.assistance then
        Rejected(AssistanceMismatch)
      else if p.independent.NotBoolean? then Rejected(IndependenceType)
      else if p.independent == Stated(true) && Helped(p.assistance) then Rejected(ContradictoryIndependence)
      else if p.role.Present? && p.role.value != a.role then Rejected(RoleMismatch)
      else if !(a.grade.value.attemptId in {Absent, Present(p.attemptId)})
              || !(a.grade.value.assistance in {Absent, Present(p.assistance)})
              || !(a.grade.value.role in {Absent, Present(a.role)}) then
        Rejected(ReceiptMismatch)
      else
        Accepted(Assessment(Stamp(e.occurredAt.value, e.id, 0), correct.value,
                            HelpOf(p.assistance, p.independent, a.role)))
  }

  /** Independent success is only ever read off a graded, owned, unaided first attempt. */
  lemma IndependenceIsEarned(e: Event, f: Formation)
    requires SourceProblem(e, f).None? && (e.kind.ConceptEvaluated? || e.kind.ExerciseEvaluated?)
    requires Assess(e, f).Accepted? && Assess(e, f).assessment.help.Independent?
    ensures
      var p, a := e.payload.value, f.attempts[e.payload.value.attemptId.value];
      && p.independent == Stated(true) && p.assistance == a.assistance == Some("none")
      && a.role != Some("retry") && a.role != Some("repeated_original")
      && Owned(a.scope, f).None? && SameCheckpoint(a.scope, f.scope)
      && a.evaluatedAt.Some? && a.evaluatedAt.value <= e.occurredAt.value <= f.at
  {
  }

  // ---- Requests in the learner's words -----------------------------------------------------

  datatype Slot = TimeBudget | CurrentPriority | ReturnAnchor | Support

  /** A full match of a clause: the digits of a time budget, or where the wording of a priority or
      an anchor starts; it runs to the end of the clause. */
  datatype Capture = Digits(n: nat) | Tail(start: nat) | Bare

  /** The benchmark's request grammar, its regular expressions left open. */
  datatype Grammar = Grammar(
    matches: (Slot, string) -> Option<Capture>,
    excluded: string -> bool,
    deadline: string -> Option<Option<int>>,
    mentionsDeadline: string -> bool)

  ghost predicate Proper(g: Grammar) {
    forall slot, clause :: g.matches(slot, clause).Some? ==>
      clause != "" &&
      match slot
      case TimeBudget => g.matches(slot, clause).value.Digits?
      case Support => g.matches(slot, clause).value.Bare?
      case _ => g.matches(slot, clause).value.Tail? && g.matches(slot, clause).value.start < |clause|
  }

  datatype Wish = Budget(minutes: int) | Wording(text: string) | SmallSteps

  datatype Control = Control(stamp: Stamp, slot: Slot, wish: Wish, expiresAt: int, end: int)

  const HOUR := 3600
  const MAX_TEXT := 4000

  /** Where the text starts, from position `i` on, once leading space is skipped. */
  function TrimStart(s: string, i: nat): (start: nat)
    requires i <= |s|
    ensures i <= start <= |s|
    ensures start < |s| ==> !IsSpace(s[start])
    decreases |s| - i
  {
    if i == |s| || !IsSpace(s[i]) then i else TrimStart(s, i + 1)
  }

  /** Where the text up to position `n` ends, not before `start`, once trailing space is dropped. */
  function TrimEnd(s: string, start: nat, n: nat): (end: nat)
    requires start <= n <= |s|
    ensures start <= end <= n
    ensures end > start ==> !IsSpace(s[end - 1])
  {
    if n == start || !IsSpace(s[n - 1]) then n else TrimEnd(s, start, n - 1)
  }

  function Trim(s: string): string {
    var start := TrimStart(s, 0);
    s[start..TrimEnd(s, start, |s|)]
  }

  predicate IsSeparator(c: char) {
    c == '\U{FF0C}' || c == ',' || c == '\U{3002}' || c == '\U{FF1B}' || c == ';'
    || c == '\U{FF01}' || c == '\U{FF1F}' || c == '!' || c == '?' || c == '\n'
  }

  /** The length of the longest prefix that is all separators, or all other characters. */
  function RunLength(text: string, separators: bool): (n: nat)
    ensures n <= |text|
    ensures n < |text| ==> IsSeparator(text[n]) != separators
  {
    if text == [] || IsSeparator(text[0]) != separators then 0 else 1 + RunLength(text[1..], separators)
  }

  /** The text cut into clauses and, between them, the separators themselves. */
  function Segments(text: string): seq<string>
    decreases |text|
  {
    var n := RunLength(text, false);
    if n == |text| then [text]
    else
      var m := n + RunLength(text[n..], true);
      [text[..n], text[n..m]] + Segments(text[m..])
  }

  function Wished(g: Grammar, slot: Slot, clause: string): Option<Wish> {
    match g.matches(slot, clause)
    case None => None
    case Some(Digits(n)) => if 1 <= n <= 480 then Some(Budget(n)) else None
    case Some(Tail(start)) => if start <= |clause| then Some(Wording(Trim(clause[start..]))) else None
    case Some(Bare) => Some(SmallSteps)
  }

  /** What one clause asks for in one slot; help in small steps is never asked for longer than a session. */
  function Asked(g: Grammar, e: Event, expiry: int, clause: string, offset: nat, slot: Slot): seq<Control>
    requires e.occurredAt.Some?
  {
    var wish := Wished(g, slot, clause);
    if wish.None? then []
    else [Control(Stamp(e.occurredAt.value, e.id, offset), slot, wish.value,
                  if slot.Support? then e.occurredAt.value + 8 * HOUR else expiry, offset + |clause|)]
  }

  const SLOTS := [TimeBudget, CurrentPriority, ReturnAnchor, Support]

  function ClauseControls(g: Grammar, e: Event, expiry: int, clause: string, offset: nat, slots: seq<Slot>): seq<Control>
    requires e.occurredAt.Some?
  {
    if slots == [] then []
    else Asked(g, e, expiry, clause, offset, slots[0]) + ClauseControls(g, e, expiry, clause, offset, slots[1..])
  }

  function SegmentControls(g: Grammar, e: Event, expiry: int, segment: string, offset: nat): seq<Control>
    requires e.occurredAt.Some?
  {
    ClauseControls(g, e, expiry, Trim(segment), offset + TrimStart(segment, 0), SLOTS)
  }

  function ControlsIn(g: Grammar, e: Event, expiry: int, segments: seq<string>, offset: nat): seq<Control>
    requires e.occurredAt.Some?
  {
    if segments == [] then []
    else SegmentControls(g, e, expiry, segments[0], offset)
         + ControlsIn(g, e, expiry, segments[1..], offset + |segments[0]|)
  }

  datatype Parsed = Requests(controls: seq<Control>) | Unread(problem: Problem)

  function Controls(g: Grammar, e: Event): Parsed
    requires e.occurredAt.Some? && e.payload.Some?
  {
    var text, occurred := e.payload.value.text, e.occurredAt.value;
    if text.None? || text.value == "" || |text.value| > MAX_TEXT then Unread(ControlText)
    else if g.excluded(text.value) then Unread(ControlExpression)
    else
      var deadline := g.deadline(text.value);
      var expiry := if deadline.Some? then deadline.value else Some(occurred + 8 * HOUR);
      if expiry.None? || !(occurred < expiry.value <= occurred + 168 * HOUR) then Unread(ControlDeadline)
      else if g.mentionsDeadline(text.value) && deadline.None? then Unread(UnsupportedDeadline)
      else
        var controls := ControlsIn(g, e, expiry.value, Segments(text.value), 0);
        if controls == [] then Unread(NoControl) else Requests(controls)
  }

  function Joined(segments: seq<string>): string {
    if segments == [] then "" else segments[0] + Joined(segments[1..])
  }

  /** No character of the text is lost or moved by cutting it. */
  lemma {:induction false} SegmentsJoin(text: string)
    ensures Joined(Segments(text)) == text
    decreases |text|
  {
    var n := RunLength(text, false);
    if n == |text| {
      assert Joined([text]) == text + Joined([text][1..]);
    } else {
      var m := n + RunLength(text[n..], true);
      SegmentsJoin(text[m..]);
      JoinTwo(text[..n], text[n..m], Segments(text[m..]));
      assert text[..n] + (text[n..m] + text[m..]) == text;
    }
  }

  lemma JoinTwo(a: string, b: string, rest: seq<string>)
    ensures Joined([a, b] + rest) == a + (b + Joined(rest))
  {
    assert ([a, b] + rest)[1..] == [b] + rest;
    assert ([b] + rest)[1..] == rest;
  }

  /** A control quotes the text: its span holds exactly the trimmed clause that was matched. */
  ghost predicate Quotes(g: Grammar, text: string, c: Control) {
    && 0 <= c.stamp.offset <= c.end <= |text|
    && Trim(text[c.stamp.offset..c.end]) == text[c.stamp.offset..c.end]
    && Wished(g, c.slot, text[c.stamp.offset..c.end]) == Some(c.wish)
  }

  lemma TrimIsIdempotent(s: string)
    ensures Trim(Trim(s)) == Trim(s)
  {
    var start := TrimStart(s, 0);
    var end := TrimEnd(s, start, |s|);
    var t := s[start..end];
    if t != [] {
      assert t[0] == s[start] && t[|t| - 1] == s[end - 1];
    }
  }

  lemma {:induction false} ClauseControlsAre(g: Grammar, e: Event, expiry: int, clause: string, offset: nat, slots: seq<Slot>)
    requires e.occurredAt.Some?
    ensures forall c :: c in ClauseControls(g, e, expiry, clause, offset, slots) ==>
      && c.stamp == Stamp(e.occurredAt.value, e.id, offset) && c.end == offset + |clause|
      && Wished(g, c.slot, clause) == Some(c.wish)
      && c.expiresAt == if c.slot.Support? then e.occurredAt.value + 8 * HOUR else expiry
  {
    if slots != [] {
      ClauseControlsAre(g, e, expiry, clause, offset, slots[1..]);
    }
  }

  lemma ClauseQuotes(g: Grammar, e: Event, expiry: int, text: string, at: nat, clause: string)
    requires e.occurredAt.Some? && at + |clause| <= |text|
    requires text[at..at + |clause|] == clause && Trim(clause) == clause
    ensures forall c :: c in ClauseControls(g, e, expiry, clause, at, SLOTS) ==> Quotes(g, text, c)
  {
    ClauseControlsAre(g, e, expiry, clause, at, SLOTS);
  }

  lemma SliceOfSlice(text: string, offset: nat, segment: string, from: nat, to: nat)
    requires offset + |segment| <= |text| && text[offset..offset + |segment|] == segment
    requires from <= to <= |segment|
    ensures text[offset + from..offset + to] == segment[from..to]
  {
    forall i | 0 <= i < to - from
      ensures text[offset + from..offset + to][i] == segment[from..to][i]
    {
      assert segment[from + i] == text[offset..offset + |segment|][from + i];
    }
  }

  lemma SegmentQuotes(g: Grammar, e: Event, expiry: int, text: string, segment: string, offset: nat)
    requires e.occurredAt.Some?
    requires offset + |segment| <= |text| && text[offset..offset + |segment|] == segment
    ensures forall c :: c in SegmentControls(g, e, expiry, segment, offset) ==> Quotes(g, text, c)
  {
    var start := TrimStart(segment, 0);
    SliceOfSlice(text, offset, segment, start, TrimEnd(segment, start, |segment|));
    TrimIsIdempotent(segment);
    ClauseQuotes(g, e, expiry, text, offset + start, Trim(segment));
  }

  lemma {:induction false} ControlsQuoteFrom(g: Grammar, e: Event, expiry: int, text: string, segments: seq<string>, offset: nat)
    requires e.occurredAt.Some?
    requires offset <= |text| && text[offset..] == Joined(segments)
    ensures forall c :: c in ControlsIn(g, e, expiry, segments, offset) ==> Quotes(g, text, c)
    decreases |segments|
  {
    if segments != [] {
      var n := |segments[0]|;
      assert text[offset..offset + n] == text[offset..][..n] == segments[0];
      assert text[offset + n..] == text[offset..][n..] == Joined(segments[1..]);
      SegmentQuotes(g, e, expiry, text, segments[0], offset);
      ControlsQuoteFrom(g, e, expiry, text, segments[1..], offset + n);
    }
  }

  /** Every request that is read can be pointed at in the learner's own words. */
  lemma ControlsQuoteTheText(g: Grammar, e: Event, c: Control)
    requires e.occurredAt.Some? && e.payload.Some? && Controls(g, e).Requests? && c in Controls(g, e).controls
    ensures e.payload.value.text.Some? && Quotes(g, e.payload.value.text.value, c)
    ensures c.stamp.time == e.occurredAt.value && c.stamp.event == e.id && c.expiresAt > c.stamp.time
  {
    var text := e.payload.value.text.value;
    var deadline := g.deadline(text);
    var expiry := if deadline.Some? then deadline.value.value else e.occurredAt.value + 8 * HOUR;
    ControlQuotes(g, e, expiry, text, c);
  }

  lemma ControlQuotes(g: Grammar, e: Event, expiry: int, text: string, c: Control)
    requires e.occurredAt.Some? && c in ControlsIn(g, e, expiry, Segments(text), 0)
    ensures Quotes(g, text, c) && c.stamp.time == e.occurredAt.value && c.stamp.event == e.id
    ensures c.expiresAt == if c.slot.Support? then e.occurredAt.value + 8 * HOUR else expiry
  {
    AllQuote(g, e, expiry, text);
    ControlsAreStamped(g, e, expiry, Segments(text), 0);
  }

  /** However long the message's own deadline, a request for support stands for eight hours. */
  lemma SupportStandsEightHours(g: Grammar, e: Event, c: Control)
    requires e.occurredAt.Some? && e.payload.Some? && Controls(g, e).Requests? && c in Controls(g, e).controls
    requires c.slot.Support?
    ensures c.expiresAt == c.stamp.time + 8 * HOUR
  {
    var text := e.payload.value.text.value;
    var deadline := g.deadline(text);
    var expiry := if deadline.Some? then deadline.value.value else e.occurredAt.value + 8 * HOUR;
    ControlsAreStamped(g, e, expiry, Segments(text), 0);
  }

  lemma AllQuote(g: Grammar, e: Event, expiry: int, text: string)
    requires e.occurredAt.Some?
    ensures forall c :: c in ControlsIn(g, e, expiry, Segments(text), 0) ==> Quotes(g, text, c)
  {
    SegmentsJoin(text);
    ControlsQuoteFrom(g, e, expiry, text, Segments(text), 0);
  }

  lemma {:induction false} ControlsAreStamped(g: Grammar, e: Event, expiry: int, segments: seq<string>, offset: nat)
    requires e.occurredAt.Some?
    ensures forall c :: c in ControlsIn(g, e, expiry, segments, offset) ==>
      c.stamp.time == e.occurredAt.value && c.stamp.event == e.id
      && c.expiresAt == if c.slot.Support? then e.occurredAt.value + 8 * HOUR else expiry
    decreases |segments|
  {
    if segments != [] {
      ControlsAreStamped(g, e, expiry, segments[1..], offset + |segments[0]|);
      ClauseControlsAre(g, e, expiry, Trim(segments[0]), offset + TrimStart(segments[0], 0), SLOTS);
    }
  }
}
