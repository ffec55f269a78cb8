/** Which saved rows count as evidence, and what they say, told on the rows themselves
    (evals/education_memory_counterfactual/verifier.py: _owned, _source_error, _assessment, _controls, _derive). */
module Sources {
  import opened JsonLines
  import opened Options
  import opened Reference
  import opened Derivation

  // ---- Ownership and origin ----------------------------------------------------------------

  /** The learner owns the project, the project the roadmap of the checkpoint, and all three the session. */
  ghost predicate RowsOwn(s: Scope, f: Formation) {
    && s.learner.Some? && s.learner.value > 0
    && s.project.Some? && s.project.value > 0 && s.project.value in f.projects && f.projects[s.project.value] == s.learner
    && s.checkpoint.Some? && s.checkpoint.value > 0 && s.checkpoint.value in f.checkpoints
    && f.checkpoints[s.checkpoint.value].Some? && f.checkpoints[s.checkpoint.value].value in f.roadmaps
    && f.roadmaps[f.checkpoints[s.checkpoint.value].value] == s.project
    && (s.session.Some? ==>
          && s.session.value > 0 && s.session.value in f.sessions
          && f.sessions[s.session.value].learner == s.learner && f.sessions[s.session.value].project == s.project
          && f.sessions[s.session.value].checkpoint == s.checkpoint)
  }

  lemma OwnedIffRowsOwn(s: Scope, f: Formation)
    ensures Owned(s, f).None? <==> RowsOwn(s, f)
  {
  }

  /** An event of the learner, project and checkpoint asked about, owned, not in the future, with a payload. */
  ghost predicate InQuery(e: Event, f: Formation) {
    && e.scope.learner == f.scope.learner && e.scope.project == f.scope.project && e.scope.checkpoint == f.scope.checkpoint
    && RowsOwn(e.scope, f) && e.payload.Some?
    && e.occurredAt.Some? && e.occurredAt.value <= f.at
  }

  /** Written by the learner in the session asked about. */
  ghost predicate ByTheLearner(e: Event, f: Formation, source: string) {
    e.actor == "learner" && e.source == source && e.contractMatches && e.scope.session == f.scope.session
  }

  lemma SourceIsSoundIff(e: Event, f: Formation)
    ensures SourceProblem(e, f).None?
       <==> InQuery(e, f) &&
            match e.kind
            case ConceptEvaluated => e.source == "assessment"
            case ExerciseEvaluated => e.source == "assessment"
            case TeachingInput => ByTheLearner(e, f, "vnext") && e.vnextSync
            case Observation => ByTheLearner(e, f, "user")
            case UserMessage => ByTheLearner(e, f, "user")
            case OtherKind => false
  {
    OwnedIffRowsOwn(e.scope, f);
  }

  // ---- Assessments -------------------------------------------------------------------------

  /** What the event says about the outcome: an answer is correct, an exercise is passed. */
  function Outcome(e: Event): Option<bool>
    requires e.payload.Some?
  {
    if e.kind.ConceptEvaluated? then e.payload.value.correct else e.payload.value.passed
  }

  function AttemptOf(e: Event, f: Formation): Option<Attempt> {
    if e.payload.Some? && e.payload.value.attemptId.Some? && e.payload.value.attemptId.value in f.attempts
    then Some(f.attempts[e.payload.value.attemptId.value]) else None
  }

  /** The attempt is evaluated, of the same learner, project and checkpoint, owned, and was submitted and
      evaluated in this order before the event. */
  ghost predicate AttemptStands(e: Event, f: Formation, a: Attempt) {
    && a.status == "evaluated"
    && a.scope.learner == e.scope.learner && a.scope.project == e.scope.project && a.scope.checkpoint == e.scope.checkpoint
    && RowsOwn(a.scope, f)
    && a.submittedAt.Some? && a.evaluatedAt.Some? && e.occurredAt.Some?
    && a.submittedAt.value <= a.evaluatedAt.value <= e.occurredAt.value <= f.at
  }

  /** The event carries the receipt of this attempt. */
  ghost predicate HasReceipt(e: Event) {
    && e.payload.Some? && e.payload.value.attemptId.Some? && e.payload.value.attemptId.value > 0
    && e.scope.learner.Some? && e.scope.learner.value > 0
    && (|| e.clientEventId == "attempt:" + Decimal(e.payload.value.attemptId.value) + ":evaluated"
        || e.clientEventId == Decimal(e.scope.learner.value) + ":attempt:" + Decimal(e.payload.value.attemptId.value) + ":evaluated")
  }

  /** Event and attempt are about one item, a question or an exercise as the event says, of the checkpoint. */
  ghost predicate ItemMatches(e: Event, f: Formation, a: Attempt) {
    && e.payload.Some? && e.payload.value.itemId.Some? && e.payload.value.itemId.value > 0
    && a.itemId == e.payload.value.itemId && a.conceptItem == Some(e.kind.ConceptEvaluated?)
    && if e.kind.ConceptEvaluated?
       then a.itemId.value in f.questions && f.questions[a.itemId.value] == a.scope.checkpoint
       else a.itemId.value in f.exercises && f.exercises[a.itemId.value] == a.scope.checkpoint
  }

  /** The grade says what the event says; an exercise is passed when all its checks are. */
  ghost predicate GradeMatches(e: Event, a: Attempt) {
    && e.payload.Some? && Outcome(e).Some? && a.grade.Some?
    && if e.kind.ConceptEvaluated? then a.grade.value.correct == Outcome(e)
       else
         && a.grade.value.passed.Some? && a.grade.value.total.Some?
         && 0 <= a.grade.value.passed.value <= a.grade.value.total.value && a.grade.value.total.value > 0
         && Outcome(e) == Some(a.grade.value.passed.value == a.grade.value.total.value)
  }

  /** Event, attempt and grade agree on the help given and on the role, and help excludes independence. */
  ghost predicate HelpMatches(e: Event, a: Attempt)
    requires a.grade.Some?
  {
    && e.payload.Some?
    && var p, g := e.payload.value, a.grade.value;
       && p.assistance == a.assistance
       && (p.assistance == None || p.assistance == Some("none") || p.assistance == Some("hint") || p.assistance == Some("guided"))
       && !p.independent.NotBoolean?
       && (p.independent == Stated(true) ==> p.assistance != Some("hint") && p.assistance != Some("guided"))
       && (p.role == Absent || p.role == Present(a.role))
       && (g.attemptId == Absent || g.attemptId == Present(p.attemptId))
       && (g.assistance == Absent || g.assistance == Present(p.assistance))
       && (g.role == Absent || g.role == Present(a.role))
  }

  /** An event that counts as an assessment. */
  ghost predicate IsAssessment(e: Event, f: Formation) {
    && (e.kind.ConceptEvaluated? || e.kind.ExerciseEvaluated?) && e.source == "assessment"
    && InQuery(e, f) && HasReceipt(e) && AttemptOf(e, f).Some?
    && var a := AttemptOf(e, f).value;
       AttemptStands(e, f, a) && ItemMatches(e, f, a) && GradeMatches(e, a) && HelpMatches(e, a)
  }

  /** Help was given, or the attempt is a repetition. */
  ghost predicate WasHelped(a: Attempt) {
    || a.assistance == Some("hint") || a.assistance == Some("guided")
    || a.role == Some("retry") || a.role == Some("repeated_original")
  }

  /** Done without help, stated as independent, and no repetition. */
  ghost predicate WasUnaided(e: Event, a: Attempt) {
    && a.assistance == Some("none") && e.payload.Some? && e.payload.value.independent == Stated(true)
    && a.role != Some("retry") && a.role != Some("repeated_original")
  }

  lemma ReceiptIsBound(e: Event)
    requires e.payload.Some? && PositiveId(e.payload.value.attemptId) && PositiveId(e.scope.learner)
    ensures BoundReceipt(e.clientEventId, e.scope.learner.value, e.payload.value.attemptId.value) <==> HasReceipt(e)
  {
    var id := Decimal(e.payload.value.attemptId.value);
    assert Decimal(e.scope.learner.value) + ":attempt:" + id + ":evaluated"
        == Decimal(e.scope.learner.value) + ":" + ("attempt:" + id + ":evaluated");
  }

  lemma AssessAccepts(e: Event, f: Formation)
    requires SourceProblem(e, f).None? && (e.kind.ConceptEvaluated? || e.kind.ExerciseEvaluated?)
    ensures Assess(e, f).Accepted? <==> IsAssessment(e, f)
  {
    SourceIsSoundIff(e, f);
    if PositiveId(e.payload.value.attemptId) {
      ReceiptIsBound(e);
    }
    if AttemptOf(e, f).Some? {
      OwnedIffRowsOwn(AttemptOf(e, f).value.scope, f);
    }
  }

  /** An assessment counts exactly if its rows match, and it says what they say. */
  lemma AssessmentCountsIff(g: Grammar, f: Formation, e: Event)
    requires e.kind.ConceptEvaluated? || e.kind.ExerciseEvaluated?
    ensures Classify(g, f, e).Counts? <==> IsAssessment(e, f)
    ensures IsAssessment(e, f) ==>
      exists item ::
        && Classify(g, f, e).items == [item] && item.Graded? && item.stamp == Stamp(e.occurredAt.value, e.id, 0)
        && Outcome(e) == Some(item.assessment.correct)
        && (item.assessment.help.Supported? <==> WasHelped(AttemptOf(e, f).value))
        && (item.assessment.help.Independent? <==> WasUnaided(e, AttemptOf(e, f).value))
  {
    SourceIsSoundIff(e, f);
    if SourceProblem(e, f).None? {
      AssessAccepts(e, f);
      if IsAssessment(e, f) {
        var a := Assess(e, f).assessment;
        assert Classify(g, f, e).items == [Graded(a.stamp, a)];
      }
    }
  }

  // ---- Reports and messages ----------------------------------------------------------------

  ghost predicate HasText(text: Option<string>) {
    text.Some? && exists i :: 0 <= i < |text.value| && !IsSpace(text.value[i])
  }

  lemma {:induction false} TrimStartSkipsSpace(s: string, i: nat)
    requires i <= |s|
    ensures forall k :: i <= k < TrimStart(s, i) ==> IsSpace(s[k])
    decreases |s| - i
  {
    if i < |s| && IsSpace(s[i]) {
      TrimStartSkipsSpace(s, i + 1);
    }
  }

  lemma {:induction false} TrimEndKeepsText(s: string, start: nat, n: nat)
    requires start <= n <= |s| && start < n && !IsSpace(s[start])
    ensures TrimEnd(s, start, n) > start
  {
    if n > start + 1 && IsSpace(s[n - 1]) {
      TrimEndKeepsText(s, start, n - 1);
    }
  }

  lemma HasTextIffTrimmed(text: Option<string>)
    ensures HasText(text) <==> text.Some? && Trim(text.value) != ""
  {
    if text.Some? {
      var s := text.value;
      var start := TrimStart(s, 0);
      TrimStartSkipsSpace(s, 0);
      if start < |s| {
        TrimEndKeepsText(s, start, |s|);
      }
    }
  }

  ghost predicate IsReport(e: Event, f: Formation) {
    e.kind.Observation? && InQuery(e, f) && ByTheLearner(e, f, "user") && HasText(e.payload.value.statement)
  }

  ghost predicate IsMessage(e: Event, f: Formation) {
    e.kind.UserMessage? && InQuery(e, f) && ByTheLearner(e, f, "user") && HasText(e.payload.value.text)
  }

  /** A report counts exactly if it is the learner's own and says something; it says nothing about results. */
  lemma ReportCountsIff(g: Grammar, f: Formation, e: Event)
    requires e.kind.Observation?
    ensures Classify(g, f, e).Counts? <==> IsReport(e, f)
    ensures IsReport(e, f) ==> Classify(g, f, e).items == [Reported(Stamp(e.occurredAt.value, e.id, 0))]
  {
    SourceIsSoundIff(e, f);
    if e.payload.Some? {
      HasTextIffTrimmed(e.payload.value.statement);
    }
  }

  /** A plain message is valid on the same terms, and asks for nothing. */
  lemma MessageCountsIff(g: Grammar, f: Formation, e: Event)
    requires e.kind.UserMessage?
    ensures Classify(g, f, e).Counts? <==> IsMessage(e, f)
    ensures IsMessage(e, f) ==> Classify(g, f, e).items == []
  {
    SourceIsSoundIff(e, f);
    if e.payload.Some? {
      HasTextIffTrimmed(e.payload.value.text);
    }
  }

  // ---- Requests ----------------------------------------------------------------------------

  /** When the requests of a message run out: at its deadline if it names one, otherwise after eight hours. */
  function RunsOut(g: Grammar, text: string, occurred: int): Option<int> {
    match g.deadline(text)
    case None => Some(occurred + 8 * 3600)
    case Some(deadline) => deadline
  }

  /** A text of up to 4000 characters in plain wording, whose deadline is readable, lies ahead and is at most
      a week away. */
  ghost predicate IsPlain(g: Grammar, text: string, occurred: int) {
    && 0 < |text| <= 4000 && !g.excluded(text)
    && RunsOut(g, text, occurred).Some? && occurred < RunsOut(g, text, occurred).value <= occurred + 7 * 24 * 3600
    && (g.mentionsDeadline(text) ==> g.deadline(text).Some?)
  }

  /** A stretch of text between separators. */
  ghost predicate IsClause(text: string, i: int, j: int) {
    && 0 <= i < j <= |text|
    && (i > 0 ==> IsSeparator(text[i - 1])) && (j < |text| ==> IsSeparator(text[j]))
    && forall k :: i <= k < j ==> !IsSeparator(text[k])
  }

  /** What a full match of a clause asks for. */
  ghost predicate AsksFor(g: Grammar, slot: Slot, clause: string, wish: Wish) {
    && g.matches(slot, clause).Some?
    && match g.matches(slot, clause).value
       case Digits(n) => 1 <= n <= 480 && wish == Budget(n)
       case Tail(start) => start <= |clause| && wish == Wording(Trim(clause[start..]))
       case Bare => wish == SmallSteps
  }

  lemma WishedIsAsked(g: Grammar, slot: Slot, clause: string, wish: Wish)
    ensures Wished(g, slot, clause) == Some(wish) <==> AsksFor(g, slot, clause, wish)
  {
  }

  lemma {:induction false} RunIsUniform(text: string, separators: bool)
    ensures forall k :: 0 <= k < RunLength(text, separators) ==> IsSeparator(text[k]) == separators
  {
    if text != [] && IsSeparator(text[0]) == separators {
      RunIsUniform(text[1..], separators);
      assert forall k :: 1 <= k < |text| ==> text[k] == text[1..][k - 1];
    }
  }

  /** The requests of one stretch of text are among those of the message, at its place. */
  ghost predicate Holds(all: seq<Control>, some: seq<Control>) {
    forall c :: c in some ==> c in all
  }

  lemma ClauseComesFirst(text: string, j: int)
    requires IsClause(text, 0, j)
    ensures RunLength(text, false) == j
  {
    RunIsUniform(text, false);
  }

  lemma RunEndsBefore(text: string, separators: bool, k: nat)
    requires k < |text| && IsSeparator(text[k]) != separators
    ensures RunLength(text, separators) <= k
  {
    RunIsUniform(text, separators);
  }

  /** Where the first stretch of text and the separators after it end. */
  function Cut(text: string): (m: nat)
    ensures m <= |text|
  {
    var n := RunLength(text, false);
    n + RunLength(text[n..], true)
  }

  lemma ClauseComesLater(text: string, i: int, j: int)
    requires IsClause(text, i, j) && i > 0
    ensures RunLength(text, false) < |text| && 0 < Cut(text) <= i
  {
    var n := RunLength(text, false);
    RunIsUniform(text, false);
    assert n <= i - 1;
    assert text[n..][i - n] == text[i];
    RunEndsBefore(text[n..], true, i - n);
    assert IsSeparator(text[n..][0]);
  }

  lemma SuffixClause(text: string, i: int, j: int, m: nat)
    requires IsClause(text, i, j) && m <= i
    ensures IsClause(text[m..], i - m, j - m)
  {
    assert i > m ==> text[m..][i - m - 1] == text[i - 1];
    assert j < |text| ==> text[m..][j - m] == text[j];
    assert forall k :: i - m <= k < j - m ==> text[m..][k] == text[m + k];
  }

  lemma SuffixSlice(text: string, i: int, j: int, m: nat)
    requires m <= i <= j <= |text|
    ensures text[m..][i - m..j - m] == text[i..j]
  {
  }

  /** This clause is one of the segments, the first of which stands at `offset`, and stands itself at `at`. */
  predicate IsSegment(segments: seq<string>, offset: int, clause: string, at: int) {
    segments != [] && ((segments[0] == clause && offset == at) || IsSegment(segments[1..], offset + |segments[0]|, clause, at))
  }

  lemma FirstIsSegment(text: string, offset: int, j: int)
    requires IsClause(text, 0, j)
    ensures IsSegment(Segments(text), offset, text[0..j], offset)
  {
    ClauseComesFirst(text, j);
    assert Segments(text)[0] == text[0..j];
  }

  lemma AfterTwo(a: string, b: string, rest: seq<string>, offset: int, clause: string, at: int)
    requires IsSegment(rest, offset + |a| + |b|, clause, at)
    ensures IsSegment([a, b] + rest, offset, clause, at)
  {
    assert ([a, b] + rest)[1..] == [b] + rest;
    assert ([b] + rest)[1..] == rest;
  }

  lemma LaterIsSegment(text: string, offset: int, clause: string, at: int)
    requires RunLength(text, false) < |text| && IsSegment(Segments(text[Cut(text)..]), offset + Cut(text), clause, at)
    ensures IsSegment(Segments(text), offset, clause, at)
  {
    var n, m := RunLength(text, false), Cut(text);
    AfterTwo(text[..n], text[n..m], Segments(text[m..]), offset, clause, at);
  }

  /** Cutting a text finds every clause of it. */
  lemma {:induction false} ClauseIsSegment(text: string, offset: int, i: int, j: int, clause: string, at: int)
    requires IsClause(text, i, j) && clause == text[i..j] && at == offset + i
    ensures IsSegment(Segments(text), offset, clause, at)
    decreases |text|, 1
  {
    if i == 0 {
      FirstIsSegment(text, offset, j);
    } else {
      ClauseComesLater(text, i, j);
      RestIsSegment(text, offset, i, j, Cut(text), clause, at);
      LaterIsSegment(text, offset, clause, at);
    }
  }

  lemma {:induction false} RestIsSegment(text: string, offset: int, i: int, j: int, m: nat, clause: string, at: int)
    requires IsClause(text, i, j) && 0 < m <= i && clause == text[i..j] && at == offset + i
    ensures IsSegment(Segments(text[m..]), offset + m, clause, at)
    decreases |text|, 0
  {
    SuffixClause(text, i, j, m);
    SuffixSlice(text, i, j, m);
    ClauseIsSegment(text[m..], offset + m, i - m, j - m, clause, at);
  }

  lemma {:induction false} SegmentIsTried(g: Grammar, e: Event, expiry: int, segments: seq<string>, offset: nat, clause: string, at: nat)
    requires e.occurredAt.Some? && IsSegment(segments, offset, clause, at)
    ensures Holds(ControlsIn(g, e, expiry, segments, offset), SegmentControls(g, e, expiry, clause, at))
  {
    if !(segments[0] == clause && offset == at) {
      SegmentIsTried(g, e, expiry, segments[1..], offset + |segments[0]|, clause, at);
    }
  }

  lemma {:induction false} SlotIsTried(g: Grammar, e: Event, expiry: int, clause: string, offset: nat, slots: seq<Slot>, slot: Slot)
    requires e.occurredAt.Some? && slot in slots
    ensures Holds(ClauseControls(g, e, expiry, clause, offset, slots), Asked(g, e, expiry, clause, offset, slot))
  {
    if slot != slots[0] {
      SlotIsTried(g, e, expiry, clause, offset, slots[1..], slot);
    }
  }

  /** Every clause that asks for something is read, where it stands and for as long as it stands. */
  lemma RequestsAreRead(g: Grammar, e: Event, i: int, j: int, slot: Slot, wish: Wish) returns (c: Control)
    requires e.occurredAt.Some? && e.payload.Some? && e.payload.value.text.Some?
    requires IsPlain(g, e.payload.value.text.value, e.occurredAt.value) && IsClause(e.payload.value.text.value, i, j)
    requires AsksFor(g, slot, Trim(e.payload.value.text.value[i..j]), wish)
    ensures Controls(g, e).Requests? && c in Controls(g, e).controls && c.slot == slot && c.wish == wish
    ensures c.stamp.time == e.occurredAt.value && c.stamp.event == e.id && i <= c.stamp.offset <= c.end <= j
    ensures e.payload.value.text.value[c.stamp.offset..c.end] == Trim(e.payload.value.text.value[i..j])
    ensures c.expiresAt == if slot.Support? then e.occurredAt.value + 8 * 3600
                           else RunsOut(g, e.payload.value.text.value, e.occurredAt.value).value
  {
    var text := e.payload.value.text.value;
    var expiry := RunsOut(g, text, e.occurredAt.value).value;
    c := ClauseIsRead(g, e, expiry, text, i, j, text[i..j], slot, wish);
    ControlsAre(g, e, expiry, c);
  }

  lemma ClauseIsRead(g: Grammar, e: Event, expiry: int, text: string, i: int, j: int, clause: string, slot: Slot, wish: Wish)
    returns (c: Control)
    requires e.occurredAt.Some? && IsClause(text, i, j) && clause == text[i..j] && AsksFor(g, slot, Trim(clause), wish)
    ensures c in ControlsIn(g, e, expiry, Segments(text), 0) && c.slot == slot && c.wish == wish
    ensures c.stamp.time == e.occurredAt.value && c.stamp.event == e.id && i <= c.stamp.offset <= c.end <= j
    ensures text[c.stamp.offset..c.end] == Trim(clause)
    ensures c.expiresAt == if slot.Support? then e.occurredAt.value + 8 * 3600 else expiry
  {
    c := SegmentIsRead(g, e, expiry, clause, i, slot, wish);
    ClauseIsTried(g, e, expiry, text, i, j, c);
    ClauseSpan(text, i, j, clause);
  }

  lemma ClauseIsTried(g: Grammar, e: Event, expiry: int, text: string, i: int, j: int, c: Control)
    requires e.occurredAt.Some? && IsClause(text, i, j) && c in SegmentControls(g, e, expiry, text[i..j], i)
    ensures c in ControlsIn(g, e, expiry, Segments(text), 0)
  {
    ClauseIsSegment(text, 0, i, j, text[i..j], i);
    SegmentIsTried(g, e, expiry, Segments(text), 0, text[i..j], i);
  }

  lemma ControlsAre(g: Grammar, e: Event, expiry: int, c: Control)
    requires e.occurredAt.Some? && e.payload.Some? && e.payload.value.text.Some?
    requires IsPlain(g, e.payload.value.text.value, e.occurredAt.value)
    requires expiry == RunsOut(g, e.payload.value.text.value, e.occurredAt.value).value
    requires c in ControlsIn(g, e, expiry, Segments(e.payload.value.text.value), 0)
    ensures Controls(g, e).Requests? && c in Controls(g, e).controls
  {
  }

  lemma ClauseSpan(text: string, i: int, j: int, clause: string)
    requires 0 <= i <= j <= |text| && clause == text[i..j]
    ensures
      var from := i + TrimStart(clause, 0);
      from + |Trim(clause)| <= j && text[from..from + |Trim(clause)|] == Trim(clause)
  {
    var start := TrimStart(clause, 0);
    SliceOfSlice(text, i, clause, start, TrimEnd(clause, start, |clause|));
  }

  lemma SegmentIsRead(g: Grammar, e: Event, expiry: int, segment: string, offset: nat, slot: Slot, wish: Wish) returns (c: Control)
    requires e.occurredAt.Some? && AsksFor(g, slot, Trim(segment), wish)
    ensures c in SegmentControls(g, e, expiry, segment, offset) && c.slot == slot && c.wish == wish
    ensures c.stamp == Stamp(e.occurredAt.value, e.id, offset + TrimStart(segment, 0)) && c.end == c.stamp.offset + |Trim(segment)|
    ensures c.expiresAt == if slot.Support? then e.occurredAt.value + 8 * 3600 else expiry
  {
    var at := offset + TrimStart(segment, 0);
    WishedIsAsked(g, slot, Trim(segment), wish);
    assert slot in SLOTS;
    SlotIsTried(g, e, expiry, Trim(segment), at, SLOTS, slot);
    c := Asked(g, e, expiry, Trim(segment), at, slot)[0];
  }

  /** Whatever is read was asked for, in words of the message, and stands as long as it should. */
  lemma RequestsWereMade(g: Grammar, e: Event, c: Control)
    requires e.occurredAt.Some? && e.payload.Some? && Controls(g, e).Requests? && c in Controls(g, e).controls
    ensures e.payload.value.text.Some? && IsPlain(g, e.payload.value.text.value, e.occurredAt.value)
    ensures
      var text := e.payload.value.text.value;
      && 0 <= c.stamp.offset <= c.end <= |text| && AsksFor(g, c.slot, text[c.stamp.offset..c.end], c.wish)
      && c.stamp.time == e.occurredAt.value && c.stamp.event == e.id
      && c.expiresAt == if c.slot.Support? then e.occurredAt.value + 8 * 3600 else RunsOut(g, text, e.occurredAt.value).value
  {
    ControlsQuoteTheText(g, e, c);
    var text := e.payload.value.text.value;
    WishedIsAsked(g, c.slot, text[c.stamp.offset..c.end], c.wish);
    ControlsAreStamped(g, e, RunsOut(g, text, e.occurredAt.value).value, Segments(text), 0);
  }

  /** A teaching input of the learner that asks for this. */
  ghost predicate IsRequest(g: Grammar, f: Formation, e: Event, c: Control) {
    && e.kind.TeachingInput? && InQuery(e, f) && ByTheLearner(e, f, "vnext") && e.vnextSync
    && Controls(g, e).Requests? && c in Controls(g, e).controls
  }

  lemma RequestCountsIff(g: Grammar, f: Formation, e: Event)
    requires e.kind.TeachingInput?
    ensures Classify(g, f, e).Counts? <==> exists c :: IsRequest(g, f, e, c)
    ensures Classify(g, f, e).Counts? ==>
      forall item :: item in Classify(g, f, e).items
                <==> item.Wanted? && item.stamp == item.control.stamp && IsRequest(g, f, e, item.control)
  {
    SourceIsSoundIff(e, f);
    if Classify(g, f, e).Counts? {
      var controls := Controls(g, e).controls;
      assert IsRequest(g, f, e, controls[0]);
      WishesAre(controls);
    }
  }

  lemma WishesAre(controls: seq<Control>)
    ensures forall item :: item in Wishes(controls) <==> item.Wanted? && item.stamp == item.control.stamp && item.control in controls
  {
    forall item: Item | item.Wanted? && item.stamp == item.control.stamp && item.control in controls
      ensures item in Wishes(controls)
    {
      var i :| 0 <= i < |controls| && controls[i] == item.control;
      assert Wishes(controls)[i] == item;
    }
  }

  // ---- The items of a history --------------------------------------------------------------

  /** This event counts, and this is what it says. */
  ghost predicate Gives(g: Grammar, f: Formation, e: Event, item: Item) {
    match item
    case Graded(stamp, a) =>
      && IsAssessment(e, f) && stamp == a.stamp == Stamp(e.occurredAt.value, e.id, 0) && Outcome(e) == Some(a.correct)
      && (a.help.Supported? <==> WasHelped(AttemptOf(e, f).value))
      && (a.help.Independent? <==> WasUnaided(e, AttemptOf(e, f).value))
    case Reported(stamp) => IsReport(e, f) && stamp == Stamp(e.occurredAt.value, e.id, 0)
    case Wanted(stamp, c) => IsRequest(g, f, e, c) && stamp == c.stamp
  }

  lemma ClassifiedAreGiven(g: Grammar, f: Formation, e: Event, item: Item)
    ensures Gives(g, f, e, item) <==> Classify(g, f, e).Counts? && item in Classify(g, f, e).items
  {
    match e.kind {
      case ConceptEvaluated => AssessmentCountsIff(g, f, e);
      case ExerciseEvaluated => AssessmentCountsIff(g, f, e);
      case Observation => ReportCountsIff(g, f, e);
      case UserMessage => MessageCountsIff(g, f, e);
      case TeachingInput => RequestCountsIff(g, f, e);
      case OtherKind =>
    }
  }

  lemma ItemsComeFrom(g: Grammar, f: Formation, n: nat, item: Item)
    requires n < |f.events|
    ensures item in Items(g, f, n + 1)
       <==> item in Items(g, f, n) || (Classify(g, f, f.events[n]).Counts? && item in Classify(g, f, f.events[n]).items)
  {
    ItemsNext(g, f, n);
  }

  lemma ItemsGrow(g: Grammar, f: Formation, n: nat)
    requires n < |f.events|
    ensures Items(g, f, n) <= Items(g, f, n + 1)
  {
    ItemsNext(g, f, n);
  }

  lemma {:induction false} ItemsStay(g: Grammar, f: Formation, n: nat, m: nat)
    requires n <= m <= |f.events|
    ensures Items(g, f, n) <= Items(g, f, m)
    decreases m
  {
    if n < m {
      ItemsStay(g, f, n, m - 1);
      ItemsGrow(g, f, m - 1);
    }
  }

  lemma CountedIsAnItem(g: Grammar, f: Formation, e: Event, item: Item)
    requires e in f.events && Classify(g, f, e).Counts? && item in Classify(g, f, e).items
    ensures item in Items(g, f, |f.events|)
  {
    var i :| 0 <= i < |f.events| && f.events[i] == e;
    PlacedIsAnItem(g, f, i, item);
  }

  lemma PlacedIsAnItem(g: Grammar, f: Formation, i: nat, item: Item)
    requires i < |f.events| && Classify(g, f, f.events[i]).Counts? && item in Classify(g, f, f.events[i]).items
    ensures item in Items(g, f, |f.events|)
  {
    ItemsComeFrom(g, f, i, item);
    ItemsStay(g, f, i + 1, |f.events|);
  }

  lemma ItemsAreGiven(g: Grammar, f: Formation, item: Item)
    ensures item in Items(g, f, |f.events|) <==> exists e :: e in f.events && Gives(g, f, e, item)
  {
    if item in Items(g, f, |f.events|) {
      ItemsHaveEvents(g, f, |f.events|, item);
      var e :| e in f.events && Classify(g, f, e).Counts? && item in Classify(g, f, e).items;
      ClassifiedAreGiven(g, f, e, item);
    }
    if e :| e in f.events && Gives(g, f, e, item) {
      ClassifiedAreGiven(g, f, e, item);
      CountedIsAnItem(g, f, e, item);
    }
  }

  // ---- The reference on the rows -----------------------------------------------------------

  /** A usable event says this on the topic. */
  ghost predicate Said(g: Grammar, f: Formation, sel: Selection, topic: Topic, item: Item) {
    TopicOf(item) == topic && exists e :: e in f.events && (sel.Everything? || e.id in sel.ids) && Gives(g, f, e, item)
  }

  /** The last thing said on the topic: by time, then by event, then by place in its text. */
  ghost predicate IsLast(g: Grammar, f: Formation, sel: Selection, topic: Topic, last: Option<Item>) {
    match last
    case None => forall item :: !Said(g, f, sel, topic, item)
    case Some(x) =>
      && Said(g, f, sel, topic, x)
      && forall item :: Said(g, f, sel, topic, item) ==>
           && item.stamp.time <= x.stamp.time
           && (item.stamp.time == x.stamp.time ==> item.stamp.event <= x.stamp.event)
           && (item.stamp.time == x.stamp.time && item.stamp.event == x.stamp.event ==> item.stamp.offset <= x.stamp.offset)
  }

  lemma GivenByItsEvent(g: Grammar, f: Formation, e: Event, item: Item)
    requires Gives(g, f, e, item)
    ensures item.stamp.event == e.id
  {
    ClassifiedAreGiven(g, f, e, item);
    ItemsOfEvent(g, f, e, item);
  }

  lemma SaidIffEligible(g: Grammar, f: Formation, sel: Selection, topic: Topic, item: Item)
    ensures Said(g, f, sel, topic, item) <==> item in Items(g, f, |f.events|) && Eligible(item, topic, sel)
  {
    ItemsAreGiven(g, f, item);
    forall e | e in f.events && Gives(g, f, e, item)
      ensures item.stamp.event == e.id
    {
      GivenByItsEvent(g, f, e, item);
    }
  }

  lemma LatestIsLast(g: Grammar, f: Formation, sel: Selection, topic: Topic)
    ensures IsLast(g, f, sel, topic, Latest(Items(g, f, |f.events|), topic, sel))
  {
    LatestIsGreatest(Items(g, f, |f.events|), topic, sel);
    forall item
      ensures Said(g, f, sel, topic, item) <==> item in Items(g, f, |f.events|) && Eligible(item, topic, sel)
    {
      SaidIffEligible(g, f, sel, topic, item);
    }
  }

  /** Result, help, named assessment and next step, from the last assessment. */
  ghost predicate ShowsAssessment(last: Option<Item>, x: Expected) {
    match last
    case Some(Graded(stamp, a)) =>
      && x.assessment == Some(stamp.event) && x.help == a.help
      && (x.result.Correct? <==> a.correct) && (x.result.Incorrect? <==> !a.correct)
      && (x.independentSuccess <==> a.correct && a.help.Independent?)
      && (x.nextStep.DiagnoseError? <==> !a.correct)
      && (x.nextStep.ReduceHelpThenCheck? <==> a.correct && a.help.Supported?)
      && (x.nextStep.IndependentCheck? <==> a.correct && a.help.Independent?)
      && (x.nextStep.ClarifyHelp? <==> a.correct && a.help.Unknown?)
    case _ =>
      && x.assessment == None && x.help.Unknown? && x.result.NoResult? && !x.independentSuccess && x.nextStep.CollectEvidence?
  }

  ghost predicate Stands(last: Option<Item>, at: int) {
    last.Some? && last.value.Wanted? && last.value.control.expiresAt > at
  }

  /** The words of the last request, while it stands. */
  ghost predicate ShowsWords(last: Option<Item>, at: int, words: Option<string>) {
    && (words.Some? ==> Stands(last, at) && last.value.control.wish == Wording(words.value))
    && (Stands(last, at) && last.value.control.wish.Wording? ==> words.Some?)
  }

  /** The budget asked for while it stands, and never more than twenty minutes while support is asked for. */
  ghost predicate ShowsMinutes(budget: Option<Item>, support: Option<Item>, at: int, minutes: Option<int>) {
    var asked := Stands(budget, at) && budget.value.control.wish.Budget?;
    && (minutes.Some? <==> asked || Stands(support, at))
    && (asked && !Stands(support, at) ==> minutes == Some(budget.value.control.wish.minutes))
    && (!asked && Stands(support, at) ==> minutes == Some(20))
    && (asked && Stands(support, at) ==>
          minutes == Some(if budget.value.control.wish.minutes <= 20 then budget.value.control.wish.minutes else 20))
  }

  ghost predicate ShowsEvidence(v: View, evidence: set<int>) {
    forall id :: id in evidence <==>
      || (v.grade.Some? && v.grade.value.stamp.event == id)
      || (v.grade.None? && v.report.Some? && v.report.value.stamp.event == id)
      || (v.budget.Some? && v.budget.value.stamp.event == id)
      || (v.priority.Some? && v.priority.value.stamp.event == id)
      || (v.anchor.Some? && v.anchor.value.stamp.event == id)
      || (v.support.Some? && v.support.value.stamp.event == id)
  }

  /** The last things said by usable events, and what the reference makes of them. */
  ghost predicate IsView(g: Grammar, f: Formation, sel: Selection, v: View) {
    && IsLast(g, f, sel, Grades, v.grade) && IsLast(g, f, sel, Reports, v.report)
    && IsLast(g, f, sel, Requested(TimeBudget), v.budget) && IsLast(g, f, sel, Requested(CurrentPriority), v.priority)
    && IsLast(g, f, sel, Requested(ReturnAnchor), v.anchor) && IsLast(g, f, sel, Requested(Support), v.support)
  }

  ghost predicate Shows(v: View, at: int, x: Expected) {
    && ShowsAssessment(v.grade, x) && !x.stableMastery
    && ShowsWords(v.priority, at, x.priority) && ShowsWords(v.anchor, at, x.anchor)
    && (x.support <==> Stands(v.support, at)) && ShowsMinutes(v.budget, v.support, at, x.minutes)
    && ShowsEvidence(v, x.evidence)
  }

  ghost predicate Says(g: Grammar, f: Formation, sel: Selection, x: Expected) {
    exists v :: IsView(g, f, sel, v) && Shows(v, f.at, x)
  }

  lemma GivenWish(g: Grammar, f: Formation, e: Event, item: Item)
    requires Gives(g, f, e, item) && item.Wanted?
    ensures IsRequest(g, f, e, item.control)
  {
  }

  lemma LastBudgetIsPositive(g: Grammar, f: Formation, sel: Selection, last: Option<Item>)
    requires IsLast(g, f, sel, Requested(TimeBudget), last)
    ensures last.Some? && last.value.Wanted? && last.value.control.wish.Budget? ==> last.value.control.wish.minutes >= 1
  {
    if last.Some? && last.value.Wanted? && last.value.control.wish.Budget? {
      assert Said(g, f, sel, Requested(TimeBudget), last.value);
      var e :| e in f.events && Gives(g, f, e, last.value);
      GivenWish(g, f, e, last.value);
      RequestsWereMade(g, e, last.value.control);
    }
  }

  lemma AssessmentIsShown(v: View, at: int)
    requires v.grade.Some? ==> v.grade.value.Graded?
    ensures ShowsAssessment(v.grade, Expect(v, at))
  {
  }

  lemma EvidenceIsShown(v: View, at: int)
    ensures ShowsEvidence(v, Expect(v, at).evidence)
  {
    CitedAre(v, at);
  }

  lemma WishesAreShown(v: View, at: int)
    requires v.budget.Some? && v.budget.value.Wanted? && v.budget.value.control.wish.Budget? ==> v.budget.value.control.wish.minutes >= 1
    ensures ShowsWords(v.priority, at, Expect(v, at).priority) && ShowsWords(v.anchor, at, Expect(v, at).anchor)
    ensures Expect(v, at).support <==> Stands(v.support, at)
    ensures ShowsMinutes(v.budget, v.support, at, Expect(v, at).minutes)
  {
  }

  lemma ViewIsShown(g: Grammar, f: Formation, sel: Selection, v: View)
    requires IsView(g, f, sel, v)
    ensures Shows(v, f.at, Expect(v, f.at))
  {
    LastBudgetIsPositive(g, f, sel, v.budget);
    assert v.grade.Some? ==> Said(g, f, sel, Grades, v.grade.value) && TopicOf(v.grade.value) == Grades;
    AssessmentIsShown(v, f.at);
    WishesAreShown(v, f.at);
    EvidenceIsShown(v, f.at);
  }

  /** The reference says what the last usable events say, row by row. */
  lemma ReferenceSays(g: Grammar, f: Formation, sel: Selection)
    ensures Says(g, f, sel, Derive(g, f, sel))
  {
    var v := ViewOf(Items(g, f, |f.events|), sel);
    forall topic
      ensures IsLast(g, f, sel, topic, Latest(Items(g, f, |f.events|), topic, sel))
    {
      LatestIsLast(g, f, sel, topic);
    }
    ViewIsShown(g, f, sel, v);
  }

  // ---- The program -------------------------------------------------------------------------

  /** The query names a learner, a project, a checkpoint and a session, and they belong together. */
  ghost predicate IsComplete(f: Formation) {
    && (forall e :: e in f.events ==> e.id > 0)
    && f.scope.session.Some? && RowsOwn(f.scope, f)
  }

  ghost predicate AreIds(ids: seq<int>) {
    (forall id :: id in ids ==> id > 0) && forall i, j :: 0 <= i < j < |ids| ==> ids[i] != ids[j]
  }

  lemma SoundIdsIff(ids: seq<int>)
    ensures SoundIds(ids) <==> AreIds(ids)
  {
    assert forall i :: 0 <= i < |ids| ==> ids[i] in ids;
  }

  ghost predicate HasDistinctIds(f: Formation) {
    forall i, j :: 0 <= i < j < |f.events| ==> f.events[i].id != f.events[j].id
  }

  lemma SoundIff(f: Formation)
    ensures Sound(f) <==> IsComplete(f) && HasDistinctIds(f)
  {
    OwnedIffRowsOwn(f.scope, f);
  }

  /** The event counts: as an assessment, a report, a plain message or a request. */
  ghost predicate IsValid(g: Grammar, f: Formation, e: Event) {
    IsAssessment(e, f) || IsReport(e, f) || IsMessage(e, f) || exists c :: IsRequest(g, f, e, c)
  }

  lemma ClassifyCountsIff(g: Grammar, f: Formation, e: Event)
    ensures Classify(g, f, e).Counts? <==> IsValid(g, f, e)
  {
    match e.kind {
      case ConceptEvaluated => AssessmentCountsIff(g, f, e);
      case ExerciseEvaluated => AssessmentCountsIff(g, f, e);
      case Observation => ReportCountsIff(g, f, e);
      case UserMessage => MessageCountsIff(g, f, e);
      case TeachingInput => RequestCountsIff(g, f, e);
      case OtherKind =>
    }
  }

  /** Every saved event is either valid or excluded, and the excluded ones are listed in saved order. */
  ghost predicate SplitsEvents(g: Grammar, f: Formation, valid: set<int>, excluded: seq<(int, Problem)>) {
    && (forall id :: id in valid <==> exists e :: e in f.events && e.id == id && IsValid(g, f, e))
    && (forall x :: x in excluded ==> exists e :: e in f.events && e.id == x.0 && !IsValid(g, f, e))
    && (forall e :: e in f.events && !IsValid(g, f, e) ==> exists x :: x in excluded && x.0 == e.id)
  }

  lemma {:induction false} ExcludedRowsAre(g: Grammar, f: Formation, n: nat)
    requires n <= |f.events|
    ensures forall x :: x in ExcludedRows(g, f, n) ==> exists e :: e in f.events && e.id == x.0 && !IsValid(g, f, e)
  {
    if n > 0 {
      ExcludedRowsAre(g, f, n - 1);
      var last := f.events[n - 1];
      ClassifyCountsIff(g, f, last);
      forall x | x in ExcludedRows(g, f, n)
        ensures exists e :: e in f.events && e.id == x.0 && !IsValid(g, f, e)
      {
        if x !in ExcludedRows(g, f, n - 1) {
          assert last in f.events && last.id == x.0;
        }
      }
    }
  }

  lemma {:induction false} ExcludedEventIsListed(g: Grammar, f: Formation, n: nat, i: nat)
    requires i < n <= |f.events| && Classify(g, f, f.events[i]).Excluded?
    ensures (f.events[i].id, Classify(g, f, f.events[i]).problem) in ExcludedRows(g, f, n)
  {
    if i < n - 1 {
      ExcludedEventIsListed(g, f, n - 1, i);
    }
  }

  lemma EventsAreSplit(g: Grammar, f: Formation)
    ensures SplitsEvents(g, f, ValidIds(g, f), ExcludedRows(g, f, |f.events|))
  {
    ExcludedRowsAre(g, f, |f.events|);
    forall e | e in f.events
      ensures Classify(g, f, e).Counts? <==> IsValid(g, f, e)
    {
      ClassifyCountsIff(g, f, e);
    }
    forall e | e in f.events && !IsValid(g, f, e)
      ensures exists x :: x in ExcludedRows(g, f, |f.events|) && x.0 == e.id
    {
      var i :| 0 <= i < |f.events| && f.events[i] == e;
      ExcludedEventIsListed(g, f, |f.events|, i);
    }
  }

  /** The available ids may be used, or all if none are listed. */
  ghost predicate Lets(sel: Selection, available: Option<seq<int>>) {
    forall id :: sel.Everything? || id in sel.ids <==> available.None? || id in available.value
  }

  datatype Derived =
    | Malformed
    | Reference(expected: Expected, valid: set<int>, excluded: seq<(int, Problem)>)

  /** The reference of a history, or of the part of it whose ids are available. */
  method DeriveReference(g: Grammar, f: Formation, available: Option<seq<int>>) returns (r: Derived)
    ensures r.Malformed? <==> !(IsComplete(f) && HasDistinctIds(f) && (available.Some? ==> AreIds(available.value)))
    ensures r.Reference? ==>
      && r.expected == Derive(g, f, SelectionOf(available))
      && r.valid == ValidIds(g, f) && r.excluded == ExcludedRows(g, f, |f.events|)
    ensures r.Reference? ==> SplitsEvents(g, f, r.valid, r.excluded)
    ensures r.Reference? ==> exists sel :: Lets(sel, available) && Says(g, f, sel, r.expected)
  {
    SoundIff(f);
    if available.Some? {
      SoundIdsIff(available.value);
    }
    if !Sound(f) || (available.Some? && !SoundIds(available.value)) {
      return Malformed;
    }
    var sel := SelectionOf(available);
    var grades, reports, wishes, valid, excluded := Collect(g, f, sel);
    var grade := MaxByStamp(grades, Grades);
    var report := MaxByStamp(reports, Reports);
    var bySlot := BySlot(wishes);
    var view := View(grade, report, InSlot(bySlot, TimeBudget), InSlot(bySlot, CurrentPriority),
                     InSlot(bySlot, ReturnAnchor), InSlot(bySlot, Support));
    assert view == ViewOf(Items(g, f, |f.events|), sel);
    ReferenceSays(g, f, sel);
    EventsAreSplit(g, f);
    assert Lets(sel, available);
    return Reference(Expect(view, f.at), valid, excluded);
  }
}
