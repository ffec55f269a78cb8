/** What happens to the call ledger when an append raises and the event loop goes on
    (evals/education_memory_counterfactual/reader.py: run_jobs).

    `asyncio.gather` hands the first exception to `run_jobs`, which frees the lock; the other tasks of the
    run are not cancelled by it.  They end only with the event loop, as they do under `main`. */
module Abandonment {
  import opened Options
  import opened Ledger
  import opened Gather
  import opened Runs

  /** The state of the protocol, and the tasks of runs that were abandoned and are still scheduled. */
  datatype World = World(state: State, loose: seq<Phase>)

  datatype Move =
    | Protocol(step: Step)
    | Abandon(p: nat, failed: set<Id>)
    | Loose(i: nat, step: Step)
    | EndLoop

  /** Appends of the `failed` tasks have raised and the caller is told.  By then all tasks have come to
      their reservation, or at least one more than the semaphore has places. */
  ghost predicate CanAbandon(phase: Phase, failed: set<Id>) {
    && phase.Executing? && failed != {} && failed <= phase.tasks.Keys
    && (forall id :: id in failed ==> !phase.tasks[id].Done?)
    && |Started(phase.tasks) + failed| >= Least(|phase.tasks|, phase.run.concurrency)
  }

  /** So whenever the event loop comes to the notice of a failure, the run may be abandoned. */
  lemma NoticeAllowsAbandon(phase: Phase, failed: set<Id>, events: seq<Event>)
    requires phase.Executing? && failed != {} && failed <= phase.tasks.Keys
    requires forall id :: id in failed ==> !phase.tasks[id].Done?
    requires
      var l := After(|phase.tasks|, phase.run.concurrency, events);
      l.ready != [] && l.ready[0].Notice? && l.tried == |Started(phase.tasks) + failed|
    ensures CanAbandon(phase, failed)
  {
    EnoughHaveTried(|phase.tasks|, phase.run.concurrency, events);
  }

  /** A step of one of the abandoned runs, taken without the lock. */
  ghost function StepLoose(w: World, i: nat, step: Step): Option<World>
    requires i < |w.loose|
  {
    if !(step.Reserve? || step.Call? || step.Record?) || step.p != 0 then None
    else
      match Apply(w.state.(procs := map[0 := w.loose[i]]), step)
      case None => None
      case Some(s) => if 0 in s.procs then Some(World(s.(procs := w.state.procs), w.loose[i := s.procs[0]])) else None
  }

  ghost function Advance(w: World, m: Move): Option<World> {
    match m
    case Protocol(step) =>
      (match Apply(w.state, step)
       case None => None
       case Some(s) => Some(World(s, w.loose)))
    case Abandon(p, failed) =>
      if p in w.state.procs && CanAbandon(w.state.procs[p], failed) then
        var phase := w.state.procs[p];
        Some(World(w.state.Released(p), w.loose + [phase.(tasks := phase.tasks - failed)]))
      else None
    case Loose(i, step) => if i < |w.loose| then StepLoose(w, i, step) else None
    case EndLoop => Some(w.(loose := []))
  }

  ghost predicate Path(worlds: seq<World>, moves: seq<Move>) {
    IsRun(Advance, worlds, moves) && worlds[0] == World(EMPTY, [])
  }

  lemma PathStep(worlds: seq<World>, moves: seq<Move>, i: nat)
    requires Path(worlds, moves) && i < |moves|
    ensures Advance(worlds[i], moves[i]) == Some(worlds[i + 1]) && moves[i] in moves
  {
  }

  // ---- A caller that ends the loop ---------------------------------------------------------

  ghost predicate NoneLoose(moves: seq<Move>) {
    forall m :: m in moves ==> !m.Loose?
  }

  lemma MoveKeepsInv(w: World, m: Move)
    requires Inv(w.state) && !m.Loose? && Advance(w, m).Some?
    ensures Inv(Advance(w, m).value.state)
  {
    match m {
      case Protocol(step) => StepKeepsInv(w.state, step);
      case Abandon(p, _) => ReleaseKeepsInv(w.state, p);
      case EndLoop =>
    }
  }

  /** If no abandoned task ever runs again, an abandoned run is a crashed one. */
  lemma EndedLoopKeepsInv(worlds: seq<World>, moves: seq<Move>, k: nat)
    requires Path(worlds, moves) && NoneLoose(moves) && k < |worlds|
    ensures Inv(worlds[k].state)
  {
    forall w: World, m: Move | Inv(w.state) && !m.Loose? && Advance(w, m).Some?
      ensures Inv(Advance(w, m).value.state)
    {
      MoveKeepsInv(w, m);
    }
    Kept(Advance, (w: World) => Inv(w.state), (w: World, m: Move) => !m.Loose?, worlds, moves, 0, k);
  }

  // ---- Any caller --------------------------------------------------------------------------

  datatype Owner = Locker(p: nat) | Stray(i: nat)

  /** This owner has reserved the id and will call it next. */
  ghost predicate Holds(w: World, o: Owner, id: Id) {
    match o
    case Locker(p) =>
      && p in w.state.procs && w.state.procs[p].Executing?
      && id in w.state.procs[p].tasks && w.state.procs[p].tasks[id].Holding?
    case Stray(i) => i < |w.loose| && w.loose[i].Executing? && id in w.loose[i].tasks && w.loose[i].tasks[id].Holding?
  }

  ghost predicate CallsDiffer(calls: seq<Id>) {
    forall i, j :: 0 <= i < j < |calls| ==> calls[i] != calls[j]
  }

  /** Every id is called once at most, and at most one owner is about to call it. */
  ghost predicate Orderly(w: World) {
    && CallsDiffer(w.state.calls)
    && (forall i :: 0 <= i < |w.loose| ==> w.loose[i].Executing?)
    && (forall id :: id in w.state.calls ==> id in Reserved(w.state.disk.ledger))
    && (forall o, id :: Holds(w, o, id) ==> id in Reserved(w.state.disk.ledger) && id !in w.state.calls)
    && (forall o, o', id :: Holds(w, o, id) && Holds(w, o', id) ==> o == o')
  }

  /** A reserve step that finds its id in the ledger. */
  ghost predicate ReservesAgain(w: World, m: Move) {
    match m
    case Protocol(step) => step.Reserve? && step.id in Reserved(w.state.disk.ledger)
    case Loose(_, step) => step.Reserve? && step.id in Reserved(w.state.disk.ledger)
    case _ => false
  }

  /** What a step of owner `o` does to the holders: nothing, a new reservation, or a call. */
  ghost predicate Changes(w: World, w': World, o: Owner, step: Step) {
    && (forall i :: 0 <= i < |w'.loose| ==> w'.loose[i].Executing?)
    && (forall o', id :: Holds(w', o', id) ==> Holds(w, o', id) || (step.Reserve? && o' == o && id == step.id))
    && Reserved(w.state.disk.ledger) <= Reserved(w'.state.disk.ledger)
    && (step.Reserve? ==> step.id in Reserved(w'.state.disk.ledger))
    && w'.state.calls == (if step.Call? then w.state.calls + [step.id] else w.state.calls)
    && (step.Call? ==> Holds(w, o, step.id) && !Holds(w', o, step.id))
  }

  lemma ChangesKeepOrder(w: World, w': World, o: Owner, step: Step)
    requires Orderly(w) && Changes(w, w', o, step)
    requires step.Reserve? ==> step.id !in Reserved(w.state.disk.ledger)
    ensures Orderly(w')
  {
    forall o', id | Holds(w', o', id)
      ensures id in Reserved(w'.state.disk.ledger) && id !in w'.state.calls
    {
    }
  }

  lemma TaskStepChanges(s: State, p: nat, step: Step)
    requires p in s.procs && s.procs[p].Executing? && step.p == p && (step.Reserve? || step.Call? || step.Record?)
    requires Apply(s, step).Some?
    ensures
      var s', tasks := Apply(s, step).value, s.procs[p].tasks;
      && p in s'.procs && s'.procs[p].Executing? && s'.procs == s.procs[p := s'.procs[p]]
      && step.id in tasks
      && s'.procs[p].tasks == tasks[step.id := if step.Reserve? then Holding else if step.Call? then Calling else Done]
      && (step.Call? ==> tasks[step.id].Holding?)
      && (forall c :: c in s.disk.ledger ==> c in s'.disk.ledger)
      && (step.Reserve? ==> exists c :: c in s'.disk.ledger && c.row.id == step.id)
      && s'.calls == (if step.Call? then s.calls + [step.id] else s.calls)
  {
    var s' := Apply(s, step).value;
    if step.Reserve? {
      assert s'.disk.ledger[|s.disk.ledger|].row.id == step.id;
    }
  }

  lemma LooseStepChanges(w: World, i: nat, step: Step)
    requires i < |w.loose| && StepLoose(w, i, step).Some? && forall j :: 0 <= j < |w.loose| ==> w.loose[j].Executing?
    ensures Changes(w, StepLoose(w, i, step).value, Stray(i), step)
  {
    TaskStepChanges(w.state.(procs := map[0 := w.loose[i]]), 0, step);
  }

  lemma QuietStep(s: State, step: Step)
    requires Apply(s, step).Some? && !(step.Reserve? || step.Call? || step.Record?)
    ensures
      var s' := Apply(s, step).value;
      && s'.disk.ledger == s.disk.ledger && s'.calls == s.calls
      && (forall p :: p in s'.procs && p != step.p ==> p in s.procs && s'.procs[p] == s.procs[p])
      && (step.p in s'.procs && s'.procs[step.p].Executing? ==>
           || (step.p in s.procs && s'.procs[step.p] == s.procs[step.p])
           || forall id :: id in s'.procs[step.p].tasks ==> s'.procs[step.p].tasks[id].Waiting?)
  {
  }

  lemma ProtocolStepChanges(w: World, step: Step)
    requires Apply(w.state, step).Some? && forall j :: 0 <= j < |w.loose| ==> w.loose[j].Executing?
    ensures Changes(w, World(Apply(w.state, step).value, w.loose), Locker(step.p), step)
  {
    if step.Reserve? || step.Call? || step.Record? {
      TaskStepChanges(w.state, step.p, step);
    } else {
      QuietStep(w.state, step);
    }
  }

  lemma AbandonKeepsOrder(w: World, p: nat, failed: set<Id>)
    requires Orderly(w) && Advance(w, Abandon(p, failed)).Some?
    ensures Orderly(Advance(w, Abandon(p, failed)).value)
  {
    var w' := Advance(w, Abandon(p, failed)).value;
    var n := |w.loose|;
    forall o, job | Holds(w', o, job)
      ensures Holds(w, if o == Stray(n) then Locker(p) else o, job) && o != Locker(p)
    {
    }
  }

  lemma AdvanceKeepsOrder(w: World, m: Move)
    requires Orderly(w) && Advance(w, m).Some? && !ReservesAgain(w, m)
    ensures Orderly(Advance(w, m).value)
  {
    match m {
      case Protocol(step) =>
        ProtocolStepChanges(w, step);
        ChangesKeepOrder(w, Advance(w, m).value, Locker(step.p), step);
      case Abandon(p, failed) => AbandonKeepsOrder(w, p, failed);
      case Loose(i, step) =>
        LooseStepChanges(w, i, step);
        ChangesKeepOrder(w, Advance(w, m).value, Stray(i), step);
      case EndLoop => EndLoopKeepsOrder(w);
    }
  }

  lemma EndLoopKeepsOrder(w: World)
    requires Orderly(w)
    ensures Orderly(w.(loose := []))
  {
    assert forall o, id :: Holds(w.(loose := []), o, id) ==> Holds(w, o, id);
  }

  /** Whoever goes on without the lock: no id is called twice as long as no reserve step finds its id
      already in the ledger. */
  lemma CalledOnceUnlessReservedAgain(worlds: seq<World>, moves: seq<Move>, k: nat)
    requires Path(worlds, moves) && k < |worlds|
    requires forall i :: 0 <= i < k ==> !ReservesAgain(worlds[i], moves[i])
    ensures Orderly(worlds[k])
  {
    forall w: World, m: Move | Orderly(w) && !ReservesAgain(w, m) && Advance(w, m).Some?
      ensures Orderly(Advance(w, m).value)
    {
      AdvanceKeepsOrder(w, m);
    }
    Kept(Advance, (w: World) => Orderly(w), (w: World, m: Move) => !ReservesAgain(w, m), worlds, moves, 0, k);
  }

  lemma LedgerGrowsBy(s: State, step: Step)
    requires Apply(s, step).Some?
    ensures
      var before, after := s.disk.ledger, Apply(s, step).value.disk.ledger;
      if step.Reserve? then |after| == |before| + 1 && after[..|before|] == before && after[|before|].row.id == step.id
      else after == before
  {
  }

  lemma OneRowMore(ledger: seq<Chunk<Reservation>>, longer: seq<Chunk<Reservation>>)
    requires |longer| == |ledger| + 1 && longer[..|ledger|] == ledger
    ensures UniqueReservations(longer) <==> UniqueReservations(ledger) && longer[|ledger|].row.id !in Reserved(ledger)
  {
    assert forall i :: 0 <= i < |ledger| ==> longer[i] == ledger[i];
  }

  lemma MoveKeepsLedgerUniqueIff(w: World, m: Move)
    requires Advance(w, m).Some?
    ensures UniqueReservations(Advance(w, m).value.state.disk.ledger)
       <==> UniqueReservations(w.state.disk.ledger) && !ReservesAgain(w, m)
  {
    var w' := Advance(w, m).value;
    match m {
      case Protocol(step) => LedgerGrowsBy(w.state, step);
      case Loose(i, step) => LedgerGrowsBy(w.state.(procs := map[0 := w.loose[i]]), step);
      case _ =>
    }
    if w'.state.disk.ledger != w.state.disk.ledger {
      OneRowMore(w.state.disk.ledger, w'.state.disk.ledger);
    }
  }

  /** The ledger holds one row per id exactly as long as no reserve step has found its id in it. */
  lemma LedgerIsUniqueIff(worlds: seq<World>, moves: seq<Move>, k: nat)
    requires Path(worlds, moves) && k < |worlds|
    ensures UniqueReservations(worlds[k].state.disk.ledger)
       <==> forall i :: 0 <= i < k ==> !ReservesAgain(worlds[i], moves[i])
  {
    forall w: World, m: Move | Advance(w, m).Some?
      ensures UniqueReservations(Advance(w, m).value.state.disk.ledger) <==> UniqueReservations(w.state.disk.ledger) && !ReservesAgain(w, m)
    {
      MoveKeepsLedgerUniqueIff(w, m);
    }
    KeptIff(Advance, (w: World) => UniqueReservations(w.state.disk.ledger), (w: World, m: Move) => ReservesAgain(w, m), worlds, moves, k);
  }

  /** A result, of a call or of the reconciliation, whose id the output already holds. */
  ghost predicate RecordsAgain(w: World, m: Move) {
    match m
    case Protocol(step) =>
      || (step.Record? && step.id in Recorded(w.state.disk.output))
      || (step.Reconcile? && step.p in w.state.procs && w.state.procs[step.p].Reconciling?
          && w.state.procs[step.p].orphans != [] && w.state.procs[step.p].orphans[0].id in Recorded(w.state.disk.output))
    case Loose(_, step) => step.Record? && step.id in Recorded(w.state.disk.output)
    case _ => false
  }

  lemma OutputGrowsBy(s: State, step: Step)
    requires Apply(s, step).Some?
    ensures
      var before, after := s.disk.output, Apply(s, step).value.disk.output;
      if step.Record? || step.Reconcile? then
        && |after| == |before| + 1 && after[..|before|] == before
        && (step.Record? ==> after[|before|].row.id == step.id)
        && (step.Reconcile? ==>
              && step.p in s.procs && s.procs[step.p].Reconciling? && s.procs[step.p].orphans != []
              && after[|before|].row.id == s.procs[step.p].orphans[0].id)
      else after == before
  {
  }

  lemma OneResultMore(output: seq<Chunk<Result>>, longer: seq<Chunk<Result>>)
    requires |longer| == |output| + 1 && longer[..|output|] == output
    ensures UniqueResults(longer) <==> UniqueResults(output) && longer[|output|].row.id !in Recorded(output)
  {
    assert forall i :: 0 <= i < |output| ==> longer[i] == output[i];
  }

  lemma MoveKeepsOutputUniqueIff(w: World, m: Move)
    requires Advance(w, m).Some?
    ensures UniqueResults(Advance(w, m).value.state.disk.output)
       <==> UniqueResults(w.state.disk.output) && !RecordsAgain(w, m)
  {
    var w' := Advance(w, m).value;
    match m {
      case Protocol(step) => OutputGrowsBy(w.state, step);
      case Loose(i, step) => OutputGrowsBy(w.state.(procs := map[0 := w.loose[i]]), step);
      case _ =>
    }
    if w'.state.disk.output != w.state.disk.output {
      OneResultMore(w.state.disk.output, w'.state.disk.output);
    }
  }

  /** The output holds one row per id exactly as long as no result has found its id in it. */
  lemma OutputIsUniqueIff(worlds: seq<World>, moves: seq<Move>, k: nat)
    requires Path(worlds, moves) && k < |worlds|
    ensures UniqueResults(worlds[k].state.disk.output)
       <==> forall i :: 0 <= i < k ==> !RecordsAgain(worlds[i], moves[i])
  {
    forall w: World, m: Move | Advance(w, m).Some?
      ensures UniqueResults(Advance(w, m).value.state.disk.output) <==> UniqueResults(w.state.disk.output) && !RecordsAgain(w, m)
    {
      MoveKeepsOutputUniqueIff(w, m);
    }
    KeptIff(Advance, (w: World) => UniqueResults(w.state.disk.output), (w: World, m: Move) => RecordsAgain(w, m), worlds, moves, k);
  }

  // ---- What a caller can know --------------------------------------------------------------

  /** No run selects more jobs than this. */
  predicate AtMost(run: Run, n: nat) {
    |run.jobs| <= n || run.maxCalls <= n
  }

  lemma SelectedAtMost(run: Run, attempted: set<Id>, n: nat)
    requires AtMost(run, n)
    ensures |FreshTasks(run, attempted)| <= n
  {
    var tasks := FreshTasks(run, attempted);
    assert tasks.Keys == Ids(Selected(run, attempted)) && |tasks| == |tasks.Keys|;
    IdsAreFew(Selected(run, attempted));
  }

  ghost predicate PhaseWithin(phase: Phase, n: nat -> nat) {
    && AtMost(phase.run, n(phase.run.concurrency))
    && (phase.Executing? ==> |phase.tasks| <= n(phase.run.concurrency))
  }

  /** Every run that has the lock selects at most `n` jobs, for its number of places. */
  ghost predicate Within(w: World, n: nat -> nat) {
    forall p :: p in w.state.procs ==> PhaseWithin(w.state.procs[p], n)
  }

  ghost predicate StartsWithin(m: Move, n: nat -> nat) {
    m.Protocol? && m.step.Start? ==> AtMost(m.step.run, n(m.step.run.concurrency))
  }

  /** What a step does to the phases: only that of its own process, and tasks neither come nor go once a
      run has selected them. */
  lemma StepMovesOne(s: State, step: Step)
    requires Apply(s, step).Some?
    ensures
      var s' := Apply(s, step).value;
      && (forall p :: p in s'.procs && p != step.p ==> p in s.procs && s'.procs[p] == s.procs[p])
      && (step.p in s'.procs && step.p !in s.procs ==> step.Start? && s'.procs[step.p] == Locked(step.run))
      && (step.p in s'.procs && step.p in s.procs ==>
           var was, now := s.procs[step.p], s'.procs[step.p];
           && now.run == was.run
           && (now.Executing? ==>
                || (was.Executing? && now.tasks.Keys == was.tasks.Keys)
                || (was.Reconciling? && now.tasks == FreshTasks(now.run, was.attempted) && now.attempted == was.attempted)))
  {
    var s' := Apply(s, step).value;
    if step.p in s.procs && s.procs[step.p].Executing? && step.p in s'.procs {
      assert s'.procs[step.p].tasks.Keys == s.procs[step.p].tasks.Keys;
    }
  }

  lemma MoveStaysWithin(w: World, m: Move, n: nat -> nat)
    requires Within(w, n) && StartsWithin(m, n) && Advance(w, m).Some?
    ensures Within(Advance(w, m).value, n)
  {
    var w' := Advance(w, m).value;
    if m.Protocol? {
      StepMovesOne(w.state, m.step);
      var p := m.step.p;
      if p in w'.state.procs && p in w.state.procs {
        var was, now := w.state.procs[p], w'.state.procs[p];
        if now.Executing? && was.Executing? {
          assert |now.tasks| == |now.tasks.Keys| && |was.tasks| == |was.tasks.Keys|;
        } else if now.Executing? {
          SelectedAtMost(now.run, was.attempted, n(now.run.concurrency));
        }
      }
    }
  }

  // ---- Nobody is left waiting --------------------------------------------------------------

  /** An abandoned task reserves without the lock. */
  predicate StrayReserves(m: Move) {
    m.Loose? && m.step.Reserve?
  }

  ghost predicate NoneWaits(w: World) {
    forall i :: 0 <= i < |w.loose| ==>
      w.loose[i].Executing? && forall id :: id in w.loose[i].tasks ==> !w.loose[i].tasks[id].Waiting?
  }

  lemma FullSubset(a: set<Id>, b: set<Id>)
    requires a <= b && |a| >= |b|
    ensures a == b
  {
    if a != b {
      var x :| x in b && x !in a;
      SubsetIsSmaller(a, b - {x});
    }
  }

  /** An abandoned run with no more tasks than one above its places has none that still waits. */
  lemma AbandonLeavesNoneWaiting(phase: Phase, failed: set<Id>)
    requires CanAbandon(phase, failed) && |phase.tasks| <= phase.run.concurrency + 1
    ensures forall id :: id in phase.tasks - failed ==> !phase.tasks[id].Waiting?
  {
    assert |phase.tasks| == |phase.tasks.Keys|;
    FullSubset(Started(phase.tasks) + failed, phase.tasks.Keys);
  }

  function OneAbove(places: nat): nat {
    places + 1
  }

  lemma LooseStepKeepsNoneWaiting(w: World, i: nat, step: Step)
    requires i < |w.loose| && NoneWaits(w) && StepLoose(w, i, step).Some?
    ensures NoneWaits(StepLoose(w, i, step).value) && !step.Reserve?
  {
    TaskStepChanges(w.state.(procs := map[0 := w.loose[i]]), 0, step);
    TaskStepNeeds(w.state.(procs := map[0 := w.loose[i]]), 0, step);
  }

  lemma TaskStepNeeds(s: State, p: nat, step: Step)
    requires p in s.procs && s.procs[p].Executing? && step.p == p && (step.Reserve? || step.Call? || step.Record?)
    requires Apply(s, step).Some?
    ensures step.id in s.procs[p].tasks && (step.Reserve? ==> s.procs[p].tasks[step.id].Waiting?)
  {
  }

  /** If no run selects more than one job above its places, nobody an abandoned run leaves behind waits, so
      nobody reserves without the lock. */
  lemma MoveKeepsNoneWaiting(w: World, m: Move)
    requires Within(w, OneAbove) && NoneWaits(w) && Advance(w, m).Some?
    ensures NoneWaits(Advance(w, m).value) && !StrayReserves(m)
  {
    match m {
      case Protocol(_) =>
      case Abandon(p, failed) => AbandonLeavesNoneWaiting(w.state.procs[p], failed);
      case Loose(i, step) => LooseStepKeepsNoneWaiting(w, i, step);
      case EndLoop =>
    }
  }

  /** What the holder of the lock knows of the ledger: the attempts it has loaded, and that a job it has yet
      to reserve is not in it. */
  ghost predicate LockerKnows(s: State) {
    && (forall p :: p in s.procs <==> s.holder == Some(p))
    && forall p :: p in s.procs ==> PhaseKnows(Reserved(s.disk.ledger), s.procs[p])
  }

  ghost predicate PhaseKnows(reserved: set<Id>, phase: Phase) {
    match phase
    case Locked(_) => true
    case Reconciling(_, attempted, _) => attempted == reserved
    case Executing(_, _, tasks) => forall id :: id in tasks && tasks[id].Waiting? ==> id !in reserved
  }

  lemma OneMoreReserved(ledger: seq<Chunk<Reservation>>, longer: seq<Chunk<Reservation>>)
    requires |longer| == |ledger| + 1 && longer[..|ledger|] == ledger
    ensures Reserved(longer) == Reserved(ledger) + {longer[|ledger|].row.id}
  {
    assert longer == ledger + [longer[|ledger|]];
  }

  lemma QuietStepKeepsKnowledge(s: State, step: Step)
    requires LockerKnows(s) && Apply(s, step).Some? && !(step.Reserve? || step.Call? || step.Record?)
    ensures LockerKnows(Apply(s, step).value)
  {
    if step.Begin? {
      FreshIsNew(s.procs[step.p].run, s.procs[step.p].attempted);
    }
  }

  lemma FreshIsNew(run: Run, attempted: set<Id>)
    ensures forall id :: id in FreshTasks(run, attempted) ==> id !in attempted
  {
    forall id | id in attempted
      ensures id !in FreshTasks(run, attempted)
    {
      SelectedAreNew(run, attempted, id);
    }
  }

  lemma TaskStepKeepsKnowledge(s: State, step: Step)
    requires LockerKnows(s) && Apply(s, step).Some? && (step.Reserve? || step.Call? || step.Record?)
    ensures LockerKnows(Apply(s, step).value) && (step.Reserve? ==> step.id !in Reserved(s.disk.ledger))
  {
    var s' := Apply(s, step).value;
    TaskStepChanges(s, step.p, step);
    TaskStepNeeds(s, step.p, step);
    LedgerGrowsBy(s, step);
    if step.Reserve? {
      OneMoreReserved(s.disk.ledger, s'.disk.ledger);
    }
    assert s'.holder == s.holder;
  }

  /** As long as nobody reserves without the lock, no reserve step finds its id in the ledger. */
  lemma MoveKeepsKnowledge(w: World, m: Move)
    requires LockerKnows(w.state) && Advance(w, m).Some? && !StrayReserves(m)
    ensures LockerKnows(Advance(w, m).value.state) && !ReservesAgain(w, m)
  {
    match m {
      case Protocol(step) =>
        if step.Reserve? || step.Call? || step.Record? {
          TaskStepKeepsKnowledge(w.state, step);
        } else {
          QuietStepKeepsKnowledge(w.state, step);
        }
      case Abandon(_, _) =>
      case Loose(i, step) => LedgerGrowsBy(w.state.(procs := map[0 := w.loose[i]]), step);
      case EndLoop =>
    }
  }

  lemma NobodyReservesAgain(worlds: seq<World>, moves: seq<Move>, k: nat)
    requires Path(worlds, moves) && k < |worlds|
    requires forall i :: 0 <= i < k ==> !StrayReserves(moves[i])
    ensures LockerKnows(worlds[k].state)
  {
    forall w: World, m: Move | LockerKnows(w.state) && !StrayReserves(m) && Advance(w, m).Some?
      ensures LockerKnows(Advance(w, m).value.state)
    {
      MoveKeepsKnowledge(w, m);
    }
    Kept(Advance, (w: World) => LockerKnows(w.state), (w: World, m: Move) => !StrayReserves(m), worlds, moves, 0, k);
  }

  /** Then nothing is called or reserved twice. */
  lemma OnceUnlessStraysReserve(worlds: seq<World>, moves: seq<Move>, k: nat)
    requires Path(worlds, moves) && k < |worlds|
    requires forall i :: 0 <= i < k ==> !StrayReserves(moves[i])
    ensures CallsDiffer(worlds[k].state.calls) && UniqueReservations(worlds[k].state.disk.ledger)
  {
    forall i | 0 <= i < k
      ensures !ReservesAgain(worlds[i], moves[i])
    {
      NobodyReservesAgain(worlds, moves, i);
      PathStep(worlds, moves, i);
      MoveKeepsKnowledge(worlds[i], moves[i]);
    }
    CalledOnceUnlessReservedAgain(worlds, moves, k);
    LedgerIsUniqueIff(worlds, moves, k);
  }

  lemma NobodyIsLeftWaiting(worlds: seq<World>, moves: seq<Move>, k: nat)
    requires Path(worlds, moves) && k < |worlds| && forall m :: m in moves ==> StartsWithin(m, OneAbove)
    ensures Within(worlds[k], OneAbove) && NoneWaits(worlds[k])
  {
    forall w: World, m: Move | Within(w, OneAbove) && NoneWaits(w) && StartsWithin(m, OneAbove) && Advance(w, m).Some?
      ensures Within(Advance(w, m).value, OneAbove) && NoneWaits(Advance(w, m).value)
    {
      MoveStaysWithin(w, m, OneAbove);
      MoveKeepsNoneWaiting(w, m);
    }
    Kept(Advance, (w: World) => Within(w, OneAbove) && NoneWaits(w), (w: World, m: Move) => StartsWithin(m, OneAbove),
         worlds, moves, 0, k);
  }

  /** If every run selects at most one job more than it has places, nothing is called or reserved twice,
      whatever the loop goes on to do. */
  lemma SmallRunsCallOnce(worlds: seq<World>, moves: seq<Move>, k: nat)
    requires Path(worlds, moves) && k < |worlds| && forall m :: m in moves ==> StartsWithin(m, OneAbove)
    ensures CallsDiffer(worlds[k].state.calls) && UniqueReservations(worlds[k].state.disk.ledger)
  {
    forall i | 0 <= i < k
      ensures !StrayReserves(moves[i])
    {
      NobodyIsLeftWaiting(worlds, moves, i);
      PathStep(worlds, moves, i);
      MoveKeepsNoneWaiting(worlds[i], moves[i]);
    }
    OnceUnlessStraysReserve(worlds, moves, k);
  }

  // ---- Runs of one job ---------------------------------------------------------------------

  function One(places: nat): nat {
    1
  }

  ghost predicate NoneLeft(w: World) {
    forall i :: 0 <= i < |w.loose| ==> w.loose[i].Executing? && w.loose[i].tasks == map[]
  }

  lemma MoveKeepsNoneLeft(w: World, m: Move)
    requires Within(w, One) && NoneLeft(w) && Advance(w, m).Some?
    ensures NoneLeft(Advance(w, m).value) && !m.Loose?
  {
    match m {
      case Protocol(_) =>
      case Abandon(p, failed) =>
        var phase := w.state.procs[p];
        assert |phase.tasks| == |phase.tasks.Keys|;
        FullSubset(failed, phase.tasks.Keys) by {
          assert |failed| >= 1 by {
            var id :| id in failed;
            SubsetIsSmaller({id}, failed);
          }
        }
        assert phase.tasks - failed == map[];
      case Loose(i, step) => TaskStepNeeds(w.state.(procs := map[0 := w.loose[i]]), 0, step);
      case EndLoop =>
    }
  }

  lemma SingleMove(w: World, m: Move)
    requires Within(w, One) && NoneLeft(w) && StartsWithin(m, One) && Advance(w, m).Some?
    ensures Within(Advance(w, m).value, One) && NoneLeft(Advance(w, m).value) && !m.Loose?
  {
    MoveStaysWithin(w, m, One);
    MoveKeepsNoneLeft(w, m);
  }

  lemma NobodyIsLeft(worlds: seq<World>, moves: seq<Move>, k: nat)
    requires Path(worlds, moves) && k < |worlds| && forall m :: m in moves ==> StartsWithin(m, One)
    ensures Within(worlds[k], One) && NoneLeft(worlds[k])
  {
    forall w: World, m: Move | Within(w, One) && NoneLeft(w) && StartsWithin(m, One) && Advance(w, m).Some?
      ensures Within(Advance(w, m).value, One) && NoneLeft(Advance(w, m).value)
    {
      SingleMove(w, m);
    }
    Kept(Advance, (w: World) => Within(w, One) && NoneLeft(w), (w: World, m: Move) => StartsWithin(m, One), worlds, moves, 0, k);
  }

  /** If every run selects at most one job, an abandoned run is a crashed one. */
  lemma SingleRunsKeepInv(worlds: seq<World>, moves: seq<Move>, k: nat)
    requires Path(worlds, moves) && k < |worlds| && forall m :: m in moves ==> StartsWithin(m, One)
    ensures Inv(worlds[k].state)
  {
    forall m | m in moves
      ensures !m.Loose?
    {
      var i :| 0 <= i < |moves| && moves[i] == m;
      NobodyIsLeft(worlds, moves, i);
      PathStep(worlds, moves, i);
      SingleMove(worlds[i], moves[i]);
    }
    EndedLoopKeepsInv(worlds, moves, k);
  }
}
