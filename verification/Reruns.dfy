/** Running the same jobs again after an append has raised, in an event loop that goes on
    (evals/education_memory_counterfactual/reader.py: run_jobs): exactly which runs can then call a job
    twice, and which can answer one twice. */
module Reruns {
  import opened Options
  import opened Gather
  import opened Ledger
  import opened Runs
  import opened Abandonment

  ghost predicate OnlyStarts(moves: seq<Move>, run: Run) {
    forall m :: m in moves && m.Protocol? && m.step.Start? ==> m.step.run == run
  }

  /** A world that any number of runs of these jobs can lead to, abandoned or not. */
  ghost predicate Reachable(run: Run, w: World) {
    exists worlds, moves :: Path(worlds, moves) && OnlyStarts(moves, run) && worlds[|moves|] == w
  }

  lemma NothingYet(run: Run)
    ensures Reachable(run, World(EMPTY, []))
  {
    var worlds, moves := [World(EMPTY, [])], [];
    assert Path(worlds, moves) && OnlyStarts(moves, run) && worlds[|moves|] == World(EMPTY, []);
  }

  lemma OneMove(run: Run, w: World, m: Move, w': World)
    requires Reachable(run, w) && Advance(w, m) == Some(w')
    requires m.Protocol? && m.step.Start? ==> m.step.run == run
    ensures Reachable(run, w')
  {
    var worlds, moves :| Path(worlds, moves) && OnlyStarts(moves, run) && worlds[|moves|] == w;
    RunExtends(Advance, worlds, moves, m, w');
    assert Path(worlds + [w'], moves + [m]) && OnlyStarts(moves + [m], run);
  }

  // ---- The two safe cases ------------------------------------------------------------------

  lemma SmallRerunsCallOnce(run: Run, w: World)
    requires Reachable(run, w) && AtMost(run, run.concurrency + 1)
    ensures CallsDiffer(w.state.calls) && UniqueReservations(w.state.disk.ledger)
  {
    var worlds, moves :| Path(worlds, moves) && OnlyStarts(moves, run) && worlds[|moves|] == w;
    SmallRunsCallOnce(worlds, moves, |moves|);
  }

  lemma SingleRerunsKeepInv(run: Run, w: World)
    requires Reachable(run, w) && AtMost(run, 1)
    ensures Inv(w.state)
  {
    var worlds, moves :| Path(worlds, moves) && OnlyStarts(moves, run) && worlds[|moves|] == w;
    SingleRunsKeepInv(worlds, moves, |moves|);
  }

  // ---- The first run: its first append raises ----------------------------------------------

  /** How many jobs a first run selects. */
  function Size(run: Run): nat {
    Min(|run.jobs|, run.maxCalls)
  }

  lemma {:induction false} NothingAttempted(jobs: seq<Job>)
    ensures Pending(jobs, {}) == jobs
  {
    if jobs != [] {
      NothingAttempted(jobs[1..]);
    }
  }

  lemma SelectedFirst(run: Run)
    requires Accepted(run)
    ensures Selected(run, {}) == run.jobs[..Size(run)]
  {
    NothingAttempted(run.jobs);
    assert run.jobs[..|run.jobs|] == run.jobs;
  }

  /** The ids of the jobs `first` to `last`. */
  function Stretch(run: Run, first: nat, last: nat): set<Id>
    requires first <= last <= |run.jobs|
  {
    set i | first <= i < last :: run.jobs[i].id
  }

  lemma {:induction false} StretchCounts(run: Run, first: nat, last: nat)
    requires DistinctIds(run.jobs) && first <= last <= |run.jobs|
    ensures |Stretch(run, first, last)| == last - first
    decreases last
  {
    if first < last {
      var fewer, id := Stretch(run, first, last - 1), run.jobs[last - 1].id;
      StretchCounts(run, first, last - 1);
      StretchGrows(run, first, last - 1);
      assert |fewer + {id}| == |fewer| + 1;
    } else {
      assert Stretch(run, first, last) == {};
    }
  }

  lemma StretchGrows(run: Run, first: nat, last: nat)
    requires DistinctIds(run.jobs) && first <= last < |run.jobs|
    ensures Stretch(run, first, last + 1) == Stretch(run, first, last) + {run.jobs[last].id}
    ensures run.jobs[last].id !in Stretch(run, first, last)
  {
    forall i | first <= i < last
      ensures run.jobs[i].id != run.jobs[last].id
    {
      IdsDiffer(run.jobs, i, last);
    }
  }

  lemma FirstIsApart(run: Run, last: nat)
    requires DistinctIds(run.jobs) && 1 <= last <= |run.jobs|
    ensures run.jobs[0].id !in Stretch(run, 1, last)
  {
    forall i | 1 <= i < last
      ensures run.jobs[i].id != run.jobs[0].id
    {
      IdsDiffer(run.jobs, 0, i);
    }
  }

  lemma SelectedIds(run: Run)
    requires Accepted(run)
    ensures Ids(Selected(run, {})) == Stretch(run, 0, Size(run))
    ensures FreshTasks(run, {}).Keys == Stretch(run, 0, Size(run)) && |FreshTasks(run, {})| == Size(run)
  {
    SelectedFirst(run);
    StretchCounts(run, 0, Size(run));
    var jobs := run.jobs[..Size(run)];
    forall id | id in Ids(jobs)
      ensures id in Stretch(run, 0, Size(run))
    {
      var job :| job in jobs && job.id == id;
      var i :| 0 <= i < |jobs| && jobs[i] == job;
      assert run.jobs[i].id == id;
    }
    forall i | 0 <= i < Size(run)
      ensures run.jobs[i].id in Ids(jobs)
    {
      assert jobs[i] in jobs;
    }
    assert FreshTasks(run, {}).Keys == Ids(Selected(run, {}));
    assert |FreshTasks(run, {})| == |FreshTasks(run, {}).Keys|;
  }

  function Row(run: Run, job: Job): Chunk<Reservation> {
    Chunk(Reservation(job.id, run.Ask(job)), Clean)
  }

  /** The ledger after jobs 1 to `k` have reserved. */
  function RowsTo(run: Run, k: nat): (rows: seq<Chunk<Reservation>>)
    requires k < |run.jobs|
    ensures |rows| == k && forall i :: 0 <= i < k ==> rows[i] == Row(run, run.jobs[i + 1])
  {
    seq(k, i requires 0 <= i < k => Row(run, run.jobs[i + 1]))
  }

  function TasksTo(run: Run, k: nat): (tasks: map<Id, Task>)
    requires k < |run.jobs| && Size(run) <= |run.jobs|
  {
    map id | id in Stretch(run, 0, Size(run)) :: if id in Stretch(run, 1, k + 1) then Holding else Waiting
  }

  ghost function StateTo(run: Run, k: nat): State
    requires k < |run.jobs|
  {
    State(Disk([], RowsTo(run, k)), Some(0), map[0 := Executing(run, {}, TasksTo(run, k))], [])
  }

  lemma InFlightTo(run: Run, k: nat)
    requires Accepted(run) && k < Size(run)
    ensures InFlight(TasksTo(run, k)) == Started(TasksTo(run, k)) == Stretch(run, 1, k + 1)
    ensures |Stretch(run, 1, k + 1)| == k
  {
    StretchCounts(run, 1, k + 1);
    forall id | id in Stretch(run, 1, k + 1)
      ensures id in TasksTo(run, k)
    {
      var i :| 1 <= i < k + 1 && run.jobs[i].id == id;
      assert 0 <= i < Size(run);
    }
  }

  lemma InStretch(run: Run, first: nat, last: nat, i: nat)
    requires first <= i < last <= |run.jobs|
    ensures run.jobs[i].id in Stretch(run, first, last)
  {
  }

  lemma TasksGrow(run: Run, k: nat)
    requires Accepted(run) && k + 1 < Size(run)
    ensures run.jobs[k + 1].id in TasksTo(run, k) && TasksTo(run, k)[run.jobs[k + 1].id].Waiting?
    ensures TasksTo(run, k + 1) == TasksTo(run, k)[run.jobs[k + 1].id := Holding]
  {
    InStretch(run, 0, Size(run), k + 1);
    StretchGrows(run, 1, k + 1);
  }

  lemma NextReserves(run: Run, k: nat)
    requires Accepted(run) && k + 1 < Size(run) && k < run.concurrency
    ensures Apply(StateTo(run, k), Reserve(0, run.jobs[k + 1].id, Clean)) == Some(StateTo(run, k + 1))
  {
    var job := run.jobs[k + 1];
    InFlightTo(run, k);
    TasksGrow(run, k);
    RequestIsTheJobs(run, run.jobs, job);
    var d := Reserving(StateTo(run, k), 0, run, {}, TasksTo(run, k), job.id, Clean);
    RowsGrow(run, k);
    MapOfOne(Executing(run, {}, TasksTo(run, k)), Executing(run, {}, TasksTo(run, k + 1)));
  }

  lemma RowsGrow(run: Run, k: nat)
    requires k + 1 < |run.jobs|
    ensures RowsTo(run, k + 1) == RowsTo(run, k) + [Row(run, run.jobs[k + 1])]
  {
  }

  lemma MapOfOne(before: Phase, after: Phase)
    ensures map[0 := before][0 := after] == map[0 := after]
  {
  }

  lemma FirstIsUnderway(run: Run)
    requires Accepted(run)
    ensures Reachable(run, World(Underway(EMPTY, 0, run), []))
  {
    NothingYet(run);
    NothingIsRefusedYet(run);
    RunBegins(EMPTY, 0, run);
    var a := EMPTY.(holder := Some(0)).At(0, Locked(run));
    var b := a.At(0, Reconciling(run, {}, []));
    OneMove(run, World(EMPTY, []), Protocol(Start(0, run)), World(a, []));
    OneMove(run, World(a, []), Protocol(Load(0)), World(b, []));
    OneMove(run, World(b, []), Protocol(Begin(0)), World(Underway(EMPTY, 0, run), []));
  }

  lemma StateZero(run: Run)
    requires Accepted(run)
    ensures StateTo(run, 0) == Underway(EMPTY, 0, run)
  {
    SelectedIds(run);
    NothingIsRefusedYet(run);
    assert Stretch(run, 1, 1) == {};
    assert TasksTo(run, 0) == FreshTasks(run, {});
    assert RowsTo(run, 0) == [];
  }

  lemma {:induction false} ReservedTo(run: Run, k: nat)
    requires Accepted(run) && k < Size(run) && k <= run.concurrency
    ensures Reachable(run, World(StateTo(run, k), []))
  {
    if k == 0 {
      FirstIsUnderway(run);
      StateZero(run);
    } else {
      ReservedTo(run, k - 1);
      NextReserves(run, k - 1);
      OneMove(run, World(StateTo(run, k - 1), []), Protocol(Reserve(0, run.jobs[k].id, Clean)), World(StateTo(run, k), []));
    }
  }

  /** As many jobs reserve as find a place while the first one fails. */
  function Took(run: Run): nat
    requires Size(run) > 0
  {
    Least(Size(run), run.concurrency) - 1
  }

  /** The disk, and the tasks left scheduled, when the caller has been told. */
  ghost function Left(run: Run): World
    requires Accepted(run)
  {
    var s := StateTo(run, Took(run));
    World(State(s.disk, None, map[], []), [Executing(run, {}, TasksTo(run, Took(run)) - {run.jobs[0].id})])
  }

  lemma FirstCanFail(run: Run, k: nat)
    requires Accepted(run) && k < Size(run) && k + 1 >= Least(Size(run), run.concurrency)
    ensures CanAbandon(Executing(run, {}, TasksTo(run, k)), {run.jobs[0].id})
  {
    var tasks, failed := TasksTo(run, k), {run.jobs[0].id};
    InFlightTo(run, k);
    TaskCount(run, k);
    FirstIsApart(run, k + 1);
    InStretch(run, 0, Size(run), 0);
    assert Started(tasks) + failed == Stretch(run, 1, k + 1) + failed;
    assert |Stretch(run, 1, k + 1) + failed| == k + 1;
    assert failed <= tasks.Keys && |tasks| == Size(run);
  }

  lemma TaskCount(run: Run, k: nat)
    requires Accepted(run) && k < Size(run)
    ensures |TasksTo(run, k)| == Size(run) && TasksTo(run, k).Keys == Stretch(run, 0, Size(run))
  {
    var tasks := TasksTo(run, k);
    StretchCounts(run, 0, Size(run));
    assert tasks.Keys == Stretch(run, 0, Size(run));
    assert |tasks| == |tasks.Keys|;
  }

  lemma FirstWasNotInFlight(run: Run, k: nat)
    requires Accepted(run) && k < Size(run)
    ensures InFlight(TasksTo(run, k) - {run.jobs[0].id}) == Stretch(run, 1, k + 1)
  {
    InFlightTo(run, k);
    FirstIsApart(run, k + 1);
    assert InFlight(TasksTo(run, k) - {run.jobs[0].id}) == InFlight(TasksTo(run, k)) - {run.jobs[0].id};
  }

  lemma Abandons(disk: Disk, calls: seq<Id>, run: Run, attempted: set<Id>, tasks: map<Id, Task>, failed: set<Id>)
    requires CanAbandon(Executing(run, attempted, tasks), failed)
    ensures Advance(World(State(disk, Some(0), map[0 := Executing(run, attempted, tasks)], calls), []), Abandon(0, failed))
         == Some(World(State(disk, None, map[], calls), [Executing(run, attempted, tasks - failed)]))
  {
    assert map[0 := Executing(run, attempted, tasks)] - {0} == map[];
    assert [] + [Executing(run, attempted, tasks - failed)] == [Executing(run, attempted, tasks - failed)];
  }

  lemma LeftIsReached(run: Run)
    requires Accepted(run)
    ensures Reachable(run, Left(run))
  {
    var k := Took(run);
    ReservedTo(run, k);
    FirstCanFail(run, k);
    Abandons(Disk([], RowsTo(run, k)), [], run, {}, TasksTo(run, k), {run.jobs[0].id});
    OneMove(run, World(StateTo(run, k), []), Abandon(0, {run.jobs[0].id}), Left(run));
  }

  /** The first append raises with every place taken, or with all other jobs reserved; and the event loop
      does come to that. */
  lemma FirstAppendRaises(run: Run)
    requires Accepted(run)
    ensures Reachable(run, Left(run))
    ensures InFlight(Left(run).loose[0].tasks) == Stretch(run, 1, Took(run) + 1)
    ensures
      var l := After(Size(run), run.concurrency, FirstFailure(Size(run)));
      l.ready == [Notice] && l.awaiting == |InFlight(Left(run).loose[0].tasks)| == Took(run)
  {
    LeftIsReached(run);
    FirstWasNotInFlight(run, Took(run));
    InFlightTo(run, Took(run));
    FirstFailureLeavesTheRest(Size(run), run.concurrency);
  }

  // ---- The second run ----------------------------------------------------------------------

  lemma {:induction false} AllOrphans(ledger: seq<Chunk<Reservation>>)
    ensures |OrphansIn(ledger, {})| == |ledger|
    ensures forall i :: 0 <= i < |ledger| ==> OrphansIn(ledger, {})[i] == ledger[i].row
  {
    if ledger != [] {
      AllOrphans(ledger[1..]);
    }
  }

  lemma RowsAreUnique(run: Run, k: nat)
    requires Accepted(run) && k < |run.jobs|
    ensures UniqueReservations(RowsTo(run, k)) && Reserved(RowsTo(run, k)) == Stretch(run, 1, k + 1)
  {
    var rows := RowsTo(run, k);
    forall i, j | 0 <= i < j < k
      ensures rows[i].row.id != rows[j].row.id
    {
      IdsDiffer(run.jobs, i + 1, j + 1);
    }
    forall i | 1 <= i < k + 1
      ensures run.jobs[i].id in Reserved(rows)
    {
      assert rows[i - 1] in rows;
    }
    forall id | id in Reserved(rows)
      ensures id in Stretch(run, 1, k + 1)
    {
      var i :| 0 <= i < k && rows[i].row.id == id;
      InStretch(run, 1, k + 1, i + 1);
    }
  }

  lemma RowsAreTheJobs(run: Run, k: nat, job: Job, l: Chunk<Reservation>)
    requires Accepted(run) && k < |run.jobs| && job in run.jobs && l in RowsTo(run, k) && l.row.id == job.id
    ensures l.row.request == run.Ask(job)
  {
    var i :| 0 <= i < k && RowsTo(run, k)[i] == l;
    var j :| 0 <= j < |run.jobs| && run.jobs[j] == job;
    if i + 1 < j {
      IdsDiffer(run.jobs, i + 1, j);
    } else if j < i + 1 {
      IdsDiffer(run.jobs, j, i + 1);
    }
  }

  /** The same run is let in again. */
  lemma LetInAgain(run: Run, k: nat)
    requires Accepted(run) && k < Size(run)
    ensures Refuses(run, Disk([], RowsTo(run, k))).None?
  {
    var disk := Disk([], RowsTo(run, k));
    RowsAreUnique(run, k);
    assert Recorded(disk.output) == {};
    forall l | l in disk.ledger
      ensures l.row.request.config == run.config && l.row.request.schema == run.schema
    {
    }
    forall job, l | job in run.jobs && l in disk.ledger && l.row.id == job.id
      ensures l.row.request == run.Ask(job)
    {
      RowsAreTheJobs(run, k, job, l);
    }
  }

  function Closed(orphans: seq<Reservation>): (rows: seq<Chunk<Result>>)
    ensures |rows| == |orphans|
    ensures forall i :: 0 <= i < |rows| ==> rows[i] == Chunk(Result(orphans[i].id, orphans[i].request, Interrupted), Clean)
  {
    seq(|orphans|, i requires 0 <= i < |orphans| => Chunk(Result(orphans[i].id, orphans[i].request, Interrupted), Clean))
  }

  ghost function UnderLock(ledger: seq<Chunk<Reservation>>, output: seq<Chunk<Result>>, phase: Phase, calls: seq<Id>): State {
    State(Disk(output, ledger), Some(0), map[0 := phase], calls)
  }

  lemma {:induction false} ReconciledTo(run: Run, ledger: seq<Chunk<Reservation>>, orphans: seq<Reservation>, k: nat, calls: seq<Id>,
                                       loose: seq<Phase>, attempted: set<Id>)
    requires k <= |orphans|
    requires Reachable(run, World(UnderLock(ledger, [], Reconciling(run, attempted, orphans), calls), loose))
    ensures Reachable(run, World(UnderLock(ledger, Closed(orphans[..k]), Reconciling(run, attempted, orphans[k..]), calls), loose))
  {
    if k == 0 {
      assert orphans[..0] == [] && orphans[0..] == orphans && Closed([]) == [];
    } else {
      ReconciledTo(run, ledger, orphans, k - 1, calls, loose, attempted);
      var s := UnderLock(ledger, Closed(orphans[..k - 1]), Reconciling(run, attempted, orphans[k - 1..]), calls);
      var t := UnderLock(ledger, Closed(orphans[..k]), Reconciling(run, attempted, orphans[k..]), calls);
      assert orphans[k - 1..][0] == orphans[k - 1] && orphans[k - 1..][1..] == orphans[k..];
      assert Closed(orphans[..k]) == Closed(orphans[..k - 1]) + [Closed(orphans)[k - 1]];
      MapOfOne(s.procs[0], t.procs[0]);
      OneMove(run, World(s, loose), Protocol(Reconcile(0, Clean)), World(t, loose));
    }
  }

  /** The world of the second run when it begins its calls, beside the tasks of the first. */
  ghost function Again(run: Run): World
    requires Accepted(run)
  {
    var k := Took(run);
    var attempted := Stretch(run, 1, k + 1);
    World(UnderLock(RowsTo(run, k), Closed(OrphansIn(RowsTo(run, k), {})),
                   Executing(run, attempted, FreshTasks(run, attempted)), []),
          Left(run).loose)
  }

  lemma SecondRunLoads(run: Run)
    requires Accepted(run)
    ensures
      var rows, attempted := RowsTo(run, Took(run)), Stretch(run, 1, Took(run) + 1);
      Reachable(run, World(UnderLock(rows, [], Reconciling(run, attempted, OrphansIn(rows, {})), []), Left(run).loose))
  {
    var rows, attempted, loose := RowsTo(run, Took(run)), Stretch(run, 1, Took(run) + 1), Left(run).loose;
    LeftIsReached(run);
    LetInAgain(run, Took(run));
    RowsAreUnique(run, Took(run));
    assert Recorded([]) == {};
    var a := UnderLock(rows, [], Locked(run), []);
    var b := UnderLock(rows, [], Reconciling(run, attempted, OrphansIn(rows, {})), []);
    MapOfOne(a.procs[0], b.procs[0]);
    OneMove(run, Left(run), Protocol(Start(0, run)), World(a, loose));
    OneMove(run, World(a, loose), Protocol(Load(0)), World(b, loose));
  }

  lemma SecondRunBegins(run: Run)
    requires Accepted(run)
    ensures Reachable(run, Again(run))
  {
    var rows, attempted, loose := RowsTo(run, Took(run)), Stretch(run, 1, Took(run) + 1), Left(run).loose;
    var orphans := OrphansIn(rows, {});
    SecondRunLoads(run);
    ReconciledTo(run, rows, orphans, |orphans|, [], loose, attempted);
    assert orphans[..|orphans|] == orphans && orphans[|orphans|..] == [];
    var s := UnderLock(rows, Closed(orphans), Reconciling(run, attempted, []), []);
    MapOfOne(s.procs[0], Again(run).state.procs[0]);
    OneMove(run, World(s, loose), Protocol(Begin(0)), Again(run));
  }

  // ---- A result twice ----------------------------------------------------------------------

  /** A task of the abandoned run makes its call and writes its result. */
  lemma StrayAnswers(run: Run, w: World, tasks: map<Id, Task>, id: Id) returns (u: World)
    requires Reachable(run, w) && w.loose == [Executing(run, {}, tasks)] && id in tasks && tasks[id].Holding?
    ensures Reachable(run, u) && u.loose == [Executing(run, {}, tasks[id := Done])]
    ensures u.state.calls == w.state.calls + [id] && u.state.procs == w.state.procs
    ensures u.state.disk.ledger == w.state.disk.ledger
    ensures u.state.disk.output == w.state.disk.output + [Chunk(Result(id, RequestOf(run, run.jobs, id), Returned("")), Clean)]
  {
    var v := World(w.state.(calls := w.state.calls + [id]), [Executing(run, {}, tasks[id := Calling])]);
    assert w.loose[0 := v.loose[0]] == v.loose;
    MapOfOne(w.loose[0], v.loose[0]);
    OneMove(run, w, Loose(0, Call(0, id)), v);
    var row := Chunk(Result(id, RequestOf(run, run.jobs, id), Returned("")), Clean);
    u := World(v.state.(disk := v.state.disk.(output := v.state.disk.output + [row])), [Executing(run, {}, tasks[id := Done])]);
    assert v.loose[0 := u.loose[0]] == u.loose && tasks[id := Calling][id := Done] == tasks[id := Done];
    MapOfOne(v.loose[0], u.loose[0]);
    OneMove(run, v, Loose(0, Record(0, id, "", Clean)), u);
  }

  lemma AnsweredTwice(run: Run, k: nat, row: Result)
    requires 0 < k < |run.jobs| && row.id == run.jobs[1].id
    ensures
      var output := Closed(OrphansIn(RowsTo(run, k), {})) + [Chunk(row, Clean)];
      !UniqueResults(output) && Readable(output)
  {
    var output := Closed(OrphansIn(RowsTo(run, k), {})) + [Chunk(row, Clean)];
    AllOrphans(RowsTo(run, k));
    assert output[0].row.id == row.id && output[k].row.id == row.id;
  }

  /** With two jobs or more, an abandoned run can answer a job that a later run has closed; then no run is
      let in any more. */
  lemma AbandonedRunAnswersAgain(run: Run) returns (w: World)
    requires Accepted(run) && !AtMost(run, 1)
    ensures Reachable(run, w) && !UniqueResults(w.state.disk.output)
    ensures forall next :: Refuses(next, w.state.disk) == Some(DuplicateJobId)
  {
    var id := run.jobs[1].id;
    SecondRunBegins(run);
    JobOneIsHeld(run);
    w := StrayAnswers(run, Again(run), Left(run).loose[0].tasks, id);
    AnsweredTwice(run, Took(run), Result(id, RequestOf(run, run.jobs, id), Returned("")));
  }

  lemma JobOneIsHeld(run: Run)
    requires Accepted(run) && !AtMost(run, 1)
    ensures run.jobs[1].id in Left(run).loose[0].tasks && Left(run).loose[0].tasks[run.jobs[1].id].Holding?
  {
    FirstIsApart(run, 2);
    InStretch(run, 1, 2, 1);
    InStretch(run, 1, Took(run) + 1, 1);
    InStretch(run, 0, Size(run), 1);
  }

  /** Runs of the same jobs, one after another or abandoned, keep one result per id exactly if they select
      one job at most. */
  lemma RerunsAnswerOnceIff(run: Run)
    requires Accepted(run)
    ensures (forall w :: Reachable(run, w) ==> UniqueResults(w.state.disk.output)) <==> AtMost(run, 1)
  {
    if AtMost(run, 1) {
      forall w | Reachable(run, w)
        ensures UniqueResults(w.state.disk.output)
      {
        SingleRerunsKeepInv(run, w);
      }
    } else {
      var w := AbandonedRunAnswersAgain(run);
    }
  }

  // ---- A call twice ------------------------------------------------------------------------

  lemma {:induction false} PendingNone(jobs: seq<Job>, attempted: set<Id>)
    requires forall i :: 0 <= i < |jobs| ==> jobs[i].id in attempted
    ensures Pending(jobs, attempted) == []
  {
    if jobs != [] {
      PendingNone(jobs[1..], attempted);
    }
  }

  lemma {:induction false} PendingAll(jobs: seq<Job>, attempted: set<Id>)
    requires forall i :: 0 <= i < |jobs| ==> jobs[i].id !in attempted
    ensures Pending(jobs, attempted) == jobs
  {
    if jobs != [] {
      PendingAll(jobs[1..], attempted);
    }
  }

  lemma PendingAround(a: seq<Job>, b: seq<Job>, c: seq<Job>, attempted: set<Id>)
    requires forall i :: 0 <= i < |a| ==> a[i].id !in attempted
    requires forall i :: 0 <= i < |b| ==> b[i].id in attempted
    requires forall i :: 0 <= i < |c| ==> c[i].id !in attempted
    ensures Pending(a + (b + c), attempted) == a + c
  {
    PendingSplits(a, b + c, attempted);
    PendingSplits(b, c, attempted);
    PendingAll(a, attempted);
    PendingNone(b, attempted);
    PendingAll(c, attempted);
    assert [] + c == c;
  }

  lemma LaterIsApart(run: Run, k: nat, i: nat)
    requires DistinctIds(run.jobs) && k + 1 <= i < |run.jobs|
    ensures run.jobs[i].id !in Stretch(run, 1, k + 1)
  {
    forall j | 1 <= j < k + 1
      ensures run.jobs[j].id != run.jobs[i].id
    {
      IdsDiffer(run.jobs, j, i);
    }
  }

  /** The second run has yet to do the first job and those that were left waiting. */
  lemma PendingAgain(run: Run, k: nat)
    requires Accepted(run) && k < |run.jobs|
    ensures Pending(run.jobs, Stretch(run, 1, k + 1)) == [run.jobs[0]] + run.jobs[k + 1..]
  {
    var jobs, attempted := run.jobs, Stretch(run, 1, k + 1);
    FirstIsApart(run, k + 1);
    forall i | 1 <= i < k + 1
      ensures jobs[i].id in attempted
    {
      InStretch(run, 1, k + 1, i);
    }
    forall i | k + 1 <= i < |jobs|
      ensures jobs[i].id !in attempted
    {
      LaterIsApart(run, k, i);
    }
    PendingAround([jobs[0]], jobs[1..k + 1], jobs[k + 1..], attempted);
    assert jobs == [jobs[0]] + (jobs[1..k + 1] + jobs[k + 1..]);
  }

  lemma FirstTwoSelected(run: Run, attempted: set<Id>, rest: seq<Job>)
    requires run.jobs != [] && Pending(run.jobs, attempted) == [run.jobs[0]] + rest
    requires |attempted| + 2 <= run.maxCalls && rest != []
    ensures run.jobs[0].id in FreshTasks(run, attempted) && rest[0].id in FreshTasks(run, attempted)
  {
    var selected := Selected(run, attempted);
    assert selected[0] == run.jobs[0] && selected[1] == rest[0];
  }

  lemma TookEveryPlace(run: Run)
    requires Accepted(run) && !AtMost(run, run.concurrency + 1)
    ensures Took(run) == run.concurrency && run.concurrency + 2 <= |run.jobs| && run.concurrency + 2 <= run.maxCalls
  {
  }

  lemma FirstAndLate(run: Run, k: nat)
    requires Accepted(run) && k + 1 < |run.jobs| && k + 2 <= run.maxCalls
    ensures
      var tasks := FreshTasks(run, Stretch(run, 1, k + 1));
      BothWait(tasks, run.jobs[0].id, run.jobs[k + 1].id)
  {
    PendingAgain(run, k);
    StretchCounts(run, 1, k + 1);
    IdsDiffer(run.jobs, 0, k + 1);
    FirstTwoSelected(run, Stretch(run, 1, k + 1), run.jobs[k + 1..]);
    BothAreFresh(run, Stretch(run, 1, k + 1), run.jobs[0].id, run.jobs[k + 1].id);
  }

  /** A task of the run that has the lock reserves and calls. */
  lemma LockerCalls(run: Run, w: World, attempted: set<Id>, tasks: map<Id, Task>, id: Id) returns (u: World)
    requires Reachable(run, w) && w.state.procs == map[0 := Executing(run, attempted, tasks)]
    requires id in tasks && tasks[id].Waiting? && |InFlight(tasks)| < run.concurrency
    ensures Reachable(run, u) && u.loose == w.loose && u.state.calls == w.state.calls + [id]
    ensures u.state.procs == map[0 := Executing(run, attempted, tasks[id := Calling])]
  {
    var d := Reserving(w.state, 0, run, attempted, tasks, id, Clean);
    MapOfOne(w.state.procs[0], Executing(run, attempted, tasks[id := Holding]));
    OneMove(run, w, Protocol(Reserve(0, id, Clean)), World(d, w.loose));
    u := World(d.(calls := d.calls + [id], procs := map[0 := Executing(run, attempted, tasks[id := Calling])]), w.loose);
    assert tasks[id := Holding][id := Calling] == tasks[id := Calling];
    MapOfOne(d.procs[0], u.state.procs[0]);
    OneMove(run, World(d, w.loose), Protocol(Call(0, id)), u);
  }

  lemma LockerRecords(run: Run, w: World, attempted: set<Id>, tasks: map<Id, Task>, id: Id) returns (u: World)
    requires Reachable(run, w) && w.state.procs == map[0 := Executing(run, attempted, tasks)]
    requires id in tasks && tasks[id].Calling?
    ensures Reachable(run, u) && u.loose == w.loose && u.state.calls == w.state.calls
    ensures u.state.procs == map[0 := Executing(run, attempted, tasks[id := Done])]
  {
    var row := Chunk(Result(id, RequestOf(run, run.jobs, id), Returned("")), Clean);
    u := World(w.state.(disk := w.state.disk.(output := w.state.disk.output + [row]),
                        procs := map[0 := Executing(run, attempted, tasks[id := Done])]), w.loose);
    MapOfOne(w.state.procs[0], u.state.procs[0]);
    OneMove(run, w, Protocol(Record(0, id, "", Clean)), u);
  }

  /** A task of the abandoned run reserves and calls on its own. */
  lemma StrayCalls(run: Run, w: World, tasks: map<Id, Task>, id: Id) returns (u: World)
    requires Reachable(run, w) && w.loose == [Executing(run, {}, tasks)]
    requires id in tasks && tasks[id].Waiting? && |InFlight(tasks)| < run.concurrency
    ensures Reachable(run, u) && u.state.calls == w.state.calls + [id]
  {
    var d := Reserving(w.state.(procs := map[0 := w.loose[0]]), 0, run, {}, tasks, id, Clean);
    var v := World(d.(procs := w.state.procs), [Executing(run, {}, tasks[id := Holding])]);
    MapOfOne(w.loose[0], v.loose[0]);
    assert w.loose[0 := v.loose[0]] == v.loose;
    OneMove(run, w, Loose(0, Reserve(0, id, Clean)), v);
    u := World(v.state.(calls := v.state.calls + [id]), [Executing(run, {}, tasks[id := Holding][id := Calling])]);
    MapOfOne(v.loose[0], u.loose[0]);
    assert v.loose[0 := u.loose[0]] == u.loose;
    OneMove(run, v, Loose(0, Call(0, id)), u);
  }

  lemma LockerAnswers(run: Run, w: World, attempted: set<Id>, tasks: map<Id, Task>, id: Id) returns (u: World)
    requires Reachable(run, w) && w.state.procs == map[0 := Executing(run, attempted, tasks)]
    requires id in tasks && tasks[id].Waiting? && |InFlight(tasks)| < run.concurrency
    ensures Reachable(run, u) && u.loose == w.loose && u.state.calls == w.state.calls + [id]
    ensures u.state.procs == map[0 := Executing(run, attempted, tasks[id := Done])]
  {
    u := LockerCalls(run, w, attempted, tasks, id);
    u := LockerRecords(run, u, attempted, tasks[id := Calling], id);
    assert tasks[id := Calling][id := Done] == tasks[id := Done];
  }

  /** The second run begins with the first job and a late one waiting. */
  lemma SecondRunStands(run: Run) returns (v: World, attempted: set<Id>, tasks: map<Id, Task>)
    requires Accepted(run) && Took(run) + 1 < |run.jobs| && Took(run) + 2 <= run.maxCalls
    ensures Reachable(run, v) && v.loose == Left(run).loose && v.state.calls == []
    ensures v.state.procs == map[0 := Executing(run, attempted, tasks)]
    ensures BothWait(tasks, run.jobs[0].id, LateJob(run))
  {
    SecondRunBegins(run);
    FirstAndLate(run, Took(run));
    v, attempted := Again(run), Stretch(run, 1, Took(run) + 1);
    tasks := FreshTasks(run, attempted);
  }

  lemma BothAreFresh(run: Run, attempted: set<Id>, first: Id, late: Id)
    requires first != late && first in FreshTasks(run, attempted) && late in FreshTasks(run, attempted)
    ensures BothWait(FreshTasks(run, attempted), first, late)
  {
  }

  /** No task has begun, and two of them are these. */
  predicate BothWait(tasks: map<Id, Task>, first: Id, late: Id) {
    && first != late && first in tasks && late in tasks
    && forall id :: id in tasks ==> tasks[id].Waiting?
  }

  /** The first of the jobs that were left waiting. */
  function LateJob(run: Run): Id
    requires Size(run) > 0 && Took(run) + 1 < |run.jobs|
  {
    run.jobs[Took(run) + 1].id
  }

  /** The second run answers the first job and calls the first of those that were left waiting. */
  lemma SecondRunCalls(run: Run) returns (w: World)
    requires Accepted(run) && Took(run) + 1 < |run.jobs| && Took(run) + 2 <= run.maxCalls
    ensures Reachable(run, w) && w.loose == Left(run).loose && w.state.calls == [run.jobs[0].id, LateJob(run)]
  {
    var v, attempted, tasks := SecondRunStands(run);
    w := TwoJobs(run, v, attempted, tasks, run.jobs[0].id, LateJob(run));
  }

  lemma TwoJobs(run: Run, v: World, attempted: set<Id>, tasks: map<Id, Task>, first: Id, late: Id) returns (w: World)
    requires run.concurrency > 0 && Reachable(run, v) && v.state.calls == []
    requires v.state.procs == map[0 := Executing(run, attempted, tasks)]
    requires BothWait(tasks, first, late)
    ensures Reachable(run, w) && w.loose == v.loose && w.state.calls == [first, late]
  {
    assert InFlight(tasks) == {} && InFlight(tasks[first := Done]) == {};
    w := LockerAnswers(run, v, attempted, tasks, first);
    w := LockerCalls(run, w, attempted, tasks[first := Done], late);
  }

  lemma LateJobWaits(run: Run)
    requires Accepted(run) && Took(run) + 1 < |run.jobs| && Took(run) + 2 <= run.maxCalls
    ensures
      var tasks, late := Left(run).loose[0].tasks, LateJob(run);
      && late in tasks && tasks[late].Waiting? && late != run.jobs[1].id
  {
    var k := Took(run) + 1;
    StretchGrows(run, 1, k);
    IdsDiffer(run.jobs, 0, k);
    IdsDiffer(run.jobs, 1, k);
    InStretch(run, 0, Size(run), k);
  }

  /** Once the second job is answered, the abandoned run has a place for the next one that waits. */
  lemma APlaceIsFree(run: Run)
    requires Accepted(run) && !AtMost(run, 1)
    ensures |InFlight(Left(run).loose[0].tasks[run.jobs[1].id := Done])| < run.concurrency
  {
    var tasks, done := Left(run).loose[0].tasks, run.jobs[1].id;
    JobOneIsHeld(run);
    FirstAppendRaises(run);
    assert done in InFlight(tasks) && InFlight(tasks[done := Done]) == InFlight(tasks) - {done};
  }

  /** With two jobs more than places, the jobs of an abandoned run that were left waiting can be called by a
      second run and then by the first one again. */
  lemma AbandonedRunCallsAgain(run: Run) returns (w: World)
    requires Accepted(run) && !AtMost(run, run.concurrency + 1)
    ensures Reachable(run, w) && !CallsDiffer(w.state.calls)
  {
    TookEveryPlace(run);
    var tasks, done, late := Left(run).loose[0].tasks, run.jobs[1].id, LateJob(run);
    w := SecondRunCalls(run);
    JobOneIsHeld(run);
    LateJobWaits(run);
    w := StrayAnswers(run, w, tasks, done);
    APlaceIsFree(run);
    w := StrayCalls(run, w, tasks[done := Done], late);
    assert w.state.calls[1] == w.state.calls[3] == late;
  }

  /** Runs of the same jobs, one after another or abandoned, call no job twice exactly if they select at
      most one job more than the semaphore has places. */
  lemma RerunsCallOnceIff(run: Run)
    requires Accepted(run)
    ensures (forall w :: Reachable(run, w) ==> CallsDiffer(w.state.calls)) <==> AtMost(run, run.concurrency + 1)
  {
    if AtMost(run, run.concurrency + 1) {
      forall w | Reachable(run, w)
        ensures CallsDiffer(w.state.calls)
      {
        SmallRerunsCallOnce(run, w);
      }
    } else {
      var w := AbandonedRunCallsAgain(run);
    }
  }
}
