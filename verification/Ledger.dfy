/** The reader's append-only logs and the processes that share them
    (evals/education_memory_counterfactual/reader.py: run_jobs, _append, _read_jsonl, _job_map).

    A SHA-256 digest is modelled by the value it digests, that is, as free of collisions. */
module Ledger {
  import opened Options
  import opened Runs

  type Id = string

  /** What `request_sha256` stands for. */
  datatype Request = Request(messages: string, config: string, schema: string)

  datatype Reservation = Reservation(id: Id, request: Request)

  datatype Status = Interrupted | Returned(status: string)

  datatype Result = Result(id: Id, request: Request, status: Status)

  // ---- Files -------------------------------------------------------------------------------

  /** What one append leaves on disk: the whole line, the line without its end because the process
      died, or text that no longer parses (a fragment, or a row holding a raw line separator). */
  datatype Shape = Clean | Unterminated | Damaged

  datatype Chunk<+R> = Chunk(row: R, shape: Shape)

  /** A log parses when every line holds exactly one whole row.  A row without its line end can
      only come last: the next append would continue its line. */
  predicate Readable<R>(file: seq<Chunk<R>>) {
    forall i :: 0 <= i < |file| ==> file[i].shape.Clean? || (file[i].shape.Unterminated? && i == |file| - 1)
  }

  function Reserved(ledger: seq<Chunk<Reservation>>): set<Id> {
    set c | c in ledger :: c.row.id
  }

  function Recorded(output: seq<Chunk<Result>>): set<Id> {
    set c | c in output :: c.row.id
  }

  predicate UniqueReservations(ledger: seq<Chunk<Reservation>>) {
    forall i, j :: 0 <= i < j < |ledger| ==> ledger[i].row.id != ledger[j].row.id
  }

  predicate UniqueResults(output: seq<Chunk<Result>>) {
    forall i, j :: 0 <= i < j < |output| ==> output[i].row.id != output[j].row.id
  }

  datatype Disk = Disk(output: seq<Chunk<Result>>, ledger: seq<Chunk<Reservation>>)

  /** Results answer reservations, request for request. */
  predicate Answers(disk: Disk) {
    && Recorded(disk.output) <= Reserved(disk.ledger)
    && forall o, l :: o in disk.output && l in disk.ledger && o.row.id == l.row.id ==> o.row.request == l.row.request
  }

  // ---- Runs --------------------------------------------------------------------------------

  datatype Job = Job(id: Id, messages: string)

  datatype Run = Run(jobs: seq<Job>, maxCalls: nat, concurrency: nat, config: string, schema: string) {
    function Ask(job: Job): Request {
      Request(job.messages, config, schema)
    }
  }

  function Ids(jobs: seq<Job>): set<Id> {
    set job | job in jobs :: job.id
  }

  predicate DistinctIds(jobs: seq<Job>) {
    jobs == [] || (jobs[0].id !in Ids(jobs[1..]) && DistinctIds(jobs[1..]))
  }

  const MAX_JOBS := 10_000
  const MAX_ID := 240

  /** The checks made before the lock is taken. */
  predicate Accepted(run: Run) {
    && 1 <= run.maxCalls <= MAX_JOBS
    && 1 <= run.concurrency <= 4
    && 1 <= |run.jobs| <= MAX_JOBS
    && (forall job :: job in run.jobs ==> 1 <= |job.id| <= MAX_ID)
    && DistinctIds(run.jobs)
  }

  /** The same checks in numbers: at most ten thousand calls and as many jobs, four places, and ids of 1 to
      240 characters none of which repeats. */
  ghost predicate Acceptable(run: Run) {
    && 1 <= run.maxCalls <= 10_000 && 1 <= run.concurrency <= 4 && 1 <= |run.jobs| <= 10_000
    && (forall i :: 0 <= i < |run.jobs| ==> 1 <= |run.jobs[i].id| <= 240)
    && forall i, j :: 0 <= i < j < |run.jobs| ==> run.jobs[i].id != run.jobs[j].id
  }

  lemma {:induction false} DistinctIdsDiffer(jobs: seq<Job>)
    ensures DistinctIds(jobs) <==> forall i, j :: 0 <= i < j < |jobs| ==> jobs[i].id != jobs[j].id
  {
    if jobs != [] {
      var rest := jobs[1..];
      DistinctIdsDiffer(rest);
      assert forall j :: 1 <= j < |jobs| ==> jobs[j] == rest[j - 1] && rest[j - 1] in rest;
      if DistinctIds(jobs) {
        forall i, j | 0 <= i < j < |jobs|
          ensures jobs[i].id != jobs[j].id
        {
          assert i > 0 ==> rest[i - 1].id != rest[j - 1].id;
        }
      }
    }
  }

  lemma AcceptedIffAcceptable(run: Run)
    ensures Accepted(run) <==> Acceptable(run)
  {
    DistinctIdsDiffer(run.jobs);
    assert forall i :: 0 <= i < |run.jobs| ==> run.jobs[i] in run.jobs;
  }

  datatype Refusal =
    | Unreadable
    | DuplicateJobId
    | ResultsMissingLedger
    | CallsExceedLimit
    | ConfigurationChanged
    | ResultLedgerMismatch
    | RequestChanged

  /** The checks made under the lock, in order. */
  function Refuses(run: Run, disk: Disk): Option<Refusal> {
    if !Readable(disk.output) then Some(Unreadable)
    else if !UniqueResults(disk.output) then Some(DuplicateJobId)
    else if !Readable(disk.ledger) then Some(Unreadable)
    else if !UniqueReservations(disk.ledger) then Some(DuplicateJobId)
    else if !(Recorded(disk.output) <= Reserved(disk.ledger)) then Some(ResultsMissingLedger)
    else if |disk.ledger| > run.maxCalls then Some(CallsExceedLimit)
    else if exists l :: l in disk.ledger && (l.row.request.config != run.config || l.row.request.schema != run.schema) then
      Some(ConfigurationChanged)
    else if !Answers(disk) then Some(ResultLedgerMismatch)
    else if exists job, l :: job in run.jobs && l in disk.ledger && l.row.id == job.id && l.row.request != run.Ask(job) then
      Some(RequestChanged)
    else None
  }

  /** Reservations without a result, in ledger order. */
  function Orphans(disk: Disk): seq<Reservation> {
    OrphansIn(disk.ledger, Recorded(disk.output))
  }

  function OrphansIn(ledger: seq<Chunk<Reservation>>, recorded: set<Id>): (r: seq<Reservation>) {
    if ledger == [] then []
    else if ledger[0].row.id in recorded then OrphansIn(ledger[1..], recorded)
    else [ledger[0].row] + OrphansIn(ledger[1..], recorded)
  }

  function Pending(jobs: seq<Job>, attempted: set<Id>): (r: seq<Job>)
    ensures forall job :: job in r <==> job in jobs && job.id !in attempted
    ensures |r| <= |jobs|
  {
    if jobs == [] then []
    else if jobs[0].id in attempted then Pending(jobs[1..], attempted)
    else [jobs[0]] + Pending(jobs[1..], attempted)
  }

  /** The jobs a run starts: as many pending ones, in order, as the cumulative cap still allows. */
  function Selected(run: Run, attempted: set<Id>): (r: seq<Job>) {
    var pending := Pending(run.jobs, attempted);
    var room := if run.maxCalls > |attempted| then run.maxCalls - |attempted| else 0;
    if |pending| <= room then pending else pending[..room]
  }

  // ---- Processes ---------------------------------------------------------------------------

  datatype Task = Waiting | Holding | Calling | Done

  /** Where a process that holds the lock stands; any other process is outside the lock. */
  datatype Phase =
    | Locked(run: Run)
    | Reconciling(run: Run, attempted: set<Id>, orphans: seq<Reservation>)
    | Executing(run: Run, attempted: set<Id>, tasks: map<Id, Task>)

  /** `calls` is the history of job ids handed to the provider. */
  datatype State = State(disk: Disk, holder: Option<nat>, procs: map<nat, Phase>, calls: seq<Id>) {
    function At(p: nat, phase: Phase): State {
      this.(procs := procs[p := phase])
    }

    function Released(p: nat): State {
      this.(procs := procs - {p}, holder := None)
    }

    function Result(row: Result, shape: Shape): State {
      this.(disk := disk.(output := disk.output + [Chunk(row, shape)]))
    }

    function Reservation(row: Reservation, shape: Shape): State {
      this.(disk := disk.(ledger := disk.ledger + [Chunk(row, shape)]))
    }
  }

  /** Every step that appends also chooses what the append leaves on disk; a crash may follow any
      step, so a torn append is an append followed by `Crash`. */
  datatype Step =
    | Start(p: nat, run: Run)
    | Load(p: nat)
    | Reconcile(p: nat, shape: Shape)
    | Begin(p: nat)
    | Reserve(p: nat, id: Id, shape: Shape)
    | Call(p: nat, id: Id)
    | Record(p: nat, id: Id, status: string, shape: Shape)
    | Finish(p: nat)
    | Crash(p: nat)

  const EMPTY := State(Disk([], []), None, map[], [])

  ghost function Started(tasks: map<Id, Task>): set<Id> {
    set id | id in tasks && !tasks[id].Waiting?
  }

  ghost function Called(tasks: map<Id, Task>): set<Id> {
    set id | id in tasks && (tasks[id].Calling? || tasks[id].Done?)
  }

  ghost function Completed(tasks: map<Id, Task>): set<Id> {
    set id | id in tasks && tasks[id].Done?
  }

  function InFlight(tasks: map<Id, Task>): set<Id> {
    set id | id in tasks && (tasks[id].Holding? || tasks[id].Calling?)
  }

  function RequestOf(run: Run, jobs: seq<Job>, id: Id): (r: Request)
    ensures r.config == run.config && r.schema == run.schema
  {
    if jobs == [] then Request("", run.config, run.schema)
    else if jobs[0].id == id then run.Ask(jobs[0])
    else RequestOf(run, jobs[1..], id)
  }

  /** The state a step leads to, if the step can be taken. */
  ghost function Apply(s: State, step: Step): Option<State> {
    if step.Start? then
      if step.p in s.procs then None
      else if !Accepted(step.run) || s.holder.Some? then Some(s)
      else Some(s.(holder := Some(step.p)).At(step.p, Locked(step.run)))
    else if step.p !in s.procs then None
    else if step.Crash? then Some(s.Released(step.p))
    else
      match s.procs[step.p]
      case Locked(run) =>
        if !step.Load? then None
        else if Refuses(run, s.disk).Some? then Some(s.Released(step.p))
        else Some(s.At(step.p, Reconciling(run, Reserved(s.disk.ledger), Orphans(s.disk))))
      case Reconciling(run, attempted, orphans) =>
        if step.Reconcile? && orphans != [] then
          Some(s.Result(Result(orphans[0].id, orphans[0].request, Interrupted), step.shape)
                .At(step.p, Reconciling(run, attempted, orphans[1..])))
        else if step.Begin? && orphans == [] then
          Some(s.At(step.p, Executing(run, attempted, FreshTasks(run, attempted))))
        else None
      case Executing(run, attempted, tasks) =>
        if step.Finish? then
          if Completed(tasks) == tasks.Keys then Some(s.Released(step.p)) else None
        else if step.Load? || step.Reconcile? || step.Begin? || step.id !in tasks then None
        else
          match (step, tasks[step.id])
          case (Reserve(p, id, shape), Waiting) =>
            if |InFlight(tasks)| >= run.concurrency then None
            else Some(s.Reservation(Reservation(id, RequestOf(run, run.jobs, id)), shape)
                       .At(p, Executing(run, attempted, tasks[id := Holding])))
          case (Call(p, id), Holding) =>
            Some(s.(calls := s.calls + [id]).At(p, Executing(run, attempted, tasks[id := Calling])))
          case (Record(p, id, status, shape), Calling) =>
            Some(s.Result(Result(id, RequestOf(run, run.jobs, id), Returned(status)), shape)
                  .At(p, Executing(run, attempted, tasks[id := Done])))
          case _ => None
  }

  // ---- The invariant -----------------------------------------------------------------------

  ghost predicate PhaseOk(disk: Disk, calls: seq<Id>, phase: Phase) {
    match phase
    case Locked(run) => Accepted(run)
    case Reconciling(run, attempted, orphans) =>
      && Accepted(run)
      && attempted == Reserved(disk.ledger) && |attempted| <= run.maxCalls
      && RequestsOk(disk.ledger, run)
      && OrphansOk(disk.ledger, Recorded(disk.output), orphans)
    case Executing(run, attempted, tasks) =>
      && Accepted(run)
      && LimitsOk(run, attempted, tasks)
      && LogsOk(disk, attempted, tasks)
      && HistoryOk(calls, tasks)
      && RequestsOk(disk.ledger, run)
  }

  /** Each reservation without a result, once. */
  ghost predicate OrphansOk(ledger: seq<Chunk<Reservation>>, recorded: set<Id>, orphans: seq<Reservation>) {
    && (forall i, j :: 0 <= i < j < |orphans| ==> orphans[i].id != orphans[j].id)
    && (forall o :: o in orphans ==> o.id !in recorded && exists l :: l in ledger && l.row == o)
    && (forall id :: id in Reserved(ledger) && id !in recorded ==> exists o :: o in orphans && o.id == id)
  }

  ghost predicate LimitsOk(run: Run, attempted: set<Id>, tasks: map<Id, Task>) {
    && (forall id :: id in tasks ==> id !in attempted && id in Ids(run.jobs))
    && |attempted| + |tasks| <= run.maxCalls
    && |InFlight(tasks)| <= run.concurrency
  }

  /** Both logs show exactly how far each task has come. */
  ghost predicate LogsOk(disk: Disk, attempted: set<Id>, tasks: map<Id, Task>) {
    && Reserved(disk.ledger) == attempted + Started(tasks)
    && Recorded(disk.output) == attempted + Completed(tasks)
  }

  ghost predicate HistoryOk(calls: seq<Id>, tasks: map<Id, Task>) {
    forall id :: id in tasks ==> (id in calls <==> id in Called(tasks))
  }

  /** What is reserved under a job's id is that job's request, under this configuration. */
  ghost predicate RequestsOk(ledger: seq<Chunk<Reservation>>, run: Run) {
    forall job, l :: job in run.jobs && l in ledger && l.row.id == job.id ==> l.row.request == run.Ask(job)
  }

  lemma {:induction false} RequestIsTheJobs(run: Run, jobs: seq<Job>, job: Job)
    requires DistinctIds(jobs) && job in jobs
    ensures RequestOf(run, jobs, job.id) == run.Ask(job)
  {
    if jobs[0] != job {
      assert job.id in Ids(jobs[1..]);
      RequestIsTheJobs(run, jobs[1..], job);
    }
  }

  lemma NewRequestIsOk(ledger: seq<Chunk<Reservation>>, run: Run, id: Id, shape: Shape)
    requires Accepted(run) && RequestsOk(ledger, run)
    ensures RequestsOk(ledger + [Chunk(Reservation(id, RequestOf(run, run.jobs, id)), shape)], run)
  {
    forall job | job in run.jobs && job.id == id
      ensures RequestOf(run, run.jobs, id) == run.Ask(job)
    {
      RequestIsTheJobs(run, run.jobs, job);
    }
  }

  lemma ReservedRequestIsKnown(ledger: seq<Chunk<Reservation>>, run: Run, id: Id)
    requires Accepted(run) && RequestsOk(ledger, run) && id in Ids(run.jobs)
    ensures forall l :: l in ledger && l.row.id == id ==> l.row.request == RequestOf(run, run.jobs, id)
  {
    var job :| job in run.jobs && job.id == id;
    RequestIsTheJobs(run, run.jobs, job);
  }

  ghost predicate CallsOk(disk: Disk, calls: seq<Id>) {
    && (forall i, j :: 0 <= i < j < |calls| ==> calls[i] != calls[j])
    && (forall id :: id in calls ==> id in Reserved(disk.ledger))
  }

  ghost predicate Inv(s: State) {
    && UniqueResults(s.disk.output) && UniqueReservations(s.disk.ledger) && Answers(s.disk)
    && CallsOk(s.disk, s.calls)
    && (forall p :: p in s.procs <==> s.holder == Some(p))
    && (forall p :: p in s.procs ==> PhaseOk(s.disk, s.calls, s.procs[p]))
  }

  lemma {:induction false} OrphansAreUnanswered(ledger: seq<Chunk<Reservation>>, recorded: set<Id>)
    requires UniqueReservations(ledger)
    ensures
      var orphans := OrphansIn(ledger, recorded);
      && (forall i, j :: 0 <= i < j < |orphans| ==> orphans[i].id != orphans[j].id)
      && (forall o :: o in orphans ==> o.id !in recorded && exists l :: l in ledger && l.row == o)
      && (forall l :: l in ledger && l.row.id !in recorded ==> l.row in orphans)
  {
    if ledger != [] {
      OrphansAreUnanswered(ledger[1..], recorded);
      var rest := OrphansIn(ledger[1..], recorded);
      forall o | o in rest
        ensures o.id != ledger[0].row.id && exists l :: l in ledger && l.row == o
      {
        var l :| l in ledger[1..] && l.row == o;
        assert l in ledger;
      }
      assert forall l :: l in ledger ==> l == ledger[0] || l in ledger[1..];
      assert ledger[0] in ledger;
    }
  }

  lemma {:induction false} UniqueReservationsCount(ledger: seq<Chunk<Reservation>>)
    requires UniqueReservations(ledger)
    ensures |Reserved(ledger)| == |ledger|
  {
    if ledger != [] {
      var n := |ledger| - 1;
      UniqueReservationsCount(ledger[..n]);
      assert Reserved(ledger) == Reserved(ledger[..n]) + {ledger[n].row.id};
      assert ledger[n].row.id !in Reserved(ledger[..n]);
    }
  }

  lemma {:induction false} IdsAreFew(jobs: seq<Job>)
    ensures |Ids(jobs)| <= |jobs|
  {
    if jobs != [] {
      IdsAreFew(jobs[1..]);
      assert Ids(jobs) == {jobs[0].id} + Ids(jobs[1..]);
    }
  }

  lemma StartKeepsInv(s: State, p: nat, run: Run)
    requires Inv(s) && Apply(s, Start(p, run)).Some?
    ensures Inv(Apply(s, Start(p, run)).value)
  {
  }

  lemma ReleaseKeepsInv(s: State, p: nat)
    requires Inv(s) && p in s.procs
    ensures Inv(s.Released(p))
  {
  }

  lemma LoadedPhaseOk(disk: Disk, calls: seq<Id>, run: Run)
    requires Accepted(run) && UniqueReservations(disk.ledger) && |disk.ledger| <= run.maxCalls && RequestsOk(disk.ledger, run)
    ensures PhaseOk(disk, calls, Reconciling(run, Reserved(disk.ledger), Orphans(disk)))
  {
    OrphansAreUnanswered(disk.ledger, Recorded(disk.output));
    UniqueReservationsCount(disk.ledger);
  }

  lemma LoadKeepsInv(s: State, p: nat)
    requires Inv(s) && Apply(s, Load(p)).Some?
    ensures Inv(Apply(s, Load(p)).value)
  {
    var run := s.procs[p].run;
    if Refuses(run, s.disk).Some? {
      ReleaseKeepsInv(s, p);
    } else {
      LoadedPhaseOk(s.disk, s.calls, run);
      HolderMoves(s, p, Apply(s, Load(p)).value, Reconciling(run, Reserved(s.disk.ledger), Orphans(s.disk)));
    }
  }

  /** An appended result that answers a reservation still unanswered keeps the disk in order. */
  lemma ResultKeepsDisk(disk: Disk, row: Result, shape: Shape)
    requires UniqueResults(disk.output) && UniqueReservations(disk.ledger) && Answers(disk)
    requires row.id !in Recorded(disk.output) && row.id in Reserved(disk.ledger)
    requires forall l :: l in disk.ledger && l.row.id == row.id ==> l.row.request == row.request
    ensures
      var disk' := disk.(output := disk.output + [Chunk(row, shape)]);
      UniqueResults(disk'.output) && Answers(disk') && Recorded(disk'.output) == Recorded(disk.output) + {row.id}
  {
    var output' := disk.output + [Chunk(row, shape)];
    assert forall o :: o in output' <==> o in disk.output || o == Chunk(row, shape);
    assert forall o :: o in disk.output ==> o.row.id in Recorded(disk.output);
  }

  /** A reservation for a new id keeps the disk in order. */
  lemma ReservationKeepsDisk(disk: Disk, row: Reservation, shape: Shape)
    requires UniqueReservations(disk.ledger) && Answers(disk) && row.id !in Reserved(disk.ledger)
    ensures
      var disk' := disk.(ledger := disk.ledger + [Chunk(row, shape)]);
      UniqueReservations(disk'.ledger) && Answers(disk') && Reserved(disk'.ledger) == Reserved(disk.ledger) + {row.id}
  {
    var ledger' := disk.ledger + [Chunk(row, shape)];
    assert forall l :: l in ledger' <==> l in disk.ledger || l == Chunk(row, shape);
    assert forall l :: l in disk.ledger ==> l.row.id in Reserved(disk.ledger);
    assert forall o :: o in disk.output ==> o.row.id in Recorded(disk.output);
  }

  lemma ReconcileKeepsInv(s: State, p: nat, shape: Shape)
    requires Inv(s) && Apply(s, Reconcile(p, shape)).Some?
    ensures Inv(Apply(s, Reconcile(p, shape)).value)
  {
    var Reconciling(run, attempted, orphans) := s.procs[p];
    var o := orphans[0];
    assert o in orphans;
    var l :| l in s.disk.ledger && l.row == o;
    assert o.id in Reserved(s.disk.ledger);
    OneReservation(s.disk.ledger, l);
    ResultKeepsDisk(s.disk, Result(o.id, o.request, Interrupted), shape);
    ReconciledPhaseOk(s.disk, s.calls, run, attempted, orphans, shape);
    HolderMoves(s, p, Apply(s, Reconcile(p, shape)).value, Reconciling(run, attempted, orphans[1..]));
  }

  lemma ReconciledPhaseOk(disk: Disk, calls: seq<Id>, run: Run, attempted: set<Id>, orphans: seq<Reservation>, shape: Shape)
    requires orphans != [] && PhaseOk(disk, calls, Reconciling(run, attempted, orphans))
    ensures
      var row := Result(orphans[0].id, orphans[0].request, Interrupted);
      PhaseOk(disk.(output := disk.output + [Chunk(row, shape)]), calls, Reconciling(run, attempted, orphans[1..]))
  {
    RecordedGrows(disk.output, Result(orphans[0].id, orphans[0].request, Interrupted), shape);
    FirstOrphanIsClosed(disk.ledger, Recorded(disk.output), orphans);
  }

  lemma FirstOrphanIsClosed(ledger: seq<Chunk<Reservation>>, recorded: set<Id>, orphans: seq<Reservation>)
    requires orphans != [] && OrphansOk(ledger, recorded, orphans)
    ensures OrphansOk(ledger, recorded + {orphans[0].id}, orphans[1..])
  {
    forall id | id in Reserved(ledger) && id !in recorded + {orphans[0].id}
      ensures exists q :: q in orphans[1..] && q.id == id
    {
      var q :| q in orphans && q.id == id;
      assert q in orphans[1..];
    }
  }

  lemma RecordedGrows(output: seq<Chunk<Result>>, row: Result, shape: Shape)
    ensures Recorded(output + [Chunk(row, shape)]) == Recorded(output) + {row.id}
  {
    var output' := output + [Chunk(row, shape)];
    assert forall o :: o in output' <==> o in output || o == Chunk(row, shape);
  }

  lemma OneReservation(ledger: seq<Chunk<Reservation>>, l: Chunk<Reservation>)
    requires UniqueReservations(ledger) && l in ledger
    ensures forall m :: m in ledger && m.row.id == l.row.id ==> m == l
  {
  }

  lemma PendingIds(jobs: seq<Job>, attempted: set<Id>)
    ensures Ids(Pending(jobs, attempted)) == Ids(jobs) - attempted
  {
    assert forall id :: id in Ids(jobs) - attempted ==> exists job :: job in jobs && job.id == id && job in Pending(jobs, attempted);
  }

  lemma SelectionFits(run: Run, attempted: set<Id>)
    requires |attempted| <= run.maxCalls
    ensures
      var chosen := Ids(Selected(run, attempted));
      chosen <= Ids(run.jobs) && chosen !! attempted && |attempted| + |chosen| <= run.maxCalls
  {
    var selected := Selected(run, attempted);
    PendingIds(run.jobs, attempted);
    assert forall job :: job in selected ==> job in Pending(run.jobs, attempted);
    IdsAreFew(selected);
  }

  function FreshTasks(run: Run, attempted: set<Id>): map<Id, Task> {
    map id | id in Ids(Selected(run, attempted)) :: Waiting
  }

  lemma FreshTasksAreOk(disk: Disk, calls: seq<Id>, run: Run, attempted: set<Id>)
    requires Accepted(run) && CallsOk(disk, calls) && RequestsOk(disk.ledger, run)
    requires attempted == Reserved(disk.ledger) == Recorded(disk.output) && |attempted| <= run.maxCalls
    ensures PhaseOk(disk, calls, Executing(run, attempted, FreshTasks(run, attempted)))
  {
    SelectionFits(run, attempted);
    var tasks := FreshTasks(run, attempted);
    assert tasks.Keys == Ids(Selected(run, attempted));
    assert |tasks| == |tasks.Keys|;
    assert Started(tasks) == {} && Completed(tasks) == {} && InFlight(tasks) == {} && Called(tasks) == {};
    assert LimitsOk(run, attempted, tasks);
  }

  lemma AllAnswered(disk: Disk, attempted: set<Id>)
    requires Answers(disk) && attempted == Reserved(disk.ledger)
    requires OrphansOk(disk.ledger, Recorded(disk.output), [])
    ensures attempted == Recorded(disk.output)
  {
  }

  lemma BeginKeepsInv(s: State, p: nat)
    requires Inv(s) && Apply(s, Begin(p)).Some?
    ensures Inv(Apply(s, Begin(p)).value)
  {
    var Reconciling(run, attempted, orphans) := s.procs[p];
    AllAnswered(s.disk, attempted);
    FreshTasksAreOk(s.disk, s.calls, run, attempted);
    HolderMoves(s, p, Apply(s, Begin(p)).value, Executing(run, attempted, FreshTasks(run, attempted)));
  }

  /** How the sets of tasks change when one task moves on. */
  lemma TaskMoves(tasks: map<Id, Task>, id: Id, t: Task)
    requires id in tasks
    ensures
      var tasks' := tasks[id := t];
      && tasks'.Keys == tasks.Keys && |tasks'| == |tasks|
      && Started(tasks') == (if t.Waiting? then Started(tasks) - {id} else Started(tasks) + {id})
      && Completed(tasks') == (if t.Done? then Completed(tasks) + {id} else Completed(tasks) - {id})
      && Called(tasks') == (if t.Calling? || t.Done? then Called(tasks) + {id} else Called(tasks) - {id})
      && InFlight(tasks') == (if t.Holding? || t.Calling? then InFlight(tasks) + {id} else InFlight(tasks) - {id})
  {
    var tasks' := tasks[id := t];
    assert tasks'.Keys == tasks.Keys;
    assert |tasks'| == |tasks'.Keys|;
  }

  /** The process that holds the lock may move on as long as its own phase stays in order. */
  lemma HolderMoves(s: State, p: nat, s': State, phase: Phase)
    requires Inv(s) && p in s.procs && s'.holder == s.holder && s'.procs == s.procs[p := phase]
    requires UniqueResults(s'.disk.output) && UniqueReservations(s'.disk.ledger) && Answers(s'.disk)
    requires CallsOk(s'.disk, s'.calls) && PhaseOk(s'.disk, s'.calls, phase)
    ensures Inv(s')
  {
  }

  lemma LimitsMove(run: Run, attempted: set<Id>, tasks: map<Id, Task>, id: Id, t: Task)
    requires LimitsOk(run, attempted, tasks) && id in tasks
    requires (t.Holding? && |InFlight(tasks)| < run.concurrency) || (t.Calling? && id in InFlight(tasks)) || t.Done?
    ensures LimitsOk(run, attempted, tasks[id := t])
  {
    TaskMoves(tasks, id, t);
    var flight, flight' := InFlight(tasks), InFlight(tasks[id := t]);
    if t.Holding? {
      assert |flight + {id}| <= |flight| + 1;
    } else if t.Calling? {
      assert flight' == flight;
    } else {
      assert flight' <= flight;
      SubsetIsSmaller(flight', flight);
    }
  }

  lemma SubsetIsSmaller(a: set<Id>, b: set<Id>)
    requires a <= b
    ensures |a| <= |b|
  {
    assert b == a + (b - a);
  }

  lemma HoldingIsOk(disk: Disk, calls: seq<Id>, attempted: set<Id>, tasks: map<Id, Task>, id: Id, row: Reservation, shape: Shape)
    requires LogsOk(disk, attempted, tasks) && HistoryOk(calls, tasks)
    requires id in tasks && tasks[id].Waiting? && row.id == id
    ensures LogsOk(disk.(ledger := disk.ledger + [Chunk(row, shape)]), attempted, tasks[id := Holding])
    ensures HistoryOk(calls, tasks[id := Holding])
  {
    var ledger' := disk.ledger + [Chunk(row, shape)];
    TaskMoves(tasks, id, Holding);
    assert Reserved(ledger') == Reserved(disk.ledger) + {id};
    assert Completed(tasks[id := Holding]) == Completed(tasks);
    assert Called(tasks[id := Holding]) == Called(tasks);
  }

  lemma CallingIsOk(disk: Disk, calls: seq<Id>, attempted: set<Id>, tasks: map<Id, Task>, id: Id)
    requires LogsOk(disk, attempted, tasks) && HistoryOk(calls, tasks)
    requires id in tasks && tasks[id].Holding?
    ensures LogsOk(disk, attempted, tasks[id := Calling]) && HistoryOk(calls + [id], tasks[id := Calling])
  {
    TaskMoves(tasks, id, Calling);
    assert Started(tasks[id := Calling]) == Started(tasks);
    assert Completed(tasks[id := Calling]) == Completed(tasks);
  }

  lemma DoneIsOk(disk: Disk, calls: seq<Id>, attempted: set<Id>, tasks: map<Id, Task>, id: Id, row: Result, shape: Shape)
    requires LogsOk(disk, attempted, tasks) && HistoryOk(calls, tasks)
    requires id in tasks && tasks[id].Calling? && row.id == id
    ensures LogsOk(disk.(output := disk.output + [Chunk(row, shape)]), attempted, tasks[id := Done])
    ensures HistoryOk(calls, tasks[id := Done])
  {
    var output' := disk.output + [Chunk(row, shape)];
    TaskMoves(tasks, id, Done);
    assert Started(tasks[id := Done]) == Started(tasks);
    assert Called(tasks[id := Done]) == Called(tasks);
    assert Recorded(output') == Recorded(disk.output) + {id};
  }

  lemma ReserveKeepsInv(s: State, p: nat, run: Run, attempted: set<Id>, tasks: map<Id, Task>, id: Id, shape: Shape)
    requires Inv(s) && p in s.procs && s.procs[p] == Executing(run, attempted, tasks)
    requires id in tasks && tasks[id].Waiting? && |InFlight(tasks)| < run.concurrency
    ensures Inv(s.Reservation(Reservation(id, RequestOf(run, run.jobs, id)), shape)
                 .At(p, Executing(run, attempted, tasks[id := Holding])))
  {
    var row := Reservation(id, RequestOf(run, run.jobs, id));
    assert PhaseOk(s.disk, s.calls, s.procs[p]);
    assert id !in Reserved(s.disk.ledger);
    HoldingIsOk(s.disk, s.calls, attempted, tasks, id, row, shape);
    NewRequestIsOk(s.disk.ledger, run, id, shape);
    LimitsMove(run, attempted, tasks, id, Holding);
    ReservationKeepsDisk(s.disk, row, shape);
    HolderMoves(s, p, s.Reservation(row, shape).At(p, Executing(run, attempted, tasks[id := Holding])),
                Executing(run, attempted, tasks[id := Holding]));
  }

  lemma CallKeepsInv(s: State, p: nat, run: Run, attempted: set<Id>, tasks: map<Id, Task>, id: Id)
    requires Inv(s) && p in s.procs && s.procs[p] == Executing(run, attempted, tasks)
    requires id in tasks && tasks[id].Holding?
    ensures Inv(s.(calls := s.calls + [id]).At(p, Executing(run, attempted, tasks[id := Calling])))
  {
    assert PhaseOk(s.disk, s.calls, s.procs[p]);
    assert id in Started(tasks) && id !in Called(tasks);
    CallingIsOk(s.disk, s.calls, attempted, tasks, id);
    LimitsMove(run, attempted, tasks, id, Calling);
    NewCallIsOk(s.disk, s.calls, id);
    HolderMoves(s, p, s.(calls := s.calls + [id]).At(p, Executing(run, attempted, tasks[id := Calling])),
                Executing(run, attempted, tasks[id := Calling]));
  }

  lemma NewCallIsOk(disk: Disk, calls: seq<Id>, id: Id)
    requires CallsOk(disk, calls) && id in Reserved(disk.ledger) && id !in calls
    ensures CallsOk(disk, calls + [id])
  {
  }

  lemma RecordKeepsInv(s: State, p: nat, run: Run, attempted: set<Id>, tasks: map<Id, Task>, row: Result, shape: Shape)
    requires Inv(s) && p in s.procs && s.procs[p] == Executing(run, attempted, tasks)
    requires row.id in tasks && tasks[row.id].Calling? && row.request == RequestOf(run, run.jobs, row.id)
    ensures Inv(s.Result(row, shape).At(p, Executing(run, attempted, tasks[row.id := Done])))
  {
    assert PhaseOk(s.disk, s.calls, s.procs[p]);
    assert row.id in Started(tasks) && row.id !in Completed(tasks);
    DoneIsOk(s.disk, s.calls, attempted, tasks, row.id, row, shape);
    LimitsMove(run, attempted, tasks, row.id, Done);
    ReservedRequestIsKnown(s.disk.ledger, run, row.id);
    ResultKeepsDisk(s.disk, row, shape);
    HolderMoves(s, p, s.Result(row, shape).At(p, Executing(run, attempted, tasks[row.id := Done])),
                Executing(run, attempted, tasks[row.id := Done]));
  }

  /** The three steps of a task. */
  lemma TaskStepKeepsInv(s: State, step: Step)
    requires Inv(s) && Apply(s, step).Some?
    requires step.Reserve? || step.Call? || step.Record?
    ensures Inv(Apply(s, step).value)
  {
    var Executing(run, attempted, tasks) := s.procs[step.p];
    match step
    case Reserve(p, id, shape) => ReserveKeepsInv(s, p, run, attempted, tasks, id, shape);
    case Call(p, id) => CallKeepsInv(s, p, run, attempted, tasks, id);
    case Record(p, id, status, shape) =>
      RecordKeepsInv(s, p, run, attempted, tasks, Result(id, RequestOf(run, run.jobs, id), Returned(status)), shape);
  }

  /** No step, taken by any process at any time, breaks the invariant. */
  lemma StepKeepsInv(s: State, step: Step)
    requires Inv(s) && Apply(s, step).Some?
    ensures Inv(Apply(s, step).value)
  {
    match step
    case Start(p, run) => StartKeepsInv(s, p, run);
    case Load(p) => LoadKeepsInv(s, p);
    case Reconcile(p, shape) => ReconcileKeepsInv(s, p, shape);
    case Begin(p) => BeginKeepsInv(s, p);
    case Reserve(_, _, _) => TaskStepKeepsInv(s, step);
    case Call(_, _) => TaskStepKeepsInv(s, step);
    case Record(_, _, _, _) => TaskStepKeepsInv(s, step);
    case Finish(p) => ReleaseKeepsInv(s, p);
    case Crash(p) => ReleaseKeepsInv(s, p);
  }

  // ---- Whole histories ---------------------------------------------------------------------

  /** Any number of runs by any number of processes on one output, interleaved step by step. */
  ghost predicate History(states: seq<State>, steps: seq<Step>) {
    IsRun(Apply, states, steps) && states[0] == EMPTY
  }

  lemma HistoryKeepsInv(states: seq<State>, steps: seq<Step>, k: nat)
    requires History(states, steps) && k < |states|
    ensures Inv(states[k])
  {
    forall s, step | Inv(s) && Apply(s, step).Some?
      ensures Inv(Apply(s, step).value)
    {
      StepKeepsInv(s, step);
    }
    Kept(Apply, Inv, (s, step) => true, states, steps, 0, k);
  }

  /** Over all runs together no job id is handed to the provider twice. */
  lemma CalledAtMostOnce(states: seq<State>, steps: seq<Step>, k: nat)
    requires History(states, steps) && k < |states|
    ensures forall i, j :: 0 <= i < j < |states[k].calls| ==> states[k].calls[i] != states[k].calls[j]
  {
    HistoryKeepsInv(states, steps, k);
  }

  lemma {:induction false} ReservationsComeFromReserve(states: seq<State>, steps: seq<Step>, k: nat, id: Id)
    requires History(states, steps) && k < |states| && id in Reserved(states[k].disk.ledger)
    ensures exists i :: 0 <= i < k && steps[i].Reserve? && steps[i].id == id
  {
    var before, after := states[k - 1], states[k];
    assert Apply(before, steps[k - 1]) == Some(after);
    if id in Reserved(before.disk.ledger) {
      ReservationsComeFromReserve(states, steps, k - 1, id);
    } else {
      assert steps[k - 1].Reserve? by {
        assert before.disk.ledger != after.disk.ledger;
      }
      assert steps[k - 1].id == id;
    }
  }

  lemma CallAddsOneReservedId(s: State, p: nat, id: Id)
    requires Inv(s) && Apply(s, Call(p, id)).Some?
    ensures Apply(s, Call(p, id)).value.calls == s.calls + [id]
    ensures id in Reserved(s.disk.ledger) && id !in s.calls
  {
    var Executing(run, attempted, tasks) := s.procs[p];
    assert PhaseOk(s.disk, s.calls, s.procs[p]);
    HeldIsReserved(s.disk, s.calls, attempted, tasks, id);
  }

  lemma HeldIsReserved(disk: Disk, calls: seq<Id>, attempted: set<Id>, tasks: map<Id, Task>, id: Id)
    requires LogsOk(disk, attempted, tasks) && HistoryOk(calls, tasks) && id in tasks && tasks[id].Holding?
    ensures id in Reserved(disk.ledger) && id !in calls
  {
    assert id in Started(tasks) && id !in Called(tasks);
  }

  /** A call adds one id, an id whose reservation has reached the disk and which was never called. */
  lemma CallsFollowTheirReservation(states: seq<State>, steps: seq<Step>, k: nat)
    requires History(states, steps) && k < |steps| && steps[k].Call?
    ensures states[k + 1].calls == states[k].calls + [steps[k].id]
    ensures steps[k].id !in states[k].calls
    ensures exists i :: 0 <= i < k && steps[i].Reserve? && steps[i].id == steps[k].id
  {
    HistoryKeepsInv(states, steps, k);
    assert Apply(states[k], steps[k]) == Some(states[k + 1]);
    CallAddsOneReservedId(states[k], steps[k].p, steps[k].id);
    ReservationsComeFromReserve(states, steps, k, steps[k].id);
  }

  /** Only `Call` reaches the provider. */
  lemma OnlyCallCalls(s: State, step: Step)
    requires Apply(s, step).Some? && !step.Call?
    ensures Apply(s, step).value.calls == s.calls
  {
  }

  lemma CallsOnlyGrow(s: State, step: Step)
    requires Apply(s, step).Some?
    ensures s.calls <= Apply(s, step).value.calls
    ensures s.disk.output <= Apply(s, step).value.disk.output
    ensures s.disk.ledger <= Apply(s, step).value.disk.ledger
  {
  }

  /** A reservation that no live task still holds: its process crashed, or the call was made. */
  ghost predicate Spent(s: State, id: Id) {
    id in Reserved(s.disk.ledger) && forall p :: p in s.procs ==> SpentFor(s.procs[p], id)
  }

  ghost predicate SpentFor(phase: Phase, id: Id) {
    phase.Executing? && id in phase.tasks ==> phase.tasks[id].Calling? || phase.tasks[id].Done?
  }

  ghost predicate AttemptsAreReserved(s: State) {
    forall p :: p in s.procs && s.procs[p].Reconciling? ==> s.procs[p].attempted == Reserved(s.disk.ledger)
  }

  lemma InvKnowsAttempts(s: State)
    requires Inv(s)
    ensures AttemptsAreReserved(s)
  {
    forall p | p in s.procs && s.procs[p].Reconciling?
      ensures s.procs[p].attempted == Reserved(s.disk.ledger)
    {
      assert PhaseOk(s.disk, s.calls, s.procs[p]);
    }
  }

  lemma SpentStaysSpent(s: State, step: Step, id: Id)
    requires Spent(s, id) && Apply(s, step).Some? && AttemptsAreReserved(s)
    ensures Spent(Apply(s, step).value, id)
    ensures id in Apply(s, step).value.calls <==> id in s.calls
  {
    var s' := Apply(s, step).value;
    CallsOnlyGrow(s, step);
    ReservedGrows(s.disk.ledger, s'.disk.ledger);
    OthersStay(s, step);
    if step.p in s.procs {
      SpentPhase(s, step, id);
    }
    if !step.Call? {
      OnlyCallCalls(s, step);
    }
  }

  lemma OthersStay(s: State, step: Step)
    requires Apply(s, step).Some?
    ensures
      var s' := Apply(s, step).value;
      && (forall q :: q in s'.procs && q != step.p ==> q in s.procs && s'.procs[q] == s.procs[q])
      && (step.p !in s.procs && step.p in s'.procs ==> s'.procs[step.p].Locked?)
  {
  }

  lemma ReservedGrows(ledger: seq<Chunk<Reservation>>, longer: seq<Chunk<Reservation>>)
    requires ledger <= longer
    ensures Reserved(ledger) <= Reserved(longer)
  {
    assert forall c :: c in ledger ==> c in longer;
  }

  lemma SelectedAreNew(run: Run, attempted: set<Id>, id: Id)
    requires id in attempted
    ensures id !in Ids(Selected(run, attempted))
  {
  }

  /** The tasks a run starts with never include an id already on disk. */
  lemma SpentPhase(s: State, step: Step, id: Id)
    requires Apply(s, step).Some? && step.p in s.procs && SpentFor(s.procs[step.p], id)
    requires s.procs[step.p].Reconciling? ==> id in s.procs[step.p].attempted
    ensures
      var s' := Apply(s, step).value;
      step.p in s'.procs ==> SpentFor(s'.procs[step.p], id)
    ensures step.Call? ==> step.id != id
  {
    if s.procs[step.p].Reconciling? {
      SelectedAreNew(s.procs[step.p].run, s.procs[step.p].attempted, id);
    }
  }

  lemma SpentAcross(states: seq<State>, steps: seq<Step>, k: nat, id: Id)
    requires History(states, steps) && k < |steps| && Spent(states[k], id)
    ensures Spent(states[k + 1], id)
    ensures id in states[k + 1].calls <==> id in states[k].calls
  {
    HistoryKeepsInv(states, steps, k);
    assert Apply(states[k], steps[k]) == Some(states[k + 1]);
    InvKnowsAttempts(states[k]);
    SpentStaysSpent(states[k], steps[k], id);
  }

  /** A job reserved before a crash is never called again, by whatever runs follow. */
  lemma {:induction false} CrashedReservationIsNeverCalled(states: seq<State>, steps: seq<Step>, i: nat, j: nat, id: Id)
    requires History(states, steps) && i <= j < |states|
    requires Spent(states[i], id)
    ensures Spent(states[j], id)
    ensures id in states[j].calls <==> id in states[i].calls
  {
    if i < j {
      CrashedReservationIsNeverCalled(states, steps, i, j - 1, id);
      SpentAcross(states, steps, j - 1, id);
    }
  }

  /** With no process alive, every reservation on disk is spent. */
  lemma CrashSpendsReservations(s: State, p: nat, id: Id)
    requires Inv(s) && p in s.procs && id in Reserved(s.disk.ledger)
    ensures Spent(s.Released(p), id)
  {
  }

  lemma {:induction false} UniqueIdsCount(ids: seq<Id>)
    requires forall i, j :: 0 <= i < j < |ids| ==> ids[i] != ids[j]
    ensures |set id | id in ids| == |ids|
  {
    if ids != [] {
      var n := |ids| - 1;
      UniqueIdsCount(ids[..n]);
      assert (set id | id in ids) == (set id | id in ids[..n]) + {ids[n]};
      assert ids[n] !in ids[..n];
    }
  }

  /** In every reachable state results answer reservations, the cumulative call cap of the running
      job set covers all calls ever made, and no more calls are in flight than allowed. */
  lemma LimitsAlwaysHold(states: seq<State>, steps: seq<Step>, k: nat)
    requires History(states, steps) && k < |states|
    ensures
      var s := states[k];
      && UniqueResults(s.disk.output) && UniqueReservations(s.disk.ledger) && Answers(s.disk)
      && |s.calls| <= |s.disk.ledger|
      && (forall p, q :: p in s.procs && q in s.procs ==> p == q)
      && (forall p :: p in s.procs && s.procs[p].Executing? ==>
           && |s.disk.ledger| <= s.procs[p].run.maxCalls
           && |InFlight(s.procs[p].tasks)| <= s.procs[p].run.concurrency <= 4)
  {
    var s := states[k];
    HistoryKeepsInv(states, steps, k);
    UniqueIdsCount(s.calls);
    UniqueReservationsCount(s.disk.ledger);
    SubsetIsSmaller((set id | id in s.calls), Reserved(s.disk.ledger));
    forall p | p in s.procs && s.procs[p].Executing?
      ensures |s.disk.ledger| <= s.procs[p].run.maxCalls
    {
      var Executing(run, attempted, tasks) := s.procs[p];
      assert PhaseOk(s.disk, s.calls, s.procs[p]);
      assert |attempted + Started(tasks)| <= |attempted| + |Started(tasks)|;
      SubsetIsSmaller(Started(tasks), tasks.Keys);
      assert |tasks| == |tasks.Keys|;
    }
  }

  /** The guards against a ledger that lost rows are never tripped by the protocol's own steps. */
  lemma LostRowGuardsAreUnreachable(states: seq<State>, steps: seq<Step>, k: nat, run: Run)
    requires History(states, steps) && k < |states|
    ensures
      var r := Refuses(run, states[k].disk);
      r != Some(ResultsMissingLedger) && r != Some(ResultLedgerMismatch) && r != Some(DuplicateJobId)
  {
    HistoryKeepsInv(states, steps, k);
  }

  /** A run that ends without a crash leaves one result for every reservation, and accounts for
      each of its jobs exactly once. */
  lemma FinishedRunIsComplete(states: seq<State>, steps: seq<Step>, k: nat)
    requires History(states, steps) && k < |steps| && steps[k].Finish?
    ensures steps[k].p in states[k].procs
    ensures Recorded(states[k + 1].disk.output) == Reserved(states[k + 1].disk.ledger)
    ensures states[k + 1].disk == states[k].disk && states[k + 1].holder == None
    ensures
      var run := states[k].procs[steps[k].p].run;
      forall job, o :: job in run.jobs && o in states[k].disk.output && o.row.id == job.id ==>
        o.row.request == run.Ask(job)
  {
    HistoryKeepsInv(states, steps, k);
    assert Apply(states[k], steps[k]) == Some(states[k + 1]);
    var Executing(run, attempted, tasks) := states[k].procs[steps[k].p];
    assert PhaseOk(states[k].disk, states[k].calls, states[k].procs[steps[k].p]);
    assert Started(tasks) == tasks.Keys;
    forall job, o | job in run.jobs && o in states[k].disk.output && o.row.id == job.id
      ensures o.row.request == run.Ask(job)
    {
      assert o.row.id in Recorded(states[k].disk.output);
      var l :| l in states[k].disk.ledger && l.row.id == o.row.id;
    }
  }

  lemma {:induction false} PendingCount(jobs: seq<Job>, attempted: set<Id>)
    requires DistinctIds(jobs)
    ensures |Pending(jobs, attempted)| + |Ids(jobs) * attempted| == |jobs|
  {
    if jobs != [] {
      var rest := jobs[1..];
      PendingCount(rest, attempted);
      var id := jobs[0].id;
      assert Ids(jobs) == {id} + Ids(rest);
      if id in attempted {
        assert Ids(jobs) * attempted == {id} + Ids(rest) * attempted;
      } else {
        assert Ids(jobs) * attempted == Ids(rest) * attempted;
      }
    }
  }

  /** No attempt on this job is on record. */
  ghost predicate IsNew(ledger: seq<Chunk<Reservation>>, id: Id) {
    forall l :: l in ledger ==> l.row.id != id
  }

  ghost function NewBefore(run: Run, ledger: seq<Chunk<Reservation>>, k: nat): set<nat>
    requires k <= |run.jobs|
  {
    set i: nat | i < k && IsNew(ledger, run.jobs[i].id)
  }

  /** Job `k` of a run is taken up: it is new, and with the attempts on record and the new jobs before it
      there is still room under the call limit. */
  ghost predicate TakenUp(run: Run, ledger: seq<Chunk<Reservation>>, k: int) {
    0 <= k < |run.jobs| && IsNew(ledger, run.jobs[k].id) && |ledger| + |NewBefore(run, ledger, k)| < run.maxCalls
  }

  lemma {:induction false} PendingSplits(a: seq<Job>, b: seq<Job>, attempted: set<Id>)
    ensures Pending(a + b, attempted) == Pending(a, attempted) + Pending(b, attempted)
  {
    if a == [] {
      assert a + b == b;
    } else {
      assert (a + b)[0] == a[0] && (a + b)[1..] == a[1..] + b;
      PendingSplits(a[1..], b, attempted);
    }
  }

  lemma NewIffNotReserved(ledger: seq<Chunk<Reservation>>, id: Id)
    ensures IsNew(ledger, id) <==> id !in Reserved(ledger)
  {
  }

  lemma NewBeforeGrows(run: Run, ledger: seq<Chunk<Reservation>>, k: nat)
    requires k < |run.jobs|
    ensures |NewBefore(run, ledger, k + 1)| == |NewBefore(run, ledger, k)| + if run.jobs[k].id in Reserved(ledger) then 0 else 1
  {
    NewIffNotReserved(ledger, run.jobs[k].id);
    var before := NewBefore(run, ledger, k);
    assert NewBefore(run, ledger, k + 1) == before + if IsNew(ledger, run.jobs[k].id) then {k} else {};
    assert |before + {k}| == |before| + 1;
  }

  lemma PendingGrows(jobs: seq<Job>, k: nat, attempted: set<Id>)
    requires k < |jobs|
    ensures |Pending(jobs[..k + 1], attempted)| == |Pending(jobs[..k], attempted)| + if jobs[k].id in attempted then 0 else 1
  {
    PendingSplits(jobs[..k], [jobs[k]], attempted);
    assert jobs[..k + 1] == jobs[..k] + [jobs[k]];
    assert |Pending([jobs[k]], attempted)| == if jobs[k].id in attempted then 0 else 1;
  }

  lemma NoneBefore(run: Run, ledger: seq<Chunk<Reservation>>)
    ensures |NewBefore(run, ledger, 0)| == |Pending(run.jobs[..0], Reserved(ledger))| == 0
  {
    assert NewBefore(run, ledger, 0) == {};
  }

  lemma {:induction false} NewBeforeCounts(run: Run, ledger: seq<Chunk<Reservation>>, k: nat)
    requires k <= |run.jobs|
    ensures |NewBefore(run, ledger, k)| == |Pending(run.jobs[..k], Reserved(ledger))|
  {
    if k == 0 {
      NoneBefore(run, ledger);
    } else {
      NewBeforeCounts(run, ledger, k - 1);
      BothGrow(run, ledger, k - 1);
    }
  }

  lemma BothGrow(run: Run, ledger: seq<Chunk<Reservation>>, k: nat)
    requires k < |run.jobs|
    ensures |NewBefore(run, ledger, k + 1)| - |NewBefore(run, ledger, k)|
         == |Pending(run.jobs[..k + 1], Reserved(ledger))| - |Pending(run.jobs[..k], Reserved(ledger))|
  {
    NewBeforeGrows(run, ledger, k);
    PendingGrows(run.jobs, k, Reserved(ledger));
  }

  /** A pending job stands after the pending ones before it. */
  lemma PlaceInPending(jobs: seq<Job>, k: nat, attempted: set<Id>)
    requires k < |jobs| && jobs[k].id !in attempted
    ensures |Pending(jobs[..k], attempted)| < |Pending(jobs, attempted)|
    ensures Pending(jobs, attempted)[|Pending(jobs[..k], attempted)|] == jobs[k]
  {
    PendingSplits(jobs[..k], jobs[k..], attempted);
    assert jobs == jobs[..k] + jobs[k..] && jobs[k..][0] == jobs[k];
  }

  lemma IdsDiffer(jobs: seq<Job>, i: nat, j: nat)
    requires DistinctIds(jobs) && i < j < |jobs|
    ensures jobs[i].id != jobs[j].id
  {
    DistinctIdsDiffer(jobs);
  }

  lemma {:induction false} PendingIsDistinct(jobs: seq<Job>, attempted: set<Id>)
    requires DistinctIds(jobs)
    ensures DistinctIds(Pending(jobs, attempted))
  {
    if jobs != [] {
      var rest := Pending(jobs[1..], attempted);
      PendingIsDistinct(jobs[1..], attempted);
      if jobs[0].id !in attempted {
        var pending := Pending(jobs, attempted);
        assert pending[0] == jobs[0] && pending[1..] == rest;
        assert jobs[0].id !in Ids(rest) by {
          assert forall job :: job in rest ==> job in jobs[1..];
        }
      }
    }
  }

  /** The jobs a run selects are the ones taken up. */
  lemma SelectedAreTakenUp(run: Run, ledger: seq<Chunk<Reservation>>, k: nat)
    requires Accepted(run) && UniqueReservations(ledger) && |ledger| <= run.maxCalls && k < |run.jobs|
    ensures run.jobs[k] in Selected(run, Reserved(ledger)) <==> TakenUp(run, ledger, k)
  {
    UniqueReservationsCount(ledger);
    NewIffNotReserved(ledger, run.jobs[k].id);
    NewBeforeCounts(run, ledger, k);
    if run.jobs[k].id !in Reserved(ledger) {
      SelectedByPlace(run, Reserved(ledger), k);
    }
  }

  lemma SelectedByPlace(run: Run, attempted: set<Id>, k: nat)
    requires DistinctIds(run.jobs) && |attempted| <= run.maxCalls && k < |run.jobs| && run.jobs[k].id !in attempted
    ensures run.jobs[k] in Selected(run, attempted) <==> |attempted| + |Pending(run.jobs[..k], attempted)| < run.maxCalls
  {
    var selected, at := Selected(run, attempted), |Pending(run.jobs[..k], attempted)|;
    PlaceInPending(run.jobs, k, attempted);
    PendingIsDistinct(run.jobs, attempted);
    assert at < |selected| ==> selected[at] == run.jobs[k];
    if i :| 0 <= i < |selected| && selected[i] == run.jobs[k] {
      OnlyPlace(Pending(run.jobs, attempted), i, at);
    }
  }

  lemma OnlyPlace(jobs: seq<Job>, i: nat, j: nat)
    requires DistinctIds(jobs) && i < |jobs| && j < |jobs| && jobs[i].id == jobs[j].id
    ensures i == j
  {
    if i < j {
      IdsDiffer(jobs, i, j);
    } else if j < i {
      IdsDiffer(jobs, j, i);
    }
  }

  /** new + skipped + deferred == jobs, for the figures of the returned summary. */
  lemma SummaryAddsUp(run: Run, attempted: set<Id>)
    requires Accepted(run)
    ensures
      var started := |Selected(run, attempted)|;
      var skipped := |Ids(run.jobs) * attempted|;
      var deferred := |Pending(run.jobs, attempted)| - started;
      && started + skipped + deferred == |run.jobs| && deferred >= 0
      && (deferred > 0 ==> started == 0 || started + |attempted| == run.maxCalls)
  {
    PendingCount(run.jobs, attempted);
  }

  // ---- One configuration -------------------------------------------------------------------

  ghost predicate Under(ledger: seq<Chunk<Reservation>>, config: string, schema: string) {
    forall l :: l in ledger ==> l.row.request.config == config && l.row.request.schema == schema
  }

  ghost predicate OneConfiguration(ledger: seq<Chunk<Reservation>>) {
    forall l, m :: l in ledger && m in ledger ==>
      l.row.request.config == m.row.request.config && l.row.request.schema == m.row.request.schema
  }

  /** All rows of the ledger agree, and a run that has loaded it works under the same configuration. */
  ghost predicate Configured(s: State) {
    && OneConfiguration(s.disk.ledger)
    && forall p :: p in s.procs && !s.procs[p].Locked? ==> Under(s.disk.ledger, s.procs[p].run.config, s.procs[p].run.schema)
  }

  lemma ReserveKeepsConfigured(s: State, step: Step)
    requires (forall p :: p in s.procs ==> p == step.p) && Configured(s) && step.Reserve? && Apply(s, step).Some?
    ensures Configured(Apply(s, step).value)
  {
    var run := s.procs[step.p].run;
    OneMoreUnder(s.disk.ledger, Chunk(Reservation(step.id, RequestOf(run, run.jobs, step.id)), step.shape), run.config, run.schema);
    ReserveAppends(s, step);
  }

  lemma OneMoreUnder(ledger: seq<Chunk<Reservation>>, l: Chunk<Reservation>, config: string, schema: string)
    requires Under(ledger, config, schema) && l.row.request.config == config && l.row.request.schema == schema
    ensures Under(ledger + [l], config, schema) && OneConfiguration(ledger + [l])
  {
    assert forall m :: m in ledger + [l] <==> m in ledger || m == l;
  }

  lemma ReserveAppends(s: State, step: Step)
    requires (forall p :: p in s.procs ==> p == step.p) && step.Reserve? && Apply(s, step).Some?
    ensures
      var s', run := Apply(s, step).value, s.procs[step.p].run;
      && !s.procs[step.p].Locked?
      && s'.disk.ledger == s.disk.ledger + [Chunk(Reservation(step.id, RequestOf(run, run.jobs, step.id)), step.shape)]
      && forall p :: p in s'.procs ==> p == step.p && s'.procs[p].run == run
  {
  }

  lemma LoadKeepsConfigured(s: State, step: Step)
    requires (forall p :: p in s.procs ==> p == step.p) && Configured(s) && step.Load? && Apply(s, step).Some?
    ensures Configured(Apply(s, step).value)
  {
    var run := s.procs[step.p].run;
    if Refuses(run, s.disk).None? {
      assert Under(s.disk.ledger, run.config, run.schema);
    }
  }

  lemma StepKeepsConfigured(s: State, step: Step)
    requires Inv(s) && Configured(s) && Apply(s, step).Some?
    ensures Configured(Apply(s, step).value)
  {
    assert step.p in s.procs ==> s.holder == Some(step.p);
    if step.Reserve? {
      ReserveKeepsConfigured(s, step);
    } else if step.Load? {
      LoadKeepsConfigured(s, step);
    } else {
      OtherStepsKeepLedger(s, step);
    }
  }

  lemma OtherStepsKeepLedger(s: State, step: Step)
    requires Apply(s, step).Some? && !step.Reserve? && !step.Load?
    ensures
      var s' := Apply(s, step).value;
      && s'.disk.ledger == s.disk.ledger
      && forall p :: p in s'.procs && !s'.procs[p].Locked? ==> p in s.procs && !s.procs[p].Locked? && s'.procs[p].run == s.procs[p].run
  {
  }

  /** In every state of every history all attempts on one output carry one configuration and one schema, and
      so do all results. */
  lemma ConfigurationsNeverMix(states: seq<State>, steps: seq<Step>, k: nat)
    requires History(states, steps) && k < |states|
    ensures Configured(states[k])
    ensures
      var disk := states[k].disk;
      && (forall l, m :: l in disk.ledger && m in disk.ledger ==>
            l.row.request.config == m.row.request.config && l.row.request.schema == m.row.request.schema)
      && (forall o, l :: o in disk.output && l in disk.ledger ==>
            o.row.request.config == l.row.request.config && o.row.request.schema == l.row.request.schema)
  {
    forall s, step | (Inv(s) && Configured(s)) && Apply(s, step).Some?
      ensures Inv(Apply(s, step).value) && Configured(Apply(s, step).value)
    {
      StepKeepsInv(s, step);
      StepKeepsConfigured(s, step);
    }
    Kept(Apply, s => Inv(s) && Configured(s), (s, step) => true, states, steps, 0, k);
    ResultsAreConfigured(states[k].disk);
  }

  lemma ResultsAreConfigured(disk: Disk)
    requires Answers(disk) && OneConfiguration(disk.ledger)
    ensures forall o, l :: o in disk.output && l in disk.ledger ==>
      o.row.request.config == l.row.request.config && o.row.request.schema == l.row.request.schema
  {
    forall o | o in disk.output
      ensures exists m :: m in disk.ledger && o.row.request == m.row.request
    {
      assert o.row.id in Recorded(disk.output);
      var m :| m in disk.ledger && m.row.id == o.row.id;
    }
  }

  // ---- What a load demands -----------------------------------------------------------------

  /** Every line of a log parses: only its last row may lack the line end. */
  ghost predicate Parses<R>(file: seq<Chunk<R>>) {
    forall i :: 0 <= i < |file| ==> !file[i].shape.Damaged? && (file[i].shape.Unterminated? ==> i + 1 == |file|)
  }

  /** Both logs parse, no id repeats in either, every result answers a reservation with the same request, the
      reservations fit the call limit and carry the configuration and the schema of the run, and what is
      reserved under the id of one of its jobs is what it would ask now. */
  ghost predicate Resumable(run: Run, disk: Disk) {
    && Parses(disk.output) && Parses(disk.ledger)
    && (forall i, j :: 0 <= i < j < |disk.output| ==> disk.output[i].row.id != disk.output[j].row.id)
    && (forall i, j :: 0 <= i < j < |disk.ledger| ==> disk.ledger[i].row.id != disk.ledger[j].row.id)
    && |disk.ledger| <= run.maxCalls
    && (forall o :: o in disk.output ==> exists l :: l in disk.ledger && l.row.id == o.row.id && l.row.request == o.row.request)
    && (forall l :: l in disk.ledger ==> l.row.request.config == run.config && l.row.request.schema == run.schema)
    && (forall l, job :: l in disk.ledger && job in run.jobs && l.row.id == job.id ==> l.row.request.messages == job.messages)
  }

  /** What is wrong with the disk when a load is refused for this reason. */
  ghost predicate Objection(run: Run, disk: Disk, why: Refusal) {
    match why
    case Unreadable =>
      || !Parses(disk.output)
      || (!Parses(disk.ledger) && forall i, j :: 0 <= i < j < |disk.output| ==> disk.output[i].row.id != disk.output[j].row.id)
    case DuplicateJobId =>
      || (Parses(disk.output) && exists i, j :: 0 <= i < j < |disk.output| && disk.output[i].row.id == disk.output[j].row.id)
      || (Parses(disk.ledger) && exists i, j :: 0 <= i < j < |disk.ledger| && disk.ledger[i].row.id == disk.ledger[j].row.id)
    case ResultsMissingLedger => exists o :: o in disk.output && forall l :: l in disk.ledger ==> l.row.id != o.row.id
    case CallsExceedLimit => |disk.ledger| > run.maxCalls
    case ConfigurationChanged =>
      exists l :: l in disk.ledger && (l.row.request.config != run.config || l.row.request.schema != run.schema)
    case ResultLedgerMismatch =>
      exists o, l :: o in disk.output && l in disk.ledger && o.row.id == l.row.id && o.row.request != l.row.request
    case RequestChanged =>
      exists l, job :: l in disk.ledger && job in run.jobs && l.row.id == job.id && l.row.request.messages != job.messages
  }

  predicate ComesBefore(a: Refusal, b: Refusal) {
    match a
    case Unreadable => !b.Unreadable?
    case DuplicateJobId => !b.Unreadable? && !b.DuplicateJobId?
    case ResultsMissingLedger => b.CallsExceedLimit? || b.ConfigurationChanged? || b.ResultLedgerMismatch? || b.RequestChanged?
    case CallsExceedLimit => b.ConfigurationChanged? || b.ResultLedgerMismatch? || b.RequestChanged?
    case ConfigurationChanged => b.ResultLedgerMismatch? || b.RequestChanged?
    case ResultLedgerMismatch => b.RequestChanged?
    case RequestChanged => false
  }

  lemma ReadableIffParses<R>(file: seq<Chunk<R>>)
    ensures Readable(file) <==> Parses(file)
  {
  }

  lemma RequestsMatchIff(run: Run, ledger: seq<Chunk<Reservation>>)
    requires Under(ledger, run.config, run.schema)
    ensures (exists job, l :: job in run.jobs && l in ledger && l.row.id == job.id && l.row.request != run.Ask(job))
       <==> (exists l, job :: l in ledger && job in run.jobs && l.row.id == job.id && l.row.request.messages != job.messages)
  {
    forall l, job | l in ledger && job in run.jobs
      ensures l.row.request == run.Ask(job) <==> l.row.request.messages == job.messages
    {
    }
  }

  lemma MissingIff(disk: Disk)
    ensures !(Recorded(disk.output) <= Reserved(disk.ledger))
       <==> exists o :: o in disk.output && forall l :: l in disk.ledger ==> l.row.id != o.row.id
  {
    assert forall l :: l in disk.ledger ==> l.row.id in Reserved(disk.ledger);
    assert forall o :: o in disk.output ==> o.row.id in Recorded(disk.output);
    if id :| id in Recorded(disk.output) && id !in Reserved(disk.ledger) {
      var o :| o in disk.output && o.row.id == id;
    }
  }

  lemma AnsweredIffMatched(disk: Disk)
    requires UniqueReservations(disk.ledger)
    ensures Answers(disk)
       <==> forall o :: o in disk.output ==> exists l :: l in disk.ledger && l.row.id == o.row.id && l.row.request == o.row.request
  {
    if Answers(disk) {
      forall o | o in disk.output
        ensures exists l :: l in disk.ledger && l.row.id == o.row.id && l.row.request == o.row.request
      {
        assert o.row.id in Recorded(disk.output);
        var l :| l in disk.ledger && l.row.id == o.row.id;
      }
    }
    if forall o :: o in disk.output ==> exists l :: l in disk.ledger && l.row.id == o.row.id && l.row.request == o.row.request {
      forall o, m | o in disk.output && m in disk.ledger && o.row.id == m.row.id
        ensures o.row.request == m.row.request
      {
        var l :| l in disk.ledger && l.row.id == o.row.id && l.row.request == o.row.request;
        OneReservation(disk.ledger, l);
      }
    }
  }

  lemma RefusalIsFounded(run: Run, disk: Disk)
    requires Refuses(run, disk).Some?
    ensures
      var why := Refuses(run, disk).value;
      && Objection(run, disk, why)
      && forall earlier :: ComesBefore(earlier, why) ==> !Objection(run, disk, earlier)
  {
    ReadableIffParses(disk.output);
    ReadableIffParses(disk.ledger);
    MissingIff(disk);
    if Under(disk.ledger, run.config, run.schema) {
      RequestsMatchIff(run, disk.ledger);
    }
  }

  /** A load goes on exactly with a disk that can be resumed; otherwise something is wrong with the disk for
      the reason given, and nothing for a reason that is looked for before. */
  lemma LoadDemands(run: Run, disk: Disk)
    ensures Refuses(run, disk).None? <==> Resumable(run, disk)
    ensures Refuses(run, disk).Some? ==>
      var why := Refuses(run, disk).value;
      && Objection(run, disk, why)
      && forall earlier :: ComesBefore(earlier, why) ==> !Objection(run, disk, earlier)
  {
    ReadableIffParses(disk.output);
    ReadableIffParses(disk.ledger);
    if UniqueReservations(disk.ledger) {
      AnsweredIffMatched(disk);
    }
    if Under(disk.ledger, run.config, run.schema) {
      RequestsMatchIff(run, disk.ledger);
    }
    if Refuses(run, disk).Some? {
      RefusalIsFounded(run, disk);
    }
  }

  // ---- A log that stopped parsing ----------------------------------------------------------

  ghost predicate Broken<R>(file: seq<Chunk<R>>) {
    exists i :: 0 <= i < |file| && !(file[i].shape.Clean? || (file[i].shape.Unterminated? && i == |file| - 1))
  }

  lemma BrokenStaysBroken<R>(file: seq<Chunk<R>>, longer: seq<Chunk<R>>)
    requires Broken(file) && file <= longer
    ensures Broken(longer) && !Readable(longer)
  {
    var i :| 0 <= i < |file| && !(file[i].shape.Clean? || (file[i].shape.Unterminated? && i == |file| - 1));
    assert longer[i] == file[i];
  }

  lemma {:induction false} LogsOnlyGrow(states: seq<State>, steps: seq<Step>, i: nat, j: nat)
    requires History(states, steps) && i <= j < |states|
    ensures states[i].disk.output <= states[j].disk.output
    ensures states[i].disk.ledger <= states[j].disk.ledger
  {
    if i < j {
      LogsOnlyGrow(states, steps, i, j - 1);
      assert Apply(states[j - 1], steps[j - 1]) == Some(states[j]);
      CallsOnlyGrow(states[j - 1], steps[j - 1]);
    }
  }

  /** Once a log no longer parses, every later attempt to resume is refused and changes nothing. */
  lemma BrokenLogStopsEveryRun(states: seq<State>, steps: seq<Step>, i: nat, j: nat)
    requires History(states, steps) && i <= j < |steps| && steps[j].Load?
    requires Broken(states[i].disk.output) || Broken(states[i].disk.ledger)
    ensures states[j + 1] == states[j].Released(steps[j].p)
  {
    HistoryKeepsInv(states, steps, j);
    LogsOnlyGrow(states, steps, i, j);
    assert Apply(states[j], steps[j]) == Some(states[j + 1]);
    if Broken(states[i].disk.output) {
      BrokenStaysBroken(states[i].disk.output, states[j].disk.output);
    } else {
      BrokenStaysBroken(states[i].disk.ledger, states[j].disk.ledger);
    }
    assert Refuses(states[j].procs[steps[j].p].run, states[j].disk) == Some(Unreadable);
  }

  /** A run that finds the lock free and nothing to object to or to reconcile starts its jobs. */
  ghost function Underway(s: State, p: nat, run: Run): State {
    s.(holder := Some(p), procs := s.procs[p := Executing(run, Reserved(s.disk.ledger), FreshTasks(run, Reserved(s.disk.ledger)))])
  }

  lemma RunBegins(s: State, p: nat, run: Run)
    requires Accepted(run) && p !in s.procs && s.holder.None? && Refuses(run, s.disk).None? && Orphans(s.disk) == []
    ensures
      var a := s.(holder := Some(p)).At(p, Locked(run));
      var b := a.At(p, Reconciling(run, Reserved(s.disk.ledger), []));
      && Apply(s, Start(p, run)) == Some(a) && Apply(a, Load(p)) == Some(b) && Apply(b, Begin(p)) == Some(Underway(s, p, run))
  {
    var a := s.(holder := Some(p)).At(p, Locked(run));
    var b := a.At(p, Reconciling(run, Reserved(s.disk.ledger), []));
    assert a.procs[p := Reconciling(run, Reserved(s.disk.ledger), [])] == b.procs;
    assert b.procs[p := Underway(s, p, run).procs[p]] == Underway(s, p, run).procs;
  }

  lemma FirstJobIsSelected(run: Run, attempted: set<Id>)
    requires Accepted(run) && run.jobs[0].id !in attempted && |attempted| < run.maxCalls
    ensures run.jobs[0].id in FreshTasks(run, attempted)
  {
    assert Selected(run, attempted)[0] == run.jobs[0];
  }

  lemma NothingIsRefusedYet(run: Run)
    requires Accepted(run)
    ensures Refuses(run, EMPTY.disk).None? && Orphans(EMPTY.disk) == [] && Reserved(EMPTY.disk.ledger) == {}
  {
  }

  lemma HistoryExtends(states: seq<State>, steps: seq<Step>, step: Step)
    requires History(states, steps) && Apply(states[|steps|], step).Some?
    ensures History(states + [Apply(states[|steps|], step).value], steps + [step])
  {
    RunExtends(Apply, states, steps, step, Apply(states[|steps|], step).value);
  }

  ghost predicate Ends(states: seq<State>, steps: seq<Step>, last: State) {
    History(states, steps) && states[|steps|] == last
  }

  lemma OneStepMore(states: seq<State>, steps: seq<Step>, step: Step, next: State)
    returns (states': seq<State>, steps': seq<Step>)
    requires |states| > 0 && Ends(states, steps, states[|states| - 1]) && Apply(states[|states| - 1], step) == Some(next)
    ensures Ends(states', steps', next) && steps' == steps + [step]
  {
    HistoryExtends(states, steps, step);
    states', steps' := states + [next], steps + [step];
  }

  lemma CrashComesNext(states: seq<State>, steps: seq<Step>) returns (states': seq<State>, steps': seq<Step>)
    requires |states| > 0 && Ends(states, steps, states[|states| - 1]) && 0 in states[|states| - 1].procs
    ensures History(states', steps') && steps' == steps + [Crash(0)]
    ensures states'[|steps'|].disk == states[|states| - 1].disk && states'[|steps'|].calls == states[|states| - 1].calls
  {
    states', steps' := OneStepMore(states, steps, Crash(0), states[|states| - 1].Released(0));
  }

  lemma FirstRunIsUnderway(run: Run) returns (states: seq<State>, steps: seq<Step>)
    requires Accepted(run)
    ensures Ends(states, steps, Underway(EMPTY, 0, run))
  {
    NothingIsRefusedYet(run);
    RunBegins(EMPTY, 0, run);
    var a := EMPTY.(holder := Some(0)).At(0, Locked(run));
    states, steps := OneStepMore([EMPTY], [], Start(0, run), a);
    states, steps := OneStepMore(states, steps, Load(0), a.At(0, Reconciling(run, {}, [])));
    states, steps := OneStepMore(states, steps, Begin(0), Underway(EMPTY, 0, run));
  }

  lemma Reserving(c: State, p: nat, run: Run, attempted: set<Id>, tasks: map<Id, Task>, id: Id, shape: Shape) returns (d: State)
    requires p in c.procs && c.procs[p] == Executing(run, attempted, tasks)
    requires id in tasks && tasks[id].Waiting? && |InFlight(tasks)| < run.concurrency
    ensures Apply(c, Reserve(p, id, shape)) == Some(d)
    ensures d.disk == c.disk.(ledger := c.disk.ledger + [Chunk(Reservation(id, RequestOf(run, run.jobs, id)), shape)])
    ensures d.calls == c.calls && d.holder == c.holder
    ensures d.procs == c.procs[p := Executing(run, attempted, tasks[id := Holding])]
  {
    d := Apply(c, Reserve(p, id, shape)).value;
  }

  lemma FirstReservation(run: Run, shape: Shape) returns (d: State)
    requires Accepted(run)
    ensures Apply(Underway(EMPTY, 0, run), Reserve(0, run.jobs[0].id, shape)) == Some(d)
    ensures |d.disk.ledger| == 1 && d.disk.ledger[0].shape == shape && d.calls == [] && 0 in d.procs && d.disk.output == []
    ensures d.procs[0].Executing? && d.procs[0].run == run
    ensures run.jobs[0].id in d.procs[0].tasks && d.procs[0].tasks[run.jobs[0].id] == Holding
  {
    FirstJobIsSelected(run, {});
    NothingIsRefusedYet(run);
    assert InFlight(FreshTasks(run, {})) == {};
    d := Reserving(Underway(EMPTY, 0, run), 0, run, {}, FreshTasks(run, {}), run.jobs[0].id, shape);
  }

  /** A crash in the first reservation can leave a ledger that no longer parses, whatever the run. */
  lemma TornReservationIsReachable(run: Run) returns (states: seq<State>, steps: seq<Step>)
    requires Accepted(run)
    ensures History(states, steps) && steps != [] && steps[|steps| - 1].Crash?
    ensures Broken(states[|steps|].disk.ledger) && states[|steps|].calls == []
  {
    var d;
    states, steps, d := FirstIsReserved(run, Damaged);
    states, steps := CrashComesNext(states, steps);
  }

  lemma FirstIsReserved(run: Run, shape: Shape) returns (states: seq<State>, steps: seq<Step>, d: State)
    requires Accepted(run)
    ensures Ends(states, steps, d)
    ensures |d.disk.ledger| == 1 && d.disk.ledger[0].shape == shape && d.calls == [] && 0 in d.procs && d.disk.output == []
    ensures d.procs[0].Executing? && d.procs[0].run == run
    ensures run.jobs[0].id in d.procs[0].tasks && d.procs[0].tasks[run.jobs[0].id] == Holding
  {
    d := FirstReservation(run, shape);
    states, steps := FirstRunIsUnderway(run);
    states, steps := OneStepMore(states, steps, Reserve(0, run.jobs[0].id, shape), d);
  }

  lemma CallAndAnswer(d: State, id: Id, status: string, shape: Shape) returns (e: State, f: State)
    requires 0 in d.procs && d.procs[0].Executing? && id in d.procs[0].tasks && d.procs[0].tasks[id] == Holding
    ensures Apply(d, Call(0, id)) == Some(e) && Apply(e, Record(0, id, status, shape)) == Some(f)
    ensures e.calls == f.calls == d.calls + [id] && 0 in f.procs
    ensures |f.disk.output| == |d.disk.output| + 1 && f.disk.output[|d.disk.output|].shape == shape
  {
    e := Apply(d, Call(0, id)).value;
    f := Apply(e, Record(0, id, status, shape)).value;
  }

  lemma TornAnswer(before: seq<State>, taken: seq<Step>, d: State, id: Id, status: string)
    returns (states: seq<State>, steps: seq<Step>, f: State)
    requires Ends(before, taken, d) && d.disk.output == [] && d.calls == []
    requires 0 in d.procs && d.procs[0].Executing? && id in d.procs[0].tasks && d.procs[0].tasks[id] == Holding
    ensures Ends(states, steps, f) && Broken(f.disk.output) && f.calls == [id] && 0 in f.procs
  {
    var e;
    e, f := CallAndAnswer(d, id, status, Damaged);
    states, steps := OneStepMore(before, taken, Call(0, id), e);
    states, steps := OneStepMore(states, steps, Record(0, id, status, Damaged), f);
  }

  /** So can a crash while the first result is written, after the call was made. */
  lemma TornResultIsReachable(run: Run, status: string) returns (states: seq<State>, steps: seq<Step>)
    requires Accepted(run)
    ensures History(states, steps) && steps != [] && steps[|steps| - 1].Crash?
    ensures Broken(states[|steps|].disk.output) && states[|steps|].calls == [run.jobs[0].id]
  {
    var d, f;
    states, steps, d := FirstIsReserved(run, Clean);
    states, steps, f := TornAnswer(states, steps, d, run.jobs[0].id, status);
    states, steps := CrashComesNext(states, steps);
  }
}
