/** One run of the reader as the program performs it, file by file
    (evals/education_memory_counterfactual/reader.py: run_jobs, _append, _job_map), with
    the tasks of the selected jobs taking turns in any order.  Every effect is a step of the shared protocol. */
module Reader {
  import opened Options
  import opened Ledger

  /** The state a sequence of steps leads to, if each can be taken. */
  ghost function Play(s: State, steps: seq<Step>): Option<State> {
    if steps == [] then Some(s)
    else
      var before := Play(s, steps[..|steps| - 1]);
      if before.None? then None else Apply(before.value, steps[|steps| - 1])
  }

  datatype JobError = InvalidJobId | DuplicateJob

  predicate ValidId(id: Option<Id>) {
    id.Some? && 1 <= |id.value| <= MAX_ID
  }

  datatype Mapped = Mapped(ids: set<Id>) | Rejected(error: JobError, at: nat)

  /** Rows keyed by their id, or the first row whose id is missing, empty, too long or taken. */
  method JobMap(rows: seq<Option<Id>>) returns (r: Mapped)
    ensures r.Mapped? ==>
      && (forall i :: 0 <= i < |rows| ==> ValidId(rows[i]))
      && (forall i, j :: 0 <= i < j < |rows| ==> rows[i] != rows[j])
      && r.ids == set i | 0 <= i < |rows| :: rows[i].value
    ensures r.Rejected? ==>
      && r.at < |rows|
      && (forall i :: 0 <= i < r.at ==> ValidId(rows[i]))
      && (forall i, j :: 0 <= i < j < r.at ==> rows[i] != rows[j])
      && (if r.error.InvalidJobId? then !ValidId(rows[r.at]) else ValidId(rows[r.at]) && rows[r.at] in rows[..r.at])
  {
    var seen: set<Id> := {};
    for i := 0 to |rows|
      invariant forall k :: 0 <= k < i ==> ValidId(rows[k]) && rows[k].value in seen
      invariant forall id :: id in seen ==> Some(id) in rows[..i]
      invariant forall k, l :: 0 <= k < l < i ==> rows[k] != rows[l]
    {
      if !ValidId(rows[i]) {
        return Rejected(InvalidJobId, i);
      }
      if rows[i].value in seen {
        return Rejected(DuplicateJob, i);
      }
      seen := seen + {rows[i].value};
    }
    return Mapped(seen);
  }

  function Interruptions(orphans: seq<Reservation>): seq<Chunk<Result>> {
    seq(|orphans|, i requires 0 <= i < |orphans| =>
      Chunk(Result(orphans[i].id, orphans[i].request, Interrupted), Clean))
  }

  function ReservationRow(run: Run): Job -> Chunk<Reservation> {
    (job: Job) => Chunk(Reservation(job.id, run.Ask(job)), Clean)
  }

  function ResultRow(run: Run, provider: Job -> string): Job -> Chunk<Result> {
    (job: Job) => Chunk(Result(job.id, run.Ask(job), Returned(provider(job))), Clean)
  }

  function JobId(): Job -> Id {
    (job: Job) => job.id
  }

  /** The rows of the jobs whose id is in `keep`. */
  function Collect<T>(jobs: seq<Job>, keep: set<Id>, row: Job -> T): seq<T> {
    if jobs == [] then []
    else (if jobs[0].id in keep then [row(jobs[0])] else []) + Collect(jobs[1..], keep, row)
  }

  /** `after` is `before` with these rows appended, in some order. */
  ghost predicate Added<T>(before: seq<T>, after: seq<T>, rows: seq<T>) {
    before <= after && multiset(after[|before|..]) == multiset(rows)
  }

  lemma OneRowAdded<T>(before: seq<T>, after: seq<T>, rows: seq<T>, row: T, more: seq<T>)
    requires Added(before, after, rows) && multiset(more) == multiset(rows) + multiset{row}
    ensures Added(before, after + [row], more)
  {
    assert (after + [row])[|before|..] == after[|before|..] + [row];
  }

  lemma {:induction false} CollectNone<T>(jobs: seq<Job>, row: Job -> T)
    ensures Collect(jobs, {}, row) == []
  {
    if jobs != [] {
      CollectNone(jobs[1..], row);
    }
  }

  lemma {:induction false} CollectIgnores<T>(jobs: seq<Job>, keep: set<Id>, id: Id, row: Job -> T)
    requires id !in Ids(jobs)
    ensures Collect(jobs, keep + {id}, row) == Collect(jobs, keep, row)
  {
    if jobs != [] {
      assert jobs[0].id in Ids(jobs) && Ids(jobs[1..]) <= Ids(jobs);
      CollectIgnores(jobs[1..], keep, id, row);
    }
  }

  /** One more job, one more row. */
  lemma {:induction false} CollectGrows<T>(jobs: seq<Job>, keep: set<Id>, job: Job, row: Job -> T)
    requires DistinctIds(jobs) && job in jobs && job.id !in keep
    ensures multiset(Collect(jobs, keep + {job.id}, row)) == multiset(Collect(jobs, keep, row)) + multiset{row(job)}
  {
    if jobs[0] == job {
      CollectIgnores(jobs[1..], keep, job.id, row);
    } else {
      assert job.id in Ids(jobs[1..]);
      CollectGrows(jobs[1..], keep, job, row);
    }
  }

  datatype Outcome =
    | NotAccepted
    | AlreadyRunning
    | Refused(why: Refusal)
    | Summary(newCalls: nat, skipped: nat, cumulative: nat, deferred: int)

  /** One output path with its ledger, and, for the proof only, the protocol state they belong to. */
  class Output {
    var output: seq<Chunk<Result>>
    var ledger: seq<Chunk<Reservation>>
    var locked: bool
    ghost var state: State
    ghost var steps: seq<Step>

    ghost predicate Valid()
      reads this
    {
      && state.disk == Disk(output, ledger) && (locked <==> state.holder.Some?)
      && Play(EMPTY, steps) == Some(state)
    }

    constructor ()
      ensures Valid() && output == [] && ledger == [] && !locked && steps == []
    {
      output, ledger, locked := [], [], false;
      state, steps := EMPTY, [];
    }

    /** Records one protocol step in the history. */
    ghost method Take(step: Step)
      requires Play(EMPTY, steps) == Some(state) && Apply(state, step).Some?
      modifies `state, `steps
      ensures Play(EMPTY, steps) == Some(state)
      ensures Apply(old(state), step) == Some(state) && steps == old(steps) + [step]
    {
      assert (steps + [step])[..|steps|] == steps;
      state, steps := Apply(state, step).value, steps + [step];
    }

    /** The whole line reaches the disk before the call returns. */
    method AppendResult(row: Result)
      modifies `output
      ensures output == old(output) + [Chunk(row, Clean)]
    {
      output := output + [Chunk(row, Clean)];
    }

    method AppendReservation(row: Reservation)
      modifies `ledger
      ensures ledger == old(ledger) + [Chunk(row, Clean)]
    {
      ledger := ledger + [Chunk(row, Clean)];
    }

    method ReconcileOne(p: nat, run: Run, attempted: set<Id>, orphans: seq<Reservation>)
      requires Valid() && orphans != []
      requires p in state.procs && state.procs[p] == Reconciling(run, attempted, orphans)
      modifies this
      ensures Valid() && old(steps) <= steps
      ensures output == old(output) + Interruptions(orphans[..1]) && ledger == old(ledger)
      ensures Moved(old(state), state, p, Reconciling(run, attempted, orphans[1..])) && state.calls == old(state).calls
    {
      AppendResult(Result(orphans[0].id, orphans[0].request, Interrupted));
      Take(Step.Reconcile(p, Clean));
    }

    /** Writes an `interrupted_previous_attempt` result for every reservation left unanswered. */
    method Reconcile(p: nat, run: Run, attempted: set<Id>, orphans: seq<Reservation>)
      requires Valid()
      requires p in state.procs && state.procs[p] == Reconciling(run, attempted, orphans)
      modifies this
      ensures Valid() && old(steps) <= steps
      ensures output == old(output) + Interruptions(orphans) && ledger == old(ledger)
      ensures Moved(old(state), state, p, Reconciling(run, attempted, [])) && state.calls == old(state).calls
    {
      for i := 0 to |orphans|
        invariant Valid() && old(steps) <= steps
        invariant output == old(output) + Interruptions(orphans[..i]) && ledger == old(ledger)
        invariant Moved(old(state), state, p, Reconciling(run, attempted, orphans[i..])) && state.calls == old(state).calls
      {
        ReconcileOne(p, run, attempted, orphans[i..]);
        assert Interruptions(orphans[..i + 1]) == Interruptions(orphans[..i]) + Interruptions(orphans[i..][..1]);
        assert orphans[i..][1..] == orphans[i + 1..];
      }
      assert orphans[..|orphans|] == orphans && orphans[|orphans|..] == [];
    }

    method ReserveJob(p: nat, run: Run, attempted: set<Id>, ghost tasks: map<Id, Task>, job: Job)
      requires Valid() && Accepted(run) && job in run.jobs
      requires p in state.procs && state.procs[p] == Executing(run, attempted, tasks)
      requires job.id in tasks && tasks[job.id].Waiting? && |InFlight(tasks)| < run.concurrency
      modifies this
      ensures Valid() && old(steps) <= steps
      ensures ledger == old(ledger) + [ReservationRow(run)(job)] && output == old(output)
      ensures Moved(old(state), state, p, Executing(run, attempted, tasks[job.id := Holding]))
      ensures state.calls == old(state).calls
    {
      RequestIsTheJobs(run, run.jobs, job);
      AppendReservation(Reservation(job.id, run.Ask(job)));
      Take(Reserve(p, job.id, Clean));
    }

    method CallProvider(p: nat, run: Run, attempted: set<Id>, ghost tasks: map<Id, Task>, job: Job)
      requires Valid()
      requires p in state.procs && state.procs[p] == Executing(run, attempted, tasks)
      requires job.id in tasks && tasks[job.id].Holding?
      modifies this
      ensures Valid() && old(steps) <= steps
      ensures ledger == old(ledger) && output == old(output)
      ensures Moved(old(state), state, p, Executing(run, attempted, tasks[job.id := Calling]))
      ensures state.calls == old(state).calls + [job.id]
    {
      Take(Call(p, job.id));
    }

    method RecordResult(p: nat, run: Run, attempted: set<Id>, ghost tasks: map<Id, Task>, job: Job, provider: Job -> string)
      requires Valid() && Accepted(run) && job in run.jobs
      requires p in state.procs && state.procs[p] == Executing(run, attempted, tasks)
      requires job.id in tasks && tasks[job.id].Calling?
      modifies this
      ensures Valid() && old(steps) <= steps
      ensures ledger == old(ledger)
      ensures output == old(output) + [ResultRow(run, provider)(job)]
      ensures Moved(old(state), state, p, Executing(run, attempted, tasks[job.id := Done]))
      ensures state.calls == old(state).calls
    {
      RequestIsTheJobs(run, run.jobs, job);
      AppendResult(Result(job.id, run.Ask(job), Returned(provider(job))));
      Take(Record(p, job.id, provider(job), Clean));
    }

    /** The next turn of one task: it reserves, calls, or records. */
    method TakeTurn(p: nat, run: Run, attempted: set<Id>, tasks: map<Id, Task>, job: Job, provider: Job -> string) returns (next: Task)
      requires Valid() && Accepted(run) && job in run.jobs
      requires p in state.procs && state.procs[p] == Executing(run, attempted, tasks)
      requires CanMove(run, tasks, job)
      modifies this
      ensures Valid() && old(steps) <= steps
      ensures next == After(tasks[job.id])
      ensures ledger == old(ledger) + if next.Holding? then [ReservationRow(run)(job)] else []
      ensures output == old(output) + if next.Done? then [ResultRow(run, provider)(job)] else []
      ensures state.calls == old(state).calls + if next.Calling? then [job.id] else []
      ensures Moved(old(state), state, p, Executing(run, attempted, tasks[job.id := next]))
    {
      match tasks[job.id] {
        case Waiting => ReserveJob(p, run, attempted, tasks, job);
        case Holding => CallProvider(p, run, attempted, tasks, job);
        case Calling => RecordResult(p, run, attempted, tasks, job, provider);
        case Done => assert false;
      }
      next := After(tasks[job.id]);
    }

    /** One turn of a task that can take it, and what has been shown since `l`, `o` and `calls`. */
    method OneTurn(p: nat, run: Run, attempted: set<Id>, jobs: seq<Job>, tasks: map<Id, Task>, job: Job, provider: Job -> string,
                   ghost l: seq<Chunk<Reservation>>, ghost o: seq<Chunk<Result>>, ghost calls: seq<Id>)
      returns (next: map<Id, Task>)
      requires Valid() && Accepted(run) && DistinctIds(jobs) && job in jobs && job in run.jobs && CanMove(run, tasks, job)
      requires p in state.procs && state.procs[p] == Executing(run, attempted, tasks)
      requires Shown(run, jobs, provider, tasks, l, ledger, o, output, calls, state.calls)
      modifies this
      ensures Valid() && old(steps) <= steps
      ensures next.Keys == tasks.Keys && TurnsLeft(next) < TurnsLeft(tasks)
      ensures Moved(old(state), state, p, Executing(run, attempted, next))
      ensures Shown(run, jobs, provider, next, l, ledger, o, output, calls, state.calls)
    {
      TurnIsShown(run, jobs, provider, tasks, job, l, ledger, o, output, calls, state.calls);
      TurnsDrop(tasks, job.id);
      var t := TakeTurn(p, run, attempted, tasks, job, provider);
      next := tasks[job.id := t];
    }

    /** The turn that `pick` chooses among the tasks that can take one. */
    method NextTurn(p: nat, run: Run, attempted: set<Id>, jobs: seq<Job>, tasks: map<Id, Task>, provider: Job -> string, picked: nat,
                    ghost start: State, ghost l: seq<Chunk<Reservation>>, ghost o: seq<Chunk<Result>>, ghost calls: seq<Id>)
      returns (next: map<Id, Task>)
      requires Valid() && Accepted(run) && DistinctIds(jobs) && (forall job :: job in jobs ==> job in run.jobs)
      requires tasks.Keys == Ids(jobs) && !AllDone(tasks)
      requires Moved(start, state, p, Executing(run, attempted, tasks))
      requires Shown(run, jobs, provider, tasks, l, ledger, o, output, calls, state.calls)
      modifies this
      ensures Valid() && old(steps) <= steps
      ensures next.Keys == tasks.Keys && TurnsLeft(next) < TurnsLeft(tasks)
      ensures Moved(start, state, p, Executing(run, attempted, next))
      ensures Shown(run, jobs, provider, next, l, ledger, o, output, calls, state.calls)
    {
      SomeTaskCanMove(run, jobs, tasks);
      var movable := Movable(run, jobs, tasks);
      var job := movable[picked % |movable|];
      assert job in movable;
      ghost var was := state;
      next := OneTurn(p, run, attempted, jobs, tasks, job, provider, l, o, calls);
      MovedOn(start, was, state, p, Executing(run, attempted, tasks), Executing(run, attempted, next));
    }

    /** Turn after turn, in any order `pick` chooses among the tasks that can take one. */
    method TakeTurns(p: nat, run: Run, attempted: set<Id>, jobs: seq<Job>, waiting: map<Id, Task>, provider: Job -> string,
                     pick: nat -> nat,
                     ghost start: State, ghost l: seq<Chunk<Reservation>>, ghost o: seq<Chunk<Result>>, ghost calls: seq<Id>)
      returns (tasks: map<Id, Task>)
      requires Valid() && Accepted(run) && DistinctIds(jobs) && waiting.Keys == Ids(jobs)
      requires forall job :: job in jobs ==> job in run.jobs
      requires Moved(start, state, p, Executing(run, attempted, waiting))
      requires Shown(run, jobs, provider, waiting, l, ledger, o, output, calls, state.calls)
      modifies this
      ensures Valid() && old(steps) <= steps && AllDone(tasks) && tasks.Keys == Ids(jobs)
      ensures Moved(start, state, p, Executing(run, attempted, tasks))
      ensures Shown(run, jobs, provider, tasks, l, ledger, o, output, calls, state.calls)
    {
      tasks := waiting;
      var turn := 0;
      while !AllDone(tasks)
        invariant Valid() && old(steps) <= steps && tasks.Keys == Ids(jobs)
        invariant Moved(start, state, p, Executing(run, attempted, tasks))
        invariant Shown(run, jobs, provider, tasks, l, ledger, o, output, calls, state.calls)
        decreases TurnsLeft(tasks)
      {
        tasks := NextTurn(p, run, attempted, jobs, tasks, provider, pick(turn), start, l, o, calls);
        turn := turn + 1;
      }
    }

    /** The selected jobs, each in its own task. */
    method Execute(p: nat, run: Run, attempted: set<Id>, jobs: seq<Job>, provider: Job -> string, pick: nat -> nat)
      returns (tasks: map<Id, Task>)
      requires Valid() && Accepted(run) && DistinctIds(jobs) && jobs == Selected(run, attempted)
      requires forall job :: job in jobs ==> job in run.jobs
      requires p in state.procs && state.procs[p] == Executing(run, attempted, FreshTasks(run, attempted))
      modifies this
      ensures Valid() && old(steps) <= steps && AllDone(tasks) && tasks.Keys == Ids(jobs)
      ensures Moved(old(state), state, p, Executing(run, attempted, tasks))
      ensures Shown(run, jobs, provider, tasks, old(ledger), ledger, old(output), output, old(state).calls, state.calls)
    {
      var waiting := FreshTasks(run, attempted);
      NothingIsShown(run, jobs, provider, waiting, ledger, output, state.calls);
      tasks := TakeTurns(p, run, attempted, jobs, waiting, provider, pick, state, ledger, output, state.calls);
    }

    method TakeLock(p: nat, run: Run)
      requires Valid() && Accepted(run) && !locked && p !in state.procs
      modifies this
      ensures Valid() && old(steps) <= steps
      ensures output == old(output) && ledger == old(ledger) && state.calls == old(state).calls
      ensures state.holder == Some(p) && state.procs == old(state).procs[p := Phase.Locked(run)]
    {
      locked := true;
      Take(Start(p, run));
    }

    /** Reads both logs under the lock; a refusal releases it and leaves the logs alone. */
    method LoadLogs(p: nat, run: Run) returns (why: Option<Refusal>)
      requires Valid() && locked && p in state.procs && state.procs[p] == Phase.Locked(run)
      modifies this
      ensures Valid() && old(steps) <= steps
      ensures output == old(output) && ledger == old(ledger) && state.calls == old(state).calls
      ensures why == Refuses(run, Disk(output, ledger))
      ensures why.Some? ==> !locked && state.procs == old(state).procs - {p}
      ensures why.None? ==> Moved(old(state), state, p, Reconciling(run, Reserved(ledger), Orphans(state.disk)))
    {
      why := Refuses(run, Disk(output, ledger));
      locked := why.None?;
      Take(Load(p));
    }

    method BeginCalls(p: nat, run: Run, attempted: set<Id>)
      requires Valid() && p in state.procs && state.procs[p] == Reconciling(run, attempted, [])
      modifies this
      ensures Valid() && old(steps) <= steps
      ensures output == old(output) && ledger == old(ledger) && state.calls == old(state).calls
      ensures Moved(old(state), state, p, Executing(run, attempted, FreshTasks(run, attempted)))
    {
      Take(Begin(p));
    }

    method FinishRun(p: nat, run: Run, attempted: set<Id>, ghost tasks: map<Id, Task>)
      requires Valid() && p in state.procs && state.procs[p] == Executing(run, attempted, tasks) && AllDone(tasks)
      modifies this
      ensures Valid() && old(steps) <= steps
      ensures output == old(output) && ledger == old(ledger) && state.calls == old(state).calls
      ensures !locked && state.procs == old(state).procs - {p}
      ensures Recorded(output) == Reserved(ledger)
    {
      FinishApplies(steps, state, p, run, attempted, tasks);
      locked := false;
      Take(Finish(p));
    }

    /** Everything after the reconciliation. */
    method CallAll(p: nat, run: Run, attempted: set<Id>, jobs: seq<Job>, provider: Job -> string, pick: nat -> nat)
      requires Valid() && Accepted(run) && jobs == Selected(run, attempted)
      requires p in state.procs && state.procs[p] == Executing(run, attempted, FreshTasks(run, attempted))
      modifies this
      ensures Valid() && old(steps) <= steps
      ensures Added(old(ledger), ledger, Rows(jobs, ReservationRow(run)))
      ensures Added(old(output), output, Rows(jobs, ResultRow(run, provider)))
      ensures Added(old(state).calls, state.calls, Rows(jobs, JobId()))
      ensures Recorded(output) == Reserved(ledger)
      ensures !locked && state.procs == old(state).procs - {p}
    {
      SelectedAreDistinctJobs(run, attempted);
      var tasks := Execute(p, run, attempted, jobs, provider, pick);
      AllIsShown(run, jobs, provider, tasks, old(ledger), ledger, old(output), output, old(state).calls, state.calls);
      FinishRun(p, run, attempted, tasks);
    }

    /** Everything after a load that was not refused. */
    method Resume(p: nat, run: Run, attempted: set<Id>, orphans: seq<Reservation>, jobs: seq<Job>, provider: Job -> string, pick: nat -> nat)
      requires Valid() && Accepted(run) && jobs == Selected(run, attempted)
      requires p in state.procs && state.procs[p] == Reconciling(run, attempted, orphans)
      modifies this
      ensures Valid() && old(steps) <= steps
      ensures Added(old(ledger), ledger, Rows(jobs, ReservationRow(run)))
      ensures Added(old(output) + Interruptions(orphans), output, Rows(jobs, ResultRow(run, provider)))
      ensures Added(old(state).calls, state.calls, Rows(jobs, JobId()))
      ensures Recorded(output) == Reserved(ledger)
      ensures !locked && state.procs == old(state).procs - {p}
    {
      Reconcile(p, run, attempted, orphans);
      BeginCalls(p, run, attempted);
      CallAll(p, run, attempted, jobs, provider, pick);
    }

    method RunUnderLock(p: nat, run: Run, provider: Job -> string, pick: nat -> nat) returns (r: Outcome)
      requires Valid() && Accepted(run) && locked && p in state.procs && state.procs[p] == Phase.Locked(run)
      modifies this
      ensures Valid() && old(steps) <= steps
      ensures Ran(run, provider, Disk(old(output), old(ledger)), Disk(output, ledger), old(state).calls, state.calls, r)
      ensures r.Refused? || r.Summary?
      ensures state.procs == old(state).procs - {p} && !locked
    {
      var why := LoadLogs(p, run);
      if why.Some? {
        return Refused(why.value);
      }
      var attempted := Reserved(ledger);
      var jobs := Selected(run, attempted);
      Resume(p, run, attempted, Orphans(Disk(output, ledger)), jobs, provider, pick);
      return Summary(|jobs|, |Ids(run.jobs) * attempted|, |attempted| + |jobs|,
                     |Pending(run.jobs, attempted)| - |jobs|);
    }

    /** A whole run: the checks, the lock, the load, the reconciliation, the selected jobs. */
    method RunJobs(p: nat, run: Run, provider: Job -> string, pick: nat -> nat) returns (r: Outcome)
      requires Valid() && p !in state.procs
      modifies this
      ensures Valid() && old(steps) <= steps
      ensures r.NotAccepted? <==> !Acceptable(run)
      ensures r.AlreadyRunning? <==> Acceptable(run) && old(locked)
      ensures Ran(run, provider, Disk(old(output), old(ledger)), Disk(output, ledger), old(state).calls, state.calls, r)
      ensures Means(run, provider, Disk(old(output), old(ledger)), Disk(output, ledger), old(state).calls, state.calls, r)
      ensures state.procs == old(state).procs && locked == old(locked)
    {
      AcceptedIffAcceptable(run);
      r := RunOnce(p, run, provider, pick);
      PlayKeepsInv(steps);
      RanMeans(run, provider, Disk(old(output), old(ledger)), Disk(output, ledger), old(state).calls, state.calls, r);
    }

    method RunOnce(p: nat, run: Run, provider: Job -> string, pick: nat -> nat) returns (r: Outcome)
      requires Valid() && p !in state.procs
      modifies this
      ensures Valid() && old(steps) <= steps
      ensures r.NotAccepted? <==> !Accepted(run)
      ensures r.AlreadyRunning? <==> Accepted(run) && old(locked)
      ensures Ran(run, provider, Disk(old(output), old(ledger)), Disk(output, ledger), old(state).calls, state.calls, r)
      ensures state.procs == old(state).procs && locked == old(locked)
    {
      if !Accepted(run) {
        return NotAccepted;
      }
      if locked {
        return AlreadyRunning;
      }
      ghost var procs := state.procs;
      TakeLock(p, run);
      assert state.procs - {p} == procs;
      r := RunUnderLock(p, run, provider, pick);
    }
  }

  /** What an uncrashed run does to both logs: nothing when it is turned away; otherwise it closes
      every open reservation, then reserves, calls and answers each selected job once, in any interleaving. */
  ghost predicate Ran(run: Run, provider: Job -> string, before: Disk, after: Disk,
                      calls: seq<Id>, calls': seq<Id>, r: Outcome)
  {
    match r
    case NotAccepted => after == before && calls' == calls
    case AlreadyRunning => after == before && calls' == calls
    case Refused(why) => after == before && calls' == calls && Refuses(run, before) == Some(why)
    case Summary(newCalls, skipped, cumulative, deferred) =>
      var attempted := Reserved(before.ledger);
      var jobs := Selected(run, attempted);
      && Refuses(run, before) == None
      && Added(before.ledger, after.ledger, Rows(jobs, ReservationRow(run)))
      && Added(before.output + Interruptions(Orphans(before)), after.output, Rows(jobs, ResultRow(run, provider)))
      && Added(calls, calls', Rows(jobs, JobId()))
      && Recorded(after.output) == Reserved(after.ledger)
      && newCalls == |jobs| && skipped == |Ids(run.jobs) * attempted|
      && cumulative == |attempted| + |jobs| && deferred == |Pending(run.jobs, attempted)| - |jobs|
  }

  // ---- What a run does, row by row ---------------------------------------------------------

  function Asked(run: Run, job: Job): Request {
    Request(job.messages, run.config, run.schema)
  }

  /** Every job taken up is reserved, called and answered, and every reservation left open before is closed. */
  ghost predicate AllIsDone(run: Run, provider: Job -> string, before: Disk, after: Disk, calls: seq<Id>) {
    && (forall k :: TakenUp(run, before.ledger, k) ==>
          var job := run.jobs[k];
          && Chunk(Reservation(job.id, Asked(run, job)), Clean) in after.ledger && job.id in calls
          && Chunk(Result(job.id, Asked(run, job), Returned(provider(job))), Clean) in after.output)
    && (forall l :: l in before.ledger && (forall o :: o in before.output ==> o.row.id != l.row.id) ==>
          Chunk(Result(l.row.id, l.row.request, Interrupted), Clean) in after.output)
  }

  /** Nothing else is reserved, called or answered. */
  ghost predicate NothingElseIsDone(run: Run, provider: Job -> string, before: Disk, after: Disk, calls: seq<Id>, calls': seq<Id>)
    requires before.ledger <= after.ledger && before.output <= after.output && calls <= calls'
  {
    && (forall l :: l in after.ledger[|before.ledger|..] ==>
          exists k :: TakenUp(run, before.ledger, k) && l == Chunk(Reservation(run.jobs[k].id, Asked(run, run.jobs[k])), Clean))
    && (forall id :: id in calls'[|calls|..] ==> exists k :: TakenUp(run, before.ledger, k) && id == run.jobs[k].id)
    && (forall o :: o in after.output[|before.output|..] ==>
          || (exists k :: TakenUp(run, before.ledger, k) &&
                o == Chunk(Result(run.jobs[k].id, Asked(run, run.jobs[k]), Returned(provider(run.jobs[k]))), Clean))
          || (exists l :: l in before.ledger && o == Chunk(Result(l.row.id, l.row.request, Interrupted), Clean)))
  }

  ghost predicate OnePerId(disk: Disk) {
    && (forall i, j :: 0 <= i < j < |disk.ledger| ==> disk.ledger[i].row.id != disk.ledger[j].row.id)
    && (forall i, j :: 0 <= i < j < |disk.output| ==> disk.output[i].row.id != disk.output[j].row.id)
  }

  /** The outcome of a run told without the protocol: a run that is turned away changes nothing, and a
      refusal has its reason on the disk; any other run does what it should and no more. */
  ghost predicate Means(run: Run, provider: Job -> string, before: Disk, after: Disk, calls: seq<Id>, calls': seq<Id>, r: Outcome) {
    match r
    case NotAccepted => after == before && calls' == calls
    case AlreadyRunning => after == before && calls' == calls
    case Refused(why) =>
      && after == before && calls' == calls && Objection(run, before, why)
      && forall earlier :: ComesBefore(earlier, why) ==> !Objection(run, before, earlier)
    case Summary(newCalls, skipped, cumulative, deferred) =>
      && Resumable(run, before) && OnePerId(after)
      && before.ledger <= after.ledger && before.output <= after.output && calls <= calls'
      && AllIsDone(run, provider, before, after, calls'[|calls|..])
      && NothingElseIsDone(run, provider, before, after, calls, calls')
      && |after.ledger| == |before.ledger| + newCalls == cumulative && |calls'| == |calls| + newCalls
      && newCalls + deferred == |NewBefore(run, before.ledger, |run.jobs|)|
      && newCalls + skipped + deferred == |run.jobs|
      && deferred >= 0 && (deferred > 0 ==> cumulative == run.maxCalls)
  }

  lemma AddedRows<T>(before: seq<T>, after: seq<T>, jobs: seq<Job>, row: Job -> T)
    requires Added(before, after, Rows(jobs, row))
    ensures |after| == |before| + |jobs|
    ensures forall job :: job in jobs ==> row(job) in after[|before|..]
    ensures forall x :: x in after[|before|..] ==> exists job :: job in jobs && x == row(job)
  {
    var rows := Rows(jobs, row);
    assert |after[|before|..]| == |multiset(after[|before|..])| == |multiset(rows)| == |jobs|;
    forall job | job in jobs
      ensures row(job) in after[|before|..]
    {
      var i :| 0 <= i < |jobs| && jobs[i] == job;
      assert rows[i] in multiset(rows);
    }
    forall x | x in after[|before|..]
      ensures exists job :: job in jobs && x == row(job)
    {
      assert x in multiset(rows);
      var i :| 0 <= i < |rows| && rows[i] == x;
      assert jobs[i] in jobs;
    }
  }

  /** The jobs selected, and the places of the jobs taken up. */
  lemma SelectedHavePlaces(run: Run, ledger: seq<Chunk<Reservation>>)
    requires Accepted(run) && UniqueReservations(ledger) && |ledger| <= run.maxCalls
    ensures
      var jobs := Selected(run, Reserved(ledger));
      && (forall k :: TakenUp(run, ledger, k) ==> run.jobs[k] in jobs)
      && forall job :: job in jobs ==> exists k :: TakenUp(run, ledger, k) && run.jobs[k] == job
  {
    var jobs := Selected(run, Reserved(ledger));
    forall k | TakenUp(run, ledger, k)
      ensures run.jobs[k] in jobs
    {
      SelectedAreTakenUp(run, ledger, k);
    }
    SelectedAreDistinctJobs(run, Reserved(ledger));
    forall job | job in jobs
      ensures exists k :: TakenUp(run, ledger, k) && run.jobs[k] == job
    {
      var k :| 0 <= k < |run.jobs| && run.jobs[k] == job;
      SelectedAreTakenUp(run, ledger, k);
    }
  }

  lemma InterruptionsAre(disk: Disk)
    requires UniqueReservations(disk.ledger)
    ensures
      var rows := Interruptions(Orphans(disk));
      && (forall l :: l in disk.ledger && (forall o :: o in disk.output ==> o.row.id != l.row.id) ==>
            Chunk(Result(l.row.id, l.row.request, Interrupted), Clean) in rows)
      && forall x :: x in rows ==> exists l :: l in disk.ledger && x == Chunk(Result(l.row.id, l.row.request, Interrupted), Clean)
  {
    var orphans := Orphans(disk);
    OrphansAreUnanswered(disk.ledger, Recorded(disk.output));
    forall l | l in disk.ledger && forall o :: o in disk.output ==> o.row.id != l.row.id
      ensures Chunk(Result(l.row.id, l.row.request, Interrupted), Clean) in Interruptions(orphans)
    {
      var i :| 0 <= i < |orphans| && orphans[i] == l.row;
      assert Interruptions(orphans)[i] == Chunk(Result(l.row.id, l.row.request, Interrupted), Clean);
    }
    forall x | x in Interruptions(orphans)
      ensures exists l :: l in disk.ledger && x == Chunk(Result(l.row.id, l.row.request, Interrupted), Clean)
    {
      var i :| 0 <= i < |orphans| && Interruptions(orphans)[i] == x;
      assert orphans[i] in orphans;
    }
  }

  lemma SummaryCounts(run: Run, ledger: seq<Chunk<Reservation>>)
    requires Accepted(run) && UniqueReservations(ledger) && |ledger| <= run.maxCalls
    ensures
      var attempted := Reserved(ledger);
      var started, pending := |Selected(run, attempted)|, |Pending(run.jobs, attempted)|;
      && |attempted| == |ledger| && pending == |NewBefore(run, ledger, |run.jobs|)|
      && pending + |Ids(run.jobs) * attempted| == |run.jobs| && started <= pending
      && (started < pending ==> |ledger| + started == run.maxCalls)
  {
    UniqueReservationsCount(ledger);
    NewBeforeCounts(run, ledger, |run.jobs|);
    assert run.jobs[..|run.jobs|] == run.jobs;
    SummaryAddsUp(run, Reserved(ledger));
  }

  lemma RowsMean(run: Run, provider: Job -> string, before: Disk, after: Disk, calls: seq<Id>, calls': seq<Id>)
    requires Accepted(run) && UniqueReservations(before.ledger) && |before.ledger| <= run.maxCalls
    requires
      var jobs := Selected(run, Reserved(before.ledger));
      && Added(before.ledger, after.ledger, Rows(jobs, ReservationRow(run)))
      && Added(before.output + Interruptions(Orphans(before)), after.output, Rows(jobs, ResultRow(run, provider)))
      && Added(calls, calls', Rows(jobs, JobId()))
    ensures before.output <= after.output
    ensures AllIsDone(run, provider, before, after, calls'[|calls|..])
    ensures NothingElseIsDone(run, provider, before, after, calls, calls')
    ensures |after.ledger| == |before.ledger| + |Selected(run, Reserved(before.ledger))|
    ensures |calls'| == |calls| + |Selected(run, Reserved(before.ledger))|
  {
    var jobs, closed := Selected(run, Reserved(before.ledger)), Interruptions(Orphans(before));
    SelectedHavePlaces(run, before.ledger);
    InterruptionsAre(before);
    AddedRows(before.ledger, after.ledger, jobs, ReservationRow(run));
    AddedRows(before.output + closed, after.output, jobs, ResultRow(run, provider));
    AddedRows(calls, calls', jobs, JobId());
    OutputSplits(before.output, closed, after.output);
  }

  lemma OutputSplits<T>(before: seq<T>, closed: seq<T>, after: seq<T>)
    requires before + closed <= after
    ensures before <= after && after[|before|..] == closed + after[|before + closed|..]
    ensures forall x :: x in after[|before|..] <==> x in closed || x in after[|before + closed|..]
    ensures forall x :: x in closed ==> x in after
  {
    assert after == before + closed + after[|before + closed|..];
  }

  /** What a run is proved to do in terms of the protocol is what it should do. */
  lemma RanMeans(run: Run, provider: Job -> string, before: Disk, after: Disk, calls: seq<Id>, calls': seq<Id>, r: Outcome)
    requires Ran(run, provider, before, after, calls, calls', r) && (r.Refused? || r.Summary? ==> Accepted(run))
    requires UniqueReservations(after.ledger) && UniqueResults(after.output)
    ensures Means(run, provider, before, after, calls, calls', r)
  {
    LoadDemands(run, before);
    if r.Summary? {
      RowsMean(run, provider, before, after, calls, calls');
      SummaryCounts(run, before.ledger);
    }
  }

  /** Whatever the class has done so far is a history of the protocol, so the invariant holds. */
  lemma {:induction false} PlayKeepsInv(steps: seq<Step>)
    requires Play(EMPTY, steps).Some?
    ensures Inv(Play(EMPTY, steps).value)
  {
    if steps != [] {
      PlayKeepsInv(steps[..|steps| - 1]);
      StepKeepsInv(Play(EMPTY, steps[..|steps| - 1]).value, steps[|steps| - 1]);
    }
  }

  /** A process that is through with its jobs can finish, and every reservation has its result. */
  lemma FinishApplies(steps: seq<Step>, s: State, p: nat, run: Run, attempted: set<Id>, tasks: map<Id, Task>)
    requires Play(EMPTY, steps) == Some(s)
    requires p in s.procs && s.procs[p] == Executing(run, attempted, tasks) && AllDone(tasks)
    ensures Apply(s, Finish(p)) == Some(s.Released(p))
    ensures Recorded(s.disk.output) == Reserved(s.disk.ledger)
  {
    PlayKeepsInv(steps);
    AllDoneMeansAllRecorded(s, p);
  }

  lemma AllDoneMeansAllRecorded(s: State, p: nat)
    requires Inv(s) && p in s.procs && s.procs[p].Executing?
    requires forall id :: id in s.procs[p].tasks ==> s.procs[p].tasks[id].Done?
    ensures Recorded(s.disk.output) == Reserved(s.disk.ledger)
    ensures Completed(s.procs[p].tasks) == s.procs[p].tasks.Keys
  {
    assert PhaseOk(s.disk, s.calls, s.procs[p]);
  }

  lemma {:induction false} SelectedAreDistinctJobs(run: Run, attempted: set<Id>)
    requires DistinctIds(run.jobs)
    ensures DistinctIds(Selected(run, attempted))
    ensures forall job :: job in Selected(run, attempted) ==> job in run.jobs
  {
    PendingIsDistinct(run.jobs, attempted);
    PrefixIsDistinct(Pending(run.jobs, attempted), |Selected(run, attempted)|);
  }

  lemma {:induction false} PrefixIsDistinct(jobs: seq<Job>, n: nat)
    requires DistinctIds(jobs) && n <= |jobs|
    ensures DistinctIds(jobs[..n])
  {
    if n > 0 {
      PrefixIsDistinct(jobs[1..], n - 1);
      assert jobs[..n][1..] == jobs[1..][..n - 1];
    }
  }

  // ---- Turns -------------------------------------------------------------------------------

  function After(t: Task): Task {
    match t
    case Waiting => Holding
    case Holding => Calling
    case _ => Done
  }

  /** A task can reserve while the semaphore lets it, and go on once it has reserved. */
  predicate CanMove(run: Run, tasks: map<Id, Task>, job: Job) {
    && job.id in tasks && !tasks[job.id].Done?
    && (tasks[job.id].Waiting? ==> |InFlight(tasks)| < run.concurrency)
  }

  predicate AllDone(tasks: map<Id, Task>) {
    forall id :: id in tasks ==> tasks[id].Done?
  }

  function Movable(run: Run, jobs: seq<Job>, tasks: map<Id, Task>): (r: seq<Job>)
    ensures forall job :: job in r <==> job in jobs && CanMove(run, tasks, job)
  {
    if jobs == [] then []
    else (if CanMove(run, tasks, jobs[0]) then [jobs[0]] else []) + Movable(run, jobs[1..], tasks)
  }

  /** The semaphore never blocks for good. */
  lemma SomeTaskCanMove(run: Run, jobs: seq<Job>, tasks: map<Id, Task>)
    requires Accepted(run) && tasks.Keys == Ids(jobs) && !AllDone(tasks)
    ensures Movable(run, jobs, tasks) != []
  {
    var id :| id in tasks && !tasks[id].Done? && (tasks[id].Waiting? ==> InFlight(tasks) == {}) by {
      var any :| any in tasks && !tasks[any].Done?;
      if InFlight(tasks) != {} {
        var flying :| flying in InFlight(tasks);
        assert flying in tasks && !tasks[flying].Done? && !tasks[flying].Waiting?;
      }
    }
    var job :| job in jobs && job.id == id;
    assert CanMove(run, tasks, job);
  }

  ghost function TurnsLeft(tasks: map<Id, Task>): nat {
    |tasks.Keys - Started(tasks)| + |tasks.Keys - Called(tasks)| + |tasks.Keys - Completed(tasks)|
  }

  /** A turn adds its id to one of the three sets that show progress. */
  lemma TurnSets(tasks: map<Id, Task>, id: Id)
    requires id in tasks && !tasks[id].Done?
    ensures
      var t := tasks[id := After(tasks[id])];
      && t.Keys == tasks.Keys
      && Started(t) == (if tasks[id].Waiting? then Started(tasks) + {id} else Started(tasks))
      && Called(t) == (if tasks[id].Holding? then Called(tasks) + {id} else Called(tasks))
      && Completed(t) == (if tasks[id].Calling? then Completed(tasks) + {id} else Completed(tasks))
      && (id in Started(tasks) <==> !tasks[id].Waiting?) && (id in Called(tasks) <==> tasks[id].Calling?) && id !in Completed(tasks)
  {
    TaskMoves(tasks, id, After(tasks[id]));
  }

  lemma OneLess(all: set<Id>, s: set<Id>, id: Id)
    requires id in all && id !in s
    ensures |all - (s + {id})| == |all - s| - 1
  {
    assert all - (s + {id}) == all - s - {id};
  }

  lemma TurnsDrop(tasks: map<Id, Task>, id: Id)
    requires id in tasks && !tasks[id].Done?
    ensures TurnsLeft(tasks[id := After(tasks[id])]) == TurnsLeft(tasks) - 1
  {
    TurnSets(tasks, id);
    match tasks[id] {
      case Waiting => OneLess(tasks.Keys, Started(tasks), id);
      case Holding => OneLess(tasks.Keys, Called(tasks), id);
      case Calling => OneLess(tasks.Keys, Completed(tasks), id);
    }
  }

  /** Both logs and the calls have grown by what the tasks have done so far. */
  ghost predicate Shown(run: Run, jobs: seq<Job>, provider: Job -> string, tasks: map<Id, Task>,
                        ledger: seq<Chunk<Reservation>>, ledger': seq<Chunk<Reservation>>,
                        output: seq<Chunk<Result>>, output': seq<Chunk<Result>>, calls: seq<Id>, calls': seq<Id>)
  {
    && Added(ledger, ledger', Collect(jobs, Started(tasks), ReservationRow(run)))
    && Added(output, output', Collect(jobs, Completed(tasks), ResultRow(run, provider)))
    && Added(calls, calls', Collect(jobs, Called(tasks), JobId()))
  }

  lemma NothingIsShown(run: Run, jobs: seq<Job>, provider: Job -> string, tasks: map<Id, Task>,
                       ledger: seq<Chunk<Reservation>>, output: seq<Chunk<Result>>, calls: seq<Id>)
    requires forall id :: id in tasks ==> tasks[id].Waiting?
    ensures Shown(run, jobs, provider, tasks, ledger, ledger, output, output, calls, calls)
  {
    assert Started(tasks) == {} && Completed(tasks) == {} && Called(tasks) == {};
    CollectNone(jobs, ReservationRow(run));
    CollectNone(jobs, ResultRow(run, provider));
    CollectNone(jobs, JobId());
  }

  /** One more id adds its row, and no more ids add none. */
  lemma RowIsAdded<T>(jobs: seq<Job>, keep: set<Id>, job: Job, row: Job -> T, before: seq<T>, after: seq<T>, grows: bool)
    requires DistinctIds(jobs) && job in jobs && Added(before, after, Collect(jobs, keep, row))
    requires grows ==> job.id !in keep
    ensures Added(before, after + (if grows then [row(job)] else []), Collect(jobs, if grows then keep + {job.id} else keep, row))
  {
    if grows {
      CollectGrows(jobs, keep, job, row);
      OneRowAdded(before, after, Collect(jobs, keep, row), row(job), Collect(jobs, keep + {job.id}, row));
    } else {
      assert after + [] == after;
    }
  }

  lemma TurnIsShown(run: Run, jobs: seq<Job>, provider: Job -> string, tasks: map<Id, Task>, job: Job,
                    ledger: seq<Chunk<Reservation>>, ledger': seq<Chunk<Reservation>>,
                    output: seq<Chunk<Result>>, output': seq<Chunk<Result>>, calls: seq<Id>, calls': seq<Id>)
    requires DistinctIds(jobs) && job in jobs && job.id in tasks && !tasks[job.id].Done?
    requires Shown(run, jobs, provider, tasks, ledger, ledger', output, output', calls, calls')
    ensures
      var next := After(tasks[job.id]);
      Shown(run, jobs, provider, tasks[job.id := next],
            ledger, ledger' + (if next.Holding? then [ReservationRow(run)(job)] else []),
            output, output' + (if next.Done? then [ResultRow(run, provider)(job)] else []),
            calls, calls' + (if next.Calling? then [job.id] else []))
  {
    TurnSets(tasks, job.id);
    RowIsAdded(jobs, Started(tasks), job, ReservationRow(run), ledger, ledger', tasks[job.id].Waiting?);
    RowIsAdded(jobs, Called(tasks), job, JobId(), calls, calls', tasks[job.id].Holding?);
    RowIsAdded(jobs, Completed(tasks), job, ResultRow(run, provider), output, output', tasks[job.id].Calling?);
  }

  function Rows<T>(jobs: seq<Job>, row: Job -> T): seq<T> {
    seq(|jobs|, i requires 0 <= i < |jobs| => row(jobs[i]))
  }

  lemma {:induction false} CollectAll<T>(jobs: seq<Job>, keep: set<Id>, row: Job -> T)
    requires Ids(jobs) <= keep
    ensures Collect(jobs, keep, row) == Rows(jobs, row)
  {
    if jobs != [] {
      assert jobs[0].id in Ids(jobs) && Ids(jobs[1..]) <= Ids(jobs);
      CollectAll(jobs[1..], keep, row);
      assert Rows(jobs, row) == [row(jobs[0])] + Rows(jobs[1..], row);
    }
  }

  lemma AllIsShown(run: Run, jobs: seq<Job>, provider: Job -> string, tasks: map<Id, Task>,
                   ledger: seq<Chunk<Reservation>>, ledger': seq<Chunk<Reservation>>,
                   output: seq<Chunk<Result>>, output': seq<Chunk<Result>>, calls: seq<Id>, calls': seq<Id>)
    requires AllDone(tasks) && tasks.Keys == Ids(jobs)
    requires Shown(run, jobs, provider, tasks, ledger, ledger', output, output', calls, calls')
    ensures Added(ledger, ledger', Rows(jobs, ReservationRow(run)))
    ensures Added(output, output', Rows(jobs, ResultRow(run, provider)))
    ensures Added(calls, calls', Rows(jobs, JobId()))
  {
    assert Started(tasks) == Ids(jobs) && Called(tasks) == Ids(jobs) && Completed(tasks) == Ids(jobs);
    CollectAll(jobs, Ids(jobs), ReservationRow(run));
    CollectAll(jobs, Ids(jobs), ResultRow(run, provider));
    CollectAll(jobs, Ids(jobs), JobId());
  }

  /** Only process `p` moved, and it now stands at `phase`. */
  ghost predicate Moved(before: State, after: State, p: nat, phase: Phase) {
    after.holder == before.holder && after.procs == before.procs[p := phase]
  }

  lemma MovedOn(a: State, b: State, c: State, p: nat, x: Phase, y: Phase)
    requires Moved(a, b, p, x) && Moved(b, c, p, y)
    ensures Moved(a, c, p, y)
  {
  }
}
