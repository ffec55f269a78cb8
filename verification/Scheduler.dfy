/** The bounded worker scheduler in place (evals/education_memory_upgrade/run_suite.py: execute).

    The run may be interrupted before any of its steps; a second interruption while it cleans up is not
    part of this model. */
module Scheduler {
  import opened Options
  import opened SuiteSteps

  datatype Status = Planned | Running | Completed | Failed | Interrupted

  function Range(from: nat, to: nat): (r: seq<nat>)
    requires from <= to
    ensures |r| == to - from
    ensures forall i :: 0 <= i < |r| ==> r[i] == from + i
  {
    seq(to - from, i requires 0 <= i => from + i)
  }

  lemma RangeHolds(from: nat, to: nat)
    requires from <= to
    ensures forall j: nat :: j in Range(from, to) <==> from <= j < to
  {
    forall j: nat | from <= j < to
      ensures j in Range(from, to)
    {
      assert Range(from, to)[j - from] == j;
    }
  }

  function Total(xs: seq<nat>): nat {
    if xs == [] then 0 else xs[0] + Total(xs[1..])
  }

  lemma {:induction false} TotalDrops(xs: seq<nat>, i: nat)
    requires i < |xs| && xs[i] > 0
    ensures Total(xs[i := xs[i] - 1]) == Total(xs) - 1
  {
    if i > 0 {
      TotalDrops(xs[1..], i - 1);
      assert xs[i := xs[i] - 1][1..] == xs[1..][i - 1 := xs[i] - 1];
    }
  }

  class Suite {
    const processes: seq<Process>
    const workers: nat
    /** How many steps the run may take before it is interrupted. */
    const limit: Option<nat>
    var waiting: seq<nat>
    var active: seq<nat>
    var starts: seq<nat>
    var exits: map<nat, int>
    var status: Status
    /** The polls each process will still survive. */
    var left: seq<nat>
    var steps: nat
    var at: Point

    function Now(): State
      reads this
      requires |waiting| <= |processes|
    {
      State(|processes| - |waiting|, |starts|, active, exits, left, at)
    }

    /** The fields are those of the run after `steps` steps, none of which was prevented. */
    ghost predicate Valid()
      reads this
    {
      && workers > 0 && |waiting| <= |processes|
      && Reached(processes, workers, limit, steps, Now())
      && waiting == Range(|processes| - |waiting|, |processes|) && starts == Range(0, |starts|)
    }

    constructor (processes: seq<Process>, workers: nat, limit: Option<nat>)
      requires workers > 0
      ensures Valid() && this.processes == processes && this.workers == workers && this.limit == limit
      ensures steps == 0 && at.Idle? && status == Planned
      ensures |left| == |processes| && forall i :: 0 <= i < |left| ==> left[i] == processes[i].polls
    {
      this.processes := processes;
      this.workers := workers;
      this.limit := limit;
      this.waiting := Range(0, |processes|);
      this.active, this.starts, this.exits, this.status := [], [], map[], Planned;
      this.left := seq(|processes|, i requires 0 <= i < |processes| => processes[i].polls);
      this.steps, this.at := 0, Idle;
    }

    /** The run goes on: the next step is not prevented. */
    ghost predicate Free()
      reads this
    {
      limit != Some(steps)
    }

    ghost predicate Stopped()
      reads this
      requires |waiting| <= |processes|
    {
      limit == Some(steps) || Final(Now())
    }

    /** waiting.pop(0) */
    method Take() returns (job: nat)
      requires Valid() && Free() && at.Idle? && waiting != [] && |active| < workers
      modifies this`waiting, this`steps, this`at
      ensures Valid() && at.Taken? && job == |starts| < |processes| && waiting == old(waiting)[1..]
    {
      ghost var s := Now();
      GoesOn(processes, workers, limit, steps, s);
      job := waiting[0];
      assert waiting[1..] == Range(job + 1, |processes|);
      waiting := waiting[1..];
      steps, at := steps + 1, Taken;
      assert Now() == Step(processes, workers, s);
    }

    method OpenLog(job: nat) returns (failed: bool)
      requires Valid() && Free() && at.Taken? && job == |starts| < |processes|
      modifies this`steps, this`at
      ensures Valid() && (if failed then at.NoLog? else at.LogOpen?)
      ensures failed <==> !processes[job].logIsNew
    {
      GoesOn(processes, workers, limit, steps, Now());
      failed := !processes[job].logIsNew;
      steps, at := steps + 1, if failed then NoLog else LogOpen;
    }

    method Launch(job: nat) returns (failed: bool)
      requires Valid() && Free() && at.LogOpen? && job == |starts| < |processes|
      modifies this`starts, this`steps, this`at
      ensures Valid() && (if failed then at.NoLaunch? else at.Launched?)
      ensures failed <==> !processes[job].launches
      ensures starts == if failed then old(starts) else old(starts) + [job]
    {
      GoesOn(processes, workers, limit, steps, Now());
      failed := !processes[job].launches;
      if !failed {
        assert starts + [job] == Range(0, job + 1);
        starts := starts + [job];
      }
      steps, at := steps + 1, if failed then NoLaunch else Launched;
    }

    method Append(job: nat)
      requires Valid() && Free() && at.Launched? && job == |starts| - 1
      modifies this`active, this`steps, this`at
      ensures Valid() && at.Idle? && active == old(active) + [job]
    {
      GoesOn(processes, workers, limit, steps, Now());
      active := active + [job];
      steps, at := steps + 1, Idle;
    }

    /** Takes and launches the next job, as far as nothing stops it. */
    method StartNext() returns (stopped: bool)
      requires Valid() && at.Idle? && waiting != [] && |active| < workers
      modifies this`waiting, this`starts, this`active, this`steps, this`at
      ensures Valid() && (stopped ==> Stopped())
      ensures !stopped ==> at.Idle? && waiting == old(waiting)[1..] && starts == old(starts) + [old(|starts|)]
      ensures !stopped ==> active == old(active) + [old(|starts|)]
    {
      stopped := limit == Some(steps);
      if stopped { return; }
      var job := Take();
      stopped := limit == Some(steps);
      if stopped { return; }
      stopped := OpenLog(job);
      if stopped || limit == Some(steps) { return true; }
      stopped := Launch(job);
      if stopped || limit == Some(steps) { return true; }
      Append(job);
    }

    /** Starts jobs until no place is free or nothing waits. */
    method Fill() returns (stopped: bool)
      requires Valid() && at.Idle?
      modifies this`waiting, this`starts, this`active, this`steps, this`at
      ensures Valid() && (stopped ==> Stopped())
      ensures !stopped ==> at.Idle? && (waiting == [] || |active| >= workers)
      ensures !stopped ==> |waiting| + |active| == old(|waiting| + |active|)
    {
      stopped := false;
      while waiting != [] && |active| < workers
        invariant Valid() && at.Idle? && !stopped && |waiting| + |active| == old(|waiting| + |active|)
        decreases |waiting|
      {
        stopped := StartNext();
        if stopped {
          return;
        }
      }
    }

    /** A poll that finds the process running. */
    method StillRuns(items: seq<nat>, job: nat)
      requires Valid() && Free() && at == Polling(items) && items != [] && items[0] == job < |left| && left[job] > 0
      modifies this`left, this`steps, this`at
      ensures Valid() && at == Polling(items[1..]) && Total(left) == old(Total(left)) - 1
      ensures |left| == |old(left)| && left == old(left)[job := old(left)[job] - 1]
    {
      ghost var s := Now();
      GoesOn(processes, workers, limit, steps, s);
      TotalDrops(left, job);
      left := left[job := left[job] - 1];
      steps, at := steps + 1, Polling(items[1..]);
      assert Now() == Step(processes, workers, s);
    }

    /** A poll that finds the process ended. */
    method HasEnded(items: seq<nat>, job: nat)
      requires Valid() && Free() && at == Polling(items) && items != [] && items[0] == job < |left| && left[job] == 0
      modifies this`steps, this`at
      ensures Valid() && at == Found(items)
    {
      ghost var s := Now();
      GoesOn(processes, workers, limit, steps, s);
      steps, at := steps + 1, Found(items);
      assert Now() == Step(processes, workers, s);
    }

    method NoteExit(items: seq<nat>, job: nat)
      requires Valid() && Free() && at == Found(items) && items != [] && items[0] == job < |processes|
      modifies this`exits, this`steps, this`at
      ensures Valid() && at == Noted(items) && exits == old(exits)[job := processes[job].code]
    {
      GoesOn(processes, workers, limit, steps, Now());
      exits := exits[job := processes[job].code];
      steps, at := steps + 1, Noted(items);
    }

    method Leave(items: seq<nat>, job: nat)
      requires Valid() && Free() && at == Noted(items) && items != [] && items[0] == job
      modifies this`active, this`steps, this`at
      ensures Valid() && at == Polling(items[1..]) && active == Without(old(active), job) && |active| == old(|active|) - 1
    {
      GoesOn(processes, workers, limit, steps, Now());
      active := Without(active, job);
      steps, at := steps + 1, Polling(items[1..]);
    }

    /** Polls one active process; one that has ended leaves its exit code and gives up its place. */
    method Poll(items: seq<nat>, job: nat) returns (stopped: bool)
      requires Valid() && at == Polling(items) && items != [] && items[0] == job
      modifies this`active, this`exits, this`left, this`steps, this`at
      ensures Valid() && (stopped ==> Stopped())
      ensures !stopped ==> at == Polling(items[1..])
      ensures job < |old(left)| == |processes|
      ensures !stopped && old(left)[job] > 0 ==>
        left == old(left)[job := old(left)[job] - 1] && active == old(active) && exits == old(exits)
      ensures !stopped && old(left)[job] == 0 ==>
        left == old(left) && exits == old(exits)[job := processes[job].code] && active == Without(old(active), job)
      ensures !stopped ==> Total(left) + |active| == old(Total(left) + |active|) - 1
    {
      ReachedIsInOrder(processes, workers, limit, steps, Now());
      if limit == Some(steps) {
        return true;
      }
      if left[job] > 0 {
        StillRuns(items, job);
        return false;
      }
      HasEnded(items, job);
      if limit == Some(steps) {
        return true;
      }
      NoteExit(items, job);
      if limit == Some(steps) {
        return true;
      }
      Leave(items, job);
      return false;
    }

    method BeginSweep() returns (items: seq<nat>)
      requires Valid() && Free() && at.Idle? && active != [] && (waiting == [] || |active| >= workers)
      modifies this`steps, this`at
      ensures Valid() && at == Polling(items) && items == active
    {
      GoesOn(processes, workers, limit, steps, Now());
      items := active;
      steps, at := steps + 1, Polling(items);
    }

    /** Writes the plan and sleeps. */
    method EndSweep()
      requires Valid() && Free() && at == Polling([])
      modifies this`steps, this`at
      ensures Valid() && at.Idle?
    {
      GoesOn(processes, workers, limit, steps, Now());
      steps, at := steps + 1, Idle;
    }

    /** Polls every active process once. */
    method Sweep() returns (stopped: bool)
      requires Valid() && at.Idle? && active != [] && (waiting == [] || |active| >= workers)
      modifies this`active, this`exits, this`left, this`steps, this`at
      ensures Valid() && (stopped ==> Stopped())
      ensures !stopped ==> at.Idle? && Total(left) + |active| == old(Total(left))
    {
      if limit == Some(steps) {
        return true;
      }
      var items := BeginSweep();
      for i := 0 to |items|
        invariant Valid() && at == Polling(items[i..])
        invariant Total(left) + |active| == old(Total(left) + |active|) - i
      {
        assert items[i..][1..] == items[i + 1..];
        stopped := Poll(items[i..], items[i]);
        if stopped {
          return;
        }
      }
      assert items[|items|..] == [];
      if limit == Some(steps) {
        return true;
      }
      EndSweep();
      stopped := false;
    }

    /** Fills and sweeps until nothing waits or runs, or something stops the run. */
    method Drive()
      requires Valid() && at.Idle?
      modifies this`waiting, this`starts, this`active, this`exits, this`left, this`steps, this`at
      ensures Valid() && Stopped()
    {
      while waiting != [] || active != []
        invariant Valid() && at.Idle?
        decreases |waiting| + Total(left) + |active|
      {
        var stopped := Fill();
        if stopped {
          return;
        }
        stopped := Sweep();
        if stopped {
          return;
        }
      }
      if limit != Some(steps) {
        End();
      }
    }

    method End()
      requires Valid() && Free() && at.Idle? && waiting == [] && active == []
      modifies this`steps, this`at
      ensures Valid() && at.Finished?
    {
      ghost var s := Now();
      GoesOn(processes, workers, limit, steps, s);
      steps, at := steps + 1, Finished;
      assert Now() == Step(processes, workers, s);
    }

    /** Terminates the active processes of a run that stopped in state `s`. */
    method Terminate(s: State)
      requires active == s.active && exits == s.exits
      modifies this`exits
      ensures exits == Terminated(processes, s)
    {
      for i := 0 to |active|
        invariant forall j: nat :: j in exits <==> j in s.exits || j in active[..i]
        invariant forall j: nat :: j in exits ==>
          exits[j] == if j in active[..i] then CodeOf(processes, s, j) else s.exits[j]
      {
        assert active[..i + 1] == active[..i] + [active[i]];
        exits := exits[active[i] := CodeOf(processes, s, active[i])];
      }
      assert active[..|active|] == active;
    }

    method AllClean() returns (clean: bool)
      requires forall j: nat :: (j in exits <==> j < |processes|) && (j in exits ==> exits[j] == processes[j].code)
      ensures clean <==> forall p :: p in processes ==> p.code == 0
    {
      clean := true;
      for j := 0 to |processes|
        invariant clean <==> forall k :: 0 <= k < j ==> processes[k].code == 0
      {
        clean := clean && exits[j] == 0;
      }
      if !clean {
        var k :| 0 <= k < |processes| && processes[k].code != 0;
        assert processes[k] in processes;
      }
    }

    /** Runs the plan.  The fields end up as the run stood when it stopped; the exit codes of an abandoned
        run are those after termination. */
    method Execute(drifted: bool, modelUnchanged: bool) returns (completed: bool)
      requires Valid() && steps == 0 && at.Idle?
      modifies this
      ensures StopsAfter(processes, workers, limit, steps)
      ensures Left(After(processes, workers, steps), drifted, modelUnchanged)
      ensures completed <==> status.Completed?
      ensures limit.None? ==>
        (completed <==> !drifted && modelUnchanged && forall p :: p in processes ==> p.logIsNew && p.launches && p.code == 0)
    {
      status := Running;
      Drive();
      var s := Now();
      AccountOf(processes, workers, limit, steps, s);
      Close(s, drifted, modelUnchanged);
      completed := status.Completed?;
    }

    /** Exit codes and status of a run that stopped in state `s`. */
    method Close(s: State, drifted: bool, modelUnchanged: bool)
      requires |waiting| <= |processes| && s == Now() && s.launched <= s.next
      requires waiting == Range(s.next, |processes|) && starts == Range(0, s.launched)
      requires s.at.Finished? ==>
        forall j: nat :: (j in s.exits <==> j < |processes|) && (j in s.exits ==> s.exits[j] == processes[j].code)
      modifies this`exits, this`status
      ensures Left(s, drifted, modelUnchanged)
    {
      if !at.Finished? {
        Terminate(s);
        status := Interrupted;
      } else {
        var clean := AllClean();
        status := if !drifted && modelUnchanged && clean then Completed else Failed;
      }
    }

    /** What a run that stopped in state `s` leaves in the fields. */
    ghost predicate Left(s: State, drifted: bool, modelUnchanged: bool)
      reads this
    {
      && s.launched <= s.next <= |processes|
      && waiting == Range(s.next, |processes|) && starts == Range(0, s.launched) && active == s.active
      && exits == (if s.at.Finished? then s.exits else Terminated(processes, s))
      && status == if !s.at.Finished? then Interrupted
                   else if !drifted && modelUnchanged && forall p :: p in processes ==> p.code == 0 then Completed
                   else Failed
    }
  }

  /** The whole account of a run that has stopped: without an interruption it is abandoned exactly when
      some process does not start; a job is lost exactly when it was in hand; a process is left running
      exactly between its launch and its place on the list; and a run that is not abandoned has started
      every job once and has its exit code.  A code is the process's own if a poll has found it ended or it
      ended before it was terminated, and that of a terminated process otherwise. */
  lemma RunIsAccountedFor(suite: Suite, drifted: bool, modelUnchanged: bool)
    requires StopsAfter(suite.processes, suite.workers, suite.limit, suite.steps)
    requires suite.Left(After(suite.processes, suite.workers, suite.steps), drifted, modelUnchanged)
    ensures
      var s, n := After(suite.processes, suite.workers, suite.steps), |suite.processes|;
      && (suite.limit.None? ==> (suite.status.Interrupted? <==> exists p :: p in suite.processes && !Starts(p)))
      && (|suite.waiting| + |suite.starts| < n <==> s.at.Taken? || s.at.LogOpen? || s.at.NoLog? || s.at.NoLaunch?)
      && ((exists j :: j in suite.starts && j !in suite.exits) <==> s.at.Launched?)
      && (!suite.status.Interrupted? ==>
           && suite.waiting == [] && suite.active == [] && suite.starts == Range(0, n)
           && forall j: nat :: (j in suite.exits <==> j < n) && (j in suite.exits ==> suite.exits[j] == suite.processes[j].code))
    ensures
      var s := After(suite.processes, suite.workers, suite.steps);
      forall j: nat :: j in suite.exits ==>
        && j < |suite.processes|
        && suite.exits[j] == if j in s.exits || suite.processes[j].endsFirst || (s.at.Found? && [j] <= s.at.items)
                             then suite.processes[j].code else suite.processes[j].killed
    ensures suite.status.Completed? <==>
      && After(suite.processes, suite.workers, suite.steps).at.Finished? && !drifted && modelUnchanged
      && forall p :: p in suite.processes ==> p.code == 0
    ensures suite.status.Interrupted? <==> !After(suite.processes, suite.workers, suite.steps).at.Finished?
    ensures suite.status.Failed? <==> !suite.status.Completed? && !suite.status.Interrupted?
  {
    var s := After(suite.processes, suite.workers, suite.steps);
    AccountOf(suite.processes, suite.workers, suite.limit, suite.steps, s);
    RangeHolds(0, s.launched);
    CodesAre(suite.processes, suite.workers, suite.steps);
  }
}
