/** The bounded worker scheduler as a sequence of steps, each of which an interruption may prevent
    (evals/education_memory_upgrade/run_suite.py: execute).

    A job is its place in the plan.  A process runs for a given number of polls and then exits with a
    given code; its log file may already exist, and launching it may fail. */
module SuiteSteps {
  import opened Options
  import opened Sequences

  /** `killed` is the exit code of a process that is terminated while it runs; one that `endsFirst` ends on
      its own after the last poll, before its termination. */
  datatype Process = Process(logIsNew: bool, launches: bool, polls: nat, code: int, killed: int, endsFirst: bool)

  predicate Starts(p: Process) {
    p.logIsNew && p.launches
  }

  /** Where the loop stands; `items` are the active jobs the current sweep has still to poll. */
  datatype Point =
    | Idle | Taken | LogOpen | Launched
    | Polling(items: seq<nat>) | Found(items: seq<nat>) | Noted(items: seq<nat>)
    | Finished | NoLog | NoLaunch

  /** `next` jobs have been taken from the queue and `launched` processes created, both in plan order. */
  datatype State = State(next: nat, launched: nat, active: seq<nat>, exits: map<nat, int>, left: seq<nat>, at: Point)

  function Start(processes: seq<Process>): State {
    State(0, 0, [], map[], seq(|processes|, i requires 0 <= i < |processes| => processes[i].polls), Idle)
  }

  /** list.remove */
  function Without(xs: seq<nat>, x: nat): seq<nat> {
    if xs == [] then [] else if xs[0] == x then xs[1..] else [xs[0]] + Without(xs[1..], x)
  }

  lemma {:induction false} WithoutOne(xs: seq<nat>, x: nat)
    requires Distinct(xs) && x in xs
    ensures Distinct(Without(xs, x)) && |Without(xs, x)| == |xs| - 1
    ensures forall y :: y in Without(xs, x) <==> y in xs && y != x
  {
    TailIsDistinct(xs);
    assert xs == [xs[0]] + xs[1..];
    if xs[0] != x {
      WithoutOne(xs[1..], x);
      var rest := Without(xs[1..], x);
      assert forall i :: 0 <= i < |rest| ==> rest[i] in rest && rest[i] in xs[1..];
    }
  }

  lemma TailIsDistinct(xs: seq<nat>)
    requires Distinct(xs) && xs != []
    ensures Distinct(xs[1..]) && xs[0] !in xs[1..] && forall x :: x in xs[1..] ==> x in xs
  {
    assert forall i :: 0 <= i < |xs| - 1 ==> xs[1..][i] == xs[i + 1];
  }

  // ---- The steps ---------------------------------------------------------------------------

  /** One step of the loop; the last states repeat, and so do states no run reaches. */
  function Step(processes: seq<Process>, workers: nat, s: State): State {
    match s.at
    case Idle =>
      if s.next < |processes| && |s.active| < workers then s.(next := s.next + 1, at := Taken)
      else if s.next == |processes| && s.active == [] then s.(at := Finished)
      else s.(at := Polling(s.active))
    case Taken =>
      if !(0 < s.next <= |processes|) then s
      else s.(at := if processes[s.next - 1].logIsNew then LogOpen else NoLog)
    case LogOpen =>
      if !(0 < s.next <= |processes|) then s
      else if processes[s.next - 1].launches then s.(launched := s.next, at := Launched)
      else s.(at := NoLaunch)
    case Launched => if s.launched == 0 then s else s.(active := s.active + [s.launched - 1], at := Idle)
    case Polling(items) =>
      if items == [] then s.(at := Idle)
      else if items[0] < |s.left| && s.left[items[0]] > 0 then
        s.(left := s.left[items[0] := s.left[items[0]] - 1], at := Polling(items[1..]))
      else s.(at := Found(items))
    case Found(items) =>
      if items == [] || items[0] >= |processes| then s
      else s.(exits := s.exits[items[0] := processes[items[0]].code], at := Noted(items))
    case Noted(items) =>
      if items == [] then s else s.(active := Without(s.active, items[0]), at := Polling(items[1..]))
    case _ => s
  }

  /** The state after `k` steps. */
  function After(processes: seq<Process>, workers: nat, k: nat): State {
    if k == 0 then Start(processes) else Step(processes, workers, After(processes, workers, k - 1))
  }

  // ---- What every step keeps ---------------------------------------------------------------

  predicate InHand(at: Point) {
    at.Taken? || at.LogOpen? || at.NoLog? || at.NoLaunch?
  }

  function Items(at: Point): seq<nat> {
    match at
    case Polling(items) => items
    case Found(items) => items
    case Noted(items) => items
    case _ => []
  }

  /** At most `workers` jobs are active; a launched job is active, has its exit code, or has just been
      launched; and a job taken from the queue is launched, unless it is the one in hand. */
  ghost predicate Sound(processes: seq<Process>, workers: nat, s: State) {
    && s.launched <= s.next <= |processes| == |s.left| && |s.active| <= workers && Distinct(s.active)
    && s.next == (if InHand(s.at) then s.launched + 1 else s.launched)
    && (InHand(s.at) || s.at.Launched? ==> |s.active| < workers)
    && JobsSound(processes, s) && PointSound(processes, s)
  }

  ghost predicate JobsSound(processes: seq<Process>, s: State)
    requires s.launched <= |processes|
  {
    && (forall j :: j in s.active ==> j < s.launched && (j in s.exits ==> s.at.Noted? && s.at.items != [] && s.at.items[0] == j))
    && (forall j :: j in s.exits ==> j < s.launched && s.exits[j] == processes[j].code)
    && (forall j :: 0 <= j < s.launched ==>
          Starts(processes[j]) && (j in s.active || j in s.exits || (s.at.Launched? && j == s.launched - 1)))
  }

  ghost predicate PointSound(processes: seq<Process>, s: State)
    requires s.next <= |processes| == |s.left|
  {
    && Distinct(Items(s.at)) && (forall j :: j in Items(s.at) ==> j in s.active)
    && match s.at
       case LogOpen => s.next > 0 && processes[s.next - 1].logIsNew
       case NoLog => s.next > 0 && !processes[s.next - 1].logIsNew
       case NoLaunch => s.next > 0 && !processes[s.next - 1].launches
       case Launched => s.launched > 0 && s.launched - 1 !in s.active && s.launched - 1 !in s.exits
       case Found(items) => items != []
       case Noted(items) => items != [] && items[0] in s.exits
       case Finished => s.next == |processes| && s.active == []
       case _ => true
  }

  lemma QueueStepKeepsSound(processes: seq<Process>, workers: nat, s: State)
    requires Sound(processes, workers, s) && (s.at.Idle? || s.at.Taken? || s.at.LogOpen? || s.at.Launched?)
    ensures Sound(processes, workers, Step(processes, workers, s))
  {
    DistinctLast(s.active, s.launched);
    if s.at.Launched? {
      DistinctLast(s.active, s.launched - 1);
    }
  }

  lemma SweepStepKeepsSound(processes: seq<Process>, workers: nat, s: State)
    requires Sound(processes, workers, s) && (s.at.Polling? || s.at.Found? || s.at.Noted?)
    ensures Sound(processes, workers, Step(processes, workers, s))
  {
    var items := Items(s.at);
    if items != [] {
      TailIsDistinct(items);
      assert items[0] in s.active;
      WithoutOne(s.active, items[0]);
    }
  }

  /** Every step keeps the bound on the workers and the account of the jobs. */
  lemma StepKeepsSound(processes: seq<Process>, workers: nat, s: State)
    requires Sound(processes, workers, s)
    ensures Sound(processes, workers, Step(processes, workers, s))
  {
    if s.at.Polling? || s.at.Found? || s.at.Noted? {
      SweepStepKeepsSound(processes, workers, s);
    } else if s.at.Idle? || s.at.Taken? || s.at.LogOpen? || s.at.Launched? {
      QueueStepKeepsSound(processes, workers, s);
    }
  }

  /** In every state of every run. */
  lemma {:induction false} AfterIsSound(processes: seq<Process>, workers: nat, k: nat)
    ensures Sound(processes, workers, After(processes, workers, k))
  {
    if k > 0 {
      AfterIsSound(processes, workers, k - 1);
      StepKeepsSound(processes, workers, After(processes, workers, k - 1));
    }
  }

  // ---- How a run stops ---------------------------------------------------------------------

  predicate Final(s: State) {
    s.at.Finished? || s.at.NoLog? || s.at.NoLaunch?
  }

  /** Nothing stops the first `k` steps. */
  ghost predicate Unstopped(processes: seq<Process>, workers: nat, limit: Option<nat>, k: nat) {
    k == 0 ||
    (Unstopped(processes, workers, limit, k - 1) && limit != Some(k - 1) && !Final(After(processes, workers, k - 1)))
  }

  /** The run stands in state `s` after `k` steps, none of which was prevented. */
  ghost predicate Reached(processes: seq<Process>, workers: nat, limit: Option<nat>, k: nat, s: State) {
    s == After(processes, workers, k) && Unstopped(processes, workers, limit, k)
  }

  /** What the loop relies on in a state it reaches. */
  ghost predicate InOrder(processes: seq<Process>, s: State) {
    && s.launched <= s.next <= |processes| == |s.left|
    && s.next == (if InHand(s.at) then s.launched + 1 else s.launched)
    && (s.at.Launched? ==> s.launched > 0)
    && (forall j :: j in s.active ==> j < s.launched)
    && var items := Items(s.at);
       items != [] ==> items[0] in s.active && |Without(s.active, items[0])| == |s.active| - 1
  }

  lemma ReachedIsInOrder(processes: seq<Process>, workers: nat, limit: Option<nat>, k: nat, s: State)
    requires Reached(processes, workers, limit, k, s)
    ensures InOrder(processes, s)
  {
    AfterIsSound(processes, workers, k);
    if Items(s.at) != [] {
      WithoutOne(s.active, Items(s.at)[0]);
    }
  }

  lemma GoesOn(processes: seq<Process>, workers: nat, limit: Option<nat>, k: nat, s: State)
    requires Reached(processes, workers, limit, k, s) && limit != Some(k) && !Final(s)
    ensures Reached(processes, workers, limit, k + 1, Step(processes, workers, s)) && InOrder(processes, s)
  {
    ReachedIsInOrder(processes, workers, limit, k, s);
  }

  /** An interruption after `limit` steps, or the end of the loop, whichever comes first. */
  ghost predicate StopsAfter(processes: seq<Process>, workers: nat, limit: Option<nat>, k: nat) {
    Unstopped(processes, workers, limit, k) && (limit == Some(k) || Final(After(processes, workers, k)))
  }

  lemma {:induction false} UnstoppedBefore(processes: seq<Process>, workers: nat, limit: Option<nat>, k: nat, i: nat)
    requires Unstopped(processes, workers, limit, k) && i < k
    ensures limit != Some(i) && !Final(After(processes, workers, i))
  {
    if i < k - 1 {
      UnstoppedBefore(processes, workers, limit, k - 1, i);
    }
  }

  lemma StopIsUnique(processes: seq<Process>, workers: nat, limit: Option<nat>, k: nat, m: nat)
    requires StopsAfter(processes, workers, limit, k) && StopsAfter(processes, workers, limit, m)
    ensures k == m
  {
    if k < m {
      UnstoppedBefore(processes, workers, limit, m, k);
    } else if m < k {
      UnstoppedBefore(processes, workers, limit, k, m);
    }
  }

  /** A job that no longer waits and was never launched. */
  ghost predicate Lost(s: State, job: nat) {
    s.launched <= job < s.next
  }

  /** A launched job whose process is not on the list of active ones and has no exit code. */
  ghost predicate Unattended(s: State, job: nat) {
    job < s.launched && job !in s.active && job !in s.exits
  }

  /** A job is lost exactly when the run stops between taking it and launching it, or its log or its
      launch fails; its process is left unattended exactly when the run stops between launch and append. */
  lemma WhatAStopLoses(processes: seq<Process>, workers: nat, k: nat)
    ensures
      var s := After(processes, workers, k);
      && ((exists job :: Lost(s, job)) <==> s.at.Taken? || s.at.LogOpen? || s.at.NoLog? || s.at.NoLaunch?)
      && ((exists job :: Unattended(s, job)) <==> s.at.Launched?)
      && (forall job :: Lost(s, job) ==> job == s.launched)
      && (forall job :: Unattended(s, job) ==> job == s.launched - 1)
  {
    var s := After(processes, workers, k);
    AfterIsSound(processes, workers, k);
    if InHand(s.at) {
      assert Lost(s, s.launched);
    }
    if s.at.Launched? {
      assert Unattended(s, s.launched - 1);
    }
  }

  lemma FinishedRunStartedAll(processes: seq<Process>, workers: nat, s: State)
    requires Sound(processes, workers, s) && s.at.Finished?
    ensures forall p :: p in processes ==> Starts(p)
  {
    assert forall j :: 0 <= j < |processes| ==> Starts(processes[j]);
  }

  lemma FailedRunHasAFault(processes: seq<Process>, workers: nat, s: State)
    requires Sound(processes, workers, s) && (s.at.NoLog? || s.at.NoLaunch?)
    ensures exists p :: p in processes && !Starts(p)
  {
    assert processes[s.next - 1] in processes && !Starts(processes[s.next - 1]);
  }

  /** Left alone, a run loses a job exactly when some process of the plan does not start. */
  lemma UninterruptedLoss(processes: seq<Process>, workers: nat, k: nat)
    requires StopsAfter(processes, workers, None, k)
    ensures
      var s := After(processes, workers, k);
      && ((exists job :: Lost(s, job)) <==> exists p :: p in processes && !Starts(p))
      && (s.at.Finished? <==> forall p :: p in processes ==> Starts(p))
  {
    var s := After(processes, workers, k);
    WhatAStopLoses(processes, workers, k);
    AfterIsSound(processes, workers, k);
    if s.at.Finished? {
      FinishedRunStartedAll(processes, workers, s);
    } else {
      FailedRunHasAFault(processes, workers, s);
    }
  }

  /** Any plan loses its first job when it is interrupted after one step, whatever its processes do; and
      leaves its first process unattended when it is interrupted after three, if that process starts. */
  lemma FirstJobCanBeLost(processes: seq<Process>, workers: nat)
    requires workers > 0 && processes != []
    ensures
      && StopsAfter(processes, workers, Some(1), 1) && Lost(After(processes, workers, 1), 0)
      && (Starts(processes[0]) ==>
           StopsAfter(processes, workers, Some(3), 3) && Unattended(After(processes, workers, 3), 0))
  {
    var s0, s1, s2 := After(processes, workers, 0), After(processes, workers, 1), After(processes, workers, 2);
    assert s0.at.Idle? && s1.at.Taken? && s1.next == 1 && s1.launched == 0;
    assert Unstopped(processes, workers, Some(1), 0) && Unstopped(processes, workers, Some(1), 1);
    if Starts(processes[0]) {
      assert s2.at.LogOpen? && s2.next == 1;
      assert Unstopped(processes, workers, Some(3), 1);
      assert Unstopped(processes, workers, Some(3), 2);
      assert Unstopped(processes, workers, Some(3), 3);
    }
  }

  // ---- What the interrupted run leaves behind ----------------------------------------------

  /** A poll has found the process of this job ended. */
  predicate FoundEnded(at: Point, job: nat) {
    (at.Found? || at.Noted?) && at.items != [] && at.items[0] == job
  }

  /** The exit code an active process reports once it has been terminated: its own, if it had ended by then. */
  function CodeOf(processes: seq<Process>, s: State, job: nat): int {
    if job >= |processes| then 0
    else if processes[job].endsFirst || FoundEnded(s.at, job) then processes[job].code
    else processes[job].killed
  }

  function Terminated(processes: seq<Process>, s: State): map<nat, int> {
    map j: nat | j in s.exits.Keys + Elements(s.active) :: if j in s.active then CodeOf(processes, s, j) else s.exits[j]
  }

  /** After an interruption every launched job has an exit code, except an unattended one; and no code
      that a process had reported is lost. */
  lemma TerminationAccountsForAll(processes: seq<Process>, workers: nat, k: nat)
    ensures
      var s := After(processes, workers, k);
      var exits := Terminated(processes, s);
      && (forall job: nat :: job in exits <==> job < s.launched && !Unattended(s, job))
      && (forall job: nat :: job in s.exits ==> exits[job] == s.exits[job])
  {
    AfterIsSound(processes, workers, k);
  }

  /** Whose code is kept: the process's own if a poll has found it ended or it ended before it was
      terminated, and that of a terminated process otherwise. */
  lemma CodesAre(processes: seq<Process>, workers: nat, k: nat)
    ensures
      var s := After(processes, workers, k);
      var exits := Terminated(processes, s);
      forall j: nat :: j in exits ==>
        && j < |processes|
        && exits[j] == if j in s.exits || processes[j].endsFirst || (s.at.Found? && [j] <= s.at.items)
                       then processes[j].code else processes[j].killed
  {
    AfterIsSound(processes, workers, k);
  }

  /** The account of the jobs when a run has stopped in state `s`. */
  lemma AccountOf(processes: seq<Process>, workers: nat, limit: Option<nat>, k: nat, s: State)
    requires Reached(processes, workers, limit, k, s) && (limit == Some(k) || Final(s))
    ensures StopsAfter(processes, workers, limit, k)
    ensures s.launched <= s.next <= |processes| && (s.launched < s.next <==> InHand(s.at))
    ensures (exists job: nat :: job < s.launched && job !in Terminated(processes, s)) <==> s.at.Launched?
    ensures s.at.Finished? ==>
      && s.launched == s.next == |processes| && s.active == []
      && forall j: nat :: (j in s.exits <==> j < |processes|) && (j in s.exits ==> s.exits[j] == processes[j].code)
    ensures limit.None? ==> (s.at.Finished? <==> forall p :: p in processes ==> Starts(p))
  {
    AfterIsSound(processes, workers, k);
    WhatAStopLoses(processes, workers, k);
    TerminationAccountsForAll(processes, workers, k);
    if s.at.Launched? {
      assert Unattended(s, s.launched - 1);
    }
    if limit.None? {
      UninterruptedLoss(processes, workers, k);
    }
  }
}
