/** Invariants of step systems: what every step keeps, every run keeps. */
module Runs {
  import opened Options

  /** Each move leads from one state to the next. */
  ghost predicate IsRun<S, M>(step: (S, M) -> Option<S>, states: seq<S>, moves: seq<M>) {
    && |states| == |moves| + 1
    && forall i :: 0 <= i < |moves| ==> step(states[i], moves[i]) == Some(states[i + 1])
  }

  /** Every move allowed by `ok` keeps `inv`. */
  ghost predicate Keeps<S(!new), M(!new)>(step: (S, M) -> Option<S>, inv: S -> bool, ok: (S, M) -> bool) {
    forall s, m :: inv(s) && ok(s, m) && step(s, m).Some? ==> inv(step(s, m).value)
  }

  lemma {:induction false} Kept<S(!new), M(!new)>(step: (S, M) -> Option<S>, inv: S -> bool, ok: (S, M) -> bool,
                                                 states: seq<S>, moves: seq<M>, first: nat, last: nat)
    requires IsRun(step, states, moves) && first <= last <= |moves| && Keeps(step, inv, ok)
    requires inv(states[first]) && forall i :: first <= i < last ==> ok(states[i], moves[i])
    ensures inv(states[last])
    decreases last
  {
    if first < last {
      Kept(step, inv, ok, states, moves, first, last - 1);
    }
  }

  /** A move keeps the state good exactly when it is not a bad one. */
  ghost predicate KeepsIff<S(!new), M(!new)>(step: (S, M) -> Option<S>, good: S -> bool, bad: (S, M) -> bool) {
    forall s, m :: step(s, m).Some? ==> (good(step(s, m).value) <==> good(s) && !bad(s, m))
  }

  lemma {:induction false} KeptIff<S(!new), M(!new)>(step: (S, M) -> Option<S>, good: S -> bool, bad: (S, M) -> bool,
                                                    states: seq<S>, moves: seq<M>, k: nat)
    requires IsRun(step, states, moves) && k <= |moves| && KeepsIff(step, good, bad) && good(states[0])
    ensures good(states[k]) <==> forall i :: 0 <= i < k ==> !bad(states[i], moves[i])
  {
    if k > 0 {
      KeptIff(step, good, bad, states, moves, k - 1);
    }
  }

  lemma RunExtends<S, M>(step: (S, M) -> Option<S>, states: seq<S>, moves: seq<M>, m: M, next: S)
    requires IsRun(step, states, moves) && step(states[|moves|], m) == Some(next)
    ensures IsRun(step, states + [next], moves + [m])
  {
    forall i | 0 <= i < |moves| + 1
      ensures step((states + [next])[i], (moves + [m])[i]) == Some((states + [next])[i + 1])
    {
      if i < |moves| {
        assert step(states[i], moves[i]) == Some(states[i + 1]);
      }
    }
  }
}
