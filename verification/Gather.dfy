/** The order in which an event loop runs gathered tasks under a semaphore, up to the moment it tells the
    caller that one of them failed (evals/education_memory_counterfactual/reader.py: run_jobs, execute).

    The loop runs what is ready in the order in which it became ready.  A task that finds a free place tries
    its reservation at once; one that does not waits, and gets the place of the next task that ends. */
module Gather {

  /** What is ready to run: a task for the first time, one that was given a place, one whose provider has
      answered, or the notice of a failure to `gather`. */
  datatype Handle = First | Placed | Answered | Notice

  /** How a task's turn ends: it awaits its provider, is done, or fails. */
  datatype Outcome = Awaits | Ends | Fails

  /** `tried` tasks have come to their reservation; `awaiting` of them await their provider. */
  datatype Loop = Loop(ready: seq<Handle>, free: nat, waiting: nat, awaiting: nat, tried: nat)

  function Begin(n: nat, places: nat): Loop {
    Loop(seq(n, _ => First), places, 0, 0, 0)
  }

  // ---- Steps -------------------------------------------------------------------------------

  /** A place is handed to the task that has waited longest, or becomes free. */
  function Release(l: Loop): Loop {
    if l.waiting > 0 then l.(ready := l.ready + [Placed], waiting := l.waiting - 1) else l.(free := l.free + 1)
  }

  /** A task that holds a place ends its turn. */
  function Turn(l: Loop, o: Outcome): Loop {
    match o
    case Awaits => l.(awaiting := l.awaiting + 1)
    case Ends => Release(l)
    case Fails => var r := Release(l); r.(ready := r.ready + [Notice])
  }

  /** Runs what has been ready longest; a notice is where this model ends. */
  function Run(l: Loop, o: Outcome): Loop
    requires l.ready != []
  {
    var rest := l.(ready := l.ready[1..]);
    match l.ready[0]
    case First =>
      if l.free > 0 then Turn(rest.(free := l.free - 1, tried := l.tried + 1), o) else rest.(waiting := l.waiting + 1)
    case Placed => Turn(rest.(tried := l.tried + 1), o)
    case Answered => if l.awaiting == 0 then rest else Turn(rest.(awaiting := l.awaiting - 1), o)
    case Notice => l
  }

  datatype Event = Runs(outcome: Outcome) | Answers

  function Next(l: Loop, e: Event): Loop {
    match e
    case Runs(o) => if l.ready == [] then l else Run(l, o)
    case Answers => l.(ready := l.ready + [Answered])
  }

  /** The loop after these events. */
  function After(n: nat, places: nat, events: seq<Event>): Loop {
    if events == [] then Begin(n, places)
    else Next(After(n, places, events[..|events| - 1]), events[|events| - 1])
  }

  // ---- How many have tried -----------------------------------------------------------------

  function Count(hs: seq<Handle>, h: Handle): nat {
    multiset(hs)[h]
  }

  /** What is ready before the first notice. */
  function Ahead(hs: seq<Handle>): seq<Handle> {
    if hs == [] || hs[0].Notice? then [] else [hs[0]] + Ahead(hs[1..])
  }

  function Min(a: nat, b: nat): nat {
    if a <= b then a else b
  }

  /** All tasks, or one more than there are places. */
  function Least(n: nat, places: nat): nat {
    Min(n, places + 1)
  }

  /** Every place is accounted for, nobody waits while one is free, and once a failure is noticed enough
      tasks have tried or will before the notice is run. */
  ghost predicate Fair(n: nat, places: nat, l: Loop) {
    && l.free + l.awaiting + Count(l.ready, Placed) == places
    && (l.waiting > 0 ==> l.free == 0)
    && l.tried + l.waiting + Count(l.ready, First) + Count(l.ready, Placed) == n
    && l.awaiting <= l.tried
    && (Notice in l.ready ==>
         && Count(Ahead(l.ready), First) == Count(l.ready, First)
         && l.tried + Count(Ahead(l.ready), Placed) + Min(Count(l.ready, First), l.free) >= Least(n, places))
  }

  lemma {:induction false} AheadOfMore(hs: seq<Handle>, h: Handle)
    ensures Ahead(hs + [h]) == if Notice in hs || h.Notice? then Ahead(hs) else hs + [h]
    ensures Notice !in hs ==> Ahead(hs) == hs
  {
    if hs == [] {
      assert [] + [h] == [h];
    } else {
      assert (hs + [h])[0] == hs[0] && (hs + [h])[1..] == hs[1..] + [h];
      AheadOfMore(hs[1..], h);
    }
  }

  lemma HeadIsAhead(hs: seq<Handle>)
    requires hs != [] && !hs[0].Notice?
    ensures Notice in hs <==> Notice in hs[1..]
    ensures forall h :: Count(hs, h) == Count(hs[1..], h) + if h == hs[0] then 1 else 0
    ensures forall h :: Count(Ahead(hs), h) == Count(Ahead(hs[1..]), h) + if h == hs[0] then 1 else 0
  {
    assert hs == [hs[0]] + hs[1..];
  }

  /** One handle more at the end. */
  lemma Appended(hs: seq<Handle>, more: Handle)
    ensures forall h :: Count(hs + [more], h) == Count(hs, h) + if h == more then 1 else 0
    ensures Notice in hs + [more] <==> Notice in hs || more.Notice?
    ensures Notice in hs ==> Ahead(hs + [more]) == Ahead(hs)
    ensures Notice !in hs && more.Notice? ==> Ahead(hs + [more]) == hs
  {
    AheadOfMore(hs, more);
  }

  /** What holds while one task, counted as having tried, has its turn: it holds a place of its own. */
  ghost predicate InTurn(n: nat, places: nat, l: Loop) {
    && l.free + l.awaiting + Count(l.ready, Placed) + 1 == places
    && (l.waiting > 0 ==> l.free == 0)
    && l.tried + l.waiting + Count(l.ready, First) + Count(l.ready, Placed) == n
    && l.awaiting + 1 <= l.tried
    && (Notice in l.ready ==>
         && Count(Ahead(l.ready), First) == Count(l.ready, First)
         && l.tried + Count(Ahead(l.ready), Placed) + Min(Count(l.ready, First), l.free) >= Least(n, places))
  }

  lemma ReleaseIsFair(n: nat, places: nat, l: Loop)
    requires InTurn(n, places, l)
    ensures Fair(n, places, Release(l))
    ensures Notice !in l.ready ==>
      Notice !in Release(l).ready &&
      l.tried + Count(Release(l).ready, Placed) + Min(Count(l.ready, First), Release(l).free) >= Least(n, places)
  {
    Appended(l.ready, Placed);
  }

  lemma TurnIsFair(n: nat, places: nat, l: Loop, o: Outcome)
    requires InTurn(n, places, l)
    ensures Fair(n, places, Turn(l, o))
  {
    match o {
      case Awaits =>
      case Ends => ReleaseIsFair(n, places, l);
      case Fails =>
        ReleaseIsFair(n, places, l);
        Appended(Release(l).ready, Notice);
    }
  }

  lemma FirstIsInTurn(n: nat, places: nat, l: Loop)
    requires Fair(n, places, l) && l.ready != [] && l.ready[0].First?
    ensures
      var rest := l.(ready := l.ready[1..]);
      if l.free > 0 then InTurn(n, places, rest.(free := l.free - 1, tried := l.tried + 1))
      else Fair(n, places, rest.(waiting := l.waiting + 1))
  {
    HeadIsAhead(l.ready);
  }

  lemma PlacedIsInTurn(n: nat, places: nat, l: Loop)
    requires Fair(n, places, l) && l.ready != [] && l.ready[0].Placed?
    ensures InTurn(n, places, l.(ready := l.ready[1..], tried := l.tried + 1))
  {
    HeadIsAhead(l.ready);
  }

  lemma AnsweredIsInTurn(n: nat, places: nat, l: Loop)
    requires Fair(n, places, l) && l.ready != [] && l.ready[0].Answered?
    ensures
      var rest := l.(ready := l.ready[1..]);
      if l.awaiting > 0 then InTurn(n, places, rest.(awaiting := l.awaiting - 1)) else Fair(n, places, rest)
  {
    HeadIsAhead(l.ready);
  }

  lemma FirstIsFair(n: nat, places: nat, l: Loop, o: Outcome)
    requires Fair(n, places, l) && l.ready != [] && l.ready[0].First?
    ensures Fair(n, places, Run(l, o))
  {
    FirstIsInTurn(n, places, l);
    if l.free > 0 {
      TurnIsFair(n, places, l.(ready := l.ready[1..], free := l.free - 1, tried := l.tried + 1), o);
    }
  }

  lemma PlacedIsFair(n: nat, places: nat, l: Loop, o: Outcome)
    requires Fair(n, places, l) && l.ready != [] && l.ready[0].Placed?
    ensures Fair(n, places, Run(l, o))
  {
    PlacedIsInTurn(n, places, l);
    TurnIsFair(n, places, l.(ready := l.ready[1..], tried := l.tried + 1), o);
  }

  lemma AnsweredIsFair(n: nat, places: nat, l: Loop, o: Outcome)
    requires Fair(n, places, l) && l.ready != [] && l.ready[0].Answered?
    ensures Fair(n, places, Run(l, o))
  {
    AnsweredIsInTurn(n, places, l);
    if l.awaiting > 0 {
      TurnIsFair(n, places, l.(ready := l.ready[1..], awaiting := l.awaiting - 1), o);
    }
  }

  lemma RunIsFair(n: nat, places: nat, l: Loop, o: Outcome)
    requires Fair(n, places, l) && l.ready != []
    ensures Fair(n, places, Run(l, o))
  {
    match l.ready[0] {
      case First => FirstIsFair(n, places, l, o);
      case Placed => PlacedIsFair(n, places, l, o);
      case Answered => AnsweredIsFair(n, places, l, o);
      case Notice =>
    }
  }

  /** Every step keeps the account. */
  lemma NextIsFair(n: nat, places: nat, l: Loop, e: Event)
    requires Fair(n, places, l)
    ensures Fair(n, places, Next(l, e))
  {
    match e {
      case Answers => Appended(l.ready, Answered);
      case Runs(o) =>
        if l.ready != [] {
          RunIsFair(n, places, l, o);
        }
    }
  }

  lemma BeginIsFair(n: nat, places: nat)
    ensures Fair(n, places, Begin(n, places))
  {
    AllFirst(n);
  }

  lemma {:induction false} AllFirst(n: nat)
    ensures multiset(seq(n, _ => First)) == multiset{}[First := n]
  {
    if n > 0 {
      AllFirst(n - 1);
      assert seq(n, _ => First) == seq(n - 1, _ => First) + [First];
    }
  }

  lemma {:induction false} AfterIsFair(n: nat, places: nat, events: seq<Event>)
    ensures Fair(n, places, After(n, places, events))
  {
    if events == [] {
      BeginIsFair(n, places);
    } else {
      AfterIsFair(n, places, events[..|events| - 1]);
      NextIsFair(n, places, After(n, places, events[..|events| - 1]), events[|events| - 1]);
    }
  }

  /** When `gather` learns of the first failure, all tasks have come to their reservation, or at least one
      more than there are places, however the tasks before them ended. */
  lemma EnoughHaveTried(n: nat, places: nat, events: seq<Event>)
    requires After(n, places, events).ready != [] && After(n, places, events).ready[0].Notice?
    ensures After(n, places, events).tried >= Least(n, places)
  {
    AfterIsFair(n, places, events);
  }

  // ---- The bound is reached ----------------------------------------------------------------

  /** The first task fails at once and all others await their provider as far as they find a place. */
  function FirstFailure(k: nat): seq<Event> {
    if k == 0 then [] else FirstFailure(k - 1) + [Runs(if k == 1 then Fails else Awaits)]
  }

  function Firsts(k: nat): seq<Handle> {
    if k == 0 then [] else [First] + Firsts(k - 1)
  }

  lemma {:induction false} FirstsAre(n: nat)
    ensures Firsts(n) == seq(n, _ => First)
  {
    if n > 0 {
      FirstsAre(n - 1);
      assert seq(n, _ => First) == [First] + seq(n - 1, _ => First);
    }
  }

  lemma AfterMore(n: nat, places: nat, events: seq<Event>, e: Event)
    ensures After(n, places, events + [e]) == Next(After(n, places, events), e)
  {
    assert (events + [e])[..|events|] == events;
  }

  lemma FirstFails(n: nat, places: nat)
    requires n > 0 && places > 0
    ensures Next(Begin(n, places), Runs(Fails)) == Loop(Firsts(n - 1) + [Notice], places, 0, 0, 1)
  {
    FirstsAre(n);
    assert Firsts(n)[1..] == Firsts(n - 1);
  }

  lemma NextFirst(m: nat, free: nat, waiting: nat, awaiting: nat, tried: nat)
    ensures
      var rest := Firsts(m) + [Notice];
      Next(Loop(Firsts(m + 1) + [Notice], free, waiting, awaiting, tried), Runs(Awaits))
      == if free > 0 then Loop(rest, free - 1, waiting, awaiting + 1, tried + 1) else Loop(rest, 0, waiting + 1, awaiting, tried)
  {
    assert (Firsts(m + 1) + [Notice])[1..] == Firsts(m) + [Notice];
  }

  function Standing(n: nat, places: nat, k: nat): Loop
    requires 0 < k <= n
  {
    var tried := Min(k, places + 1);
    Loop(Firsts(n - k) + [Notice], places + 1 - tried, k - tried, tried - 1, tried)
  }

  lemma StandingMoves(n: nat, places: nat, k: nat)
    requires 1 < k <= n && places > 0
    ensures Next(Standing(n, places, k - 1), Runs(Awaits)) == Standing(n, places, k)
  {
    var l := Standing(n, places, k - 1);
    NextFirst(n - k, l.free, l.waiting, l.awaiting, l.tried);
  }

  lemma {:induction false} AfterFirstFailure(n: nat, places: nat, k: nat)
    requires 0 < k <= n && places > 0
    ensures After(n, places, FirstFailure(k)) == Standing(n, places, k)
  {
    AfterMore(n, places, FirstFailure(k - 1), Runs(if k == 1 then Fails else Awaits));
    if k == 1 {
      FirstFails(n, places);
    } else {
      AfterFirstFailure(n, places, k - 1);
      StandingMoves(n, places, k);
    }
  }

  /** No more than that need have tried: the first task can fail with every place taken by the next ones
      and all the others waiting. */
  lemma FirstFailureLeavesTheRest(n: nat, places: nat)
    requires n > 0 && places > 0
    ensures
      var tried := Least(n, places);
      After(n, places, FirstFailure(n)) == Loop([Notice], places + 1 - tried, n - tried, tried - 1, tried)
  {
    AfterFirstFailure(n, places, n);
  }
}
