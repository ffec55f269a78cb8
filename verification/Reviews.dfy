/** When a streak of reviews shows stability
    (evals/five_kernel_interactions/verifier.py: eligible_reviews).

    Times are instants in microseconds.  A payload is present in every event. */
module Reviews {
  import opened Options
  import opened Sorting

  const SPAN := 72 * 3600 * 1000000

  datatype Scope = Scope(learner: Option<int>, project: Option<int>, checkpoint: Option<int>)

  datatype Schedule = Schedule(itemType: Option<string>, item: Option<string>)

  datatype Event = Event(
    id: int, time: int, review: bool, scope: Scope, itemType: Option<string>, item: Option<string>,
    passed: bool, independent: bool, stable: bool, variant: bool)

  datatype History = History(scope: Scope, schedules: seq<Schedule>, events: seq<Event>)

  predicate Earlier(a: Event, b: Event) {
    a.time < b.time || (a.time == b.time && a.id <= b.id)
  }

  function ByTime(): (Event, Event) -> bool {
    (a: Event, b: Event) => Earlier(a, b)
  }

  /** A review of the scheduled item, in scope. */
  predicate Concerns(h: History, e: Event)
    requires |h.schedules| == 1
  {
    e.review && e.scope == h.scope && e.itemType == h.schedules[0].itemType && e.item == h.schedules[0].item
  }

  function OfItem(h: History): Event -> bool
    requires |h.schedules| == 1
  {
    e => Concerns(h, e)
  }

  predicate Earns(e: Event) {
    e.independent && e.stable
  }

  function Earning(): Event -> bool {
    e => Earns(e)
  }

  // ---- The declarative form ----------------------------------------------------------------

  /** The position after the last review that was not passed. */
  function StreakStart(events: seq<Event>): (n: nat)
    ensures n <= |events|
    ensures n > 0 ==> !events[n - 1].passed
    ensures forall i :: n <= i < |events| ==> events[i].passed
  {
    if events == [] then 0
    else if !events[|events| - 1].passed then |events|
    else StreakStart(events[..|events| - 1])
  }

  predicate Suffices(tail: seq<Event>) {
    |tail| >= 2 && tail[|tail| - 1].time - tail[0].time >= SPAN && exists e :: e in tail && e.variant
  }

  /** The earning passes after the last failure. */
  function Tail(sorted: seq<Event>): seq<Event> {
    Filter(Earning(), sorted[StreakStart(sorted)..])
  }

  function Stable(sorted: seq<Event>): seq<Event> {
    if Suffices(Tail(sorted)) then Tail(sorted) else []
  }

  function Eligible(h: History): seq<Event> {
    if |h.schedules| != 1 then [] else Stable(InOrder(h))
  }

  /** The reviews of the item by time. */
  function InOrder(h: History): seq<Event>
    requires |h.schedules| == 1
  {
    Sort(ByTime(), Filter(OfItem(h), h.events))
  }

  // ---- The program -------------------------------------------------------------------------

  lemma StreakStartGrows(events: seq<Event>, e: Event)
    ensures StreakStart(events + [e]) == if e.passed then StreakStart(events) else |events| + 1
  {
    assert (events + [e])[..|events|] == events;
  }

  lemma TailGrows(events: seq<Event>, e: Event)
    ensures Tail(events + [e]) == if !e.passed then [] else Tail(events) + if Earns(e) then [e] else []
  {
    StreakStartGrows(events, e);
    if e.passed {
      var n := StreakStart(events);
      assert (events + [e])[n..] == events[n..] + [e];
      FilterLast(Earning(), events[n..], e);
    }
  }

  lemma TailNext(events: seq<Event>, i: nat)
    requires i < |events|
    ensures Tail(events[..i + 1]) == if !events[i].passed then [] else Tail(events[..i]) + if Earns(events[i]) then [events[i]] else []
  {
    assert events[..i + 1] == events[..i] + [events[i]];
    TailGrows(events[..i], events[i]);
  }

  method CollectTail(events: seq<Event>) returns (tail: seq<Event>)
    ensures tail == Tail(events)
  {
    tail := [];
    for i := 0 to |events|
      invariant tail == Tail(events[..i])
    {
      TailNext(events, i);
      if !events[i].passed {
        tail := [];
      } else if Earns(events[i]) {
        tail := tail + [events[i]];
      }
    }
    assert events[..|events|] == events;
  }

  method EligibleReviews(h: History) returns (r: seq<Event>)
    ensures r == Eligible(h)
    ensures DistinctIds(h.events) ==> forall x :: x in r <==> Stands(h, x) && ShowsStability(h)
    ensures InTimeOrder(r) && (DistinctIds(h.events) ==> forall x :: x in r ==> multiset(r)[x] == multiset(h.events)[x])
  {
    EligibleIsOrdered(h);
    if DistinctIds(h.events) {
      forall x
        ensures x in Eligible(h) <==> Stands(h, x) && ShowsStability(h)
        ensures x in Eligible(h) ==> multiset(Eligible(h))[x] == multiset(h.events)[x]
      {
        EligibleIff(h, x);
      }
    }
    if |h.schedules| != 1 {
      return [];
    }
    var tail := CollectTail(InOrder(h));
    if |tail| < 2 || tail[|tail| - 1].time - tail[0].time < SPAN {
      return [];
    }
    if !exists e :: e in tail && e.variant {
      return [];
    }
    return tail;
  }

  // ---- What it means -----------------------------------------------------------------------

  /** A saved review of the one scheduled item, in the scope of the history. */
  ghost predicate IsReview(h: History, e: Event) {
    && |h.schedules| == 1 && e in h.events && e.review && e.scope == h.scope
    && e.itemType == h.schedules[0].itemType && e.item == h.schedules[0].item
  }

  /** An independent pass that counts for stability, later than every review of the item that was not passed. */
  ghost predicate Stands(h: History, e: Event) {
    && IsReview(h, e) && e.passed && e.independent && e.stable
    && forall f :: IsReview(h, f) && !f.passed ==> f.time < e.time || (f.time == e.time && f.id < e.id)
  }

  /** Two standing passes 72 hours apart, and one that is a validated variant. */
  ghost predicate ShowsStability(h: History) {
    && (exists a, b :: Stands(h, a) && Stands(h, b) && b.time - a.time >= 259_200_000_000)
    && exists v :: Stands(h, v) && v.variant
  }

  ghost predicate InTimeOrder(events: seq<Event>) {
    forall i, j :: 0 <= i < j < |events| ==>
      events[i].time < events[j].time || (events[i].time == events[j].time && events[i].id <= events[j].id)
  }

  lemma InOrderHolds(h: History)
    requires |h.schedules| == 1
    ensures SortedBy(ByTime(), InOrder(h)) && forall e :: e in InOrder(h) <==> IsReview(h, e)
    ensures forall e :: IsReview(h, e) ==> multiset(InOrder(h))[e] == multiset(h.events)[e]
  {
    var kept := Filter(OfItem(h), h.events);
    ByTimeIsTotal();
    SortIsSorted(ByTime(), kept);
    forall e
      ensures e in InOrder(h) <==> IsReview(h, e)
      ensures IsReview(h, e) ==> multiset(InOrder(h))[e] == multiset(h.events)[e]
    {
      assert e in InOrder(h) <==> e in multiset(InOrder(h));
      FilterCounts(OfItem(h), h.events, e);
    }
  }

  /** A pass before the start of the streak is not later than the failed review the streak follows. */
  lemma BeforeTheStreak(h: History, x: Event)
    requires |h.schedules| == 1 && DistinctIds(h.events) && Stands(h, x)
    ensures x !in InOrder(h)[..StreakStart(InOrder(h))]
  {
    InOrderHolds(h);
    var sorted, n := InOrder(h), StreakStart(InOrder(h));
    if n > 0 {
      assert sorted[n - 1] in sorted;
      NotBefore(sorted, n - 1, x);
    }
  }

  lemma NotBefore(sorted: seq<Event>, n: nat, x: Event)
    requires SortedBy(ByTime(), sorted) && n < |sorted|
    requires sorted[n].time < x.time || (sorted[n].time == x.time && sorted[n].id < x.id)
    ensures x !in sorted[..n + 1]
  {
    forall i | 0 <= i < n
      ensures sorted[i] != x
    {
      assert Earlier(sorted[i], sorted[n]);
    }
  }

  lemma InTheStreak(h: History, x: Event)
    requires |h.schedules| == 1 && DistinctIds(h.events) && x in InOrder(h)[StreakStart(InOrder(h))..]
    ensures IsReview(h, x) && x.passed
    ensures forall f :: IsReview(h, f) && !f.passed ==> f.time < x.time || (f.time == x.time && f.id < x.id)
  {
    InOrderHolds(h);
    var sorted := InOrder(h);
    PassesInStreak(sorted, x);
    forall f | IsReview(h, f) && !f.passed
      ensures f.time < x.time || (f.time == x.time && f.id < x.id)
    {
      FailuresAreBefore(sorted, x, f);
    }
  }

  lemma PassesInStreak(sorted: seq<Event>, x: Event)
    requires x in sorted[StreakStart(sorted)..]
    ensures x in sorted && x.passed
  {
  }

  lemma FailuresAreBefore(sorted: seq<Event>, x: Event, f: Event)
    requires SortedBy(ByTime(), sorted) && x in sorted[StreakStart(sorted)..] && f in sorted && !f.passed
    ensures Earlier(f, x)
  {
    var n := StreakStart(sorted);
    var i :| n <= i < |sorted| && sorted[i] == x;
    var j :| 0 <= j < |sorted| && sorted[j] == f;
    assert j < n;
  }

  lemma TailStands(h: History, x: Event)
    requires |h.schedules| == 1 && DistinctIds(h.events)
    ensures x in Tail(InOrder(h)) <==> Stands(h, x)
    ensures Stands(h, x) ==> multiset(Tail(InOrder(h)))[x] == multiset(h.events)[x]
  {
    InOrderHolds(h);
    var sorted, n := InOrder(h), StreakStart(InOrder(h));
    assert sorted == sorted[..n] + sorted[n..];
    if x in sorted[n..] {
      InTheStreak(h, x);
    }
    if Stands(h, x) {
      BeforeTheStreak(h, x);
      FilterCounts(Earning(), sorted[n..], x);
      assert multiset(sorted)[x] == multiset(sorted[..n])[x] + multiset(sorted[n..])[x];
    }
  }

  lemma TailIsSorted(h: History)
    requires |h.schedules| == 1
    ensures SortedBy(ByTime(), Tail(InOrder(h)))
  {
    InOrderHolds(h);
    var sorted := InOrder(h);
    FilterIsSorted(ByTime(), Earning(), sorted[StreakStart(sorted)..]);
  }

  lemma EligibleIsOrdered(h: History)
    ensures InTimeOrder(Eligible(h))
  {
    if |h.schedules| == 1 {
      TailIsSorted(h);
    }
  }

  lemma SufficesShows(h: History, tail: seq<Event>)
    requires Suffices(tail) && forall x :: x in tail ==> Stands(h, x)
    ensures ShowsStability(h)
  {
    assert Stands(h, tail[0]) && Stands(h, tail[|tail| - 1]);
  }

  lemma ShownSuffices(h: History, tail: seq<Event>)
    requires ShowsStability(h) && SortedBy(ByTime(), tail) && forall x :: Stands(h, x) ==> x in tail
    ensures Suffices(tail)
  {
    var a, b :| Stands(h, a) && Stands(h, b) && b.time - a.time >= 259_200_000_000;
    FirstAndLast(tail, a, b);
  }

  lemma SufficesIff(h: History)
    requires |h.schedules| == 1 && DistinctIds(h.events)
    ensures Suffices(Tail(InOrder(h))) <==> ShowsStability(h)
  {
    var tail := Tail(InOrder(h));
    TailIsSorted(h);
    forall x
      ensures x in tail <==> Stands(h, x)
    {
      TailStands(h, x);
    }
    if Suffices(tail) {
      SufficesShows(h, tail);
    }
    if ShowsStability(h) {
      ShownSuffices(h, tail);
    }
  }

  lemma FirstAndLast(tail: seq<Event>, a: Event, b: Event)
    requires SortedBy(ByTime(), tail) && a in tail && b in tail && a.time < b.time
    ensures |tail| >= 2 && tail[0].time <= a.time && b.time <= tail[|tail| - 1].time
  {
    var i :| 0 <= i < |tail| && tail[i] == a;
    var j :| 0 <= j < |tail| && tail[j] == b;
    assert i > 0 ==> Earlier(tail[0], a);
    assert j < |tail| - 1 ==> Earlier(b, tail[|tail| - 1]);
  }

  /** A review is returned exactly when it stands and the standing ones show stability, and as often as it
      is saved. */
  lemma EligibleIff(h: History, x: Event)
    requires DistinctIds(h.events)
    ensures x in Eligible(h) <==> Stands(h, x) && ShowsStability(h)
    ensures x in Eligible(h) ==> multiset(Eligible(h))[x] == multiset(h.events)[x]
  {
    if |h.schedules| == 1 {
      SufficesIff(h);
      TailStands(h, x);
    }
  }

  ghost predicate DistinctIds(events: seq<Event>) {
    forall x, y :: x in events && y in events && x.id == y.id ==> x == y
  }

  lemma ByTimeIsTotal()
    ensures TotalPreorder(ByTime())
  {
  }

  /** Rows may be saved in any order. */
  lemma RowOrderMakesNoDifference(g: History, h: History)
    requires g.scope == h.scope && g.schedules == h.schedules && multiset(g.events) == multiset(h.events)
    requires DistinctIds(h.events)
    ensures Eligible(g) == Eligible(h)
  {
    if |h.schedules| == 1 {
      var a, b := Filter(OfItem(h), g.events), Filter(OfItem(h), h.events);
      FilterPermutes(OfItem(h), g.events, h.events);
      ByTimeIsTotal();
      SortIsSorted(ByTime(), b);
      forall x | x in Sort(ByTime(), b)
        ensures x in h.events
      {
        assert x in multiset(Sort(ByTime(), b));
      }
      SortOfSorted(ByTime(), a, Sort(ByTime(), b));
      assert Filter(OfItem(g), g.events) == a by {
        SameFilter(g, h, g.events);
      }
    }
  }

  lemma {:induction false} SameFilter(g: History, h: History, events: seq<Event>)
    requires g.scope == h.scope && g.schedules == h.schedules && |h.schedules| == 1
    ensures Filter(OfItem(g), events) == Filter(OfItem(h), events)
  {
    if events != [] {
      SameFilter(g, h, events[1..]);
    }
  }

  /** A review of the item after every other one. */
  ghost predicate Follows(h: History, e: Event) {
    |h.schedules| == 1 && Concerns(h, e) && forall x :: x in h.events ==> Earlier(x, e) && x.id != e.id
  }

  function With(h: History, e: Event): History {
    h.(events := h.events + [e])
  }

  lemma SortedAreSaved(h: History, x: Event)
    requires |h.schedules| == 1 && x in InOrder(h)
    ensures x in h.events
  {
    ByTimeIsTotal();
    SortIsSorted(ByTime(), Filter(OfItem(h), h.events));
    assert x in multiset(InOrder(h));
  }

  lemma LatestStaysLast(h: History, e: Event)
    requires DistinctIds(h.events) && Follows(h, e)
    ensures SortedBy(ByTime(), InOrder(h) + [e]) && Separates(ByTime(), InOrder(h) + [e])
    ensures multiset(InOrder(h) + [e]) == multiset(Filter(OfItem(h), h.events) + [e])
  {
    var sorted := InOrder(h);
    ByTimeIsTotal();
    SortIsSorted(ByTime(), Filter(OfItem(h), h.events));
    forall x | x in sorted
      ensures x in h.events
    {
      SortedAreSaved(h, x);
    }
    assert forall i :: 0 <= i < |sorted| ==> sorted[i] in sorted;
  }

  lemma LaterComesLast(h: History, e: Event)
    requires DistinctIds(h.events) && Follows(h, e)
    ensures InOrder(With(h, e)) == InOrder(h) + [e]
  {
    ByTimeIsTotal();
    LatestStaysLast(h, e);
    SortOfSorted(ByTime(), Filter(OfItem(h), h.events) + [e], InOrder(h) + [e]);
    FilterLast(OfItem(h), h.events, e);
    SameFilter(With(h, e), h, h.events + [e]);
  }

  /** One later review that is not passed takes the stability away. */
  lemma LaterFailureEmpties(h: History, e: Event)
    requires DistinctIds(h.events) && Follows(h, e) && !e.passed
    ensures Eligible(With(h, e)) == []
  {
    LaterComesLast(h, e);
    TailGrows(InOrder(h), e);
  }

  lemma SufficesGrows(tail: seq<Event>, e: Event)
    requires Suffices(tail) && tail[|tail| - 1].time <= e.time
    ensures Suffices(tail + [e])
  {
    var v :| v in tail && v.variant;
    assert v in tail + [e];
  }

  lemma StableGrows(sorted: seq<Event>, e: Event)
    requires Suffices(Tail(sorted)) && e.passed
    requires Earns(e) ==> Tail(sorted)[|Tail(sorted)| - 1].time <= e.time
    ensures Stable(sorted + [e]) == Tail(sorted) + if Earns(e) then [e] else []
  {
    var tail, grown := Tail(sorted), Tail(sorted + [e]);
    TailGrows(sorted, e);
    if Earns(e) {
      SufficesGrows(tail, e);
    } else {
      assert grown == tail;
    }
    assert Suffices(grown);
  }

  lemma LastIsBefore(h: History, e: Event)
    requires Follows(h, e) && Eligible(h) != []
    ensures Eligible(h)[|Eligible(h)| - 1].time <= e.time
  {
    TailIsSaved(h, Eligible(h)[|Eligible(h)| - 1]);
  }

  /** Once stable, a later pass only adds itself, if it earns its place. */
  lemma LaterPassExtends(h: History, e: Event)
    requires DistinctIds(h.events) && Follows(h, e) && e.passed && Eligible(h) != []
    ensures Eligible(With(h, e)) == Eligible(h) + if Earns(e) then [e] else []
  {
    LaterComesLast(h, e);
    LastIsBefore(h, e);
    StableGrows(InOrder(h), e);
  }

  lemma TailIsSaved(h: History, x: Event)
    requires x in Eligible(h)
    ensures |h.schedules| == 1 && x in h.events && Concerns(h, x) && x.passed && Earns(x)
  {
    var kept := Filter(OfItem(h), h.events);
    ByTimeIsTotal();
    SortIsSorted(ByTime(), kept);
    var sorted := Sort(ByTime(), kept);
    assert x in Tail(sorted) && x in sorted[StreakStart(sorted)..];
    assert x in multiset(sorted);
  }

  /** Every review returned is an earning pass of the item, and no saved review of the item between the
      first of them and the end failed. */
  lemma EligibleReviewsHold(h: History, x: Event, y: Event)
    requires x in Eligible(h) && y in h.events && Concerns(h, y) && !y.passed
    ensures Earlier(y, x)
  {
    InOrderHolds(h);
    assert x in Tail(InOrder(h));
    FailuresAreBefore(InOrder(h), x, y);
  }
}
