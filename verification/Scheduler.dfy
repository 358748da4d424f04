/** The deterministic scheduler: events leave in order of time, semantic phase and
    insertion, one time slice after another. */
module Scheduler {
  import opened Wrappers
  import opened MachineInts

  datatype EventKind = ScenarioStart | SensorSample | ObservationDelivery | ProductionRuntime | RuntimeOpportunityMissed | ActuationCommit

  function Phase(kind: EventKind): nat {
    match kind
    case ScenarioStart => 0
    case SensorSample => 1
    case ObservationDelivery => 2
    case ProductionRuntime => 3
    case RuntimeOpportunityMissed => 3
    case ActuationCommit => 4
  }

  datatype Event = Event(at: u64, insertion: u64, kind: EventKind)

  datatype Slice = Slice(from: u64, to: u64, events: seq<Event>)

  datatype ScheduleError = EventInPast(now: u64, at: u64) | SequenceExhausted

  /** By time, then phase, then insertion. */
  predicate Before(a: Event, b: Event) {
    a.at < b.at || (a.at == b.at && SameTimeBefore(a, b))
  }

  /** The order within a slice. */
  predicate SameTimeBefore(a: Event, b: Event) {
    Phase(a.kind) < Phase(b.kind) || (Phase(a.kind) == Phase(b.kind) && a.insertion < b.insertion)
  }

  /** What happens at one time, in the order in which it happens. */
  const PHASES: seq<set<EventKind>> :=
    [{ScenarioStart}, {SensorSample}, {ObservationDelivery}, {ProductionRuntime, RuntimeOpportunityMissed}, {ActuationCommit}]

  /** Event a leaves the queue ahead of b exactly when it is due earlier; or at the same time in an earlier phase
      of it; or in the same phase and scheduled earlier. */
  lemma BeforeExactly(a: Event, b: Event, i: nat, j: nat)
    requires i < |PHASES| && j < |PHASES| && a.kind in PHASES[i] && b.kind in PHASES[j]
    ensures Before(a, b) <==> a.at < b.at || (a.at == b.at && (i < j || (i == j && a.insertion < b.insertion)))
  {}

  /** No insertion number is used twice. */
  ghost predicate Distinct(s: set<Event>) {
    forall a, b | a in s && b in s && a.insertion == b.insertion :: a == b
  }

  ghost predicate Ascending(l: seq<Event>) {
    forall i, j | 0 <= i < j < |l| :: Before(l[i], l[j])
  }

  ghost predicate IsMin(s: set<Event>, m: Event) {
    m in s && forall e | e in s && e != m :: Before(m, e)
  }

  lemma {:induction false} MinExists(s: set<Event>)
    requires s != {} && Distinct(s)
    ensures exists m :: IsMin(s, m)
  {
    var m :| m in s;
    if s == {m} {
      assert IsMin(s, m);
    } else {
      MinExists(s - {m});
      var n :| IsMin(s - {m}, n);
      assert n.insertion != m.insertion;
      if Before(n, m) {
        assert IsMin(s, n);
      } else {
        assert Before(m, n);
        forall e | e in s && e != m ensures Before(m, e) { assert e == n || Before(n, e); }
        assert IsMin(s, m);
      }
    }
  }

  ghost function MinOf(s: set<Event>): (m: Event)
    requires s != {} && Distinct(s)
    ensures IsMin(s, m)
  {
    MinExists(s);
    var m :| IsMin(s, m);
    m
  }

  lemma MinUnique(s: set<Event>, m: Event)
    requires Distinct(s) && IsMin(s, m)
    ensures MinOf(s) == m
  {}

  /** A set of events from first to last. */
  ghost function InOrder(s: set<Event>): seq<Event>
    requires Distinct(s)
  {
    if s == {} then [] else [MinOf(s)] + InOrder(s - {MinOf(s)})
  }

  ghost function Elements(l: seq<Event>): set<Event> {
    set e | e in l
  }

  lemma {:induction false} InOrderIsOrdered(s: set<Event>)
    requires Distinct(s)
    ensures Ascending(InOrder(s)) && Elements(InOrder(s)) == s && |InOrder(s)| == |s|
  {
    if s != {} {
      var m := MinOf(s);
      var rest := InOrder(s - {m});
      InOrderIsOrdered(s - {m});
      assert InOrder(s) == [m] + rest;
      hide InOrder;
      AscendingCons(m, rest, s - {m});
    }
  }

  lemma AscendingCons(m: Event, rest: seq<Event>, s: set<Event>)
    requires Ascending(rest) && Elements(rest) == s && forall e | e in s :: Before(m, e)
    ensures Ascending([m] + rest) && Elements([m] + rest) == {m} + s
  {
    hide Before;
    var l := [m] + rest;
    forall i, j | 0 <= i < j < |l| ensures Before(l[i], l[j]) {
      assert l[j] == rest[j - 1];
      if i == 0 { assert rest[j - 1] in Elements(rest); } else { assert l[i] == rest[i - 1]; }
    }
  }

  /** An ascending list of the events is that order. */
  lemma {:induction false} AscendingIsOrder(s: set<Event>, l: seq<Event>)
    requires Distinct(s) && Ascending(l) && Elements(l) == s
    ensures InOrder(s) == l
    decreases |l|
  {
    if |l| == 0 {
      assert s == {};
    } else {
      assert l[0] in Elements(l);
      assert IsMin(s, l[0]);
      MinUnique(s, l[0]);
      var rest := l[1..];
      assert l == [l[0]] + rest;
      forall j | 0 <= j < |rest| ensures rest[j] != l[0] { assert Before(l[0], l[j + 1]); }
      assert Elements(rest) == s - {l[0]};
      AscendingIsOrder(s - {l[0]}, rest);
    }
  }

  /** Of two events of one time and phase the one scheduled first comes first. */
  lemma ScheduledFirstComesFirst(s: set<Event>, a: Event, b: Event)
    requires Distinct(s) && a in s && b in s && a.at == b.at && Phase(a.kind) == Phase(b.kind) && a.insertion < b.insertion
    ensures exists i, j | 0 <= i < j < |InOrder(s)| :: InOrder(s)[i] == a && InOrder(s)[j] == b
  {
    InOrderIsOrdered(s);
    var l := InOrder(s);
    hide InOrder;
    assert a in Elements(l) && b in Elements(l);
    var i :| 0 <= i < |l| && l[i] == a;
    var j :| 0 <= j < |l| && l[j] == b;
    assert !Before(b, a) && a != b;
    assert j < i ==> Before(b, a);
  }

  /** The events due at one time. */
  ghost function Due(s: set<Event>, at: u64): set<Event> {
    set e | e in s && e.at == at
  }

  lemma MinIsDue(s: set<Event>, at: u64)
    requires s != {} && Distinct(s) && forall e | e in s :: e.at >= at
    ensures Due(s, at) == {} <==> MinOf(s).at != at
    ensures MinOf(s).at == at ==> MinOf(Due(s, at)) == MinOf(s)
  {
    var m := MinOf(s);
    if m.at == at {
      assert m in Due(s, at);
      MinUnique(Due(s, at), m);
    } else {
      forall e | e in s ensures e.at != at { if e != m { assert Before(m, e); } }
    }
  }

  // ----- slices ---------------------------------------------------------------------------

  /** What is left after the events of the earliest time. */
  ghost function Later(s: set<Event>): set<Event>
    requires s != {} && Distinct(s)
  {
    s - Due(s, MinOf(s).at)
  }

  lemma LaterShrinks(s: set<Event>)
    requires s != {} && Distinct(s)
    ensures Later(s) < s && |Later(s)| < |s|
    ensures forall e | e in Later(s) :: e.at > MinOf(s).at
  {
    var m := MinOf(s);
    assert m in s && m !in Later(s);
    ProperSubsetSmaller(Later(s), s, m);
    forall e | e in Later(s) ensures e.at > m.at { assert Before(m, e); }
  }

  lemma ProperSubsetSmaller(a: set<Event>, b: set<Event>, x: Event)
    requires a <= b && x in b && x !in a
    ensures |a| < |b|
  {
    assert a <= b - {x};
    SubsetSmaller(a, b - {x});
  }

  lemma {:induction false} SubsetSmaller(a: set<Event>, b: set<Event>)
    requires a <= b
    ensures |a| <= |b|
  {
    if a != {} {
      var x :| x in a;
      SubsetSmaller(a - {x}, b - {x});
    }
  }

  /** The slices a queue drains into, starting from this time. */
  ghost function Slices(s: set<Event>, now: u64): seq<Slice>
    requires Distinct(s)
    decreases |s|
  {
    if s == {} then []
    else
      LaterShrinks(s);
      var at := MinOf(s).at;
      [Slice(now, at, InOrder(Due(s, at)))] + Slices(Later(s), at)
  }

  /** All events of the slices, one after the other. */
  function Flattened(slices: seq<Slice>): seq<Event> {
    if |slices| == 0 then [] else slices[0].events + Flattened(slices[1..])
  }

  /** Slices start where the one before ended, their times strictly increase, and none is empty. */
  ghost predicate Tiling(slices: seq<Slice>, now: u64) {
    && (|slices| > 0 ==> slices[0].from == now)
    && (forall i | 0 < i < |slices| :: slices[i].from == slices[i - 1].to < slices[i].to)
    && (forall i | 0 <= i < |slices| :: slices[i].events != [] && forall e | e in slices[i].events :: e.at == slices[i].to)
  }

  lemma AscendingJoin(a: seq<Event>, b: seq<Event>, at: u64)
    requires Ascending(a) && Ascending(b)
    requires (forall e | e in a :: e.at == at) && (forall e | e in b :: e.at > at)
    ensures Ascending(a + b) && Elements(a + b) == Elements(a) + Elements(b)
  {
    var l := a + b;
    forall i, j | 0 <= i < j < |l| ensures Before(l[i], l[j]) {
      if i < |a| <= j { assert l[i] in a && l[j] in b; }
    }
  }

  lemma OrderSplits(s: set<Event>)
    requires s != {} && Distinct(s)
    ensures Distinct(Later(s)) && Distinct(Due(s, MinOf(s).at))
    ensures InOrder(Due(s, MinOf(s).at)) + InOrder(Later(s)) == InOrder(s)
  {
    hide InOrder;
    LaterShrinks(s);
    var at := MinOf(s).at;
    var due, later := Due(s, at), Later(s);
    InOrderIsOrdered(due);
    InOrderIsOrdered(later);
    var a, b := InOrder(due), InOrder(later);
    forall e | e in a ensures e.at == at { assert e in Elements(a); }
    forall e | e in b ensures e.at > at { assert e in Elements(b); }
    AscendingJoin(a, b, at);
    AscendingIsOrder(s, a + b);
  }

  /** Draining dispatches every event exactly once, in order of time, phase and insertion. */
  lemma {:induction false} DrainedInOrder(s: set<Event>, now: u64)
    requires Distinct(s)
    ensures Flattened(Slices(s, now)) == InOrder(s)
    decreases |s|
  {
    hide InOrder;
    if s == {} {
      NothingInOrder(s);
    } else {
      LaterShrinks(s);
      OrderSplits(s);
      DrainedInOrder(Later(s), MinOf(s).at);
      assert Slices(s, now)[1..] == Slices(Later(s), MinOf(s).at);
    }
  }

  lemma NothingInOrder(s: set<Event>)
    requires s == {}
    ensures InOrder(s) == []
  {}

  lemma {:induction false} SlicesTile(s: set<Event>, now: u64)
    requires Distinct(s)
    ensures Tiling(Slices(s, now), now)
    ensures s != {} ==> |Slices(s, now)| > 0 && Slices(s, now)[0].to == MinOf(s).at
    decreases |s|
  {
    hide InOrder;
    if s != {} {
      LaterShrinks(s);
      var at := MinOf(s).at;
      SlicesTile(Later(s), at);
      var rest := Slices(Later(s), at);
      var slices := Slices(s, now);
      assert slices == [Slice(now, at, InOrder(Due(s, at)))] + rest;
      DueSlice(s);
      if Later(s) != {} { assert MinOf(Later(s)) in Later(s); }
      TilingCons(slices[0], rest, at);
    }
  }

  lemma TilingCons(first: Slice, rest: seq<Slice>, at: u64)
    requires Tiling(rest, at) && first.to == at && first.events != [] && (forall e | e in first.events :: e.at == at)
    requires |rest| > 0 ==> at < rest[0].to
    ensures Tiling([first] + rest, first.from)
  {
    var slices := [first] + rest;
    forall i | 0 < i < |slices| ensures slices[i].from == slices[i - 1].to < slices[i].to {
      assert slices[i] == rest[i - 1];
      if i > 1 { assert slices[i - 1] == rest[i - 2]; }
    }
    forall i | 0 <= i < |slices|
      ensures slices[i].events != [] && forall e | e in slices[i].events :: e.at == slices[i].to
    {
      if i > 0 { assert slices[i] == rest[i - 1]; }
    }
  }

  lemma DueSlice(s: set<Event>)
    requires s != {} && Distinct(s)
    ensures var l := InOrder(Due(s, MinOf(s).at)); l != [] && forall e | e in l :: e.at == MinOf(s).at
  {
    var due := Due(s, MinOf(s).at);
    InOrderIsOrdered(due);
    assert MinOf(s) in due;
    forall e | e in InOrder(due) ensures e.at == MinOf(s).at { assert e in Elements(InOrder(due)); }
  }

  // ----- sorting a slice that is already in order ------------------------------------------

  function Insert(e: Event, l: seq<Event>): seq<Event> {
    if |l| == 0 || SameTimeBefore(e, l[0]) then [e] + l else [l[0]] + Insert(e, l[1..])
  }

  /** Stable sort by phase and insertion. */
  function SortByKey(l: seq<Event>): seq<Event> {
    if |l| == 0 then [] else Insert(l[0], SortByKey(l[1..]))
  }

  /** The queue already hands the events of one time out in this order. */
  lemma {:induction false} SortChangesNothing(l: seq<Event>, at: u64)
    requires Ascending(l) && forall i | 0 <= i < |l| :: l[i].at == at
    ensures SortByKey(l) == l
  {
    if |l| > 0 {
      var rest := l[1..];
      assert l == [l[0]] + rest;
      assert forall i | 0 <= i < |rest| :: rest[i] == l[i + 1];
      SortChangesNothing(rest, at);
      if |rest| > 0 { assert Before(l[0], l[1]); }
    }
  }

  // ----- the scheduler --------------------------------------------------------------------------

  class DeterministicScheduler {
    var queue: set<Event>
    var nextInsertion: u64
    var now: u64

    ghost predicate Valid()
      reads this
    {
      Distinct(queue) && forall e | e in queue :: e.at >= now && e.insertion < nextInsertion
    }

    constructor ()
      ensures Valid() && queue == {} && nextInsertion == 0 && now == 0
    {
      queue, nextInsertion, now := {}, 0, 0;
    }

    method Schedule(at: u64, kind: EventKind) returns (r: Result<u64, ScheduleError>)
      requires Valid()
      modifies this
      ensures Valid() && now == old(now)
      ensures r == (if at < now then Err(EventInPast(now, at))
        else if old(nextInsertion) == U64_MAX then Err(SequenceExhausted) else Ok(old(nextInsertion)))
      ensures r.Ok? ==> queue == old(queue) + {Event(at, old(nextInsertion), kind)} && nextInsertion == old(nextInsertion) + 1
      ensures r.Err? ==> queue == old(queue) && nextInsertion == old(nextInsertion)
    {
      if at < now { return Err(EventInPast(now, at)); }
      var insertion := nextInsertion;
      if nextInsertion == U64_MAX { return Err(SequenceExhausted); }
      nextInsertion := nextInsertion + 1;
      queue := queue + {Event(at, insertion, kind)};
      r := Ok(insertion);
    }

    method Pop() returns (e: Event)
      requires Valid() && queue != {}
      modifies this`queue
      ensures Valid() && e == MinOf(old(queue)) && queue == old(queue) - {e}
    {
      ghost var m := MinOf(queue);
      assert m in queue && forall f | f in queue :: f == m || Before(m, f);
      e :| e in queue && forall f | f in queue :: f == e || Before(e, f);
      MinUnique(queue, e);
      queue := queue - {e};
    }

    method NextIsDue(at: u64) returns (due: bool)
      requires Valid()
      ensures due <==> queue != {} && MinOf(queue).at == at
    {
      if queue == {} { return false; }
      ghost var m := MinOf(queue);
      assert m in queue && forall f | f in queue :: f == m || Before(m, f);
      var e :| e in queue && forall f | f in queue :: f == e || Before(e, f);
      MinUnique(queue, e);
      due := e.at == at;
    }

    /** Pops the events still due at this time. */
    method PopDue(at: u64) returns (events: seq<Event>)
      requires Valid() && forall e | e in queue :: e.at >= at
      modifies this`queue
      ensures Valid() && queue == old(queue) - Due(old(queue), at)
      ensures events == InOrder(Due(old(queue), at))
    {
      hide InOrder, Distinct;
      events := [];
      ghost var start := queue;
      PoppingStarts(queue, at);
      while true
        invariant Valid() && Popping(start, queue, at, events)
        decreases |queue|
      {
        var more := NextIsDue(at);
        if !more { break; }
        PoppingNext(start, queue, at, events);
        var e := Pop();
        events := events + [e];
      }
      PoppingEnds(start, queue, at, events);
    }

    method NextSlice() returns (r: Option<Slice>)
      requires Valid()
      modifies this
      ensures Valid() && nextInsertion == old(nextInsertion)
      ensures old(queue) == {} ==> r.None? && queue == {} && now == old(now)
      ensures old(queue) != {} ==> r == Some(Slices(old(queue), old(now))[0]) && queue == Later(old(queue)) && now == MinOf(old(queue)).at
    {
      hide InOrder, SortByKey;
      if queue == {} { return None; }
      ghost var start := queue;
      EarliestTime(start);
      var first := Pop();
      var at := first.at;
      var from := now;
      NextInOrder(start, at);
      assert Due(queue, at) == Due(start, at) - {first};
      var more := PopDue(at);
      var events := [first] + more;
      SortedDue(start, at, events);
      events := SortByKey(events);
      now := at;
      LaterShrinks(start);
      assert queue == Later(start);
      r := Some(Slice(from, at, events));
    }
  }

  /** Part of the due events are popped, in order, and nothing else has gone. */
  ghost predicate Popping(start: set<Event>, q: set<Event>, at: u64, events: seq<Event>) {
    && Distinct(start) && Distinct(q) && (forall e | e in q :: e.at >= at)
    && q - Due(q, at) == start - Due(start, at) && events + InOrder(Due(q, at)) == InOrder(Due(start, at))
  }

  lemma PoppingStarts(q: set<Event>, at: u64)
    requires Distinct(q) && forall e | e in q :: e.at >= at
    ensures Popping(q, q, at, [])
  {
    hide InOrder;
  }

  lemma PoppingNext(start: set<Event>, q: set<Event>, at: u64, events: seq<Event>)
    requires Popping(start, q, at, events) && q != {} && MinOf(q).at == at
    ensures Popping(start, q - {MinOf(q)}, at, events + [MinOf(q)])
  {
    NextInOrder(q, at);
    hide InOrder;
    var m := MinOf(q);
    assert Due(q - {m}, at) == Due(q, at) - {m};
    assert events + [m] + InOrder(Due(q - {m}, at)) == events + InOrder(Due(q, at));
  }

  lemma PoppingEnds(start: set<Event>, q: set<Event>, at: u64, events: seq<Event>)
    requires Popping(start, q, at, events) && (q == {} || MinOf(q).at != at)
    ensures q == start - Due(start, at) && events == InOrder(Due(start, at))
  {
    if q != {} { MinIsDue(q, at); }
    assert Due(q, at) == {};
    assert InOrder(Due(q, at)) == [];
    hide InOrder;
    assert events + [] == events;
  }

  lemma SortedDue(s: set<Event>, at: u64, events: seq<Event>)
    requires Distinct(s) && events == InOrder(Due(s, at))
    ensures SortByKey(events) == events
  {
    InOrderIsOrdered(Due(s, at));
    hide InOrder, SortByKey;
    forall i | 0 <= i < |events| ensures events[i].at == at { assert events[i] in Elements(events); }
    SortChangesNothing(events, at);
  }

  lemma EarliestTime(s: set<Event>)
    requires s != {} && Distinct(s)
    ensures forall e | e in s :: e.at >= MinOf(s).at
  {
    var m := MinOf(s);
    forall e | e in s ensures e.at >= m.at { if e != m { assert Before(m, e); } }
  }

  /** The events due now start with the least of the queue. */
  lemma NextInOrder(s: set<Event>, at: u64)
    requires s != {} && Distinct(s) && MinOf(s).at == at && forall e | e in s :: e.at >= at
    ensures InOrder(Due(s, at)) == [MinOf(s)] + InOrder(Due(s, at) - {MinOf(s)})
  {
    MinIsDue(s, at);
  }
}
