/** The timeline of a scenario: which slices the loop plays, and the theorem about
    every run of it. */
module RunTimeline {
  import opened Wrappers
  import opened MachineInts
  import opened Scheduler
  import opened SitlRun
  import opened RunLoop

  function KindsOf(l: seq<Event>): (k: seq<EventKind>)
    ensures |k| == |l|
  {
    seq(|l|, i requires 0 <= i < |l| => l[i].kind)
  }

  lemma {:induction false} KindsAscend(sc: Scenario, t: u64)
    requires ValidScenario(sc)
    ensures forall i, j | 0 <= i < j < |Kinds(sc, t)| :: Phase(Kinds(sc, t)[i]) < Phase(Kinds(sc, t)[j])
  {}

  /** Within a schedule that fits, every planned event has its number. */
  lemma {:induction false} InsertionInRange(sc: Scenario, t: u64, kind: EventKind)
    requires ValidScenario(sc) && ScheduleFits(sc) && t <= sc.duration && kind in Kinds(sc, t)
    ensures 0 <= InsertionOf(sc, t, kind) <= U64_MAX
  {
    hide Kinds, CountBelow, SensorsFit, RuntimesFit, SensorSampleCount;
    KindsAre(sc, t, kind);
    if kind.SensorSample? || kind.ObservationDelivery? {
      SensorNumbers(sc, t);
    } else if !kind.ScenarioStart? {
      RuntimeNumbers(sc, t);
    }
  }

  lemma SensorNumbers(sc: Scenario, t: u64)
    requires sc.sensorPeriod > 0 && SensorsFit(sc) && t <= sc.duration
    ensures 2 + 2 * (t / sc.sensorPeriod) <= U64_MAX
  {
    GridStart(t, sc.sensorPeriod);
    WithinCount(sc.duration, sc.sensorPeriod, t / sc.sensorPeriod);
  }

  lemma {:induction false} RuntimeNumbers(sc: Scenario, t: u64)
    requires ValidScenario(sc) && RuntimesFit(sc) && t <= sc.duration && t % sc.runtimePeriod == 0
    ensures var base := 1 + 2 * SensorSampleCount(sc) + 2 * (t / sc.runtimePeriod) - CountBelow(sc.missed, t);
      0 <= base && (if t in sc.missed then base <= U64_MAX else base + 1 <= U64_MAX)
  {
    hide CountBelow;
    var j := t / sc.runtimePeriod;
    assert t == j * sc.runtimePeriod;
    WithinCount(sc.duration, sc.runtimePeriod, j);
    CountBelowGrid(sc, j);
    NextMultiple(j, sc.runtimePeriod);
    CountBelowStep(sc.missed, t, sc.runtimePeriod);
    NumbersGrow(sc, j + 1);
  }

  /** The planned events of a time, listed in the order of its kinds. */
  ghost function EventsAt(sc: Scenario, t: u64): (l: seq<Event>)
    requires ValidScenario(sc) && ScheduleFits(sc) && t <= sc.duration
  {
    seq(|Kinds(sc, t)|, i requires 0 <= i < |Kinds(sc, t)| =>
      InsertionInRange(sc, t, Kinds(sc, t)[i]);
      Event(t, InsertionOf(sc, t, Kinds(sc, t)[i]), Kinds(sc, t)[i]))
  }

  /** The part of the plan from this time on. */
  ghost predicate RestOf(sc: Scenario, q: set<Event>, limit: nat)
    requires ValidScenario(sc)
  {
    Distinct(q) && forall e :: e in q <==> Planned(sc, e) && e.at >= limit
  }

  lemma {:induction false} DueKinds(sc: Scenario, q: set<Event>, limit: nat, t: u64)
    requires ValidScenario(sc) && ScheduleFits(sc) && RestOf(sc, q, limit) && limit <= t <= sc.duration
    ensures Distinct(Due(q, t)) && InOrder(Due(q, t)) == EventsAt(sc, t)
  {
    var l := EventsAt(sc, t);
    hide InsertionOf, Kinds, ScheduleFits;
    KindsAscend(sc, t);
    forall i, j | 0 <= i < j < |l| ensures Before(l[i], l[j]) {
      assert Phase(l[i].kind) < Phase(l[j].kind);
    }
    forall e ensures e in Due(q, t) <==> e in l {
      if e in Due(q, t) {
        var i :| 0 <= i < |Kinds(sc, t)| && Kinds(sc, t)[i] == e.kind;
        assert l[i] == e;
      }
    }
    assert Elements(l) == Due(q, t);
    AscendingIsOrder(Due(q, t), l);
  }

  // ----- where the loop stands ------------------------------------------------------------

  /** The earlier of the next sensor time and the next opportunity. */
  function NextTime(sc: Scenario, k: nat, j: nat): nat {
    if k * sc.sensorPeriod < j * sc.runtimePeriod then k * sc.sensorPeriod else j * sc.runtimePeriod
  }

  /** k sensor times and j opportunities, no more, lie before the next time. */
  ghost predicate Standing(sc: Scenario, k: nat, j: nat) {
    && (k > 0 ==> (k - 1) * sc.sensorPeriod < NextTime(sc, k, j))
    && (j > 0 ==> (j - 1) * sc.runtimePeriod < NextTime(sc, k, j))
  }

  function NextSamples(sc: Scenario, k: nat, j: nat): nat {
    if NextTime(sc, k, j) == k * sc.sensorPeriod then k + 1 else k
  }

  function NextOpportunities(sc: Scenario, k: nat, j: nat): nat {
    if NextTime(sc, k, j) == j * sc.runtimePeriod then j + 1 else j
  }

  lemma {:induction false} StandingNext(sc: Scenario, k: nat, j: nat)
    requires ValidScenario(sc) && Standing(sc, k, j)
    ensures var k', j' := NextSamples(sc, k, j), NextOpportunities(sc, k, j);
      Standing(sc, k', j') && NextTime(sc, k, j) < NextTime(sc, k', j')
  {
    NextMultiple(k, sc.sensorPeriod);
    NextMultiple(j, sc.runtimePeriod);
  }

  /** A grid point from the next time on is at or past the grid's own next point. */
  lemma {:induction false} GridAhead(x: int, p: int, k: nat, limit: int)
    requires p > 0 && x % p == 0 && x >= limit && x >= 0 && (k > 0 ==> (k - 1) * p < limit)
    ensures x >= k * p
  {
    var a := x / p;
    assert x == a * p;
    if a < k { ProductStep(a, k - 1, p); } else { ProductStep(k, a, p); }
  }

  lemma {:induction false} OnTime(sc: Scenario, k: nat, j: nat)
    requires ValidScenario(sc) && Standing(sc, k, j)
    ensures var t := NextTime(sc, k, j);
      && (t % sc.sensorPeriod == 0 <==> t == k * sc.sensorPeriod)
      && (t % sc.runtimePeriod == 0 <==> t == j * sc.runtimePeriod)
      && (t == 0 <==> k == 0 || j == 0)
      && (t % sc.sensorPeriod == 0 || t % sc.runtimePeriod == 0)
  {
    var t := NextTime(sc, k, j);
    MultipleOf(k, sc.sensorPeriod);
    MultipleOf(j, sc.runtimePeriod);
    if t % sc.sensorPeriod == 0 { GridAhead(t, sc.sensorPeriod, k, t); }
    if t % sc.runtimePeriod == 0 { GridAhead(t, sc.runtimePeriod, j, t); }
    if k > 0 { ProductStep(1, k, sc.sensorPeriod); }
    if j > 0 { ProductStep(1, j, sc.runtimePeriod); }
  }

  /** The next slice of the plan is the next time's, and leaves the rest of the plan. */
  lemma {:induction false} NextSliceIs(sc: Scenario, q: set<Event>, k: nat, j: nat)
    requires ValidScenario(sc) && ScheduleFits(sc) && Standing(sc, k, j) && RestOf(sc, q, NextTime(sc, k, j))
    ensures q == {} <==> NextTime(sc, k, j) > sc.duration
    ensures q != {} ==>
      && MinOf(q).at == NextTime(sc, k, j) && Distinct(Due(q, MinOf(q).at))
      && InOrder(Due(q, MinOf(q).at)) == EventsAt(sc, MinOf(q).at)
      && RestOf(sc, Later(q), NextTime(sc, NextSamples(sc, k, j), NextOpportunities(sc, k, j)))
  {
    hide InsertionOf, InOrder, EventsAt;
    var t := NextTime(sc, k, j);
    var k', j' := NextSamples(sc, k, j), NextOpportunities(sc, k, j);
    OnTime(sc, k, j);
    StandingNext(sc, k, j);
    if t <= sc.duration {
      DueKinds(sc, q, t, t);
      DueNotEmpty(sc, q, t);
      assert exists e :: e in q && e.at == t;
      EarliestTime(q);
      assert MinOf(q) in q;
      LaterIsRest(sc, q, t, k', j');
    }
  }

  lemma {:induction false} LaterIsRest(sc: Scenario, q: set<Event>, t: nat, k: nat, j: nat)
    requires ValidScenario(sc) && RestOf(sc, q, t) && q != {} && MinOf(q).at == t && t < NextTime(sc, k, j)
    requires (k > 0 ==> (k - 1) * sc.sensorPeriod <= t) && (j > 0 ==> (j - 1) * sc.runtimePeriod <= t)
    ensures RestOf(sc, Later(q), NextTime(sc, k, j))
  {
    hide Planned;
    LaterShrinks(q);
    forall e ensures e in Later(q) <==> Planned(sc, e) && e.at >= NextTime(sc, k, j) {
      if e in q && e.at > t { BetweenTimes(sc, k, j, e, t); }
    }
  }

  lemma {:induction false} DueNotEmpty(sc: Scenario, q: set<Event>, t: u64)
    requires ValidScenario(sc) && ScheduleFits(sc) && t <= sc.duration && Distinct(Due(q, t))
    requires t % sc.sensorPeriod == 0 || t % sc.runtimePeriod == 0
    requires InOrder(Due(q, t)) == EventsAt(sc, t)
    ensures exists e :: e in q && e.at == t
  {
    InOrderIsOrdered(Due(q, t));
    assert |Kinds(sc, t)| > 0;
    var e := EventsAt(sc, t)[0];
    assert e in Elements(InOrder(Due(q, t)));
  }

  /** A planned event after this slice is at or past the next one. */
  lemma {:induction false} BetweenTimes(sc: Scenario, k: nat, j: nat, e: Event, t: nat)
    requires ValidScenario(sc) && Planned(sc, e) && e.at > t
    requires (k > 0 ==> (k - 1) * sc.sensorPeriod <= t) && (j > 0 ==> (j - 1) * sc.runtimePeriod <= t)
    ensures e.at >= NextTime(sc, k, j)
  {
    hide InsertionOf;
    KindsAre(sc, e.at, e.kind);
    if e.at % sc.sensorPeriod == 0 { GridAhead(e.at, sc.sensorPeriod, k, e.at); }
    if e.at % sc.runtimePeriod == 0 { GridAhead(e.at, sc.runtimePeriod, j, e.at); }
  }

  lemma {:induction false} PlanIsRest(sc: Scenario, plan: set<Event>)
    requires ValidScenario(sc) && IsPlan(sc, plan)
    ensures RestOf(sc, plan, NextTime(sc, 0, 0)) && Standing(sc, 0, 0) && NextTime(sc, 0, 0) == 0
  {
    hide InsertionOf, Kinds;
  }

  /** Every slice of the rest of a plan holds what happens at its time. */
  lemma {:induction false} SlicesHoldKinds(sc: Scenario, q: set<Event>, k: nat, j: nat, now: u64)
    requires ValidScenario(sc) && ScheduleFits(sc) && Standing(sc, k, j) && RestOf(sc, q, NextTime(sc, k, j))
    ensures forall i | 0 <= i < |Slices(q, now)| ::
      Slices(q, now)[i].to <= sc.duration && KindsOf(Slices(q, now)[i].events) == Kinds(sc, Slices(q, now)[i].to)
    decreases |q|
  {
    hide InOrder, Kinds, EventsAt, ScheduleFits, Standing, RestOf, KindsOf, NextTime, NextSamples, NextOpportunities;
    NextSliceIs(sc, q, k, j);
    if q != {} {
      RestIsDistinct(sc, q, NextTime(sc, k, j));
      LaterShrinks(q);
      StandingNext(sc, k, j);
      var t := MinOf(q).at;
      SlicesHoldKinds(sc, Later(q), NextSamples(sc, k, j), NextOpportunities(sc, k, j), t);
      var slices, rest := Slices(q, now), Slices(Later(q), t);
      assert slices == [Slice(now, t, InOrder(Due(q, t)))] + rest;
      ListedKinds(sc, t);
      forall i | 0 <= i < |slices| ensures slices[i].to <= sc.duration && KindsOf(slices[i].events) == Kinds(sc, slices[i].to) {
        if i > 0 { assert slices[i] == rest[i - 1]; }
      }
    }
  }

  lemma {:induction false} RestIsDistinct(sc: Scenario, q: set<Event>, limit: nat)
    requires ValidScenario(sc) && RestOf(sc, q, limit)
    ensures Distinct(q)
  {}

  /** There is a slice at this time. */
  ghost predicate HasSlice(slices: seq<Slice>, t: u64) {
    exists i :: 0 <= i < |slices| && slices[i].to == t
  }

  /** Every time at which something happens has its slice. */
  lemma {:induction false} TimesHaveSlices(sc: Scenario, q: set<Event>, k: nat, j: nat, now: u64, u: u64)
    requires ValidScenario(sc) && ScheduleFits(sc) && Standing(sc, k, j) && RestOf(sc, q, NextTime(sc, k, j))
    requires NextTime(sc, k, j) <= u <= sc.duration && Kinds(sc, u) != []
    ensures HasSlice(Slices(q, now), u)
    decreases |q|
  {
    hide InOrder, Kinds, EventsAt, ScheduleFits, Standing, RestOf, KindsOf, NextSamples, NextOpportunities;
    NextSliceIs(sc, q, k, j);
    RestIsDistinct(sc, q, NextTime(sc, k, j));
    LaterShrinks(q);
    StandingNext(sc, k, j);
    var t := MinOf(q).at;
    var slices, rest := Slices(q, now), Slices(Later(q), t);
    assert slices == [Slice(now, t, InOrder(Due(q, t)))] + rest;
    if u == t {
      assert slices[0].to == u;
    } else {
      var k', j' := NextSamples(sc, k, j), NextOpportunities(sc, k, j);
      StandingMeans(sc, k', j', k, j);
      NothingBetween(sc, k', j', u, t);
      TimesHaveSlices(sc, Later(q), k', j', t, u);
      var i :| 0 <= i < |rest| && rest[i].to == u;
      assert slices[i + 1] == rest[i];
    }
  }

  lemma {:induction false} StandingMeans(sc: Scenario, k': nat, j': nat, k: nat, j: nat)
    requires Standing(sc, k, j) && k' == NextSamples(sc, k, j) && j' == NextOpportunities(sc, k, j)
    ensures k' > 0 ==> (k' - 1) * sc.sensorPeriod <= NextTime(sc, k, j)
    ensures j' > 0 ==> (j' - 1) * sc.runtimePeriod <= NextTime(sc, k, j)
  {}

  lemma {:induction false} ListedKinds(sc: Scenario, t: u64)
    requires ValidScenario(sc) && ScheduleFits(sc) && t <= sc.duration
    ensures KindsOf(EventsAt(sc, t)) == Kinds(sc, t)
  {
    hide InsertionOf, Kinds;
  }

  lemma {:induction false} NothingBetween(sc: Scenario, k: nat, j: nat, u: u64, t: nat)
    requires ValidScenario(sc) && u > t && Kinds(sc, u) != []
    requires (k > 0 ==> (k - 1) * sc.sensorPeriod <= t) && (j > 0 ==> (j - 1) * sc.runtimePeriod <= t)
    ensures u >= NextTime(sc, k, j)
  {
    if u % sc.sensorPeriod == 0 { GridAhead(u, sc.sensorPeriod, k, u); }
    if u % sc.runtimePeriod == 0 { GridAhead(u, sc.runtimePeriod, j, u); }
  }

  // ----- the run ------------------------------------------------------------------------------

  /** The whole loop, from validation to verdict. */
  method RunScenario<S, X>(sc: Scenario, exec: Execution<S, X>, start: S)
    returns (r: Result<(S, Summary), RunError<X>>, ghost plan: set<Event>)
    ensures !ValidScenario(sc) ==> r.Err? && r.error.ScenarioProblem? && FirstProblem(sc, r.error.scenario)
    ensures ValidScenario(sc) && !ScheduleFits(sc) ==>
      var numbered := SensorNumbersFit(sc) && (SensorsFit(sc) ==> RuntimeNumbersFit(sc));
      r == Err(if numbered then VirtualTimeOverflow else ScheduleProblem(SequenceExhausted))
    ensures ValidScenario(sc) && ScheduleFits(sc) ==> IsPlan(sc, plan) && RunIs(sc, exec, start, plan, r)
  {
    plan := {};
    var valid := Validate(sc);
    if valid.Err? { return Err(ScenarioProblem(valid.error)), plan; }
    var scheduler := new DeterministicScheduler();
    hide SensorsQueued, RuntimesQueued, SensorsFit, RuntimesFit, IsPlan, Planned, RunIs;
    var begun := scheduler.Schedule(0, ScenarioStart);
    StartQueued(sc);
    assert scheduler.queue == {START};
    var sensors := ScheduleSensors<X>(scheduler, sc);
    if sensors.Err? { return Err(sensors.error), plan; }
    SensorsThenRuntimes(sc, scheduler.queue, scheduler.nextInsertion);
    var runtimes := ScheduleRuntimes<X>(scheduler, sc);
    if runtimes.Err? { return Err(runtimes.error), plan; }
    plan := scheduler.queue;
    FilledIsPlan(sc, plan, scheduler.nextInsertion);
    QueueSize(sc, plan, scheduler.nextInsertion, RuntimeOpportunityCount(sc));
    var played := PlayQueue(exec, start, scheduler);
    if played.Err? {
      RunFails(sc, exec, start, plan, played.error);
      return Err(played.error), plan;
    }
    var (final, tally, timeSlices, advances) := played.value;
    var opportunities := tally.admitted + tally.missed;
    var pass := tally.samples == SensorSampleCount(sc) && tally.delivered == tally.samples
      && opportunities == RuntimeOpportunityCount(sc) && tally.commits == tally.admitted
      && advances == (if timeSlices == 0 then 0 else timeSlices - 1);
    RunPasses(sc, exec, start, plan, final, tally, timeSlices, advances);
    r := Ok((final, Summary(pass, timeSlices, advances, tally, opportunities)));
  }

  lemma {:induction false} QueueSize(sc: Scenario, q: set<Event>, next: u64, j: nat)
    requires ValidScenario(sc) && RuntimesQueued(sc, q, next, j)
    ensures |q| == next
  {
    hide CountKind, CountBelow;
  }

  /** What the loop returns: the execution's first error, or its final state with a
      passing summary whose counts are those of the scenario. */
  ghost predicate RunIs<S, X>(sc: Scenario, exec: Execution<S, X>, start: S, plan: set<Event>, r: Result<(S, Summary), RunError<X>>)
    requires ValidScenario(sc) && IsPlan(sc, plan)
  {
    match Play(exec, start, Slices(plan, 0))
    case Err(e) => r == Err(e)
    case Ok(final) =>
      && r.Ok? && r.value.0 == final
      && var s := r.value.1;
         && s.pass && s.timeSlices == |Slices(plan, 0)| && s.advances == s.timeSlices - 1
         && s.tally.samples == s.tally.delivered == SensorSampleCount(sc)
         && s.opportunities == RuntimeOpportunityCount(sc) && s.tally.missed == |sc.missed|
         && s.tally.admitted == s.tally.commits == s.opportunities - s.tally.missed
  }

  lemma {:induction false} RunFails<S, X>(sc: Scenario, exec: Execution<S, X>, start: S, plan: set<Event>, e: RunError<X>)
    requires ValidScenario(sc) && IsPlan(sc, plan) && Play(exec, start, Slices(plan, 0)) == Err(e)
    ensures RunIs(sc, exec, start, plan, Err(e))
  {}

  lemma {:induction false} TallyOfPlan(sc: Scenario, plan: set<Event>)
    requires ValidScenario(sc) && IsPlan(sc, plan) && Counted(sc, plan)
    ensures TallyOf(InOrder(plan)) == Tally(SensorSampleCount(sc), SensorSampleCount(sc), CountKind(plan, ProductionRuntime), |sc.missed|, CountKind(plan, ActuationCommit))
    ensures CountKind(plan, ProductionRuntime) == CountKind(plan, ActuationCommit) == RuntimeOpportunityCount(sc) - |sc.missed|
    ensures Starts0(plan)
  {
    hide InOrder, CountIn, CountKind, InsertionOf;
    forall kind { CountInOrder(plan, kind); }
    StartNumber(sc);
    KindsAre(sc, 0, ScenarioStart);
    assert Planned(sc, START);
    assert START in plan;
  }

  lemma {:induction false} RunPasses<S, X>(sc: Scenario, exec: Execution<S, X>, start: S, plan: set<Event>,
                                           final: S, tally: Tally, timeSlices: nat, advances: nat)
    requires ValidScenario(sc) && IsPlan(sc, plan) && Counted(sc, plan) && Play(exec, start, Slices(plan, 0)) == Ok(final)
    requires tally == TallyOf(InOrder(plan)) && timeSlices == |Slices(plan, 0)|
    requires Starts0(plan) && timeSlices > 0 ==> advances == timeSlices - 1
    ensures var pass := tally.samples == SensorSampleCount(sc) && tally.delivered == tally.samples
        && tally.admitted + tally.missed == RuntimeOpportunityCount(sc) && tally.commits == tally.admitted
        && advances == (if timeSlices == 0 then 0 else timeSlices - 1);
      RunIs(sc, exec, start, plan, Ok((final, Summary(pass, timeSlices, advances, tally, tally.admitted + tally.missed))))
  {
    hide InOrder, CountIn, CountKind, Play, Planned, TallyOf, Slices, IsPlan, Counted;
    TallyOfPlan(sc, plan);
    SomeSlice(sc, plan);
  }

  lemma {:induction false} SomeSlice(sc: Scenario, plan: set<Event>)
    requires ValidScenario(sc) && IsPlan(sc, plan) && Starts0(plan)
    ensures |Slices(plan, 0)| > 0
  {
    assert Distinct(plan);
    hide InOrder, CountIn, Planned, Slices, Tiling, Distinct;
    assert plan != {};
    SlicesTile(plan, 0);
  }

  /** For every valid scenario that fits, the slices played start at zero, tile physical time with
      no gap or overlap, carry exactly what happens at each time, and dispatch every planned event
      exactly once in order of time, phase and insertion. */
  lemma {:induction false} EveryRun(sc: Scenario, plan: set<Event>)
    requires ValidScenario(sc) && ScheduleFits(sc) && IsPlan(sc, plan)
    ensures var slices := Slices(plan, 0);
      && Tiling(slices, 0) && |slices| > 0 && slices[0].to == 0
      && Flattened(slices) == InOrder(plan) && Ascending(InOrder(plan)) && |InOrder(plan)| == |plan|
      && (forall e :: e in InOrder(plan) <==> Planned(sc, e))
      && (forall i | 0 <= i < |slices| :: slices[i].to <= sc.duration && KindsOf(slices[i].events) == Kinds(sc, slices[i].to))
      && (forall t: u64 | t <= sc.duration && Kinds(sc, t) != [] :: HasSlice(slices, t))
  {
    hide InsertionOf, InOrder, Kinds, ScheduleFits;
    PlanIsRest(sc, plan);
    SlicesTile(plan, 0);
    DrainedInOrder(plan, 0);
    InOrderIsOrdered(plan);
    SlicesHoldKinds(sc, plan, 0, 0, 0);
    forall t: u64 | t <= sc.duration && Kinds(sc, t) != [] { TimesHaveSlices(sc, plan, 0, 0, 0, t); }
    NextSliceIs(sc, plan, 0, 0);
    forall e ensures e in InOrder(plan) <==> Planned(sc, e) {
      assert e in InOrder(plan) <==> e in Elements(InOrder(plan));
    }
  }
}
