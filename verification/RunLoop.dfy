/** Scheduling a scenario and playing it: what the loop dispatches, and its verdict. */
module RunLoop {
  import opened Wrappers
  import opened MachineInts
  import opened Scheduler
  import opened SitlRun

  datatype RunError<X> =
    | ScenarioProblem(scenario: ScenarioError) | ScheduleProblem(schedule: ScheduleError)
    | PhysicalAdvance(advance: X) | EventDispatch(dispatch: X) | VirtualTimeOverflow

  /** The system under the scheduler: physical time, and what an event does to it. */
  datatype Execution<!S, !X> = Execution(advance: (S, u64, u64) -> Result<S, X>, dispatch: (S, Event) -> Result<S, X>)

  // ----- filling the queue ------------------------------------------------------------------

  const START: Event := Event(0, 0, ScenarioStart)

  predicate SensorPart(sc: Scenario, e: Event, limit: nat)
    requires sc.sensorPeriod > 0 && sc.runtimePeriod > 0
  {
    && (e.kind.SensorSample? || e.kind.ObservationDelivery?)
    && e.at % sc.sensorPeriod == 0 && e.at < limit && e.insertion == InsertionOf(sc, e.at, e.kind)
  }

  predicate RuntimePart(sc: Scenario, e: Event, limit: nat)
    requires sc.sensorPeriod > 0 && sc.runtimePeriod > 0
  {
    && e.at % sc.runtimePeriod == 0 && e.at < limit && e.insertion == InsertionOf(sc, e.at, e.kind)
    && (if e.at in sc.missed then e.kind.RuntimeOpportunityMissed? else e.kind.ProductionRuntime? || e.kind.ActuationCommit?)
  }

  /** The queue after the first k sensor times. */
  ghost predicate SensorsQueued(sc: Scenario, q: set<Event>, next: nat, k: nat)
    requires ValidScenario(sc)
  {
    && next == 1 + 2 * k && |q| == next
    && (forall e :: e in q <==> e == START || SensorPart(sc, e, k * sc.sensorPeriod))
    && CountKind(q, SensorSample) == k && CountKind(q, ObservationDelivery) == k
    && CountKind(q, RuntimeOpportunityMissed) == CountKind(q, ProductionRuntime) == CountKind(q, ActuationCommit) == 0
  }

  lemma {:induction false} StartQueued(sc: Scenario)
    requires ValidScenario(sc)
    ensures SensorsQueued(sc, {START}, 1, 0)
  {
    forall kind: EventKind | !kind.ScenarioStart? ensures CountKind({START}, kind) == 0 {
      assert (set e | e in {START} && e.kind == kind) == {};
    }
  }

  lemma {:induction false} CountAddTwo(q: set<Event>, a: Event, b: Event, kind: EventKind)
    requires a !in q && b !in q && a != b
    ensures |q + {a} + {b}| == |q| + 2
    ensures CountKind(q + {a} + {b}, kind)
         == CountKind(q, kind) + (if a.kind == kind then 1 else 0) + (if b.kind == kind then 1 else 0)
  {
    CountAdd(q, a, kind);
    CountAdd(q + {a}, b, kind);
  }

  lemma {:induction false} SensorsStep(sc: Scenario, q: set<Event>, k: nat, a: Event, b: Event)
    requires ValidScenario(sc) && SensorsQueued(sc, q, 1 + 2 * k, k)
    requires a.at == b.at == k * sc.sensorPeriod && a.kind == SensorSample && b.kind == ObservationDelivery
    requires a.insertion == 1 + 2 * k && b.insertion == 2 + 2 * k
    ensures SensorsQueued(sc, q + {a} + {b}, 3 + 2 * k, k + 1)
  {
    var p, at := sc.sensorPeriod, a.at;
    MultipleOf(k, p);
    NextMultiple(k, p);
    hide CountKind;
    forall kind { CountAddTwo(q, a, b, kind); }
    forall e ensures e in q + {a} + {b} <==> e == START || SensorPart(sc, e, (k + 1) * p) {
      if e.at % p == 0 {
        OneGridStep(e.at, at, p);
      }
    }
  }

  /** The queue after all sensor times and the first j runtime opportunities. */
  ghost predicate RuntimesQueued(sc: Scenario, q: set<Event>, next: nat, j: nat)
    requires ValidScenario(sc)
  {
    var samples, missed := SensorSampleCount(sc), CountBelow(sc.missed, j * sc.runtimePeriod);
    && next == 1 + 2 * samples + 2 * j - missed && |q| == next && missed <= j
    && (forall e :: e in q <==>
          e == START || SensorPart(sc, e, samples * sc.sensorPeriod) || RuntimePart(sc, e, j * sc.runtimePeriod))
    && CountKind(q, SensorSample) == samples && CountKind(q, ObservationDelivery) == samples
    && CountKind(q, RuntimeOpportunityMissed) == missed
    && CountKind(q, ProductionRuntime) == j - missed && CountKind(q, ActuationCommit) == j - missed
  }

  lemma {:induction false} SensorsThenRuntimes(sc: Scenario, q: set<Event>, next: nat)
    requires ValidScenario(sc) && SensorsQueued(sc, q, next, SensorSampleCount(sc))
    ensures RuntimesQueued(sc, q, next, 0)
  {
    hide CountKind;
    CountBelowAtMost(sc.missed, 0);
    assert forall e :: !RuntimePart(sc, e, 0 * sc.runtimePeriod);
  }

  /** The next opportunity's runtime events: those already planned, and those of its own time. */
  lemma {:induction false} RuntimePartNext(sc: Scenario, e: Event, j: nat, at: u64)
    requires ValidScenario(sc) && at == j * sc.runtimePeriod
    ensures RuntimePart(sc, e, (j + 1) * sc.runtimePeriod) <==>
      (RuntimePart(sc, e, j * sc.runtimePeriod)
       || (e.at == at && e.insertion == InsertionOf(sc, at, e.kind)
           && (if at in sc.missed then e.kind.RuntimeOpportunityMissed? else e.kind.ProductionRuntime? || e.kind.ActuationCommit?)))
  {
    MultipleOf(j, sc.runtimePeriod);
    NextMultiple(j, sc.runtimePeriod);
    hide InsertionOf;
    if e.at % sc.runtimePeriod == 0 { OneGridStep(e.at, at, sc.runtimePeriod); }
  }

  /** A runtime event of the next opportunity is not in the queue yet; its number follows from the count so far. */
  lemma {:induction false} NewOpportunity(sc: Scenario, e: Event, j: nat)
    requires ValidScenario(sc) && e.at == j * sc.runtimePeriod
    requires e.kind.RuntimeOpportunityMissed? || e.kind.ProductionRuntime? || e.kind.ActuationCommit?
    ensures e != START && !SensorPart(sc, e, SensorSampleCount(sc) * sc.sensorPeriod) && !RuntimePart(sc, e, j * sc.runtimePeriod)
    ensures InsertionOf(sc, e.at, e.kind) == 1 + 2 * SensorSampleCount(sc) + 2 * j - CountBelow(sc.missed, j * sc.runtimePeriod)
      + if e.kind.ActuationCommit? then 1 else 0
  {
    MultipleOf(j, sc.runtimePeriod);
    hide CountBelow;
  }

  lemma {:induction false} MissedAtNext(sc: Scenario, at: u64, j: nat)
    requires ValidScenario(sc) && at == j * sc.runtimePeriod
    ensures CountBelow(sc.missed, (j + 1) * sc.runtimePeriod) == CountBelow(sc.missed, j * sc.runtimePeriod) + if at in sc.missed then 1 else 0
  {
    MultipleOf(j, sc.runtimePeriod);
    NextMultiple(j, sc.runtimePeriod);
    CountBelowStep(sc.missed, at, sc.runtimePeriod);
  }

  lemma {:induction false} MissedStep(sc: Scenario, q: set<Event>, next: nat, j: nat, a: Event)
    requires ValidScenario(sc) && RuntimesQueued(sc, q, next, j)
    requires a.at == j * sc.runtimePeriod && a.at in sc.missed && a.kind == RuntimeOpportunityMissed && a.insertion == next
    ensures RuntimesQueued(sc, q + {a}, next + 1, j + 1)
  {
    NewOpportunity(sc, a, j);
    MissedAtNext(sc, a.at, j);
    hide CountKind, CountBelow, RuntimePart, SensorPart, InsertionOf;
    forall kind { CountAdd(q, a, kind); }
    forall e { RuntimePartNext(sc, e, j, a.at); }
  }

  lemma {:induction false} AdmittedStep(sc: Scenario, q: set<Event>, next: nat, j: nat, a: Event, b: Event)
    requires ValidScenario(sc) && RuntimesQueued(sc, q, next, j)
    requires a.at == b.at == j * sc.runtimePeriod && a.at !in sc.missed && a.kind == ProductionRuntime && b.kind == ActuationCommit
    requires a.insertion == next && b.insertion == next + 1
    ensures RuntimesQueued(sc, q + {a} + {b}, next + 2, j + 1)
  {
    NewOpportunity(sc, a, j);
    NewOpportunity(sc, b, j);
    MissedAtNext(sc, a.at, j);
    hide CountKind, CountBelow, RuntimePart, SensorPart, InsertionOf;
    forall kind { CountAddTwo(q, a, b, kind); }
    forall e { RuntimePartNext(sc, e, j, a.at); }
  }

  /** k full periods reach exactly the last time within the duration. */
  lemma {:induction false} LastPeriod(duration: int, p: int, k: int)
    requires p > 0 && k * p <= duration < (k + 1) * p
    ensures duration / p + 1 == k + 1 && p * (duration / p + 1) == k * p + p
  {
    DivIs(duration, p, k);
    NextMultiple(k, p);
  }

  /** There are insertion numbers for every sensor event. */
  predicate SensorNumbersFit(sc: Scenario)
    requires sc.sensorPeriod > 0
  {
    1 + 2 * SensorSampleCount(sc) <= U64_MAX
  }

  /** And for every runtime event behind them. */
  predicate RuntimeNumbersFit(sc: Scenario)
    requires sc.sensorPeriod > 0 && sc.runtimePeriod > 0
  {
    1 + 2 * SensorSampleCount(sc) + 2 * RuntimeOpportunityCount(sc) - |sc.missed| <= U64_MAX
  }

  method ScheduleSensors<X>(s: DeterministicScheduler, sc: Scenario) returns (r: Result<(), RunError<X>>)
    requires ValidScenario(sc) && s.Valid() && s.now == 0 && SensorsQueued(sc, s.queue, s.nextInsertion, 0)
    modifies s
    ensures r.Ok? <==> SensorsFit(sc)
    ensures r.Ok? ==> s.Valid() && s.now == 0 && SensorsQueued(sc, s.queue, s.nextInsertion, SensorSampleCount(sc))
    ensures r.Err? ==> r.error == if SensorNumbersFit(sc) then VirtualTimeOverflow else ScheduleProblem(SequenceExhausted)
  {
    hide SensorsQueued;
    var at: u64 := 0;
    ghost var k: nat := 0;
    assert s.nextInsertion == 1 by { SensorsNext(sc, s.queue, s.nextInsertion, 0); }
    while true
      invariant s.Valid() && s.now == 0 && s.nextInsertion == 1 + 2 * k && SensorsQueued(sc, s.queue, s.nextInsertion, k)
      invariant at == k * sc.sensorPeriod && at <= sc.duration
      decreases sc.duration - at
    {
      WithinCount(sc.duration, sc.sensorPeriod, k);
      ghost var q := s.queue;
      var first := s.Schedule(at, SensorSample);
      if first.Err? { return Err(ScheduleProblem(first.error)); }
      var second := s.Schedule(at, ObservationDelivery);
      if second.Err? { return Err(ScheduleProblem(second.error)); }
      SensorsStep(sc, q, k, Event(at, first.value, SensorSample), Event(at, second.value, ObservationDelivery));
      NextMultiple(k, sc.sensorPeriod);
      if at + sc.sensorPeriod > sc.duration { LastPeriod(sc.duration, sc.sensorPeriod, k); }
      if at + sc.sensorPeriod > U64_MAX { return Err(VirtualTimeOverflow); }
      var next := at + sc.sensorPeriod;
      if next > sc.duration { break; }
      k := k + 1;
      at := next;
    }
    r := Ok(());
  }

  lemma {:induction false} SensorsNext(sc: Scenario, q: set<Event>, next: nat, k: nat)
    requires ValidScenario(sc) && SensorsQueued(sc, q, next, k)
    ensures next == 1 + 2 * k
  {}

  /** A grid time within the duration is one of the counted ones. */
  lemma {:induction false} WithinCount(duration: int, p: int, k: int)
    requires p > 0 && k * p <= duration
    ensures k < duration / p + 1
  {
    GridStart(duration, p);
    if k >= duration / p + 1 { ProductStep(duration / p + 1, k, p); }
  }

  lemma {:induction false} RuntimesNext(sc: Scenario, q: set<Event>, next: nat, j: nat)
    requires ValidScenario(sc) && RuntimesQueued(sc, q, next, j)
    ensures next == 1 + 2 * SensorSampleCount(sc) + 2 * j - CountBelow(sc.missed, j * sc.runtimePeriod)
  {
    hide CountKind;
  }

  /** From one opportunity to a later one the missed list grows by at most one entry each. */
  lemma {:induction false} MissedGrowth(sc: Scenario, j: nat, m: nat)
    requires ValidScenario(sc) && j <= m
    ensures CountBelow(sc.missed, j * sc.runtimePeriod) <= CountBelow(sc.missed, m * sc.runtimePeriod)
         <= CountBelow(sc.missed, j * sc.runtimePeriod) + (m - j)
    decreases m
  {
    if j < m {
      MissedGrowth(sc, j, m - 1);
      MultipleOf(m - 1, sc.runtimePeriod);
      NextMultiple(m - 1, sc.runtimePeriod);
      CountBelowStep(sc.missed, (m - 1) * sc.runtimePeriod, sc.runtimePeriod);
    }
  }

  /** The whole missed list lies below the end of the opportunities. */
  lemma {:induction false} AllMissedCounted(sc: Scenario)
    requires ValidScenario(sc)
    ensures CountBelow(sc.missed, RuntimeOpportunityCount(sc) * sc.runtimePeriod) == |sc.missed|
  {
    GridStart(sc.duration, sc.runtimePeriod);
    CountBelowAll(sc.missed, RuntimeOpportunityCount(sc) * sc.runtimePeriod);
  }

  /** Insertion numbers only grow from opportunity to opportunity. */
  lemma {:induction false} NumbersGrow(sc: Scenario, j: nat)
    requires ValidScenario(sc) && j <= RuntimeOpportunityCount(sc)
    ensures 2 * j - CountBelow(sc.missed, j * sc.runtimePeriod) <= 2 * RuntimeOpportunityCount(sc) - |sc.missed|
  {
    MissedGrowth(sc, j, RuntimeOpportunityCount(sc));
    AllMissedCounted(sc);
  }

  /** Schedules the one or two events of an opportunity. */
  method ScheduleOpportunity<X>(s: DeterministicScheduler, sc: Scenario, at: u64, ghost j: nat) returns (r: Result<(), RunError<X>>)
    requires ValidScenario(sc) && s.Valid() && s.now == 0 && RuntimesQueued(sc, s.queue, s.nextInsertion, j)
    requires at == j * sc.runtimePeriod
    modifies s
    ensures r.Ok? ==> s.Valid() && s.now == 0 && RuntimesQueued(sc, s.queue, s.nextInsertion, j + 1)
    ensures r.Err? ==> r.error == ScheduleProblem(SequenceExhausted) && old(s.nextInsertion) + 2 > U64_MAX
    ensures r.Err? && at in sc.missed ==> old(s.nextInsertion) + 1 > U64_MAX
  {
    hide RuntimesQueued;
    ghost var q, next := s.queue, s.nextInsertion;
    var missed := RuntimeIsMissed(sc, at);
    if missed {
      var only := s.Schedule(at, RuntimeOpportunityMissed);
      if only.Err? { return Err(ScheduleProblem(only.error)); }
      MissedStep(sc, q, next, j, Event(at, only.value, RuntimeOpportunityMissed));
    } else {
      var first := s.Schedule(at, ProductionRuntime);
      if first.Err? { return Err(ScheduleProblem(first.error)); }
      var second := s.Schedule(at, ActuationCommit);
      if second.Err? { return Err(ScheduleProblem(second.error)); }
      AdmittedStep(sc, q, next, j, Event(at, first.value, ProductionRuntime), Event(at, second.value, ActuationCommit));
    }
    r := Ok(());
  }

  method ScheduleRuntimes<X>(s: DeterministicScheduler, sc: Scenario) returns (r: Result<(), RunError<X>>)
    requires ValidScenario(sc) && s.Valid() && s.now == 0 && RuntimesQueued(sc, s.queue, s.nextInsertion, 0)
    modifies s
    ensures r.Ok? <==> RuntimesFit(sc)
    ensures r.Ok? ==> s.Valid() && s.now == 0 && RuntimesQueued(sc, s.queue, s.nextInsertion, RuntimeOpportunityCount(sc))
    ensures r.Err? ==> r.error == if RuntimeNumbersFit(sc) then VirtualTimeOverflow else ScheduleProblem(SequenceExhausted)
  {
    hide RuntimesQueued, CountBelow;
    var at: u64 := 0;
    ghost var j: nat := 0;
    while true
      invariant s.Valid() && s.now == 0 && RuntimesQueued(sc, s.queue, s.nextInsertion, j)
      invariant at == j * sc.runtimePeriod && at <= sc.duration
      decreases sc.duration - at
    {
      WithinCount(sc.duration, sc.runtimePeriod, j);
      RuntimesNext(sc, s.queue, s.nextInsertion, j);
      NumbersGrow(sc, j + 1);
      NextMultiple(j, sc.runtimePeriod);
      MultipleOf(j, sc.runtimePeriod);
      CountBelowStep(sc.missed, at, sc.runtimePeriod);
      var done := ScheduleOpportunity<X>(s, sc, at, j);
      if done.Err? { return done; }
      if at + sc.runtimePeriod > sc.duration {
        LastPeriod(sc.duration, sc.runtimePeriod, j);
        RuntimesNext(sc, s.queue, s.nextInsertion, j + 1);
        AllMissedCounted(sc);
      }
      if at + sc.runtimePeriod > U64_MAX { return Err(VirtualTimeOverflow); }
      var next := at + sc.runtimePeriod;
      if next > sc.duration { break; }
      j := j + 1;
      at := next;
    }
    r := Ok(());
  }

  /** What the filled queue holds is exactly the plan. */
  lemma {:induction false} FilledIsPlan(sc: Scenario, q: set<Event>, next: nat)
    requires ValidScenario(sc) && Distinct(q) && RuntimesQueued(sc, q, next, RuntimeOpportunityCount(sc))
    ensures IsPlan(sc, q) && Counted(sc, q)
  {
    AllMissedCounted(sc);
    GridStart(sc.duration, sc.sensorPeriod);
    GridStart(sc.duration, sc.runtimePeriod);
    hide CountKind, CountBelow, InsertionOf;
    StartNumber(sc);
    forall e ensures e in q <==> Planned(sc, e) {
      PartsArePlan(sc, e);
    }
  }

  lemma {:induction false} StartNumber(sc: Scenario)
    requires ValidScenario(sc)
    ensures InsertionOf(sc, 0, ScenarioStart) == 0
  {}

  lemma {:induction false} PartsArePlan(sc: Scenario, e: Event)
    requires ValidScenario(sc)
    ensures Planned(sc, e) <==>
      (e == START || SensorPart(sc, e, SensorSampleCount(sc) * sc.sensorPeriod)
       || RuntimePart(sc, e, RuntimeOpportunityCount(sc) * sc.runtimePeriod))
  {
    hide InsertionOf;
    StartNumber(sc);
    if e.at % sc.sensorPeriod == 0 { GridLimit(sc.duration, sc.sensorPeriod, e.at); }
    if e.at % sc.runtimePeriod == 0 { GridLimit(sc.duration, sc.runtimePeriod, e.at); }
    KindsAre(sc, e.at, e.kind);
  }

  lemma {:induction false} KindsAre(sc: Scenario, t: u64, kind: EventKind)
    requires ValidScenario(sc)
    ensures kind in Kinds(sc, t) <==> match kind
      case ScenarioStart => t == 0
      case SensorSample => t % sc.sensorPeriod == 0
      case ObservationDelivery => t % sc.sensorPeriod == 0
      case RuntimeOpportunityMissed => t % sc.runtimePeriod == 0 && t in sc.missed
      case ProductionRuntime => t % sc.runtimePeriod == 0 && t !in sc.missed
      case ActuationCommit => t % sc.runtimePeriod == 0 && t !in sc.missed
  {
    var a := if t == 0 then [ScenarioStart] else [];
    var b := if t % sc.sensorPeriod == 0 then [SensorSample, ObservationDelivery] else [];
    var c := if t % sc.runtimePeriod != 0 then []
       else if t in sc.missed then [RuntimeOpportunityMissed] else [ProductionRuntime, ActuationCommit];
    assert Kinds(sc, t) == a + b + c;
    assert kind in a + b + c <==> kind in a || kind in b || kind in c;
  }

  lemma {:induction false} GridLimit(duration: int, p: int, x: int)
    requires p > 0 && x % p == 0
    ensures x < (duration / p + 1) * p <==> x <= duration
  {
    GridStart(duration, p);
    MultipleOf(duration / p, p);
    NextMultiple(duration / p, p);
    OneGridStep(x, duration / p * p, p);
  }

  /** How many events of each kind there are. */
  ghost predicate Counted(sc: Scenario, plan: set<Event>)
    requires ValidScenario(sc)
  {
    && CountKind(plan, SensorSample) == CountKind(plan, ObservationDelivery) == SensorSampleCount(sc)
    && CountKind(plan, RuntimeOpportunityMissed) == |sc.missed|
    && CountKind(plan, ProductionRuntime) == CountKind(plan, ActuationCommit) == RuntimeOpportunityCount(sc) - |sc.missed|
  }

  // ----- playing the queue ------------------------------------------------------------------------

  ghost function DispatchAll<S, X>(exec: Execution<S, X>, s: S, events: seq<Event>): Result<S, RunError<X>>
    decreases |events|
  {
    if |events| == 0 then Ok(s)
    else
      match exec.dispatch(s, events[0])
      case Err(x) => Err(EventDispatch(x))
      case Ok(next) => DispatchAll(exec, next, events[1..])
  }

  /** Physical time first, then every event of the slice. */
  ghost function PlaySlice<S, X>(exec: Execution<S, X>, s: S, slice: Slice): Result<S, RunError<X>> {
    if slice.to > slice.from then
      match exec.advance(s, slice.from, slice.to)
      case Err(x) => Err(PhysicalAdvance(x))
      case Ok(next) => DispatchAll(exec, next, slice.events)
    else DispatchAll(exec, s, slice.events)
  }

  ghost function Play<S, X>(exec: Execution<S, X>, s: S, slices: seq<Slice>): Result<S, RunError<X>>
    decreases |slices|
  {
    if |slices| == 0 then Ok(s)
    else
      match PlaySlice(exec, s, slices[0])
      case Err(e) => Err(e)
      case Ok(next) => Play(exec, next, slices[1..])
  }

  lemma {:induction false} DispatchRaises<S, X>(exec: Execution<S, X>, s: S, events: seq<Event>) returns (at: S, j: nat)
    requires DispatchAll(exec, s, events).Err?
    ensures var e := DispatchAll(exec, s, events).error;
      e.EventDispatch? && j < |events| && exec.dispatch(at, events[j]) == Err(e.dispatch)
    decreases |events|
  {
    match exec.dispatch(s, events[0])
    case Err(x) => at, j := s, 0;
    case Ok(next) =>
      at, j := DispatchRaises(exec, next, events[1..]);
      assert events[j + 1] == events[1..][j];
      j := j + 1;
  }

  /** A run that stops names where its error came from: an advance over physical time that does pass, or an event
      of a slice. */
  lemma {:induction false} ErrorsAreNamed<S, X>(exec: Execution<S, X>, s: S, slices: seq<Slice>) returns (at: S, i: nat, j: nat)
    requires Play(exec, s, slices).Err?
    ensures i < |slices|
    ensures match Play(exec, s, slices).error
      case PhysicalAdvance(x) => slices[i].from < slices[i].to && exec.advance(at, slices[i].from, slices[i].to) == Err(x)
      case EventDispatch(x) => j < |slices[i].events| && exec.dispatch(at, slices[i].events[j]) == Err(x)
      case _ => false
    decreases |slices|
  {
    hide DispatchAll;
    var slice := slices[0];
    match PlaySlice(exec, s, slice)
    case Ok(next) =>
      at, i, j := ErrorsAreNamed(exec, next, slices[1..]);
      assert slices[i + 1] == slices[1..][i];
      i := i + 1;
    case Err(e) =>
      at, i, j := s, 0, 0;
      if slice.to > slice.from {
        match exec.advance(s, slice.from, slice.to)
        case Err(_) =>
        case Ok(moved) => at, j := DispatchRaises(exec, moved, slice.events);
      } else {
        at, j := DispatchRaises(exec, s, slice.events);
      }
  }

  datatype Tally = Tally(samples: nat, delivered: nat, admitted: nat, missed: nat, commits: nat)

  function TallyOf(l: seq<Event>): Tally {
    Tally(CountIn(l, SensorSample), CountIn(l, ObservationDelivery), CountIn(l, ProductionRuntime),
          CountIn(l, RuntimeOpportunityMissed), CountIn(l, ActuationCommit))
  }

  lemma {:induction false} CountInAtMost(l: seq<Event>, kind: EventKind)
    ensures CountIn(l, kind) <= |l|
  {
    if |l| > 0 { CountInAtMost(l[..|l| - 1], kind); }
  }

  lemma {:induction false} CountInLast(l: seq<Event>, e: Event, kind: EventKind)
    ensures CountIn(l + [e], kind) == CountIn(l, kind) + if e.kind == kind then 1 else 0
  {
    assert (l + [e])[..|l|] == l;
  }

  /** The tally after one more event; no counter can pass 64 bits. */
  method Tallied(tally: Tally, e: Event, ghost before: seq<Event>) returns (next: Tally)
    requires tally == TallyOf(before) && |before| < U64_MAX
    ensures next == TallyOf(before + [e])
  {
    CountInLast(before, e, SensorSample);
    CountInLast(before, e, ObservationDelivery);
    CountInLast(before, e, ProductionRuntime);
    CountInLast(before, e, RuntimeOpportunityMissed);
    CountInLast(before, e, ActuationCommit);
    CountInAtMost(before, e.kind);
    hide CountIn;
    next := tally;
    match e.kind {
      case ProductionRuntime =>
        assert tally.admitted < U64_MAX;
        next := tally.(admitted := tally.admitted + 1);
      case RuntimeOpportunityMissed =>
        assert tally.missed < U64_MAX;
        next := tally.(missed := tally.missed + 1);
      case SensorSample =>
        assert tally.samples < U64_MAX;
        next := tally.(samples := tally.samples + 1);
      case ObservationDelivery =>
        assert tally.delivered < U64_MAX;
        next := tally.(delivered := tally.delivered + 1);
      case ActuationCommit =>
        assert tally.commits < U64_MAX;
        next := tally.(commits := tally.commits + 1);
      case ScenarioStart =>
    }
  }

  /** Dispatches the events of one slice, counting them. */
  method DispatchSlice<S, X>(exec: Execution<S, X>, start: S, events: seq<Event>, tally: Tally, ghost before: seq<Event>)
    returns (r: Result<(S, Tally), RunError<X>>)
    requires tally == TallyOf(before) && |before| + |events| <= U64_MAX
    ensures match DispatchAll(exec, start, events)
      case Err(e) => r == Err(e)
      case Ok(s) => r == Ok((s, TallyOf(before + events)))
  {
    hide TallyOf;
    var s, count := start, tally;
    assert events[0..] == events && before + events[..0] == before;
    for i := 0 to |events|
      invariant DispatchAll(exec, start, events) == DispatchAll(exec, s, events[i..])
      invariant count == TallyOf(before + events[..i])
    {
      assert events[i..][1..] == events[i + 1..];
      match exec.dispatch(s, events[i]) {
        case Err(x) => return Err(EventDispatch(x));
        case Ok(next) => s := next;
      }
      count := Tallied(count, events[i], before + events[..i]);
      assert before + events[..i] + [events[i]] == before + events[..i + 1];
    }
    assert events[..|events|] == events;
    r := Ok((s, count));
  }

  datatype Summary = Summary(pass: bool, timeSlices: nat, advances: nat, tally: Tally, opportunities: nat)

  /** The physical advance of a slice, if it has one. */
  method AdvanceTo<S, X>(exec: Execution<S, X>, s: S, slice: Slice) returns (r: Result<S, RunError<X>>)
    ensures r.Ok? ==> PlaySlice(exec, s, slice) == DispatchAll(exec, r.value, slice.events)
    ensures r.Err? ==> PlaySlice(exec, s, slice) == Err(r.error)
  {
    if slice.to > slice.from {
      match exec.advance(s, slice.from, slice.to) {
        case Err(x) => return Err(PhysicalAdvance(x));
        case Ok(next) => return Ok(next);
      }
    }
    r := Ok(s);
  }

  /** One slice: physical time, then its events, counted. */
  method PlayOne<S, X>(exec: Execution<S, X>, s: S, slice: Slice, tally: Tally, ghost before: seq<Event>)
    returns (r: Result<(S, Tally), RunError<X>>, advanced: bool)
    requires tally == TallyOf(before) && |before| + |slice.events| <= U64_MAX
    ensures match PlaySlice(exec, s, slice)
      case Err(e) => r == Err(e)
      case Ok(next) => r == Ok((next, TallyOf(before + slice.events)))
    ensures advanced <==> slice.to > slice.from
  {
    hide TallyOf, DispatchAll;
    advanced := slice.to > slice.from;
    var moved := AdvanceTo(exec, s, slice);
    if moved.Err? { return Err(moved.error), advanced; }
    r := DispatchSlice(exec, moved.value, slice.events, tally, before);
  }

  lemma {:induction false} SlicesAtMost(s: set<Event>, now: u64)
    requires Distinct(s)
    ensures |Slices(s, now)| <= |s|
    decreases |s|
  {
    hide InOrder;
    if s != {} {
      LaterShrinks(s);
      SlicesAtMost(Later(s), MinOf(s).at);
    }
  }

  /** Whether the loop stands where the plan, played from the start, has come to. */
  ghost predicate Underway<S, X>(exec: Execution<S, X>, start: S, plan: set<Event>, s: S, q: set<Event>, now: u64, done: seq<Event>, slices: nat)
    requires Distinct(plan) && Distinct(q)
  {
    && Play(exec, start, Slices(plan, 0)) == Play(exec, s, Slices(q, now))
    && done + InOrder(q) == InOrder(plan) && slices + |Slices(q, now)| == |Slices(plan, 0)|
    && (forall e | e in q :: e.at >= now) && (slices > 0 ==> forall e | e in q :: e.at > now) && (slices == 0 ==> now == 0 && q == plan)
  }

  lemma {:induction false} UnderwayNext<S, X>(exec: Execution<S, X>, start: S, plan: set<Event>, s: S, q: set<Event>, now: u64,
                                             done: seq<Event>, slices: nat, next: S)
    requires Distinct(plan) && Distinct(q) && q != {} && Underway(exec, start, plan, s, q, now, done, slices)
    requires PlaySlice(exec, s, Slices(q, now)[0]) == Ok(next)
    ensures Distinct(Later(q))
    ensures Underway(exec, start, plan, next, Later(q), MinOf(q).at, done + Slices(q, now)[0].events, slices + 1)
  {
    hide InOrder, PlaySlice;
    LaterShrinks(q);
    OrderSplits(q);
    assert Slices(q, now)[1..] == Slices(Later(q), MinOf(q).at);
    var events := Slices(q, now)[0].events;
    assert done + events + InOrder(Later(q)) == done + InOrder(q);
  }

  lemma {:induction false} UnderwayFails<S, X>(exec: Execution<S, X>, start: S, plan: set<Event>, s: S, q: set<Event>, now: u64,
                                              done: seq<Event>, slices: nat)
    requires Distinct(plan) && Distinct(q) && q != {} && Underway(exec, start, plan, s, q, now, done, slices)
    requires PlaySlice(exec, s, Slices(q, now)[0]).Err?
    ensures Play(exec, start, Slices(plan, 0)) == Err(PlaySlice(exec, s, Slices(q, now)[0]).error)
  {
    hide InOrder, PlaySlice;
  }

  /** Drains the queue slice by slice. */
  method PlayQueue<S, X>(exec: Execution<S, X>, start: S, scheduler: DeterministicScheduler)
    returns (r: Result<(S, Tally, nat, nat), RunError<X>>)
    requires scheduler.Valid() && scheduler.now == 0 && |scheduler.queue| <= U64_MAX
    modifies scheduler
    ensures match Play(exec, start, Slices(old(scheduler.queue), 0))
      case Err(e) => r == Err(e)
      case Ok(s) =>
        r.Ok? && r.value.0 == s && r.value.1 == TallyOf(InOrder(old(scheduler.queue))) && r.value.2 == |Slices(old(scheduler.queue), 0)|
        && (Starts0(old(scheduler.queue)) && r.value.2 > 0 ==> r.value.3 == r.value.2 - 1)
  {
    hide PlaySlice, InOrder, TallyOf, Underway, Slices, Starts0, Distinct;
    ghost var plan, done := scheduler.queue, [];
    var s, tally := start, Tally(0, 0, 0, 0, 0);
    var timeSlices: nat, advances: nat := 0, 0;
    UnderwayStart(exec, start, plan);
    while true
      invariant scheduler.Valid() && Underway(exec, start, plan, s, scheduler.queue, scheduler.now, done, timeSlices)
      invariant tally == TallyOf(done)
      invariant Starts0(plan) ==> advances == if timeSlices == 0 then 0 else timeSlices - 1
      decreases |scheduler.queue|
    {
      ghost var q, now := scheduler.queue, scheduler.now;
      UnderwayFacts(exec, start, plan, s, q, now, done, timeSlices);
      var slice := scheduler.NextSlice();
      if slice.None? { break; }
      LaterShrinks(q);
      timeSlices := timeSlices + 1;
      var played, advanced := PlayOne(exec, s, slice.value, tally, done);
      if played.Err? {
        UnderwayFails(exec, start, plan, s, q, now, done, timeSlices - 1);
        return Err(played.error);
      }
      if advanced { advances := advances + 1; }
      UnderwayNext(exec, start, plan, s, q, now, done, timeSlices - 1, played.value.0);
      s, tally := played.value.0, played.value.1;
      done := done + slice.value.events;
    }
    UnderwayEnds(exec, start, plan, s, scheduler.now, done, timeSlices);
    r := Ok((s, tally, timeSlices, advances));
  }

  /** Some event happens at time zero. */
  ghost predicate Starts0(plan: set<Event>) {
    exists e :: e in plan && e.at == 0
  }

  lemma {:induction false} UnderwayStart<S, X>(exec: Execution<S, X>, start: S, plan: set<Event>)
    requires Distinct(plan)
    ensures Underway(exec, start, plan, start, plan, 0, [], 0) && Tally(0, 0, 0, 0, 0) == TallyOf([])
  {
    hide Play, InOrder, Slices;
  }

  lemma {:induction false} UnderwayEnds<S, X>(exec: Execution<S, X>, start: S, plan: set<Event>, s: S, now: u64, done: seq<Event>, slices: nat)
    requires Distinct(plan) && Underway(exec, start, plan, s, {}, now, done, slices)
    ensures Play(exec, start, Slices(plan, 0)) == Ok(s) && done == InOrder(plan) && slices == |Slices(plan, 0)|
  {
    assert Slices({}, now) == [] && InOrder({}) == [];
    hide InOrder;
    assert done + [] == done;
  }

  /** Before a slice: what it may count, and when it advances physical time. */
  lemma {:induction false} UnderwayFacts<S, X>(exec: Execution<S, X>, start: S, plan: set<Event>, s: S, q: set<Event>, now: u64,
                                              done: seq<Event>, slices: nat)
    requires Distinct(plan) && Distinct(q) && Underway(exec, start, plan, s, q, now, done, slices)
    ensures q != {} ==> |done| + |Slices(q, now)[0].events| <= |plan|
    ensures q != {} ==> Slices(q, now)[0].from == now && Slices(q, now)[0].to == MinOf(q).at
    ensures q != {} && slices > 0 ==> MinOf(q).at > now
    ensures q != {} && slices == 0 && Starts0(plan) ==> now == 0 && MinOf(q).at == 0
  {
    if q != {} {
      FirstSlice(q, now);
      hide InOrder, Slices, Play, Starts0;
      RoomForSlice(plan, q, done);
      assert MinOf(q) in q;
      if slices == 0 && Starts0(plan) { StartsAtZero(plan); }
    }
  }

  lemma {:induction false} FirstSlice(q: set<Event>, now: u64)
    requires Distinct(q) && q != {}
    ensures |Slices(q, now)| > 0 && Slices(q, now)[0] == Slice(now, MinOf(q).at, InOrder(Due(q, MinOf(q).at)))
  {
    LaterShrinks(q);
  }

  lemma {:induction false} RoomForSlice(plan: set<Event>, q: set<Event>, done: seq<Event>)
    requires Distinct(plan) && Distinct(q) && q != {} && done + InOrder(q) == InOrder(plan)
    ensures |done| + |InOrder(Due(q, MinOf(q).at))| <= |plan|
  {
    OrderSplits(q);
    InOrderIsOrdered(plan);
    hide InOrder;
    assert |done + InOrder(q)| == |done| + |InOrder(Due(q, MinOf(q).at))| + |InOrder(Later(q))|;
  }

  lemma {:induction false} StartsAtZero(plan: set<Event>)
    requires Distinct(plan) && plan != {} && Starts0(plan)
    ensures MinOf(plan).at == 0
  {
    EarliestTime(plan);
  }
}
