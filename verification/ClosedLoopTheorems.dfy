/** The closed-loop theorems: statements about every slice boundary of every run of
    a valid scenario, whatever is missed, skipped or refused. */
module ClosedLoopTheorems {
  import opened Wrappers
  import opened MachineInts
  import opened StateEstimator
  import opened RuntimeState
  import opened RuntimeSupervisor
  import opened ControlRuntime
  import EncoderTracking
  import SimulationWorld
  import opened Scheduler
  import opened SitlRun
  import opened RunLoop
  import opened RunTimeline
  import opened ClosedLoop
  import opened ClosedLoopRuns

  // ----- where the loop is after n slices ---------------------------------------------------

  /** Samples taken and opportunities had, n slices on from (k, j). */
  function Position(sc: Scenario, k: nat, j: nat, n: nat): (nat, nat)
    decreases n
  {
    if n == 0 then (k, j) else Position(sc, NextSamples(sc, k, j), NextOpportunities(sc, k, j), n - 1)
  }

  lemma {:induction false} PositionNext(sc: Scenario, k: nat, j: nat, n: nat)
    requires ValidScenario(sc) && Standing(sc, k, j)
    ensures var p := Position(sc, k, j, n);
      && Standing(sc, p.0, p.1)
      && Position(sc, k, j, n + 1) == (NextSamples(sc, p.0, p.1), NextOpportunities(sc, p.0, p.1))
    decreases n
  {
    if n > 0 {
      StandingNext(sc, k, j);
      hide Standing;
      PositionNext(sc, NextSamples(sc, k, j), NextOpportunities(sc, k, j), n - 1);
    }
  }

  /** The n-th slice of the rest of a plan happens at the n-th next time. */
  lemma {:induction false} SliceAt(sc: Scenario, q: set<Event>, k: nat, j: nat, now: u64, n: nat)
    requires ValidScenario(sc) && ScheduleFits(sc) && Standing(sc, k, j) && RestOf(sc, q, NextTime(sc, k, j))
    requires Scheduler.Distinct(q) && n < |Slices(q, now)|
    ensures var p, slice := Position(sc, k, j, n), Slices(q, now)[n];
      slice.to == NextTime(sc, p.0, p.1) <= sc.duration && slice.events == EventsAt(sc, slice.to)
    decreases n
  {
    hide InOrder, Kinds, EventsAt, ScheduleFits, Standing, RestOf, NextSamples, NextOpportunities;
    NextSliceIs(sc, q, k, j);
    LaterShrinks(q);
    StandingNext(sc, k, j);
    if n > 0 {
      RestIsDistinct(sc, Later(q), NextTime(sc, NextSamples(sc, k, j), NextOpportunities(sc, k, j)));
      SliceAt(sc, Later(q), NextSamples(sc, k, j), NextOpportunities(sc, k, j), MinOf(q).at, n - 1);
      assert Slices(q, now)[n] == Slices(Later(q), MinOf(q).at)[n - 1];
    }
  }

  /** When the slices are used up, the next time is past the duration. */
  lemma {:induction false} SlicesEnd(sc: Scenario, q: set<Event>, k: nat, j: nat, now: u64)
    requires ValidScenario(sc) && ScheduleFits(sc) && Standing(sc, k, j) && RestOf(sc, q, NextTime(sc, k, j)) && Scheduler.Distinct(q)
    ensures var p := Position(sc, k, j, |Slices(q, now)|); NextTime(sc, p.0, p.1) > sc.duration
    decreases |q|
  {
    hide InOrder, Kinds, EventsAt, ScheduleFits, Standing, RestOf, NextSamples, NextOpportunities;
    NextSliceIs(sc, q, k, j);
    if q != {} {
      LaterShrinks(q);
      StandingNext(sc, k, j);
      SlicesEnd(sc, Later(q), NextSamples(sc, k, j), NextOpportunities(sc, k, j), MinOf(q).at);
      assert Slices(q, now)[1..] == Slices(Later(q), MinOf(q).at);
    }
  }

  /** One more slice of a run that has come this far. */
  ghost function PlayOn<S, X>(exec: Execution<S, X>, r: Result<S, RunError<X>>, slice: Slice): Result<S, RunError<X>> {
    match r case Err(e) => Err(e) case Ok(t) => PlaySlice(exec, t, slice)
  }

  lemma {:induction false} PlayNext<S, X>(exec: Execution<S, X>, s: S, slices: seq<Slice>, n: nat)
    requires n < |slices|
    ensures Play(exec, s, slices[..n + 1]) == PlayOn(exec, Play(exec, s, slices[..n]), slices[n])
    decreases n
  {
    hide PlaySlice;
    if n == 0 {
      assert slices[..1][1..] == [];
      match PlaySlice(exec, s, slices[0])
      case Err(_) =>
      case Ok(t) => assert Play(exec, t, []) == Ok(t);
    } else {
      assert slices[..n + 1][1..] == slices[1..][..n] && slices[..n][1..] == slices[1..][..n - 1];
      match PlaySlice(exec, s, slices[0])
      case Err(_) =>
      case Ok(t) => PlayNext(exec, t, slices[1..], n - 1);
    }
  }

  // ----- where a run starts -------------------------------------------------------------------

  /** A loop at time zero that has seen nothing yet. */
  ghost predicate ReadyToRun<E, P, V, X>(sc: Scenario, c: Config<E, P, V, X>, s: Loop<E, P, V>) {
    Book(sc, c, s, 0, 0) && s.worldTime == 0
  }

  /** A new simulation is ready to run under its configured limits, armed or not. */
  lemma {:induction false} NewIsReady<E, P, V, X>(sc: Scenario, c: Config<E, P, V, X>, truth: SimulationWorld.Truth, estimator: E, controller: Controller,
                                                 velocity: V, drive: EncoderTracking.EncoderTransfer, reaction: EncoderTracking.EncoderTransfer, limits: TimingLimits)
    requires ConfigValid(c) && controller.Shaped()
    ensures var s := Initial<E, P, V>(truth, estimator, controller, velocity, drive, reaction, limits);
      && ReadyToRun(sc, c, s) && ArmBalance(c, s).Ok? && ReadyToRun(sc, c, ArmBalance(c, s).value)
      && ArmBalance(c, s).value.supervision.state == CaptureWindow && s.timing.limits == ArmBalance(c, s).value.timing.limits == limits
  {
    hide CountBelow;
    CountBelowAtMost(sc.missed, 0);
    assert 0 * sc.runtimePeriod == 0;
    ArmsExactly(INITIAL);
  }

  // ----- every boundary ---------------------------------------------------------------------------

  /** Every admitted opportunity before the j-th found a new sample. */
  ghost predicate FreshBefore(sc: Scenario, j: nat)
    requires sc.sensorPeriod > 0
  {
    forall i | 0 < i < j && i * sc.runtimePeriod !in sc.missed :: FreshAt(sc, i)
  }

  /** The state of affairs after n slices. */
  ghost predicate Boundary<E, P, V, X>(sc: Scenario, c: Config<E, P, V, X>, slices: seq<Slice>, n: nat, s: Loop<E, P, V>)
    requires sc.sensorPeriod > 0 && n <= |slices|
  {
    var p := Position(sc, 0, 0, n);
    && Book(sc, c, s, p.0, p.1) && FreshBefore(sc, p.1)
    && s.worldTime == (if n == 0 then 0 else slices[n - 1].to)
    && (p.0 > 0 ==> (p.0 - 1) * sc.sensorPeriod <= s.worldTime) && (p.1 > 0 ==> (p.1 - 1) * sc.runtimePeriod <= s.worldTime)
    && s.worldTime <= sc.duration
  }

  /** A run stops only for an excusable reason, at an opportunity within the duration. */
  ghost predicate StopsAt<X>(sc: Scenario, e: RunError<LoopError<X>>)
    requires sc.sensorPeriod > 0
  {
    e.EventDispatch? && exists j: nat :: StopsFor(sc, e.dispatch, j)
  }

  predicate StopsFor<X>(sc: Scenario, e: LoopError<X>, j: nat)
    requires sc.sensorPeriod > 0
  {
    && Excused(sc, e, j)
    && (e.RuntimeWithoutFreshObservation? ==> j * sc.runtimePeriod <= sc.duration && j * sc.runtimePeriod !in sc.missed)
  }

  lemma {:induction false} PlanSlice(sc: Scenario, plan: set<Event>, n: nat)
    requires ValidScenario(sc) && ScheduleFits(sc) && IsPlan(sc, plan) && n < |Slices(plan, 0)|
    ensures var p, slices := Position(sc, 0, 0, n), Slices(plan, 0);
      && Standing(sc, p.0, p.1) && slices[n].to == NextTime(sc, p.0, p.1) <= sc.duration
      && slices[n] == Slice(if n == 0 then 0 else slices[n - 1].to, slices[n].to, EventsAt(sc, slices[n].to))
      && (if n == 0 then 0 else slices[n - 1].to) <= slices[n].to
      && Position(sc, 0, 0, n + 1) == (NextSamples(sc, p.0, p.1), NextOpportunities(sc, p.0, p.1))
  {
    hide InsertionOf, InOrder, Kinds, ScheduleFits, Standing, EventsAt, RestOf, NextTime;
    PlanIsRest(sc, plan);
    PositionNext(sc, 0, 0, n);
    SliceAt(sc, plan, 0, 0, 0, n);
    SlicesTile(plan, 0);
  }

  /** One more slice of the run. */
  lemma {:induction false} BoundaryNext<E, P, V, X>(sc: Scenario, c: Config<E, P, V, X>, plan: set<Event>, n: nat, s: Loop<E, P, V>)
    requires ValidScenario(sc) && ScheduleFits(sc) && IsPlan(sc, plan) && n < |Slices(plan, 0)|
    requires Boundary(sc, c, Slices(plan, 0), n, s) && ConfigValid(c)
    ensures match PlaySlice(Exec(c), s, Slices(plan, 0)[n])
      case Ok(t) =>
        && Boundary(sc, c, Slices(plan, 0), n + 1, t) && UsesAtMostOne(s, t)
        && (s.supervision.state.Fault? ==> t.supervision.state.Fault?)
      case Err(e) => StopsAt(sc, e)
  {
    var slices := Slices(plan, 0);
    var p := Position(sc, 0, 0, n);
    PlanSlice(sc, plan, n);
    OpportunityFits(sc, p.0, p.1);
    BoundaryBook(sc, c, slices, n, s);
    hide Boundary, InsertionOf, Kinds, ScheduleFits, EventsAt, Book, Slices, FreshAt, Position, PlaySlice, InOrder, StopsAt, NextTime, Excused, UsesAtMostOne, FreshBefore;
    SliceKeeps(sc, c, s, p.0, p.1, s.worldTime, slices[n].to);
    match PlaySlice(Exec(c), s, slices[n])
    case Ok(t) => BoundaryFrom(sc, c, slices, n, s, t, p.0, p.1);
    case Err(e) => StopFrom(sc, p.0, p.1, slices[n].to, e);
  }

  lemma {:induction false} BoundaryBook<E, P, V, X>(sc: Scenario, c: Config<E, P, V, X>, slices: seq<Slice>, n: nat, s: Loop<E, P, V>)
    requires sc.sensorPeriod > 0 && n <= |slices| && Boundary(sc, c, slices, n, s)
    ensures var p := Position(sc, 0, 0, n);
      Book(sc, c, s, p.0, p.1) && FreshBefore(sc, p.1) && s.worldTime == (if n == 0 then 0 else slices[n - 1].to) && s.worldTime <= sc.duration
  {
    hide Book, Position, FreshBefore;
  }

  lemma {:induction false} StopFrom<X>(sc: Scenario, k: nat, j: nat, to: u64, e: RunError<LoopError<X>>)
    requires sc.sensorPeriod > 0 && e.EventDispatch? && Excused(sc, e.dispatch, j) && to <= sc.duration
    requires e.dispatch.RuntimeWithoutFreshObservation? ==> to == j * sc.runtimePeriod && to !in sc.missed
    ensures StopsAt(sc, e)
  {
    hide FreshAt;
    assert StopsFor(sc, e.dispatch, j);
  }

  lemma {:induction false} BoundaryFrom<E, P, V, X>(sc: Scenario, c: Config<E, P, V, X>, slices: seq<Slice>, n: nat, s: Loop<E, P, V>, t: Loop<E, P, V>, k: nat, j: nat)
    requires ValidScenario(sc) && n < |slices| && FreshBefore(sc, j)
    requires Standing(sc, k, j) && slices[n].to == NextTime(sc, k, j) <= sc.duration
    requires Position(sc, 0, 0, n + 1) == (NextSamples(sc, k, j), NextOpportunities(sc, k, j))
    requires SliceKept(sc, c, s, k, j, slices[n].to, Ok(t))
    ensures Boundary(sc, c, slices, n + 1, t)
  {
    hide Book, FreshAt, Position, NextTime;
    FreshNext(sc, k, j);
    StandingMeans(sc, NextSamples(sc, k, j), NextOpportunities(sc, k, j), k, j);
    hide FreshBefore, Standing, NextSamples, NextOpportunities;
  }

  lemma {:induction false} OpportunityFits(sc: Scenario, k: nat, j: nat)
    requires ValidScenario(sc) && ScheduleFits(sc) && NextTime(sc, k, j) <= sc.duration && Standing(sc, k, j)
    ensures j < U64_MAX
  {
    AllMissedCounted(sc);
    CountBelowGrid(sc, RuntimeOpportunityCount(sc));
    hide CountBelow;
    if j > 0 { WithinCount(sc.duration, sc.runtimePeriod, j - 1); }
  }

  lemma {:induction false} FreshNext(sc: Scenario, k: nat, j: nat)
    requires sc.sensorPeriod > 0 && FreshBefore(sc, j)
    requires j > 0 && NextTime(sc, k, j) == j * sc.runtimePeriod && j * sc.runtimePeriod !in sc.missed ==> FreshAt(sc, j)
    ensures FreshBefore(sc, NextOpportunities(sc, k, j))
  {
    hide FreshAt;
  }

  /** At every slice boundary of an error-free stretch of a run the books are right; a run that
      stops does so for an excusable reason. */
  lemma {:induction false} EveryBoundary<E, P, V, X>(sc: Scenario, c: Config<E, P, V, X>, plan: set<Event>, start: Loop<E, P, V>, n: nat)
    requires ValidScenario(sc) && ScheduleFits(sc) && IsPlan(sc, plan) && ReadyToRun(sc, c, start) && n <= |Slices(plan, 0)|
    ensures ConfigValid(c) && InOrderAfter(sc, c, plan, start, n)
  {
    ConfigOf(sc, c, start);
    if n == 0 {
      StartsInOrder(sc, c, plan, start);
    } else {
      hide Slices, ScheduleFits, Book, IsPlan, InOrderAfter, ReadyToRun, ValidScenario;
      EveryBoundary(sc, c, plan, start, n - 1);
      OneMoreSlice(sc, c, plan, start, n - 1);
    }
  }

  lemma StartsInOrder<E, P, V, X>(sc: Scenario, c: Config<E, P, V, X>, plan: set<Event>, start: Loop<E, P, V>)
    requires ValidScenario(sc) && Scheduler.Distinct(plan) && ReadyToRun(sc, c, start) && ConfigValid(c)
    ensures InOrderAfter(sc, c, plan, start, 0)
  {
    StartBoundary(sc, c, Slices(plan, 0), start);
    hide Slices, Book, Boundary, StopsAt, PlaySlice, ReadyToRun, Exec;
    assert Slices(plan, 0)[..0] == [];
  }

  /** The run after n slices stands at a good boundary, or has stopped for an excusable reason. */
  ghost predicate InOrderAfter<E, P, V, X>(sc: Scenario, c: Config<E, P, V, X>, plan: set<Event>, start: Loop<E, P, V>, n: nat)
    requires sc.sensorPeriod > 0 && Scheduler.Distinct(plan) && ConfigValid(c) && n <= |Slices(plan, 0)|
  {
    match Play(Exec(c), start, Slices(plan, 0)[..n])
    case Ok(s) => Boundary(sc, c, Slices(plan, 0), n, s)
    case Err(e) => StopsAt(sc, e)
  }

  lemma {:induction false} OneMoreSlice<E, P, V, X>(sc: Scenario, c: Config<E, P, V, X>, plan: set<Event>, start: Loop<E, P, V>, n: nat)
    requires ValidScenario(sc) && ScheduleFits(sc) && IsPlan(sc, plan) && ConfigValid(c) && n < |Slices(plan, 0)|
    requires InOrderAfter(sc, c, plan, start, n)
    ensures InOrderAfter(sc, c, plan, start, n + 1)
  {
    hide Slices, ScheduleFits, Boundary, StopsAt, PlaySlice, Exec;
    PlayNext(Exec(c), start, Slices(plan, 0), n);
    match Play(Exec(c), start, Slices(plan, 0)[..n])
    case Err(_) =>
    case Ok(s) => BoundaryNext(sc, c, plan, n, s);
  }

  lemma {:induction false} ConfigOf<E, P, V, X>(sc: Scenario, c: Config<E, P, V, X>, s: Loop<E, P, V>)
    requires ReadyToRun(sc, c, s)
    ensures ConfigValid(c)
  {}

  lemma {:induction false} StartBoundary<E, P, V, X>(sc: Scenario, c: Config<E, P, V, X>, slices: seq<Slice>, s: Loop<E, P, V>)
    requires ValidScenario(sc) && ReadyToRun(sc, c, s)
    ensures Boundary(sc, c, slices, 0, s)
  {
    hide Book;
  }

  // ----- the theorems -------------------------------------------------------------------------------

  /** The run after n slices, if nothing has stopped it. */
  ghost function After<E, P, V, X>(c: Config<E, P, V, X>, plan: set<Event>, start: Loop<E, P, V>, n: nat): Result<Loop<E, P, V>, RunError<LoopError<X>>>
    requires ConfigValid(c) && Scheduler.Distinct(plan) && n <= |Slices(plan, 0)|
  {
    Play(Exec(c), start, Slices(plan, 0)[..n])
  }

  /** The observer's remembered input is the torque the plant is under. */
  lemma {:induction false} ObserverAgreesWithPlant<E, P, V, X>(sc: Scenario, c: Config<E, P, V, X>, plan: set<Event>, start: Loop<E, P, V>, n: nat)
    requires ValidScenario(sc) && ScheduleFits(sc) && IsPlan(sc, plan) && ReadyToRun(sc, c, start) && n <= |Slices(plan, 0)|
    ensures match After(c, plan, start, n)
      case Ok(s) => s.runtime.previousApplied == s.applied
      case Err(_) => true
  {
    EveryBoundary(sc, c, plan, start, n);
    hide Slices, Bookkeeping, Counts, ScheduleFits, IsPlan;
  }

  /** The run has come this far, and the supervisor is in its fault state. */
  ghost predicate Faulted<E, P, V, X>(r: Result<Loop<E, P, V>, RunError<LoopError<X>>>) {
    r.Ok? && r.value.supervision.state.Fault?
  }

  ghost predicate Torqueless<E, P, V, X>(r: Result<Loop<E, P, V>, RunError<LoopError<X>>>) {
    r.Ok? && r.value.applied == ZERO_INPUT
  }

  /** If the run reaches the later point it has passed the earlier one, and used at most one sample on the way. */
  ghost predicate OneSliceUses<E, P, V, X>(r: Result<Loop<E, P, V>, RunError<LoopError<X>>>, t: Result<Loop<E, P, V>, RunError<LoopError<X>>>) {
    t.Ok? ==> r.Ok? && UsesAtMostOne(r.value, t.value)
  }

  /** A faulted supervisor means no torque, and stays faulted to the end of the run. */
  lemma {:induction false} FaultMeansNoTorque<E, P, V, X>(sc: Scenario, c: Config<E, P, V, X>, plan: set<Event>, start: Loop<E, P, V>, n: nat, m: nat)
    requires ValidScenario(sc) && ScheduleFits(sc) && IsPlan(sc, plan) && ReadyToRun(sc, c, start) && n <= m <= |Slices(plan, 0)|
    requires Faulted(After(c, plan, start, n))
    ensures After(c, plan, start, m).Ok? ==> Faulted(After(c, plan, start, m)) && Torqueless(After(c, plan, start, m))
    decreases m
  {
    hide *;
    FaultIsStill(sc, c, plan, start, m);
    if n < m {
      FaultMeansNoTorque(sc, c, plan, start, n, m - 1);
      OneSliceOn(sc, c, plan, start, m - 1);
    }
  }

  /** What one more slice of a run that goes on keeps of a fault and uses of the samples. */
  lemma {:induction false} OneSliceOn<E, P, V, X>(sc: Scenario, c: Config<E, P, V, X>, plan: set<Event>, start: Loop<E, P, V>, n: nat)
    requires ValidScenario(sc) && ScheduleFits(sc) && IsPlan(sc, plan) && ReadyToRun(sc, c, start) && n < |Slices(plan, 0)|
    ensures ConfigValid(c)
    ensures Faulted(After(c, plan, start, n)) && After(c, plan, start, n + 1).Ok? ==> Faulted(After(c, plan, start, n + 1))
    ensures After(c, plan, start, n + 1).Ok? ==> After(c, plan, start, n).Ok?
    ensures OneSliceUses(After(c, plan, start, n), After(c, plan, start, n + 1))
  {
    ConfigOf(sc, c, start);
    hide Slices, ScheduleFits, Boundary, Book, StopsAt, ReadyToRun, PlaySlice, Exec, IsPlan, UsesAtMostOne;
    EveryBoundary(sc, c, plan, start, n);
    PlayNext(Exec(c), start, Slices(plan, 0), n);
    match After(c, plan, start, n)
    case Err(_) =>
    case Ok(s) => BoundaryNext(sc, c, plan, n, s);
  }

  lemma {:induction false} FaultIsStill<E, P, V, X>(sc: Scenario, c: Config<E, P, V, X>, plan: set<Event>, start: Loop<E, P, V>, n: nat)
    requires ValidScenario(sc) && ScheduleFits(sc) && IsPlan(sc, plan) && ReadyToRun(sc, c, start) && n <= |Slices(plan, 0)|
    ensures ConfigValid(c)
    ensures Faulted(After(c, plan, start, n)) ==> Torqueless(After(c, plan, start, n))
  {
    EveryBoundary(sc, c, plan, start, n);
    hide Slices, Bookkeeping, Counts, ScheduleFits, IsPlan, Position, FreshBefore;
  }

  /** From s on to t the timing limits stay; while nothing is used the last consumed sample stays, and each
      use moves it on by at least one. */
  ghost predicate Onward<E, P, V>(s: Loop<E, P, V>, t: Loop<E, P, V>) {
    && t.timing.limits == s.timing.limits && Used(s) <= Used(t)
    && (if Used(t) == Used(s) then t.consumed == s.consumed
        else t.consumed.Some? && ConsumedUpTo(s.consumed) + (Used(t) - Used(s)) <= ConsumedUpTo(t.consumed))
  }

  /** If the run reaches the later point it has passed the earlier one, and used at most `slices` samples on the way. */
  ghost predicate OnwardWithin<E, P, V, X>(r: Result<Loop<E, P, V>, RunError<LoopError<X>>>, t: Result<Loop<E, P, V>, RunError<LoopError<X>>>, slices: nat) {
    t.Ok? ==> r.Ok? && Onward(r.value, t.value) && Used(t.value) <= Used(r.value) + slices
  }

  lemma {:induction false} OnwardNext<E, P, V, X>(r: Result<Loop<E, P, V>, RunError<LoopError<X>>>, t: Result<Loop<E, P, V>, RunError<LoopError<X>>>,
                                                  u: Result<Loop<E, P, V>, RunError<LoopError<X>>>, slices: nat)
    requires OnwardWithin(r, t, slices) && OneSliceUses(t, u)
    ensures OnwardWithin(r, u, slices + 1)
  {}

  lemma {:induction false} OnwardNone<E, P, V, X>(r: Result<Loop<E, P, V>, RunError<LoopError<X>>>)
    ensures OnwardWithin(r, r, 0)
  {}

  lemma {:induction false} OnwardOver<E, P, V, X>(c: Config<E, P, V, X>, plan: set<Event>, start: Loop<E, P, V>, n: nat, m: nat)
    requires ConfigValid(c) && Scheduler.Distinct(plan) && n <= m <= |Slices(plan, 0)|
    requires forall i | n <= i < m :: OneSliceUses(After(c, plan, start, i), After(c, plan, start, i + 1))
    ensures OnwardWithin(After(c, plan, start, n), After(c, plan, start, m), m - n)
    decreases m
  {
    hide *;
    if n == m {
      OnwardNone(After(c, plan, start, n));
    } else {
      OnwardOver(c, plan, start, n, m - 1);
      OnwardNext(After(c, plan, start, n), After(c, plan, start, m - 1), After(c, plan, start, m), m - 1 - n);
    }
  }

  /** Over any stretch of any run no sample is used twice: the last consumed index stays when nothing was used,
      is strictly larger and ahead by at least the number of uses otherwise, and no slice uses more than one. */
  lemma {:induction false} EachSampleOnce<E, P, V, X>(sc: Scenario, c: Config<E, P, V, X>, plan: set<Event>, start: Loop<E, P, V>, n: nat, m: nat)
    requires ValidScenario(sc) && ScheduleFits(sc) && IsPlan(sc, plan) && ReadyToRun(sc, c, start) && n <= m <= |Slices(plan, 0)|
    ensures ConfigValid(c)
    ensures OnwardWithin(After(c, plan, start, n), After(c, plan, start, m), m - n)
  {
    ConfigOf(sc, c, start);
    hide Slices, ScheduleFits, ReadyToRun, After, OneSliceUses;
    forall i | n <= i < m ensures OneSliceUses(After(c, plan, start, i), After(c, plan, start, i + 1)) {
      OneSliceOn(sc, c, plan, start, i);
    }
    OnwardOver(c, plan, start, n, m);
  }

  lemma {:induction false} AfterNothing<E, P, V, X>(c: Config<E, P, V, X>, plan: set<Event>, start: Loop<E, P, V>)
    requires ConfigValid(c) && Scheduler.Distinct(plan)
    ensures After(c, plan, start, 0) == Ok(start)
  {
    hide Slices, Exec;
    assert Slices(plan, 0)[..0] == [];
  }

  /** Torque is on the plant only after a third sample and a second control step, and never when the
      sensor period reaches the late limit the run started with. */
  lemma {:induction false} TorqueNeedsEvidence<E, P, V, X>(sc: Scenario, c: Config<E, P, V, X>, plan: set<Event>, start: Loop<E, P, V>, n: nat)
    requires ValidScenario(sc) && ScheduleFits(sc) && IsPlan(sc, plan) && ReadyToRun(sc, c, start) && n <= |Slices(plan, 0)|
    ensures match After(c, plan, start, n)
      case Ok(s) => s.applied != ZERO_INPUT ==> s.samples >= 3 && s.steps >= 2 && sc.sensorPeriod < start.timing.limits.late
      case Err(_) => true
  {
    EachSampleOnce(sc, c, plan, start, 0, n);
    AfterNothing(c, plan, start);
    EveryBoundary(sc, c, plan, start, n);
    hide Slices, ScheduleFits, IsPlan, TimingBook, TrackerBook, FrameFits, ReadyToRun;
  }

  /** Every opportunity is a step, a skip or a miss, and together they consume no more than the samples there
      were; if the sensor is no slower than the runtime, every miss discards a sample. */
  lemma {:induction false} OpportunitiesAccounted<E, P, V, X>(sc: Scenario, c: Config<E, P, V, X>, plan: set<Event>, start: Loop<E, P, V>)
    requires ValidScenario(sc) && ScheduleFits(sc) && IsPlan(sc, plan) && ReadyToRun(sc, c, start)
    ensures match After(c, plan, start, |Slices(plan, 0)|)
      case Ok(s) =>
        && s.samples == s.deliveries == SensorSampleCount(sc)
        && s.steps + s.skipped + s.missed == RuntimeOpportunityCount(sc) && s.missed == |sc.missed| && s.commits + s.revocations == s.steps + s.skipped
        && s.steps + s.skipped + s.discarded <= s.samples
        && (sc.sensorPeriod <= sc.runtimePeriod ==> s.discarded == s.missed)
      case Err(_) => true
  {
    FinalPosition(sc, c, plan, start);
    AllMissedCounted(sc);
    match After(c, plan, start, |Slices(plan, 0)|)
    case Err(_) =>
    case Ok(s) =>
      hide Slices, ScheduleFits, IsPlan, TimingBook, TrackerBook, FrameFits, Safety, InSamplePeriod, After, CountBelow;
  }

  /** A completed run has had every sample and every opportunity. */
  lemma {:induction false} FinalPosition<E, P, V, X>(sc: Scenario, c: Config<E, P, V, X>, plan: set<Event>, start: Loop<E, P, V>)
    requires ValidScenario(sc) && ScheduleFits(sc) && IsPlan(sc, plan) && ReadyToRun(sc, c, start)
    ensures ConfigValid(c)
    ensures match After(c, plan, start, |Slices(plan, 0)|)
      case Ok(s) => Book(sc, c, s, SensorSampleCount(sc), RuntimeOpportunityCount(sc)) && FreshBefore(sc, RuntimeOpportunityCount(sc))
      case Err(e) => StopsAt(sc, e)
  {
    var slices := Slices(plan, 0);
    EveryBoundary(sc, c, plan, start, |slices|);
    PlanIsRest(sc, plan);
    SlicesEnd(sc, plan, 0, 0, 0);
    assert slices[..|slices|] == slices;
    var p := Position(sc, 0, 0, |slices|);
    ConfigOf(sc, c, start);
    hide Slices, ScheduleFits, IsPlan, Book, Position, FreshBefore, StopsAt;
    match After(c, plan, start, |slices|)
    case Err(_) =>
    case Ok(s) => AllHad(sc, p.0, p.1, s.worldTime);
  }

  lemma {:induction false} AllHad(sc: Scenario, k: nat, j: nat, now: nat)
    requires ValidScenario(sc) && NextTime(sc, k, j) > sc.duration && now <= sc.duration
    requires (k > 0 ==> (k - 1) * sc.sensorPeriod <= now) && (j > 0 ==> (j - 1) * sc.runtimePeriod <= now)
    ensures k == SensorSampleCount(sc) && j == RuntimeOpportunityCount(sc)
  {
    if k > 0 { DivIs(sc.duration, sc.sensorPeriod, k - 1); }
    if j > 0 { DivIs(sc.duration, sc.runtimePeriod, j - 1); }
  }

  /** Every admitted opportunity of the scenario falls in a new sample period. */
  ghost predicate FreshEverywhere(sc: Scenario)
    requires ValidScenario(sc)
  {
    FreshBefore(sc, RuntimeOpportunityCount(sc))
  }

  /** A sensor no slower than the runtime always has a new sample. */
  lemma {:induction false} FastSensorIsFresh(sc: Scenario)
    requires ValidScenario(sc) && sc.sensorPeriod <= sc.runtimePeriod
    ensures FreshEverywhere(sc)
  {
    forall i | 0 < i < RuntimeOpportunityCount(sc) && i * sc.runtimePeriod !in sc.missed ensures FreshAt(sc, i) {
      NextMultiple(i - 1, sc.runtimePeriod);
      var q := (i - 1) * sc.runtimePeriod / sc.sensorPeriod;
      GridStart((i - 1) * sc.runtimePeriod, sc.sensorPeriod);
      GridStart(i * sc.runtimePeriod, sc.sensorPeriod);
      NextMultiple(q, sc.sensorPeriod);
      if i * sc.runtimePeriod / sc.sensorPeriod <= q { ProductStep(i * sc.runtimePeriod / sc.sensorPeriod + 1, q + 1, sc.sensorPeriod); }
    }
  }

  /** No run hits the pending-sample, missing-sample, missing-observation or commit-without-runtime errors,
      nor a discontinuity of time. A run that completes had a new sample at every admitted opportunity, and
      one that stops for a stale observation had not: without other errors it completes exactly then. */
  lemma {:induction false} StaleExactly<E, P, V, X>(sc: Scenario, c: Config<E, P, V, X>, plan: set<Event>, start: Loop<E, P, V>)
    requires ValidScenario(sc) && ScheduleFits(sc) && IsPlan(sc, plan) && ReadyToRun(sc, c, start)
    ensures match After(c, plan, start, |Slices(plan, 0)|)
      case Ok(_) => FreshEverywhere(sc)
      case Err(e) =>
        && e.EventDispatch?
        && (e.dispatch.RuntimeWithoutFreshObservation? ==> !FreshEverywhere(sc))
        && (e.dispatch.RuntimeWithoutFreshObservation? || e.dispatch.EncoderRejected? || e.dispatch.Calibration?
            || e.dispatch.Control? || e.dispatch.Velocity? || e.dispatch == World(SimulationWorld.SampleIndexOverflow))
  {
    FinalPosition(sc, c, plan, start);
    hide Slices, ScheduleFits, IsPlan, Book, FreshAt;
    match After(c, plan, start, |Slices(plan, 0)|)
    case Ok(_) =>
    case Err(e) =>
      if e.dispatch.RuntimeWithoutFreshObservation? {
        var j: nat :| StopsFor(sc, e.dispatch, j);
        WithinCount(sc.duration, sc.runtimePeriod, j);
      }
  }
}
