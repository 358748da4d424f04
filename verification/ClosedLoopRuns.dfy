/** What every slice of every run of the closed loop keeps. */
module ClosedLoopRuns {
  import opened Wrappers
  import opened MachineInts
  import opened StateEstimator
  import Recording = ObservationRecord
  import EncoderTracking
  import opened EstimatorInput
  import opened RuntimeState
  import opened RuntimeSupervisor
  import opened ControlRuntime
  import SimulationWorld
  import Plant = DynamicsModel
  import opened Scheduler
  import opened SitlRun
  import opened RunLoop
  import opened RunTimeline
  import opened ClosedLoop

  // ----- the books at a slice boundary --------------------------------------------------------

  /** Which encoder statuses the n-th sample can have: the first primes both trackers, none after it does. */
  predicate FrameFits(d: Delivered) {
    if d.index == 0 then d.frame.drive.Primed? && d.frame.reaction.Primed? else !d.frame.drive.Primed? && !d.frame.reaction.Primed?
  }

  predicate TimingBook(sc: Scenario, m: Monitor, k: nat) {
    if k == 0 then m.lastEventAt.None? && m.health.Startup?
    else
      && m.lastEventAt.Some? && m.lastEventAt.value == (k - 1) * sc.sensorPeriod
      && m.health == if k == 1 then Startup else ClassifyElapsed(m.limits, sc.sensorPeriod)
  }

  predicate TrackerBook(sc: Scenario, t: EncoderTracking.Tracker, k: nat) {
    if k == 0 then t.previous.None? else t.previous.Some? && t.previous.value.at <= (k - 1) * sc.sensorPeriod
  }

  /** The sample taken in whose period this time falls. */
  predicate InSamplePeriod(sc: Scenario, index: nat, t: int) {
    index * sc.sensorPeriod <= t < (index + 1) * sc.sensorPeriod
  }

  /** After k samples and j opportunities: what was delivered, and what is consumed. */
  ghost predicate Bookkeeping<E, P, V>(sc: Scenario, s: Loop<E, P, V>, k: nat, j: nat) {
    && s.pendingRaw.None? && s.pending.None? && s.sampleIndex == k
    && (if k == 0 then s.delivered.None? else s.delivered.Some? && s.delivered.value.index == k - 1 && FrameFits(s.delivered.value))
    && TimingBook(sc, s.timing, k) && TrackerBook(sc, s.drive, k) && TrackerBook(sc, s.reaction, k)
    && (if j == 0 then s.consumed.None?
        else s.consumed.Some? && s.consumed.value < k && InSamplePeriod(sc, s.consumed.value, (j - 1) * sc.runtimePeriod))
  }

  /** The number of samples consumed at most once each. */
  function ConsumedUpTo(c: Option<u32>): nat { if c.Some? then c.value + 1 else 0 }

  ghost predicate Counts<E, P, V>(sc: Scenario, s: Loop<E, P, V>, k: nat, j: nat) {
    && s.samples == s.deliveries == k
    && s.steps + s.skipped + s.missed == j && s.commits + s.revocations == s.steps + s.skipped
    && s.steps + s.skipped + s.discarded <= ConsumedUpTo(s.consumed)
    && s.missed == CountBelow(sc.missed, j * sc.runtimePeriod)
    && s.discarded <= s.missed && (sc.sensorPeriod <= sc.runtimePeriod ==> s.discarded == s.missed)
  }

  /** What the plant, the observer and the supervisor agree on. */
  ghost predicate Safety<E, P, V>(sc: Scenario, s: Loop<E, P, V>) {
    && s.runtime.controller.Shaped() && Consistent(s.supervision)
    && s.runtime.previousApplied == s.applied
    && (s.supervision.state.Fault? ==> s.applied == ZERO_INPUT)
    && (s.steps >= 1 ==> s.consumed.Some? && s.consumed.value >= 1)
    && (ClosedLoopState(s.supervision.state) ==> s.steps >= 1 && sc.sensorPeriod < s.timing.limits.late)
    && (s.applied != ZERO_INPUT ==>
         s.steps >= 2 && s.consumed.Some? && s.consumed.value >= 2 && sc.sensorPeriod < s.timing.limits.late)
  }

  ghost predicate Book<E, P, V, X>(sc: Scenario, c: Config<E, P, V, X>, s: Loop<E, P, V>, k: nat, j: nat) {
    ConfigValid(c) && Bookkeeping(sc, s, k, j) && Counts(sc, s, k, j) && Safety(sc, s)
  }

  // ----- the use of samples -----------------------------------------------------------------------

  /** How often a sample has been stepped on, skipped or discarded. */
  function Used<E, P, V>(s: Loop<E, P, V>): nat {
    s.steps + s.skipped + s.discarded
  }

  /** No sample is used from s to t, and the timing limits stay. */
  ghost predicate UsesNone<E, P, V>(s: Loop<E, P, V>, t: Loop<E, P, V>) {
    t.timing.limits == s.timing.limits && Used(t) == Used(s) && t.consumed == s.consumed
  }

  /** One sample is used, later than any used before, and the timing limits stay. */
  ghost predicate UsesOne<E, P, V>(s: Loop<E, P, V>, t: Loop<E, P, V>) {
    && t.timing.limits == s.timing.limits && Used(t) == Used(s) + 1
    && t.consumed.Some? && (s.consumed.Some? ==> s.consumed.value < t.consumed.value)
  }

  ghost predicate UsesAtMostOne<E, P, V>(s: Loop<E, P, V>, t: Loop<E, P, V>) {
    UsesNone(s, t) || UsesOne(s, t)
  }

  // ----- a sensor time --------------------------------------------------------------------------

  ghost function SensorSlot<E, P, V, X>(c: Config<E, P, V, X>, s: Loop<E, P, V>, at: u64): Result<Loop<E, P, V>, LoopError<X>> {
    match SampleSensor(c, s, at)
    case Err(e) => Err(e)
    case Ok(sampled) => DeliverObservation(c, sampled)
  }

  lemma HealthyIsUsable()
    ensures EncoderTracking.QualityError(HEALTHY_QUALITY).None?
  {
    assert 27 / 4 == 6 && 27 / 2 == 13 && 27 / 8 == 3 && 27 / 1 == 27;
  }

  /** A healthy reading at a new time primes a fresh tracker, and is tracked or refused, but never primes, afterwards. */
  lemma {:induction false} TrackerNext(sc: Scenario, t: EncoderTracking.Tracker, k: nat, at: u64, count: u16)
    requires sc.sensorPeriod > 0 && TrackerBook(sc, t, k) && at == k * sc.sensorPeriod
    ensures TrackerBook(sc, EncoderTracking.After(t, EncoderShows(at, count)), k + 1)
    ensures StatusOf(t, EncoderShows(at, count)).Primed? <==> k == 0
  {
    HealthyIsUsable();
    if k > 0 { NextMultiple(k - 1, sc.sensorPeriod); }
    hide EncoderTracking.QualityError, EncoderTracking.WrappedDelta;
  }

  lemma {:induction false} TimingNext(sc: Scenario, m: Monitor, k: nat, at: u64)
    requires sc.sensorPeriod > 0 && TimingBook(sc, m, k) && at == k * sc.sensorPeriod
    ensures TimingBook(sc, Observed(m, Observation.Event(at)), k + 1) && Observed(m, Observation.Event(at)).limits == m.limits
  {
    if k > 0 { NextMultiple(k - 1, sc.sensorPeriod); }
  }

  lemma {:induction false} SensorSlotKeeps<E, P, V, X>(sc: Scenario, c: Config<E, P, V, X>, s: Loop<E, P, V>, k: nat, j: nat, at: u64)
    requires sc.sensorPeriod > 0 && Book(sc, c, s, k, j) && s.worldTime == at == k * sc.sensorPeriod
    ensures match SensorSlot(c, s, at)
      case Ok(t) => Book(sc, c, t, k + 1, j) && t.worldTime == at && t.supervision == s.supervision && UsesNone(s, t)
      case Err(e) => e == World(SimulationWorld.SampleIndexOverflow) || e.Calibration?
  {
    TimingNext(sc, s.timing, k, at);
    TrackerNext(sc, s.drive, k, at, SimulationWorld.EncoderCount(DriveAngle(c, s.truth), c.driveCounts));
    TrackerNext(sc, s.reaction, k, at, SimulationWorld.EncoderCount(s.truth[7], c.reactionCounts));
    hide EncoderTracking.After, StatusOf, Observed, SimulationWorld.EncoderCount, DriveAngle, TrackerBook, TimingBook, EncoderTracking.Report, InSamplePeriod, CountBelow;
  }

  // ----- an opportunity -------------------------------------------------------------------------------

  lemma {:induction false} MissKeeps<E, P, V, X>(sc: Scenario, c: Config<E, P, V, X>, s: Loop<E, P, V>, k: nat, j: nat, at: u64)
    requires ValidScenario(sc) && Book(sc, c, s, k, j) && 0 < k && InSamplePeriod(sc, k - 1, j * sc.runtimePeriod) && j < U64_MAX
    requires at == j * sc.runtimePeriod && at in sc.missed
    ensures Book(sc, c, MissRuntime(s), k, j + 1)
    ensures MissRuntime(s).worldTime == s.worldTime && MissRuntime(s).supervision == s.supervision
    ensures if MissRuntime(s).discarded == s.discarded then UsesNone(s, MissRuntime(s)) else UsesOne(s, MissRuntime(s))
  {
    ConsumedBefore(sc, s, k, j);
    MissedAtNext(sc, at, j);
    hide TimingBook, TrackerBook, FrameFits, Consistent, CountBelow, InSamplePeriod;
    assert InSamplePeriod(sc, k - 1, (j + 1 - 1) * sc.runtimePeriod);
  }

  /** The last consumed sample is this one exactly when the two opportunities fall in one sample period. */
  lemma {:induction false} ConsumedBefore<E, P, V>(sc: Scenario, s: Loop<E, P, V>, k: nat, j: nat)
    requires Bookkeeping(sc, s, k, j) && 0 < k && InSamplePeriod(sc, k - 1, j * sc.runtimePeriod) && sc.sensorPeriod > 0
    ensures s.consumed.Some? ==> s.consumed.value <= k - 1
    ensures sc.sensorPeriod <= sc.runtimePeriod ==> s.consumed != Some(k - 1)
    ensures s.consumed == Some(k - 1) <==> j > 0 && !FreshAt(sc, j)
  {
    if j > 0 {
      NextMultiple(j - 1, sc.runtimePeriod);
      FreshMeans(sc, j, s.consumed.value, k - 1);
      NextMultiple(s.consumed.value, sc.sensorPeriod);
    }
    hide TimingBook, TrackerBook, FrameFits;
  }

  /** A sample was taken between the opportunity before this one and this one. */
  predicate FreshAt(sc: Scenario, j: nat)
    requires sc.sensorPeriod > 0
  {
    (j - 1) * sc.runtimePeriod / sc.sensorPeriod < j * sc.runtimePeriod / sc.sensorPeriod
  }

  lemma {:induction false} FreshMeans(sc: Scenario, j: nat, before: nat, now: nat)
    requires sc.sensorPeriod > 0 && InSamplePeriod(sc, before, (j - 1) * sc.runtimePeriod) && InSamplePeriod(sc, now, j * sc.runtimePeriod)
    ensures FreshAt(sc, j) <==> before < now
  {
    DivIs((j - 1) * sc.runtimePeriod, sc.sensorPeriod, before);
    DivIs(j * sc.runtimePeriod, sc.sensorPeriod, now);
  }

  ghost function AdmittedSlot<E, P, V, X>(c: Config<E, P, V, X>, s: Loop<E, P, V>): Result<Loop<E, P, V>, LoopError<X>>
    requires ConfigValid(c) && s.runtime.controller.Shaped()
  {
    match RunRuntime(c, s)
    case Err(e) => Err(e)
    case Ok(ran) => CommitActuation(ran)
  }

  /** The torque a pending actuation will put on the plant. */
  function PendingTorque(pending: Option<PendingActuation>): InputVec {
    match pending
    case Some(Apply(token)) => AppliedInput(Some(token))
    case _ => ZERO_INPUT
  }

  lemma {:induction false} SupervisedFacts(limits: WheelLimits, s: Supervision, timing: TimingHealth, estimate: Estimate)
    requires Consistent(s)
    ensures Supervised(limits, s, timing, estimate).Some?
    ensures var t := Supervised(limits, s, timing, estimate).value;
      && Consistent(t) && (s.state.Fault? ==> t.state.Fault?)
      && (ClosedLoopState(t.state) ==> ClosedLoopState(s.state) || timing.Healthy?)
      && (t.state.Fault? && ClosedLoopState(s.state) ==> !estimate.validity.Valid? || ClassifySpeed(limits, estimate.state[6]).Exhausted?)
  {
    hide ClassifySpeed;
  }

  /** Only these fields change in a control step. */
  ghost predicate SameElsewhere<E, P, V>(s: Loop<E, P, V>, t: Loop<E, P, V>) {
    && t.truth == s.truth && t.applied == s.applied && t.worldTime == s.worldTime && t.sampleIndex == s.sampleIndex
    && t.timing == s.timing && t.drive == s.drive && t.reaction == s.reaction
    && t.pendingRaw == s.pendingRaw && t.delivered == s.delivered
    && t.samples == s.samples && t.deliveries == s.deliveries && t.skipped == s.skipped && t.missed == s.missed
    && t.discarded == s.discarded && t.commits == s.commits && t.revocations == s.revocations
  }

  /** What a control step on a frame does to the loop. */
  ghost predicate Stepped<E, P, V>(s: Loop<E, P, V>, t: Loop<E, P, V>, index: u32) {
    && SameElsewhere(s, t) && t.consumed == Some(index) && t.steps == Up(s.steps)
    && t.runtime.controller.Shaped() && t.pending.Some? && t.runtime.previousApplied == PendingTorque(t.pending)
    && (t.pending.value.Apply? ==> ClosedLoopState(s.supervision.state))
    && Consistent(t.supervision) && (s.supervision.state.Fault? ==> t.supervision.state.Fault?)
    && (ClosedLoopState(t.supervision.state) ==> ClosedLoopState(s.supervision.state) || s.timing.health.Healthy?)
    && (t.supervision.state.Fault? ==> t.pending.value.Revoke?)
  }

  lemma {:induction false} AfterStepFacts<E, P, V, X>(c: Config<E, P, V, X>, s: Loop<E, P, V>, result: StepResult, index: u32)
    requires Consistent(s.supervision) && s.runtime.controller.Shaped() && s.consumed == Some(index)
    requires s.runtime.previousApplied == AppliedInput(result.authorized)
    requires result.authorized.Some? ==> ClosedLoopState(s.supervision.state) && result.estimate.validity.Valid?
    requires result.authorized.Some? ==> !ClassifySpeed(c.design.limits, result.estimate.state[6]).Exhausted?
    ensures match AfterStep(c, s, result)
      case Ok(t) => Stepped(s, t, index)
      case Err(e) => e.Velocity?
  {
    SupervisedFacts(c.design.limits, s.supervision, s.timing.health, result.estimate);
    hide Supervised, ClassifySpeed, Consistent;
  }

  lemma {:induction false} StepOnFacts<E, P, V, X>(c: Config<E, P, V, X>, s: Loop<E, P, V>, index: u32, frame: Frame)
    requires ConfigValid(c) && s.runtime.controller.Shaped() && Consistent(s.supervision)
    ensures match StepOn(c, s, index, frame)
      case Ok(t) => Stepped(s, t, index)
      case Err(e) => e.Velocity? || e.Control?
  {
    var input := StepInputOf(c, s, frame);
    StepKeeps(c.design, s.runtime, input);
    AuthorizedTorque(c.design, s.runtime, input);
    var (runtime, result) := Step(c.design, s.runtime, input);
    assert input.state == s.supervision.state;
    if result.Ok? {
      assert StepKept(c.design, s.runtime, runtime, input, result.value);
      hide Step, AfterStep, Integrated, AttemptWith, Law, Evaluate, StepInputOf;
      var consumed := s.(consumed := Some(index), runtime := runtime);
      AfterStepFacts(c, consumed, result.value, index);
      hide Stepped;
      SteppedFrom(s, consumed, c, result.value, index);
    }
  }

  lemma {:induction false} SteppedFrom<E, P, V, X>(s: Loop<E, P, V>, consumed: Loop<E, P, V>, c: Config<E, P, V, X>, result: StepResult, index: u32)
    requires consumed == s.(consumed := Some(index), runtime := consumed.runtime)
    ensures forall t | Stepped(consumed, t, index) :: Stepped(s, t, index)
  {}

  /** How an admitted opportunity and its commit leave the loop. */
  ghost predicate OpportunityKept<E, P, V, X>(sc: Scenario, c: Config<E, P, V, X>, s: Loop<E, P, V>, k: nat, j: nat, t: Loop<E, P, V>) {
    && Book(sc, c, t, k, j + 1) && t.worldTime == s.worldTime && UsesOne(s, t)
    && (s.supervision.state.Fault? ==> t.supervision.state.Fault?)
  }

  lemma {:induction false} StepSlotKeeps<E, P, V, X>(sc: Scenario, c: Config<E, P, V, X>, s: Loop<E, P, V>, k: nat, j: nat, u: Loop<E, P, V>, t: Loop<E, P, V>, at: u64)
    requires ValidScenario(sc) && Book(sc, c, s, k, j) && 0 < k && InSamplePeriod(sc, k - 1, j * sc.runtimePeriod) && j < U64_MAX
    requires at == j * sc.runtimePeriod && at !in sc.missed
    requires s.consumed != Some(k - 1) && k - 1 > 0 && Stepped(s, u, k - 1)
    requires CommitActuation<E, P, V, X>(u) == Ok(t)
    ensures OpportunityKept(sc, c, s, k, j, t)
  {
    ConsumedBefore(sc, s, k, j);
    MissedAtNext(sc, at, j);
    HealthyMeans(sc, s.timing, k);
    hide TimingBook, TrackerBook, FrameFits, Consistent, InSamplePeriod, ClosedLoopState, CountBelow;
  }

  lemma {:induction false} HealthyMeans(sc: Scenario, m: Monitor, k: nat)
    requires TimingBook(sc, m, k)
    ensures m.health.Healthy? ==> k >= 2 && sc.sensorPeriod < m.limits.late
  {}

  lemma {:induction false} SkipSlotKeeps<E, P, V, X>(sc: Scenario, c: Config<E, P, V, X>, s: Loop<E, P, V>, k: nat, j: nat, t: Loop<E, P, V>, at: u64)
    requires ValidScenario(sc) && Book(sc, c, s, k, j) && 0 < k && InSamplePeriod(sc, k - 1, j * sc.runtimePeriod) && j < U64_MAX
    requires at == j * sc.runtimePeriod && at !in sc.missed
    requires s.consumed != Some(k - 1) && k - 1 == 0
    requires CommitActuation<E, P, V, X>(s.(consumed := Some(0), skipped := Up(s.skipped), pending := Some(Revoke))) == Ok(t)
    ensures OpportunityKept(sc, c, s, k, j, t)
  {
    ConsumedBefore(sc, s, k, j);
    MissedAtNext(sc, at, j);
    hide TimingBook, TrackerBook, FrameFits, Consistent, InSamplePeriod, ClosedLoopState, CountBelow;
  }

  /** Errors the world, the calibration, the control step, the velocity loop and the encoders may raise;
      a stale observation only where no sample was taken since the last opportunity. */
  predicate Excused<X>(sc: Scenario, e: LoopError<X>, j: nat)
    requires sc.sensorPeriod > 0
  {
    || e == World(SimulationWorld.SampleIndexOverflow) || e.Calibration? || e.Control? || e.Velocity? || e.EncoderRejected?
    || (e.RuntimeWithoutFreshObservation? && j > 0 && !FreshAt(sc, j))
  }

  /** What an admitted opportunity can find. */
  lemma {:induction false} AdmitCases<E, P, V, X>(sc: Scenario, s: Loop<E, P, V>, k: nat, j: nat)
    requires Bookkeeping(sc, s, k, j) && k > 0
    ensures match Admit<E, P, V, X>(s)
      case Refuse(e) => e.EncoderRejected? || (e.RuntimeWithoutFreshObservation? && s.consumed == Some(k - 1))
      case Skip(index) => index == 0 && k == 1 && s.consumed != Some(k - 1)
      case Proceed(index, _) => index == k - 1 && k > 1 && s.consumed != Some(k - 1)
  {
    hide TimingBook, TrackerBook, InSamplePeriod;
  }

  lemma {:induction false} AdmittedSlotIs<E, P, V, X>(c: Config<E, P, V, X>, s: Loop<E, P, V>)
    requires ConfigValid(c) && s.runtime.controller.Shaped()
    ensures AdmittedSlot(c, s) == match Admit<E, P, V, X>(s)
      case Refuse(e) => Err(e)
      case Skip(index) => CommitActuation(s.(consumed := Some(index), skipped := Up(s.skipped), pending := Some(Revoke)))
      case Proceed(index, frame) =>
        match StepOn(c, s, index, frame)
        case Err(e) => Err(e)
        case Ok(u) => CommitActuation(u)
  {
    hide Admit, StepOn, CommitActuation;
  }

  /** How an admitted opportunity leaves the loop, or fails. */
  ghost predicate AdmittedKept<E, P, V, X>(sc: Scenario, c: Config<E, P, V, X>, s: Loop<E, P, V>, k: nat, j: nat, r: Result<Loop<E, P, V>, LoopError<X>>)
    requires sc.sensorPeriod > 0
  {
    match r
    case Ok(t) => OpportunityKept(sc, c, s, k, j, t) && (j > 0 ==> FreshAt(sc, j))
    case Err(e) => Excused(sc, e, j)
  }

  lemma {:induction false} SkipKeeps<E, P, V, X>(sc: Scenario, c: Config<E, P, V, X>, s: Loop<E, P, V>, k: nat, j: nat, at: u64)
    requires ValidScenario(sc) && Book(sc, c, s, k, j) && 0 < k && InSamplePeriod(sc, k - 1, j * sc.runtimePeriod) && j < U64_MAX
    requires at == j * sc.runtimePeriod && at !in sc.missed
    requires s.consumed != Some(k - 1) && k - 1 == 0
    ensures AdmittedKept(sc, c, s, k, j, CommitActuation(s.(consumed := Some(0), skipped := Up(s.skipped), pending := Some(Revoke))))
  {
    ConsumedBefore(sc, s, k, j);
    hide Book, OpportunityKept, FreshAt, InSamplePeriod, ValidScenario;
    SkipSlotKeeps(sc, c, s, k, j, CommitActuation<E, P, V, X>(s.(consumed := Some(0), skipped := Up(s.skipped), pending := Some(Revoke))).value, at);
  }

  lemma {:induction false} StepKeepsSlot<E, P, V, X>(sc: Scenario, c: Config<E, P, V, X>, s: Loop<E, P, V>, k: nat, j: nat, u: Loop<E, P, V>, at: u64)
    requires ValidScenario(sc) && Book(sc, c, s, k, j) && 0 < k && InSamplePeriod(sc, k - 1, j * sc.runtimePeriod) && j < U64_MAX
    requires at == j * sc.runtimePeriod && at !in sc.missed
    requires s.consumed != Some(k - 1) && k - 1 > 0 && Stepped(s, u, k - 1)
    ensures AdmittedKept(sc, c, s, k, j, CommitActuation(u))
  {
    ConsumedBefore(sc, s, k, j);
    SteppedPends(s, u, k - 1);
    hide Book, Stepped, OpportunityKept, FreshAt, InSamplePeriod, ValidScenario;
    StepSlotKeeps(sc, c, s, k, j, u, CommitActuation<E, P, V, X>(u).value, at);
  }

  lemma {:induction false} AdmittedSlotKeeps<E, P, V, X>(sc: Scenario, c: Config<E, P, V, X>, s: Loop<E, P, V>, k: nat, j: nat, at: u64)
    requires ValidScenario(sc) && Book(sc, c, s, k, j) && 0 < k && InSamplePeriod(sc, k - 1, j * sc.runtimePeriod) && j < U64_MAX
    requires at == j * sc.runtimePeriod && at !in sc.missed
    ensures AdmittedKept(sc, c, s, k, j, AdmittedSlot(c, s))
  {
    ConsumedBefore(sc, s, k, j);
    AdmitCases<E, P, V, X>(sc, s, k, j);
    hide Admit, CommitActuation, AdmittedSlot, OpportunityKept, Stepped, StepOn, InSamplePeriod, FreshAt;
    AdmittedSlotIs(c, s);
    match Admit<E, P, V, X>(s)
    case Refuse(_) =>
    case Skip(_) =>
      hide AdmittedKept, Bookkeeping, Counts, Excused;
      SkipKeeps(sc, c, s, k, j, at);
    case Proceed(index, frame) =>
      StepOnFacts(c, s, index, frame);
      match StepOn(c, s, index, frame)
      case Err(_) =>
      case Ok(u) =>
        hide AdmittedKept, Bookkeeping, Counts, Excused;
        StepKeepsSlot(sc, c, s, k, j, u, at);
  }

  lemma {:induction false} SteppedPends<E, P, V>(s: Loop<E, P, V>, u: Loop<E, P, V>, index: u32)
    requires Stepped(s, u, index)
    ensures u.pending.Some? && u.runtime.controller.Shaped()
  {}

  // ----- one slice ---------------------------------------------------------------------------------------

  /** The loop as the scheduler drives it. */
  ghost function Exec<E, P, V, X>(c: Config<E, P, V, X>): Execution<Loop<E, P, V>, LoopError<X>>
    requires ConfigValid(c)
  {
    Execution((s: Loop<E, P, V>, from, to) => AdvanceWorld(c, s, from, to),
              (s: Loop<E, P, V>, e: Event) => if s.runtime.controller.Shaped() then Dispatch(c, s, e.at, e.kind) else Ok(s))
  }

  ghost function DispatchKinds<E, P, V, X>(c: Config<E, P, V, X>, s: Loop<E, P, V>, at: u64, kinds: seq<EventKind>): Result<Loop<E, P, V>, LoopError<X>>
    requires ConfigValid(c)
    decreases |kinds|
  {
    if |kinds| == 0 then Ok(s)
    else if !s.runtime.controller.Shaped() then DispatchKinds(c, s, at, kinds[1..])
    else
      match Dispatch(c, s, at, kinds[0])
      case Err(e) => Err(e)
      case Ok(t) => DispatchKinds(c, t, at, kinds[1..])
  }

  ghost function AsRunError<S, X>(r: Result<S, X>): Result<S, RunError<X>> {
    match r case Ok(s) => Ok(s) case Err(e) => Err(EventDispatch(e))
  }

  lemma {:induction false} DispatchByKinds<E, P, V, X>(c: Config<E, P, V, X>, s: Loop<E, P, V>, at: u64, l: seq<Event>)
    requires ConfigValid(c) && forall i | 0 <= i < |l| :: l[i].at == at
    ensures DispatchAll(Exec(c), s, l) == AsRunError(DispatchKinds(c, s, at, KindsOf(l)))
    decreases |l|
  {
    hide Dispatch;
    if |l| > 0 {
      assert KindsOf(l)[1..] == KindsOf(l[1..]);
      match Exec(c).dispatch(s, l[0])
      case Err(_) =>
      case Ok(t) => DispatchByKinds(c, t, at, l[1..]);
    }
  }

  lemma {:induction false} DispatchJoin<E, P, V, X>(c: Config<E, P, V, X>, s: Loop<E, P, V>, at: u64, a: seq<EventKind>, b: seq<EventKind>)
    requires ConfigValid(c)
    ensures DispatchKinds(c, s, at, a + b) == match DispatchKinds(c, s, at, a)
      case Err(e) => Err(e)
      case Ok(t) => DispatchKinds(c, t, at, b)
    decreases |a|
  {
    hide Dispatch;
    if |a| == 0 {
      assert a + b == b;
    } else {
      assert (a + b)[1..] == a[1..] + b;
      if !s.runtime.controller.Shaped() {
        DispatchJoin(c, s, at, a[1..], b);
      } else {
        match Dispatch(c, s, at, a[0])
        case Err(_) =>
        case Ok(t) => DispatchJoin(c, t, at, a[1..], b);
      }
    }
  }

  /** More events of a slice that has come this far. */
  ghost function DispatchOn<E, P, V, X>(c: Config<E, P, V, X>, r: Result<Loop<E, P, V>, LoopError<X>>, at: u64, kinds: seq<EventKind>): Result<Loop<E, P, V>, LoopError<X>>
    requires ConfigValid(c)
  {
    match r case Err(e) => Err(e) case Ok(t) => DispatchKinds(c, t, at, kinds)
  }

  lemma {:induction false} DispatchTwo<E, P, V, X>(c: Config<E, P, V, X>, s: Loop<E, P, V>, at: u64, a: EventKind, b: EventKind)
    requires ConfigValid(c) && s.runtime.controller.Shaped()
    ensures DispatchKinds(c, s, at, [a]) == Dispatch(c, s, at, a)
    ensures DispatchKinds(c, s, at, [a, b]) == DispatchOn(c, Dispatch(c, s, at, a), at, [b])
  {
    hide Dispatch;
    assert [a][1..] == [] && [a, b][1..] == [b];
    match Dispatch(c, s, at, a)
    case Err(_) =>
    case Ok(t) => assert DispatchKinds(c, t, at, []) == Ok(t);
  }

  lemma {:induction false} SensorKinds<E, P, V, X>(c: Config<E, P, V, X>, s: Loop<E, P, V>, at: u64)
    requires ConfigValid(c) && s.runtime.controller.Shaped()
    ensures DispatchKinds(c, s, at, [SensorSample, ObservationDelivery]) == SensorSlot(c, s, at)
  {
    DispatchTwo(c, s, at, SensorSample, ObservationDelivery);
    hide DispatchKinds, DeliverObservation, SimulationWorld.EncoderCount, Observed;
    match SampleSensor(c, s, at)
    case Err(_) =>
    case Ok(t) => DispatchTwo(c, t, at, ObservationDelivery, ObservationDelivery);
  }

  lemma {:induction false} AdmittedKinds<E, P, V, X>(c: Config<E, P, V, X>, s: Loop<E, P, V>, at: u64)
    requires ConfigValid(c) && s.runtime.controller.Shaped()
    requires RunRuntime(c, s).Ok? ==> RunRuntime(c, s).value.runtime.controller.Shaped()
    ensures DispatchKinds(c, s, at, [ProductionRuntime, ActuationCommit]) == AdmittedSlot(c, s)
  {
    DispatchTwo(c, s, at, ProductionRuntime, ActuationCommit);
    hide DispatchKinds, RunRuntime;
    match RunRuntime(c, s)
    case Err(_) =>
    case Ok(t) => DispatchTwo(c, t, at, ActuationCommit, ActuationCommit);
  }

  lemma {:induction false} RunKeepsShape<E, P, V, X>(c: Config<E, P, V, X>, s: Loop<E, P, V>)
    requires ConfigValid(c) && s.runtime.controller.Shaped() && Consistent(s.supervision)
    ensures RunRuntime(c, s).Ok? ==> RunRuntime(c, s).value.runtime.controller.Shaped()
  {
    hide Stepped, StepOn;
    match Admit<E, P, V, X>(s)
    case Refuse(_) =>
    case Skip(_) =>
    case Proceed(index, frame) =>
      StepOnFacts(c, s, index, frame);
      if StepOn(c, s, index, frame).Ok? { SteppedPends(s, StepOn(c, s, index, frame).value, index); }
  }

  // ----- slices ---------------------------------------------------------------------------------------------

  function SensorPartOf(sc: Scenario, t: u64): seq<EventKind>
    requires sc.sensorPeriod > 0
  {
    if t % sc.sensorPeriod == 0 then [SensorSample, ObservationDelivery] else []
  }

  function RuntimePartOf(sc: Scenario, t: u64): seq<EventKind>
    requires sc.runtimePeriod > 0
  {
    if t % sc.runtimePeriod != 0 then []
    else if t in sc.missed then [RuntimeOpportunityMissed] else [ProductionRuntime, ActuationCommit]
  }

  lemma {:induction false} KindsSplit(sc: Scenario, t: u64)
    requires ValidScenario(sc)
    ensures Kinds(sc, t) == (if t == 0 then [ScenarioStart] else []) + (SensorPartOf(sc, t) + RuntimePartOf(sc, t))
  {}

  /** How a slice leaves the loop, or fails. */
  ghost predicate SliceKept<E, P, V, X>(sc: Scenario, c: Config<E, P, V, X>, s: Loop<E, P, V>, k: nat, j: nat, to: u64, r: Result<Loop<E, P, V>, LoopError<X>>)
    requires sc.sensorPeriod > 0
  {
    match r
    case Ok(t) =>
      && Book(sc, c, t, NextSamples(sc, k, j), NextOpportunities(sc, k, j)) && t.worldTime == to
      && (s.supervision.state.Fault? ==> t.supervision.state.Fault?) && UsesAtMostOne(s, t)
      && (j > 0 && to == j * sc.runtimePeriod && to !in sc.missed ==> FreshAt(sc, j))
    case Err(e) => Excused(sc, e, j) && (e.RuntimeWithoutFreshObservation? ==> to == j * sc.runtimePeriod && to !in sc.missed)
  }

  /** How the sensor events of a slice leave the loop, or fail. */
  ghost predicate SensorPartKept<E, P, V, X>(sc: Scenario, c: Config<E, P, V, X>, s: Loop<E, P, V>, k: nat, j: nat, t: u64, r: Result<Loop<E, P, V>, LoopError<X>>)
    requires sc.sensorPeriod > 0
  {
    match r
    case Ok(u) => Book(sc, c, u, NextSamples(sc, k, j), j) && u.worldTime == t && u.supervision == s.supervision && UsesNone(s, u)
    case Err(e) => Excused(sc, e, j) && !e.RuntimeWithoutFreshObservation?
  }

  lemma {:induction false} SensorPartKeeps<E, P, V, X>(sc: Scenario, c: Config<E, P, V, X>, s: Loop<E, P, V>, k: nat, j: nat, t: u64)
    requires ValidScenario(sc) && Standing(sc, k, j) && t == NextTime(sc, k, j) && Book(sc, c, s, k, j) && s.worldTime == t
    ensures SensorPartKept(sc, c, s, k, j, t, DispatchKinds(c, s, t, SensorPartOf(sc, t)))
  {
    OnTime(sc, k, j);
    hide Bookkeeping, Counts, FreshAt, Standing, Dispatch, SensorSlot;
    if t % sc.sensorPeriod == 0 {
      SensorKinds(c, s, t);
      SensorSlotKeeps(sc, c, s, k, j, t);
    }
  }

  lemma {:induction false} RuntimePartKeeps<E, P, V, X>(sc: Scenario, c: Config<E, P, V, X>, s: Loop<E, P, V>, k: nat, j: nat, t: u64)
    requires ValidScenario(sc) && Standing(sc, k, j) && t == NextTime(sc, k, j) && j < U64_MAX
    requires Book(sc, c, s, NextSamples(sc, k, j), j) && s.worldTime == t
    ensures SliceKept(sc, c, s, k, j, t, DispatchKinds(c, s, t, RuntimePartOf(sc, t)))
  {
    OnTime(sc, k, j);
    NextMultiple(k, sc.sensorPeriod);
    if k > 0 { NextMultiple(k - 1, sc.sensorPeriod); }
    var samples := NextSamples(sc, k, j);
    if t % sc.runtimePeriod == 0 {
      assert InSamplePeriod(sc, samples - 1, j * sc.runtimePeriod);
      hide Bookkeeping, Counts, FreshAt, Dispatch, InSamplePeriod;
      if t in sc.missed {
        MissKeeps(sc, c, s, samples, j, t);
        DispatchMissed(c, s, t);
      } else {
        AdmittedSlotKeeps(sc, c, s, samples, j, t);
        RunKeepsShape(c, s);
        AdmittedKinds(c, s, t);
        hide AdmittedSlot;
      }
    }
  }

  lemma {:induction false} DispatchMissed<E, P, V, X>(c: Config<E, P, V, X>, s: Loop<E, P, V>, at: u64)
    requires ConfigValid(c) && s.runtime.controller.Shaped()
    ensures DispatchKinds(c, s, at, [RuntimeOpportunityMissed]) == Ok(MissRuntime(s))
    ensures DispatchKinds(c, s, at, [ScenarioStart]) == Ok(s)
  {
    DispatchTwo(c, s, at, RuntimeOpportunityMissed, RuntimeOpportunityMissed);
    DispatchTwo(c, s, at, ScenarioStart, ScenarioStart);
    hide DispatchKinds, MissRuntime;
  }

  lemma {:induction false} KindsKeep<E, P, V, X>(sc: Scenario, c: Config<E, P, V, X>, s: Loop<E, P, V>, k: nat, j: nat, t: u64)
    requires ValidScenario(sc) && Standing(sc, k, j) && t == NextTime(sc, k, j) && j < U64_MAX
    requires Book(sc, c, s, k, j) && s.worldTime == t
    ensures SliceKept(sc, c, s, k, j, t, DispatchKinds(c, s, t, Kinds(sc, t)))
  {
    KindsSplit(sc, t);
    DispatchMissed(c, s, t);
    DispatchJoin(c, s, t, if t == 0 then [ScenarioStart] else [], SensorPartOf(sc, t) + RuntimePartOf(sc, t));
    DispatchJoin(c, s, t, SensorPartOf(sc, t), RuntimePartOf(sc, t));
    SensorPartKeeps(sc, c, s, k, j, t);
    assert DispatchKinds(c, s, t, []) == Ok(s);
    hide Kinds, Bookkeeping, Counts, FreshAt, Dispatch, DispatchKinds, SensorPartOf, RuntimePartOf, Standing;
    match DispatchKinds(c, s, t, SensorPartOf(sc, t))
    case Err(_) =>
    case Ok(u) =>
      RuntimePartKeeps(sc, c, u, k, j, t);
      SliceKeptFrom(sc, c, s, u, k, j, t, DispatchKinds(c, u, t, RuntimePartOf(sc, t)));
  }

  /** Physical time does not touch the books. */
  lemma {:induction false} WorldAlone<E, P, V, X>(sc: Scenario, c: Config<E, P, V, X>, s: Loop<E, P, V>, k: nat, j: nat, truth: SimulationWorld.Truth, time: u64)
    requires Book(sc, c, s, k, j)
    ensures Book(sc, c, s.(truth := truth, worldTime := time), k, j)
  {
    hide TimingBook, TrackerBook, FrameFits, Consistent, InSamplePeriod, ClosedLoopState, CountBelow;
  }

  lemma {:induction false} SliceKeeps<E, P, V, X>(sc: Scenario, c: Config<E, P, V, X>, s: Loop<E, P, V>, k: nat, j: nat, from: u64, to: u64)
    requires ValidScenario(sc) && ScheduleFits(sc) && Standing(sc, k, j) && to == NextTime(sc, k, j) && to <= sc.duration && j < U64_MAX
    requires Book(sc, c, s, k, j) && s.worldTime == from && from <= to
    ensures match PlaySlice(Exec(c), s, Slice(from, to, EventsAt(sc, to)))
      case Ok(t) => SliceKept(sc, c, s, k, j, to, Ok(t))
      case Err(e) => e.EventDispatch? && SliceKept(sc, c, s, k, j, to, Err(e.dispatch))
  {
    var truth := SimulationWorld.Advanced(Plant.PlantOf(Plant.EntriesOf(c.plant)), s.applied, s.truth, to - from);
    var moved := if to > from then s.(truth := truth, worldTime := to) else s;
    hide Kinds, Book, DispatchKinds, Standing, FreshAt, Excused, DispatchAll, ScheduleFits, SliceKept, EventsAt, PlaySlice;
    WorldAlone(sc, c, s, k, j, truth, to);
    KindsKeep(sc, c, moved, k, j, to);
    PlaySliceIs(sc, c, s, from, to, moved);
    SliceKeptFrom(sc, c, s, moved, k, j, to, DispatchKinds(c, moved, to, Kinds(sc, to)));
  }

  lemma {:induction false} PlaySliceIs<E, P, V, X>(sc: Scenario, c: Config<E, P, V, X>, s: Loop<E, P, V>, from: u64, to: u64, moved: Loop<E, P, V>)
    requires ValidScenario(sc) && ScheduleFits(sc) && to <= sc.duration && ConfigValid(c) && s.worldTime == from && from <= to
    requires moved == if to > from
      then s.(truth := SimulationWorld.Advanced(Plant.PlantOf(Plant.EntriesOf(c.plant)), s.applied, s.truth, to - from), worldTime := to) else s
    ensures PlaySlice(Exec(c), s, Slice(from, to, EventsAt(sc, to))) == AsRunError(DispatchKinds(c, moved, to, Kinds(sc, to)))
  {
    ListedKinds(sc, to);
    var l := EventsAt(sc, to);
    hide Kinds, InsertionOf, DispatchKinds, DispatchAll, KindsOf, PlaySlice, SimulationWorld.Advanced, ScheduleFits, Exec;
    assert forall i | 0 <= i < |l| :: l[i].at == to;
    hide EventsAt;
    DispatchByKinds(c, moved, to, l);
    PlayMoves(c, s, from, to, moved, l);
  }

  /** A slice first moves the world, if there is time to move it over, and then dispatches. */
  lemma {:induction false} PlayMoves<E, P, V, X>(c: Config<E, P, V, X>, s: Loop<E, P, V>, from: u64, to: u64, moved: Loop<E, P, V>, l: seq<Event>)
    requires ConfigValid(c) && s.worldTime == from && from <= to
    requires moved == if to > from
      then s.(truth := SimulationWorld.Advanced(Plant.PlantOf(Plant.EntriesOf(c.plant)), s.applied, s.truth, to - from), worldTime := to) else s
    ensures PlaySlice(Exec(c), s, Slice(from, to, l)) == DispatchAll(Exec(c), moved, l)
  {
    hide DispatchAll, Dispatch, SimulationWorld.Advanced;
  }

  lemma {:induction false} SliceKeptFrom<E, P, V, X>(sc: Scenario, c: Config<E, P, V, X>, s: Loop<E, P, V>, moved: Loop<E, P, V>, k: nat, j: nat, to: u64, r: Result<Loop<E, P, V>, LoopError<X>>)
    requires sc.sensorPeriod > 0 && moved.supervision == s.supervision && UsesNone(s, moved) && SliceKept(sc, c, moved, k, j, to, r)
    ensures SliceKept(sc, c, s, k, j, to, r)
  {
    hide Book, FreshAt, Excused;
  }
}
