/** The closed loop of simulated world and production path: what each scheduled event does. */
module ClosedLoop {
  import opened Wrappers
  import opened MachineInts
  import opened LinearAlgebra
  import Recording = ObservationRecord
  import opened StateEstimator
  import opened DynamicsModel
  import EncoderTracking
  import opened EstimatorInput
  import opened RuntimeState
  import opened RuntimeSupervisor
  import opened ControlRuntime
  import SimulationWorld
  import opened Scheduler

  /** Available, transferred, timing valid, fresh. */
  const HEALTHY_QUALITY: u16 := 27

  /** What is fixed for a run. P is the IMU's register image, V the velocity loop's state; sampling,
      calibration and the velocity loop's arithmetic are given as total functions. */
  datatype Config<!E, !P, !V, !X> = Config(
    plant: Upright,
    driveCounts: u32, reactionCounts: u32,
    sense: (SimulationWorld.Truth, InputVec) -> P,
    toBody: P -> Result<BodyImuObservation, X>,
    design: Design<E>,
    velocity: (V, StateVec, bool) -> Result<(V, StateVec), X>,
    resetVelocity: V -> V,
    wheelRadius: real,
    decimation: u32)

  predicate ConfigValid<E, P, V, X>(c: Config<E, P, V, X>) {
    c.wheelRadius > 0.0 && c.decimation > 0
  }

  datatype Raw<P> = Raw(index: u32, imu: P, drive: Recording.Encoder, reaction: Recording.Encoder)

  datatype Delivered = Delivered(index: u32, frame: Frame)

  datatype PendingActuation = Apply(token: AuthorizedActuation) | Revoke

  datatype LoopError<X> =
    | World(world: SimulationWorld.WorldError)
    | Calibration(calibration: X)
    | Control(control: RuntimeError)
    | Velocity(velocity: X)
    | Transition(transition: TransitionError)
    | SampleAlreadyPending
    | DeliveryWithoutSample
    | RuntimeWithoutObservation
    | RuntimeWithoutFreshObservation(index: u32)
    | EncoderRejected
    | CommitWithoutRuntime

  datatype Loop<E, P, V> = Loop(
    // the physical side
    truth: SimulationWorld.Truth, applied: InputVec, worldTime: u64, sampleIndex: u32,
    // the production path
    supervision: Supervision, timing: Monitor, drive: EncoderTracking.Tracker, reaction: EncoderTracking.Tracker,
    runtime: Runtime<E>, velocity: V, reference: StateVec, lastEstimate: StateVec,
    // between the events
    pendingRaw: Option<Raw<P>>, delivered: Option<Delivered>, consumed: Option<u32>, pending: Option<PendingActuation>,
    outerDivider: u32,
    // the counts
    samples: u64, deliveries: u64, steps: u64, skipped: u64, missed: u64, discarded: u64, commits: u64, revocations: u64)

  function Up(n: u64): u64 { if n == U64_MAX then n else n + 1 }

  function UpDivider(n: u32): u32 { if n == U32_MAX then n else n + 1 }

  const ORIGIN: StateVec := [0.0, 0.0, 0.0, 0.0, 0.0, 0.0, 0.0]

  function Initial<E, P, V>(truth: SimulationWorld.Truth, estimator: E, controller: Controller, velocity: V,
                            drive: EncoderTracking.EncoderTransfer, reaction: EncoderTracking.EncoderTransfer, limits: TimingLimits): Loop<E, P, V>
  {
    Loop(truth, ZERO_INPUT, 0, 0, INITIAL, NewMonitor(limits, 0), EncoderTracking.Tracker(drive, None, 0), EncoderTracking.Tracker(reaction, None, 0),
         Runtime(estimator, controller, ZERO_INPUT), velocity, ORIGIN, ORIGIN, None, None, None, None, 0, 0, 0, 0, 0, 0, 0, 0, 0)
  }

  // ----- arming -----------------------------------------------------------------------------

  function Armed(s: Supervision): Option<Supervision> {
    if Commanded(s, BootComplete).None? then None
    else
      var checking := After(s, BootComplete);
      if Commanded(checking, HardwareCheckPassed).None? then None
      else
        var standby := After(checking, HardwareCheckPassed);
        if Commanded(standby, RequestBalance).None? then None else Some(After(standby, RequestBalance))
  }

  function ArmBalance<E, P, V, X>(c: Config<E, P, V, X>, s: Loop<E, P, V>): Result<Loop<E, P, V>, LoopError<X>> {
    match Armed(s.supervision)
    case None => Err(Transition(InvalidTransition))
    case Some(supervision) =>
      Ok(s.(supervision := supervision,
            drive := EncoderTracking.Tracker(s.drive.transfer, None, 0), reaction := EncoderTracking.Tracker(s.reaction.transfer, None, 0),
            velocity := c.resetVelocity(s.velocity), reference := ORIGIN, applied := ZERO_INPUT))
  }

  /** Arming succeeds exactly from power-up without a fault, and then waits in the capture window. */
  lemma {:induction false} ArmsExactly(s: Supervision)
    ensures Armed(s) == if s.state.Boot? && s.faults == {} then Some(Supervision(CaptureWindow, {})) else None
  {}

  // ----- the events ------------------------------------------------------------------------------

  function DriveAngle<E, P, V, X>(c: Config<E, P, V, X>, x: SimulationWorld.Truth): real {
    x[0] / c.plant.wheelRadius - x[2]
  }

  function EncoderShows(at: u64, count: u16): Recording.Encoder {
    Recording.Encoder(Recording.Known(at), count, HEALTHY_QUALITY)
  }

  function SampleSensor<E, P, V, X>(c: Config<E, P, V, X>, s: Loop<E, P, V>, at: u64): Result<Loop<E, P, V>, LoopError<X>> {
    if s.pendingRaw.Some? then Err(SampleAlreadyPending)
    else if at != s.worldTime then Err(World(SimulationWorld.SampleTimeMismatch(s.worldTime, at)))
    else if s.sampleIndex == U32_MAX then Err(World(SimulationWorld.SampleIndexOverflow))
    else
      var raw := Raw(s.sampleIndex, c.sense(s.truth, s.applied),
                     EncoderShows(at, SimulationWorld.EncoderCount(DriveAngle(c, s.truth), c.driveCounts)),
                     EncoderShows(at, SimulationWorld.EncoderCount(s.truth[7], c.reactionCounts)));
      Ok(s.(sampleIndex := s.sampleIndex + 1, timing := Observed(s.timing, Observation.Event(at)), pendingRaw := Some(raw), samples := Up(s.samples)))
  }

  function DeliverObservation<E, P, V, X>(c: Config<E, P, V, X>, s: Loop<E, P, V>): Result<Loop<E, P, V>, LoopError<X>> {
    match s.pendingRaw
    case None => Err(DeliveryWithoutSample)
    case Some(raw) =>
      match c.toBody(raw.imu)
      case Err(x) => Err(Calibration(x))
      case Ok(imu) =>
        var frame := BuiltFrame(imu, s.drive, raw.drive, s.reaction, raw.reaction);
        Ok(s.(pendingRaw := None, drive := EncoderTracking.After(s.drive, raw.drive), reaction := EncoderTracking.After(s.reaction, raw.reaction),
              delivered := Some(Delivered(raw.index, frame)), deliveries := Up(s.deliveries)))
  }

  function StepInputOf<E, P, V, X>(c: Config<E, P, V, X>, s: Loop<E, P, V>, frame: Frame): StepInput
    requires c.wheelRadius > 0.0
  {
    StepInput(frame.measurement, s.supervision.state, s.timing.health, s.reference, ZERO_INPUT,
              s.lastEstimate[1] / c.wheelRadius - s.lastEstimate[3], s.lastEstimate[6])
  }

  /** The supervisor after a successful control step: promoted out of the capture window by a valid
      estimate on healthy timing, then shown the control health. */
  function Supervised(limits: WheelLimits, s: Supervision, timing: TimingHealth, estimate: Estimate): Option<Supervision> {
    var wheel := ClassifySpeed(limits, estimate.state[6]);
    if s.state.CaptureWindow? && estimate.validity.Valid? && timing.Healthy? then
      if Commanded(s, CaptureReady).None? then None
      else Some(After(After(s, CaptureReady), ControlHealth(estimate.validity, wheel)))
    else Some(After(s, ControlHealth(estimate.validity, wheel)))
  }

  /** The outer loop, every few steps. */
  function OuterLoop<E, P, V, X>(c: Config<E, P, V, X>, s: Loop<E, P, V>, result: StepResult): Result<Loop<E, P, V>, LoopError<X>> {
    var divider := UpDivider(s.outerDivider);
    if divider < c.decimation then Ok(s.(outerDivider := divider))
    else
      match c.velocity(s.velocity, result.estimate.state, result.decision.holdIntegrator)
      case Err(x) => Err(Velocity(x))
      case Ok(t) => Ok(s.(outerDivider := 0, velocity := t.0, reference := t.1))
  }

  /** What a control step leaves behind, the pending actuation last. */
  ghost function AfterStep<E, P, V, X>(c: Config<E, P, V, X>, s: Loop<E, P, V>, result: StepResult): Result<Loop<E, P, V>, LoopError<X>> {
    match Supervised(c.design.limits, s.supervision, s.timing.health, result.estimate)
    case None => Err(Transition(InvalidTransition))
    case Some(supervision) =>
      match OuterLoop(c, s.(steps := Up(s.steps), lastEstimate := result.estimate.state, supervision := supervision), result)
      case Err(e) => Err(e)
      case Ok(t) => Ok(t.(pending := Some(match result.authorized case None => Revoke case Some(token) => Apply(token))))
  }

  /** What an admitted opportunity finds: a reason to fail, a frame whose encoders have no rate yet, or one to step on. */
  datatype Admission<X> = Refuse(error: LoopError<X>) | Skip(index: u32) | Proceed(index: u32, frame: Frame)

  function Admit<E, P, V, X>(s: Loop<E, P, V>): Admission<X> {
    match s.delivered
    case None => Refuse(RuntimeWithoutObservation)
    case Some(delivered) =>
      if s.consumed == Some(delivered.index) then Refuse(RuntimeWithoutFreshObservation(delivered.index))
      else if delivered.frame.drive.Rejected? || delivered.frame.reaction.Rejected? then Refuse(EncoderRejected)
      else if !delivered.frame.drive.Ready? || !delivered.frame.reaction.Ready? then Skip(delivered.index)
      else Proceed(delivered.index, delivered.frame)
  }

  ghost function StepOn<E, P, V, X>(c: Config<E, P, V, X>, s: Loop<E, P, V>, index: u32, frame: Frame): Result<Loop<E, P, V>, LoopError<X>>
    requires ConfigValid(c) && s.runtime.controller.Shaped()
  {
    var (runtime, result) := Step(c.design, s.runtime, StepInputOf(c, s, frame));
    match result
    case Err(e) => Err(Control(e))
    case Ok(r) => AfterStep(c, s.(consumed := Some(index), runtime := runtime), r)
  }

  ghost function RunRuntime<E, P, V, X>(c: Config<E, P, V, X>, s: Loop<E, P, V>): Result<Loop<E, P, V>, LoopError<X>>
    requires ConfigValid(c) && s.runtime.controller.Shaped()
  {
    match Admit<E, P, V, X>(s)
    case Refuse(e) => Err(e)
    case Skip(index) => Ok(s.(consumed := Some(index), skipped := Up(s.skipped), pending := Some(Revoke)))
    case Proceed(index, frame) => StepOn(c, s, index, frame)
  }

  function MissRuntime<E, P, V>(s: Loop<E, P, V>): Loop<E, P, V> {
    var counted := s.(missed := Up(s.missed));
    if s.delivered.Some? && s.consumed != Some(s.delivered.value.index) then
      counted.(consumed := Some(s.delivered.value.index), discarded := Up(s.discarded))
    else counted
  }

  function CommitActuation<E, P, V, X>(s: Loop<E, P, V>): Result<Loop<E, P, V>, LoopError<X>> {
    match s.pending
    case None => Err(CommitWithoutRuntime)
    case Some(Apply(token)) => Ok(s.(pending := None, applied := AppliedInput(Some(token)), commits := Up(s.commits)))
    case Some(Revoke) => Ok(s.(pending := None, applied := ZERO_INPUT, revocations := Up(s.revocations)))
  }

  ghost function Dispatch<E, P, V, X>(c: Config<E, P, V, X>, s: Loop<E, P, V>, at: u64, kind: EventKind): Result<Loop<E, P, V>, LoopError<X>>
    requires ConfigValid(c) && s.runtime.controller.Shaped()
  {
    match kind
    case ScenarioStart => Ok(s)
    case SensorSample => SampleSensor(c, s, at)
    case ObservationDelivery => DeliverObservation(c, s)
    case ProductionRuntime => RunRuntime(c, s)
    case RuntimeOpportunityMissed => Ok(MissRuntime(s))
    case ActuationCommit => CommitActuation(s)
  }

  /** Physical time: the coded plant under the applied torque. */
  function AdvanceWorld<E, P, V, X>(c: Config<E, P, V, X>, s: Loop<E, P, V>, from: u64, to: u64): Result<Loop<E, P, V>, LoopError<X>> {
    if from != s.worldTime then Err(World(SimulationWorld.TimeDiscontinuity(s.worldTime, from)))
    else if to < from then Err(World(SimulationWorld.TimeReversal(from, to)))
    else Ok(s.(truth := SimulationWorld.Advanced(PlantOf(EntriesOf(c.plant)), s.applied, s.truth, to - from), worldTime := to))
  }

  // ----- the events as methods ------------------------------------------------------------------------

  /** What the loop's own objects hold between them. */
  datatype Parts<E> = Parts(
    truth: SimulationWorld.Truth, applied: InputVec, worldTime: u64, sampleIndex: u32,
    supervision: Supervision, timing: Monitor, drive: EncoderTracking.Tracker, reaction: EncoderTracking.Tracker, runtime: Runtime<E>)

  class ClosedLoopSimulation<!E, !P, !V, !X> {
    const config: Config<E, P, V, X>
    const world: SimulationWorld.World
    const supervisor: Supervisor
    const sensorTiming: SensorTimingMonitor
    const input: EstimatorInputBuilder
    const runtime: ControlRuntime<E>
    var velocity: V
    var reference: StateVec
    var lastEstimate: StateVec
    var pendingRaw: Option<Raw<P>>
    var delivered: Option<Delivered>
    var consumed: Option<u32>
    var pending: Option<PendingActuation>
    var outerDivider: u32
    var samples: u64
    var deliveries: u64
    var steps: u64
    var skipped: u64
    var missed: u64
    var discarded: u64
    var commits: u64
    var revocations: u64

    constructor (config: Config<E, P, V, X>, initial: SimulationWorld.Truth, estimator: E, controller: Controller, velocity: V,
                 drive: EncoderTracking.EncoderTransfer, reaction: EncoderTracking.EncoderTransfer, limits: TimingLimits)
      requires ConfigValid(config) && controller.Shaped()
      ensures Valid() && this.config == config
      ensures View() == Initial(initial, estimator, controller, velocity, drive, reaction, limits)
    {
      hide EntriesOf, PlantOf;
      this.config := config;
      world := new SimulationWorld.World(config.plant, initial);
      supervisor := new Supervisor();
      sensorTiming := new SensorTimingMonitor(limits, 0);
      input := new EstimatorInputBuilder(drive, reaction);
      runtime := new ControlRuntime<E>(config.design, estimator, controller);
      this.velocity, reference, lastEstimate := velocity, ORIGIN, ORIGIN;
      pendingRaw, delivered, consumed, pending, outerDivider := None, None, None, None, 0;
      samples, deliveries, steps, skipped, missed, discarded, commits, revocations := 0, 0, 0, 0, 0, 0, 0, 0;
    }

    ghost function Components(): set<object> {
      {world, supervisor, sensorTiming, input.drive, input.reaction, runtime}
    }

    ghost function Repr(): set<object> {
      Components() + {this}
    }

    ghost predicate Valid()
      reads Components()
    {
      && input.Valid() && world.Valid() && ConfigValid(config) && runtime.controller.Shaped()
      && world.plant == PlantOf(EntriesOf(config.plant)) && runtime.design == config.design
    }

    /** The part of the state the components hold. */
    ghost function Held(): Parts<E>
      reads Components()
      requires Valid()
    {
      Parts(world.state, world.applied, world.currentTime, world.sampleIndex,
            supervisor.View(), sensorTiming.View(), input.drive.View(), input.reaction.View(), runtime.View())
    }

    ghost function View(): Loop<E, P, V>
      reads this, Components()
      requires Valid()
    {
      var p := Held();
      Loop(p.truth, p.applied, p.worldTime, p.sampleIndex, p.supervision, p.timing, p.drive, p.reaction, p.runtime,
           velocity, reference, lastEstimate, pendingRaw, delivered, consumed, pending,
           outerDivider, samples, deliveries, steps, skipped, missed, discarded, commits, revocations)
    }

    /** The method failed as its specification does, or left the state it says. */
    ghost predicate Ended(outcome: Result<Loop<E, P, V>, LoopError<X>>, r: Result<(), LoopError<X>>)
      reads this, Components()
      requires Valid()
    {
      match outcome
      case Err(e) => r == Err(e)
      case Ok(s) => r == Ok(()) && View() == s
    }

    method SampleSensorAt(at: u64) returns (r: Result<(), LoopError<X>>)
      requires Valid()
      modifies Repr()
      ensures Valid()
      ensures Ended(SampleSensor(config, old(View()), at), r)
    {
      hide SimulationWorld.EncoderCount, DriveAngle, EncoderShows, Observed, EntriesOf, PlantOf, Supervisor.View, SensorTimingMonitor.View, EncoderTracking.EncoderTracker.View, ControlRuntime.View;
      if pendingRaw.Some? { return Err(SampleAlreadyPending); }
      var imu := config.sense(world.state, world.applied);
      var drive := EncoderShows(at, SimulationWorld.EncoderCount(DriveAngle(config, world.state), config.driveCounts));
      var reaction := EncoderShows(at, SimulationWorld.EncoderCount(world.state[7], config.reactionCounts));
      var index := world.TakeSampleIndex(at);
      if index.Err? { return Err(World(index.error)); }
      var _ := sensorTiming.OnEvent(at);
      pendingRaw := Some(Raw(index.value, imu, drive, reaction));
      samples := Up(samples);
      r := Ok(());
    }

    /** Builds the frame of a calibrated sample and moves both trackers. */
    method AcceptFrame(raw: Raw<P>, imu: BodyImuObservation)
      requires Valid()
      modifies this`delivered, this`deliveries, input.drive, input.reaction
      ensures Valid()
      ensures var s := old(View());
        View() == s.(drive := EncoderTracking.After(s.drive, raw.drive), reaction := EncoderTracking.After(s.reaction, raw.reaction),
                     delivered := Some(Delivered(raw.index, BuiltFrame(imu, s.drive, raw.drive, s.reaction, raw.reaction))),
                     deliveries := Up(s.deliveries))
    {
      hide BuiltFrame, EncoderTracking.After, EntriesOf, PlantOf, Supervisor.View, SensorTimingMonitor.View, EncoderTracking.EncoderTracker.View, ControlRuntime.View;
      var frame := input.Build(imu, raw.drive, raw.reaction);
      delivered := Some(Delivered(raw.index, frame));
      deliveries := Up(deliveries);
    }

    method Deliver() returns (r: Result<(), LoopError<X>>)
      requires Valid()
      modifies Repr()
      ensures Valid()
      ensures Ended(DeliverObservation(config, old(View())), r)
    {
      assert this !in Components();
      hide BuiltFrame, EncoderTracking.After, EntriesOf, PlantOf, Held, Valid;
      if pendingRaw.None? { return Err(DeliveryWithoutSample); }
      var raw := pendingRaw.value;
      pendingRaw := None;
      var body := config.toBody(raw.imu);
      if body.Err? { return Err(Calibration(body.error)); }
      AcceptFrame(raw, body.value);
      r := Ok(());
    }

    method Miss()
      requires Valid()
      modifies this`missed, this`consumed, this`discarded
      ensures Valid()
      ensures View() == MissRuntime(old(View()))
    {
      assert this !in Components();
      ghost var before := View();
      hide EntriesOf, PlantOf, Held, Valid;
      missed := Up(missed);
      if delivered.Some? && consumed != Some(delivered.value.index) {
        consumed := Some(delivered.value.index);
        discarded := Up(discarded);
      }
      assert View() == before.(missed := missed, consumed := consumed, discarded := discarded);
    }

    method Commit() returns (r: Result<(), LoopError<X>>)
      requires Valid()
      modifies Repr()
      ensures Valid()
      ensures Ended(CommitActuation<E, P, V, X>(old(View())), r)
    {
      hide EntriesOf, PlantOf, Supervisor.View, SensorTimingMonitor.View, EncoderTracking.EncoderTracker.View, ControlRuntime.View;
      if pending.None? { return Err(CommitWithoutRuntime); }
      var actuation := pending.value;
      pending := None;
      match actuation {
        case Apply(token) =>
          world.ApplyAuthorized(token.commands.drive.predicted, token.commands.reaction.predicted);
          commits := Up(commits);
        case Revoke =>
          world.Revoke();
          revocations := Up(revocations);
      }
      r := Ok(());
    }

    /** Promotes the supervisor out of the capture window when the step allows it, and shows it the control health. */
    method Supervise(timing: TimingHealth, estimate: Estimate) returns (ok: bool)
      requires Valid()
      modifies supervisor
      ensures match Supervised(config.design.limits, old(supervisor.View()), timing, estimate)
        case None => !ok
        case Some(s) => ok && supervisor.View() == s
    {
      hide ClassifySpeed, EntriesOf, PlantOf;
      var wheel := ClassifySpeed(config.design.limits, estimate.state[6]);
      if supervisor.state == CaptureWindow && estimate.validity == StateValidity.Valid && timing == Healthy {
        var promoted := supervisor.Captured();
        if promoted.Err? { return false; }
      }
      supervisor.ObserveControlHealth(estimate.validity, wheel);
      ok := true;
    }

    method RunOuterLoop(result: StepResult) returns (r: Result<(), LoopError<X>>)
      requires Valid()
      modifies this`outerDivider, this`velocity, this`reference
      ensures Valid()
      ensures Ended(OuterLoop(config, old(View()), result), r)
    {
      assert this !in Components();
      ghost var before := View();
      hide EntriesOf, PlantOf, Held, Valid;
      outerDivider := UpDivider(outerDivider);
      if outerDivider >= config.decimation {
        outerDivider := 0;
        match config.velocity(velocity, result.estimate.state, result.decision.holdIntegrator) {
          case Err(x) => return Err(Velocity(x));
          case Ok(t) => velocity, reference := t.0, t.1;
        }
      }
      assert View() == before.(outerDivider := outerDivider, velocity := velocity, reference := reference);
      r := Ok(());
    }

    /** Counts a successful control step and shows it to the supervisor. */
    method BookStep(timing: TimingHealth, estimate: Estimate) returns (ok: bool)
      requires Valid() && timing == sensorTiming.health
      modifies this`steps, this`lastEstimate, supervisor
      ensures Valid()
      ensures match Supervised(config.design.limits, old(supervisor.View()), timing, estimate)
        case None => !ok
        case Some(s) => ok && View() == old(View()).(steps := Up(old(steps)), lastEstimate := estimate.state, supervision := s)
    {
      hide Supervised, EntriesOf, PlantOf, Supervisor.View, SensorTimingMonitor.View, EncoderTracking.EncoderTracker.View, ControlRuntime.View;
      steps := Up(steps);
      lastEstimate := estimate.state;
      ok := Supervise(timing, estimate);
    }

    method SetPending(authorized: Option<AuthorizedActuation>)
      requires Valid()
      modifies this`pending
      ensures Valid()
      ensures View() == old(View()).(pending := Some(match authorized case None => Revoke case Some(token) => Apply(token)))
    {
      assert this !in Components();
      hide EntriesOf, PlantOf, Held, Valid;
      pending := Some(match authorized case None => Revoke case Some(token) => Apply(token));
    }

    /** Everything after a successful control step. */
    method FinishStep(timing: TimingHealth, result: StepResult) returns (r: Result<(), LoopError<X>>)
      requires Valid() && timing == sensorTiming.health
      modifies Repr()
      ensures Valid()
      ensures Ended(AfterStep(config, old(View()), result), r)
    {
      hide Supervised, OuterLoop, Valid;
      var ok := BookStep(timing, result.estimate);
      if !ok { return Err(Transition(InvalidTransition)); }
      var outer := RunOuterLoop(result);
      if outer.Err? { return outer; }
      SetPending(result.authorized);
      r := Ok(());
    }

    method AdmitObservation() returns (a: Admission<X>)
      requires Valid()
      ensures a == Admit(View())
    {
      hide EntriesOf, PlantOf, Supervisor.View, SensorTimingMonitor.View, EncoderTracking.EncoderTracker.View, ControlRuntime.View;
      if delivered.None? { return Refuse(RuntimeWithoutObservation); }
      var observation := delivered.value;
      if consumed == Some(observation.index) { return Refuse(RuntimeWithoutFreshObservation(observation.index)); }
      if observation.frame.drive.Rejected? || observation.frame.reaction.Rejected? { return Refuse(EncoderRejected); }
      if !observation.frame.drive.Ready? || !observation.frame.reaction.Ready? { return Skip(observation.index); }
      a := Proceed(observation.index, observation.frame);
    }

    method SkipObservation(index: u32)
      requires Valid()
      modifies this`consumed, this`skipped, this`pending
      ensures Valid()
      ensures View() == old(View()).(consumed := Some(index), skipped := Up(old(skipped)), pending := Some(Revoke))
    {
      assert this !in Components();
      hide EntriesOf, PlantOf, Held, Valid;
      consumed := Some(index);
      skipped := Up(skipped);
      pending := Some(Revoke);
    }

    /** One step of the control runtime on this frame; the observation counts as consumed either way. */
    method StepRuntime(index: u32, frame: Frame) returns (r: Result<StepResult, RuntimeError>)
      requires Valid()
      modifies this`consumed, runtime
      ensures Valid() && sensorTiming.health == old(sensorTiming.health)
      ensures var (after, result) := Step(config.design, old(runtime.View()), StepInputOf(config, old(View()), frame));
        r == result && View() == old(View()).(consumed := Some(index), runtime := after)
    {
      hide Step, StepBalanced, EntriesOf, PlantOf, EncoderTracking.EncoderTracker.View;
      var stepInput := StepInput(frame.measurement, supervisor.state, sensorTiming.health, reference, ZERO_INPUT,
                                 lastEstimate[1] / config.wheelRadius - lastEstimate[3], lastEstimate[6]);
      StepKeeps(config.design, runtime.View(), stepInput);
      consumed := Some(index);
      r := runtime.StepOnce(stepInput);
    }

    method Run() returns (r: Result<(), LoopError<X>>)
      requires Valid()
      modifies Repr()
      ensures Valid()
      ensures Ended(RunRuntime(config, old(View())), r)
    {
      hide Step, AfterStep, StepInputOf, Admit, Valid;
      var admission := AdmitObservation();
      match admission {
        case Refuse(e) => return Err(e);
        case Skip(index) =>
          SkipObservation(index);
          return Ok(());
        case Proceed(index, frame) =>
          var result := StepRuntime(index, frame);
          if result.Err? { return Err(Control(result.error)); }
          r := FinishStep(sensorTiming.health, result.value);
      }
    }

    method DispatchEvent(at: u64, kind: EventKind) returns (r: Result<(), LoopError<X>>)
      requires Valid()
      modifies Repr()
      ensures Valid()
      ensures Ended(Dispatch(config, old(View()), at, kind), r)
    {
      hide SampleSensor, DeliverObservation, RunRuntime, MissRuntime, CommitActuation, Valid;
      match kind {
        case ScenarioStart => r := Ok(());
        case SensorSample => r := SampleSensorAt(at);
        case ObservationDelivery => r := Deliver();
        case ProductionRuntime => r := Run();
        case RuntimeOpportunityMissed =>
          Miss();
          r := Ok(());
        case ActuationCommit => r := Commit();
      }
    }

    method Advance(from: u64, to: u64) returns (r: Result<(), LoopError<X>>)
      requires Valid()
      modifies world
      ensures Valid()
      ensures Ended(AdvanceWorld(config, old(View()), from, to), r)
    {
      hide SimulationWorld.Advanced, EntriesOf, PlantOf, Supervisor.View, SensorTimingMonitor.View, EncoderTracking.EncoderTracker.View, ControlRuntime.View;
      var advanced := world.AdvanceInterval(from, to);
      if advanced.Err? { return Err(World(advanced.error)); }
      r := Ok(());
    }

    /** Up to the capture window; refused anywhere but at power-up. */
    method Arm() returns (r: Result<(), LoopError<X>>)
      requires Valid()
      modifies Repr()
      ensures Valid()
      ensures Ended(ArmBalance(config, old(View())), r)
    {
      hide EntriesOf, PlantOf, SensorTimingMonitor.View;
      var armed := ArmSupervisor();
      if armed.Err? { return Err(Transition(armed.error)); }
      input.Reset();
      velocity := config.resetVelocity(velocity);
      reference := ORIGIN;
      world.Revoke();
      r := Ok(());
    }

    method ArmSupervisor() returns (r: Result<(), TransitionError>)
      modifies supervisor
      ensures match Armed(old(supervisor.View()))
        case None => r == Err(InvalidTransition)
        case Some(s) => r == Ok(()) && supervisor.View() == s
    {
      r := supervisor.BootDone();
      if r.Err? { return; }
      r := supervisor.HardwareChecked();
      if r.Err? { return; }
      r := supervisor.Balance();
    }
  }
}
