/** What the events of the closed loop mean for the plant: the shafts the encoders follow, the torque an
    opportunity puts on, the momentum that torque leaves behind. */
module ClosedLoopLaw {
  import opened Wrappers
  import opened MachineInts
  import opened LinearAlgebra
  import opened StateEstimator
  import opened ActuatorModel
  import opened EstimatorInput
  import opened RuntimeState
  import opened RuntimeSupervisor
  import opened ControlRuntime
  import Recording = ObservationRecord
  import EncoderTracking
  import Plant = DynamicsModel
  import Measurement = UprightMeasurement
  import SimulationWorld
  import opened Scheduler
  import opened SitlRun
  import opened RunLoop
  import opened RunTimeline
  import opened ClosedLoop
  import opened ClosedLoopRuns

  // ----- the shafts --------------------------------------------------------------------------

  /** From a to b the plant moved at the rates of this state: forward, in pitch, and at the reaction wheel. */
  ghost predicate MovedAt(rates: StateVec, dt: real, a: SimulationWorld.Truth, b: SimulationWorld.Truth) {
    b[0] == a[0] + dt * rates[1] && b[2] == a[2] + dt * rates[3] && b[7] == a[7] + dt * rates[6]
  }

  /** The speeds a control step is given are the rates of the two shafts the encoders sit on, had the plant
      moved as last estimated. */
  lemma {:induction false} SpeedsAreShaftRates<E, P, V, X>(c: Config<E, P, V, X>, s: Loop<E, P, V>, frame: Frame, dt: real,
                                                           a: SimulationWorld.Truth, b: SimulationWorld.Truth)
    requires c.wheelRadius == c.plant.wheelRadius && MovedAt(s.lastEstimate, dt, a, b)
    ensures var input := StepInputOf(c, s, frame);
      && DriveAngle(c, b) - DriveAngle(c, a) == dt * input.driveSpeed
      && b[7] - a[7] == dt * input.reactionSpeed
  {
    var r, v, w := c.wheelRadius, s.lastEstimate[1], s.lastEstimate[3];
    RolledAngle(a[0], b[0], a[2], b[2], dt, v, w, r);
  }

  lemma RolledAngle(from: real, to: real, pitch: real, pitched: real, dt: real, v: real, w: real, r: real)
    requires r > 0.0 && to == from + dt * v && pitched == pitch + dt * w
    ensures to / r - pitched - (from / r - pitch) == dt * (v / r - w)
  {
    var q := v / r;
    assert v == q * r;
    var moved := dt * q;
    assert dt * v == moved * r;
    Over(from, to, moved, r);
  }

  lemma Over(from: real, to: real, moved: real, r: real)
    requires r > 0.0 && to == from + moved * r
    ensures to / r == from / r + moved
  {}

  /** The angle the drive encoder shows, and the rate of the one the reaction encoder shows, are what the
      measurement equation says of these channels. */
  lemma {:induction false} ShaftsAreMeasured<E, P, V, X>(c: Config<E, P, V, X>, imu: Measurement.ImuPlacement, x: SimulationWorld.Truth, u: InputVec)
    ensures Measurement.MeasurementRows(c.plant, imu).WellShaped()
    ensures var y := MeasurementAt(Measurement.MeasurementRows(c.plant, imu), x[..7], u);
      && y[DRIVE_ENCODER_RELATIVE_ANGLE] == DriveAngle(c, x)
      && y[REACTION_WHEEL_RELATIVE_RATE] == SimulationWorld.Derivative(Plant.PlantOf(Plant.EntriesOf(c.plant)), u, x)[7]
  {
    hide MeasurementAt, Measurement.MeasurementRows, Plant.EntriesOf, Plant.CodedAccelerations, Plant.PlantOf, Dot;
    Measurement.RowsMeasure(c.plant, imu, x[..7], u);
    Reciprocal(x[0], c.plant.wheelRadius);
  }

  lemma Reciprocal(x: real, r: real)
    requires r > 0.0
    ensures 1.0 / r * x == x / r
  {}

  /** The tracker last saw the counter of a shaft at this angle. */
  predicate LastSaw(t: EncoderTracking.Tracker, angle: real, countsPerRevolution: u32) {
    t.previous.Some? && t.previous.value.count == SimulationWorld.EncoderCount(angle, countsPerRevolution)
  }

  /** Whole counts from one angle to the other, the way the transfer counts them. */
  function Travelled(transfer: EncoderTracking.EncoderTransfer, from: real, to: real, countsPerRevolution: u32): int {
    EncoderTracking.Multiplier(transfer.direction)
    * (SimulationWorld.ShaftCounts(to, countsPerRevolution) - SimulationWorld.ShaftCounts(from, countsPerRevolution))
  }

  /** The tracker has taken in the shaft's move from one angle to the other, if it was one it could see. */
  ghost predicate Follows(t: EncoderTracking.Tracker, next: EncoderTracking.Tracker, from: real, to: real, countsPerRevolution: u32) {
    && LastSaw(next, to, countsPerRevolution) && next.transfer == t.transfer
    && (EncoderTracking.Magnitude(Travelled(t.transfer, from, to, countsPerRevolution)) <= t.transfer.allowed
        ==> next.counts == t.counts + Travelled(t.transfer, from, to, countsPerRevolution))
  }

  lemma {:induction false} TrackerFollows(t: EncoderTracking.Tracker, at: u64, from: real, to: real, countsPerRevolution: u32)
    requires LastSaw(t, from, countsPerRevolution)
    ensures var raw := EncoderShows(at, SimulationWorld.EncoderCount(to, countsPerRevolution));
      var next := EncoderTracking.After(t, raw);
      if StatusOf(t, raw).Ready? then Follows(t, next, from, to, countsPerRevolution) else next == t
  {
    SimulationWorld.CounterShowsShaft(from, to, countsPerRevolution);
    hide SimulationWorld.EncoderCount, SimulationWorld.ShaftCounts, EncoderTracking.WrappedDelta, EncoderTracking.QualityError;
  }

  /** What a frame says of the two shafts whose counters were read, and where that leaves the trackers. */
  ghost predicate FrameFollows(f: Frame, at: u64, drive: EncoderTracking.Tracker, nextDrive: EncoderTracking.Tracker,
                               reaction: EncoderTracking.Tracker, nextReaction: EncoderTracking.Tracker,
                               driveFrom: real, driveTo: real, driveCounts: u32, reactionFrom: real, reactionTo: real, reactionCounts: u32)
    requires reaction.previous.Some?
  {
    && (if f.drive.Ready? then Follows(drive, nextDrive, driveFrom, driveTo, driveCounts) else nextDrive == drive)
    && (if f.reaction.Ready? then Follows(reaction, nextReaction, reactionFrom, reactionTo, reactionCounts) else nextReaction == reaction)
    && (f.drive.Ready? ==> f.measurement.values[6] == EncoderTracking.AngleOf(drive.transfer, nextDrive.counts))
    && (f.reaction.Ready? ==>
         f.measurement.values[7] * EncoderTracking.Seconds(at - reaction.previous.value.at)
         == EncoderTracking.AngleOf(reaction.transfer, nextReaction.counts - reaction.counts))
  }

  lemma {:induction false} FrameFollowsShafts(imu: BodyImuObservation, at: u64, drive: EncoderTracking.Tracker, reaction: EncoderTracking.Tracker,
                                              driveFrom: real, driveTo: real, driveCounts: u32, reactionFrom: real, reactionTo: real, reactionCounts: u32)
    requires LastSaw(drive, driveFrom, driveCounts) && LastSaw(reaction, reactionFrom, reactionCounts)
    ensures var driveRaw := EncoderShows(at, SimulationWorld.EncoderCount(driveTo, driveCounts));
      var reactionRaw := EncoderShows(at, SimulationWorld.EncoderCount(reactionTo, reactionCounts));
      FrameFollows(BuiltFrame(imu, drive, driveRaw, reaction, reactionRaw), at, drive, EncoderTracking.After(drive, driveRaw),
                   reaction, EncoderTracking.After(reaction, reactionRaw),
                   driveFrom, driveTo, driveCounts, reactionFrom, reactionTo, reactionCounts)
  {
    hide Follows, EncoderTracking.After, StatusOf, BuiltFrame, SimulationWorld.EncoderCount, EncoderTracking.AngleOf, EncoderTracking.Seconds,
         Usable, TimingProven, EncoderTracking.WrappedDelta, EncoderTracking.QualityError, SimulationWorld.ShaftCounts, EncoderTracking.Multiplier;
    var driveRaw := EncoderShows(at, SimulationWorld.EncoderCount(driveTo, driveCounts));
    var reactionRaw := EncoderShows(at, SimulationWorld.EncoderCount(reactionTo, reactionCounts));
    TrackerFollows(drive, at, driveFrom, driveTo, driveCounts);
    TrackerFollows(reaction, at, reactionFrom, reactionTo, reactionCounts);
    FrameStatus(imu, drive, driveRaw, reaction, reactionRaw);
    FrameValues(imu, drive, driveRaw, reaction, reactionRaw);
  }

  lemma {:induction false} FrameStatus(imu: BodyImuObservation, drive: EncoderTracking.Tracker, driveRaw: Recording.Encoder,
                                       reaction: EncoderTracking.Tracker, reactionRaw: Recording.Encoder)
    ensures var f := BuiltFrame(imu, drive, driveRaw, reaction, reactionRaw);
      f.drive == StatusOf(drive, driveRaw) && f.reaction == StatusOf(reaction, reactionRaw)
  {
    hide StatusOf, EncoderTracking.Report, Usable, TimingProven;
  }

  /** A sample and its delivery: the drive tracker follows the wheel relative to the body and the reaction
      tracker the reaction wheel, and what the frame measures of each is what its tracker now holds. */
  lemma {:induction false} SlotFollowsShafts<E, P, V, X>(c: Config<E, P, V, X>, s: Loop<E, P, V>, at: u64, drive: real, reaction: real)
    requires s.pendingRaw.None? && LastSaw(s.drive, drive, c.driveCounts) && LastSaw(s.reaction, reaction, c.reactionCounts)
    ensures match SensorSlot(c, s, at)
      case Err(_) => true
      case Ok(t) =>
        && t.delivered.Some? && t.delivered.value.index == s.sampleIndex
        && FrameFollows(t.delivered.value.frame, at, s.drive, t.drive, s.reaction, t.reaction,
                        drive, s.truth[0] / c.plant.wheelRadius - s.truth[2], c.driveCounts, reaction, s.truth[7], c.reactionCounts)
  {
    var imu := c.toBody(c.sense(s.truth, s.applied));
    if imu.Ok? {
      FrameFollowsShafts(imu.value, at, s.drive, s.reaction, drive, DriveAngle(c, s.truth), c.driveCounts, reaction, s.truth[7], c.reactionCounts);
    }
    hide FrameFollows, EncoderTracking.After, BuiltFrame, Observed, SimulationWorld.EncoderCount, LastSaw;
  }

  lemma {:induction false} FrameImu(imu: BodyImuObservation, drive: EncoderTracking.Tracker, driveRaw: Recording.Encoder,
                                    reaction: EncoderTracking.Tracker, reactionRaw: Recording.Encoder)
    ensures var m := BuiltFrame(imu, drive, driveRaw, reaction, reactionRaw).measurement;
      && (Usable(imu.quality) ==> m.values[..6] == imu.acceleration + imu.angularRate)
      && (forall i | 0 <= i < 6 :: i in m.available.channels <==> Usable(imu.quality))
      && (m.timingValid <==> TimingProven(imu.quality))
  {
    FrameChannels(imu, drive, driveRaw, reaction, reactionRaw);
    hide StatusOf, EncoderTracking.Report, Usable, TimingProven, WithImu;
  }

  /** The frame's first six channels are the calibrated IMU's reading of the plant as it stood, under the torque
      that was on it. */
  lemma {:induction false} SlotReadsImu<E, P, V, X>(c: Config<E, P, V, X>, s: Loop<E, P, V>, at: u64)
    requires s.pendingRaw.None?
    ensures var imu := c.toBody(c.sense(s.truth, s.applied));
      match SensorSlot(c, s, at)
      case Err(e) => (imu.Err? && e == Calibration(imu.error)) || e.World?
      case Ok(t) =>
        && imu.Ok? && t.delivered.Some?
        && (var m := t.delivered.value.frame.measurement;
            && (Usable(imu.value.quality) ==> m.values[..6] == imu.value.acceleration + imu.value.angularRate)
            && (forall i | 0 <= i < 6 :: i in m.available.channels <==> Usable(imu.value.quality))
            && (m.timingValid <==> TimingProven(imu.value.quality)))
  {
    var imu := c.toBody(c.sense(s.truth, s.applied));
    var driveRaw := EncoderShows(at, SimulationWorld.EncoderCount(DriveAngle(c, s.truth), c.driveCounts));
    var reactionRaw := EncoderShows(at, SimulationWorld.EncoderCount(s.truth[7], c.reactionCounts));
    if imu.Ok? { FrameImu(imu.value, s.drive, driveRaw, s.reaction, reactionRaw); }
    hide EncoderTracking.After, BuiltFrame, Observed, SimulationWorld.EncoderCount, Usable, TimingProven, DriveAngle, EncoderShows;
  }

  /** Arming forgets the past: trackers without an origin, no reference, no torque, the velocity loop reset; the
      plant, the estimator and the counts stay as they are. */
  lemma {:induction false} ArmingForgets<E, P, V, X>(c: Config<E, P, V, X>, s: Loop<E, P, V>)
    ensures match ArmBalance(c, s)
      case Err(e) => e == Transition(InvalidTransition) && !(s.supervision.state.Boot? && s.supervision.faults == {})
      case Ok(t) =>
        && t.drive.previous.None? && t.drive.counts == 0 && t.reaction.previous.None? && t.reaction.counts == 0
        && (forall i | 0 <= i < STATES :: t.reference[i] == 0.0) && t.applied == [0.0, 0.0] && t.velocity == c.resetVelocity(s.velocity)
        && t.truth == s.truth && t.runtime == s.runtime && t.worldTime == s.worldTime && t.steps == s.steps && t.samples == s.samples
        && t.drive.transfer == s.drive.transfer && t.reaction.transfer == s.reaction.transfer
  {
    ArmsExactly(s.supervision);
    hide Armed;
  }

  // ----- the torque ----------------------------------------------------------------------------

  /** Physical time passes in order, and over it the plant takes up the impulse of exactly the torque that is
      applied: the drive's at the contact point, the reaction wheel's about its axle. */
  lemma {:induction false} AppliedTorquePushes<E, P, V, X>(c: Config<E, P, V, X>, s: Loop<E, P, V>, from: u64, to: u64)
    ensures match AdvanceWorld(c, s, from, to)
      case Err(e) =>
        && (e == World(SimulationWorld.TimeDiscontinuity(s.worldTime, from)) <==> from != s.worldTime)
        && (e == World(SimulationWorld.TimeReversal(from, to)) <==> from == s.worldTime && to < from)
      case Ok(t) =>
        && from == s.worldTime <= to == t.worldTime && t == s.(truth := t.truth, worldTime := to)
        && SimulationWorld.Pushed(c.plant, s.applied, s.truth, t.truth, to - from)
  {
    if from == s.worldTime <= to { SimulationWorld.IntervalPushes(c.plant, s.applied, s.truth, to - from); }
    hide Plant.EntriesOf, Plant.PlantOf, SimulationWorld.Advanced, SimulationWorld.Pushed;
  }

  /** What the gains ask of one motor: the reference's torque, less the state's and the integral's share. */
  ghost function Asked(c: Controller, x: StateVec, reference: StateVec, j: nat): real
    requires c.Shaped() && j < 2
  {
    Dot(Gains(c)[j], reference) - Dot(Gains(c)[j], x) - IntegralShare(c)[j]
  }

  /** What a motor makes of it at this speed: all of it, or as much as it can. */
  function Made(m: Model, asked: real, speed: real): real {
    var loss := FrictionTorque(m, speed);
    Clamp(asked + loss, -m.gain, m.gain) - loss
  }

  /** The torque of this opportunity: what the motors, at the speeds last estimated, make of the feedback of
      the new estimate about the reference. */
  ghost predicate TorqueLaw<E, P, V, X>(c: Config<E, P, V, X>, s: Loop<E, P, V>, after: Controller, x: StateVec, torque: InputVec)
    requires c.wheelRadius > 0.0
  {
    && after.Shaped()
    && torque[0] == Made(c.design.actuators.drive, Asked(after, x, s.reference, 0), s.lastEstimate[1] / c.wheelRadius - s.lastEstimate[3])
    && torque[1] == Made(c.design.actuators.reaction, Asked(after, x, s.reference, 1), s.lastEstimate[6])
  }

  lemma {:induction false} StepObeysLaw<E, P, V, X>(c: Config<E, P, V, X>, s: Loop<E, P, V>, frame: Frame)
    requires ConfigValid(c) && s.runtime.controller.Shaped()
    ensures var (after, result) := Step(c.design, s.runtime, StepInputOf(c, s, frame));
      match result
      case Err(_) => true
      case Ok(r) =>
        && (after.estimator, Ok(r.estimate)) == c.design.estimator.step(s.runtime.estimator, s.runtime.previousApplied, s.runtime.previousApplied, frame.measurement)
        && (if r.authorized.Some? then TorqueLaw(c, s, after.controller, r.estimate.state, AppliedInput(r.authorized))
            else AppliedInput(r.authorized) == ZERO_INPUT)
  {
    var input := StepInputOf(c, s, frame);
    StepKeeps(c.design, s.runtime, input);
    StepBalances(c.design, s.runtime, input);
    CommandsOfDemand(c.design, s.runtime, input);
    var (after, result) := Step(c.design, s.runtime, input);
    hide Step;
    if result.Ok? {
      assert StepKept(c.design, s.runtime, after, input, result.value);
      hide Integrated, AttemptWith, Law, RowMoves, FrictionTorque, CommandForTorque, Dot, ContextOf, Evaluate, Clamp;
      DemandIsAsked(c, s, frame, after.controller, result.value);
      MadeOf(c.design.actuators.drive, result.value.demand[0], input.driveSpeed);
      MadeOf(c.design.actuators.reaction, result.value.demand[1], input.reactionSpeed);
      hide StepKept, Asked, Made;
    }
  }

  lemma {:induction false} MadeOf(m: Model, demand: real, speed: real)
    ensures CommandForTorque(m, demand, speed).predicted == Made(m, demand, speed)
  {
    PredictedIsClamped(m, demand, speed);
    hide FrictionTorque, CommandForTorque;
  }

  lemma {:induction false} DemandIsAsked<E, P, V, X>(c: Config<E, P, V, X>, s: Loop<E, P, V>, frame: Frame, after: Controller, r: StepResult)
    requires c.wheelRadius > 0.0 && s.runtime.controller.Shaped() && StepBalanced(s.runtime.controller, after, StepInputOf(c, s, frame), r)
    ensures after.Shaped() && r.demand[0] == Asked(after, r.estimate.state, s.reference, 0) && r.demand[1] == Asked(after, r.estimate.state, s.reference, 1)
  {
    hide Dot, RowMoves, Gains, IntegralShare;
  }

  /** What an admitted opportunity and its commit leave on the plant and with the observer, if it stepped. */
  ghost predicate OpportunityObeys<E, P, V, X>(c: Config<E, P, V, X>, s: Loop<E, P, V>, frame: Frame, t: Loop<E, P, V>)
    requires ConfigValid(c)
  {
    var (estimator, estimated) := c.design.estimator.step(s.runtime.estimator, s.runtime.previousApplied, s.runtime.previousApplied, frame.measurement);
    && estimated.Ok? && t.runtime.estimator == estimator && t.lastEstimate == estimated.value.state
    && (if ClosedLoopState(s.supervision.state) && s.timing.health.Healthy? && ClosedLoopState(t.supervision.state)
        then TorqueLaw(c, s, t.runtime.controller, t.lastEstimate, t.applied) && t.commits == Up(s.commits) && t.revocations == s.revocations
        else t.applied == ZERO_INPUT && t.commits == s.commits && t.revocations == Up(s.revocations))
  }

  /** In closed loop on healthy timing, the supervisor stays there exactly when the estimate is valid and the
      wheel has authority. */
  lemma {:induction false} StaysInLoop(limits: WheelLimits, s: Supervision, timing: TimingHealth, estimate: Estimate)
    requires ClosedLoopState(s.state)
    ensures var t := Supervised(limits, s, timing, estimate);
      t.Some? && (ClosedLoopState(t.value.state) <==> estimate.validity.Valid? && !ClassifySpeed(limits, estimate.state[6]).Exhausted?)
  {
    hide ClassifySpeed;
  }

  lemma {:induction false} CommittedIs<E, P, V, X>(c: Config<E, P, V, X>, s: Loop<E, P, V>, result: StepResult)
    ensures match AfterStep(c, s, result)
      case Err(_) => true
      case Ok(u) =>
        && CommitActuation<E, P, V, X>(u).Ok?
        && (var t := CommitActuation<E, P, V, X>(u).value;
            && Supervised(c.design.limits, s.supervision, s.timing.health, result.estimate) == Some(t.supervision)
            && t.runtime == s.runtime && t.lastEstimate == result.estimate.state && t.applied == AppliedInput(result.authorized)
            && t.commits == (if result.authorized.Some? then Up(s.commits) else s.commits)
            && t.revocations == (if result.authorized.Some? then s.revocations else Up(s.revocations)))
  {
    hide Supervised;
  }

  /** An opportunity that steps puts the feedback of its new estimate on the plant, as far as the motors make
      it, exactly in closed loop on healthy timing; otherwise it takes the torque off. */
  lemma {:induction false} OpportunityLaw<E, P, V, X>(c: Config<E, P, V, X>, s: Loop<E, P, V>)
    requires ConfigValid(c) && s.runtime.controller.Shaped()
    ensures match AdmittedSlot(c, s)
      case Err(_) => true
      case Ok(t) =>
        match Admit<E, P, V, X>(s)
        case Refuse(_) => false
        case Skip(_) => t.applied == ZERO_INPUT && t.runtime == s.runtime && t.lastEstimate == s.lastEstimate
        case Proceed(_, frame) => OpportunityObeys(c, s, frame, t)
  {
    AdmittedSlotIs(c, s);
    hide Admit, AdmittedSlot;
    match Admit<E, P, V, X>(s)
    case Refuse(_) =>
    case Skip(_) =>
    case Proceed(index, frame) =>
      var input := StepInputOf(c, s, frame);
      StepObeysLaw(c, s, frame);
      AuthorizedTorque(c.design, s.runtime, input);
      var (runtime, result) := Step(c.design, s.runtime, input);
      hide Step, ClassifySpeed;
      if result.Ok? {
        CommittedIs(c, s.(consumed := Some(index), runtime := runtime), result.value);
        SupervisorDecides(c, s, input, result.value);
        hide AfterStep, CommitActuation, StepInputOf, Supervised, AppliedInput, TorqueLaw, FullyUnconstrained;
      }
  }

  lemma {:induction false} SupervisorDecides<E, P, V, X>(c: Config<E, P, V, X>, s: Loop<E, P, V>, input: StepInput, r: StepResult)
    requires input.state == s.supervision.state && input.timing == s.timing.health
    requires r.authorized.Some? <==>
      ClosedLoopState(input.state) && input.timing.Healthy? && r.estimate.validity.Valid? && !ClassifySpeed(c.design.limits, r.estimate.state[6]).Exhausted?
    ensures var t := Supervised(c.design.limits, s.supervision, s.timing.health, r.estimate);
      t.Some? ==>
        (r.authorized.Some? <==> ClosedLoopState(s.supervision.state) && s.timing.health.Healthy? && ClosedLoopState(t.value.state))
  {
    hide ClassifySpeed;
    if ClosedLoopState(s.supervision.state) { StaysInLoop(c.design.limits, s.supervision, s.timing.health, r.estimate); }
  }

  /** Out of the capture window: by a valid estimate on healthy timing and in no other way, to where the wheel's
      authority puts it at once. */
  lemma {:induction false} CapturedExactly(limits: WheelLimits, s: Supervision, timing: TimingHealth, estimate: Estimate)
    requires Consistent(s) && s.state.CaptureWindow?
    ensures var wheel := ClassifySpeed(limits, estimate.state[6]);
      Supervised(limits, s, timing, estimate) == Some(
        if estimate.validity.Valid? && timing.Healthy?
        then (match wheel
              case Nominal => Supervision(Balancing, {})
              case Warning => Supervision(MomentumLimited, {})
              case Exhausted => Supervision(Fault, {WheelExhaustedFault}))
        else s)
  {
    hide ClassifySpeed;
    assert s.faults + {WheelExhaustedFault} == {WheelExhaustedFault};
  }

  /** What an admitted opportunity finds in the delivered frame: it steps exactly on a frame not consumed whose
      trackers both took their reading and had one before. */
  lemma {:induction false} AdmitsExactly<E, P, V, X>(s: Loop<E, P, V>)
    ensures var a := Admit<E, P, V, X>(s);
      match s.delivered
      case None => a == Refuse(RuntimeWithoutObservation)
      case Some(Delivered(index, frame)) =>
        var statuses := {frame.drive, frame.reaction};
        var rejected := exists status | status in statuses :: status.Rejected?;
        && (a == Refuse(RuntimeWithoutFreshObservation(index)) <==> s.consumed == Some(index))
        && (a == Refuse(EncoderRejected) <==> s.consumed != Some(index) && rejected)
        && (a == Skip(index) <==> s.consumed != Some(index) && !rejected && Primed in statuses)
        && (a == Proceed(index, frame) <==> s.consumed != Some(index) && statuses == {Ready})
  {
    if s.delivered.Some? {
      var frame := s.delivered.value.frame;
      var statuses := {frame.drive, frame.reaction};
      assert frame.drive in statuses && frame.reaction in statuses;
    }
  }

  // ----- the outer loop --------------------------------------------------------------------------

  /** Due after every so many steps, the velocity loop is shown the estimate and sets state and reference;
      nothing else moves them. */
  lemma {:induction false} OuterLoopWhenDue<E, P, V, X>(c: Config<E, P, V, X>, s: Loop<E, P, V>, result: StepResult)
    requires s.outerDivider < c.decimation
    ensures var due := s.outerDivider + 1 == c.decimation;
      var velocity := c.velocity(s.velocity, result.estimate.state, result.decision.holdIntegrator);
      match OuterLoop(c, s, result)
      case Err(e) => due && velocity.Err? && e == Velocity(velocity.error)
      case Ok(t) =>
        && t.outerDivider == (if due then 0 else s.outerDivider + 1)
        && (if due then velocity == Ok((t.velocity, t.reference)) else t.velocity == s.velocity && t.reference == s.reference)
  {}

  /** The divider counts the steps. */
  predicate DividerCounts<E, P, V, X>(c: Config<E, P, V, X>, s: Loop<E, P, V>) {
    s.outerDivider < c.decimation && (s.steps < U64_MAX ==> s.outerDivider == s.steps % c.decimation)
  }

  lemma NextRemainder(n: nat, d: nat)
    requires d > 0
    ensures (n + 1) % d == if n % d + 1 == d then 0 else n % d + 1
  {
    var q, r := n / d, n % d;
    assert n == q * d + r && 0 <= r < d;
    if r + 1 == d {
      assert n + 1 == (q + 1) * d;
      DivIs(n + 1, d, q + 1);
    } else {
      DivIs(n + 1, d, q);
    }
  }

  /** A control step moves the divider on by one, and anything else leaves it. */
  predicate DividerMoves<E, P, V, X>(c: Config<E, P, V, X>, s: Loop<E, P, V>, t: Loop<E, P, V>) {
    || (t.steps == s.steps && t.outerDivider == s.outerDivider)
    || (t.steps == Up(s.steps) && t.outerDivider == if s.outerDivider + 1 == c.decimation then 0 else s.outerDivider + 1)
  }

  lemma {:induction false} MovedDividerCounts<E, P, V, X>(c: Config<E, P, V, X>, s: Loop<E, P, V>, t: Loop<E, P, V>)
    requires DividerCounts(c, s) && DividerMoves(c, s, t)
    ensures DividerCounts(c, t)
  {
    NextRemainder(s.steps, c.decimation);
  }

  /** What a control step does to the divider, and nothing else does. */
  lemma {:induction false} DispatchMovesDivider<E, P, V, X>(c: Config<E, P, V, X>, s: Loop<E, P, V>, at: u64, kind: EventKind)
    requires ConfigValid(c) && s.runtime.controller.Shaped() && s.outerDivider < c.decimation
    ensures match Dispatch(c, s, at, kind)
      case Err(_) => true
      case Ok(t) => DividerMoves(c, s, t)
  {
    hide Step, Supervised, StepInputOf, BuiltFrame, Observed, SimulationWorld.EncoderCount, EncoderTracking.After, Admit, AfterStep;
    if kind.ProductionRuntime? {
      match Admit<E, P, V, X>(s)
      case Refuse(_) =>
      case Skip(_) =>
      case Proceed(index, frame) =>
        var (runtime, result) := Step(c.design, s.runtime, StepInputOf(c, s, frame));
        if result.Ok? { StepMovesDivider(c, s.(consumed := Some(index), runtime := runtime), result.value); }
    }
  }

  lemma {:induction false} StepMovesDivider<E, P, V, X>(c: Config<E, P, V, X>, s: Loop<E, P, V>, result: StepResult)
    requires s.outerDivider < c.decimation
    ensures match AfterStep(c, s, result)
      case Err(_) => true
      case Ok(t) => t.steps == Up(s.steps) && t.outerDivider == if s.outerDivider + 1 == c.decimation then 0 else s.outerDivider + 1
  {
    hide Supervised;
  }

  ghost predicate DividerKept<E, P, V, X>(c: Config<E, P, V, X>, r: Result<Loop<E, P, V>, RunError<LoopError<X>>>) {
    r.Ok? ==> DividerCounts(c, r.value)
  }

  lemma {:induction false} EventKeepsDivider<E, P, V, X>(c: Config<E, P, V, X>, s: Loop<E, P, V>, e: Event)
    requires ConfigValid(c) && DividerCounts(c, s)
    ensures match Exec(c).dispatch(s, e)
      case Err(_) => true
      case Ok(t) => DividerCounts(c, t)
  {
    if s.runtime.controller.Shaped() {
      DispatchMovesDivider(c, s, e.at, e.kind);
      hide Dispatch, DividerMoves, DividerCounts;
      match Exec(c).dispatch(s, e)
      case Err(_) =>
      case Ok(t) => MovedDividerCounts(c, s, t);
    }
  }

  lemma {:induction false} EventsKeepDivider<E, P, V, X>(c: Config<E, P, V, X>, s: Loop<E, P, V>, events: seq<Event>)
    requires ConfigValid(c) && DividerCounts(c, s)
    ensures DividerKept(c, DispatchAll(Exec(c), s, events))
    decreases |events|
  {
    hide Exec, DividerCounts;
    if |events| > 0 {
      EventKeepsDivider(c, s, events[0]);
      match Exec(c).dispatch(s, events[0])
      case Err(_) =>
      case Ok(next) => EventsKeepDivider(c, next, events[1..]);
    }
  }

  lemma {:induction false} SliceKeepsDivider<E, P, V, X>(c: Config<E, P, V, X>, s: Loop<E, P, V>, slice: Slice)
    requires ConfigValid(c) && DividerCounts(c, s)
    ensures DividerKept(c, PlaySlice(Exec(c), s, slice))
  {
    hide DispatchAll, Dispatch, SimulationWorld.Advanced;
    var moved := Exec(c).advance(s, slice.from, slice.to);
    EventsKeepDivider(c, s, slice.events);
    if moved.Ok? { EventsKeepDivider(c, moved.value, slice.events); }
  }

  /** Over any run the divider is the number of control steps so far modulo the decimation: the velocity loop
      is due after every so many steps, missed and skipped opportunities not counted. */
  lemma {:induction false} OuterLoopEveryFewSteps<E, P, V, X>(c: Config<E, P, V, X>, start: Loop<E, P, V>, slices: seq<Slice>)
    requires ConfigValid(c) && DividerCounts(c, start)
    ensures DividerKept(c, Play(Exec(c), start, slices))
    decreases |slices|
  {
    hide Exec, DividerCounts, PlaySlice;
    if |slices| > 0 {
      SliceKeepsDivider(c, start, slices[0]);
      match PlaySlice(Exec(c), start, slices[0])
      case Err(_) =>
      case Ok(next) => OuterLoopEveryFewSteps(c, next, slices[1..]);
    }
  }
}
