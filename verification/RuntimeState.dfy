/** Sensor timing, reaction-wheel headroom and the one gate that turns a bounded
    command into an authorized one. */
module RuntimeState {
  import opened Wrappers
  import opened MachineInts
  import opened StateEstimator
  import opened ActuatorModel

  datatype OperatingState = Boot | HardwareCheck | Standby | CaptureWindow | Balancing | MomentumLimited | Fault

  predicate ClosedLoopState(s: OperatingState) {
    s.Balancing? || s.MomentumLimited?
  }

  // ----- sensor timing ----------------------------------------------------------------

  datatype TimingHealth = Startup | Healthy | Late | Timeout

  datatype Limits = Limits(expected: u32, late: u32, timeout: u32)

  predicate LimitsOrdered(l: Limits) {
    0 < l.expected <= l.late < l.timeout
  }

  type TimingLimits = l: Limits | LimitsOrdered(l) witness Limits(1, 1, 2)

  function NewLimits(expected: u32, late: u32, timeout: u32): (r: Option<TimingLimits>)
    ensures r.Some? <==> 0 < expected <= late < timeout
    ensures r.Some? ==> r.value == Limits(expected, late, timeout)
  {
    if expected == 0 || late < expected || timeout <= late then None else Some(Limits(expected, late, timeout))
  }

  function ClassifyElapsed(l: TimingLimits, elapsed: nat): TimingHealth {
    if elapsed >= l.timeout then Timeout else if elapsed >= l.late then Late else Healthy
  }

  function SaturatingSub(a: u64, b: u64): u64 { if a < b then 0 else a - b }

  datatype Monitor = Monitor(limits: TimingLimits, startedAt: u64, lastEventAt: Option<u64>, cadenceVerified: bool, health: TimingHealth)

  function NewMonitor(limits: TimingLimits, startedAt: u64): Monitor {
    Monitor(limits, startedAt, None, false, Startup)
  }

  /** A sensor event, or a look by the independent timer. */
  datatype Observation = Event(at: u64) | Poll(at: u64)

  function Observed(m: Monitor, o: Observation): Monitor {
    match o
    case Event(at) =>
      match m.lastEventAt {
        case Some(previous) =>
          m.(health := ClassifyElapsed(m.limits, SaturatingSub(at, previous)), cadenceVerified := true, lastEventAt := Some(at))
        case None => m.(health := Startup, lastEventAt := Some(at))
      }
    case Poll(at) =>
      var elapsed := SaturatingSub(at, if m.lastEventAt.Some? then m.lastEventAt.value else m.startedAt);
      m.(health := if !m.cadenceVerified && elapsed < m.limits.timeout then Startup else ClassifyElapsed(m.limits, elapsed))
  }

  class SensorTimingMonitor {
    const limits: TimingLimits
    const startedAt: u64
    var lastEventAt: Option<u64>
    var cadenceVerified: bool
    var health: TimingHealth

    ghost function View(): Monitor
      reads this
    {
      Monitor(limits, startedAt, lastEventAt, cadenceVerified, health)
    }

    constructor (limits: TimingLimits, startedAt: u64)
      ensures View() == NewMonitor(limits, startedAt)
    {
      this.limits, this.startedAt := limits, startedAt;
      lastEventAt, cadenceVerified, health := None, false, Startup;
    }

    method OnEvent(at: u64) returns (h: TimingHealth)
      modifies this
      ensures View() == Observed(old(View()), Event(at)) && h == health
    {
      match lastEventAt {
        case Some(previous) =>
          cadenceVerified := true;
          health := ClassifyElapsed(limits, SaturatingSub(at, previous));
        case None => health := Startup;
      }
      lastEventAt := Some(at);
      h := health;
    }

    method PollAt(now: u64) returns (h: TimingHealth)
      modifies this
      ensures View() == Observed(old(View()), Poll(now)) && h == health
    {
      var reference := if lastEventAt.Some? then lastEventAt.value else startedAt;
      var elapsed := SaturatingSub(now, reference);
      health := if !cadenceVerified && elapsed < limits.timeout then Startup else ClassifyElapsed(limits, elapsed);
      h := health;
    }
  }

  function MonitorAfter(limits: TimingLimits, startedAt: u64, seen: seq<Observation>): Monitor {
    if |seen| == 0 then NewMonitor(limits, startedAt)
    else Observed(MonitorAfter(limits, startedAt, seen[..|seen| - 1]), seen[|seen| - 1])
  }

  /** The times of the events seen, in order. */
  function EventTimes(seen: seq<Observation>): seq<u64> {
    if |seen| == 0 then []
    else EventTimes(seen[..|seen| - 1]) + match seen[|seen| - 1] case Event(at) => [at] case Poll(_) => []
  }

  /** Over any interleaving of events and polls the monitor's memory is the last event
      time and whether there have been two; healthy says that there have been two and that
      the last look or event came less than the late limit after the event before it; and a
      look at or past the timeout after the last event, or after the start, says timeout. */
  lemma {:induction false} HealthMeans(limits: TimingLimits, startedAt: u64, seen: seq<Observation>)
    ensures var m, t := MonitorAfter(limits, startedAt, seen), EventTimes(seen);
      && m.limits == limits && m.startedAt == startedAt
      && m.lastEventAt == (if |t| == 0 then None else Some(t[|t| - 1]))
      && (m.cadenceVerified <==> |t| >= 2)
      && (m.health.Healthy? ==> |t| >= 2)
      && (|seen| > 0 ==> HealthOfLast(limits, startedAt, seen, m.health))
  {
    if |seen| > 0 {
      var before := seen[..|seen| - 1];
      HealthMeans(limits, startedAt, before);
      assert EventTimes(before) <= EventTimes(seen);
    }
  }

  /** What the health says about the last observation. */
  predicate HealthOfLast(limits: TimingLimits, startedAt: u64, seen: seq<Observation>, health: TimingHealth)
    requires |seen| > 0
  {
    var t := EventTimes(seen[..|seen| - 1]);
    var since: int := seen[|seen| - 1].at - if |t| == 0 then startedAt else t[|t| - 1];
    match seen[|seen| - 1]
    case Event(_) =>
      && (health.Startup? <==> |t| == 0)
      && (health.Healthy? <==> |t| > 0 && since < limits.late)
      && (health.Late? <==> |t| > 0 && limits.late <= since < limits.timeout)
      && (health.Timeout? <==> |t| > 0 && since >= limits.timeout)
    case Poll(_) =>
      && (health.Healthy? <==> |t| >= 2 && since < limits.late)
      && (health.Late? <==> |t| >= 2 && limits.late <= since < limits.timeout)
      && (health.Timeout? <==> since >= limits.timeout)
  }

  // ----- reaction-wheel headroom ---------------------------------------------------------

  datatype WheelAuthority = Nominal | Warning | Exhausted

  datatype SpeedLimits = SpeedLimits(warning: real, hard: real)

  type WheelLimits = l: SpeedLimits | 0.0 < l.warning < l.hard witness SpeedLimits(1.0, 2.0)

  function ClassifySpeed(l: WheelLimits, speed: real): WheelAuthority {
    if Abs(speed) >= l.hard then Exhausted else if Abs(speed) >= l.warning then Warning else Nominal
  }

  function HeadroomFraction(l: WheelLimits, speed: real): (h: real)
    ensures 0.0 <= h <= 1.0
  {
    Clamp(1.0 - Abs(speed) / l.hard, 0.0, 1.0)
  }

  /** The classes are bands of the remaining headroom: none left is exhausted, full only at rest. */
  lemma HeadroomBands(l: WheelLimits, speed: real)
    ensures ClassifySpeed(l, speed).Exhausted? <==> HeadroomFraction(l, speed) == 0.0
    ensures ClassifySpeed(l, speed).Nominal? <==> HeadroomFraction(l, speed) > 1.0 - l.warning / l.hard
    ensures HeadroomFraction(l, speed) == 1.0 <==> speed == 0.0
  {
    QuotientOrder(Abs(speed), l.hard, l.hard);
    QuotientOrder(Abs(speed), l.warning, l.hard);
    QuotientOrder(l.warning, l.hard, l.hard);
    QuotientOrder(0.0, Abs(speed), l.hard);
    SelfQuotient(l.hard);
  }

  lemma SelfQuotient(k: real)
    requires k > 0.0
    ensures k / k == 1.0 && 0.0 / k == 0.0
  {
    ProductQuotient(1.0, k);
    ProductQuotient(0.0, k);
  }

  lemma QuotientOrder(a: real, b: real, k: real)
    requires k > 0.0
    ensures a < b <==> a / k < b / k
    ensures a == b <==> a / k == b / k
  {
    ProductQuotient(a, k);
    ProductQuotient(b, k);
    var x, y := a / k, b / k;
    if x < y { Scaled(k, y - x, k * (y - x)); }
    if y < x { Scaled(k, x - y, k * (x - y)); }
  }

  lemma Scaled(k: real, gap: real, product: real)
    requires k > 0.0 && gap > 0.0 && product == k * gap
    ensures product > 0.0
  {}

  // ----- authority ------------------------------------------------------------------------------

  datatype Reason = OperatingStateReason | SensorTiming | EstimateInvalid | WheelWarning | WheelExhausted | DriveSaturated | ReactionSaturated

  datatype Context = Context(state: OperatingState, timing: TimingHealth, validity: StateValidity, wheel: WheelAuthority)

  datatype PairCommand = PairCommand(drive: Bounded, reaction: Bounded)

  datatype Decision = Decision(closedLoop: bool, reasons: set<Reason>, constrained: bool, holdIntegrator: bool)

  /** Only Evaluate makes one of these from commands. */
  datatype AuthorizedActuation = AuthorizedActuation(commands: PairCommand)

  datatype Outcome = Outcome(decision: Decision, authorized: Option<AuthorizedActuation>)

  function Evaluate(c: Context, commands: PairCommand): Outcome {
    var stateDenied, timingDenied := !ClosedLoopState(c.state), !c.timing.Healthy?;
    var r0 := if stateDenied then {OperatingStateReason} else {};
    var r1 := if timingDenied then r0 + {SensorTiming} else r0;
    var r2 := if !c.validity.Valid? then r1 + {EstimateInvalid} else r1;
    var r3 := match c.wheel case Nominal => r2 case Warning => r2 + {WheelWarning} case Exhausted => r2 + {WheelExhausted};
    var r4 := if commands.drive.saturated then r3 + {DriveSaturated} else r3;
    var r5 := if commands.reaction.saturated then r4 + {ReactionSaturated} else r4;
    var denied := stateDenied || timingDenied || !c.validity.Valid? || c.wheel.Exhausted?;
    var constrained := c.wheel.Warning? || commands.drive.saturated || commands.reaction.saturated;
    Outcome(Decision(!denied, r5, constrained, denied || constrained), if denied then None else Some(AuthorizedActuation(commands)))
  }

  /** What each reason says. */
  predicate Says(c: Context, commands: PairCommand, r: Reason) {
    match r
    case OperatingStateReason => c.state !in {Balancing, MomentumLimited}
    case SensorTiming => c.timing != Healthy
    case EstimateInvalid => c.validity == Invalid
    case WheelWarning => c.wheel == Warning
    case WheelExhausted => c.wheel == Exhausted
    case DriveSaturated => commands.drive.saturated
    case ReactionSaturated => commands.reaction.saturated
  }

  const DENYING: set<Reason> := {OperatingStateReason, SensorTiming, EstimateInvalid, WheelExhausted}

  /** The explanation is complete: a reason is given exactly when what it says is so; a token exists exactly
      when no denying reason is given, it carries the commands unchanged, and the integrator is held exactly when some reason is given. */
  lemma ReasonsAreComplete(c: Context, commands: PairCommand)
    ensures var o := Evaluate(c, commands);
      && (forall r :: r in o.decision.reasons <==> Says(c, commands, r))
      && (o.authorized.Some? <==> o.decision.closedLoop) && (o.authorized.Some? <==> o.decision.reasons !! DENYING)
      && (o.authorized.Some? ==> o.authorized.value.commands == commands)
      && (o.decision.holdIntegrator <==> o.decision.reasons != {})
      && (o.decision.constrained <==> exists r | r in o.decision.reasons :: r !in DENYING)
  {
    var reasons := Evaluate(c, commands).decision.reasons;
    if c.wheel.Warning? { assert WheelWarning in reasons; }
    if commands.drive.saturated { assert DriveSaturated in reasons; }
    if commands.reaction.saturated { assert ReactionSaturated in reasons; }
    if !ClosedLoopState(c.state) { assert OperatingStateReason in reasons; }
    if !c.timing.Healthy? { assert SensorTiming in reasons; }
    if !c.validity.Valid? { assert EstimateInvalid in reasons; }
    if c.wheel.Exhausted? { assert WheelExhausted in reasons; }
  }
}
