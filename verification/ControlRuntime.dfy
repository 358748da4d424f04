/** One control opportunity: estimator, state feedback with a guarded integrator,
    inverse actuators, authority; and what every run of them keeps. */
module ControlRuntime {
  import opened Wrappers
  import opened LinearAlgebra
  import opened StateEstimator
  import opened ActuatorModel
  import opened RuntimeState

  /** The largest finite value of the code's number type. */
  const F32_MAX: real := 340282346638528859811704183484516925440.0

  predicate Finite(x: real) { -F32_MAX <= x <= F32_MAX }

  predicate AllFinite(v: Vec) { forall i | 0 <= i < |v| :: Finite(v[i]) }

  // ----- state feedback --------------------------------------------------------------------

  datatype ControlError = NonFiniteState | NonFiniteReference | NonFiniteFeedforward | NumericalFault

  /** Gains, integral gains, projection, bounds, sample period, integral. */
  datatype Lqi = Lqi(k: Mat, kI: Mat, cI: Mat, bounds: InputVec, period: real, integral: InputVec) {
    ghost predicate Shaped() {
      IsMat(k, 2, STATES) && IsMat(kI, 2, 2) && IsMat(cI, 2, STATES) && period > 0.0 && bounds[0] > 0.0 && bounds[1] > 0.0
    }

    predicate Bounded() {
      -bounds[0] <= integral[0] <= bounds[0] && -bounds[1] <= integral[1] <= bounds[1]
    }
  }

  datatype Controller = LqrControl(k: Mat) | LqiControl(lqi: Lqi) {
    ghost predicate Shaped() {
      match this
      case LqrControl(k) => IsMat(k, 2, STATES)
      case LqiControl(lqi) => lqi.Shaped() && lqi.Bounded()
    }
  }

  /** u = feedforward - K e - K_i z */
  function LqiLaw(c: Lqi, z: InputVec, e: StateVec, feedforward: InputVec): (u: InputVec)
    requires IsMat(c.k, 2, STATES) && IsMat(c.kI, 2, 2)
  {
    [feedforward[0] - Dot(c.k[0], e) - Dot(c.kI[0], z), feedforward[1] - Dot(c.k[1], e) - Dot(c.kI[1], z)]
  }

  function LqrLaw(k: Mat, e: StateVec, feedforward: InputVec): (u: InputVec)
    requires IsMat(k, 2, STATES)
  {
    [feedforward[0] - Dot(k[0], e), feedforward[1] - Dot(k[1], e)]
  }

  /** z + Ts C e, each entry kept within its bound. */
  function Integrated(c: Lqi, e: StateVec): (z: InputVec)
    requires c.Shaped()
  {
    [IntegratedRow(c, e, 0), IntegratedRow(c, e, 1)]
  }

  function IntegratedRow(c: Lqi, e: StateVec, row: nat): (z: real)
    requires c.Shaped() && row < 2
  {
    Clamp(c.integral[row] + c.period * Dot(c.cI[row], e), -c.bounds[row], c.bounds[row])
  }

  function ErrorOf(x: StateVec, reference: StateVec): (e: StateVec) { Sub(x, reference) }

  /** Why a command is refused before it is computed. */
  function Refused(x: StateVec, reference: StateVec, feedforward: InputVec): Option<ControlError> {
    if !AllFinite(x) then Some(NonFiniteState)
    else if !AllFinite(reference) then Some(NonFiniteReference)
    else if !AllFinite(feedforward) then Some(NonFiniteFeedforward)
    else None
  }

  function Checked(u: InputVec): Result<InputVec, ControlError> {
    if AllFinite(u) then Ok(u) else Err(ControlError.NumericalFault)
  }

  /** The demand with this integral. */
  function Demand(c: Lqi, z: InputVec, x: StateVec, reference: StateVec, feedforward: InputVec): Result<InputVec, ControlError>
    requires IsMat(c.k, 2, STATES) && IsMat(c.kI, 2, 2)
  {
    match Refused(x, reference, feedforward)
    case Some(e) => Err(e)
    case None => Checked(LqiLaw(c, z, ErrorOf(x, reference), feedforward))
  }

  function LqrDemand(k: Mat, x: StateVec, reference: StateVec, feedforward: InputVec): Result<InputVec, ControlError>
    requires IsMat(k, 2, STATES)
  {
    match Refused(x, reference, feedforward)
    case Some(e) => Err(e)
    case None => Checked(LqrLaw(k, ErrorOf(x, reference), feedforward))
  }

  method IntegrateRows(c: Lqi, error: StateVec) returns (integral: InputVec)
    requires c.Shaped()
    ensures integral == Integrated(c, error)
  {
    hide Dot;
    integral := c.integral;
    for row := 0 to 2
      invariant forall i | 0 <= i < row :: integral[i] == Integrated(c, error)[i]
      invariant forall i | row <= i < 2 :: integral[i] == c.integral[i]
    {
      var delta := c.period * Dot(c.cI[row], error);
      var bounded := Clamp(c.integral[row] + delta, -c.bounds[row], c.bounds[row]);
      assert bounded == IntegratedRow(c, error, row);
      integral := integral[row := bounded];
    }
  }

  /** The controller's own command, on a copy: with `integrate` it first advances the integral. */
  method LqiCommand(c: Lqi, x: StateVec, reference: StateVec, feedforward: InputVec, integrate: bool)
    returns (next: Lqi, r: Result<InputVec, ControlError>)
    requires c.Shaped()
    ensures next == (if integrate && Refused(x, reference, feedforward).None?
                     then c.(integral := Integrated(c, ErrorOf(x, reference))) else c)
    ensures r == Demand(c, next.integral, x, reference, feedforward)
  {
    hide Dot, Refused, Integrated, Checked, LqiLaw;
    var refused := Refused(x, reference, feedforward);
    if refused.Some? { return c, Err(refused.value); }
    var error := ErrorOf(x, reference);
    next := c;
    if integrate {
      var integral := IntegrateRows(c, error);
      next := c.(integral := integral);
    }
    r := Checked(LqiLaw(c, next.integral, error, feedforward));
  }

  // ----- what a demand is ------------------------------------------------------------------------

  /** The demand u balances the state's excursion from the reference: what the gains make of the state, the
      integral's share and the demand add up to the feedforward and what the gains make of the reference. */
  ghost predicate Balances(k: Mat, share: InputVec, u: InputVec, x: StateVec, reference: StateVec, feedforward: InputVec)
    requires IsMat(k, 2, STATES)
  {
    forall j | 0 <= j < 2 :: u[j] + Dot(k[j], x) + share[j] == feedforward[j] + Dot(k[j], reference)
  }

  /** What the integral contributes: nothing without one. */
  ghost function IntegralShare(c: Controller): InputVec
    requires c.Shaped()
  {
    match c case LqrControl(_) => ZERO_INPUT case LqiControl(lqi) => [Dot(lqi.kI[0], lqi.integral), Dot(lqi.kI[1], lqi.integral)]
  }

  ghost function Gains(c: Controller): (k: Mat)
    requires c.Shaped()
    ensures IsMat(k, 2, STATES)
  {
    match c case LqrControl(k) => k case LqiControl(lqi) => lqi.k
  }

  /** One row of the integral after a step: the projected excursion times the period is added,
      and where that would pass a bound the integral stops at it. */
  ghost predicate RowMoves(c: Lqi, z: InputVec, x: StateVec, reference: StateVec, j: nat)
    requires c.Shaped() && j < 2
  {
    var sum := c.integral[j] + c.period * (Dot(c.cI[j], x) - Dot(c.cI[j], reference));
    && (-c.bounds[j] <= sum <= c.bounds[j] ==> z[j] == sum)
    && (sum > c.bounds[j] ==> z[j] == c.bounds[j]) && (sum < -c.bounds[j] ==> z[j] == -c.bounds[j])
  }

  lemma {:induction false} LqrDemandBalances(k: Mat, x: StateVec, reference: StateVec, feedforward: InputVec)
    requires IsMat(k, 2, STATES) && LqrDemand(k, x, reference, feedforward).Ok?
    ensures Balances(k, ZERO_INPUT, LqrDemand(k, x, reference, feedforward).value, x, reference, feedforward)
  {
    DotSub(k[0], x, reference);
    DotSub(k[1], x, reference);
    hide Dot, Sub, AllFinite;
  }

  lemma {:induction false} LqiDemandBalances(c: Lqi, z: InputVec, x: StateVec, reference: StateVec, feedforward: InputVec)
    requires c.Shaped() && Demand(c, z, x, reference, feedforward).Ok?
    ensures Balances(c.k, [Dot(c.kI[0], z), Dot(c.kI[1], z)], Demand(c, z, x, reference, feedforward).value, x, reference, feedforward)
  {
    DotSub(c.k[0], x, reference);
    DotSub(c.k[1], x, reference);
    hide Dot, Sub, AllFinite;
  }

  lemma {:induction false} IntegralMoves(c: Lqi, x: StateVec, reference: StateVec, j: nat)
    requires c.Shaped() && j < 2
    ensures RowMoves(c, Integrated(c, ErrorOf(x, reference)), x, reference, j)
  {
    var e := ErrorOf(x, reference);
    ErrorAgainst(c.cI[j], x, reference);
    hide Dot, Sub, ErrorOf;
    assert Integrated(c, e)[j] == IntegratedRow(c, e, j);
    SameProduct(c.period, Dot(c.cI[j], e), Dot(c.cI[j], x) - Dot(c.cI[j], reference));
  }

  lemma {:induction false} ErrorAgainst(row: StateVec, x: StateVec, reference: StateVec)
    ensures Dot(row, ErrorOf(x, reference)) == Dot(row, x) - Dot(row, reference)
  {
    DotSub(row, x, reference);
    hide Dot, Sub;
  }

  lemma SameProduct(k: real, x: real, y: real)
    requires x == y
    ensures k * x == k * y
  {}

  /** A refusal names the first operand that is not finite, and nothing is refused otherwise but a demand
      that is not finite itself. */
  lemma {:induction false} DemandRefusedExactly(c: Lqi, z: InputVec, x: StateVec, reference: StateVec, feedforward: InputVec)
    requires c.Shaped()
    ensures var r := Demand(c, z, x, reference, feedforward);
      var lqr := LqrDemand(c.k, x, reference, feedforward);
      && (r == Err(NonFiniteState) <==> exists i | 0 <= i < STATES :: !Finite(x[i]))
      && (r == Err(NonFiniteReference) <==> AllFinite(x) && exists i | 0 <= i < STATES :: !Finite(reference[i]))
      && (r == Err(NonFiniteFeedforward) <==> AllFinite(x) && AllFinite(reference) && !(Finite(feedforward[0]) && Finite(feedforward[1])))
      && (r.Ok? ==> Finite(r.value[0]) && Finite(r.value[1]))
      && (lqr.Ok? ==> Finite(lqr.value[0]) && Finite(lqr.value[1]))
      && (forall e | e != ControlError.NumericalFault :: lqr == Err(e) <==> r == Err(e))
  {
    hide Dot, Finite, LqiLaw, LqrLaw, ErrorOf;
  }

  // ----- one opportunity -----------------------------------------------------------------------

  datatype Estimate = Estimate(state: StateVec, validity: StateValidity)

  /** An estimator with private state E: what a step and a reset do to it. */
  datatype Estimator<!E> = Estimator(
    step: (E, InputVec, InputVec, EstimatorMeasurement) -> (E, Result<Estimate, EstimateError>),
    reset: (E, StateVec) -> (E, bool))

  datatype ActuatorPair = ActuatorPair(drive: Model, reaction: Model)

  datatype ActuatorError = NonFiniteDemand | NonFiniteOperatingPoint

  datatype RuntimeError = EstimateFailed(estimate: EstimateError) | ControlFailed(control: ControlError) | ActuatorFailed(actuator: ActuatorError)

  datatype StepInput = StepInput(measurement: EstimatorMeasurement, state: OperatingState, timing: TimingHealth,
                                 reference: StateVec, feedforward: InputVec, driveSpeed: real, reactionSpeed: real)

  datatype Evaluated = Evaluated(demand: InputVec, outcome: Outcome, commands: PairCommand)

  datatype StepResult = StepResult(estimate: Estimate, demand: InputVec, commands: PairCommand, decision: Decision,
                                   authorized: Option<AuthorizedActuation>, applied: InputVec, advanced: bool)

  datatype Design<!E> = Design(estimator: Estimator<E>, actuators: ActuatorPair, limits: WheelLimits)

  datatype Runtime<E> = Runtime(estimator: E, controller: Controller, previousApplied: InputVec)

  function CommandForTorqueChecked(m: Model, requested: real, speed: real): Result<Bounded, ActuatorError> {
    if !Finite(requested) then Err(NonFiniteDemand)
    else if !Finite(speed) then Err(NonFiniteOperatingPoint)
    else Ok(CommandForTorque(m, requested, speed))
  }

  function CommandForDemand(a: ActuatorPair, demand: InputVec, driveSpeed: real, reactionSpeed: real): Result<PairCommand, ActuatorError> {
    match CommandForTorqueChecked(a.drive, demand[0], driveSpeed)
    case Err(e) => Err(e)
    case Ok(drive) =>
      match CommandForTorqueChecked(a.reaction, demand[1], reactionSpeed)
      case Err(e) => Err(e)
      case Ok(reaction) => Ok(PairCommand(drive, reaction))
  }

  function EvaluateDemand(a: ActuatorPair, demand: InputVec, input: StepInput, context: Context): Result<Evaluated, RuntimeError> {
    match CommandForDemand(a, demand, input.driveSpeed, input.reactionSpeed)
    case Err(e) => Err(ActuatorFailed(e))
    case Ok(commands) => Ok(Evaluated(demand, Evaluate(context, commands), commands))
  }

  predicate FullyUnconstrained(d: Decision) { d.closedLoop && !d.constrained }

  function AppliedInput(a: Option<AuthorizedActuation>): InputVec {
    match a
    case None => ZERO_INPUT
    case Some(token) => [token.commands.drive.predicted, token.commands.reaction.predicted]
  }

  function ContextOf(limits: WheelLimits, input: StepInput, estimate: Estimate): Context {
    Context(input.state, input.timing, estimate.validity, ClassifySpeed(limits, estimate.state[6]))
  }

  /** The demand the controller makes with this integral, through actuators and authority. */
  ghost function Attempt(d: ActuatorPair, c: Lqi, z: InputVec, input: StepInput, x: StateVec, context: Context): Result<Evaluated, RuntimeError>
    requires c.Shaped()
  {
    match Demand(c, z, x, input.reference, input.feedforward)
    case Err(e) => Err(ControlFailed(e))
    case Ok(u) => EvaluateDemand(d, u, input, context)
  }

  /** The guarded integrator: hold first, integrate only if that is unconstrained, keep the
      integrated request only if it is unconstrained too. */
  ghost function Guarded(d: ActuatorPair, c: Lqi, input: StepInput, x: StateVec, context: Context): Result<(Evaluated, Lqi, bool), RuntimeError>
    requires c.Shaped()
  {
    match Attempt(d, c, c.integral, input, x, context)
    case Err(e) => Err(e)
    case Ok(hold) =>
      if !FullyUnconstrained(hold.outcome.decision) then Ok((hold, c, false))
      else
        var z := Integrated(c, ErrorOf(x, input.reference));
        match Attempt(d, c, z, input, x, context)
        case Err(e) => Err(e)
        case Ok(more) =>
          if FullyUnconstrained(more.outcome.decision) then Ok((more, c.(integral := z), true)) else Ok((hold, c, false))
  }

  ghost function Controlled(d: ActuatorPair, c: Controller, input: StepInput, x: StateVec, context: Context): Result<(Evaluated, Controller, bool), RuntimeError>
    requires c.Shaped()
  {
    match c
    case LqrControl(k) =>
      (match LqrDemand(k, x, input.reference, input.feedforward)
       case Err(e) => Err(ControlFailed(e))
       case Ok(u) => match EvaluateDemand(d, u, input, context)
         case Err(e) => Err(e)
         case Ok(ev) => Ok((ev, c, false)))
    case LqiControl(lqi) =>
      match Guarded(d, lqi, input, x, context)
      case Err(e) => Err(e)
      case Ok(t) => Ok((t.0, LqiControl(t.1), t.2))
  }

  ghost function Step<E>(d: Design<E>, r: Runtime<E>, input: StepInput): (Runtime<E>, Result<StepResult, RuntimeError>)
    requires r.controller.Shaped()
  {
    var (est, estimated) := d.estimator.step(r.estimator, r.previousApplied, r.previousApplied, input.measurement);
    match estimated
    case Err(e) => (r.(estimator := est), Err(EstimateFailed(e)))
    case Ok(estimate) =>
      match Controlled(d.actuators, r.controller, input, estimate.state, ContextOf(d.limits, input, estimate))
      case Err(e) => (r.(estimator := est), Err(e))
      case Ok(t) =>
        var applied := AppliedInput(t.0.outcome.authorized);
        (Runtime(est, t.1, applied),
         Ok(StepResult(estimate, t.0.demand, t.0.commands, t.0.outcome.decision, t.0.outcome.authorized, applied, t.2)))
  }

  class ControlRuntime<!E> {
    const design: Design<E>
    var estimator: E
    var controller: Controller
    var previousApplied: InputVec

    ghost function View(): Runtime<E>
      reads this
    {
      Runtime(estimator, controller, previousApplied)
    }

    constructor (design: Design<E>, estimator: E, controller: Controller)
      requires controller.Shaped()
      ensures View() == Runtime(estimator, controller, ZERO_INPUT) && this.design == design
    {
      this.design, this.estimator, this.controller, previousApplied := design, estimator, controller, ZERO_INPUT;
    }

    method Reset(initial: StateVec) returns (accepted: bool)
      requires controller.Shaped()
      modifies this
      ensures previousApplied == ZERO_INPUT && controller.Shaped()
      ensures (estimator, accepted) == design.estimator.reset(old(estimator), initial)
      ensures match old(controller)
        case LqrControl(_) => controller == old(controller)
        case LqiControl(lqi) => controller == LqiControl(lqi.(integral := ZERO_INPUT))
    {
      previousApplied := ZERO_INPUT;
      match controller {
        case LqrControl(_) =>
        case LqiControl(lqi) => controller := LqiControl(lqi.(integral := ZERO_INPUT));
      }
      var (next, ok) := design.estimator.reset(estimator, initial);
      estimator := next;
      accepted := ok;
    }

    method AttemptDemand(demand: Result<InputVec, ControlError>, input: StepInput, context: Context)
      returns (r: Result<Evaluated, RuntimeError>)
      ensures r == match demand
        case Err(e) => Err(ControlFailed(e))
        case Ok(u) => EvaluateDemand(design.actuators, u, input, context)
    {
      match demand
      case Err(e) => return Err(ControlFailed(e));
      case Ok(u) => return EvaluateDemand(design.actuators, u, input, context);
    }

    /** The guarded integrator, committing the candidate controller only at its end. */
    method ControlLqi(lqi: Lqi, input: StepInput, x: StateVec, context: Context)
      returns (r: Result<(Evaluated, bool), RuntimeError>)
      requires controller == LqiControl(lqi) && controller.Shaped()
      modifies this`controller
      ensures match Guarded(design.actuators, lqi, input, x, context)
        case Err(e) => r == Err(e) && controller == old(controller)
        case Ok(t) => r == Ok((t.0, t.2)) && controller == LqiControl(t.1)
    {
      hide Demand, EvaluateDemand, Integrated;
      var _, holdDemand := LqiCommand(lqi, x, input.reference, input.feedforward, false);
      var hold := AttemptDemand(holdDemand, input, context);
      if hold.Err? { return Err(hold.error); }
      if !FullyUnconstrained(hold.value.outcome.decision) { return Ok((hold.value, false)); }
      assert Refused(x, input.reference, input.feedforward).None? by { DemandNeedsFinite(lqi, lqi.integral, x, input); }
      var candidate, integratedDemand := LqiCommand(lqi, x, input.reference, input.feedforward, true);
      var more := AttemptDemand(integratedDemand, input, context);
      if more.Err? { return Err(more.error); }
      if !FullyUnconstrained(more.value.outcome.decision) { return Ok((hold.value, false)); }
      controller := LqiControl(candidate);
      r := Ok((more.value, true));
    }

    method Control(input: StepInput, x: StateVec, context: Context) returns (r: Result<(Evaluated, bool), RuntimeError>)
      requires controller.Shaped()
      modifies this`controller
      ensures match Controlled(design.actuators, old(controller), input, x, context)
        case Err(e) => r == Err(e) && controller == old(controller)
        case Ok(t) => r == Ok((t.0, t.2)) && controller == t.1
    {
      hide LqrDemand, EvaluateDemand, Guarded;
      match controller {
        case LqrControl(k) =>
          var attempt := AttemptDemand(LqrDemand(k, x, input.reference, input.feedforward), input, context);
          if attempt.Err? { return Err(attempt.error); }
          return Ok((attempt.value, false));
        case LqiControl(lqi) =>
          r := ControlLqi(lqi, input, x, context);
      }
    }

    /** Exactly one control opportunity. */
    method StepOnce(input: StepInput) returns (r: Result<StepResult, RuntimeError>)
      requires controller.Shaped()
      modifies this
      ensures (View(), r) == Step(design, old(View()), input)
      ensures r.Ok? ==> StepBalanced(old(controller), controller, input, r.value)
    {
      StepBalances(design, View(), input);
      hide Controlled, StepBalanced;
      var (next, estimated) := design.estimator.step(estimator, previousApplied, previousApplied, input.measurement);
      estimator := next;
      if estimated.Err? { return Err(EstimateFailed(estimated.error)); }
      var estimate := estimated.value;
      var controlled := Control(input, estimate.state, ContextOf(design.limits, input, estimate));
      if controlled.Err? { return Err(controlled.error); }
      var (evaluated, advanced) := controlled.value;
      var authorized := evaluated.outcome.authorized;
      var applied := AppliedInput(authorized);
      previousApplied := applied;
      r := Ok(StepResult(estimate, evaluated.demand, evaluated.commands, evaluated.outcome.decision, authorized, applied, advanced));
    }
  }

  lemma {:induction false} DemandNeedsFinite(c: Lqi, z: InputVec, x: StateVec, input: StepInput)
    requires c.Shaped() && Demand(c, z, x, input.reference, input.feedforward).Ok?
    ensures Refused(x, input.reference, input.feedforward).None?
  {
    hide LqiLaw;
  }

  // ----- what a step keeps ---------------------------------------------------------------------------

  /** The control law on the integral a controller holds. */
  ghost function Law(c: Controller, x: StateVec, input: StepInput): InputVec
    requires c.Shaped()
  {
    match c
    case LqrControl(k) => LqrLaw(k, ErrorOf(x, input.reference), input.feedforward)
    case LqiControl(lqi) => LqiLaw(lqi, lqi.integral, ErrorOf(x, input.reference), input.feedforward)
  }

  /** The attempt an LQI controller makes with an integral, in this step. */
  ghost function AttemptWith<E>(d: Design<E>, c: Lqi, z: InputVec, input: StepInput, estimate: Estimate): Result<Evaluated, RuntimeError>
    requires c.Shaped()
  {
    Attempt(d.actuators, c, z, input, estimate.state, ContextOf(d.limits, input, estimate))
  }

  ghost predicate Unconstrained(r: Result<Evaluated, RuntimeError>) {
    r.Ok? && FullyUnconstrained(r.value.outcome.decision)
  }

  lemma {:induction false} IntegratedBounded(c: Lqi, e: StateVec)
    requires c.Shaped()
    ensures c.(integral := Integrated(c, e)).Bounded()
  {
    hide Dot;
  }

  /** Everything a successful guarded attempt promises. */
  lemma {:induction false} GuardedKeeps(d: ActuatorPair, c: Lqi, input: StepInput, x: StateVec, context: Context)
    requires c.Shaped() && c.Bounded()
    ensures var g := Guarded(d, c, input, x, context);
      var z := Integrated(c, ErrorOf(x, input.reference));
      var hold, more := Attempt(d, c, c.integral, input, x, context), Attempt(d, c, z, input, x, context);
      g.Ok? ==>
        && (g.value.2 <==> Unconstrained(hold) && Unconstrained(more))
        && g.value.1 == (if g.value.2 then c.(integral := z) else c) && g.value.1.Shaped() && g.value.1.Bounded()
        && g.value.0.demand == LqiLaw(c, g.value.1.integral, ErrorOf(x, input.reference), input.feedforward)
        && g.value.0.outcome == Evaluate(context, g.value.0.commands)
        && (FullyUnconstrained(g.value.0.outcome.decision) ==> g.value.2 || !Unconstrained(more))
  {
    hide Integrated, LqiLaw, CommandForDemand, Evaluate;
    IntegratedBounded(c, ErrorOf(x, input.reference));
  }

  /** What holds of a step that succeeds. */
  ghost predicate StepKept<E>(d: Design<E>, before: Runtime<E>, after: Runtime<E>, input: StepInput, s: StepResult)
    requires before.controller.Shaped()
  {
    && after.controller.Shaped()
    // the estimator is stepped with what was last authorized, both for prediction and feedthrough
    && (after.estimator, Ok(s.estimate)) == d.estimator.step(before.estimator, before.previousApplied, before.previousApplied, input.measurement)
    // the demand is the law on the integral now held, and the token is the gate's verdict on its commands
    && s.demand == Law(after.controller, s.estimate.state, input)
    && Outcome(s.decision, s.authorized) == Evaluate(ContextOf(d.limits, input, s.estimate), s.commands)
    // what is remembered is what was authorized, and nothing otherwise
    && after.previousApplied == s.applied == AppliedInput(s.authorized)
    // the integral moves exactly when both requests are free, and then by the clamped Euler step
    && (before.controller.LqrControl? ==> after.controller == before.controller && !s.advanced)
    && (before.controller.LqiControl? ==>
         var c := before.controller.lqi;
         var z := Integrated(c, ErrorOf(s.estimate.state, input.reference));
         && (s.advanced <==> Unconstrained(AttemptWith(d, c, c.integral, input, s.estimate)) && Unconstrained(AttemptWith(d, c, z, input, s.estimate)))
         && after.controller == LqiControl(if s.advanced then c.(integral := z) else c))
  }

  /** A successful step keeps all of that; a failed one leaves controller and remembered input alone. */
  lemma {:induction false} StepKeeps<E>(d: Design<E>, r: Runtime<E>, input: StepInput)
    requires r.controller.Shaped()
    ensures var (after, result) := Step(d, r, input);
      match result
      case Ok(s) => StepKept(d, r, after, input, s)
      case Err(_) => after.controller == r.controller && after.previousApplied == r.previousApplied
  {
    var (est, estimated) := d.estimator.step(r.estimator, r.previousApplied, r.previousApplied, input.measurement);
    if estimated.Ok? {
      var context := ContextOf(d.limits, input, estimated.value);
      hide Guarded, Integrated, Attempt, LqiLaw, LqrLaw, CommandForDemand, Evaluate, ContextOf;
      if r.controller.LqiControl? { GuardedKeeps(d.actuators, r.controller.lqi, input, estimated.value.state, context); }
    }
  }

  /** The demand a step returns balances the excursion, with the share of the integral it leaves behind, and
      that integral is the old one or, where it advanced, the old one moved row by row. */
  ghost predicate StepBalanced(before: Controller, after: Controller, input: StepInput, s: StepResult)
    requires before.Shaped()
  {
    && after.Shaped() && Balances(Gains(after), IntegralShare(after), s.demand, s.estimate.state, input.reference, input.feedforward)
    && (after != before ==>
         && s.advanced && before.LqiControl? && after.LqiControl? && after.lqi.(integral := before.lqi.integral) == before.lqi
         && forall j | 0 <= j < 2 :: RowMoves(before.lqi, after.lqi.integral, s.estimate.state, input.reference, j))
  }

  lemma {:induction false} StepBalances<E>(d: Design<E>, r: Runtime<E>, input: StepInput)
    requires r.controller.Shaped()
    ensures var (after, result) := Step(d, r, input);
      result.Ok? ==> StepBalanced(r.controller, after.controller, input, result.value)
  {
    StepKeeps(d, r, input);
    var (after, result) := Step(d, r, input);
    if result.Ok? {
      var x, reference := result.value.estimate.state, input.reference;
      hide Step, Integrated, Attempt, Evaluate, Balances, RowMoves;
      LawBalances(after.controller, x, input);
      if result.value.advanced {
        IntegralMoves(r.controller.lqi, x, reference, 0);
        IntegralMoves(r.controller.lqi, x, reference, 1);
      }
    }
  }

  lemma {:induction false} LawBalances(c: Controller, x: StateVec, input: StepInput)
    requires c.Shaped()
    ensures Balances(Gains(c), IntegralShare(c), Law(c, x, input), x, input.reference, input.feedforward)
  {
    DotSub(Gains(c)[0], x, input.reference);
    DotSub(Gains(c)[1], x, input.reference);
    hide Dot, Sub;
  }

  /** Authorized torque needs a closed-loop state, healthy timing, a valid estimate and wheel headroom,
      and is then what the inverse actuators predict for the demand: a step is free exactly when the wheel is
      short of its warning speed and the demand is applied as it stands. */
  lemma {:induction false} AuthorizedTorque<E>(d: Design<E>, r: Runtime<E>, input: StepInput)
    requires r.controller.Shaped()
    ensures var (after, result) := Step(d, r, input);
      result.Ok? ==>
        var s := result.value;
        && (s.authorized.Some? <==>
             (ClosedLoopState(input.state) && input.timing.Healthy? && s.estimate.validity.Valid?
              && !ClassifySpeed(d.limits, s.estimate.state[6]).Exhausted?))
        && (s.authorized.None? ==> after.previousApplied == ZERO_INPUT)
        && (FullyUnconstrained(s.decision) <==>
             s.authorized.Some? && ClassifySpeed(d.limits, s.estimate.state[6]).Nominal? && after.previousApplied == s.demand)
  {
    hide Step, ClassifySpeed, Law, AttemptWith, Integrated;
    StepKeeps(d, r, input);
    var (after, result) := Step(d, r, input);
    if result.Ok? {
      var s := result.value;
      assert StepKept(d, r, after, input, s);
      CommandsOfDemand(d, r, input);
      hide CommandForTorque;
      MetExactlyUnsaturated(d.actuators.drive, s.demand[0], input.driveSpeed);
      MetExactlyUnsaturated(d.actuators.reaction, s.demand[1], input.reactionSpeed);
    }
  }

  lemma {:induction false} AttemptCommands(d: ActuatorPair, demand: InputVec, input: StepInput, context: Context)
    ensures var r := EvaluateDemand(d, demand, input, context);
      r.Ok? ==>
        && r.value.demand == demand && r.value.outcome == Evaluate(context, r.value.commands)
        && r.value.commands == PairCommand(CommandForTorque(d.drive, demand[0], input.driveSpeed),
                                           CommandForTorque(d.reaction, demand[1], input.reactionSpeed))
  {
    hide CommandForTorque, Evaluate;
  }

  lemma {:induction false} CommandsOfDemand<E>(d: Design<E>, r: Runtime<E>, input: StepInput)
    requires r.controller.Shaped()
    ensures var result := Step(d, r, input).1;
      result.Ok? ==>
        result.value.commands == PairCommand(CommandForTorque(d.actuators.drive, result.value.demand[0], input.driveSpeed),
                                             CommandForTorque(d.actuators.reaction, result.value.demand[1], input.reactionSpeed))
  {
    hide CommandForTorque, Evaluate, Demand, LqrDemand, Integrated, ContextOf, EvaluateDemand;
    forall u: InputVec, context { AttemptCommands(d.actuators, u, input, context); }
  }

  predicate SpeedsFinite(input: StepInput) { Finite(input.driveSpeed) && Finite(input.reactionSpeed) }

  /** A demand that was made is finite, so behind it only a speed can fail. */
  lemma {:induction false} DemandPasses(d: ActuatorPair, u: InputVec, input: StepInput, context: Context)
    requires AllFinite(u)
    ensures var r := EvaluateDemand(d, u, input, context);
      (r.Ok? <==> SpeedsFinite(input)) && (r.Err? ==> r == Err(ActuatorFailed(NonFiniteOperatingPoint)))
  {
    hide CommandForTorque, Evaluate;
  }

  /** Which opportunity fails, and why: the estimator refused, an operand of the law was not finite, or the
      demand itself, or a shaft speed. No actuator is ever shown a demand that is not finite. */
  lemma {:induction false} StepFailsExactly<E>(d: Design<E>, r: Runtime<E>, input: StepInput)
    requires r.controller.Shaped()
    ensures var estimated := d.estimator.step(r.estimator, r.previousApplied, r.previousApplied, input.measurement).1;
      var result := Step(d, r, input).1;
      && (forall e :: result == Err(EstimateFailed(e)) <==> estimated == Err(e))
      && (estimated.Ok? ==>
           var refused := Refused(estimated.value.state, input.reference, input.feedforward);
           && (refused.Some? ==> result == Err(ControlFailed(refused.value)))
           && (result.Ok? ==> refused.None? && SpeedsFinite(input))
           && (result.Err? && refused.None? ==>
                result == Err(ControlFailed(ControlError.NumericalFault))
                || (result == Err(ActuatorFailed(NonFiniteOperatingPoint)) && !SpeedsFinite(input))))
  {
    var estimated := d.estimator.step(r.estimator, r.previousApplied, r.previousApplied, input.measurement).1;
    if estimated.Ok? {
      hide CommandForDemand, Evaluate, LqiLaw, LqrLaw, Integrated, Finite, AllFinite, SpeedsFinite, ContextOf, EvaluateDemand, Refused;
      forall u: InputVec, context | AllFinite(u) { DemandPasses(d.actuators, u, input, context); }
    }
  }

  // ----- runs -------------------------------------------------------------------------------------------

  /** The runtime after these opportunities, whatever became of each. */
  ghost function RunSteps<E>(d: Design<E>, r: Runtime<E>, inputs: seq<StepInput>): (after: Runtime<E>)
    requires r.controller.Shaped()
    ensures after.controller.Shaped()
  {
    if |inputs| == 0 then r
    else
      var before := RunSteps(d, r, inputs[..|inputs| - 1]);
      StepKeeps(d, before, inputs[|inputs| - 1]);
      Step(d, before, inputs[|inputs| - 1]).0
  }

  /** One opportunity keeps the gains and the bounds, and moves the integral only by advancing. */
  lemma {:induction false} OneStepIntegral<E>(d: Design<E>, r: Runtime<E>, input: StepInput)
    requires r.controller.Shaped() && r.controller.LqiControl?
    ensures var after := Step(d, r, input).0;
      && after.controller.LqiControl? && after.controller.Shaped()
      && after.controller.lqi.(integral := r.controller.lqi.integral) == r.controller.lqi
      && (after.controller.lqi.integral != r.controller.lqi.integral ==> AdvancedAt(d, r, input))
  {
    StepKeeps(d, r, input);
    hide Step, Integrated, Attempt, Law, Evaluate;
  }

  /** Over any run the integral stays within its bounds, the gains and bounds never change, and an
      integral that has moved was moved by some opportunity whose two requests were both free. */
  lemma {:induction false} IntegralOverRuns<E>(d: Design<E>, r: Runtime<E>, inputs: seq<StepInput>)
    requires r.controller.Shaped() && r.controller.LqiControl?
    ensures var after := RunSteps(d, r, inputs);
      && after.controller.LqiControl? && after.controller.lqi.Bounded()
      && after.controller.lqi.(integral := r.controller.lqi.integral) == r.controller.lqi
      && (after.controller.lqi.integral != r.controller.lqi.integral ==> SomeAdvance(d, r, inputs))
  {
    hide Step, AdvancedAt, SomeAdvance;
    if |inputs| > 0 {
      var n := |inputs| - 1;
      IntegralOverRuns(d, r, inputs[..n]);
      var before := RunSteps(d, r, inputs[..n]);
      OneStepIntegral(d, before, inputs[n]);
      SomeAdvanceGrows(d, r, inputs);
    }
  }

  ghost predicate SomeAdvance<E>(d: Design<E>, r: Runtime<E>, inputs: seq<StepInput>)
    requires r.controller.Shaped()
  {
    exists i | 0 <= i < |inputs| :: AdvancedAt(d, RunSteps(d, r, inputs[..i]), inputs[i])
  }

  lemma {:induction false} SomeAdvanceGrows<E>(d: Design<E>, r: Runtime<E>, inputs: seq<StepInput>)
    requires r.controller.Shaped() && |inputs| > 0
    ensures var n := |inputs| - 1;
      SomeAdvance(d, r, inputs[..n]) || AdvancedAt(d, RunSteps(d, r, inputs[..n]), inputs[n]) ==> SomeAdvance(d, r, inputs)
  {
    hide Step, AdvancedAt, RunSteps;
    var n := |inputs| - 1;
    if SomeAdvance(d, r, inputs[..n]) {
      var i :| 0 <= i < n && AdvancedAt(d, RunSteps(d, r, inputs[..n][..i]), inputs[..n][i]);
      assert inputs[..n][..i] == inputs[..i];
      assert AdvancedAt(d, RunSteps(d, r, inputs[..i]), inputs[i]);
    }
  }

  /** The integrator advanced in this step, which the step allows only when both requests are free. */
  ghost predicate AdvancedAt<E>(d: Design<E>, r: Runtime<E>, input: StepInput)
    requires r.controller.Shaped()
  {
    var (after, result) := Step(d, r, input);
    result.Ok? && result.value.advanced && FullyUnconstrained(result.value.decision) && StepKept(d, r, after, input, result.value)
  }
}
