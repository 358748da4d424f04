/** The simulated physical world: fixed-step RK4 over the coded plant, what it
    conserves exactly, and the wrapped encoder counts it shows. */
module SimulationWorld {
  import opened Wrappers
  import opened MachineInts
  import opened LinearAlgebra
  import opened StateEstimator
  import opened DynamicsModel
  import opened EncoderTracking

  const MAX_INTEGRATION_STEP_US: nat := 1000
  const COUNTER_MODULUS: int := 0x1_0000

  /** [s, s', theta, theta', phi, phi', psi', psi] */
  type Truth = v: Vec | |v| == 8 witness seq(8, i => 0.0)

  datatype WorldError =
    | TimeReversal(from: u64, to: u64)
    | TimeDiscontinuity(expected: u64, actual: u64)
    | SampleTimeMismatch(world: u64, sample: u64)
    | SampleIndexOverflow

  // ----- one integration step ------------------------------------------------------------

  /** What the two torques add to one row. */
  function Driven(b: Vec, u: InputVec): real
    requires |b| == INPUTS
  {
    b[0] * u[0] + b[1] * u[1]
  }

  /** The plant's rate of change, wheel angle included. */
  function Derivative(l: ContinuousLinearPlant, u: InputVec, x: Truth): (d: Truth)
    requires IsMat(l.a, STATES, STATES) && IsMat(l.b, STATES, INPUTS)
  {
    seq(8, row requires 0 <= row < 8 =>
      if row < 7 then Dot(l.a[row], x[..7]) + Driven(l.b[row], u) else x[6])
  }

  function AddScaled(base: Truth, d: Truth, scale: real): (r: Truth) {
    Add(base, Scale(scale, d))
  }

  /** The step's gain from its four stage slopes. */
  function Gain(dt: real, k1: real, k2: real, k3: real, k4: real): real {
    dt / 6.0 * (k1 + 2.0 * k2 + 2.0 * k3 + k4)
  }

  function Combined(x: Truth, k1: Truth, k2: Truth, k3: Truth, k4: Truth, dt: real): (r: Truth) {
    seq(8, i requires 0 <= i < 8 => x[i] + Gain(dt, k1[i], k2[i], k3[i], k4[i]))
  }

  function Rk4(l: ContinuousLinearPlant, u: InputVec, x: Truth, dt: real): (r: Truth)
    requires IsMat(l.a, STATES, STATES) && IsMat(l.b, STATES, INPUTS)
  {
    var k1 := Derivative(l, u, x);
    var k2 := Derivative(l, u, AddScaled(x, k1, 0.5 * dt));
    var k3 := Derivative(l, u, AddScaled(x, k2, 0.5 * dt));
    var k4 := Derivative(l, u, AddScaled(x, k3, dt));
    Combined(x, k1, k2, k3, k4, dt)
  }

  // ----- linear functionals the integrator advances exactly ---------------------------------

  /** w changes at the rate kappa in every state under this input. */
  ghost predicate ConstantRate(l: ContinuousLinearPlant, u: InputVec, w: Truth, kappa: real)
    requires IsMat(l.a, STATES, STATES) && IsMat(l.b, STATES, INPUTS)
  {
    forall x: Truth :: Dot(w, Derivative(l, u, x)) == kappa
  }

  lemma {:induction false} DotCombined(w: Vec, x: Vec, k1: Vec, k2: Vec, k3: Vec, k4: Vec, dt: real, next: Vec)
    requires |w| == |x| == |k1| == |k2| == |k3| == |k4| == |next|
    requires forall i | 0 <= i < |w| :: next[i] == x[i] + Gain(dt, k1[i], k2[i], k3[i], k4[i])
    ensures Dot(w, next) == Dot(w, x) + Gain(dt, Dot(w, k1), Dot(w, k2), Dot(w, k3), Dot(w, k4))
  {
    hide Gain, Dot;
    if |w| == 0 {
      NoGain(dt);
      EmptyDot();
    } else {
      var n := |w| - 1;
      assert forall i | 0 <= i < n :: next[..n][i] == next[i] && x[..n][i] == x[i];
      assert forall i | 0 <= i < n :: k1[..n][i] == k1[i] && k2[..n][i] == k2[i] && k3[..n][i] == k3[i] && k4[..n][i] == k4[i];
      DotCombined(w[..n], x[..n], k1[..n], k2[..n], k3[..n], k4[..n], dt, next[..n]);
      LastTerm(w, x);
      LastTerm(w, next);
      LastTerm(w, k1);
      LastTerm(w, k2);
      LastTerm(w, k3);
      LastTerm(w, k4);
      CombinedTerm(dt, w[n], x[n], k1[n], k2[n], k3[n], k4[n], next[n],
                   Dot(w[..n], x[..n]), Dot(w[..n], k1[..n]), Dot(w[..n], k2[..n]), Dot(w[..n], k3[..n]), Dot(w[..n], k4[..n]),
                   Dot(w[..n], next[..n]), Dot(w, x), Dot(w, k1), Dot(w, k2), Dot(w, k3), Dot(w, k4), Dot(w, next));
    }
  }

  lemma {:induction false} LastTerm(w: Vec, v: Vec)
    requires |w| == |v| > 0
    ensures var n := |w| - 1; Dot(w, v) == Dot(w[..n], v[..n]) + w[n] * v[n]
  {}

  lemma EmptyDot()
    ensures forall v: Vec | |v| == 0 :: Dot(v, v) == 0.0 && v == []
  {}

  lemma NoGain(dt: real)
    ensures Gain(dt, 0.0, 0.0, 0.0, 0.0) == 0.0
  {}

  lemma CombinedTerm(dt: real, w: real, x: real, a: real, b: real, c: real, d: real, next: real,
                     sx: real, sa: real, sb: real, sc: real, sd: real, sn: real,
                     dx: real, da: real, db: real, dc: real, dd: real, dn: real)
    requires next == x + Gain(dt, a, b, c, d) && sn == sx + Gain(dt, sa, sb, sc, sd)
    requires dx == sx + w * x && dn == sn + w * next
    requires da == sa + w * a && db == sb + w * b && dc == sc + w * c && dd == sd + w * d
    ensures dn == dx + Gain(dt, da, db, dc, dd)
  {}

  /** A functional of constant rate gains exactly rate times step, whatever the state and step. */
  lemma StepIsExact(l: ContinuousLinearPlant, u: InputVec, w: Truth, kappa: real, x: Truth, dt: real)
    requires IsMat(l.a, STATES, STATES) && IsMat(l.b, STATES, INPUTS) && ConstantRate(l, u, w, kappa)
    ensures Dot(w, Rk4(l, u, x, dt)) == Dot(w, x) + dt * kappa
  {
    hide Dot, Derivative, Gain;
    var k1 := Derivative(l, u, x);
    var k2 := Derivative(l, u, AddScaled(x, k1, 0.5 * dt));
    var k3 := Derivative(l, u, AddScaled(x, k2, 0.5 * dt));
    var k4 := Derivative(l, u, AddScaled(x, k3, dt));
    assert Dot(w, k1) == kappa && Dot(w, k2) == kappa && Dot(w, k3) == kappa && Dot(w, k4) == kappa;
    DotCombined(w, x, k1, k2, k3, k4, dt, Rk4(l, u, x, dt));
    SixSixths(dt, kappa, Dot(w, k1), Dot(w, k2), Dot(w, k3), Dot(w, k4));
  }

  lemma SixSixths(dt: real, kappa: real, a: real, b: real, c: real, d: real)
    requires a == b == c == d == kappa
    ensures Gain(dt, a, b, c, d) == dt * kappa
  {}

  // ----- a step is the Taylor polynomial of the plant's own solution --------------------------

  /** The plant's matrix alone: the derivative without input. */
  function Linear(l: ContinuousLinearPlant, x: Truth): (d: Truth)
    requires IsMat(l.a, STATES, STATES) && IsMat(l.b, STATES, INPUTS)
  {
    Derivative(l, ZERO_INPUT, x)
  }

  lemma DotAddScaled(w: Vec, x: Truth, d: Truth, s: real)
    requires |w| == 7
    ensures Dot(w, AddScaled(x, d, s)[..7]) == Dot(w, x[..7]) + Times(s, Dot(w, d[..7]))
  {
    hide Dot;
    assert AddScaled(x, d, s)[..7] == Add(x[..7], Scale(s, d)[..7]);
    ScalePrefix(s, d, 7);
    DotAdd(w, x[..7], Scale(s, d[..7]));
    DotScale(w, s, d[..7]);
  }

  lemma Undriven(b: Vec)
    requires |b| == INPUTS
    ensures Driven(b, ZERO_INPUT) == 0.0
  {}

  lemma ScaledEntry(base: Truth, d: Truth, s: real, i: nat)
    requires i < 8
    ensures AddScaled(base, d, s)[i] == base[i] + Times(s, d[i])
  {}

  /** The derivative is affine in the state. */
  lemma DerivativeAffine(l: ContinuousLinearPlant, u: InputVec, x: Truth, d: Truth, s: real)
    requires IsMat(l.a, STATES, STATES) && IsMat(l.b, STATES, INPUTS)
    ensures Derivative(l, u, AddScaled(x, d, s)) == AddScaled(Derivative(l, u, x), Linear(l, d), s)
  {
    hide Dot, AddScaled, Times, Driven;
    var left, right := Derivative(l, u, AddScaled(x, d, s)), AddScaled(Derivative(l, u, x), Linear(l, d), s);
    forall row | 0 <= row < 8 ensures left[row] == right[row] {
      ScaledEntry(Derivative(l, u, x), Linear(l, d), s, row);
      if row < 7 {
        DotAddScaled(l.a[row], x, d, s);
        Undriven(l.b[row]);
      } else {
        ScaledEntry(x, d, s, 6);
      }
    }
  }

  /** h f + h^2/2 L f + h^3/6 L^2 f + h^4/24 L^3 f, one coordinate of it. */
  function TaylorGain(h: real, f: real, g: real, p: real, q: real): real {
    h * f + h * h / 2.0 * g + h * h * h / 6.0 * p + h * h * h * h / 24.0 * q
  }

  /** A step of the integrator is the fourth-degree Taylor polynomial of the plant's exact solution. */
  lemma StepIsTaylor(l: ContinuousLinearPlant, u: InputVec, x: Truth, dt: real, i: nat)
    requires IsMat(l.a, STATES, STATES) && IsMat(l.b, STATES, INPUTS) && i < 8
    ensures var f := Derivative(l, u, x);
      var g := Linear(l, f);
      var p := Linear(l, g);
      Rk4(l, u, x, dt)[i] == x[i] + TaylorGain(dt, f[i], g[i], p[i], Linear(l, p)[i])
  {
    var f := Derivative(l, u, x);
    var g := Linear(l, f);
    var p := Linear(l, g);
    var q := Linear(l, p);
    var half := 0.5 * dt;
    var k2 := AddScaled(f, g, half);
    var lk2 := AddScaled(g, p, half);
    var k3 := AddScaled(f, lk2, half);
    var llk2 := AddScaled(p, q, half);
    var lk3 := AddScaled(g, llk2, half);
    var k4 := AddScaled(f, lk3, dt);
    assert Rk4(l, u, x, dt) == Combined(x, f, k2, k3, k4, dt) by {
      hide Derivative, AddScaled, Combined;
      DerivativeAffine(l, u, x, f, half);
      DerivativeAffine(l, ZERO_INPUT, f, g, half);
      DerivativeAffine(l, u, x, k2, half);
      DerivativeAffine(l, ZERO_INPUT, g, p, half);
      DerivativeAffine(l, ZERO_INPUT, f, lk2, half);
      DerivativeAffine(l, u, x, k3, dt);
    }
    hide Derivative, Gain, TaylorGain, Linear, Rk4, AddScaled, Times;
    ScaledEntry(f, g, half, i);
    ScaledEntry(g, p, half, i);
    ScaledEntry(f, lk2, half, i);
    ScaledEntry(p, q, half, i);
    ScaledEntry(g, llk2, half, i);
    ScaledEntry(f, lk3, dt, i);
    StageSum(dt, half, f[i], g[i], p[i], q[i], lk2[i], llk2[i], lk3[i], k2[i], k3[i], k4[i]);
  }

  lemma StageSum(h: real, half: real, f: real, g: real, p: real, q: real, lk2: real, llk2: real, lk3: real, k2: real, k3: real, k4: real)
    requires half == 0.5 * h && k2 == f + Times(half, g) && lk2 == g + Times(half, p) && k3 == f + Times(half, lk2)
    requires llk2 == p + Times(half, q) && lk3 == g + Times(half, llk2) && k4 == f + Times(h, lk3)
    ensures Gain(h, f, k2, k3, k4) == TaylorGain(h, f, g, p, q)
  {}

  // ----- an interval and a run ----------------------------------------------------------------------

  /** Microseconds as the integrator's seconds. */
  function StepSeconds(us: nat): real { us as real / 1000000.0 }

  /** The steps an interval is cut into: full ones, then the remainder. */
  function Schedule(us: nat): seq<nat> {
    if us == 0 then []
    else
      var step := if us < MAX_INTEGRATION_STEP_US then us else MAX_INTEGRATION_STEP_US;
      [step] + Schedule(us - step)
  }

  function Sum(steps: seq<nat>): nat {
    if |steps| == 0 then 0 else steps[0] + Sum(steps[1..])
  }

  /** The steps add up to the interval, none is empty or longer than a millisecond, and only the last is shorter. */
  lemma {:induction false} ScheduleCovers(us: nat)
    ensures var steps := Schedule(us);
      && Sum(steps) == us
      && (forall i | 0 <= i < |steps| :: 0 < steps[i] <= 1000 && (i + 1 < |steps| ==> steps[i] == 1000))
    decreases us
  {
    if us > 0 {
      var step := if us < MAX_INTEGRATION_STEP_US then us else MAX_INTEGRATION_STEP_US;
      ScheduleCovers(us - step);
      var steps := Schedule(us);
      assert steps[1..] == Schedule(us - step);
      forall i | 0 <= i < |steps| ensures 0 < steps[i] <= 1000 && (i + 1 < |steps| ==> steps[i] == 1000) {
        if i > 0 { assert steps[i] == steps[1..][i - 1]; } else if |steps| > 1 { assert us - step > 0; }
      }
    }
  }

  function Integrated(l: ContinuousLinearPlant, u: InputVec, x: Truth, steps: seq<nat>): Truth
    requires IsMat(l.a, STATES, STATES) && IsMat(l.b, STATES, INPUTS)
    decreases |steps|
  {
    if |steps| == 0 then x else Integrated(l, u, Rk4(l, u, x, StepSeconds(steps[0])), steps[1..])
  }

  function Advanced(l: ContinuousLinearPlant, u: InputVec, x: Truth, us: nat): Truth
    requires IsMat(l.a, STATES, STATES) && IsMat(l.b, STATES, INPUTS)
  {
    Integrated(l, u, x, Schedule(us))
  }

  lemma {:induction false} AdvancedStep(l: ContinuousLinearPlant, u: InputVec, x: Truth, us: nat, step: nat)
    requires IsMat(l.a, STATES, STATES) && IsMat(l.b, STATES, INPUTS) && us > 0
    requires step == if us < MAX_INTEGRATION_STEP_US then us else MAX_INTEGRATION_STEP_US
    ensures Advanced(l, u, x, us) == Advanced(l, u, Rk4(l, u, x, StepSeconds(step)), us - step)
  {
    hide Rk4, StepSeconds;
    assert Schedule(us)[1..] == Schedule(us - step);
  }

  lemma {:induction false} NotAdvanced(l: ContinuousLinearPlant, u: InputVec, x: Truth)
    requires IsMat(l.a, STATES, STATES) && IsMat(l.b, STATES, INPUTS)
    ensures Advanced(l, u, x, 0) == x
  {
    assert Schedule(0) == [];
  }

  lemma {:induction false} IntegratedConcat(l: ContinuousLinearPlant, u: InputVec, x: Truth, a: seq<nat>, b: seq<nat>)
    requires IsMat(l.a, STATES, STATES) && IsMat(l.b, STATES, INPUTS)
    ensures Integrated(l, u, x, a + b) == Integrated(l, u, Integrated(l, u, x, a), b)
    decreases |a|
  {
    hide Rk4, StepSeconds;
    if |a| == 0 {
      assert a + b == b;
    } else {
      assert (a + b)[1..] == a[1..] + b;
      IntegratedConcat(l, u, Rk4(l, u, x, StepSeconds(a[0])), a[1..], b);
    }
  }

  /** Two intervals are cut like their union exactly when the first is whole steps or the second empty. */
  lemma {:induction false} ScheduleSplitsExactly(m: nat, n: nat)
    ensures Schedule(m) + Schedule(n) == Schedule(m + n) <==> m % MAX_INTEGRATION_STEP_US == 0 || n == 0
    decreases m
  {
    NoSteps();
    hide Schedule;
    if m == 0 {
      assert [] + Schedule(n) == Schedule(n);
    } else if m >= MAX_INTEGRATION_STEP_US {
      ScheduleSplitsExactly(m - 1000, n);
      FullStep(m);
      FullStep(m + n);
      SameHead(1000, Schedule(m - 1000), Schedule(n), Schedule(m - 1000 + n));
    } else {
      FirstStep(m);
      FirstStep(m + n);
      assert Schedule(m) + [] == Schedule(m);
      assert (Schedule(m) + Schedule(n))[0] == Schedule(m)[0];
    }
  }

  lemma NoSteps()
    ensures Schedule(0) == []
  {}

  lemma FirstStep(us: nat)
    requires us > 0
    ensures |Schedule(us)| > 0 && Schedule(us)[0] == if us < MAX_INTEGRATION_STEP_US then us else MAX_INTEGRATION_STEP_US
  {}

  lemma FullStep(us: nat)
    requires us >= MAX_INTEGRATION_STEP_US
    ensures Schedule(us) == [1000] + Schedule(us - 1000)
  {}

  lemma SameHead(step: nat, a: seq<nat>, b: seq<nat>, c: seq<nat>)
    ensures [step] + a + b == [step] + c <==> a + b == c
  {
    assert ([step] + a + b)[1..] == a + b && ([step] + c)[1..] == c;
    assert [step] + a + b == [step] + (a + b);
  }

  /** Advancing in two pieces is advancing at once when the cut falls on a whole step. */
  lemma AdvanceSplits(l: ContinuousLinearPlant, u: InputVec, x: Truth, m: nat, n: nat)
    requires IsMat(l.a, STATES, STATES) && IsMat(l.b, STATES, INPUTS)
    requires m % MAX_INTEGRATION_STEP_US == 0
    ensures Advanced(l, u, Advanced(l, u, x, m), n) == Advanced(l, u, x, m + n)
  {
    ScheduleSplitsExactly(m, n);
    IntegratedConcat(l, u, x, Schedule(m), Schedule(n));
  }

  lemma {:induction false} IntervalIsExact(l: ContinuousLinearPlant, u: InputVec, w: Truth, kappa: real, x: Truth, us: nat)
    requires IsMat(l.a, STATES, STATES) && IsMat(l.b, STATES, INPUTS) && ConstantRate(l, u, w, kappa)
    ensures Dot(w, Advanced(l, u, x, us)) == Dot(w, x) + StepSeconds(us) * kappa
    decreases us
  {
    hide Dot, Rk4, StepSeconds, ConstantRate;
    if us == 0 {
      NoTime(kappa);
    } else {
      var step := if us < MAX_INTEGRATION_STEP_US then us else MAX_INTEGRATION_STEP_US;
      var next := Rk4(l, u, x, StepSeconds(step));
      StepIsExact(l, u, w, kappa, x, StepSeconds(step));
      IntervalIsExact(l, u, w, kappa, next, us - step);
      assert Schedule(us)[1..] == Schedule(us - step);
      SecondsAdd(step, us - step, kappa);
    }
  }

  /** A million microseconds of a constant rate are once that rate. */
  lemma {:induction false} OneSecondIsExact(l: ContinuousLinearPlant, u: InputVec, w: Truth, kappa: real, x: Truth)
    requires IsMat(l.a, STATES, STATES) && IsMat(l.b, STATES, INPUTS) && ConstantRate(l, u, w, kappa)
    ensures Dot(w, Advanced(l, u, x, 1000000)) == Dot(w, x) + kappa
  {
    hide Dot, Advanced, ConstantRate;
    IntervalIsExact(l, u, w, kappa, x, 1000000);
    AMillion(kappa);
    hide StepSeconds;
  }

  lemma AMillion(kappa: real)
    ensures StepSeconds(1000000) * kappa == kappa
  {}

  lemma NoTime(kappa: real)
    ensures StepSeconds(0) * kappa == 0.0
  {}

  lemma SecondsAdd(m: nat, n: nat, kappa: real)
    ensures StepSeconds(m) * kappa + StepSeconds(n) * kappa == StepSeconds(m + n) * kappa
  {
    var a, b := StepSeconds(m), StepSeconds(n);
    assert StepSeconds(m + n) == a + b;
    assert a * kappa + b * kappa == (a + b) * kappa;
  }

  /** A stretch of time under one applied input. */
  datatype Stretch = Stretch(input: InputVec, us: nat)

  function AfterRun(l: ContinuousLinearPlant, x: Truth, run: seq<Stretch>): Truth
    requires IsMat(l.a, STATES, STATES) && IsMat(l.b, STATES, INPUTS)
  {
    if |run| == 0 then x
    else
      var n := |run| - 1;
      Advanced(l, run[n].input, AfterRun(l, x, run[..n]), run[n].us)
  }

  /** The integral of one motor's torque over a run. */
  function Impulse(run: seq<Stretch>, motor: nat): real
    requires motor < INPUTS
  {
    if |run| == 0 then 0.0
    else
      var n := |run| - 1;
      Impulse(run[..n], motor) + StepSeconds(run[n].us) * run[n].input[motor]
  }

  // ----- the two momenta ------------------------------------------------------------------------------

  /** m_s s' + h theta' */
  function PitchMomentum(p: Upright): (w: Truth) {
    [0.0, Aggregates(p).mS, 0.0, Aggregates(p).h, 0.0, 0.0, 0.0, 0.0]
  }

  /** phi' + psi', the wheel's absolute rate */
  function WheelRate(): (w: Truth) {
    [0.0, 0.0, 0.0, 0.0, 0.0, 1.0, 1.0, 0.0]
  }

  lemma {:induction false} Dot8(w: Truth, x: Truth)
    ensures Dot(w, x) == w[0] * x[0] + w[1] * x[1] + w[2] * x[2] + w[3] * x[3] + w[4] * x[4] + w[5] * x[5] + w[6] * x[6] + w[7] * x[7]
  {
    DotLast(w, x, 8);
    assert w[..8] == w && x[..8] == x;
    hide Dot;
    Dot7(w[..7], x[..7]);
  }

  /** The rows of the plant's derivative are the coded accelerations, and the rates of the positions and angles. */
  lemma DerivativeIsAcceleration(e: Entries, u: InputVec, x: Truth)
    ensures var d := Derivative(PlantOf(e), u, x);
      var q := CodedAccelerations(e, x[2], x[4], u[0], u[1]);
      && d[1] == q.s && d[3] == q.theta && d[5] == q.phi && d[6] == q.psi
      && d[0] == x[1] && d[2] == x[3] && d[4] == x[5] && d[7] == x[6]
  {
    hide Dot;
    var l := PlantOf(e);
    RowsAreAccelerations(e, x[..7], u);
    Dot2(l.b[0], u);
    Dot2(l.b[2], u);
    Dot2(l.b[4], u);
    Dot2(l.b[1], u);
    Dot2(l.b[3], u);
    Dot2(l.b[5], u);
    Dot2(l.b[6], u);
  }

  lemma MomentaRates(p: Upright, u: InputVec)
    ensures ConstantRate(PlantOf(EntriesOf(p)), u, PitchMomentum(p), u[0] / p.wheelRadius)
    ensures ConstantRate(PlantOf(EntriesOf(p)), u, WheelRate(), u[1] / p.reactionSpin)
  {
    hide Dot, EntriesOf, CodedAccelerations, PlantOf, Derivative, Aggregates, InertialForces;
    forall x: Truth
      ensures Dot(PitchMomentum(p), Derivative(PlantOf(EntriesOf(p)), u, x)) == u[0] / p.wheelRadius
      ensures Dot(WheelRate(), Derivative(PlantOf(EntriesOf(p)), u, x)) == u[1] / p.reactionSpin
    {
      MomentumRate(p, u, x);
    }
  }

  lemma MomentumRate(p: Upright, u: InputVec, x: Truth)
    ensures Dot(PitchMomentum(p), Derivative(PlantOf(EntriesOf(p)), u, x)) == u[0] / p.wheelRadius
    ensures Dot(WheelRate(), Derivative(PlantOf(EntriesOf(p)), u, x)) == u[1] / p.reactionSpin
  {
    var d := Derivative(PlantOf(EntriesOf(p)), u, x);
    var q := CodedAccelerations(EntriesOf(p), x[2], x[4], u[0], u[1]);
    DerivativeIsAcceleration(EntriesOf(p), u, x);
    hide Dot, EntriesOf, CodedAccelerations, PlantOf, Derivative, Aggregates, InertialForces;
    hide Times, PitchMomentum, WheelRate;
    ForwardAndWheel(p, x[2], x[4], u[0], u[1], q);
    MomentaOf(p, d);
  }

  lemma MomentaOf(p: Upright, d: Truth)
    ensures Dot(PitchMomentum(p), d) == Times(Aggregates(p).mS, d[1]) + Times(Aggregates(p).h, d[3])
    ensures Dot(WheelRate(), d) == d[5] + d[6]
  {
    hide Dot, Aggregates;
    Dot8(PitchMomentum(p), d);
    Dot8(WheelRate(), d);
  }

  /** The forward and the wheel's equations of motion. */
  lemma ForwardAndWheel(p: Upright, theta: real, phi: real, drive: real, reaction: real, q: Accelerations)
    requires q == CodedAccelerations(EntriesOf(p), theta, phi, drive, reaction)
    ensures Times(Aggregates(p).mS, q.s) + Times(Aggregates(p).h, q.theta) == drive / p.wheelRadius
    ensures q.phi + q.psi == reaction / p.reactionSpin
  {
    CodedSolvesMechanics(p, theta, phi, drive, reaction, q);
    hide EntriesOf, CodedAccelerations, Aggregates;
    SharedFactor(p.reactionSpin, q.phi, q.psi, reaction);
  }

  lemma SharedFactor(j: real, x: real, y: real, t: real)
    requires j > 0.0 && j * x + j * y == t
    ensures x + y == t / j
  {
    assert j * (x + y) == t;
    TimesQuotient(t, j);
    CancelFactor(j, x + y, t / j);
  }

  /** Over any run the pitch momentum changes by exactly the drive impulse over the radius,
      and the wheel's absolute rate by exactly the reaction impulse over its inertia. */
  lemma {:induction false} MomentaConserved(p: Upright, x: Truth, run: seq<Stretch>)
    ensures var l := PlantOf(EntriesOf(p));
      && Dot(PitchMomentum(p), AfterRun(l, x, run)) == Dot(PitchMomentum(p), x) + Impulse(run, 0) / p.wheelRadius
      && Dot(WheelRate(), AfterRun(l, x, run)) == Dot(WheelRate(), x) + Impulse(run, 1) / p.reactionSpin
  {
    hide Dot, EntriesOf, PlantOf, ConstantRate, Advanced, PitchMomentum, StepSeconds;
    var l := PlantOf(EntriesOf(p));
    if |run| > 0 {
      var n := |run| - 1;
      var u, us := run[n].input, run[n].us;
      MomentaConserved(p, x, run[..n]);
      MomentaRates(p, u);
      IntervalIsExact(l, u, PitchMomentum(p), u[0] / p.wheelRadius, AfterRun(l, x, run[..n]), us);
      IntervalIsExact(l, u, WheelRate(), u[1] / p.reactionSpin, AfterRun(l, x, run[..n]), us);
      ImpulseAdds(Impulse(run[..n], 0), StepSeconds(us), u[0], p.wheelRadius, StepSeconds(us) * u[0]);
      ImpulseAdds(Impulse(run[..n], 1), StepSeconds(us), u[1], p.reactionSpin, StepSeconds(us) * u[1]);
    }
  }

  /** From x to y the two momenta changed by the impulses of this input over this time. */
  ghost predicate Pushed(p: Upright, u: InputVec, x: Truth, y: Truth, us: nat) {
    && Dot(PitchMomentum(p), y) == Dot(PitchMomentum(p), x) + StepSeconds(us) * (u[0] / p.wheelRadius)
    && Dot(WheelRate(), y) == Dot(WheelRate(), x) + StepSeconds(us) * (u[1] / p.reactionSpin)
  }

  lemma {:induction false} IntervalPushes(p: Upright, u: InputVec, x: Truth, us: nat)
    ensures Pushed(p, u, x, Advanced(PlantOf(EntriesOf(p)), u, x, us), us)
  {
    var l := PlantOf(EntriesOf(p));
    MomentaRates(p, u);
    hide Dot, EntriesOf, PlantOf, ConstantRate, Advanced, PitchMomentum, WheelRate, StepSeconds;
    IntervalIsExact(l, u, PitchMomentum(p), u[0] / p.wheelRadius, x, us);
    IntervalIsExact(l, u, WheelRate(), u[1] / p.reactionSpin, x, us);
  }

  lemma ImpulseAdds(before: real, dt: real, torque: real, k: real, added: real)
    requires k > 0.0 && added == dt * torque
    ensures (before + added) / k == before / k + dt * (torque / k)
  {
    QuotientScales(dt, torque, k);
    QuotientSum(before, added, k);
    assert added / k == dt / k * torque by { QuotientScales(torque, dt, k); }
  }

  lemma QuotientSum(a: real, b: real, k: real)
    requires k > 0.0
    ensures (a + b) / k == a / k + b / k
  {}

  // ----- the world as an object -------------------------------------------------------------------------

  class World {
    const plant: ContinuousLinearPlant
    var state: Truth
    var applied: InputVec
    var currentTime: u64
    var sampleIndex: u32

    ghost predicate Valid()
      reads this
    {
      IsMat(plant.a, STATES, STATES) && IsMat(plant.b, STATES, INPUTS)
    }

    constructor (p: Upright, initial: Truth)
      ensures Valid() && plant == PlantOf(EntriesOf(p)) && state == initial
      ensures applied == ZERO_INPUT && currentTime == 0 && sampleIndex == 0
    {
      hide EntriesOf;
      plant := PlantOf(EntriesOf(p));
      state, applied, currentTime, sampleIndex := initial, ZERO_INPUT, 0, 0;
    }

    method DerivativeOf(x: Truth) returns (d: Truth)
      requires Valid()
      ensures d == Derivative(plant, applied, x)
    {
      hide Dot, Driven;
      d := seq(8, i => 0.0);
      for row := 0 to 7
        invariant forall i | 0 <= i < row :: d[i] == Derivative(plant, applied, x)[i]
      {
        var sum := RowSum(plant.a[row], x[..7]);
        d := d[row := sum + Driven(plant.b[row], applied)];
      }
      d := d[7 := x[6]];
    }

    method RowSum(row: Vec, x: Vec) returns (sum: real)
      requires |row| == |x|
      ensures sum == Dot(row, x)
    {
      sum := 0.0;
      for column := 0 to |row|
        invariant sum == Dot(row[..column], x[..column])
      {
        DotLast(row, x, column + 1);
        sum := sum + row[column] * x[column];
      }
      assert row[..|row|] == row && x[..|x|] == x;
    }

    method IntegrateRk4(dt: real)
      requires Valid()
      modifies this`state
      ensures state == Rk4(plant, applied, old(state), dt)
    {
      hide Derivative, Gain;
      var x0 := state;
      var k1 := DerivativeOf(x0);
      var k2 := DerivativeOf(AddScaled(x0, k1, 0.5 * dt));
      var k3 := DerivativeOf(AddScaled(x0, k2, 0.5 * dt));
      var k4 := DerivativeOf(AddScaled(x0, k3, dt));
      var next := x0;
      for index := 0 to 8
        invariant forall i | 0 <= i < index :: next[i] == Combined(x0, k1, k2, k3, k4, dt)[i]
        invariant forall i | index <= i < 8 :: next[i] == x0[i]
      {
        next := next[index := next[index] + Gain(dt, k1[index], k2[index], k3[index], k4[index])];
      }
      assert next == Combined(x0, k1, k2, k3, k4, dt);
      state := next;
    }

    /** Moves the world from its own time to a later one; refuses a gap or a reversal. */
    method AdvanceInterval(from: u64, to: u64) returns (r: Result<(), WorldError>)
      requires Valid()
      modifies this`state, this`currentTime
      ensures from != old(currentTime) ==> r == Err(TimeDiscontinuity(old(currentTime), from))
      ensures from == old(currentTime) && to < from ==> r == Err(TimeReversal(from, to))
      ensures from == old(currentTime) && to >= from ==> r.Ok? && currentTime == to
      ensures from == old(currentTime) && to >= from ==> state == Advanced(plant, applied, old(state), to - from)
      ensures r.Err? ==> currentTime == old(currentTime) && state == old(state)
    {
      if from != currentTime { return Err(TimeDiscontinuity(currentTime, from)); }
      if to < from { return Err(TimeReversal(from, to)); }
      hide Rk4, StepSeconds, Advanced;
      var remaining: nat := to - from;
      while remaining > 0
        invariant Advanced(plant, applied, state, remaining) == Advanced(plant, applied, old(state), to - from)
      {
        var step := if remaining < MAX_INTEGRATION_STEP_US then remaining else MAX_INTEGRATION_STEP_US;
        AdvancedStep(plant, applied, state, remaining, step);
        IntegrateRk4(StepSeconds(step));
        remaining := remaining - step;
      }
      NotAdvanced(plant, applied, state);
      currentTime := to;
      r := Ok(());
    }

    method ApplyAuthorized(drive: real, reaction: real)
      modifies this`applied
      ensures applied == [drive, reaction]
    {
      applied := [drive, reaction];
    }

    method Revoke()
      modifies this`applied
      ensures applied == ZERO_INPUT
    {
      applied := ZERO_INPUT;
    }

    /** The next sample's index; only at the world's own time, and not past the last index. */
    method TakeSampleIndex(at: u64) returns (r: Result<u32, WorldError>)
      modifies this`sampleIndex
      ensures r == (if at != currentTime then Err(SampleTimeMismatch(currentTime, at))
        else if old(sampleIndex) == U32_MAX then Err(SampleIndexOverflow) else Ok(old(sampleIndex)))
      ensures sampleIndex == old(sampleIndex) + (if r.Ok? then 1 else 0)
    {
      if at != currentTime { return Err(SampleTimeMismatch(currentTime, at)); }
      if sampleIndex == U32_MAX { return Err(SampleIndexOverflow); }
      r := Ok(sampleIndex);
      sampleIndex := sampleIndex + 1;
    }
  }

  // ----- what the encoders show ------------------------------------------------------------------------------

  /** Nearest integer, halves away from zero. */
  function Round(x: real): (n: int)
    ensures -0.5 <= x - n as real <= 0.5
  {
    if x >= 0.0 then (x + 0.5).Floor else -((-x + 0.5).Floor)
  }

  /** The shaft position in counts and fractions of one. */
  function ExactCounts(angle: real, countsPerRevolution: u32): real {
    angle / TAU * countsPerRevolution as real
  }

  /** The shaft position in whole counts. */
  function ShaftCounts(angle: real, countsPerRevolution: u32): int {
    Round(ExactCounts(angle, countsPerRevolution))
  }

  function EncoderCount(angle: real, countsPerRevolution: u32): u16 {
    ShaftCounts(angle, countsPerRevolution) % COUNTER_MODULUS
  }

  /** The counter shows the shaft's whole counts, so the tracker's run theorem applies to it:
      a motion under half the range between two samples is recovered exactly. */
  lemma CounterShowsShaft(from: real, to: real, countsPerRevolution: u32)
    ensures var a, b := ShaftCounts(from, countsPerRevolution), ShaftCounts(to, countsPerRevolution);
      WrappedDelta(EncoderCount(from, countsPerRevolution), EncoderCount(to, countsPerRevolution)) == b - a
      <==> -32768 <= b - a < 32768
  {
    hide ShaftCounts;
    WrappedDeltaIsMotion(ShaftCounts(from, countsPerRevolution), ShaftCounts(to, countsPerRevolution));
  }

  /** Halfway between two counts the one farther from zero shows. */
  lemma TiesGoAway(n: nat)
    ensures Round(n as real + 0.5) == n + 1 && Round(-(n as real + 0.5)) == -(n + 1)
  {}

  /** The counts a shaft shows are, in the angle a tracker gives them, within half a count of where it stands. */
  lemma CountsCarryAngle(t: EncoderTransfer, angle: real)
    ensures var counted := AngleOf(t, ShaftCounts(angle, t.countsPerRevolution));
      -RadiansPerCount(t) / 2.0 <= angle - counted <= RadiansPerCount(t) / 2.0
  {
    hide RadiansPerCount, ExactCounts;
    BackToAngle(t, angle);
    HalfCounts(ExactCounts(angle, t.countsPerRevolution), ShaftCounts(angle, t.countsPerRevolution) as real, RadiansPerCount(t));
    CountedAngle(t, ShaftCounts(angle, t.countsPerRevolution));
    hide Times, AngleOf, Round, ShaftCounts;
  }

  lemma CountedAngle(t: EncoderTransfer, counts: int)
    ensures AngleOf(t, counts) == Times(counts as real, RadiansPerCount(t))
  {
    hide RadiansPerCount;
  }

  lemma BackToAngle(t: EncoderTransfer, angle: real)
    ensures Times(ExactCounts(angle, t.countsPerRevolution), RadiansPerCount(t)) == angle
  {
    var n, q := t.countsPerRevolution as real, angle / TAU;
    var r := TAU / n;
    assert q * TAU == angle && n * r == TAU;
    assert q * n * r == q * (n * r);
  }

  lemma HalfCounts(exact: real, k: real, r: real)
    requires r > 0.0 && -0.5 <= exact - k <= 0.5
    ensures -r / 2.0 <= Times(exact, r) - Times(k, r) <= r / 2.0
  {
    var d := exact - k;
    assert Times(exact, r) - Times(k, r) == d * r;
    assert d * r <= 0.5 * r && d * r >= -0.5 * r;
  }
}
