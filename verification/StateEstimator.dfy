/** Shared estimator vocabulary, the affine measurement equation, and the
    fixed-gain observer with its exact error recursion. */
module StateEstimator {
  import opened LinearAlgebra
  import opened Wrappers

  const STATES: nat := 7
  const INPUTS: nat := 2
  const CHANNELS: nat := 8

  type StateVec = v: Vec | |v| == 7 witness seq(7, i => 0.0)
  type InputVec = v: Vec | |v| == 2 witness seq(2, i => 0.0)
  type ChannelVec = v: Vec | |v| == 8 witness seq(8, i => 0.0)

  const ZERO_INPUT: InputVec := [0.0, 0.0]

  datatype StateValidity = Invalid | Valid

  /** The sixteen-bit availability word, kept as the set of its one bits; bit i
      stands for measurement channel i. */
  datatype MeasurementMask = MeasurementMask(channels: set<nat>) {
    predicate Contains(index: nat) {
      index < 16 && index in channels
    }

    function With(index: nat): MeasurementMask {
      if index < 16 then MeasurementMask(channels + {index}) else this
    }

    /** No bit beyond the eight measurement channels is set. */
    predicate InRange() {
      forall i | i in channels :: i < CHANNELS
    }
  }

  datatype EstimatorMeasurement = EstimatorMeasurement(
    values: ChannelVec, available: MeasurementMask, timingValid: bool)

  datatype EstimateError =
    | TimingInvalid
    | MissingRequiredMeasurement(channel: nat)
    | NumericalFault

  datatype DiscreteLinearPlant = DiscreteLinearPlant(samplePeriod: real, aD: Mat, bD: Mat) {
    ghost predicate WellShaped() {
      samplePeriod > 0.0 && IsMat(aD, STATES, STATES) && IsMat(bD, STATES, INPUTS)
    }
  }

  /** y = nominal + C x + D u */
  datatype UprightMeasurementModel = UprightMeasurementModel(nominal: ChannelVec, c: Mat, d: Mat) {
    ghost predicate WellShaped() {
      IsMat(c, CHANNELS, STATES) && IsMat(d, CHANNELS, INPUTS)
    }
  }

  ghost function MeasurementAt(m: UprightMeasurementModel, x: StateVec, u: InputVec): (y: ChannelVec)
    requires m.WellShaped()
  {
    seq(CHANNELS, i requires 0 <= i < CHANNELS => m.nominal[i] + Dot(m.c[i], x) + Dot(m.d[i], u))
  }

  method PredictMeasurement(m: UprightMeasurementModel, x: StateVec, u: InputVec)
    returns (measurement: array<real>)
    requires m.WellShaped()
    ensures fresh(measurement) && measurement.Length == CHANNELS
    ensures measurement[..] == MeasurementAt(m, x, u)
  {
    measurement := new real[CHANNELS](i requires 0 <= i < CHANNELS => m.nominal[i]);
    for row := 0 to CHANNELS
      invariant forall i | 0 <= i < row :: measurement[i] == MeasurementAt(m, x, u)[i]
      invariant forall i | row <= i < CHANNELS :: measurement[i] == m.nominal[i]
    {
      measurement[row] := measurement[row] + Dot(m.c[row], x);
      measurement[row] := measurement[row] + Dot(m.d[row], u);
    }
  }

  ghost function PredictedState(plant: DiscreteLinearPlant, x: StateVec, u: InputVec): (r: StateVec)
    requires plant.WellShaped()
  {
    Add(MulVec(plant.aD, x), MulVec(plant.bD, u))
  }

  /** A change of state or input adds its own response, and each state and each input alone responds with its own
      column of the plant: that is all there is to the prediction. */
  lemma {:induction false} PredictionIsLinear(plant: DiscreteLinearPlant, x: StateVec, dx: StateVec, u: InputVec, du: InputVec, k: nat, i: nat)
    requires plant.WellShaped() && k < STATES && i < INPUTS
    ensures PredictedState(plant, Add(x, dx), Add(u, du)) == Add(PredictedState(plant, x, u), PredictedState(plant, dx, du))
    ensures PredictedState(plant, Unit(STATES, k), ZERO_INPUT) == Col(plant.aD, k)
    ensures PredictedState(plant, Zero(STATES), Unit(INPUTS, i)) == Col(plant.bD, i)
  {
    var n: StateVec, o: StateVec := PredictedState(plant, Unit(STATES, k), ZERO_INPUT), PredictedState(plant, Zero(STATES), Unit(INPUTS, i));
    var moved := PredictedState(plant, Add(x, dx), Add(u, du));
    assert ZERO_INPUT == Zero(INPUTS);
    forall row | 0 <= row < STATES
      ensures moved[row] == Add(PredictedState(plant, x, u), PredictedState(plant, dx, du))[row]
      ensures n[row] == plant.aD[row][k] && o[row] == plant.bD[row][i]
    {
      DotAdd(plant.aD[row], x, dx);
      DotAdd(plant.bD[row], u, du);
      DotUnit(k, plant.aD[row]);
      DotUnit(i, plant.bD[row]);
      DotZero(plant.aD[row]);
      DotZero(plant.bD[row]);
      hide Dot;
    }
  }

  method PredictState(plant: DiscreteLinearPlant, x: StateVec, u: InputVec) returns (predicted: array<real>)
    requires plant.WellShaped()
    ensures fresh(predicted) && predicted.Length == STATES
    ensures predicted[..] == PredictedState(plant, x, u)
  {
    predicted := new real[STATES](i => 0.0);
    for row := 0 to STATES
      invariant forall i | 0 <= i < row :: predicted[i] == PredictedState(plant, x, u)[i]
    {
      predicted[row] := Dot(plant.aD[row], x) + Dot(plant.bD[row], u);
    }
  }

  // ----- fixed-gain observer -----------------------------------------------

  datatype ObserverDesign = ObserverDesign(
    plant: DiscreteLinearPlant,
    measurement: UprightMeasurementModel,
    gain: Mat,
    required: MeasurementMask)
  {
    ghost predicate WellFormed() {
      && plant.WellShaped() && measurement.WellShaped() && IsMat(gain, STATES, CHANNELS)
      && required.channels != {} && required.InRange()
    }
  }

  /** One on required channels, zero elsewhere. */
  ghost function RequiredSelector(required: MeasurementMask): (m: ChannelVec) {
    seq(CHANNELS, i requires 0 <= i < CHANNELS => if required.Contains(i) then 1.0 else 0.0)
  }

  /** The innovation, zero on every channel that is not required. */
  ghost function Innovation(d: ObserverDesign, predicted: StateVec, u: InputVec, y: ChannelVec): (r: ChannelVec)
    requires d.WellFormed()
  {
    seq(CHANNELS, i requires 0 <= i < CHANNELS =>
      if d.required.Contains(i) then y[i] - MeasurementAt(d.measurement, predicted, u)[i] else 0.0)
  }

  ghost function ObserverUpdate(d: ObserverDesign, x: StateVec, previous: InputVec, current: InputVec, y: ChannelVec): (r: StateVec)
    requires d.WellFormed()
  {
    var predicted := PredictedState(d.plant, x, previous);
    Add(predicted, MulVec(d.gain, Innovation(d, predicted, current, y)))
  }

  /** The first channel at or after `from` that is required but not available. */
  ghost function FirstMissing(required: MeasurementMask, available: MeasurementMask, from: nat): (c: Option<nat>)
    requires from <= CHANNELS
    decreases CHANNELS - from
  {
    if from == CHANNELS then None
    else if required.Contains(from) && !available.Contains(from) then Some(from)
    else FirstMissing(required, available, from + 1)
  }

  /** Why a step is refused before anything is computed. */
  ghost function Refusal(required: MeasurementMask, y: EstimatorMeasurement): (e: Option<EstimateError>) {
    if !y.timingValid then Some(TimingInvalid)
    else match FirstMissing(required, y.available, 0)
      case None => None
      case Some(channel) => Some(MissingRequiredMeasurement(channel))
  }

  lemma {:induction false} FirstMissingIsFirst(required: MeasurementMask, available: MeasurementMask, from: nat)
    requires from <= CHANNELS
    ensures var c := FirstMissing(required, available, from);
      var ok := (i: nat) => required.Contains(i) ==> available.Contains(i);
      match c
      case None => forall i | from <= i < CHANNELS :: ok(i)
      case Some(n) => from <= n < CHANNELS && !ok(n) && forall i | from <= i < n :: ok(i)
    decreases CHANNELS - from
  {
    if from < CHANNELS { FirstMissingIsFirst(required, available, from + 1); }
  }

  /** A step is accepted exactly when timing is valid and every required channel has a sample. */
  lemma AcceptedExactly(required: MeasurementMask, y: EstimatorMeasurement)
    ensures Refusal(required, y).None? <==>
      y.timingValid && forall i | 0 <= i < CHANNELS :: required.Contains(i) ==> y.available.Contains(i)
  {
    FirstMissingIsFirst(required, y.available, 0);
  }

  /** A refusal for timing says that the timing was invalid; a refusal for a channel that timing was valid and
      this is the lowest required channel without a sample. No step is refused for anything else. */
  lemma RefusedExactly(required: MeasurementMask, y: EstimatorMeasurement, channel: nat)
    requires channel < CHANNELS
    ensures Refusal(required, y) == Some(TimingInvalid) <==> !y.timingValid
    ensures Refusal(required, y) == Some(MissingRequiredMeasurement(channel)) <==>
      && y.timingValid && channel in required.channels && channel !in y.available.channels
      && forall i | 0 <= i < channel :: i in required.channels ==> i in y.available.channels
    ensures match Refusal(required, y)
      case Some(MissingRequiredMeasurement(n)) => n < CHANNELS
      case other => other.None? || other == Some(TimingInvalid)
  {
    FirstMissingIsFirst(required, y.available, 0);
  }

  class LinearObserver {
    const design: ObserverDesign
    var state: StateVec
    var validity: StateValidity

    constructor (design: ObserverDesign, initial: StateVec)
      requires design.WellFormed()
      ensures this.design == design && state == initial && validity == Invalid
    {
      this.design := design;
      state := initial;
      validity := Invalid;
    }

    method Reset(value: StateVec)
      modifies this
      ensures state == value && validity == Invalid
    {
      state := value;
      validity := Invalid;
    }

    /** A rejected step names its cause, drops validity and leaves the estimate alone. */
    method Step(previous: InputVec, current: InputVec, y: EstimatorMeasurement)
      returns (r: Result<StateVec, EstimateError>)
      requires design.WellFormed()
      modifies this
      ensures match Refusal(design.required, y)
        case Some(e) => r == Err(e) && state == old(state) && validity == Invalid
        case None =>
          && r == Ok(state) && validity == Valid
          && state == ObserverUpdate(design, old(state), previous, current, y.values)
    {
      if !y.timingValid {
        validity := Invalid;
        return Err(TimingInvalid);
      }
      var missing := FindMissing(y);
      if missing.Some? {
        validity := Invalid;
        return Err(MissingRequiredMeasurement(missing.value));
      }
      Correct(previous, current, y.values);
      r := Ok(state);
    }

    method FindMissing(y: EstimatorMeasurement) returns (missing: Option<nat>)
      ensures missing == FirstMissing(design.required, y.available, 0)
    {
      for index := 0 to CHANNELS
        invariant FirstMissing(design.required, y.available, 0) == FirstMissing(design.required, y.available, index)
      {
        if !design.required.Contains(index) { continue; }
        if !y.available.Contains(index) { return Some(index); }
      }
      missing := None;
    }

    /** The innovation of the required channels, zero elsewhere. */
    method Innovate(predicted: StateVec, current: InputVec, y: ChannelVec) returns (innovation: array<real>)
      requires design.WellFormed()
      ensures fresh(innovation) && innovation[..] == Innovation(design, predicted, current, y)
    {
      hide Dot;
      var predictedMeasurement := PredictMeasurement(design.measurement, predicted, current);
      ghost var expected := Innovation(design, predicted, current, y);
      innovation := new real[CHANNELS](i => 0.0);
      for index := 0 to CHANNELS
        invariant predictedMeasurement[..] == MeasurementAt(design.measurement, predicted, current)
        invariant forall i | 0 <= i < index :: innovation[i] == expected[i]
        invariant forall i | index <= i < CHANNELS :: innovation[i] == 0.0
      {
        if design.required.Contains(index) {
          innovation[index] := y[index] - predictedMeasurement[index];
        }
      }
    }

    /** Adds the gain's share of the innovation, row by row. */
    method AddCorrection(predicted: StateVec, innovation: ChannelVec) returns (corrected: array<real>)
      requires design.WellFormed()
      ensures fresh(corrected) && corrected.Length == STATES && corrected[..] == Add(predicted, MulVec(design.gain, innovation))
    {
      hide Dot;
      corrected := new real[STATES](i requires 0 <= i < STATES => predicted[i]);
      for row := 0 to STATES
        invariant forall i | 0 <= i < row :: corrected[i] == predicted[i] + Dot(design.gain[i], innovation)
        invariant forall i | row <= i < STATES :: corrected[i] == predicted[i]
      {
        corrected[row] := corrected[row] + Dot(design.gain[row], innovation);
      }
    }

    /** Predicts, compares with the required channels, and corrects. */
    method Correct(previous: InputVec, current: InputVec, y: ChannelVec)
      requires design.WellFormed()
      modifies this
      ensures state == ObserverUpdate(design, old(state), previous, current, y) && validity == Valid
    {
      hide Dot, Innovation, MulVec, Add;
      var predicted := PredictState(design.plant, state, previous);
      var innovation := Innovate(predicted[..], current, y);
      var corrected := AddCorrection(predicted[..], innovation[..]);
      state := corrected[..];
      validity := Valid;
    }
  }

  // ----- error recursion -----------------------------------------------------

  datatype ObserverStep = ObserverStep(previous: InputVec, current: InputVec, y: ChannelVec)

  ghost function Estimates(d: ObserverDesign, x: StateVec, steps: seq<ObserverStep>): (r: StateVec)
    requires d.WellFormed()
  {
    if |steps| == 0 then x
    else var s := steps[|steps| - 1];
      ObserverUpdate(d, Estimates(d, x, steps[..|steps| - 1]), s.previous, s.current, s.y)
  }

  ghost function Truth(d: ObserverDesign, x: StateVec, steps: seq<ObserverStep>): (r: StateVec)
    requires d.WellFormed()
  {
    if |steps| == 0 then x
    else PredictedState(d.plant, Truth(d, x, steps[..|steps| - 1]), steps[|steps| - 1].previous)
  }

  /** Every required channel of every step reads the measurement equation at the true state. */
  ghost predicate ExactOnRequired(d: ObserverDesign, x: StateVec, steps: seq<ObserverStep>)
    requires d.WellFormed()
  {
    forall k, i | 0 <= k < |steps| && 0 <= i < CHANNELS && d.required.Contains(i) ::
      steps[k].y[i] == MeasurementAt(d.measurement, Truth(d, x, steps[..k + 1]), steps[k].current)[i]
  }

  /** Row i of I - L M C, with M the required-channel selector. */
  ghost function CorrectionRow(d: ObserverDesign, i: nat): (r: StateVec)
    requires d.WellFormed() && i < STATES
  {
    Sub(Unit(STATES, i), VecMat(Hadamard(RequiredSelector(d.required), d.gain[i]), d.measurement.c, STATES))
  }

  /** T = (I - L M C) A */
  ghost function ErrorTransition(d: ObserverDesign): (t: Mat)
    requires d.WellFormed()
    ensures IsMat(t, STATES, STATES)
  {
    seq(STATES, i requires 0 <= i < STATES => VecMat(CorrectionRow(d, i), d.plant.aD, STATES))
  }

  ghost function Iterate(t: Mat, n: nat, e: StateVec): (r: StateVec)
    requires IsMat(t, STATES, STATES)
  {
    if n == 0 then e else MulVec(t, Iterate(t, n - 1, e))
  }

  lemma {:induction false} DotHadamard(m: Vec, a: Vec, b: Vec)
    requires |m| == |a| == |b|
    ensures Dot(Hadamard(m, a), b) == Dot(a, Hadamard(m, b))
  {
    if |m| > 0 {
      var n := |m| - 1;
      HadamardPrefix(m, a, n);
      HadamardPrefix(m, b, n);
      DotHadamard(m[..n], a[..n], b[..n]);
    }
  }

  lemma TransitionRow(d: ObserverDesign, e: StateVec, i: nat)
    requires d.WellFormed() && i < STATES
    ensures var ae := MulVec(d.plant.aD, e);
      MulVec(ErrorTransition(d), e)[i]
        == ae[i] - Dot(d.gain[i], Hadamard(RequiredSelector(d.required), MulVec(d.measurement.c, ae)))
  {
    var a, c, m := d.plant.aD, d.measurement.c, RequiredSelector(d.required);
    var ae := MulVec(a, e);
    var back := VecMat(Hadamard(m, d.gain[i]), c, STATES);
    Adjoint(CorrectionRow(d, i), a, e);
    DotCommutes(CorrectionRow(d, i), ae);
    DotSub(ae, Unit(STATES, i), back);
    DotUnit(i, ae);
    DotCommutes(ae, back);
    Adjoint(Hadamard(m, d.gain[i]), c, ae);
    DotHadamard(m, d.gain[i], MulVec(c, ae));
  }

  /** One exact step multiplies the error by T whatever the inputs, the
      feedthrough, the nominal output and the channels not required. */
  lemma ErrorStep(d: ObserverDesign, truth: StateVec, x: StateVec, s: ObserverStep)
    requires d.WellFormed()
    requires forall i | 0 <= i < CHANNELS && d.required.Contains(i) ::
      s.y[i] == MeasurementAt(d.measurement, PredictedState(d.plant, truth, s.previous), s.current)[i]
    ensures Sub(PredictedState(d.plant, truth, s.previous), ObserverUpdate(d, x, s.previous, s.current, s.y))
         == MulVec(ErrorTransition(d), Sub(truth, x))
  {
    var e := Sub(truth, x);
    var next := PredictedState(d.plant, truth, s.previous);
    var guess := PredictedState(d.plant, x, s.previous);
    var ae := MulVec(d.plant.aD, e);
    var c, m := d.measurement.c, RequiredSelector(d.required);
    MulVecSub(d.plant.aD, truth, x);
    assert ae == Sub(next, guess);
    var innovation := Innovation(d, guess, s.current, s.y);
    forall i | 0 <= i < CHANNELS ensures innovation[i] == Hadamard(m, MulVec(c, ae))[i] {
      DotSub(c[i], next, guess);
    }
    assert innovation == Hadamard(m, MulVec(c, ae));
    forall i | 0 <= i < STATES
      ensures Sub(next, ObserverUpdate(d, x, s.previous, s.current, s.y))[i] == MulVec(ErrorTransition(d), e)[i]
    {
      TransitionRow(d, e, i);
    }
  }

  /** After n accepted steps against the exact plant the error is T^n e0. */
  lemma {:induction false} ErrorAfterRun(d: ObserverDesign, truth: StateVec, x: StateVec, steps: seq<ObserverStep>)
    requires d.WellFormed() && ExactOnRequired(d, truth, steps)
    ensures Sub(Truth(d, truth, steps), Estimates(d, x, steps)) == Iterate(ErrorTransition(d), |steps|, Sub(truth, x))
  {
    if |steps| > 0 {
      var n := |steps| - 1;
      var head, s := steps[..n], steps[n];
      assert steps[..n + 1] == steps;
      forall k, i | 0 <= k < n && 0 <= i < CHANNELS && d.required.Contains(i)
        ensures head[k].y[i] == MeasurementAt(d.measurement, Truth(d, truth, head[..k + 1]), head[k].current)[i]
      {
        assert head[..k + 1] == steps[..k + 1];
      }
      ErrorAfterRun(d, truth, x, head);
      ErrorStep(d, Truth(d, truth, head), Estimates(d, x, head), s);
    }
  }

  // ----- the matrix the offline synthesis checks -------------------------------

  ghost predicate Distinct(selected: seq<nat>) {
    && (forall l | 0 <= l < |selected| :: selected[l] < CHANNELS)
    && forall l, k | 0 <= l < k < |selected| :: selected[l] != selected[k]
  }

  /** One row of the full gain: the selected columns placed at their channels, zero elsewhere. */
  ghost function FullGainRow(row: Vec, selected: seq<nat>): (r: ChannelVec)
    requires |row| == |selected| && Distinct(selected)
  {
    if |selected| == 0 then Zero(CHANNELS)
    else FullGainRow(row[..|row| - 1], selected[..|row| - 1])[selected[|row| - 1] := row[|row| - 1]]
  }

  ghost function SelectedRows(c: Mat, selected: seq<nat>): (r: Mat)
    requires IsMat(c, CHANNELS, STATES) && Distinct(selected)
    ensures IsMat(r, |selected|, STATES)
  {
    seq(|selected|, l requires 0 <= l < |selected| => c[selected[l]])
  }

  lemma VecMatUpdate(u: Vec, m: Mat, k: nat, x: real, cols: nat)
    requires |u| == |m| && IsMat(m, |m|, cols) && k < |u|
    ensures VecMat(u[k := u[k] + x], m, cols) == Add(VecMat(u, m, cols), Scale(x, m[k]))
  {
    var w := u[k := u[k] + x];
    forall c | 0 <= c < cols
      ensures VecMat(w, m, cols)[c] == Add(VecMat(u, m, cols), Scale(x, m[k]))[c]
    {
      VecMatEntry(w, m, cols, c);
      VecMatEntry(u, m, cols, c);
      DotUpdate(u, k, x, Col(m, c));
    }
  }

  lemma {:induction false} FullGainZeroOutside(row: Vec, selected: seq<nat>, i: nat)
    requires |row| == |selected| && Distinct(selected) && i < CHANNELS && i !in selected
    ensures FullGainRow(row, selected)[i] == 0.0
  {
    if |row| > 0 { FullGainZeroOutside(row[..|row| - 1], selected[..|row| - 1], i); }
  }

  /** The full gain against every channel is the selected gain against the selected channels. */
  lemma {:induction false} FullGainProduct(row: Vec, selected: seq<nat>, c: Mat)
    requires |row| == |selected| && Distinct(selected) && IsMat(c, CHANNELS, STATES)
    ensures VecMat(FullGainRow(row, selected), c, STATES) == VecMat(row, SelectedRows(c, selected), STATES)
  {
    if |row| == 0 {
      forall j | 0 <= j < STATES ensures VecMat(Zero(CHANNELS), c, STATES)[j] == 0.0 {
        VecMatEntry(Zero(CHANNELS), c, STATES, j);
        DotCommutes(Zero(CHANNELS), Col(c, j));
        DotZero(Col(c, j));
      }
    } else {
      var n := |row| - 1;
      var head := FullGainRow(row[..n], selected[..n]);
      FullGainProduct(row[..n], selected[..n], c);
      FullGainZeroOutside(row[..n], selected[..n], selected[n]);
      VecMatUpdate(head, c, selected[n], row[n], STATES);
      assert SelectedRows(c, selected)[..n] == SelectedRows(c, selected[..n]);
    }
  }

  /** With the synthesised gain installed, T is (I - gain_selected c_selected) a_d. */
  lemma {:induction false} TransitionIsSynthesised(d: ObserverDesign, gainSelected: Mat, selected: seq<nat>, i: nat)
    requires d.WellFormed() && Distinct(selected) && IsMat(gainSelected, STATES, |selected|) && i < STATES
    requires d.required.channels == set l | 0 <= l < |selected| :: selected[l]
    requires d.gain[i] == FullGainRow(gainSelected[i], selected)
    ensures ErrorTransition(d)[i]
         == VecMat(Sub(Unit(STATES, i), VecMat(gainSelected[i], SelectedRows(d.measurement.c, selected), STATES)), d.plant.aD, STATES)
  {
    var full := d.gain[i];
    forall k | 0 <= k < CHANNELS ensures Hadamard(RequiredSelector(d.required), full)[k] == full[k] {
      if !d.required.Contains(k) { FullGainZeroOutside(gainSelected[i], selected, k); }
    }
    assert Hadamard(RequiredSelector(d.required), full) == full;
    FullGainProduct(gainSelected[i], selected, d.measurement.c);
  }
}
