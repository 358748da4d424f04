/** What a prediction and a correction of the extended Kalman filter mean: which way an estimate moves and how
    far, that the gain is the best one, that an exact estimate stays exact, and that the coded Jacobian is the
    first-order part of the coded measurement. */
module EkfMeaning {
  import opened LinearAlgebra
  import opened StateEstimator
  import opened Wrappers
  import opened Ekf

  // ----- which way a correction moves the estimate -------------------------------------------

  /** How far the measurement is from what this state predicts. */
  ghost function Residual(d: EkfDesign, x: StateVec, u: InputVec, channel: nat, y: real): real
    requires d.WellFormed() && channel < CHANNELS
  {
    y - NonlinearMeasurement(d, x, u)[channel]
  }

  lemma TimesReciprocal(x: real, s: real)
    requires s > 0.0
    ensures x / s == 1.0 / s * x
  {}

  lemma {:induction false} GainAgainstRow(p: Covariance, h: StateVec, r: real)
    requires InnovationVariance(p, h, r) > 0.0
    ensures var s := InnovationVariance(p, h, r);
      Dot(h, Gain(p, h, r)) == (s - r) / s
  {
    var s, ph := InnovationVariance(p, h, r), MulVec(p, h);
    forall i | 0 <= i < STATES ensures Gain(p, h, r)[i] == Scale(1.0 / s, ph)[i] { TimesReciprocal(ph[i], s); }
    assert Gain(p, h, r) == Scale(1.0 / s, ph);
    DotScale(h, 1.0 / s, ph);
    hide Dot, MulVec, Gain;
    TimesReciprocal(s - r, s);
  }

  /** A correction moves the linearised measurement towards the measured value, by the share of the residual
      that the state's own uncertainty makes up of the innovation variance. */
  lemma {:induction false} CorrectionClosesResidual(d: EkfDesign, f: FilterState, channel: nat, y: real, u: InputVec)
    requires d.WellFormed() && channel < CHANNELS && Corrected(d, f, channel, y, u).Some?
    ensures var g := Corrected(d, f, channel, y, u).value;
      var h, r := JacobianRow(d, f.x, channel), d.measurementVariance[channel];
      var s := InnovationVariance(f.p, h, r);
      && Dot(h, g.x) == Dot(h, f.x) + (s - r) / s * Residual(d, f.x, u, channel, y)
      && (channel > ACCEL_Z ==> Residual(d, g.x, u, channel, y) == r / s * Residual(d, f.x, u, channel, y))
  {
    hide Dot, Gain, InnovationVariance, Add, Scale, Corrected, Residual, JacobianRow, EkfDesign.WellFormed;
    CorrectionMovesRow(d, f, channel, y, u);
    if channel > ACCEL_Z { ResidualShrinks(d, f, channel, y, u); }
  }

  lemma {:induction false} CorrectionMovesRow(d: EkfDesign, f: FilterState, channel: nat, y: real, u: InputVec)
    requires d.WellFormed() && channel < CHANNELS && Corrected(d, f, channel, y, u).Some?
    ensures var h, r := JacobianRow(d, f.x, channel), d.measurementVariance[channel];
      var s := InnovationVariance(f.p, h, r);
      && s > 0.0 && Dot(h, Corrected(d, f, channel, y, u).value.x) == Dot(h, f.x) + Times((s - r) / s, Residual(d, f.x, u, channel, y))
  {
    var h, r := JacobianRow(d, f.x, channel), d.measurementVariance[channel];
    CorrectedIs(d, f, channel, y, u);
    hide *;
    GainAgainstRow(f.p, h, r);
    RowOfMoved(h, f.x, Gain(f.p, h, r), Residual(d, f.x, u, channel, y));
  }

  lemma {:induction false} ResidualShrinks(d: EkfDesign, f: FilterState, channel: nat, y: real, u: InputVec)
    requires d.WellFormed() && ACCEL_Z < channel < CHANNELS && Corrected(d, f, channel, y, u).Some?
    ensures var h, r := JacobianRow(d, f.x, channel), d.measurementVariance[channel];
      var s := InnovationVariance(f.p, h, r);
      && s > 0.0 && Residual(d, Corrected(d, f, channel, y, u).value.x, u, channel, y) == Times(r / s, Residual(d, f.x, u, channel, y))
  {
    var h, r := JacobianRow(d, f.x, channel), d.measurementVariance[channel];
    hide *;
    CorrectionMovesRow(d, f, channel, y, u);
    ResidualMoves(d, f.x, Corrected(d, f, channel, y, u).value.x, u, channel, y);
    var s, e := InnovationVariance(f.p, h, r), Residual(d, f.x, u, channel, y);
    Shares(s, r, e);
  }

  lemma {:induction false} CorrectedIs(d: EkfDesign, f: FilterState, channel: nat, y: real, u: InputVec)
    requires d.WellFormed() && channel < CHANNELS && Corrected(d, f, channel, y, u).Some?
    ensures var h, r := JacobianRow(d, f.x, channel), d.measurementVariance[channel];
      && InnovationVariance(f.p, h, r) > 0.0
      && Corrected(d, f, channel, y, u).value.x == Add(f.x, Scale(Residual(d, f.x, u, channel, y), Gain(f.p, h, r)))
  {
    hide Joseph, Symmetrized, JacobianRow, NonlinearMeasurement, InnovationVariance, Gain, Add, Scale;
  }

  lemma {:induction false} RowOfMoved(h: StateVec, x: StateVec, k: StateVec, e: real)
    ensures Dot(h, Add(x, Scale(e, k))) == Dot(h, x) + Times(Dot(h, k), e)
  {
    DotAdd(h, x, Scale(e, k));
    DotScale(h, e, k);
    hide Dot;
  }

  /** On a linear channel the residual falls by as much as the row's output rises. */
  lemma {:induction false} ResidualMoves(d: EkfDesign, x: StateVec, x': StateVec, u: InputVec, channel: nat, y: real)
    requires d.WellFormed() && ACCEL_Z < channel < CHANNELS
    ensures var h := JacobianRow(d, x, channel);
      Residual(d, x', u, channel, y) == Residual(d, x, u, channel, y) - (Dot(h, x') - Dot(h, x))
  {
    hide Dot;
  }

  lemma Shares(s: real, r: real, e: real)
    requires s > 0.0
    ensures e - Times((s - r) / s, e) == Times(r / s, e)
  {
    var q := r / s;
    assert r == q * s;
    assert (s - r) / s == 1.0 - q by { OverItself(1.0 - q, s, s - r); }
  }

  lemma OverItself(q: real, s: real, product: real)
    requires s > 0.0 && product == q * s
    ensures product / s == q
  {}

  // ----- the variances ------------------------------------------------------------------------

  /** What the covariance of a correction with some other gain would be, before the floor. */
  ghost function CorrectedWith(p: Covariance, h: StateVec, r: real, k: StateVec): (c: Covariance) {
    AddOuter(Congruence(IMinusKH(k, h), p), r, k)
  }

  /** The rows of I - k h' against v: v less its component along the gain, turned into the row's direction. */
  lemma {:induction false} ProjectedOff(k: StateVec, h: StateVec, v: StateVec)
    ensures VecMat(v, IMinusKH(k, h), STATES) == Sub(v, Scale(Dot(v, k), h))
  {
    var m := IMinusKH(k, h);
    hide Dot, VecMat, IMinusKH;
    forall c | 0 <= c < STATES ensures VecMat(v, m, STATES)[c] == Sub(v, Scale(Dot(v, k), h))[c] {
      ProjectedEntry(k, h, v, c);
    }
  }

  lemma {:induction false} ProjectedEntry(k: StateVec, h: StateVec, v: StateVec, c: nat)
    requires c < STATES
    ensures VecMat(v, IMinusKH(k, h), STATES)[c] == v[c] - Dot(v, k) * h[c]
  {
    hide Dot, VecMat;
    VecMatEntry(v, IMinusKH(k, h), STATES, c);
    ColumnIs(k, h, c);
    hide IMinusKH;
    DotSub(v, Unit(STATES, c), Scale(h[c], k));
    DotUnit(c, v);
    DotScale(v, h[c], k);
  }

  lemma {:induction false} ColumnIs(k: StateVec, h: StateVec, c: nat)
    requires c < STATES
    ensures Col(IMinusKH(k, h), c) == Sub(Unit(STATES, c), Scale(h[c], k))
  {
    var m := IMinusKH(k, h);
    forall i | 0 <= i < STATES ensures Col(m, c)[i] == Sub(Unit(STATES, c), Scale(h[c], k))[i] {
      assert m[i] == Sub(Unit(STATES, i), Scale(k[i], h));
      assert Scale(k[i], h)[c] == k[i] * h[c] && Scale(h[c], k)[i] == h[c] * k[i];
    }
  }

  /** The variance left in any direction after a correction with any gain: a parabola in how far the gain
      reaches in that direction. */
  lemma {:induction false} VarianceAfter(p: Covariance, h: StateVec, r: real, k: StateVec, v: StateVec)
    requires Symmetric(p)
    ensures var reach, b := Dot(v, k), Bil(p, v, h);
      Quad(CorrectedWith(p, h, r, k), v) == Quad(p, v) - 2.0 * (reach * b) + reach * reach * InnovationVariance(p, h, r)
  {
    var m := IMinusKH(k, h);
    var reach := Dot(v, k);
    QuadCongruence(m, p, v);
    ProjectedOff(k, h, v);
    hide Dot, MulVec, Quad, Bil, Congruence, IMinusKH, AddOuter, Sub, Scale, Symmetric, InnovationVariance;
    OuterQuad(Congruence(m, p), r, k, v);
    ShiftedQuad(p, v, h, reach);
    VarianceIs(p, h, r);
    Parabola(Quad(p, v), Bil(p, v, h), Quad(p, h), reach, r, InnovationVariance(p, h, r),
             Quad(p, Sub(v, Scale(reach, h))), Quad(CorrectedWith(p, h, r, k), v));
  }

  lemma {:induction false} ShiftedQuad(p: Covariance, v: StateVec, h: StateVec, a: real)
    requires Symmetric(p)
    ensures Quad(p, Sub(v, Scale(a, h))) == (Quad(p, v) - a * Bil(p, v, h)) - a * (Bil(p, v, h) - a * Quad(p, h))
  {
    var w: StateVec := Sub(v, Scale(a, h));
    BilRightSub(p, w, v, a, h);
    BilLeftSub(p, v, a, h, v);
    BilLeftSub(p, v, a, h, h);
    BilSymmetric(p, h, v);
    hide Dot, MulVec, Bil, Sub, Scale, Symmetric;
  }

  lemma VarianceIs(p: Covariance, h: StateVec, r: real)
    ensures InnovationVariance(p, h, r) == Quad(p, h) + r
  {}

  lemma Parabola(q: real, b: real, hph: real, a: real, r: real, s: real, shifted: real, after: real)
    requires s == hph + r && shifted == (q - a * b) - a * (b - a * hph) && after == shifted + r * a * a
    ensures after == q - 2.0 * (a * b) + a * a * s
  {}

  lemma {:induction false} OuterQuad(p: Covariance, r: real, k: StateVec, v: StateVec)
    ensures Quad(AddOuter(p, r, k), v) == Quad(p, v) + r * Dot(v, k) * Dot(v, k)
  {
    hide Dot, Quad;
    var s := r * Dot(v, k);
    forall i | 0 <= i < STATES ensures Dot(AddOuter(p, r, k)[i], v) == Dot(p[i], v) + Scale(s, k)[i] {
      OuterRow(p, r, k, v, i, s);
    }
    QuadSplit(p, AddOuter(p, r, k), v, Scale(s, k));
    DotScale(v, s, k);
  }

  /** No other gain leaves less variance in any direction of the state. */
  lemma {:induction false} GainIsBest(p: Covariance, h: StateVec, r: real, other: StateVec, v: StateVec)
    requires Symmetric(p) && InnovationVariance(p, h, r) > 0.0
    ensures Quad(Joseph(p, h, r), v) <= Quad(CorrectedWith(p, h, r, other), v)
  {
    var k, s := Gain(p, h, r), InnovationVariance(p, h, r);
    VarianceAfter(p, h, r, k, v);
    VarianceAfter(p, h, r, other, v);
    assert Joseph(p, h, r) == CorrectedWith(p, h, r, k);
    ReachOfGain(p, h, r, v);
    hide Dot, MulVec, Quad, Bil, InnovationVariance, Gain, CorrectedWith, Joseph;
    Vertex(Bil(p, v, h), s, Dot(v, k), Dot(v, other));
  }

  lemma {:induction false} ReachOfGain(p: Covariance, h: StateVec, r: real, v: StateVec)
    requires InnovationVariance(p, h, r) > 0.0
    ensures Dot(v, Gain(p, h, r)) * InnovationVariance(p, h, r) == Bil(p, v, h)
  {
    var s, ph := InnovationVariance(p, h, r), MulVec(p, h);
    forall i | 0 <= i < STATES ensures Gain(p, h, r)[i] == Scale(1.0 / s, ph)[i] { TimesReciprocal(ph[i], s); }
    assert Gain(p, h, r) == Scale(1.0 / s, ph);
    DotScale(v, 1.0 / s, ph);
    hide Dot, MulVec, Gain, InnovationVariance;
    TimesReciprocal(Dot(v, ph), s);
  }

  lemma Vertex(b: real, s: real, best: real, other: real)
    requires s > 0.0 && best * s == b
    ensures best * best * s - 2.0 * (best * b) <= other * other * s - 2.0 * (other * b)
  {
    var gap := other - best;
    SquareNonNegative(gap);
    var square := gap * gap;
    assert square * s >= 0.0;
    assert square == other * other - 2.0 * (other * best) + best * best;
    assert other * b == other * best * s && best * b == best * best * s;
  }

  /** Averaging mirrored entries changes the variance in no direction; the floor adds exactly what lifts a
      diagonal entry to it. */
  lemma {:induction false} SymmetrizedVariance(p: Covariance, v: StateVec)
    ensures Quad(Symmetrized(p), v) == Quad(p, v) + Dot(v, Hadamard(Lift(p), v))
    ensures forall i | 0 <= i < STATES :: p[i][i] + Lift(p)[i] == if p[i][i] >= 0.000000000001 then p[i][i] else 0.000000000001
  {
    var a, b, extra := MulVec(p, v), VecMat(v, p, STATES), Hadamard(Lift(p), v);
    var c := MulVec(Symmetrized(p), v);
    forall i | 0 <= i < STATES ensures c[i] == Add(Scale(0.5, Add(a, b)), extra)[i] {
      SymmetrizedRow(p, v, i);
    }
    assert c == Add(Scale(0.5, Add(a, b)), extra);
    DotAdd(v, Scale(0.5, Add(a, b)), extra);
    DotScale(v, 0.5, Add(a, b));
    DotAdd(v, a, b);
    Adjoint(v, p, v);
    DotCommutes(b, v);
    hide Dot, MulVec, VecMat, Symmetrized, Add, Scale, Hadamard;
  }

  lemma {:induction false} SymmetrizedRow(p: Covariance, v: StateVec, i: nat)
    requires i < STATES
    ensures Dot(Symmetrized(p)[i], v) == 0.5 * (Dot(p[i], v) + VecMat(v, p, STATES)[i]) + Lift(p)[i] * v[i]
  {
    var row, mean := Symmetrized(p)[i], Scale(0.5, Add(p[i], Col(p, i)));
    assert row == mean[i := mean[i] + Lift(p)[i]];
    DotUpdate(mean, i, Lift(p)[i], v);
    DotCommutes(mean, v);
    DotScale(v, 0.5, Add(p[i], Col(p, i)));
    DotAdd(v, p[i], Col(p, i));
    DotCommutes(v, p[i]);
    VecMatEntry(v, p, STATES, i);
  }

  /** The predicted variance in any direction: that of the direction carried back by the plant, plus the process
      noise, plus what the floor lifts. */
  lemma {:induction false} PredictedVariance(d: EkfDesign, p: Covariance, v: StateVec)
    requires d.WellFormed()
    ensures var lift := Lift(AddDiagonal(Congruence(d.plant.aD, p), d.processVariance));
      Quad(PredictedCovariance(d, p), v)
      == Quad(p, VecMat(v, d.plant.aD, STATES)) + Dot(v, Hadamard(d.processVariance, v)) + Dot(v, Hadamard(lift, v))
  {
    var c: Covariance := Congruence(d.plant.aD, p);
    SymmetrizedVariance(AddDiagonal(c, d.processVariance), v);
    QuadCongruence(d.plant.aD, p, v);
    DiagonalVariance(c, d.processVariance, v);
    hide Dot, Quad, Congruence, AddDiagonal, Symmetrized, Lift, VecMat;
  }

  lemma {:induction false} DiagonalVariance(p: Covariance, q: StateVec, v: StateVec)
    ensures Quad(AddDiagonal(p, q), v) == Quad(p, v) + Dot(v, Hadamard(q, v))
  {
    hide Dot, Quad;
    forall i | 0 <= i < STATES { DiagonalRow(p, q, v, i); }
    QuadSplit(p, AddDiagonal(p, q), v, Hadamard(q, v));
  }

  /** After a reset each state has its own variance, independent of the others. */
  lemma {:induction false} InitialVariance(variance: StateVec, v: StateVec)
    ensures Quad(InitialCovariance(variance), v) == Dot(v, Hadamard(variance, v))
  {
    DiagonalFromZero(variance);
    ZeroMatForm(STATES, v);
    DiagonalVariance(ZeroMat(STATES), variance, v);
    hide Dot, Quad;
  }

  // ----- an exact estimate ----------------------------------------------------------------------

  /** Every used channel with a sample reads exactly what this state predicts. */
  ghost predicate ReadsExactly(d: EkfDesign, x: StateVec, u: InputVec, y: EstimatorMeasurement)
    requires d.WellFormed()
  {
    forall i | 0 <= i < CHANNELS && d.used.Contains(i) && y.available.Contains(i) :: y.values[i] == NonlinearMeasurement(d, x, u)[i]
  }

  lemma NoCorrection(x: StateVec, k: StateVec)
    ensures Add(x, Scale(0.0, k)) == x
  {}

  lemma {:induction false} ExactCorrections(d: EkfDesign, f: FilterState, channel: nat, y: EstimatorMeasurement, u: InputVec)
    requires d.WellFormed() && channel <= CHANNELS && ReadsExactly(d, f.x, u, y)
    ensures Corrections(d, f, channel, y, u).0.x == f.x
    decreases CHANNELS - channel
  {
    hide NonlinearMeasurement, Joseph, Symmetrized, JacobianRow, InnovationVariance, Gain, Add, Scale;
    if channel == CHANNELS {
    } else if !d.used.Contains(channel) || !y.available.Contains(channel) {
      ExactCorrections(d, f, channel + 1, y, u);
    } else {
      match Corrected(d, f, channel, y.values[channel], u)
      case None =>
      case Some(g) =>
        NoCorrection(f.x, Gain(f.p, JacobianRow(d, f.x, channel), d.measurementVariance[channel]));
        ExactCorrections(d, g, channel + 1, y, u);
    }
  }

  /** The plant's own states: the prediction with each step's previous input, while steps are accepted. */
  ghost function PlantStates(d: EkfDesign, x: StateVec, steps: seq<FilterStep>): (r: StateVec)
    requires d.WellFormed()
  {
    if |steps| == 0 then x
    else
      var s := steps[|steps| - 1];
      var before := PlantStates(d, x, steps[..|steps| - 1]);
      if Refusal(d.required, s.y).None? then PredictedState(d.plant, before, s.previous) else before
  }

  /** At every accepted step the channels read what the plant's state, just moved on, gives under the current input. */
  ghost predicate ReadsPlant(d: EkfDesign, x: StateVec, steps: seq<FilterStep>)
    requires d.WellFormed()
  {
    forall k | 0 <= k < |steps| && Refusal(d.required, steps[k].y).None? ::
      ReadsExactly(d, PlantStates(d, x, steps[..k + 1]), steps[k].current, steps[k].y)
  }

  /** Started at the plant's state and shown what the plant shows, the filter is at the plant's state after any
      run, whatever its covariance, its noise settings and its masks. */
  lemma {:induction false} ExactStaysExact(d: EkfDesign, f: FilterState, steps: seq<FilterStep>)
    requires d.WellFormed() && ReadsPlant(d, f.x, steps)
    ensures FilterRun(d, f, steps).x == PlantStates(d, f.x, steps)
  {
    hide PredictedState, Corrections, ReadsExactly, Refusal, PredictedCovariance;
    if |steps| > 0 {
      var n := |steps| - 1;
      var head, s := steps[..n], steps[n];
      assert steps[..n + 1] == steps;
      forall k | 0 <= k < n && Refusal(d.required, head[k].y).None?
        ensures ReadsExactly(d, PlantStates(d, f.x, head[..k + 1]), head[k].current, head[k].y)
      {
        assert head[..k + 1] == steps[..k + 1];
      }
      ExactStaysExact(d, f, head);
      if Refusal(d.required, s.y).None? {
        assert ReadsExactly(d, PlantStates(d, f.x, steps[..n + 1]), steps[n].current, steps[n].y);
        ExactCorrections(d, PredictedFilter(d, FilterRun(d, f, head), s.previous), 0, s.y, s.current);
      }
    }
  }

  // ----- the order of the corrections -----------------------------------------------------------

  predicate UsableAt(d: EkfDesign, y: EstimatorMeasurement, channel: nat) {
    channel in d.used.channels && channel in y.available.channels
  }

  /** The filter passes through these states, corrected by these channels in turn. */
  ghost predicate Traces(d: EkfDesign, y: EstimatorMeasurement, u: InputVec, channels: seq<nat>, states: seq<FilterState>)
    requires d.WellFormed()
  {
    && |states| == |channels| + 1 && (forall i | 0 <= i < |channels| :: channels[i] < CHANNELS)
    && forall i | 0 <= i < |channels| :: Corrected(d, states[i], channels[i], y.values[channels[i]], u) == Some(states[i + 1])
  }

  ghost predicate Ascending(channels: seq<nat>) {
    forall i, j | 0 <= i < j < |channels| :: channels[i] < channels[j]
  }

  /** A step corrects once by each usable channel, in ascending order, each correction starting where the one
      before it ended; it ends at the first channel that cannot be corrected by, or after the last. */
  lemma {:induction false} CorrectionsInOrder(d: EkfDesign, f: FilterState, channel: nat, y: EstimatorMeasurement, u: InputVec)
    returns (channels: seq<nat>, states: seq<FilterState>, stop: nat)
    requires d.WellFormed() && channel <= CHANNELS
    ensures Traces(d, y, u, channels, states) && Ascending(channels) && channel <= stop <= CHANNELS
    ensures forall c :: c in channels <==> channel <= c < stop && UsableAt(d, y, c)
    ensures states[0] == f && states[|channels|] == Corrections(d, f, channel, y, u).0
    ensures if stop == CHANNELS then Corrections(d, f, channel, y, u).1
      else !Corrections(d, f, channel, y, u).1 && UsableAt(d, y, stop) && Corrected(d, states[|channels|], stop, y.values[stop], u).None?
    decreases CHANNELS - channel
  {
    hide Corrected, Ascending, EkfDesign.WellFormed, Traces;
    if channel == CHANNELS {
      channels, states, stop := [], [f], CHANNELS;
      TraceNone(d, y, u, f);
    } else if !d.used.Contains(channel) || !y.available.Contains(channel) {
      channels, states, stop := CorrectionsInOrder(d, f, channel + 1, y, u);
    } else {
      match Corrected(d, f, channel, y.values[channel], u)
      case None =>
        channels, states, stop := [], [f], channel;
        TraceNone(d, y, u, f);
      case Some(g) =>
        var rest, after;
        rest, after, stop := CorrectionsInOrder(d, g, channel + 1, y, u);
        channels, states := [channel] + rest, [f] + after;
        TraceFirst(d, y, u, channel, rest, f, after);
    }
  }

  lemma {:induction false} TraceNone(d: EkfDesign, y: EstimatorMeasurement, u: InputVec, f: FilterState)
    requires d.WellFormed()
    ensures Traces(d, y, u, [], [f]) && Ascending([])
  {}

  lemma {:induction false} TraceFirst(d: EkfDesign, y: EstimatorMeasurement, u: InputVec, channel: nat, rest: seq<nat>, f: FilterState, after: seq<FilterState>)
    requires d.WellFormed() && Traces(d, y, u, rest, after) && Ascending(rest) && channel < CHANNELS
    requires Corrected(d, f, channel, y.values[channel], u) == Some(after[0])
    requires forall c | c in rest :: channel < c
    ensures Traces(d, y, u, [channel] + rest, [f] + after) && Ascending([channel] + rest)
  {
    hide Corrected, EkfDesign.WellFormed;
    var channels, states := [channel] + rest, [f] + after;
    assert forall i | 0 < i < |channels| :: channels[i] == rest[i - 1] && states[i] == after[i - 1] && states[i + 1] == after[i];
    assert forall i | 0 <= i < |rest| :: rest[i] in rest;
  }

  /** An accepted step without a fault reports exactly the usable channels. */
  lemma {:induction false} ReportsUsable(d: EkfDesign, f: FilterState, s: FilterStep, c: nat)
    requires d.WellFormed() && StepResult(d, f, s.previous, s.current, s.y).Ok? && c < CHANNELS
    ensures StepResult(d, f, s.previous, s.current, s.y).value.Contains(c) <==> UsableAt(d, s.y, c)
  {
    hide Corrections, PredictedFilter, Refusal;
  }
}
