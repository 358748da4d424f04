/** Unwrapping a 16-bit quadrature counter into a shaft position, on the robot
    and in the offline revolution analysis. */
module EncoderTracking {
  import opened Wrappers
  import opened MachineInts
  import opened ObservationRecord

  // ----- measurement quality ---------------------------------------------------------

  const AVAILABLE: nat := 1
  const IO_OK: nat := 2
  const IO_ERROR: nat := 4
  const TIMING_VALID: nat := 8
  const FRESHNESS_VERIFIED: nat := 16
  const STALE: nat := 64

  /** The flag, a power of two, is set. */
  predicate Has(quality: u16, flag: nat)
    requires flag > 0
  {
    (quality / flag) % 2 == 1
  }

  // ----- the transfer --------------------------------------------------------------------

  datatype Direction = CounterIncreasing | CounterDecreasing

  function Multiplier(d: Direction): int {
    match d case CounterIncreasing => 1 case CounterDecreasing => -1
  }

  const TAU: real := 6.2831853

  datatype Transfer = Transfer(countsPerRevolution: u32, direction: Direction, allowed: u16)

  predicate Admissible(t: Transfer) {
    t.countsPerRevolution > 0 && 0 < t.allowed < 32768
  }

  type EncoderTransfer = t: Transfer | Admissible(t) witness Transfer(1, CounterIncreasing, 1)

  function NewTransfer(counts: u32, direction: Direction, allowed: u16): (r: Option<EncoderTransfer>)
    ensures r.Some? <==> counts > 0 && 0 < allowed < 32768
  {
    if counts == 0 || allowed == 0 || allowed >= 32768 then None else Some(Transfer(counts, direction, allowed))
  }

  function RadiansPerCount(t: EncoderTransfer): (r: real)
    ensures r > 0.0
  {
    TAU / (t.countsPerRevolution as real)
  }

  // ----- one observation ----------------------------------------------------------------------

  datatype TrackingError =
    | InputUnavailable
    | InputIoError
    | TimingInvalid
    | TimestampUnknown
    | NonMonotonicTimestamp
    | DeltaBeyondEvidence(observed: u16, allowed: u16)

  datatype Sample = Sample(angle: real, rate: Option<real>, at: u64)

  datatype Mark = Mark(count: u16, at: u64)

  datatype Tracker = Tracker(transfer: EncoderTransfer, previous: Option<Mark>, counts: int)

  /** Modular subtraction read as a signed 16-bit number. */
  function WrappedDelta(previous: u16, current: u16): (d: int)
    ensures -32768 <= d < 32768
  {
    var raw: int := (current - previous) % 0x1_0000;
    if raw < 0x8000 then raw else raw - 0x1_0000
  }

  function Magnitude(d: int): nat { if d >= 0 then d else -d }

  function QualityError(quality: u16): Option<TrackingError> {
    if Has(quality, IO_ERROR) || !Has(quality, IO_OK) then Some(InputIoError)
    else if !Has(quality, AVAILABLE) then Some(InputUnavailable)
    else if !Has(quality, TIMING_VALID) then Some(TimingInvalid)
    else None
  }

  function Seconds(us: int): real { us as real / 1000000.0 }

  /** Why the tracker refuses an observation. */
  function TrackingRefusal(t: Tracker, raw: Encoder): Option<TrackingError> {
    if QualityError(raw.quality).Some? then QualityError(raw.quality)
    else if raw.capturedAt.Unknown? then Some(TimestampUnknown)
    else if t.previous.None? then None
    else if raw.capturedAt.at <= t.previous.value.at then Some(NonMonotonicTimestamp)
    else
      var observed := Magnitude(WrappedDelta(t.previous.value.count, raw.count));
      if observed > t.transfer.allowed then Some(DeltaBeyondEvidence(observed, t.transfer.allowed)) else None
  }

  /** The tracker after an observation: unchanged when it was refused. */
  function After(t: Tracker, raw: Encoder): Tracker {
    if TrackingRefusal(t, raw).Some? then t
    else
      var mark := Some(Mark(raw.count, raw.capturedAt.at));
      match t.previous
      case None => Tracker(t.transfer, mark, 0)
      case Some(previous) =>
        Tracker(t.transfer, mark, t.counts + Multiplier(t.transfer.direction) * WrappedDelta(previous.count, raw.count))
  }

  function AngleOf(t: EncoderTransfer, counts: int): real { counts as real * RadiansPerCount(t) }

  function RateOf(t: EncoderTransfer, delta: int, us: int): real
    requires us > 0
  {
    AngleOf(t, delta) / Seconds(us)
  }

  /** What the tracker answers: a rate only from the second sample on. */
  function Report(t: Tracker, raw: Encoder): Result<Sample, TrackingError> {
    var refused := TrackingRefusal(t, raw);
    if refused.Some? then Err(refused.value)
    else
      match t.previous
      case None => Ok(Sample(0.0, None, raw.capturedAt.at))
      case Some(previous) =>
        var delta := Multiplier(t.transfer.direction) * WrappedDelta(previous.count, raw.count);
        Ok(Sample(AngleOf(t.transfer, t.counts + delta), Some(RateOf(t.transfer, delta, raw.capturedAt.at - previous.at)), raw.capturedAt.at))
  }

  /** Angle and rate are those of the step: the counts now held, and how far they moved. */
  predicate Reports(before: Tracker, after: Tracker, raw: Encoder, s: Sample) {
    && raw.capturedAt.Known? && s.at == raw.capturedAt.at
    && s.angle == AngleOf(after.transfer, after.counts)
    && (s.rate.Some? <==> before.previous.Some?)
    && (before.previous.Some? ==>
         s.rate.value * Seconds(s.at - before.previous.value.at)
         == AngleOf(after.transfer, after.counts - before.counts))
  }

  class EncoderTracker {
    const transfer: EncoderTransfer
    var previousCount: Option<u16>
    var previousAt: Option<u64>
    var unwrapped: int

    ghost predicate Valid()
      reads this
    {
      previousCount.Some? <==> previousAt.Some?
    }

    ghost function View(): Tracker
      reads this
      requires Valid()
    {
      Tracker(transfer, if previousCount.Some? then Some(Mark(previousCount.value, previousAt.value)) else None, unwrapped)
    }

    constructor (transfer: EncoderTransfer)
      ensures Valid() && View() == Tracker(transfer, None, 0)
    {
      this.transfer := transfer;
      previousCount, previousAt, unwrapped := None, None, 0;
    }

    method Reset()
      modifies this
      ensures Valid() && View() == Tracker(transfer, None, 0)
    {
      previousCount, previousAt, unwrapped := None, None, 0;
    }

    method Observe(raw: Encoder) returns (r: Result<Sample, TrackingError>)
      requires Valid()
      modifies this
      ensures Valid() && View() == After(old(View()), raw)
      ensures r == Report(old(View()), raw)
    {
      hide Has, AngleOf, RateOf;
      var refused := QualityError(raw.quality);
      if refused.Some? { return Err(refused.value); }
      if raw.capturedAt.Unknown? { return Err(TimestampUnknown); }
      var at := raw.capturedAt.at;
      if previousCount.None? || previousAt.None? {
        previousCount, previousAt, unwrapped := Some(raw.count), Some(at), 0;
        return Ok(Sample(0.0, None, at));
      }
      if at < previousAt.value { return Err(NonMonotonicTimestamp); }
      var deltaUs := at - previousAt.value;
      if deltaUs == 0 { return Err(NonMonotonicTimestamp); }
      var rawDelta := WrappedDelta(previousCount.value, raw.count);
      if Magnitude(rawDelta) > transfer.allowed {
        return Err(DeltaBeyondEvidence(Magnitude(rawDelta), transfer.allowed));
      }
      var signedDelta := Multiplier(transfer.direction) * rawDelta;
      var next := unwrapped + signedDelta;
      var angle := AngleOf(transfer, next);
      var rate := RateOf(transfer, signedDelta, deltaUs);
      previousCount, previousAt, unwrapped := Some(raw.count), Some(at), next;
      r := Ok(Sample(angle, Some(rate), at));
    }
  }

  /** One revolution of counts is one turn, and one revolution a second is one turn a second. */
  lemma RevolutionIsTau(t: EncoderTransfer)
    ensures AngleOf(t, t.countsPerRevolution) == 6.2831853 && RateOf(t, t.countsPerRevolution, 1000000) == 6.2831853
  {
    TurnOver(TAU, t.countsPerRevolution as real);
  }

  lemma TurnOver(tau: real, n: real)
    requires n > 0.0
    ensures n * (tau / n) == tau
  {}

  /** Where bit n of the quality word is set. */
  predicate BitSet(quality: u16, n: nat) {
    UpperBits(quality, n) % 2 == 1
  }

  lemma FlagIsBit(quality: u16)
    ensures BitSet(quality, 0) == Has(quality, AVAILABLE) && BitSet(quality, 1) == Has(quality, IO_OK) && BitSet(quality, 2) == Has(quality, IO_ERROR)
    ensures BitSet(quality, 3) == Has(quality, TIMING_VALID) && BitSet(quality, 4) == Has(quality, FRESHNESS_VERIFIED) && BitSet(quality, 6) == Has(quality, STALE)
  {
    var q0: nat := quality;
    var q1, q2, q3 := q0 / 2, q0 / 4, q0 / 8;
    var q4, q5, q6 := q0 / 16, q0 / 32, q0 / 64;
    assert q1 / 2 == q2 && q2 / 2 == q3 && q3 / 2 == q4 && q4 / 2 == q5 && q5 / 2 == q6;
    assert UpperBits(q0, 0) == q0 && UpperBits(q0, 1) == UpperBits(q1, 0) && UpperBits(q0, 2) == UpperBits(q1, 1) == UpperBits(q2, 0);
    assert UpperBits(q0, 3) == UpperBits(q1, 2) == UpperBits(q2, 1) == UpperBits(q3, 0);
    assert UpperBits(q0, 4) == UpperBits(q1, 3) == UpperBits(q2, 2) == UpperBits(q3, 1) == UpperBits(q4, 0);
    assert UpperBits(q2, 4) == UpperBits(q3, 3) == UpperBits(q4, 2) == UpperBits(q5, 1) == UpperBits(q6, 0);
    assert UpperBits(q0, 6) == UpperBits(q1, 5) == UpperBits(q2, 4);
  }

  /** Each refusal by what is wrong with the reading: the transfer first, then the reading's presence, its timing,
      its time, its order, and how far it is from the one before it. */
  lemma RefusedExactly(t: Tracker, raw: Encoder)
    ensures var e, q := TrackingRefusal(t, raw), raw.quality;
      var transferred, present, timed := BitSet(q, 1) && !BitSet(q, 2), BitSet(q, 0), BitSet(q, 3);
      var known := transferred && present && timed && raw.capturedAt.Known?;
      var later := known && (t.previous.Some? ==> t.previous.value.at < raw.capturedAt.at);
      && (e == Some(InputIoError) <==> !transferred)
      && (e == Some(InputUnavailable) <==> transferred && !present)
      && (e == Some(TimingInvalid) <==> transferred && present && !timed)
      && (e == Some(TimestampUnknown) <==> transferred && present && timed && !raw.capturedAt.Known?)
      && (e == Some(NonMonotonicTimestamp) <==> known && !later)
      && (e.None? <==> later && (t.previous.Some? ==>
            Magnitude(WrappedDelta(t.previous.value.count, raw.count)) <= t.transfer.allowed))
      && (e.Some? && e.value.DeltaBeyondEvidence? ==>
            e.value.allowed == t.transfer.allowed < e.value.observed == Magnitude(WrappedDelta(t.previous.value.count, raw.count)))
  {
    FlagIsBit(raw.quality);
    hide Has, BitSet, WrappedDelta;
  }

  /** An accepted step of a shaft counts up in one direction of the counter and down in the other. */
  lemma DirectionCounts(t: Tracker, raw: Encoder, from: int, to: int)
    requires TrackingRefusal(t, raw).None? && t.previous.Some? && t.previous.value.count == from % 0x1_0000 && raw.count == to % 0x1_0000
    requires Magnitude(to - from) <= t.transfer.allowed
    ensures After(t, raw).counts - t.counts == match t.transfer.direction case CounterIncreasing => to - from case CounterDecreasing => from - to
  {
    WrappedDeltaIsMotion(from, to);
    hide WrappedDelta;
  }

  /** A report's angle is the count now held, and its rate times the elapsed time is how far that moved. */
  lemma ReportMeans(t: Tracker, raw: Encoder)
    requires TrackingRefusal(t, raw).None?
    requires t.previous.None? ==> t.counts == 0
    ensures Report(t, raw).Ok? && Reports(t, After(t, raw), raw, Report(t, raw).value)
  {
    AcceptedIsLater(t, raw);
    hide TrackingRefusal, WrappedDelta, AngleOf;
    if t.previous.Some? {
      var previous := t.previous.value;
      var delta := Multiplier(t.transfer.direction) * WrappedDelta(previous.count, raw.count);
      QuotientTimes(AngleOf(t.transfer, delta), Seconds(raw.capturedAt.at - previous.at));
      hide Seconds, Multiplier;
    }
  }

  lemma AcceptedIsLater(t: Tracker, raw: Encoder)
    requires TrackingRefusal(t, raw).None?
    ensures raw.capturedAt.Known? && (t.previous.Some? ==> raw.capturedAt.at > t.previous.value.at)
  {
    hide Has, WrappedDelta;
  }

  lemma QuotientTimes(a: real, b: real)
    requires b != 0.0
    ensures a / b * b == a
  {}

  // ----- following a shaft -----------------------------------------------------------------------

  /** What the counter showed while the shaft really stood at `position`. */
  datatype Reading = Reading(raw: Encoder, position: int)

  predicate Shows(r: Reading) {
    r.raw.count == r.position % 0x1_0000
  }

  function TrackerAfter(transfer: EncoderTransfer, readings: seq<Reading>): Tracker {
    if |readings| == 0 then Tracker(transfer, None, 0)
    else After(TrackerAfter(transfer, readings[..|readings| - 1]), readings[|readings| - 1].raw)
  }

  predicate AcceptedAt(transfer: EncoderTransfer, readings: seq<Reading>, i: nat)
    requires i < |readings|
  {
    TrackingRefusal(TrackerAfter(transfer, readings[..i]), readings[i].raw).None?
  }

  /** The true positions at the accepted observations. */
  function AcceptedPositions(transfer: EncoderTransfer, readings: seq<Reading>): seq<int> {
    if |readings| == 0 then []
    else
      var n := |readings| - 1;
      AcceptedPositions(transfer, readings[..n]) + if AcceptedAt(transfer, readings, n) then [readings[n].position] else []
  }

  /** The shaft moved at most the allowed counts from each accepted sample to the next. */
  ghost predicate MovesWithin(allowed: nat, positions: seq<int>) {
    forall i | 0 < i < |positions| :: Magnitude(positions[i] - positions[i - 1]) <= allowed
  }

  /** Within half the range the wrapped difference is the true one, and only then. */
  lemma WrappedDeltaIsMotion(x: int, y: int)
    ensures WrappedDelta(x % 0x1_0000, y % 0x1_0000) == y - x <==> -32768 <= y - x < 32768
  {
    var d := WrappedDelta(x % 0x1_0000, y % 0x1_0000);
    var k := (y - x - d) / 0x1_0000;
    assert (y - x - d) % 0x1_0000 == 0;
  }

  /** The tracker stands at these accepted positions. */
  predicate Holds(t: Tracker, transfer: EncoderTransfer, p: seq<int>) {
    && t.transfer == transfer && (t.previous.None? <==> |p| == 0)
    && (|p| == 0 ==> t.counts == 0)
    && (|p| > 0 ==> t.counts == Multiplier(transfer.direction) * (p[|p| - 1] - p[0]))
    && (|p| > 0 ==> t.previous.value.count == p[|p| - 1] % 0x1_0000)
  }

  lemma HoldsNext(t: Tracker, transfer: EncoderTransfer, p: seq<int>, r: Reading)
    requires Holds(t, transfer, p) && Shows(r) && TrackingRefusal(t, r.raw).None?
    requires |p| > 0 ==> Magnitude(r.position - p[|p| - 1]) <= transfer.allowed
    ensures Holds(After(t, r.raw), transfer, p + [r.position])
  {
    assert r.raw.capturedAt.Known?;
    hide TrackingRefusal, WrappedDelta;
    if |p| > 0 { WrappedDeltaIsMotion(p[|p| - 1], r.position); }
  }

  /** Through any number of wraps and refusals the tracker holds the signed distance from
      the first accepted position to the last, and the last counter value it saw. */
  lemma {:induction false} TrackerHoldsDistance(transfer: EncoderTransfer, readings: seq<Reading>)
    requires forall i | 0 <= i < |readings| :: Shows(readings[i])
    requires MovesWithin(transfer.allowed, AcceptedPositions(transfer, readings))
    ensures Holds(TrackerAfter(transfer, readings), transfer, AcceptedPositions(transfer, readings))
  {
    hide TrackingRefusal, WrappedDelta, Holds;
    if |readings| == 0 {
      HoldsAtStart(transfer);
    } else {
      var n := |readings| - 1;
      var p, q := AcceptedPositions(transfer, readings), AcceptedPositions(transfer, readings[..n]);
      assert q <= p;
      assert forall i | 0 <= i < |q| :: q[i] == p[i];
      TrackerHoldsDistance(transfer, readings[..n]);
      assert Shows(readings[n]);
      if AcceptedAt(transfer, readings, n) {
        assert p[|q|] == readings[n].position;
        HoldsNext(TrackerAfter(transfer, readings[..n]), transfer, q, readings[n]);
      } else {
        assert p == q;
      }
    }
  }

  lemma HoldsAtStart(transfer: EncoderTransfer)
    ensures Holds(Tracker(transfer, None, 0), transfer, [])
  {}

  /** An accepted step is taken for the true motion exactly when the motion was within the allowed bound. */
  lemma AcceptedStepIsTrueExactly(t: Tracker, r: Reading, from: int)
    requires TrackingRefusal(t, r.raw).None? && t.previous.Some?
    requires Shows(r) && t.previous.value.count == from % 0x1_0000
    ensures After(t, r.raw).counts == t.counts + Multiplier(t.transfer.direction) * (r.position - from)
       <==> Magnitude(r.position - from) <= t.transfer.allowed
  {
    hide Has;
    WrappedDeltaIsMotion(from, r.position);
  }

  /** n accepted samples move the count by at most (n - 1) allowed steps, so up to 2^48
      of them the 64-bit count cannot overflow. */
  lemma {:induction false} CountBounded(transfer: EncoderTransfer, readings: seq<Reading>)
    ensures var n := |AcceptedPositions(transfer, readings)|;
      && (TrackerAfter(transfer, readings).previous.Some? <==> n > 0)
      && TrackerAfter(transfer, readings).transfer == transfer
      && Magnitude(TrackerAfter(transfer, readings).counts) <= Steps(n, transfer.allowed)
      && (n <= 0x1_0000_0000_0000 ==> Magnitude(TrackerAfter(transfer, readings).counts) < 0x8000_0000_0000_0000)
  {
    hide Has, WrappedDelta;
    if |readings| > 0 {
      CountBounded(transfer, readings[..|readings| - 1]);
      StepsGrow(|AcceptedPositions(transfer, readings[..|readings| - 1])|, transfer.allowed);
    }
    var n := |AcceptedPositions(transfer, readings)|;
    if n <= 0x1_0000_0000_0000 { StepsBound(n, transfer.allowed); }
  }

  function Steps(n: nat, allowed: nat): nat { if n == 0 then 0 else (n - 1) * allowed }

  lemma StepsGrow(n: nat, allowed: nat)
    ensures Steps(n + 1, allowed) == if n == 0 then 0 else Steps(n, allowed) + allowed
  {}

  lemma StepsBound(n: nat, allowed: nat)
    requires allowed < 32768 && n <= 0x1_0000_0000_0000
    ensures Steps(n, allowed) < 0x8000_0000_0000_0000
  {
    if n > 0 { ProductsGrow(n - 1, 0xFFFF_FFFF_FFFF, allowed, 32767); }
  }

  lemma ProductsGrow(a: nat, b: nat, c: nat, d: nat)
    requires a <= b && c <= d
    ensures a * c <= b * d
  {
    assert a * c <= b * c && b * c <= b * d;
  }

  // ----- rate and angle -----------------------------------------------------------------------------

  /** The sum of reported rate times elapsed time over the accepted samples. */
  function IntegratedRate(transfer: EncoderTransfer, readings: seq<Reading>, samples: seq<Sample>): real
    requires |samples| == |readings|
  {
    if |readings| == 0 then 0.0
    else
      var n := |readings| - 1;
      IntegratedRate(transfer, readings[..n], samples[..n])
        + if AcceptedAt(transfer, readings, n) then RateTerm(TrackerAfter(transfer, readings[..n]), samples[n]) else 0.0
  }

  /** The reported rate times the time since the previous accepted sample. */
  function RateTerm(before: Tracker, s: Sample): real {
    if before.previous.Some? && s.rate.Some? then s.rate.value * Seconds(s.at - before.previous.value.at) else 0.0
  }

  lemma NoAngle(t: EncoderTransfer)
    ensures AngleOf(t, 0) == 0.0
  {}

  lemma RateTermIsMotion(before: Tracker, raw: Encoder, s: Sample)
    requires Reports(before, After(before, raw), raw, s) && TrackingRefusal(before, raw).None?
    requires before.previous.None? ==> before.counts == 0
    ensures RateTerm(before, s) == AngleOf(before.transfer, After(before, raw).counts - before.counts)
  {
    hide TrackingRefusal, WrappedDelta, Seconds, AngleOf;
    if before.previous.None? { NoAngle(before.transfer); }
  }

  /** The samples are those the tracker reported. */
  ghost predicate ReportedAll(transfer: EncoderTransfer, readings: seq<Reading>, samples: seq<Sample>) {
    |samples| == |readings| && forall i | 0 <= i < |readings| && AcceptedAt(transfer, readings, i) ::
      Reports(TrackerAfter(transfer, readings[..i]), TrackerAfter(transfer, readings[..i + 1]), readings[i].raw, samples[i])
  }

  lemma ReportedPrefix(transfer: EncoderTransfer, readings: seq<Reading>, samples: seq<Sample>, n: nat)
    requires n < |readings| && ReportedAll(transfer, readings, samples)
    ensures ReportedAll(transfer, readings[..n], samples[..n])
  {
    hide Reports, TrackerAfter, TrackingRefusal;
    forall i | 0 <= i < n && AcceptedAt(transfer, readings[..n], i)
      ensures Reports(TrackerAfter(transfer, readings[..n][..i]), TrackerAfter(transfer, readings[..n][..i + 1]),
                      readings[..n][i].raw, samples[..n][i])
    {
      assert readings[..n][..i] == readings[..i] && readings[..n][..i + 1] == readings[..i + 1];
      assert AcceptedAt(transfer, readings, i);
    }
  }

  /** A fresh tracker counts nothing. */
  lemma {:induction false} FreshIsZero(transfer: EncoderTransfer, readings: seq<Reading>)
    ensures var t := TrackerAfter(transfer, readings); t.transfer == transfer && (t.previous.None? ==> t.counts == 0)
  {
    hide TrackingRefusal, WrappedDelta;
    if |readings| > 0 { FreshIsZero(transfer, readings[..|readings| - 1]); }
  }

  lemma {:induction false} RateIntegratesToAngle(transfer: EncoderTransfer, readings: seq<Reading>, samples: seq<Sample>)
    requires ReportedAll(transfer, readings, samples)
    ensures IntegratedRate(transfer, readings, samples)
         == AngleOf(transfer, TrackerAfter(transfer, readings).counts)
  {
    hide TrackingRefusal, WrappedDelta, AngleOf, Seconds, RateTerm, Reports;
    if |readings| == 0 {
      NoAngle(transfer);
    } else {
      var n := |readings| - 1;
      ReportedPrefix(transfer, readings, samples, n);
      RateIntegratesToAngle(transfer, readings[..n], samples[..n]);
      assert readings[..n + 1] == readings;
      FreshIsZero(transfer, readings[..n]);
      FreshIsZero(transfer, readings);
      var before, now := TrackerAfter(transfer, readings[..n]), TrackerAfter(transfer, readings);
      AnglesAdd(transfer, before.counts, now.counts);
      NoAngle(transfer);
      if AcceptedAt(transfer, readings, n) {
        assert now == After(before, readings[n].raw);
        RateTermIsMotion(before, readings[n].raw, samples[n]);
      }
    }
  }

  lemma AnglesAdd(t: EncoderTransfer, a: int, b: int)
    ensures AngleOf(t, a) + AngleOf(t, b - a) == AngleOf(t, b)
  {
    Distributes(a as real, b as real, RadiansPerCount(t), (b - a) as real);
  }

  lemma Distributes(a: real, b: real, k: real, d: real)
    requires d == b - a
    ensures a * k + d * k == b * k
  {}

  // ----- the offline revolution analysis ---------------------------------------------------------------

  /** The offline tool refuses the step of exactly half the range. */
  function SignedU16Delta(previous: u16, current: u16): Option<int> {
    var raw: int := (current - previous) % 0x1_0000;
    if raw == 0x8000 then None else if raw < 0x8000 then Some(raw) else Some(raw - 0x1_0000)
  }

  /** The two agree, and no admissible tracker accepts the half-range step either. */
  lemma DeltasAgree(t: Tracker, raw: Encoder)
    requires t.previous.Some?
    ensures var d := WrappedDelta(t.previous.value.count, raw.count);
      && SignedU16Delta(t.previous.value.count, raw.count) == (if d == -32768 then None else Some(d))
      && (d == -32768 ==> TrackingRefusal(t, raw).Some?)
  {
    hide Has;
  }

  datatype TrialRow = TrialRow(sequence: u32, dropped: u16, encoder: Encoder)

  datatype TrialError =
    | UnknownDirection | StartMissing | EndMissing | EndNotLater
    | SequenceGap | DroppedRecord | LowQuality | RejectedQuality | HalfRange | NoTimestamp

  datatype Trial = Trial(sampleCount: nat, startCounter: u16, endCounter: u16, netCounts: int, absoluteCounts: nat,
                         maxStep: nat, durationUs: int, dropped: u16)

  /** Row i is the first with this sequence number. */
  predicate FirstWith(rows: seq<TrialRow>, sequence: u32, i: nat) {
    i < |rows| && rows[i].sequence == sequence && forall j | 0 <= j < i :: rows[j].sequence != sequence
  }

  predicate Absent(rows: seq<TrialRow>, sequence: u32) {
    forall j | 0 <= j < |rows| :: rows[j].sequence != sequence
  }

  method FindRow(rows: seq<TrialRow>, sequence: u32) returns (r: Option<nat>)
    ensures match r case Some(i) => FirstWith(rows, sequence, i) case None => Absent(rows, sequence)
  {
    for i := 0 to |rows|
      invariant forall j | 0 <= j < i :: rows[j].sequence != sequence
    {
      if rows[i].sequence == sequence { return Some(i); }
    }
    r := None;
  }

  /** These are the rows from the first with the start number to the first with the end number. */
  ghost predicate Selected(rows: seq<TrialRow>, start: u32, end: u32, selected: seq<TrialRow>) {
    exists s: nat, e: nat :: FirstWith(rows, start, s) && FirstWith(rows, end, e) && s < e && selected == rows[s..e + 1]
  }

  /** Why no rows can be selected. */
  ghost predicate Unselectable(rows: seq<TrialRow>, start: u32, end: u32, e: TrialError) {
    match e
    case StartMissing => Absent(rows, start)
    case EndMissing => !Absent(rows, start) && Absent(rows, end)
    case EndNotLater => exists s: nat, e: nat :: FirstWith(rows, start, s) && FirstWith(rows, end, e) && e <= s
    case _ => false
  }

  /** The rows of one trial, cut out of a capture from the first with the start number to the first with the end number. */
  method TrialRows(rows: seq<TrialRow>, start: u32, end: u32) returns (r: Result<seq<TrialRow>, TrialError>)
    ensures match r
      case Ok(selected) => |selected| >= 2 && Selected(rows, start, end, selected)
      case Err(e) => Unselectable(rows, start, end, e)
  {
    var first := FindRow(rows, start);
    var last := FindRow(rows, end);
    if first.None? { return Err(StartMissing); }
    if last.None? { return Err(EndMissing); }
    if last.value <= first.value { return Err(EndNotLater); }
    r := Ok(rows[first.value..last.value + 1]);
  }

  predicate Sufficient(quality: u16) {
    Has(quality, AVAILABLE) && Has(quality, IO_OK) && Has(quality, TIMING_VALID)
  }

  predicate RejectedFlags(quality: u16) { Has(quality, IO_ERROR) || Has(quality, STALE) }

  function RowError(row: TrialRow): Option<TrialError> {
    if !Sufficient(row.encoder.quality) then Some(LowQuality)
    else if RejectedFlags(row.encoder.quality) then Some(RejectedQuality)
    else None
  }

  function PairError(baseline: u16, previous: TrialRow, current: TrialRow): Option<TrialError> {
    if current.sequence != (previous.sequence + 1) % 0x1_0000_0000 then Some(SequenceGap)
    else if current.dropped != baseline || previous.dropped != baseline then Some(DroppedRecord)
    else if RowError(previous).Some? then RowError(previous)
    else if RowError(current).Some? then RowError(current)
    else if SignedU16Delta(previous.encoder.count, current.encoder.count).None? then Some(HalfRange)
    else None
  }

  /** The row's reading was taken, transferred and timed, without an error and not stale. */
  predicate GoodQuality(quality: u16) {
    BitSet(quality, 0) && BitSet(quality, 1) && BitSet(quality, 3) && !BitSet(quality, 2) && !BitSet(quality, 6)
  }

  /** Two rows follow each other cleanly exactly when their numbers do, neither drop counter has moved from the
      baseline, both readings are good and the step is not the ambiguous one; otherwise the error names the first
      of these that fails. */
  lemma PairRefusedExactly(baseline: u16, previous: TrialRow, current: TrialRow)
    ensures var e := PairError(baseline, previous, current);
      var consecutive := current.sequence == if previous.sequence == 0xFFFF_FFFF then 0 else previous.sequence + 1;
      var undropped := {previous.dropped, current.dropped} == {baseline};
      var good := GoodQuality(previous.encoder.quality) && GoodQuality(current.encoder.quality);
      && (e.None? <==> consecutive && undropped && good && WrappedDelta(previous.encoder.count, current.encoder.count) != -32768)
      && (e == Some(SequenceGap) <==> !consecutive)
      && (e == Some(DroppedRecord) <==> consecutive && !undropped)
      && (e == Some(LowQuality) || e == Some(RejectedQuality) <==> consecutive && undropped && !good)
      && (e == Some(HalfRange) <==> consecutive && undropped && good && WrappedDelta(previous.encoder.count, current.encoder.count) == -32768)
  {
    FlagIsBit(previous.encoder.quality);
    FlagIsBit(current.encoder.quality);
    assert previous.dropped in {previous.dropped, current.dropped} && current.dropped in {previous.dropped, current.dropped};
    hide Has, BitSet;
  }

  /** A row of low quality lacks what was measured; one refused outright was marked as an error or stale. */
  lemma RowRefusedExactly(row: TrialRow)
    ensures var q := row.encoder.quality;
      && (RowError(row) == Some(LowQuality) <==> !(BitSet(q, 0) && BitSet(q, 1) && BitSet(q, 3)))
      && (RowError(row) == Some(RejectedQuality) <==> BitSet(q, 0) && BitSet(q, 1) && BitSet(q, 3) && (BitSet(q, 2) || BitSet(q, 6)))
      && (RowError(row).None? <==> GoodQuality(q))
  {
    FlagIsBit(row.encoder.quality);
    hide Has, BitSet;
  }

  function Net(rows: seq<TrialRow>): int {
    if |rows| <= 1 then 0
    else
      var n := |rows| - 1;
      Net(rows[..n]) + WrappedDelta(rows[n - 1].encoder.count, rows[n].encoder.count)
  }

  ghost predicate CleanPairs(rows: seq<TrialRow>, n: nat)
    requires 0 < n <= |rows|
  {
    forall i | 0 < i < n :: PairError(rows[0].dropped, rows[i - 1], rows[i]).None?
  }

  /** How far the counter moved from the row before this one. */
  function StepSize(rows: seq<TrialRow>, i: nat): nat
    requires 0 < i < |rows|
  {
    Magnitude(WrappedDelta(rows[i - 1].encoder.count, rows[i].encoder.count))
  }

  ghost predicate StepsWithin(rows: seq<TrialRow>, n: nat, bound: nat)
    requires n <= |rows|
  {
    forall i | 0 < i < n :: StepSize(rows, i) <= bound
  }

  ghost predicate StepAttained(rows: seq<TrialRow>, n: nat, step: nat)
    requires n <= |rows|
  {
    step == 0 || exists i | 0 < i < n :: StepSize(rows, i) == step
  }

  /** Row i is the first that cannot follow the one before it, for this reason. */
  ghost predicate FirstRefused(rows: seq<TrialRow>, i: nat, e: TrialError) {
    0 < i < |rows| && CleanPairs(rows, i) && PairError(rows[0].dropped, rows[i - 1], rows[i]) == Some(e)
  }

  ghost predicate BothEndsTimed(rows: seq<TrialRow>)
    requires |rows| >= 1
  {
    rows[0].encoder.capturedAt.Known? && rows[|rows| - 1].encoder.capturedAt.Known?
  }

  /** What the report of a clean trial says. */
  ghost predicate Summarizes(rows: seq<TrialRow>, t: Trial) {
    && |rows| >= 2 && CleanPairs(rows, |rows|) && BothEndsTimed(rows)
    && t.sampleCount == |rows| && t.dropped == rows[0].dropped
    && t.startCounter == rows[0].encoder.count && t.endCounter == rows[|rows| - 1].encoder.count
    && t.netCounts == Net(rows) && t.absoluteCounts == Magnitude(t.netCounts)
    && StepsWithin(rows, |rows|, t.maxStep) && StepAttained(rows, |rows|, t.maxStep)
    && t.durationUs == rows[|rows| - 1].encoder.capturedAt.at - rows[0].encoder.capturedAt.at
  }

  /** Why the rows of a trial are refused: the first pair that is not clean, or an end without a time. */
  ghost predicate Refuses(rows: seq<TrialRow>, e: TrialError) {
    || (exists i :: FirstRefused(rows, i, e))
    || (|rows| >= 2 && CleanPairs(rows, |rows|) && !BothEndsTimed(rows) && e == NoTimestamp)
  }

  /** Two or more selected rows of one trial. */
  method AnalyzeRows(rows: seq<TrialRow>) returns (r: Result<Trial, TrialError>)
    requires |rows| >= 2
    ensures r.Ok? <==> CleanPairs(rows, |rows|) && BothEndsTimed(rows)
    ensures match r case Ok(trial) => Summarizes(rows, trial) case Err(e) => !e.UnknownDirection? && Refuses(rows, e)
  {
    hide SignedU16Delta, WrappedDelta, Sufficient, RejectedFlags;
    hide StepsWithin, StepAttained, Magnitude, Net;
    var net: int, maxStep: nat := 0, 0;
    TrialStarts(rows);
    for i := 1 to |rows|
      invariant CleanPairs(rows, i) && net == Net(rows[..i]) && StepsWithin(rows, i, maxStep) && StepAttained(rows, i, maxStep)
    {
      var refused := PairError(rows[0].dropped, rows[i - 1], rows[i]);
      if refused.Some? {
        assert FirstRefused(rows, i, refused.value);
        return Err(refused.value);
      }
      var step := SignedU16Delta(rows[i - 1].encoder.count, rows[i].encoder.count);
      CleanStep(rows[0].dropped, rows[i - 1], rows[i]);
      TrialNext(rows, i, maxStep, step.value);
      net := net + step.value;
      maxStep := if Magnitude(step.value) > maxStep then Magnitude(step.value) else maxStep;
    }
    assert rows[..|rows|] == rows;
    if rows[0].encoder.capturedAt.Unknown? || rows[|rows| - 1].encoder.capturedAt.Unknown? { return Err(NoTimestamp); }
    r := Ok(Trial(|rows|, rows[0].encoder.count, rows[|rows| - 1].encoder.count, net, Magnitude(net), maxStep,
                  rows[|rows| - 1].encoder.capturedAt.at - rows[0].encoder.capturedAt.at, rows[0].dropped));
  }

  predicate KnownDirection(direction: string) { direction == "positive" || direction == "negative" }

  /** A whole trial of a capture. */
  method AnalyzeTrial(direction: string, capture: seq<TrialRow>, start: u32, end: u32) returns (r: Result<Trial, TrialError>)
    ensures match r
      case Ok(trial) => KnownDirection(direction) && exists rows :: Selected(capture, start, end, rows) && Summarizes(rows, trial)
      case Err(e) =>
        if e.UnknownDirection? then !KnownDirection(direction)
        else KnownDirection(direction) && (Unselectable(capture, start, end, e) || exists rows :: Selected(capture, start, end, rows) && Refuses(rows, e))
  {
    hide Selected, Summarizes, CleanPairs, Refuses, BothEndsTimed, PairError;
    if !KnownDirection(direction) { return Err(UnknownDirection); }
    var selected := TrialRows(capture, start, end);
    if selected.Err? { return Err(selected.error); }
    r := AnalyzeRows(selected.value);
  }

  lemma TrialStarts(rows: seq<TrialRow>)
    requires |rows| >= 1
    ensures Net(rows[..1]) == 0 && StepsWithin(rows, 1, 0) && StepAttained(rows, 1, 0)
  {}

  lemma TrialNext(rows: seq<TrialRow>, i: nat, maxStep: nat, step: int)
    requires 0 < i < |rows| && StepsWithin(rows, i, maxStep) && StepAttained(rows, i, maxStep)
    requires step == WrappedDelta(rows[i - 1].encoder.count, rows[i].encoder.count)
    ensures Net(rows[..i + 1]) == Net(rows[..i]) + step
    ensures var next := if Magnitude(step) > maxStep then Magnitude(step) else maxStep;
      StepsWithin(rows, i + 1, next) && StepAttained(rows, i + 1, next)
  {
    hide WrappedDelta, Magnitude, StepsWithin, StepAttained;
    assert rows[..i + 1][..i] == rows[..i];
    hide Net;
    LargestNext(rows, i, maxStep, Magnitude(step));
  }

  lemma LargestNext(rows: seq<TrialRow>, i: nat, maxStep: nat, size: nat)
    requires 0 < i < |rows| && StepsWithin(rows, i, maxStep) && StepAttained(rows, i, maxStep)
    requires size == StepSize(rows, i)
    ensures var next := if size > maxStep then size else maxStep;
      StepsWithin(rows, i + 1, next) && StepAttained(rows, i + 1, next)
  {
    hide StepSize;
    if size > maxStep { assert StepSize(rows, i) == size; }
    else if maxStep > 0 {
      var k :| 0 < k < i && StepSize(rows, k) == maxStep;
      assert 0 < k < i + 1;
    }
  }

  lemma CleanStep(baseline: u16, previous: TrialRow, current: TrialRow)
    requires PairError(baseline, previous, current).None?
    ensures SignedU16Delta(previous.encoder.count, current.encoder.count)
         == Some(WrappedDelta(previous.encoder.count, current.encoder.count))
  {
    hide RowError;
  }

  /** The tracker fed the rows of a trial. */
  function TrackTrial(transfer: EncoderTransfer, rows: seq<TrialRow>): Tracker {
    if |rows| == 0 then Tracker(transfer, None, 0)
    else After(TrackTrial(transfer, rows[..|rows| - 1]), rows[|rows| - 1].encoder)
  }

  ghost predicate TimesIncrease(rows: seq<TrialRow>) {
    && (forall i | 0 <= i < |rows| :: rows[i].encoder.capturedAt.Known?)
    && (forall i | 0 < i < |rows| :: rows[i - 1].encoder.capturedAt.at < rows[i].encoder.capturedAt.at)
  }

  /** On a trial the tool accepts, with rising capture times and steps the transfer
      allows, the robot's tracker ends at the tool's net count, signed by the direction. */
  lemma {:induction false} TrackerMatchesTrial(transfer: EncoderTransfer, rows: seq<TrialRow>, n: nat)
    requires 0 < n <= |rows| && |rows| >= 2 && CleanPairs(rows, |rows|) && TimesIncrease(rows)
    requires StepsWithin(rows, |rows|, transfer.allowed)
    ensures var t := TrackTrial(transfer, rows[..n]);
      && t.counts == Multiplier(transfer.direction) * Net(rows[..n])
      && t.previous == Some(Mark(rows[n - 1].encoder.count, rows[n - 1].encoder.capturedAt.at)) && t.transfer == transfer
  {
    hide Has, WrappedDelta, SignedU16Delta;
    assert PairError(rows[0].dropped, rows[0], rows[1]).None?;
    assert n > 1 ==> StepSize(rows, n - 1) <= transfer.allowed;
    if n == 1 {
      assert rows[..1][..0] == [];
    } else {
      TrackerMatchesTrial(transfer, rows, n - 1);
      assert rows[..n][..n - 1] == rows[..n - 1];
      assert PairError(rows[0].dropped, rows[n - 2], rows[n - 1]).None?;
    }
  }
}
