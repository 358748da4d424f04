/** Scenarios, their schedule, and the run loop that plays it against an execution. */
module SitlRun {
  import opened Wrappers
  import opened MachineInts
  import opened Scheduler

  // ----- scenarios ----------------------------------------------------------------------

  datatype Scenario = Scenario(id: string, duration: u64, sensorPeriod: u64, runtimePeriod: u64, missed: seq<u64>)

  datatype ScenarioError =
    | EmptyId | ZeroSensorPeriod | ZeroRuntimePeriod
    | MissedOutOfRange(at: u64) | MissedOffGrid(at: u64) | MissedNotIncreasing

  /** The characters that trimming removes. */
  predicate WhiteSpace(c: char) {
    var n := c as int;
    9 <= n <= 13 || n == 0x20 || n == 0x85 || n == 0xA0 || n == 0x1680 || 0x2000 <= n <= 0x200A
    || n == 0x2028 || n == 0x2029 || n == 0x202F || n == 0x205F || n == 0x3000
  }

  predicate Blank(s: string) { forall i | 0 <= i < |s| :: WhiteSpace(s[i]) }

  ghost predicate MissedFit(sc: Scenario, n: nat)
    requires sc.runtimePeriod > 0 && n <= |sc.missed|
  {
    && (forall i | 0 <= i < n :: sc.missed[i] <= sc.duration && sc.missed[i] % sc.runtimePeriod == 0)
    && (forall i, j | 0 <= i < j < n :: sc.missed[i] < sc.missed[j])
  }

  ghost predicate ValidScenario(sc: Scenario) {
    !Blank(sc.id) && sc.sensorPeriod > 0 && sc.runtimePeriod > 0 && MissedFit(sc, |sc.missed|)
  }

  /** Entry i of the missed list is the first that does not fit: past the end, else off the grid, else not later
      than the one before it. */
  ghost predicate FirstMisfit(sc: Scenario, i: nat, e: ScenarioError)
    requires sc.runtimePeriod > 0
  {
    && i < |sc.missed| && MissedFit(sc, i)
    && (e == MissedOutOfRange(sc.missed[i]) <==> sc.missed[i] > sc.duration)
    && (e == MissedOffGrid(sc.missed[i]) <==> sc.missed[i] <= sc.duration && sc.missed[i] % sc.runtimePeriod != 0)
    && (e == MissedNotIncreasing <==>
         sc.missed[i] <= sc.duration && sc.missed[i] % sc.runtimePeriod == 0 && i > 0 && sc.missed[i - 1] >= sc.missed[i])
  }

  /** The first thing wrong with a scenario, in the order of its fields. */
  ghost predicate FirstProblem(sc: Scenario, e: ScenarioError) {
    match e
    case EmptyId => Blank(sc.id)
    case ZeroSensorPeriod => !Blank(sc.id) && sc.sensorPeriod == 0
    case ZeroRuntimePeriod => !Blank(sc.id) && sc.sensorPeriod > 0 && sc.runtimePeriod == 0
    case _ => !Blank(sc.id) && sc.sensorPeriod > 0 && sc.runtimePeriod > 0 && exists i :: FirstMisfit(sc, i, e)
  }

  method Validate(sc: Scenario) returns (r: Result<(), ScenarioError>)
    ensures r.Ok? <==> ValidScenario(sc)
    ensures r.Err? ==> FirstProblem(sc, r.error)
  {
    if Blank(sc.id) { return Err(EmptyId); }
    if sc.sensorPeriod == 0 { return Err(ZeroSensorPeriod); }
    if sc.runtimePeriod == 0 { return Err(ZeroRuntimePeriod); }
    var previous: Option<u64> := None;
    for i := 0 to |sc.missed|
      invariant MissedFit(sc, i) && previous == if i == 0 then None else Some(sc.missed[i - 1])
    {
      var at := sc.missed[i];
      if at > sc.duration {
        assert FirstMisfit(sc, i, MissedOutOfRange(at));
        return Err(MissedOutOfRange(at));
      }
      if at % sc.runtimePeriod != 0 {
        assert FirstMisfit(sc, i, MissedOffGrid(at));
        return Err(MissedOffGrid(at));
      }
      if previous.Some? && previous.value >= at {
        assert FirstMisfit(sc, i, MissedNotIncreasing);
        return Err(MissedNotIncreasing);
      }
      previous := Some(at);
    }
    r := Ok(());
  }

  /** Binary search of the missed list. */
  method RuntimeIsMissed(sc: Scenario, at: u64) returns (missed: bool)
    requires ValidScenario(sc)
    ensures missed <==> at in sc.missed
  {
    var low, high := 0, |sc.missed|;
    while low < high
      invariant 0 <= low <= high <= |sc.missed|
      invariant forall i | 0 <= i < low :: sc.missed[i] < at
      invariant forall i | high <= i < |sc.missed| :: at < sc.missed[i]
    {
      var middle := low + (high - low) / 2;
      if sc.missed[middle] == at { return true; }
      if sc.missed[middle] < at { low := middle + 1; } else { high := middle; }
    }
    missed := false;
  }

  function SensorSampleCount(sc: Scenario): nat
    requires sc.sensorPeriod > 0
  {
    sc.duration / sc.sensorPeriod + 1
  }

  function RuntimeOpportunityCount(sc: Scenario): nat
    requires sc.runtimePeriod > 0
  {
    sc.duration / sc.runtimePeriod + 1
  }

  // ----- the plan --------------------------------------------------------------------------

  /** What happens at a time, in the order in which it happens. */
  function Kinds(sc: Scenario, t: u64): seq<EventKind>
    requires sc.sensorPeriod > 0 && sc.runtimePeriod > 0
  {
    (if t == 0 then [ScenarioStart] else [])
    + (if t % sc.sensorPeriod == 0 then [SensorSample, ObservationDelivery] else [])
    + (if t % sc.runtimePeriod != 0 then []
       else if t in sc.missed then [RuntimeOpportunityMissed] else [ProductionRuntime, ActuationCommit])
  }

  /** The entries of the missed list before a time. */
  function CountBelow(missed: seq<u64>, t: nat): nat {
    if |missed| == 0 then 0 else CountBelow(missed[..|missed| - 1], t) + if missed[|missed| - 1] < t then 1 else 0
  }

  /** The insertion number a planned event gets. */
  function InsertionOf(sc: Scenario, t: u64, kind: EventKind): int
    requires sc.sensorPeriod > 0 && sc.runtimePeriod > 0
  {
    var runtimeBase := 1 + 2 * SensorSampleCount(sc) + 2 * (t / sc.runtimePeriod) - CountBelow(sc.missed, t);
    match kind
    case ScenarioStart => 0
    case SensorSample => 1 + 2 * (t / sc.sensorPeriod)
    case ObservationDelivery => 2 + 2 * (t / sc.sensorPeriod)
    case ProductionRuntime => runtimeBase
    case RuntimeOpportunityMissed => runtimeBase
    case ActuationCommit => runtimeBase + 1
  }

  predicate Planned(sc: Scenario, e: Event)
    requires sc.sensorPeriod > 0 && sc.runtimePeriod > 0
  {
    e.at <= sc.duration && e.kind in Kinds(sc, e.at) && e.insertion == InsertionOf(sc, e.at, e.kind)
  }

  /** The queue holds exactly the scenario's events. */
  ghost predicate IsPlan(sc: Scenario, plan: set<Event>)
    requires sc.sensorPeriod > 0 && sc.runtimePeriod > 0
  {
    Distinct(plan) && forall e :: e in plan <==> Planned(sc, e)
  }

  /** Neither the last period nor the insertion numbers leave 64 bits. */
  ghost predicate ScheduleFits(sc: Scenario)
    requires sc.sensorPeriod > 0 && sc.runtimePeriod > 0
  {
    SensorsFit(sc) && RuntimesFit(sc)
  }

  ghost predicate SensorsFit(sc: Scenario)
    requires sc.sensorPeriod > 0
  {
    sc.sensorPeriod * SensorSampleCount(sc) <= U64_MAX && 1 + 2 * SensorSampleCount(sc) <= U64_MAX
  }

  ghost predicate RuntimesFit(sc: Scenario)
    requires sc.sensorPeriod > 0 && sc.runtimePeriod > 0
  {
    && sc.runtimePeriod * RuntimeOpportunityCount(sc) <= U64_MAX
    && 1 + 2 * SensorSampleCount(sc) + 2 * RuntimeOpportunityCount(sc) - |sc.missed| <= U64_MAX
  }

  // ----- grid arithmetic ------------------------------------------------------------------------

  lemma DivIs(x: int, p: int, k: int)
    requires p > 0 && k * p <= x < (k + 1) * p
    ensures x / p == k
  {
    var q, r := x / p, x % p;
    assert x == q * p + r;
    if q < k { ProductStep(q + 1, k, p); }
    if q > k { ProductStep(k + 1, q, p); }
  }

  lemma ProductStep(a: int, b: int, p: int)
    requires a <= b && p >= 0
    ensures a * p <= b * p
  {}

  lemma MultipleOf(k: int, p: int)
    requires p > 0
    ensures (k * p) % p == 0 && (k * p) / p == k
  {
    assert k * p < (k + 1) * p by { assert (k + 1) * p == k * p + p; }
    DivIs(k * p, p, k);
    var q, r := (k * p) / p, (k * p) % p;
    assert k * p == q * p + r;
  }

  /** Between one multiple and the next there is no other. */
  lemma OnGridExactly(x: int, p: int, k: int)
    requires p > 0 && k * p <= x < (k + 1) * p
    ensures x % p == 0 <==> x == k * p
  {
    DivIs(x, p, k);
    var q, r := x / p, x % p;
    assert x == q * p + r;
  }

  lemma NextMultiple(k: int, p: int)
    ensures (k + 1) * p == k * p + p
  {}

  // ----- counting ---------------------------------------------------------------------------------

  ghost function CountKind(s: set<Event>, kind: EventKind): nat {
    |set e | e in s && e.kind == kind|
  }

  lemma CountAdd(s: set<Event>, e: Event, kind: EventKind)
    requires e !in s
    ensures CountKind(s + {e}, kind) == CountKind(s, kind) + if e.kind == kind then 1 else 0
  {
    var before, after := (set x | x in s && x.kind == kind), (set x | x in s + {e} && x.kind == kind);
    if e.kind == kind { assert after == before + {e}; } else { assert after == before; }
  }

  function CountIn(l: seq<Event>, kind: EventKind): nat {
    if |l| == 0 then 0 else CountIn(l[..|l| - 1], kind) + if l[|l| - 1].kind == kind then 1 else 0
  }

  lemma {:induction false} CountInJoin(a: seq<Event>, b: seq<Event>, kind: EventKind)
    ensures CountIn(a + b, kind) == CountIn(a, kind) + CountIn(b, kind)
  {
    if |b| == 0 {
      assert a + b == a;
    } else {
      assert (a + b)[..|a + b| - 1] == a + b[..|b| - 1];
      CountInJoin(a, b[..|b| - 1], kind);
    }
  }

  lemma {:induction false} CountInOrder(s: set<Event>, kind: EventKind)
    requires Distinct(s)
    ensures CountIn(InOrder(s), kind) == CountKind(s, kind)
  {
    hide CountKind;
    if s == {} {
      CountNone(s, kind);
    } else {
      var m := MinOf(s);
      CountInOrder(s - {m}, kind);
      CountAdd(s - {m}, m, kind);
      assert s - {m} + {m} == s;
      CountInJoin([m], InOrder(s - {m}), kind);
      assert CountIn([m], kind) == CountIn([], kind) + if m.kind == kind then 1 else 0 by { assert [m][..0] == []; }
    }
  }

  lemma CountNone(s: set<Event>, kind: EventKind)
    requires s == {}
    ensures CountKind(s, kind) == 0
  {}

  lemma {:induction false} CountBelowStep(missed: seq<u64>, at: nat, p: nat)
    requires p > 0 && at % p == 0
    requires forall i | 0 <= i < |missed| :: missed[i] % p == 0
    requires forall i, j | 0 <= i < j < |missed| :: missed[i] < missed[j]
    ensures CountBelow(missed, at + p) == CountBelow(missed, at) + if at in missed then 1 else 0
  {
    if |missed| > 0 {
      var n := |missed| - 1;
      CountBelowStep(missed[..n], at, p);
      var x := missed[n];
      assert x % p == 0;
      OnGridExactly(x, p, x / p) by { GridStart(x, p); }
      OneGridStep(x, at, p);
      if x == at {
        forall i | 0 <= i < n ensures missed[..n][i] != at { assert missed[i] < missed[n]; }
      }
      assert at in missed <==> at in missed[..n] || x == at;
    }
  }

  lemma GridStart(x: int, p: int)
    requires p > 0
    ensures x / p * p <= x < (x / p + 1) * p
  {
    assert x == x / p * p + x % p;
    NextMultiple(x / p, p);
  }

  lemma OneGridStep(x: int, at: int, p: int)
    requires p > 0 && x % p == 0 && at % p == 0
    ensures x < at + p <==> x <= at
  {
    var a, b := x / p, at / p;
    assert x == a * p && at == b * p;
    if x > at {
      if a <= b { ProductStep(a, b, p); }
      ProductStep(b + 1, a, p);
      NextMultiple(b, p);
    }
  }

  lemma {:induction false} CountBelowAll(missed: seq<u64>, t: nat)
    requires forall i | 0 <= i < |missed| :: missed[i] < t
    ensures CountBelow(missed, t) == |missed|
  {
    if |missed| > 0 { CountBelowAll(missed[..|missed| - 1], t); }
  }

  lemma {:induction false} CountBelowAtMost(missed: seq<u64>, t: nat)
    ensures CountBelow(missed, t) <= |missed| && (t == 0 ==> CountBelow(missed, t) == 0)
  {
    if |missed| > 0 { CountBelowAtMost(missed[..|missed| - 1], t); }
  }

  /** On a grid there are at most as many entries below the k-th point as points. */
  lemma {:induction false} CountBelowGrid(sc: Scenario, k: nat)
    requires ValidScenario(sc)
    ensures CountBelow(sc.missed, k * sc.runtimePeriod) <= k
  {
    if k == 0 {
      CountBelowAtMost(sc.missed, 0);
    } else {
      CountBelowGrid(sc, k - 1);
      MultipleOf(k - 1, sc.runtimePeriod);
      NextMultiple(k - 1, sc.runtimePeriod);
      CountBelowStep(sc.missed, (k - 1) * sc.runtimePeriod, sc.runtimePeriod);
    }
  }
}
