/** The supervisor's operating states, its fault latch, and the control watchdog. */
module RuntimeSupervisor {
  import opened Wrappers
  import opened MachineInts
  import opened StateEstimator
  import opened RuntimeState

  datatype RuntimeFault = SensorTimeout | ControlWatchdogTimeout | EstimateInvalidFault | WheelExhaustedFault | ControlNumericalFault

  datatype WatchdogHealth = WatchdogStartup | WatchdogHealthy | WatchdogTimeout

  /** Clearing the latch leaves nothing in it, so a transition is only ever refused as invalid. */
  datatype TransitionError = InvalidTransition

  datatype Supervision = Supervision(state: OperatingState, faults: set<RuntimeFault>)

  const INITIAL: Supervision := Supervision(Boot, {})

  function Latched(s: Supervision, faults: set<RuntimeFault>): Supervision {
    Supervision(Fault, s.faults + faults)
  }

  /** What happens to the supervisor. */
  datatype Happening =
    | BootComplete | HardwareCheckPassed | RequestBalance | CaptureReady
    | LatchFault(faults: set<RuntimeFault>)
    | ClearFaults
    | IndependentHealth(timing: TimingHealth, watchdog: WatchdogHealth)
    | ControlHealth(validity: StateValidity, wheel: WheelAuthority)

  /** The four commanded steps of the way up; each refused away from its own place or with a fault latched. */
  function Commanded(s: Supervision, h: Happening): Option<OperatingState> {
    match h
    case BootComplete => if s.state.Boot? then Some(HardwareCheck) else None
    case HardwareCheckPassed => if s.state.HardwareCheck? && s.faults == {} then Some(Standby) else None
    case RequestBalance => if s.state.Standby? && s.faults == {} then Some(CaptureWindow) else None
    case CaptureReady => if s.state.CaptureWindow? && s.faults == {} then Some(Balancing) else None
    case ClearFaults => if s.state.Fault? then Some(Standby) else None
    case _ => None
  }

  function After(s: Supervision, h: Happening): Supervision {
    match h
    case LatchFault(faults) => Latched(s, faults)
    case ClearFaults => if s.state.Fault? then Supervision(Standby, {}) else s
    case IndependentHealth(timing, watchdog) =>
      if !(s.state.CaptureWindow? || ClosedLoopState(s.state)) then s
      else
        var faults := (if timing.Timeout? then {SensorTimeout} else {}) + (if watchdog.WatchdogTimeout? then {ControlWatchdogTimeout} else {});
        if faults == {} then s else Latched(s, faults)
    case ControlHealth(validity, wheel) =>
      if !ClosedLoopState(s.state) then s
      else if !validity.Valid? then Latched(s, {EstimateInvalidFault})
      else (match wheel
        case Nominal => if s.state.MomentumLimited? then s.(state := Balancing) else s
        case Warning => s.(state := MomentumLimited)
        case Exhausted => Latched(s, {WheelExhaustedFault}))
    case _ => if Commanded(s, h).Some? then s.(state := Commanded(s, h).value) else s
  }

  class Supervisor {
    var state: OperatingState
    var faults: set<RuntimeFault>

    ghost function View(): Supervision
      reads this
    {
      Supervision(state, faults)
    }

    constructor ()
      ensures View() == INITIAL
    {
      state, faults := Boot, {};
    }

    method BootDone() returns (r: Result<(), TransitionError>)
      modifies this
      ensures View() == After(old(View()), BootComplete)
      ensures r == if Commanded(old(View()), BootComplete).Some? then Ok(()) else Err(InvalidTransition)
    {
      if !state.Boot? { return Err(InvalidTransition); }
      state := HardwareCheck;
      r := Ok(());
    }

    method HardwareChecked() returns (r: Result<(), TransitionError>)
      modifies this
      ensures View() == After(old(View()), HardwareCheckPassed)
      ensures r == if Commanded(old(View()), HardwareCheckPassed).Some? then Ok(()) else Err(InvalidTransition)
    {
      if !state.HardwareCheck? || faults != {} { return Err(InvalidTransition); }
      state := Standby;
      r := Ok(());
    }

    method Balance() returns (r: Result<(), TransitionError>)
      modifies this
      ensures View() == After(old(View()), RequestBalance)
      ensures r == if Commanded(old(View()), RequestBalance).Some? then Ok(()) else Err(InvalidTransition)
    {
      if !state.Standby? || faults != {} { return Err(InvalidTransition); }
      state := CaptureWindow;
      r := Ok(());
    }

    method Captured() returns (r: Result<(), TransitionError>)
      modifies this
      ensures View() == After(old(View()), CaptureReady)
      ensures r == if Commanded(old(View()), CaptureReady).Some? then Ok(()) else Err(InvalidTransition)
    {
      if !state.CaptureWindow? || faults != {} { return Err(InvalidTransition); }
      state := Balancing;
      r := Ok(());
    }

    method Latch(more: set<RuntimeFault>)
      modifies this
      ensures View() == After(old(View()), LatchFault(more))
    {
      faults := faults + more;
      state := Fault;
    }

    method ClearFaultsToStandby() returns (r: Result<(), TransitionError>)
      modifies this
      ensures View() == After(old(View()), ClearFaults)
      ensures r == if Commanded(old(View()), ClearFaults).Some? then Ok(()) else Err(InvalidTransition)
    {
      if !state.Fault? { return Err(InvalidTransition); }
      faults := {};
      state := Standby;
      r := Ok(());
    }

    method ObserveIndependentHealth(timing: TimingHealth, watchdog: WatchdogHealth)
      modifies this
      ensures View() == After(old(View()), IndependentHealth(timing, watchdog))
    {
      if !(state.CaptureWindow? || state.Balancing? || state.MomentumLimited?) { return; }
      if timing.Timeout? { Latch({SensorTimeout}); }
      if watchdog.WatchdogTimeout? { Latch({ControlWatchdogTimeout}); }
    }

    method ObserveControlHealth(validity: StateValidity, wheel: WheelAuthority)
      modifies this
      ensures View() == After(old(View()), ControlHealth(validity, wheel))
    {
      if !(state.Balancing? || state.MomentumLimited?) { return; }
      if !validity.Valid? {
        Latch({EstimateInvalidFault});
        return;
      }
      match wheel {
        case Nominal => if state.MomentumLimited? { state := Balancing; }
        case Warning => state := MomentumLimited;
        case Exhausted => Latch({WheelExhaustedFault});
      }
    }
  }

  // ----- over runs ---------------------------------------------------------------------

  function Run(s: Supervision, happenings: seq<Happening>): Supervision {
    if |happenings| == 0 then s
    else After(Run(s, happenings[..|happenings| - 1]), happenings[|happenings| - 1])
  }

  /** A latched fault is never outside the fault state. */
  predicate Consistent(s: Supervision) {
    s.faults != {} ==> s.state.Fault?
  }

  lemma {:induction false} RunConsistent(s: Supervision, happenings: seq<Happening>)
    requires Consistent(s)
    ensures Consistent(Run(s, happenings))
  {
    if |happenings| > 0 { RunConsistent(s, happenings[..|happenings| - 1]); }
  }

  /** Without an explicit clear, a fault is for good: the state stays Fault and no latched fault is lost. */
  lemma {:induction false} FaultAbsorbs(s: Supervision, happenings: seq<Happening>)
    requires s.state.Fault? && ClearFaults !in happenings
    ensures Run(s, happenings).state.Fault? && s.faults <= Run(s, happenings).faults
  {
    if |happenings| > 0 {
      var n := |happenings| - 1;
      assert happenings[n] != ClearFaults;
      FaultAbsorbs(s, happenings[..n]);
    }
  }

  /** What is observed in state s is the cause of this fault. */
  predicate Causes(s: OperatingState, h: Happening, fault: RuntimeFault) {
    match h
    case LatchFault(faults) => fault in faults
    case IndependentHealth(timing, watchdog) =>
      s in {CaptureWindow, Balancing, MomentumLimited}
      && (match fault
          case SensorTimeout => timing == Timeout
          case ControlWatchdogTimeout => watchdog == WatchdogTimeout
          case _ => false)
    case ControlHealth(validity, wheel) =>
      s in {Balancing, MomentumLimited}
      && (match fault
          case EstimateInvalidFault => validity == Invalid
          case WheelExhaustedFault => validity == StateValidity.Valid && wheel == Exhausted
          case _ => false)
    case _ => false
  }

  /** The fault had its cause at i, and nothing has been cleared since. */
  ghost predicate CausedAt(run: seq<Happening>, i: nat, fault: RuntimeFault) {
    i < |run| && Causes(Run(INITIAL, run[..i]).state, run[i], fault) && ClearFaults !in run[i + 1..]
  }

  lemma FaultsNext(s: Supervision, h: Happening, fault: RuntimeFault)
    requires Consistent(s)
    ensures fault in After(s, h).faults <==> Causes(s.state, h, fault) || (fault in s.faults && h != ClearFaults)
  {}

  lemma CausedNext(run: seq<Happening>, fault: RuntimeFault)
    requires |run| > 0
    ensures var n := |run| - 1;
      (exists i :: CausedAt(run, i, fault))
      <==> Causes(Run(INITIAL, run[..n]).state, run[n], fault) || (run[n] != ClearFaults && exists i :: CausedAt(run[..n], i, fault))
  {
    hide Run, Causes;
    var n := |run| - 1;
    assert Causes(Run(INITIAL, run[..n]).state, run[n], fault) ==> CausedAt(run, n, fault);
    forall i: nat | i < n ensures CausedAt(run, i, fault) <==> CausedAt(run[..n], i, fault) && run[n] != ClearFaults {
      assert run[..n][..i] == run[..i] && run[i + 1..] == run[..n][i + 1..] + [run[n]];
    }
  }

  /** Exactly the faults with a cause since the last clear are latched. */
  lemma {:induction false} FaultsExactly(run: seq<Happening>, fault: RuntimeFault)
    ensures fault in Run(INITIAL, run).faults <==> exists i :: CausedAt(run, i, fault)
  {
    if |run| > 0 {
      var n := |run| - 1;
      FaultsExactly(run[..n], fault);
      RunConsistent(INITIAL, run[..n]);
      FaultsNext(Run(INITIAL, run[..n]), run[n], fault);
      CausedNext(run, fault);
      hide After, Causes, CausedAt;
    }
  }

  /** The last control observation in closed loop was at i, and closed loop has lasted since. */
  ghost predicate ShownAt(run: seq<Happening>, i: nat, wheel: WheelAuthority) {
    && i < |run| && run[i] == ControlHealth(StateValidity.Valid, wheel)
    && (forall j | i <= j <= |run| :: ClosedLoopState(Run(INITIAL, run[..j]).state))
    && (forall j | i < j < |run| :: !run[j].ControlHealth?)
  }

  lemma {:induction false} ShownNext(run: seq<Happening>, wheel: WheelAuthority)
    requires |run| > 0
    ensures var n := |run| - 1;
      (exists i :: ShownAt(run, i, wheel))
      <==> ClosedLoopState(Run(INITIAL, run).state) && ClosedLoopState(Run(INITIAL, run[..n]).state)
           && (run[n] == ControlHealth(StateValidity.Valid, wheel) || (!run[n].ControlHealth? && exists i :: ShownAt(run[..n], i, wheel)))
  {
    hide Run, ClosedLoopState;
    var n := |run| - 1;
    assert run[..|run|] == run;
    forall i: nat | i < n
      ensures ShownAt(run, i, wheel) <==> ShownAt(run[..n], i, wheel) && !run[n].ControlHealth? && ClosedLoopState(Run(INITIAL, run).state)
    {
      assert forall j | 0 <= j <= n :: run[..n][..j] == run[..j];
      if ShownAt(run[..n], i, wheel) && !run[n].ControlHealth? && ClosedLoopState(Run(INITIAL, run).state) {
        forall j | i <= j <= |run| ensures ClosedLoopState(Run(INITIAL, run[..j]).state) {
          if j <= n { assert run[..n][..j] == run[..j]; }
        }
      }
      if ShownAt(run, i, wheel) {
        forall j | i <= j <= n ensures ClosedLoopState(Run(INITIAL, run[..n][..j]).state) {
          assert run[..n][..j] == run[..j];
        }
      }
    }
    if ClosedLoopState(Run(INITIAL, run).state) && ClosedLoopState(Run(INITIAL, run[..n]).state) && run[n] == ControlHealth(StateValidity.Valid, wheel) {
      assert ShownAt(run, n, wheel);
    }
  }

  /** Closed loop is momentum-limited exactly while the last thing shown to it was a wheel in its warning band. */
  lemma {:induction false} LimitedExactly(run: seq<Happening>)
    ensures Run(INITIAL, run).state.MomentumLimited? <==> exists i :: ShownAt(run, i, Warning)
  {
    if |run| > 0 {
      var n := |run| - 1;
      LimitedExactly(run[..n]);
      ShownNext(run, Warning);
      hide ShownAt;
    }
  }

  /** How often a command was accepted over a run. */
  function Accepted(s: Supervision, happenings: seq<Happening>, h: Happening): nat {
    if |happenings| == 0 then 0
    else
      var n := |happenings| - 1;
      Accepted(s, happenings[..n], h)
      + if happenings[n] == h && Commanded(Run(s, happenings[..n]), h).Some? then 1 else 0
  }

  /** A fault was latched while the machine was in one of these states. */
  ghost predicate LatchedIn(run: seq<Happening>, places: set<OperatingState>) {
    exists i | 0 <= i < |run| :: run[i].LatchFault? && Run(INITIAL, run[..i]).state in places
  }

  lemma LatchedInNext(run: seq<Happening>, places: set<OperatingState>)
    requires |run| > 0
    ensures var n := |run| - 1;
      LatchedIn(run, places) <==> LatchedIn(run[..n], places) || (run[n].LatchFault? && Run(INITIAL, run[..n]).state in places)
  {
    var n := |run| - 1;
    assert forall i | 0 <= i < n :: run[..n][i] == run[i] && run[..n][..i] == run[..i];
  }

  const UNCHECKED: set<OperatingState> := {Boot, HardwareCheck}

  /** Boot and hardware check are each accepted once or never: past them, they were accepted if and only if
      no fault was latched before they were. */
  lemma {:induction false} WayUp(run: seq<Happening>)
    ensures var s := Run(INITIAL, run).state;
      && (s.Boot? ==> !LatchedIn(run, {Boot})) && (s in UNCHECKED ==> !LatchedIn(run, UNCHECKED))
      && Accepted(INITIAL, run, BootComplete) == (if s.Boot? || LatchedIn(run, {Boot}) then 0 else 1)
      && Accepted(INITIAL, run, HardwareCheckPassed) == (if s in UNCHECKED || LatchedIn(run, UNCHECKED) then 0 else 1)
  {
    if |run| > 0 {
      var n := |run| - 1;
      WayUp(run[..n]);
      RunConsistent(INITIAL, run[..n]);
      LatchedInNext(run, {Boot});
      LatchedInNext(run, UNCHECKED);
      hide LatchedIn;
    }
  }

  predicate AcceptedAt(run: seq<Happening>, i: nat, h: Happening)
    requires i < |run|
  {
    run[i] == h && Commanded(Run(INITIAL, run[..i]), h).Some?
  }

  /** Balance was requested at b, and the machine has waited in the capture window since. */
  ghost predicate WaitingSince(run: seq<Happening>, b: nat) {
    b < |run| && AcceptedAt(run, b, RequestBalance) && forall i | b < i <= |run| :: Run(INITIAL, run[..i]).state.CaptureWindow?
  }

  /** Balance was requested at b and captured at c, with the capture window in between and closed loop since. */
  ghost predicate BalancingSince(run: seq<Happening>, b: nat, c: nat) {
    && c < |run| && WaitingSince(run[..c], b) && AcceptedAt(run, c, CaptureReady)
    && forall i | c < i <= |run| :: ClosedLoopState(Run(INITIAL, run[..i]).state)
  }

  lemma {:induction false} WaitingExactly(run: seq<Happening>)
    ensures Run(INITIAL, run).state.CaptureWindow? <==> exists b :: WaitingSince(run, b)
  {
    assert run[..|run|] == run;
    if |run| > 0 && Run(INITIAL, run).state.CaptureWindow? {
      var n := |run| - 1;
      assert forall i | 0 <= i <= n :: run[..n][..i] == run[..i];
      if Run(INITIAL, run[..n]).state.CaptureWindow? {
        WaitingExactly(run[..n]);
        var b :| WaitingSince(run[..n], b);
        assert AcceptedAt(run, b, RequestBalance);
        assert WaitingSince(run, b);
      } else {
        assert AcceptedAt(run, n, RequestBalance);
        assert WaitingSince(run, n);
      }
    }
  }

  /** Closed loop is reached in this order only: a balance request, a wait in the capture window, a capture;
      and everything since has been closed loop. */
  lemma {:induction false} BalancingExactly(run: seq<Happening>)
    ensures ClosedLoopState(Run(INITIAL, run).state) <==> exists b, c :: BalancingSince(run, b, c)
  {
    assert run[..|run|] == run;
    if |run| > 0 && ClosedLoopState(Run(INITIAL, run).state) {
      var n := |run| - 1;
      assert forall i | 0 <= i <= n :: run[..n][..i] == run[..i];
      if ClosedLoopState(Run(INITIAL, run[..n]).state) {
        BalancingExactly(run[..n]);
        hide *;
        var b, c :| BalancingSince(run[..n], b, c);
        BalancingLonger(run, b, c);
      } else {
        WaitingExactly(run[..n]);
        var b :| WaitingSince(run[..n], b);
        assert BalancingSince(run, b, n);
      }
    }
  }

  lemma {:induction false} BalancingLonger(run: seq<Happening>, b: nat, c: nat)
    requires |run| > 0 && BalancingSince(run[..|run| - 1], b, c) && ClosedLoopState(Run(INITIAL, run).state)
    ensures BalancingSince(run, b, c)
  {
    hide Run, WaitingSince, ClosedLoopState, Commanded;
    var n := |run| - 1;
    assert run[..|run|] == run && run[..n][..c] == run[..c];
    forall i | c < i <= |run| ensures ClosedLoopState(Run(INITIAL, run[..i]).state) {
      if i <= n { assert run[..n][..i] == run[..i]; }
    }
    assert AcceptedAt(run, c, CaptureReady);
  }

  /** Clearing always lands in standby: a fault latched before the hardware check skips the check. This run
      balances without one. */
  lemma ClearSkipsHardwareCheck(faults: set<RuntimeFault>)
    ensures var run := [LatchFault(faults), ClearFaults, RequestBalance, CaptureReady];
      Run(INITIAL, run).state == Balancing && LatchedIn(run, UNCHECKED) && Accepted(INITIAL, run, HardwareCheckPassed) == 0
  {
    var run := [LatchFault(faults), ClearFaults, RequestBalance, CaptureReady];
    assert run[..3] == [LatchFault(faults), ClearFaults, RequestBalance];
    assert run[..3][..2] == [LatchFault(faults), ClearFaults];
    assert run[..3][..2][..1] == [LatchFault(faults)];
    assert Run(INITIAL, []) == INITIAL;
    assert Run(INITIAL, [LatchFault(faults)]) == Latched(INITIAL, faults);
    assert Run(INITIAL, [LatchFault(faults), ClearFaults]) == Supervision(Standby, {});
    assert Run(INITIAL, run[..3]) == Supervision(CaptureWindow, {});
    assert Run(INITIAL, run).state == Balancing;
    assert run[0].LatchFault? && Run(INITIAL, run[..0]).state in UNCHECKED;
    WayUp(run);
  }

  // ----- the control watchdog -----------------------------------------------------------------

  datatype Watchdog = Watchdog(timeoutUs: u32, armedAt: u64, lastCompletedAt: Option<u64>, health: WatchdogHealth)

  function WatchdogPolled(w: Watchdog, now: u64): Watchdog {
    var elapsed := SaturatingSub(now, if w.lastCompletedAt.Some? then w.lastCompletedAt.value else w.armedAt);
    w.(health := if elapsed >= w.timeoutUs then WatchdogTimeout
                 else if w.lastCompletedAt.Some? then WatchdogHealthy else WatchdogStartup)
  }

  function WatchdogCompleted(w: Watchdog, at: u64): Watchdog {
    w.(lastCompletedAt := Some(at), health := WatchdogHealthy)
  }

  type WatchdogTimeoutUs = t: u32 | t > 0 witness 1

  class ControlWatchdog {
    const timeoutUs: WatchdogTimeoutUs
    const armedAt: u64
    var lastCompletedAt: Option<u64>
    var health: WatchdogHealth

    ghost function View(): Watchdog
      reads this
    {
      Watchdog(timeoutUs, armedAt, lastCompletedAt, health)
    }

    /** There is no watchdog without a timeout. */
    static method New(timeoutUs: u32, armedAt: u64) returns (r: Option<ControlWatchdog>)
      ensures r.Some? <==> timeoutUs > 0
      ensures r.Some? ==> fresh(r.value) && r.value.View() == Watchdog(timeoutUs, armedAt, None, WatchdogStartup)
    {
      if timeoutUs == 0 { return None; }
      var watchdog := new ControlWatchdog(timeoutUs, armedAt);
      r := Some(watchdog);
    }

    constructor (timeoutUs: WatchdogTimeoutUs, armedAt: u64)
      ensures View() == Watchdog(timeoutUs, armedAt, None, WatchdogStartup)
    {
      this.timeoutUs, this.armedAt, lastCompletedAt, health := timeoutUs, armedAt, None, WatchdogStartup;
    }

    method ObserveControlCompletion(at: u64) returns (shown: WatchdogHealth)
      modifies this
      ensures View() == WatchdogCompleted(old(View()), at) && shown == health
    {
      lastCompletedAt, health := Some(at), WatchdogHealthy;
      shown := health;
    }

    method PollAt(now: u64) returns (shown: WatchdogHealth)
      modifies this
      ensures View() == WatchdogPolled(old(View()), now) && shown == health
    {
      var reference := if lastCompletedAt.Some? then lastCompletedAt.value else armedAt;
      if SaturatingSub(now, reference) >= timeoutUs { health := WatchdogTimeout; }
      else if lastCompletedAt.Some? { health := WatchdogHealthy; }
      else { health := WatchdogStartup; }
      shown := health;
    }
  }

  /** What a watchdog goes through: control steps that complete, and polls. */
  datatype WatchdogEvent = Completion(at: u64) | Polling(now: u64)

  function WatchdogRun(w: Watchdog, events: seq<WatchdogEvent>): Watchdog {
    if |events| == 0 then w
    else
      var before := WatchdogRun(w, events[..|events| - 1]);
      match events[|events| - 1] case Completion(at) => WatchdogCompleted(before, at) case Polling(now) => WatchdogPolled(before, now)
  }

  /** When the control step last completed. */
  function LastCompletion(events: seq<WatchdogEvent>): Option<u64> {
    if |events| == 0 then None
    else match events[|events| - 1] case Completion(at) => Some(at) case Polling(_) => LastCompletion(events[..|events| - 1])
  }

  /** Over any run, a poll says timeout exactly when the timeout has passed since the last completion, or since
      arming if there was none; short of it, healthy exactly when there was one. Earlier polls do not matter. */
  lemma WatchdogMeans(timeoutUs: WatchdogTimeoutUs, armedAt: u64, events: seq<WatchdogEvent>, now: u64)
    ensures var last := LastCompletion(events);
      var silent := if last.Some? then now - last.value >= timeoutUs else now - armedAt >= timeoutUs;
      var health := WatchdogRun(Watchdog(timeoutUs, armedAt, None, WatchdogStartup), events + [Polling(now)]).health;
      && (health.WatchdogTimeout? <==> silent) && (health.WatchdogHealthy? <==> !silent && last.Some?)
  {
    WatchdogRemembers(Watchdog(timeoutUs, armedAt, None, WatchdogStartup), events);
    assert (events + [Polling(now)])[..|events|] == events;
  }

  lemma {:induction false} WatchdogRemembers(w: Watchdog, events: seq<WatchdogEvent>)
    requires w.lastCompletedAt.None?
    ensures var t := WatchdogRun(w, events);
      t.timeoutUs == w.timeoutUs && t.armedAt == w.armedAt && t.lastCompletedAt == LastCompletion(events)
  {
    if |events| > 0 { WatchdogRemembers(w, events[..|events| - 1]); }
  }

  /** The supervisor that is shown a poll of the watchdog at this time. */
  function Watched(s: Supervision, w: Watchdog, now: u64): Supervision {
    After(s, IndependentHealth(Healthy, WatchdogPolled(w, now).health))
  }

  /** A control task that has gone quiet for the timeout takes an armed machine out of closed loop for good. */
  lemma SilenceFaults(s: Supervision, w: Watchdog, now: u64, later: seq<Happening>)
    requires ClosedLoopState(s.state) && ClearFaults !in later
    requires w.timeoutUs > 0 && now - (if w.lastCompletedAt.Some? then w.lastCompletedAt.value else w.armedAt) >= w.timeoutUs
    ensures var t := Run(Watched(s, w, now), later);
      t.state.Fault? && ControlWatchdogTimeout in t.faults && !ClosedLoopState(t.state)
  {
    FaultAbsorbs(Watched(s, w, now), later);
  }
}
