/** The record link of the observation target: the data-ready interrupt that
    enqueues records, the lower-priority DMA handler that drains them, the
    hardware that sends them, and the receiver that counts gaps. */
module RecordLink {
  import opened Wrappers
  import opened MachineInts

  const OBSERVATION_DECIMATION: u8 := 5

  /** The parts of a record the link depends on. */
  datatype Item = Item(sequence: u32, dropped: u16)

  /** The pump's stored state; Taken while the handler holds it. */
  datatype Pump = Idle | Active(item: Item, done: bool) | Taken

  /** Where the DMA handler is. The data-ready interrupt may preempt it between any two of these. */
  datatype Handler = Waiting | Entered | Dequeuing | Starting(next: Option<Item>) | Leaving

  /** `sent`, `enqueued` and `outcomes` (was the n-th record enqueued?) are history. */
  datatype Link = Link(capacity: nat, queue: seq<Item>, pump: Pump, handler: Handler, pending: bool,
                       divider: u8, sequence: u32, dropped: u16,
                       sent: seq<Item>, enqueued: seq<Item>, outcomes: seq<bool>)

  datatype Event = DataReady | TransferCompletes | Enter | Inspect | Dequeue | Begin | Leave

  function Initial(capacity: nat): Link {
    Link(capacity, [], Idle, Waiting, false, 0, 0, 0, [], [], [])
  }

  function NextSequence(n: u32): u32 { (n + 1) % 0x1_0000_0000 }

  function SaturatingNext(n: u16): u16 { if n == U16_MAX then n else n + 1 }

  /** One acquisition: every fifth offers a record to the queue. */
  function OnDataReady(s: Link): Link {
    if s.divider + 1 < OBSERVATION_DECIMATION then s.(divider := s.divider + 1)
    else
      var item := Item(s.sequence, s.dropped);
      var offered := s.(divider := 0, sequence := NextSequence(s.sequence));
      if |s.queue| < s.capacity then
        offered.(queue := s.queue + [item], pending := true, enqueued := s.enqueued + [item], outcomes := s.outcomes + [true])
      else
        offered.(dropped := SaturatingNext(s.dropped), outcomes := s.outcomes + [false])
  }

  /** Any event; one that cannot happen now changes nothing. */
  function Apply(s: Link, e: Event): Link
    requires s.divider < OBSERVATION_DECIMATION
  {
    match e
    case DataReady => OnDataReady(s)
    case TransferCompletes =>
      if s.pump.Active? && !s.pump.done then
        s.(pump := Active(s.pump.item, true), pending := true, sent := s.sent + [s.pump.item])
      else s
    case Enter => if s.pending && s.handler.Waiting? then s.(pending := false, handler := Entered) else s
    case Inspect =>
      if !s.handler.Entered? then s
      else if s.pump.Active? && !s.pump.done then s.(handler := Leaving)
      else s.(pump := Taken, handler := Dequeuing)
    case Dequeue =>
      if !s.handler.Dequeuing? then s
      else if |s.queue| > 0 then s.(queue := s.queue[1..], handler := Starting(Some(s.queue[0])))
      else s.(handler := Starting(None))
    case Begin =>
      if !s.handler.Starting? then s
      else s.(pump := if s.handler.next.Some? then Active(s.handler.next.value, false) else Idle, handler := Leaving)
    case Leave => if s.handler.Leaving? then s.(handler := Waiting) else s
  }

  // ----- what every interleaving keeps -----------------------------------------------

  function InFlight(s: Link): seq<Item> {
    if s.pump.Active? && !s.pump.done then [s.pump.item]
    else if s.handler.Starting? && s.handler.next.Some? then [s.handler.next.value]
    else []
  }

  /** Nothing is lost, repeated or reordered. */
  predicate InOrder(s: Link) {
    s.sent + InFlight(s) + s.queue == s.enqueued
  }

  /** Something is sure to look at a waiting record. */
  predicate WakeUpDue(s: Link) {
    || s.pending || (s.pump.Active? && !s.pump.done)
    || s.handler.Entered? || s.handler.Dequeuing? || (s.handler.Starting? && s.handler.next.Some?)
  }

  function Accepted(outcomes: seq<bool>): nat {
    if |outcomes| == 0 then 0 else Accepted(outcomes[..|outcomes| - 1]) + if outcomes[|outcomes| - 1] then 1 else 0
  }

  function Drops(outcomes: seq<bool>): nat {
    if |outcomes| == 0 then 0 else Drops(outcomes[..|outcomes| - 1]) + if outcomes[|outcomes| - 1] then 0 else 1
  }

  /** The n-th record as its producer writes it. */
  function ItemAt(outcomes: seq<bool>, n: nat): Item
    requires n <= |outcomes|
  {
    var drops := Drops(outcomes[..n]);
    Item(n % 0x1_0000_0000, if drops < U16_MAX then drops else U16_MAX)
  }

  /** The records that entered the queue. */
  function Enqueued(outcomes: seq<bool>): seq<Item> {
    if |outcomes| == 0 then []
    else
      var n := |outcomes| - 1;
      Enqueued(outcomes[..n]) + if outcomes[n] then [ItemAt(outcomes, n)] else []
  }

  ghost predicate Valid(s: Link) {
    && s.divider < OBSERVATION_DECIMATION && |s.queue| <= s.capacity
    && InOrder(s) && (|s.queue| > 0 ==> WakeUpDue(s))
    && (s.pump.Taken? <==> s.handler.Dequeuing? || s.handler.Starting?)
    && (s.pump.Active? && s.pump.done ==> s.pending || s.handler.Entered?)
    && Item(s.sequence, s.dropped) == ItemAt(s.outcomes, |s.outcomes|)
    && s.enqueued == Enqueued(s.outcomes)
  }

  lemma {:induction false} ItemNext(outcomes: seq<bool>, accepted: bool)
    ensures var next := outcomes + [accepted];
      var item := ItemAt(outcomes, |outcomes|);
      && ItemAt(next, |next|) == Item(NextSequence(item.sequence), if accepted then item.dropped else SaturatingNext(item.dropped))
      && Enqueued(next) == Enqueued(outcomes) + if accepted then [item] else []
  {
    var next := outcomes + [accepted];
    assert next[..|outcomes|] == outcomes && next[..|next|] == next && outcomes[..|outcomes|] == outcomes;
    assert Drops(next) == Drops(outcomes) + if accepted then 0 else 1;
  }

  /** The hardware and the handler pass records on in order. */
  lemma OrderKept(s: Link, e: Event)
    requires s.divider < OBSERVATION_DECIMATION && InOrder(s) && !e.DataReady?
    requires s.pump.Taken? <==> s.handler.Dequeuing? || s.handler.Starting?
    ensures InOrder(Apply(s, e)) && s.sent <= Apply(s, e).sent
  {
    if s.pump.Active? {
      assert s.sent + [s.pump.item] + [] == s.sent + [s.pump.item];
    }
    if |s.queue| > 0 {
      assert s.sent + [] == s.sent;
      assert s.sent + [s.queue[0]] + s.queue[1..] == s.sent + s.queue;
    }
  }

  lemma DataReadyKeeps(s: Link)
    requires Valid(s)
    ensures Valid(OnDataReady(s)) && OnDataReady(s).sent == s.sent
  {
    ItemNext(s.outcomes, |s.queue| < s.capacity);
    hide ItemAt, Enqueued, NextSequence, SaturatingNext, InFlight;
    var item := Item(s.sequence, s.dropped);
    assert s.sent + InFlight(s) + (s.queue + [item]) == s.sent + InFlight(s) + s.queue + [item];
    InFlightSame(s, OnDataReady(s));
  }

  lemma InFlightSame(s: Link, t: Link)
    requires s.pump == t.pump && s.handler == t.handler
    ensures InFlight(s) == InFlight(t)
  {}

  /** Every event, in whatever state it interrupts, keeps all of it. */
  lemma ApplyKeeps(s: Link, e: Event)
    requires Valid(s)
    ensures Valid(Apply(s, e)) && s.sent <= Apply(s, e).sent
  {
    if e.DataReady? {
      DataReadyKeeps(s);
      hide Valid, OnDataReady;
    } else {
      OrderKept(s, e);
      WakeUpKept(s, e);
      ProducerUntouched(s, e);
      hide ItemAt, Enqueued, Apply, InOrder, WakeUpDue;
    }
  }

  /** The hardware and the handler do not forget a waiting record. */
  lemma WakeUpKept(s: Link, e: Event)
    requires Valid(s) && !e.DataReady?
    ensures var t := Apply(s, e);
      && (|t.queue| > 0 ==> WakeUpDue(t))
      && (t.pump.Taken? <==> t.handler.Dequeuing? || t.handler.Starting?)
      && (t.pump.Active? && t.pump.done ==> t.pending || t.handler.Entered?)
  {
    hide ItemAt, Enqueued, OnDataReady, InOrder, InFlight;
  }

  /** They leave the producer's side alone. */
  lemma ProducerUntouched(s: Link, e: Event)
    requires s.divider < OBSERVATION_DECIMATION && !e.DataReady?
    ensures var t := Apply(s, e);
      && t.capacity == s.capacity && |t.queue| <= |s.queue| && t.divider == s.divider && t.sequence == s.sequence
      && t.dropped == s.dropped && t.outcomes == s.outcomes && t.enqueued == s.enqueued
  {
    hide OnDataReady;
  }

  function Run(s: Link, events: seq<Event>): Link
    requires Valid(s)
    decreases |events|
  {
    if |events| == 0 then s
    else
      ApplyKeeps(s, events[0]);
      Run(Apply(s, events[0]), events[1..])
  }

  lemma InitialIsValid(capacity: nat)
    ensures Valid(Initial(capacity))
  {}

  /** Over every interleaving: sent, then in flight, then queued is exactly what was
      enqueued; a waiting record is never forgotten; and a link at rest has sent everything. */
  lemma {:induction false} EveryRun(s: Link, events: seq<Event>)
    requires Valid(s)
    ensures var t := Run(s, events);
      && t.sent + InFlight(t) + t.queue == t.enqueued == Enqueued(t.outcomes)
      && (|t.queue| > 0 ==> WakeUpDue(t))
      && (t.handler.Waiting? && !t.pending && InFlight(t) == [] ==> t.sent == t.enqueued)
    decreases |events|
  {
    if |events| > 0 {
      ApplyKeeps(s, events[0]);
      EveryRun(Apply(s, events[0]), events[1..]);
    }
  }

  /** The same from power-up, with an empty queue and an idle pump. */
  lemma EveryRunFromPowerUp(capacity: nat, events: seq<Event>)
    ensures Valid(Initial(capacity))
    ensures var t := Run(Initial(capacity), events);
      && t.sent + InFlight(t) + t.queue == t.enqueued == Enqueued(t.outcomes)
      && (|t.queue| > 0 ==> WakeUpDue(t))
      && (t.handler.Waiting? && !t.pending && InFlight(t) == [] ==> t.sent == t.enqueued)
  {
    InitialIsValid(capacity);
    EveryRun(Initial(capacity), events);
  }

  // ----- how many are offered, and that all of them leave -----------------------------------

  function Count(events: seq<Event>, e: Event): nat {
    if |events| == 0 then 0 else (if events[0] == e then 1 else 0) + Count(events[1..], e)
  }

  /** Over every interleaving one acquisition in five is offered to the queue, and the number last to come says
      how many since. */
  lemma {:induction false} EveryFifthIsOffered(s: Link, events: seq<Event>)
    requires Valid(s)
    ensures var t := Run(s, events);
      5 * |t.outcomes| + t.divider == 5 * |s.outcomes| + s.divider + Count(events, DataReady) && t.divider < 5
    decreases |events|
  {
    if |events| > 0 {
      ApplyKeeps(s, events[0]);
      if !events[0].DataReady? { ProducerUntouched(s, events[0]); }
      EveryFifthIsOffered(Apply(s, events[0]), events[1..]);
      hide Valid, Enqueued, ItemAt;
    }
  }

  /** A record offered is dropped only by a full queue. */
  lemma DroppedOnlyWhenFull(s: Link)
    requires Valid(s)
    ensures var t := OnDataReady(s);
      && (t.outcomes == s.outcomes + [false] <==> s.divider == 4 && |s.queue| == s.capacity)
      && (t.outcomes == s.outcomes + [true] <==> s.divider == 4 && |s.queue| < s.capacity)
  {
    hide Enqueued, ItemAt, InOrder;
    assert (s.outcomes + [true])[|s.outcomes|] && !(s.outcomes + [false])[|s.outcomes|];
  }

  /** The hardware finishes a transfer, if there is one, and the handler runs once, if it is asked to. */
  const ROUND: seq<Event> := [TransferCompletes, Enter, Inspect, Dequeue, Begin, Leave]

  function AfterRound(s: Link): Link
    requires s.divider < OBSERVATION_DECIMATION
  {
    Apply(Apply(Apply(Apply(Apply(Apply(s, TransferCompletes), Enter), Inspect), Dequeue), Begin), Leave)
  }

  lemma {:induction false} RoundIsRun(s: Link)
    requires Valid(s)
    ensures Run(s, ROUND) == AfterRound(s) && Valid(AfterRound(s))
  {
    hide Apply, Valid;
    var s1 := RunOne(s, ROUND);
    var s2 := RunOne(s1, ROUND[1..]);
    var s3 := RunOne(s2, ROUND[2..]);
    var s4 := RunOne(s3, ROUND[3..]);
    var s5 := RunOne(s4, ROUND[4..]);
    var s6 := RunOne(s5, ROUND[5..]);
    assert Run(s6, []) == s6;
  }

  lemma {:induction false} RunOne(s: Link, events: seq<Event>) returns (t: Link)
    requires Valid(s) && |events| > 0
    ensures t == Apply(s, events[0]) && Valid(t) && Run(s, events) == Run(t, events[1..])
  {
    ApplyKeeps(s, events[0]);
    t := Apply(s, events[0]);
    hide Apply, Valid;
  }

  /** One round sends what is in flight and starts the next record; with none left it comes to rest. */
  lemma RoundMoves(s: Link)
    requires Valid(s) && s.handler.Waiting?
    ensures var t := AfterRound(s);
      && t.handler.Waiting? && !t.pending && t.enqueued == s.enqueued
      && t.queue == (if |s.queue| > 0 then s.queue[1..] else [])
      && t.pump == (if |s.queue| > 0 then Active(s.queue[0], false) else Idle)
  {
    hide Enqueued, ItemAt, InOrder;
  }

  function Rounds(n: nat): seq<Event> {
    if n == 0 then [] else ROUND + Rounds(n - 1)
  }

  lemma {:induction false} RunJoins(s: Link, a: seq<Event>, b: seq<Event>)
    requires Valid(s)
    ensures Valid(Run(s, a)) && Run(s, a + b) == Run(Run(s, a), b)
    decreases |a|
  {
    if |a| == 0 {
      assert a + b == b;
    } else {
      ApplyKeeps(s, a[0]);
      hide Apply, Valid;
      assert (a + b)[1..] == a[1..] + b;
      RunJoins(Apply(s, a[0]), a[1..], b);
    }
  }

  /** From any state in which the handler is not running, one round more than there are records queued sends
      them all and leaves pump, handler and request at rest. */
  lemma {:induction false} EveryRecordLeaves(s: Link)
    requires Valid(s) && s.handler.Waiting?
    ensures var t := Run(s, Rounds(|s.queue| + 1));
      t.sent == s.enqueued == t.enqueued && t.queue == [] && t.pump.Idle? && t.handler.Waiting? && !t.pending
    decreases |s.queue|
  {
    var n := |s.queue|;
    var next := AfterRound(s);
    RoundMoves(s);
    RoundIsRun(s);
    RunJoins(s, ROUND, Rounds(n));
    assert Rounds(n + 1) == ROUND + Rounds(n);
    if n == 0 {
      assert Run(next, Rounds(0)) == next;
      AtRest(next);
    } else {
      hide Valid, AfterRound, ROUND;
      EveryRecordLeaves(next);
    }
  }

  lemma AtRest(s: Link)
    requires Valid(s) && s.queue == [] && s.pump.Idle? && s.handler.Waiting?
    ensures s.sent == s.enqueued
  {}

  // ----- the handlers as methods ---------------------------------------------------------

  class RecordPath {
    const capacity: nat
    var queue: seq<Item>
    var pump: Pump
    var pending: bool
    var divider: u8
    var sequence: u32
    var dropped: u16
    ghost var sent: seq<Item>
    ghost var enqueued: seq<Item>
    ghost var outcomes: seq<bool>

    /** The link as seen while its handler is at this point. */
    ghost function State(handler: Handler): Link
      reads this
    {
      Link(capacity, queue, pump, handler, pending, divider, sequence, dropped, sent, enqueued, outcomes)
    }

    constructor (capacity: nat)
      ensures State(Waiting) == Initial(capacity) && Valid(State(Waiting))
    {
      this.capacity := capacity;
      queue, pump, pending, divider, sequence, dropped := [], Idle, false, 0, 0, 0;
      sent, enqueued, outcomes := [], [], [];
      new;
      InitialIsValid(capacity);
    }

    method Enqueue(item: Item) returns (ok: bool)
      modifies this`queue
      ensures ok <==> |old(queue)| < capacity
      ensures queue == if ok then old(queue) + [item] else old(queue)
    {
      ok := |queue| < capacity;
      if ok { queue := queue + [item]; }
    }

    /** Runs at the higher priority, so at any point of the DMA handler. */
    method ImuDataReady(ghost at: Handler)
      requires Valid(State(at))
      modifies this
      ensures State(at) == Apply(old(State(at)), DataReady)
      ensures Valid(State(at))
    {
      ApplyKeeps(State(at), DataReady);
      assert State(at).divider < OBSERVATION_DECIMATION;
      hide Valid, NextSequence, SaturatingNext;
      divider := divider + 1;
      if divider < OBSERVATION_DECIMATION { return; }
      divider := 0;
      var item := Item(sequence, dropped);
      var ok := Enqueue(item);
      outcomes := outcomes + [ok];
      if ok {
        pending := true;
        enqueued := enqueued + [item];
      } else {
        dropped := SaturatingNext(dropped);
      }
      sequence := NextSequence(sequence);
    }

    /** The DMA handler when nothing preempts it. */
    method OnInterrupt()
      requires Valid(State(Entered))
      modifies this`pump, this`queue
      ensures State(Leaving) == Apply(Apply(Apply(old(State(Entered)), Inspect), Dequeue), Begin)
      ensures Valid(State(Leaving))
    {
      ghost var start := State(Entered);
      ApplyKeeps(start, Inspect);
      ApplyKeeps(Apply(start, Inspect), Dequeue);
      ApplyKeeps(Apply(Apply(start, Inspect), Dequeue), Begin);
      hide Enqueued, ItemAt;
      var state := pump;
      pump := Taken;
      if state.Active? && !state.done {
        pump := state;
        return;
      }
      if |queue| > 0 {
        var item := queue[0];
        queue := queue[1..];
        pump := Active(item, false);
      } else {
        pump := Idle;
      }
    }
  }

  // ----- the receiver ------------------------------------------------------------------------

  datatype Received = Received(gaps: nat, last: Option<u32>)

  function Missed(last: u32, sequence: u32): nat {
    (sequence - NextSequence(last)) % 0x1_0000_0000
  }

  function Receive(items: seq<Item>): Received {
    if |items| == 0 then Received(0, None)
    else
      var before, sequence := Receive(items[..|items| - 1]), items[|items| - 1].sequence;
      match before.last
      case None => Received(before.gaps, Some(sequence))
      case Some(last) => Received(before.gaps + Missed(last, sequence), Some(sequence))
  }

  lemma MissedFrom(last: u32, sequence: u32)
    ensures sequence == NextSequence(last) ==> Missed(last, sequence) == 0
  {}

  class LinkStats {
    var sequenceGaps: nat
    var lastSequence: Option<u32>
    ghost var received: seq<Item>

    ghost predicate Valid()
      reads this
    {
      Receive(received) == Received(sequenceGaps, lastSequence)
    }

    constructor ()
      ensures Valid() && received == []
    {
      sequenceGaps, lastSequence, received := 0, None, [];
    }

    method UpdateSequence(sequence: u32, ghost dropped: u16)
      requires Valid()
      modifies this
      ensures Valid() && received == old(received) + [Item(sequence, dropped)]
    {
      hide NextSequence, Missed;
      if lastSequence.Some? {
        MissedFrom(lastSequence.value, sequence);
        var expected := NextSequence(lastSequence.value);
        if sequence != expected { sequenceGaps := sequenceGaps + Missed(lastSequence.value, sequence); }
      }
      lastSequence := Some(sequence);
      received := received + [Item(sequence, dropped)];
      assert received[..|received| - 1] == old(received);
    }
  }

  // ----- gaps are drops --------------------------------------------------------------------------

  /** The producer's number of the j-th record that entered the queue. */
  function Index(outcomes: seq<bool>, j: nat): (n: nat)
    requires j < |Enqueued(outcomes)|
    ensures n < |outcomes| && outcomes[n] && Enqueued(outcomes)[j] == ItemAt(outcomes, n)
    ensures Enqueued(outcomes[..n]) == Enqueued(outcomes)[..j]
    decreases |outcomes|
  {
    var n := |outcomes| - 1;
    var before := Enqueued(outcomes[..n]);
    if j < |before| then
      var i := Index(outcomes[..n], j);
      assert outcomes[..n][..i] == outcomes[..i];
      i
    else n
  }

  /** How many were dropped before the j-th record that entered the queue. */
  function DropsBefore(outcomes: seq<bool>, j: nat): nat
    requires j < |Enqueued(outcomes)|
  {
    Drops(outcomes[..Index(outcomes, j)])
  }

  lemma {:induction false} CountsAdd(outcomes: seq<bool>)
    ensures |outcomes| == |Enqueued(outcomes)| + Drops(outcomes)
  {
    hide ItemAt;
    if |outcomes| > 0 { CountsAdd(outcomes[..|outcomes| - 1]); }
  }

  /** Every number is a record that entered before or a drop. */
  lemma IndexSplits(outcomes: seq<bool>, j: nat)
    requires j < |Enqueued(outcomes)|
    ensures Index(outcomes, j) == j + DropsBefore(outcomes, j)
  {
    CountsAdd(outcomes[..Index(outcomes, j)]);
  }

  lemma {:induction false} DropsGrow(outcomes: seq<bool>, n: nat, m: nat)
    requires n <= m <= |outcomes|
    ensures Drops(outcomes[..n]) <= Drops(outcomes[..m]) <= Drops(outcomes[..n]) + (m - n)
    decreases m
  {
    if n < m {
      assert outcomes[..m][..m - 1] == outcomes[..m - 1];
      DropsGrow(outcomes, n, m - 1);
    }
  }

  lemma {:induction false} IndexAscends(outcomes: seq<bool>, j: nat)
    requires j + 1 < |Enqueued(outcomes)|
    ensures Index(outcomes, j) < Index(outcomes, j + 1)
    decreases |outcomes|
  {
    var n := |outcomes| - 1;
    if j + 1 < |Enqueued(outcomes[..n])| { IndexAscends(outcomes[..n], j); }
  }

  lemma DropsBeforeAscend(outcomes: seq<bool>, j: nat)
    requires j + 1 < |Enqueued(outcomes)|
    ensures DropsBefore(outcomes, j) <= DropsBefore(outcomes, j + 1)
  {
    IndexAscends(outcomes, j);
    DropsGrow(outcomes, Index(outcomes, j), Index(outcomes, j + 1));
  }

  /** Below 2^32 drops in one gap the receiver counts exactly those drops. */
  lemma MissedIsDrops(outcomes: seq<bool>, j: nat)
    requires j + 1 < |Enqueued(outcomes)|
    requires DropsBefore(outcomes, j + 1) - DropsBefore(outcomes, j) < 0x1_0000_0000
    ensures var items := Enqueued(outcomes);
      Missed(items[j].sequence, items[j + 1].sequence) == DropsBefore(outcomes, j + 1) - DropsBefore(outcomes, j)
  {
    IndexSplits(outcomes, j);
    IndexSplits(outcomes, j + 1);
    DropsBeforeAscend(outcomes, j);
    ModGap(Index(outcomes, j), Index(outcomes, j + 1));
  }

  lemma ModGap(n: nat, m: nat)
    requires n < m && m - n - 1 < 0x1_0000_0000
    ensures Missed(n % 0x1_0000_0000, m % 0x1_0000_0000) == m - n - 1
  {}

  /** After k + 1 records the receiver's count is the drops since the first one received. */
  lemma {:induction false} GapsAreDrops(outcomes: seq<bool>, first: nat, k: nat)
    requires first <= k < |Enqueued(outcomes)| && DropsBefore(outcomes, k) < 0x1_0000_0000
    ensures DropsBefore(outcomes, first) <= DropsBefore(outcomes, k)
    ensures Receive(Enqueued(outcomes)[first..k + 1])
         == Received(DropsBefore(outcomes, k) - DropsBefore(outcomes, first), Some(Enqueued(outcomes)[k].sequence))
    decreases k
  {
    hide Enqueued, DropsBefore, Missed;
    var items := Enqueued(outcomes)[first..k + 1];
    if first == k {
      assert items[..0] == [];
      assert Receive(items[..0]) == Received(0, None);
    } else {
      DropsBeforeAscend(outcomes, k - 1);
      GapsAreDrops(outcomes, first, k - 1);
      MissedIsDrops(outcomes, k - 1);
      assert items[..k - first] == Enqueued(outcomes)[first..k];
    }
  }

  lemma {:induction false} DropsBeforeMonotone(outcomes: seq<bool>, i: nat, j: nat)
    requires i <= j < |Enqueued(outcomes)|
    ensures DropsBefore(outcomes, i) <= DropsBefore(outcomes, j)
    decreases j
  {
    hide Enqueued, DropsBefore;
    if i < j {
      DropsBeforeMonotone(outcomes, i, j - 1);
      DropsBeforeAscend(outcomes, j - 1);
    }
  }

  /** On a lossless link that came up at the record `first`: the receiver's gaps are
      the rise of the transmitted drop counter until that counter saturates, and past
      that only if nothing has been dropped since. */
  lemma GapsAreTheRise(outcomes: seq<bool>, first: nat, k: nat)
    requires first <= k < |Enqueued(outcomes)|
    ensures var items := Enqueued(outcomes);
      var rise := items[k].dropped - items[first].dropped;
      var gaps := Receive(items[first..k + 1]).gaps;
      && (items[k].dropped < U16_MAX ==> gaps == rise)
      && (DropsBefore(outcomes, k) < 0x1_0000_0000 ==>
           (gaps == rise <==> DropsBefore(outcomes, k) <= U16_MAX || DropsBefore(outcomes, k) == DropsBefore(outcomes, first)))
  {
    assert Enqueued(outcomes)[k] == ItemAt(outcomes, Index(outcomes, k));
    assert Enqueued(outcomes)[first] == ItemAt(outcomes, Index(outcomes, first));
    hide Enqueued, Receive;
    DropsBeforeMonotone(outcomes, first, k);
    if DropsBefore(outcomes, k) < 0x1_0000_0000 { GapsAreDrops(outcomes, first, k); }
  }
}
