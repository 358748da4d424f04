/** What a transaction means to clock out, what the wire carries of it against
    any slave, and when a monitor reads back exactly what was meant. */
module I2cPlan {
  import opened Wrappers
  import opened MachineInts
  import opened I2cWire

  datatype NoAcknowledgeSource = Address | Data

  datatype Error = BusBusy | NoAcknowledge(source: NoAcknowledgeSource) | ClockStretchTimeout

  /** A slave that moves SDA only while SCL is low: in the n-th clock period
      (periods are separated by SCL falling) it either releases SDA or holds it
      low, and keeps SCL low for a number of the master's polls. */
  datatype Slave = Slave(releases: nat -> bool, stretch: nat -> nat)

  // ----- what the master means to do ---------------------------------------------

  /** One clock period of the master: drive a bit, listen for one, listen for an
      acknowledge, or set up a repeated START or a STOP. */
  datatype Slot = Drive(high: bool) | Listen | Acknowledge(source: NoAcknowledgeSource) | Again | Finish

  /** A transfer as the caller asks for it. */
  datatype Transfer = Writing(bytes: seq<u8>) | Reading(length: nat)

  type SevenBitAddress = x: int | 0 <= x < 128

  function AddressByte(address: SevenBitAddress, read: bool): (b: u8) {
    2 * address + (if read then 1 else 0)
  }

  /** The address in the upper seven bits, the direction in the lowest: one for a read. */
  lemma AddressByteMeans(address: SevenBitAddress, read: bool)
    ensures var b: int := AddressByte(address, read);
      && b / 2 == address && (b % 2 == 1 <==> read)
      && FromBits(Bits(b)[..7]) == address && (Bits(b)[7] <==> read)
  {
    var b: int := AddressByte(address, read);
    BitsRoundTrip(b);
    assert Bits(b)[..7] == Bits(b)[..|Bits(b)| - 1];
  }

  function WriteSlots(byte: u8, source: NoAcknowledgeSource): (r: seq<Slot>)
    ensures |r| == 9
  {
    seq(8, i requires 0 <= i < 8 => Drive(Bits(byte)[i])) + [Acknowledge(source)]
  }

  function ReadSlots(acknowledge: bool): (r: seq<Slot>)
    ensures |r| == 9
  {
    seq(8, i => Listen) + [Drive(!acknowledge)]
  }

  /** Whether the master must keep the slave sending after transfer `index`. */
  function HasFollowingReadData(transfers: seq<Transfer>, index: nat): bool
    requires index < |transfers|
    decreases |transfers| - index
  {
    if index + 1 == |transfers| then false
    else match transfers[index + 1]
      case Reading(length) => length > 0 || HasFollowingReadData(transfers, index + 1)
      case Writing(_) => false
  }

  function WriteDataSlots(bytes: seq<u8>): (r: seq<Slot>)
    ensures |r| == 9 * |bytes|
  {
    if |bytes| == 0 then []
    else WriteDataSlots(bytes[..|bytes| - 1]) + WriteSlots(bytes[|bytes| - 1], Data)
  }

  /** The first n of `length` bytes read, each acknowledged unless it is the last one wanted. */
  function ReadDataSlots(n: nat, length: nat, followOn: bool): (r: seq<Slot>)
    requires n <= length
    ensures |r| == 9 * n
  {
    if n == 0 then [] else ReadDataSlots(n - 1, length, followOn) + ReadSlots(n < length || followOn)
  }

  function HeaderSlots(address: SevenBitAddress, transfers: seq<Transfer>, index: nat): seq<Slot>
    requires index < |transfers|
  {
    var read := transfers[index].Reading?;
    if index == 0 then WriteSlots(AddressByte(address, read), Address)
    else if transfers[index - 1].Reading? != read then [Again] + WriteSlots(AddressByte(address, read), Address)
    else []
  }

  function BodySlots(transfers: seq<Transfer>, index: nat): seq<Slot>
    requires index < |transfers|
  {
    match transfers[index]
    case Writing(bytes) => WriteDataSlots(bytes)
    case Reading(length) => ReadDataSlots(length, length, HasFollowingReadData(transfers, index))
  }

  /** The clock periods of the first n transfers. */
  function Plan(address: SevenBitAddress, transfers: seq<Transfer>, n: nat): seq<Slot>
    requires n <= |transfers|
  {
    if n == 0 then []
    else Plan(address, transfers, n - 1) + HeaderSlots(address, transfers, n - 1) + BodySlots(transfers, n - 1)
  }

  function FullPlan(address: SevenBitAddress, transfers: seq<Transfer>): seq<Slot> {
    Plan(address, transfers, |transfers|) + [Finish]
  }

  // ----- what the wire carries -----------------------------------------------------

  /** The symbol of one clock period when the slave releases SDA or not: a line
      held low by either side is low. */
  function SlotSymbols(slot: Slot, released: bool): seq<Symbol> {
    match slot
    case Drive(high) => [Bit(high && released)]
    case Listen => [Bit(released)]
    case Acknowledge(_) => [Bit(released)]
    case Again => if released then [StartCondition] else [Bit(false)]
    case Finish => if released then [StopCondition] else []
  }

  ghost function WireOf(slots: seq<Slot>, slave: Slave, phase: nat): seq<Symbol> {
    if |slots| == 0 then []
    else
      var n := |slots| - 1;
      WireOf(slots[..n], slave, phase) + SlotSymbols(slots[n], slave.releases(phase + n))
  }

  /** No acknowledge slot reads high. */
  ghost predicate AllAcknowledged(slots: seq<Slot>, slave: Slave, phase: nat) {
    forall i | 0 <= i < |slots| :: slots[i].Acknowledge? ==> !slave.releases(phase + i)
  }

  /** The byte the master assembles from the eight listening slots that start at this phase. */
  ghost function ByteHeard(slave: Slave, phase: nat): (b: u8) {
    var bits := seq(8, i requires 0 <= i < 8 => slave.releases(phase + i));
    ByteBound(bits);
    FromBits(bits)
  }

  /** The last of these periods is an acknowledge slot that read high, the first that did. */
  ghost predicate RefusedAt(slots: seq<Slot>, slave: Slave, phase: nat, source: NoAcknowledgeSource) {
    && |slots| > 0 && slots[|slots| - 1] == Acknowledge(source) && slave.releases(phase + |slots| - 1)
    && AllAcknowledged(slots[..|slots| - 1], slave, phase)
  }

  lemma WireOfNext(slots: seq<Slot>, slot: Slot, slave: Slave, phase: nat)
    ensures WireOf(slots + [slot], slave, phase)
         == WireOf(slots, slave, phase) + SlotSymbols(slot, slave.releases(phase + |slots|))
  {
    assert (slots + [slot])[..|slots|] == slots;
  }

  /** In each of n periods from this one on the slave lets SCL rise within the timeout. */
  ghost predicate InTime(slave: Slave, timeout: nat, phase: nat, n: nat) {
    forall p | phase <= p < phase + n :: slave.stretch(p) < timeout
  }

  lemma InTimeNext(slave: Slave, timeout: nat, phase: nat, n: nat)
    requires InTime(slave, timeout, phase, n) && slave.stretch(phase + n) < timeout
    ensures InTime(slave, timeout, phase, n + 1)
  {}

  /** Whether the master has let go of SDA while it waits for SCL to rise in this period. */
  predicate LetsGo(slot: Slot) {
    match slot case Drive(high) => high case Finish => false case _ => true
  }

  lemma AcknowledgedPart(done: seq<Slot>, more: seq<Slot>, k: nat, slave: Slave, phase: nat)
    requires AllAcknowledged(done, slave, phase) && k <= |more| && forall i | 0 <= i < k :: !more[i].Acknowledge?
    ensures AllAcknowledged(done + more[..k], slave, phase)
  {
    assert forall i | |done| <= i < |done| + k :: (done + more[..k])[i] == more[i - |done|];
  }

  lemma PartOfPlan(a: seq<Slot>, more: seq<Slot>, k: nat, plan: seq<Slot>)
    requires k <= |more| && a + more <= plan
    ensures a + more[..k] <= plan
  {}

  lemma PrefixTransitive(a: seq<Slot>, b: seq<Slot>, c: seq<Slot>)
    requires a <= b <= c
    ensures a <= c
  {}

  /** A refusal in the plan, or a period the slave stretches too long, is why a plan is not carried. */
  lemma RefusalShows(executed: seq<Slot>, plan: seq<Slot>, slave: Slave, phase: nat, source: NoAcknowledgeSource)
    requires executed <= plan && RefusedAt(executed, slave, phase, source)
    ensures !AllAcknowledged(plan, slave, phase)
  {
    assert plan[|executed| - 1] == executed[|executed| - 1];
  }

  lemma AcknowledgedByte(done: seq<Slot>, byte: u8, source: NoAcknowledgeSource, slave: Slave, phase: nat)
    requires AllAcknowledged(done, slave, phase)
    ensures var slots := done + WriteSlots(byte, source);
      if slave.releases(phase + |done| + 8) then RefusedAt(slots, slave, phase, source)
      else AllAcknowledged(slots, slave, phase)
  {
    var slots := done + WriteSlots(byte, source);
    var n := |slots| - 1;
    assert slots[n] == Acknowledge(source) && n == |done| + 8;
    assert forall i | |done| <= i < n :: slots[i].Drive?;
    assert forall i | 0 <= i < |done| :: slots[i] == done[i];
  }

  lemma AcknowledgedAgain(done: seq<Slot>, slave: Slave, phase: nat)
    requires AllAcknowledged(done, slave, phase)
    ensures AllAcknowledged(done + [Again], slave, phase)
  {}

  lemma AcknowledgedFinish(done: seq<Slot>, slave: Slave, phase: nat)
    requires AllAcknowledged(done, slave, phase)
    ensures AllAcknowledged(done + [Finish], slave, phase)
  {}

  lemma AcknowledgedRead(done: seq<Slot>, acknowledge: bool, slave: Slave, phase: nat)
    requires AllAcknowledged(done, slave, phase)
    ensures AllAcknowledged(done + ReadSlots(acknowledge), slave, phase)
  {
    var more := ReadSlots(acknowledge);
    assert forall i | 0 <= i < |more| :: !more[i].Acknowledge?;
    assert forall i | |done| <= i < |done + more| :: (done + more)[i] == more[i - |done|];
  }

  lemma {:induction false} WriteDataPrefix(bytes: seq<u8>, n: nat)
    requires n <= |bytes|
    ensures WriteDataSlots(bytes[..n]) <= WriteDataSlots(bytes)
    decreases |bytes|
  {
    if n < |bytes| {
      assert bytes[..|bytes| - 1][..n] == bytes[..n];
      WriteDataPrefix(bytes[..|bytes| - 1], n);
    } else {
      assert bytes[..n] == bytes;
    }
  }

  lemma {:induction false} ReadDataPrefix(n: nat, m: nat, length: nat, followOn: bool)
    requires n <= m <= length
    ensures ReadDataSlots(n, length, followOn) <= ReadDataSlots(m, length, followOn)
    decreases m
  {
    if n < m { ReadDataPrefix(n, m - 1, length, followOn); }
  }

  lemma {:induction false} PlanPrefix(address: SevenBitAddress, transfers: seq<Transfer>, n: nat, m: nat)
    requires n <= m <= |transfers|
    ensures Plan(address, transfers, n) <= Plan(address, transfers, m)
    decreases m
  {
    hide HeaderSlots, BodySlots;
    if n < m { PlanPrefix(address, transfers, n, m - 1); }
  }

  /** A transfer's header, and its header with part of its data, begin the rest of the plan. */
  lemma PlanCut(address: SevenBitAddress, transfers: seq<Transfer>, index: nat, part: seq<Slot>)
    requires index < |transfers| && part <= BodySlots(transfers, index)
    ensures Plan(address, transfers, index) + HeaderSlots(address, transfers, index) + part <= FullPlan(address, transfers)
  {
    PlanPrefix(address, transfers, index + 1, |transfers|);
    var before := Plan(address, transfers, index) + HeaderSlots(address, transfers, index);
    assert before + part <= before + BodySlots(transfers, index) == Plan(address, transfers, index + 1);
  }

  /** The bytes the master assembles when `n` bytes are read from this phase on. */
  ghost function Heard(slave: Slave, phase: nat, n: nat): (r: seq<u8>)
    ensures |r| == n
  {
    seq(n, j requires 0 <= j < n => ByteHeard(slave, phase + 9 * j))
  }

  /** The phase at which the bytes of transfer i start, counted from the first clock period. */
  function BodyStart(address: SevenBitAddress, transfers: seq<Transfer>, i: nat): nat
    requires i < |transfers|
  {
    |Plan(address, transfers, i)| + |HeaderSlots(address, transfers, i)|
  }

  /** The bytes transfer i moves: those given, or those heard. */
  ghost function Moved(address: SevenBitAddress, transfers: seq<Transfer>, slave: Slave, phase: nat, i: nat): (r: seq<u8>)
    requires i < |transfers|
  {
    match transfers[i]
    case Writing(bytes) => bytes
    case Reading(length) => Heard(slave, phase + BodyStart(address, transfers, i), length)
  }

  // ----- when the wire carries what was meant ----------------------------------------

  /** What each period should show: the master's own bits, whatever the slave
      says where the master listens, and the START or STOP set up. */
  function MeantSymbol(slot: Slot, released: bool): Symbol {
    match slot
    case Drive(high) => Bit(high)
    case Listen => Bit(released)
    case Acknowledge(_) => Bit(released)
    case Again => StartCondition
    case Finish => StopCondition
  }

  ghost function Meant(slots: seq<Slot>, slave: Slave, phase: nat): (r: seq<Symbol>)
    ensures |r| == |slots|
  {
    seq(|slots|, i requires 0 <= i < |slots| => MeantSymbol(slots[i], slave.releases(phase + i)))
  }

  /** The periods in which the master lets the line rise and means it high. */
  predicate MasterNeedsHigh(slot: Slot) {
    slot == Drive(true) || slot.Again? || slot.Finish?
  }

  /** The slave releases SDA in each of those periods. */
  ghost predicate Undisturbed(slots: seq<Slot>, slave: Slave, phase: nat) {
    forall i | 0 <= i < |slots| :: MasterNeedsHigh(slots[i]) ==> slave.releases(phase + i)
  }

  lemma {:induction false} WireIsShorter(slots: seq<Slot>, slave: Slave, phase: nat)
    ensures |WireOf(slots, slave, phase)| <= |slots|
  {
    if |slots| > 0 { WireIsShorter(slots[..|slots| - 1], slave, phase); }
  }

  lemma SlotExactly(slot: Slot, released: bool)
    ensures |SlotSymbols(slot, released)| <= 1
    ensures SlotSymbols(slot, released) == [MeantSymbol(slot, released)] <==> (MasterNeedsHigh(slot) ==> released)
  {}

  lemma AppendExactly(a: seq<Symbol>, b: seq<Symbol>, c: seq<Symbol>, x: Symbol)
    requires |a| <= |c| && |b| <= 1
    ensures a + b == c + [x] <==> a == c && b == [x]
  {
    if a + b == c + [x] {
      assert |b| == 1;
      assert a == (a + b)[..|a|] && c == (c + [x])[..|c|];
      assert (a + b)[|a|] == b[0] && (c + [x])[|c|] == x;
    }
  }

  lemma UndisturbedLast(slots: seq<Slot>, slave: Slave, phase: nat)
    requires |slots| > 0
    ensures var n := |slots| - 1;
      Undisturbed(slots, slave, phase) <==>
        Undisturbed(slots[..n], slave, phase) && (MasterNeedsHigh(slots[n]) ==> slave.releases(phase + n))
  {
    hide MasterNeedsHigh;
    var n := |slots| - 1;
    assert forall i | 0 <= i < n :: slots[..n][i] == slots[i];
  }

  /** The wire carries what was meant exactly when the slave stays off the line
      in the periods where the master needs it high. */
  lemma {:induction false} WireIsMeantExactly(slots: seq<Slot>, slave: Slave, phase: nat)
    ensures WireOf(slots, slave, phase) == Meant(slots, slave, phase) <==> Undisturbed(slots, slave, phase)
  {
    if |slots| > 0 {
      var n := |slots| - 1;
      var head, last, released := slots[..n], slots[n], slave.releases(phase + n);
      var meant := Meant(slots, slave, phase);
      assert meant == Meant(head, slave, phase) + [MeantSymbol(last, released)];
      hide MasterNeedsHigh, SlotSymbols, MeantSymbol, Meant, Undisturbed;
      WireIsMeantExactly(head, slave, phase);
      WireIsShorter(head, slave, phase);
      SlotExactly(last, released);
      UndisturbedLast(slots, slave, phase);
      AppendExactly(WireOf(head, slave, phase), SlotSymbols(last, released), Meant(head, slave, phase), MeantSymbol(last, released));
    }
  }

  // ----- the frames of a transaction ---------------------------------------------------

  function WriteTokens(bytes: seq<u8>): (r: seq<Token>) {
    seq(|bytes|, j requires 0 <= j < |bytes| => Byte(bytes[j], true))
  }

  /** Every byte acknowledged but, unless more reading follows, the last. */
  function ReadTokens(bytes: seq<u8>, followOn: bool): (r: seq<Token>) {
    seq(|bytes|, j requires 0 <= j < |bytes| => Byte(bytes[j], j + 1 < |bytes| || followOn))
  }

  function HeaderTokens(address: SevenBitAddress, transfers: seq<Transfer>, index: nat): seq<Token>
    requires index < |transfers|
  {
    var read := transfers[index].Reading?;
    if index == 0 then [Byte(AddressByte(address, read), true)]
    else if transfers[index - 1].Reading? != read then [Start, Byte(AddressByte(address, read), true)]
    else []
  }

  function BodyTokens(transfers: seq<Transfer>, index: nat, bytes: seq<u8>): seq<Token>
    requires index < |transfers|
  {
    if transfers[index].Reading? then ReadTokens(bytes, HasFollowingReadData(transfers, index))
    else WriteTokens(bytes)
  }

  ghost predicate MovedData(address: SevenBitAddress, transfers: seq<Transfer>, slave: Slave, phase: nat, data: seq<seq<u8>>) {
    |data| == |transfers| && forall i | 0 <= i < |transfers| :: data[i] == Moved(address, transfers, slave, phase, i)
  }

  function Frames(address: SevenBitAddress, transfers: seq<Transfer>, data: seq<seq<u8>>, n: nat): seq<Token>
    requires n <= |transfers| == |data|
  {
    if n == 0 then []
    else Frames(address, transfers, data, n - 1) + HeaderTokens(address, transfers, n - 1) + BodyTokens(transfers, n - 1, data[n - 1])
  }

  lemma MeantConcat(a: seq<Slot>, b: seq<Slot>, slave: Slave, phase: nat)
    ensures Meant(a + b, slave, phase) == Meant(a, slave, phase) + Meant(b, slave, phase + |a|)
  {}

  lemma AcknowledgedSplit(a: seq<Slot>, b: seq<Slot>, slave: Slave, phase: nat)
    requires AllAcknowledged(a + b, slave, phase)
    ensures AllAcknowledged(a, slave, phase) && AllAcknowledged(b, slave, phase + |a|)
  {
    assert forall i | 0 <= i < |a| :: (a + b)[i] == a[i];
    assert forall i | 0 <= i < |b| :: (a + b)[|a| + i] == b[i];
  }

  lemma WriteSlotsMeant(byte: u8, source: NoAcknowledgeSource, slave: Slave, phase: nat)
    requires AllAcknowledged(WriteSlots(byte, source), slave, phase)
    ensures Meant(WriteSlots(byte, source), slave, phase) == Print([Byte(byte, true)])
  {
    assert WriteSlots(byte, source)[8] == Acknowledge(source);
    assert Print([Byte(byte, true)]) == ByteSymbols(byte, true);
  }

  lemma ReadSlotsMeant(acknowledge: bool, slave: Slave, phase: nat)
    ensures Meant(ReadSlots(acknowledge), slave, phase) == Print([Byte(ByteHeard(slave, phase), acknowledge)])
  {
    var bits := seq(8, i requires 0 <= i < 8 => slave.releases(phase + i));
    ByteBound(bits);
    BitsInverse(bits);
    assert Print([Byte(ByteHeard(slave, phase), acknowledge)]) == ByteSymbols(ByteHeard(slave, phase), acknowledge);
  }

  lemma {:induction false} WriteDataMeant(bytes: seq<u8>, slave: Slave, phase: nat)
    requires AllAcknowledged(WriteDataSlots(bytes), slave, phase)
    ensures Meant(WriteDataSlots(bytes), slave, phase) == Print(WriteTokens(bytes))
  {
    if |bytes| > 0 {
      var n := |bytes| - 1;
      var head, last := WriteDataSlots(bytes[..n]), WriteSlots(bytes[n], Data);
      AcknowledgedSplit(head, last, slave, phase);
      MeantConcat(head, last, slave, phase);
      WriteDataMeant(bytes[..n], slave, phase);
      WriteSlotsMeant(bytes[n], Data, slave, phase + 9 * n);
      PrintConcat(WriteTokens(bytes[..n]), [Byte(bytes[n], true)]);
      assert WriteTokens(bytes) == WriteTokens(bytes[..n]) + [Byte(bytes[n], true)];
    }
  }

  lemma {:induction false} ReadDataMeant(n: nat, length: nat, followOn: bool, slave: Slave, phase: nat)
    requires n <= length
    ensures Meant(ReadDataSlots(n, length, followOn), slave, phase)
         == Print(ReadTokens(Heard(slave, phase, length), followOn)[..n])
  {
    var tokens := ReadTokens(Heard(slave, phase, length), followOn);
    hide Print, Meant, ByteHeard, ReadSlots;
    if n == 0 {
      MeantNothing(slave, phase);
      assert tokens[..0] == [];
    } else {
      var head, last := ReadDataSlots(n - 1, length, followOn), ReadSlots(n < length || followOn);
      ReadDataMeant(n - 1, length, followOn, slave, phase);
      MeantConcat(head, last, slave, phase);
      ReadSlotsMeant(n < length || followOn, slave, phase + 9 * (n - 1));
      PrintConcat(tokens[..n - 1], [tokens[n - 1]]);
      assert tokens[..n] == tokens[..n - 1] + [tokens[n - 1]];
    }
  }

  lemma HeaderMeant(address: SevenBitAddress, transfers: seq<Transfer>, index: nat, slave: Slave, phase: nat)
    requires index < |transfers| && AllAcknowledged(HeaderSlots(address, transfers, index), slave, phase)
    ensures Meant(HeaderSlots(address, transfers, index), slave, phase) == Print(HeaderTokens(address, transfers, index))
  {
    hide AllAcknowledged, WriteSlots, Meant, Print;
    var read := transfers[index].Reading?;
    var byte := AddressByte(address, read);
    if index == 0 {
      WriteSlotsMeant(byte, Address, slave, phase);
    } else if transfers[index - 1].Reading? != read {
      AcknowledgedSplit([Again], WriteSlots(byte, Address), slave, phase);
      MeantConcat([Again], WriteSlots(byte, Address), slave, phase);
      WriteSlotsMeant(byte, Address, slave, phase + 1);
      PrintConcat([Start], [Byte(byte, true)]);
      AgainMeant(slave, phase);
      assert [Start] + [Byte(byte, true)] == [Start, Byte(byte, true)];
    } else {
      MeantNothing(slave, phase);
    }
  }

  lemma AgainMeant(slave: Slave, phase: nat)
    ensures Meant([Again], slave, phase) == Print([Start])
  {
    assert Print([Start]) == [StartCondition];
  }

  lemma BodyMeant(address: SevenBitAddress, transfers: seq<Transfer>, index: nat, slave: Slave, phase: nat)
    requires index < |transfers|
    requires AllAcknowledged(BodySlots(transfers, index), slave, phase + BodyStart(address, transfers, index))
    ensures Meant(BodySlots(transfers, index), slave, phase + BodyStart(address, transfers, index))
         == Print(BodyTokens(transfers, index, Moved(address, transfers, slave, phase, index)))
  {
    hide Meant, Print, AllAcknowledged, WriteDataSlots, ReadDataSlots, BodyStart, Heard, HasFollowingReadData, WriteTokens;
    var start := phase + BodyStart(address, transfers, index);
    match transfers[index]
    case Writing(bytes) => WriteDataMeant(bytes, slave, start);
    case Reading(length) =>
      var followOn := HasFollowingReadData(transfers, index);
      ReadDataMeant(length, length, followOn, slave, start);
      var tokens := ReadTokens(Heard(slave, start, length), followOn);
      assert tokens[..length] == tokens;
  }

  lemma MeantNothing(slave: Slave, phase: nat)
    ensures Meant([], slave, phase) == Print([])
  {}

  lemma {:induction false} PlanMeant(address: SevenBitAddress, transfers: seq<Transfer>, data: seq<seq<u8>>, n: nat, slave: Slave, phase: nat)
    requires n <= |transfers| && MovedData(address, transfers, slave, phase, data)
    requires AllAcknowledged(Plan(address, transfers, n), slave, phase)
    ensures Meant(Plan(address, transfers, n), slave, phase) == Print(Frames(address, transfers, data, n))
  {
    hide HeaderSlots, BodySlots, HeaderTokens, BodyTokens, Moved, Meant, Print, AllAcknowledged;
    if n == 0 {
      MeantNothing(slave, phase);
    } else {
      var before, header, body := Plan(address, transfers, n - 1), HeaderSlots(address, transfers, n - 1), BodySlots(transfers, n - 1);
      AcknowledgedSplit(before + header, body, slave, phase);
      AcknowledgedSplit(before, header, slave, phase);
      MeantConcat(before + header, body, slave, phase);
      MeantConcat(before, header, slave, phase);
      PlanMeant(address, transfers, data, n - 1, slave, phase);
      HeaderMeant(address, transfers, n - 1, slave, phase + |before|);
      BodyMeant(address, transfers, n - 1, slave, phase);
      var f, h, b := Frames(address, transfers, data, n - 1), HeaderTokens(address, transfers, n - 1), BodyTokens(transfers, n - 1, data[n - 1]);
      PrintConcat(f + h, b);
      PrintConcat(f, h);
    }
  }

  /** Every frame of a completed transaction, first START to STOP. */
  function Transcript(address: SevenBitAddress, transfers: seq<Transfer>, data: seq<seq<u8>>): seq<Token>
    requires |transfers| == |data|
  {
    [Start] + Frames(address, transfers, data, |transfers|) + [Stop]
  }

  lemma TranscriptMeant(address: SevenBitAddress, transfers: seq<Transfer>, data: seq<seq<u8>>, slave: Slave, phase: nat)
    requires MovedData(address, transfers, slave, phase, data)
    requires AllAcknowledged(FullPlan(address, transfers), slave, phase)
    ensures Print(Transcript(address, transfers, data)) == [StartCondition] + Meant(FullPlan(address, transfers), slave, phase)
  {
    hide Plan, Frames, AllAcknowledged;
    var plan := Plan(address, transfers, |transfers|);
    var frames := Frames(address, transfers, data, |transfers|);
    AcknowledgedSplit(plan, [Finish], slave, phase);
    PlanMeant(address, transfers, data, |transfers|, slave, phase);
    MeantConcat(plan, [Finish], slave, phase);
    PrintConcat([Start] + frames, [Stop]);
    PrintConcat([Start], frames);
    assert Print([Start]) == [StartCondition] && Print([Stop]) == [StopCondition];
    assert Meant([Finish], slave, phase + |plan|) == [StopCondition];
  }

  /** For any transfers and any slave that acknowledged every byte, the monitor
      recovers exactly the transcript if and only if the slave left SDA released
      wherever the master needed it high. */
  lemma MonitorRecoversExactly(address: SevenBitAddress, transfers: seq<Transfer>, data: seq<seq<u8>>, slave: Slave, phase: nat)
    requires MovedData(address, transfers, slave, phase, data)
    requires AllAcknowledged(FullPlan(address, transfers), slave, phase)
    ensures Parse([StartCondition] + WireOf(FullPlan(address, transfers), slave, phase)) == Some(Transcript(address, transfers, data))
       <==> Undisturbed(FullPlan(address, transfers), slave, phase)
  {
    hide FullPlan, Parse, Print, Transcript, WireOf, Meant, AllAcknowledged, Moved, Undisturbed;
    var slots := FullPlan(address, transfers);
    TranscriptMeant(address, transfers, data, slave, phase);
    WireIsMeantExactly(slots, slave, phase);
    var wire, meant := [StartCondition] + WireOf(slots, slave, phase), [StartCondition] + Meant(slots, slave, phase);
    ParsesExactly(wire, Transcript(address, transfers, data));
    assert wire[1..] == WireOf(slots, slave, phase) && meant[1..] == Meant(slots, slave, phase);
  }

  /** A slave may move SDA only while SCL is low and still spoil the waveform: this one
      answers address 0 by holding SDA low for good, so the STOP never shows. */
  lemma SlaveCanHideTheStop()
    ensures var slave, transfers := Slave(n => n == 0, n => 0), [Writing([])];
      && AllAcknowledged(FullPlan(0, transfers), slave, 1)
      && Parse([StartCondition] + WireOf(FullPlan(0, transfers), slave, 1)) != Some(Transcript(0, transfers, [[]]))
  {
    var slave, transfers := Slave(n => n == 0, n => 0), [Writing([])];
    hide Parse, Transcript, WireOf;
    var slots := FullPlan(0, transfers);
    assert slots[|slots| - 1].Finish?;
    MonitorRecoversExactly(0, transfers, [[]], slave, 1);
  }

  predicate NoFinish(slots: seq<Slot>) {
    forall i | 0 <= i < |slots| :: !slots[i].Finish?
  }

  lemma {:induction false} WriteDataHasNoFinish(bytes: seq<u8>)
    ensures NoFinish(WriteDataSlots(bytes))
  {
    if |bytes| > 0 { WriteDataHasNoFinish(bytes[..|bytes| - 1]); }
  }

  lemma {:induction false} ReadDataHasNoFinish(n: nat, length: nat, followOn: bool)
    requires n <= length
    ensures NoFinish(ReadDataSlots(n, length, followOn))
  {
    if n > 0 { ReadDataHasNoFinish(n - 1, length, followOn); }
  }

  lemma TransferHasNoFinish(address: SevenBitAddress, transfers: seq<Transfer>, index: nat)
    requires index < |transfers|
    ensures NoFinish(HeaderSlots(address, transfers, index)) && NoFinish(BodySlots(transfers, index))
  {
    hide HasFollowingReadData, WriteDataSlots, ReadDataSlots;
    match transfers[index]
    case Writing(bytes) => WriteDataHasNoFinish(bytes);
    case Reading(length) => ReadDataHasNoFinish(length, length, HasFollowingReadData(transfers, index));
  }

  lemma {:induction false} PlanHasNoFinish(address: SevenBitAddress, transfers: seq<Transfer>, n: nat)
    requires n <= |transfers|
    ensures NoFinish(Plan(address, transfers, n))
  {
    hide HeaderSlots, BodySlots;
    if n > 0 {
      PlanHasNoFinish(address, transfers, n - 1);
      TransferHasNoFinish(address, transfers, n - 1);
    }
  }

  lemma {:induction false} NoFinishNoStop(slots: seq<Slot>, slave: Slave, phase: nat)
    requires NoFinish(slots)
    ensures StopCondition !in WireOf(slots, slave, phase)
  {
    if |slots| > 0 {
      var n := |slots| - 1;
      assert forall i | 0 <= i < n :: slots[..n][i] == slots[i];
      NoFinishNoStop(slots[..n], slave, phase);
    }
  }

  /** Up to a refusal the wire shows no STOP, so the one sent on abandoning is the only one. */
  lemma RefusedBeforeAnyStop(address: SevenBitAddress, transfers: seq<Transfer>, slots: seq<Slot>,
                                                slave: Slave, phase: nat, source: NoAcknowledgeSource)
    requires slots <= FullPlan(address, transfers) && RefusedAt(slots, slave, phase, source)
    ensures StopCondition !in WireOf(slots, slave, phase)
  {
    hide Plan, WireOf;
    PlanHasNoFinish(address, transfers, |transfers|);
    var plan := Plan(address, transfers, |transfers|);
    assert forall i | 0 <= i < |slots| :: slots[i] == (plan + [Finish])[i];
    NoFinishNoStop(slots, slave, phase);
  }

  // ----- runs of one direction -----------------------------------------------------------

  /** Adjacent transfers of one direction, seen as one: its bytes in order. */
  datatype Run = Run(read: bool, bytes: seq<u8>)

  function Runs(transfers: seq<Transfer>, data: seq<seq<u8>>): (r: seq<Run>)
    requires |transfers| == |data|
    ensures |transfers| > 0 ==> |r| > 0 && r[0].read == transfers[0].Reading?
  {
    if |transfers| == 0 then []
    else
      var rest := Runs(transfers[1..], data[1..]);
      var read := transfers[0].Reading?;
      if |rest| > 0 && rest[0].read == read then [Run(read, data[0] + rest[0].bytes)] + rest[1..]
      else [Run(read, data[0])] + rest
  }

  /** The part of a run's tokens after its START and address. */
  function RunBody(run: Run): seq<Token> {
    if run.read then ReadTokens(run.bytes, false) else WriteTokens(run.bytes)
  }

  /** A run is a START, the address with its direction, and the bytes: written
      bytes all acknowledged, read bytes acknowledged all but the last. */
  function RunTokens(address: SevenBitAddress, run: Run): seq<Token> {
    [Start, Byte(AddressByte(address, run.read), true)] + RunBody(run)
  }

  function RunsTokens(address: SevenBitAddress, runs: seq<Run>): seq<Token> {
    if |runs| == 0 then [] else RunTokens(address, runs[0]) + RunsTokens(address, runs[1..])
  }

  /** The data agrees with the transfers it belongs to. */
  predicate Shaped(transfers: seq<Transfer>, data: seq<seq<u8>>) {
    |data| == |transfers| && forall i | 0 <= i < |transfers| ::
      match transfers[i] case Writing(bytes) => data[i] == bytes case Reading(length) => |data[i]| == length
  }

  /** The frames of the transfers from `from` on, in the code's own terms. */
  function FramesFrom(address: SevenBitAddress, transfers: seq<Transfer>, data: seq<seq<u8>>, from: nat): seq<Token>
    requires from <= |transfers| == |data|
    decreases |transfers| - from
  {
    if from == |transfers| then []
    else HeaderTokens(address, transfers, from) + BodyTokens(transfers, from, data[from]) + FramesFrom(address, transfers, data, from + 1)
  }

  lemma {:induction false} FramesSplit(address: SevenBitAddress, transfers: seq<Transfer>, data: seq<seq<u8>>, n: nat)
    requires n <= |transfers| == |data|
    ensures Frames(address, transfers, data, n) + FramesFrom(address, transfers, data, n) == FramesFrom(address, transfers, data, 0)
  {
    hide HeaderTokens, BodyTokens;
    if n > 0 {
      FramesSplit(address, transfers, data, n - 1);
      var f, h, b, r := Frames(address, transfers, data, n - 1), HeaderTokens(address, transfers, n - 1),
        BodyTokens(transfers, n - 1, data[n - 1]), FramesFrom(address, transfers, data, n);
      assert f + h + b + r == f + (h + b + r);
    }
  }

  /** More read data follows exactly when the next run is a read run with a byte. */
  lemma {:induction false} FollowsExactly(transfers: seq<Transfer>, data: seq<seq<u8>>, index: nat)
    requires index < |transfers| && Shaped(transfers, data)
    ensures var rest := Runs(transfers[index + 1..], data[index + 1..]);
      HasFollowingReadData(transfers, index) <==> |rest| > 0 && rest[0].read && |rest[0].bytes| > 0
    decreases |transfers| - index
  {
    if index + 1 < |transfers| {
      FollowsExactly(transfers, data, index + 1);
      assert transfers[index + 1..][1..] == transfers[index + 2..] && data[index + 1..][1..] == data[index + 2..];
    }
  }

  /** Bytes read ahead of a further read run with at least one byte are all acknowledged. */
  lemma ReadTokensJoin(a: seq<u8>, b: seq<u8>)
    ensures ReadTokens(a + b, false) == ReadTokens(a, |b| > 0) + ReadTokens(b, false)
  {}

  lemma WriteTokensJoin(a: seq<u8>, b: seq<u8>)
    ensures WriteTokens(a + b) == WriteTokens(a) + WriteTokens(b)
  {}

  lemma RunsStep(transfers: seq<Transfer>, data: seq<seq<u8>>, from: nat)
    requires from < |transfers| == |data|
    ensures var rest := Runs(transfers[from + 1..], data[from + 1..]);
      var read := transfers[from].Reading?;
      Runs(transfers[from..], data[from..])
        == if |rest| > 0 && rest[0].read == read then [Run(read, data[from] + rest[0].bytes)] + rest[1..]
           else [Run(read, data[from])] + rest
  {
    assert transfers[from..][1..] == transfers[from + 1..] && data[from..][1..] == data[from + 1..];
  }

  /** A transfer's bytes ahead of the rest of its run make the whole run's bytes. */
  lemma BodyJoinsRun(transfers: seq<Transfer>, data: seq<seq<u8>>, from: nat)
    requires from < |transfers| && Shaped(transfers, data)
    ensures var rest := Runs(transfers[from + 1..], data[from + 1..]);
      var read := transfers[from].Reading?;
      var body := BodyTokens(transfers, from, data[from]);
      if |rest| > 0 && rest[0].read == read
      then body + RunBody(rest[0]) == RunBody(Run(read, data[from] + rest[0].bytes))
      else body == RunBody(Run(read, data[from]))
  {
    hide ReadTokens, WriteTokens, HasFollowingReadData, Runs;
    FollowsExactly(transfers, data, from);
    var rest := Runs(transfers[from + 1..], data[from + 1..]);
    if |rest| > 0 {
      ReadTokensJoin(data[from], rest[0].bytes);
      WriteTokensJoin(data[from], rest[0].bytes);
    }
  }

  lemma {:induction false} SuffixIsRuns(address: SevenBitAddress, transfers: seq<Transfer>, data: seq<seq<u8>>, from: nat)
    requires from < |transfers| && Shaped(transfers, data)
    ensures var runs := Runs(transfers[from..], data[from..]);
      FramesFrom(address, transfers, data, from)
        == HeaderTokens(address, transfers, from) + RunBody(runs[0]) + RunsTokens(address, runs[1..])
    decreases |transfers| - from
  {
    var rest := Runs(transfers[from + 1..], data[from + 1..]);
    var header, body := HeaderTokens(address, transfers, from), BodyTokens(transfers, from, data[from]);
    FramesUnfold(address, transfers, data, from);
    RunsStep(transfers, data, from);
    BodyJoinsRun(transfers, data, from);
    if from + 1 < |transfers| {
      SuffixIsRuns(address, transfers, data, from + 1);
      RunsFirst(transfers[from + 1..], data[from + 1..]);
      HeaderNext(address, transfers, from);
      hide BodyTokens, HeaderTokens, RunBody, Runs, RunsTokens, FramesFrom, Shaped, RunTokens;
      var tail := RunsTokens(address, rest[1..]);
      RunsUnfold(address, rest);
      if rest[0].read == transfers[from].Reading? {
        JoinSame(header, body, RunBody(rest[0]), tail);
      } else {
        assert RunsTokens(address, rest) == HeaderTokens(address, transfers, from + 1) + RunBody(rest[0]) + tail;
      }
    } else {
      NoRuns(transfers[from + 1..], data[from + 1..]);
      hide BodyTokens, HeaderTokens, RunBody, Runs, Shaped;
    }
  }

  lemma FramesUnfold(address: SevenBitAddress, transfers: seq<Transfer>, data: seq<seq<u8>>, from: nat)
    requires from < |transfers| == |data|
    ensures FramesFrom(address, transfers, data, from)
         == HeaderTokens(address, transfers, from) + BodyTokens(transfers, from, data[from]) + FramesFrom(address, transfers, data, from + 1)
    ensures FramesFrom(address, transfers, data, |transfers|) == []
  {
    hide HeaderTokens, BodyTokens;
  }

  lemma RunsUnfold(address: SevenBitAddress, runs: seq<Run>)
    requires |runs| > 0
    ensures RunsTokens(address, runs) == [Start, Byte(AddressByte(address, runs[0].read), true)] + RunBody(runs[0]) + RunsTokens(address, runs[1..])
  {
    hide RunBody, AddressByte;
  }

  lemma HeaderNext(address: SevenBitAddress, transfers: seq<Transfer>, from: nat)
    requires from + 1 < |transfers|
    ensures var read := transfers[from + 1].Reading?;
      HeaderTokens(address, transfers, from + 1)
        == if transfers[from].Reading? == read then [] else [Start, Byte(AddressByte(address, read), true)]
  {
    hide AddressByte;
  }

  lemma JoinSame(header: seq<Token>, body: seq<Token>, more: seq<Token>, tail: seq<Token>)
    ensures header + body + ([] + more + tail) == header + (body + more) + tail
  {}

  lemma NoRuns(transfers: seq<Transfer>, data: seq<seq<u8>>)
    requires |transfers| == |data| == 0
    ensures Runs(transfers, data) == []
  {}

  lemma RunsFirst(transfers: seq<Transfer>, data: seq<seq<u8>>)
    requires |transfers| == |data| && |transfers| > 0
    ensures var r := Runs(transfers, data); |r| > 0 && r[0].read == transfers[0].Reading?
  {}

  /** The transcript is one START-address-bytes group per change of direction,
      each read group ending in its only NACK, and one STOP. */
  lemma {:induction false} TranscriptIsRuns(address: SevenBitAddress, transfers: seq<Transfer>, data: seq<seq<u8>>)
    requires |transfers| > 0 && Shaped(transfers, data)
    ensures Transcript(address, transfers, data) == RunsTokens(address, Runs(transfers, data)) + [Stop]
  {
    hide RunBody, BodyTokens, AddressByte, Runs;
    RunsFirst(transfers, data);
    FramesSplit(address, transfers, data, |transfers|);
    SuffixIsRuns(address, transfers, data, 0);
    assert transfers[0..] == transfers && data[0..] == data;
    var runs := Runs(transfers, data);
    var frames, header, body, rest := Frames(address, transfers, data, |transfers|), HeaderTokens(address, transfers, 0),
      RunBody(runs[0]), RunsTokens(address, runs[1..]);
    assert frames + [] == header + body + rest;
    assert RunsTokens(address, runs) == [Start] + header + body + rest;
    assert [Start] + header + body + rest == [Start] + (header + body + rest);
  }

  // ----- what the target understands ------------------------------------------------------------

  /** One addressed exchange as the target sees it. */
  datatype Addressed = Addressed(address: nat, read: bool, bytes: seq<u8>)

  function BytesAhead(tokens: seq<Token>): (n: nat)
    ensures n <= |tokens|
  {
    if |tokens| == 0 || !tokens[0].Byte? then 0 else 1 + BytesAhead(tokens[1..])
  }

  /** Written bytes are all acknowledged, and read ones all but the last. */
  predicate AcknowledgedAs(read: bool, bytes: seq<Token>) {
    forall i | 0 <= i < |bytes| :: bytes[i].Byte? && (bytes[i].acknowledged <==> !(read && i == |bytes| - 1))
  }

  function ValuesOf(bytes: seq<Token>): (r: seq<u8>)
    requires forall i | 0 <= i < |bytes| :: bytes[i].Byte?
  {
    seq(|bytes|, i requires 0 <= i < |bytes| => bytes[i].value)
  }

  /** The exchanges that frames spell, up to one STOP at their end; None where they break the bus protocol. */
  function Understood(tokens: seq<Token>): Option<seq<Addressed>>
    decreases |tokens|
  {
    if tokens == [Stop] then Some([])
    else if |tokens| < 2 || tokens[0] != Start || !tokens[1].Byte? || !tokens[1].acknowledged then None
    else
      var header: int, n := tokens[1].value, BytesAhead(tokens[2..]);
      var bytes, rest := tokens[2..2 + n], Understood(tokens[2 + n..]);
      if rest.None? || !AcknowledgedAs(header % 2 == 1, bytes) then None
      else Some([Addressed(header / 2, header % 2 == 1, ValuesOf(bytes))] + rest.value)
  }

  function AddressedRuns(address: SevenBitAddress, runs: seq<Run>): (r: seq<Addressed>) {
    seq(|runs|, i requires 0 <= i < |runs| => Addressed(address, runs[i].read, runs[i].bytes))
  }

  lemma {:induction false} BytesUpTo(bytes: seq<Token>, rest: seq<Token>)
    requires (forall i | 0 <= i < |bytes| :: bytes[i].Byte?) && |rest| > 0 && !rest[0].Byte?
    ensures BytesAhead(bytes + rest) == |bytes|
  {
    if |bytes| == 0 {
      assert bytes + rest == rest;
    } else {
      assert (bytes + rest)[1..] == bytes[1..] + rest;
      BytesUpTo(bytes[1..], rest);
    }
  }

  lemma RunBodyMeans(run: Run)
    ensures var body := RunBody(run);
      AcknowledgedAs(run.read, body) && ValuesOf(body) == run.bytes
  {}

  lemma RunsTokensStart(address: SevenBitAddress, runs: seq<Run>)
    ensures var t := RunsTokens(address, runs) + [Stop]; |t| > 0 && !t[0].Byte?
  {
    hide RunBody, AddressByte;
  }

  lemma {:induction false} OneExchange(header: u8, body: seq<Token>, read: bool, rest: seq<Token>)
    requires AcknowledgedAs(read, body) && |rest| > 0 && !rest[0].Byte? && Understood(rest).Some?
    requires var value: int := header; value % 2 == 1 <==> read
    ensures var value: int := header;
      Understood([Start, Byte(header, true)] + body + rest) == Some([Addressed(value / 2, read, ValuesOf(body))] + Understood(rest).value)
  {
    hide ValuesOf;
    BytesUpTo(body, rest);
    var all := [Start, Byte(header, true)] + body + rest;
    assert all[0] == Start && all[1] == Byte(header, true) && all != [Stop];
    assert all[2..] == body + rest && all[2..2 + |body|] == body && all[2 + |body|..] == rest;
    hide BytesAhead, AcknowledgedAs;
  }

  lemma RunsInFront(address: SevenBitAddress, runs: seq<Run>, header: u8, body: seq<Token>)
    requires |runs| > 0 && RunsTokens(address, runs) == [Start, Byte(header, true)] + body + RunsTokens(address, runs[1..])
    ensures RunsTokens(address, runs) + [Stop] == [Start, Byte(header, true)] + body + (RunsTokens(address, runs[1..]) + [Stop])
  {
    hide RunsTokens;
  }

  /** The target understands what the caller asked for: each run of transfers in one direction as one exchange
      at this address, in that direction, with its bytes in order. */
  lemma {:induction false} RunsAreUnderstood(address: SevenBitAddress, runs: seq<Run>)
    ensures Understood(RunsTokens(address, runs) + [Stop]) == Some(AddressedRuns(address, runs))
  {
    if |runs| == 0 {
      assert RunsTokens(address, runs) + [Stop] == [Stop];
      assert AddressedRuns(address, runs) == [];
    } else {
      var run, header := runs[0], AddressByte(address, runs[0].read);
      var body, rest := RunBody(run), RunsTokens(address, runs[1..]) + [Stop];
      RunsAreUnderstood(address, runs[1..]);
      RunsTokensStart(address, runs[1..]);
      RunBodyMeans(run);
      AddressByteMeans(address, run.read);
      RunsUnfold(address, runs);
      hide RunBody, AddressByte, AcknowledgedAs, ValuesOf, RunsTokens, Bits, FromBits, Understood;
      OneExchange(header, body, run.read, rest);
      RunsInFront(address, runs, header, body);
      assert AddressedRuns(address, runs) == [Addressed(address, run.read, run.bytes)] + AddressedRuns(address, runs[1..]);
    }
  }

  /** So a whole transcript says to its target exactly the runs of the transfers it was made of. */
  lemma TranscriptIsUnderstood(address: SevenBitAddress, transfers: seq<Transfer>, data: seq<seq<u8>>)
    requires |transfers| > 0 && Shaped(transfers, data)
    ensures Understood(Transcript(address, transfers, data)) == Some(AddressedRuns(address, Runs(transfers, data)))
  {
    hide Understood, Transcript, Runs, AddressedRuns;
    TranscriptIsRuns(address, transfers, data);
    RunsAreUnderstood(address, Runs(transfers, data));
  }

  // ----- what a monitor reads of an abandoned transaction ------------------------------------

  /** Symbol i is the acknowledge bit of frame k. */
  predicate AcknowledgeOf(tokens: seq<Token>, k: nat, i: nat) {
    k < |tokens| && tokens[k].Byte? && i == |Print(tokens[..k])| + 8
  }

  /** Frame k is the one right behind a START; `behind` says whether the first is. */
  predicate BehindStartAt(tokens: seq<Token>, k: nat, behind: bool) {
    if k == 0 then behind else k <= |tokens| && tokens[k - 1].Start?
  }

  /** Symbol i is the acknowledge bit of frame k, and its refusal is one of the address exactly behind a START. */
  predicate LabelledOf(tokens: seq<Token>, behind: bool, k: nat, i: nat, source: NoAcknowledgeSource) {
    AcknowledgeOf(tokens, k, i) && (source.Address? <==> BehindStartAt(tokens, k, behind))
  }

  /** The periods print as the frames do, and every acknowledge period is the acknowledge bit of a byte, labelled
      as the address or as data as the byte is. */
  ghost predicate Aligned(slots: seq<Slot>, tokens: seq<Token>, behind: bool) {
    && |Print(tokens)| == |slots|
    && forall i | 0 <= i < |slots| && slots[i].Acknowledge? :: exists k :: LabelledOf(tokens, behind, k, i, slots[i].source)
  }

  lemma AcknowledgeShifts(a: seq<Token>, b: seq<Token>, k: nat, i: nat)
    ensures AcknowledgeOf(a, k, i) ==> AcknowledgeOf(a + b, k, i)
    ensures AcknowledgeOf(b, k, i) ==> AcknowledgeOf(a + b, |a| + k, |Print(a)| + i)
  {
    hide Print;
    if k < |a| { assert (a + b)[..k] == a[..k]; }
    if k < |b| {
      assert (a + b)[..|a| + k] == a + b[..k];
      PrintConcat(a, b[..k]);
    }
  }

  lemma LabelShifts(a: seq<Token>, b: seq<Token>, behind: bool, k: nat, i: nat, source: NoAcknowledgeSource)
    ensures LabelledOf(a, behind, k, i, source) ==> LabelledOf(a + b, behind, k, i, source)
    ensures LabelledOf(b, BehindStartAt(a, |a|, behind), k, i, source) ==> LabelledOf(a + b, behind, |a| + k, |Print(a)| + i, source)
  {
    AcknowledgeShifts(a, b, k, i);
    hide Print;
  }

  lemma AlignedJoin(a: seq<Slot>, left: seq<Token>, b: seq<Slot>, right: seq<Token>, behind: bool)
    requires Aligned(a, left, behind) && Aligned(b, right, BehindStartAt(left, |left|, behind))
    ensures Aligned(a + b, left + right, behind)
  {
    hide Print, LabelledOf;
    PrintConcat(left, right);
    forall i | 0 <= i < |a + b| && (a + b)[i].Acknowledge? ensures exists k :: LabelledOf(left + right, behind, k, i, (a + b)[i].source) {
      if i < |a| {
        var k :| LabelledOf(left, behind, k, i, a[i].source);
        LabelShifts(left, right, behind, k, i, a[i].source);
      } else {
        var source := b[i - |a|].source;
        var k :| LabelledOf(right, BehindStartAt(left, |left|, behind), k, i - |a|, source);
        LabelShifts(left, right, behind, k, i - |a|, source);
      }
    }
  }

  lemma AlignedSmall(byte: u8, source: NoAcknowledgeSource, acknowledge: bool, behind: bool)
    ensures Aligned(WriteSlots(byte, source), [Byte(byte, true)], source.Address?)
    ensures Aligned(ReadSlots(acknowledge), [Byte(byte, acknowledge)], behind)
    ensures Aligned([Again], [Start], behind) && Aligned([Finish], [Stop], behind) && Aligned([], [], behind)
  {
    hide Bits, ByteSymbols;
    assert Print([Byte(byte, true)]) == ByteSymbols(byte, true);
    assert Print([Byte(byte, acknowledge)]) == ByteSymbols(byte, acknowledge);
    assert LabelledOf([Byte(byte, true)], source.Address?, 0, 8, source) by { assert [Byte(byte, true)][..0] == []; }
  }

  lemma {:induction false} AlignedWriteData(bytes: seq<u8>)
    ensures Aligned(WriteDataSlots(bytes), WriteTokens(bytes), false)
  {
    hide Aligned, WriteSlots;
    if |bytes| == 0 {
      AlignedSmall(0, Data, false, false);
    } else {
      var n := |bytes| - 1;
      AlignedWriteData(bytes[..n]);
      AlignedSmall(bytes[n], Data, false, false);
      AlignedJoin(WriteDataSlots(bytes[..n]), WriteTokens(bytes[..n]), WriteSlots(bytes[n], Data), [Byte(bytes[n], true)], false);
      assert WriteTokens(bytes) == WriteTokens(bytes[..n]) + [Byte(bytes[n], true)];
    }
  }

  lemma {:induction false} AlignedReadData(n: nat, bytes: seq<u8>, followOn: bool)
    requires n <= |bytes|
    ensures Aligned(ReadDataSlots(n, |bytes|, followOn), ReadTokens(bytes, followOn)[..n], false)
  {
    hide Aligned, ReadSlots;
    var tokens := ReadTokens(bytes, followOn);
    if n == 0 {
      AlignedSmall(0, Data, false, false);
      assert tokens[..0] == [];
    } else {
      AlignedReadData(n - 1, bytes, followOn);
      AlignedSmall(bytes[n - 1], Data, n < |bytes| || followOn, false);
      AlignedJoin(ReadDataSlots(n - 1, |bytes|, followOn), tokens[..n - 1], ReadSlots(n < |bytes| || followOn), [tokens[n - 1]], false);
      assert tokens[..n] == tokens[..n - 1] + [tokens[n - 1]];
    }
  }

  lemma AlignedTransfer(address: SevenBitAddress, transfers: seq<Transfer>, data: seq<seq<u8>>, i: nat)
    requires i < |transfers| && Shaped(transfers, data)
    ensures Aligned(HeaderSlots(address, transfers, i), HeaderTokens(address, transfers, i), i == 0)
    ensures Aligned(BodySlots(transfers, i), BodyTokens(transfers, i, data[i]), false)
  {
    var read := transfers[i].Reading?;
    var byte := AddressByte(address, read);
    hide Aligned, WriteSlots, WriteDataSlots, ReadDataSlots, WriteTokens, HasFollowingReadData, AddressByte;
    AlignedSmall(byte, Address, false, i == 0);
    AlignedJoin([Again], [Start], WriteSlots(byte, Address), [Byte(byte, true)], i == 0);
    assert [Start] + [Byte(byte, true)] == [Start, Byte(byte, true)];
    match transfers[i]
    case Writing(bytes) => AlignedWriteData(bytes);
    case Reading(length) =>
      var tokens := ReadTokens(data[i], HasFollowingReadData(transfers, i));
      AlignedReadData(length, data[i], HasFollowingReadData(transfers, i));
      assert tokens[..length] == tokens;
  }

  predicate EndsInByte(tokens: seq<Token>) {
    |tokens| > 0 && tokens[|tokens| - 1].Byte?
  }

  lemma BytesEnd(address: SevenBitAddress, transfers: seq<Transfer>, i: nat, bytes: seq<u8>)
    requires i < |transfers|
    ensures i == 0 ==> EndsInByte(HeaderTokens(address, transfers, i))
    ensures HeaderTokens(address, transfers, i) == [] || EndsInByte(HeaderTokens(address, transfers, i))
    ensures BodyTokens(transfers, i, bytes) == [] || EndsInByte(BodyTokens(transfers, i, bytes))
  {}

  lemma {:induction false} AlignedPlan(address: SevenBitAddress, transfers: seq<Transfer>, data: seq<seq<u8>>, n: nat)
    requires n <= |transfers| == |data| && Shaped(transfers, data)
    ensures Aligned(Plan(address, transfers, n), Frames(address, transfers, data, n), true)
    ensures n > 0 ==> EndsInByte(Frames(address, transfers, data, n))
  {
    hide Aligned, HeaderSlots, BodySlots, HeaderTokens, BodyTokens, Shaped;
    if n == 0 {
      AlignedSmall(0, Data, false, true);
    } else {
      var before, frames := Plan(address, transfers, n - 1), Frames(address, transfers, data, n - 1);
      AlignedPlan(address, transfers, data, n - 1);
      AlignedTransfer(address, transfers, data, n - 1);
      BytesEnd(address, transfers, n - 1, data[n - 1]);
      AlignedJoin(before, frames, HeaderSlots(address, transfers, n - 1), HeaderTokens(address, transfers, n - 1), true);
      AlignedJoin(before + HeaderSlots(address, transfers, n - 1), frames + HeaderTokens(address, transfers, n - 1),
                  BodySlots(transfers, n - 1), BodyTokens(transfers, n - 1, data[n - 1]), true);
    }
  }

  /** The slave that does the same up to this period, and holds SDA low from it on. */
  function Yielding(slave: Slave, from: nat): Slave {
    slave.(releases := (n: nat) => n < from && slave.releases(n))
  }

  lemma MovedIsShaped(address: SevenBitAddress, transfers: seq<Transfer>, slave: Slave, phase: nat, data: seq<seq<u8>>)
    requires MovedData(address, transfers, slave, phase, data)
    ensures |data| == |transfers| && Shaped(transfers, data)
  {
    hide BodyStart, ByteHeard;
  }

  lemma YieldingAcknowledges(executed: seq<Slot>, plan: seq<Slot>, slave: Slave, phase: nat, source: NoAcknowledgeSource)
    requires executed <= plan && RefusedAt(executed, slave, phase, source)
    ensures |executed| > 0 && AllAcknowledged(plan, Yielding(slave, phase + |executed| - 1), phase)
  {
    var n := |executed| - 1;
    assert forall i | 0 <= i < n :: plan[i] == executed[..n][i];
  }

  /** Up to a refusal the two slaves show the same; in it, one refuses and the other acknowledges. */
  lemma YieldingMeant(executed: seq<Slot>, plan: seq<Slot>, slave: Slave, phase: nat, source: NoAcknowledgeSource)
    requires executed <= plan && RefusedAt(executed, slave, phase, source)
    ensures var n := |executed| - 1;
      var yielded := Meant(plan, Yielding(slave, phase + n), phase);
      Meant(executed, slave, phase) == yielded[..n] + [Bit(true)] && yielded[n] == Bit(false)
  {
    var n := |executed| - 1;
    var meant, yielded := Meant(executed, slave, phase), Meant(plan, Yielding(slave, phase + n), phase);
    assert plan[n] == executed[n] == Acknowledge(source);
    forall i | 0 <= i < n ensures meant[i] == yielded[i] {
      assert plan[i] == executed[i];
    }
    assert meant == meant[..n] + [meant[n]];
  }

  /** Frames cut off by a refusal: those before it, the byte refused, and a STOP. */
  predicate CutAt(whole: seq<Token>, k: nat, tokens: seq<Token>) {
    && k < |whole| && whole[k].Byte? && whole[k].acknowledged
    && tokens == whole[..k] + [Byte(whole[k].value, false), Stop]
  }

  /** Printing up to a byte, and refusing it instead. */
  lemma {:induction false} PrintCut(whole: seq<Token>, k: nat, meant: seq<Symbol>)
    requires k < |whole| && whole[k].Byte? && |Print(whole[..k])| + 9 <= |meant| && Print(whole) == meant
    requires meant[|Print(whole[..k])| + 8] == Bit(false)
    ensures whole[k].acknowledged
    ensures Print(whole[..k] + [Byte(whole[k].value, false), Stop]) == meant[..|Print(whole[..k])| + 8] + [Bit(true), StopCondition]
  {
    hide *;
    var head, byte, acknowledged := whole[..k], whole[k].value, whole[k].acknowledged;
    var bits := BitSymbols(Bits(byte));
    SingleByte(byte, acknowledged);
    SingleByte(byte, false);
    assert whole == head + [Byte(byte, acknowledged)] + whole[k + 1..];
    PrintThree(head, [Byte(byte, acknowledged)], whole[k + 1..]);
    PrintThree(head, [Byte(byte, false)], [Stop]);
    assert head + [Byte(byte, false), Stop] == head + [Byte(byte, false)] + [Stop];
    BitAfter(Print(head), bits, Bit(!acknowledged), Print(whole[k + 1..]));
    assert Print(head) + (bits + [Bit(true)]) + [StopCondition] == Print(head) + bits + [Bit(true), StopCondition];
  }

  lemma PrintThree(a: seq<Token>, b: seq<Token>, c: seq<Token>)
    ensures Print(a + b + c) == Print(a) + Print(b) + Print(c)
  {
    PrintConcat(a + b, c);
    PrintConcat(a, b);
  }

  lemma BitAfter(head: seq<Symbol>, bits: seq<Symbol>, bit: Symbol, rest: seq<Symbol>)
    ensures var s := head + (bits + [bit]) + rest;
      s[|head| + |bits|] == bit && s[..|head| + |bits|] == head + bits
  {}

  lemma SingleByte(byte: u8, acknowledged: bool)
    ensures |BitSymbols(Bits(byte))| == 8
    ensures Print([Byte(byte, acknowledged)]) == BitSymbols(Bits(byte)) + [Bit(!acknowledged)]
    ensures Print([Stop]) == [StopCondition]
  {
    hide Bits;
    assert Print([Byte(byte, acknowledged)]) == ByteSymbols(byte, acknowledged) + Print([]);
    assert ByteSymbols(byte, acknowledged) == BitSymbols(Bits(byte)) + [Bit(!acknowledged)];
  }

  /** Every acknowledge period of a plan is the acknowledge bit of a frame of its transcript. */
  lemma AcknowledgeInPlan(address: SevenBitAddress, transfers: seq<Transfer>, data: seq<seq<u8>>, i: nat) returns (j: nat)
    requires |data| == |transfers| && Shaped(transfers, data)
    requires i < |FullPlan(address, transfers)| && FullPlan(address, transfers)[i].Acknowledge?
    ensures LabelledOf(Frames(address, transfers, data, |transfers|) + [Stop], true, j, i, FullPlan(address, transfers)[i].source)
  {
    var frames := Frames(address, transfers, data, |transfers|);
    AlignedPlan(address, transfers, data, |transfers|);
    AlignedSmall(0, Data, false, BehindStartAt(frames, |frames|, true));
    hide Plan, Frames, Print, Shaped, LabelledOf;
    AlignedJoin(Plan(address, transfers, |transfers|), frames, [Finish], [Stop], true);
    j :| LabelledOf(frames + [Stop], true, j, i, FullPlan(address, transfers)[i].source);
  }

  /** Frame j behind a START. */
  lemma BehindStart(frames: seq<Token>, j: nat, i: nat, source: NoAcknowledgeSource)
    requires LabelledOf(frames, true, j, i, source)
    ensures LabelledOf([Start] + frames, false, j + 1, i + 1, source)
  {
    LabelShifts([Start], frames, false, j, i, source);
    SingleStart();
  }

  /** Where a transcript is cut by a refusal: behind a START if the address was refused, elsewhere if data was. The
      bytes are those the slave let the master hear up to it. */
  lemma RefusedByte(address: SevenBitAddress, transfers: seq<Transfer>, data: seq<seq<u8>>, executed: seq<Slot>,
                                       slave: Slave, phase: nat, source: NoAcknowledgeSource) returns (k: nat)
    requires executed <= FullPlan(address, transfers) && RefusedAt(executed, slave, phase, source)
    requires |data| == |transfers| && Shaped(transfers, data)
    ensures LabelledOf(Transcript(address, transfers, data), false, k, |executed|, source)
  {
    hide *;
    RefusedInPlan(executed, FullPlan(address, transfers), slave, phase, source);
    var frames := Frames(address, transfers, data, |transfers|);
    var j := AcknowledgeInPlan(address, transfers, data, |executed| - 1);
    BehindStart(frames + [Stop], j, |executed| - 1, source);
    TranscriptParts(address, transfers, data);
    k := j + 1;
  }

  lemma RefusedInPlan(executed: seq<Slot>, plan: seq<Slot>, slave: Slave, phase: nat, source: NoAcknowledgeSource)
    requires executed <= plan && RefusedAt(executed, slave, phase, source)
    ensures 0 < |executed| <= |plan| && plan[|executed| - 1] == Acknowledge(source)
  {
    hide AllAcknowledged;
  }

  lemma TranscriptParts(address: SevenBitAddress, transfers: seq<Transfer>, data: seq<seq<u8>>)
    requires |data| == |transfers|
    ensures Transcript(address, transfers, data) == [Start] + (Frames(address, transfers, data, |transfers|) + [Stop])
  {
    hide Frames;
  }

  lemma SingleStart()
    ensures Print([Start]) == [StartCondition]
  {
    assert Print([Start]) == [StartCondition] + Print([]);
  }

  /** The frames of an abandoned transaction: its transcript, cut at the refused byte. */
  lemma AbandonedMeant(address: SevenBitAddress, transfers: seq<Transfer>, data: seq<seq<u8>>, executed: seq<Slot>,
                                          slave: Slave, phase: nat, source: NoAcknowledgeSource) returns (tokens: seq<Token>, k: nat)
    requires executed <= FullPlan(address, transfers) && RefusedAt(executed, slave, phase, source)
    requires MovedData(address, transfers, Yielding(slave, phase + |executed| - 1), phase, data)
    ensures CutAt(Transcript(address, transfers, data), k, tokens) && RefusedAs(Transcript(address, transfers, data), k, source)
    ensures Print(tokens) == [StartCondition] + Meant(executed, slave, phase) + [StopCondition]
  {
    hide *;
    YieldingAcknowledges(executed, FullPlan(address, transfers), slave, phase, source);
    MovedIsShaped(address, transfers, Yielding(slave, phase + |executed| - 1), phase, data);
    var whole, n := Transcript(address, transfers, data), |executed| - 1;
    assert phase + n == phase + |executed| - 1;
    var yielding := Yielding(slave, phase + n);
    k := RefusedByte(address, transfers, data, executed, slave, phase, source);
    TranscriptMeant(address, transfers, data, yielding, phase);
    YieldingMeant(executed, FullPlan(address, transfers), slave, phase, source);
    AcknowledgeMeans(whole, k, |executed|, source);
    var yielded := Meant(FullPlan(address, transfers), yielding, phase);
    var meant := [StartCondition] + yielded;
    assert meant[n + 1] == yielded[n] && meant[..n + 1] == [StartCondition] + yielded[..n];
    PrintCut(whole, k, meant);
    tokens := whole[..k] + [Byte(whole[k].value, false), Stop];
    CutIs(whole, k, tokens);
  }

  /** A refused address is the byte right behind a START, refused data any other. */
  predicate RefusedAs(whole: seq<Token>, k: nat, source: NoAcknowledgeSource) {
    source == Address <==> 0 < k <= |whole| && whole[k - 1] == Start
  }

  lemma AcknowledgeMeans(tokens: seq<Token>, k: nat, i: nat, source: NoAcknowledgeSource)
    requires LabelledOf(tokens, false, k, i, source)
    ensures k < |tokens| && tokens[k].Byte? && i == |Print(tokens[..k])| + 8 && RefusedAs(tokens, k, source)
  {
    hide Print;
  }

  lemma CutIs(whole: seq<Token>, k: nat, tokens: seq<Token>)
    requires k < |whole| && whole[k].Byte? && whole[k].acknowledged && tokens == whole[..k] + [Byte(whole[k].value, false), Stop]
    ensures CutAt(whole, k, tokens)
  {}

  lemma FinishMeant(slots: seq<Slot>, slave: Slave, phase: nat)
    ensures Meant(slots + [Finish], slave, phase) == Meant(slots, slave, phase) + [StopCondition]
  {}

  /** After a refusal the monitor reads the frames before it, the refused byte, an address or data as reported, and a STOP, if and only if the
      slave left SDA released wherever the master needed it high up to that STOP. */
  lemma AbandonedIsRead(address: SevenBitAddress, transfers: seq<Transfer>, data: seq<seq<u8>>, executed: seq<Slot>,
                                           slave: Slave, phase: nat, source: NoAcknowledgeSource) returns (tokens: seq<Token>, k: nat)
    requires executed <= FullPlan(address, transfers) && RefusedAt(executed, slave, phase, source)
    requires MovedData(address, transfers, Yielding(slave, phase + |executed| - 1), phase, data)
    ensures CutAt(Transcript(address, transfers, data), k, tokens) && RefusedAs(Transcript(address, transfers, data), k, source)
    ensures Print(tokens) == [StartCondition] + Meant(executed + [Finish], slave, phase)
    ensures Parse([StartCondition] + WireOf(executed + [Finish], slave, phase)) == Some(tokens) <==> Undisturbed(executed + [Finish], slave, phase)
  {
    hide *;
    tokens, k := AbandonedMeant(address, transfers, data, executed, slave, phase, source);
    FinishMeant(executed, slave, phase);
    WireIsMeantExactly(executed + [Finish], slave, phase);
    ParsesExactly([StartCondition] + WireOf(executed + [Finish], slave, phase), tokens);
    StartsSame(WireOf(executed + [Finish], slave, phase), Meant(executed + [Finish], slave, phase));
  }

  lemma StartsSame(a: seq<Symbol>, b: seq<Symbol>)
    ensures [StartCondition] + a == [StartCondition] + b <==> a == b
  {
    assert ([StartCondition] + a)[1..] == a && ([StartCondition] + b)[1..] == b;
  }
}
