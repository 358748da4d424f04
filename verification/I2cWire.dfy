/** The two-wire bus as a monitor sees it: line levels, the symbols they carry
    (UM10204 sections 3.1.3 and 3.1.4), and the byte frames the symbols spell
    (sections 3.1.5, 3.1.6 and 3.1.10). */
module I2cWire {
  import opened Wrappers
  import opened MachineInts

  datatype Level = Level(sda: bool, scl: bool)

  datatype Symbol = StartCondition | StopCondition | Bit(value: bool)

  /** What the monitor remembers: the last level, whether SDA has already moved
      in the current SCL-high period, and the symbols so far. */
  datatype Monitor = Monitor(last: Level, moved: bool, symbols: seq<Symbol>)

  /** SDA moving while SCL is high is a START or a STOP; an SCL-high period in
      which SDA stays put carries one bit, known when SCL falls. */
  function Observe(m: Monitor, level: Level): Monitor {
    if m.last.scl && level.scl && m.last.sda && !level.sda then
      Monitor(level, true, m.symbols + [StartCondition])
    else if m.last.scl && level.scl && !m.last.sda && level.sda then
      Monitor(level, true, m.symbols + [StopCondition])
    else if m.last.scl && !level.scl then
      Monitor(level, false, if m.moved then m.symbols else m.symbols + [Bit(m.last.sda)])
    else if !m.last.scl && level.scl then
      Monitor(level, false, m.symbols)
    else
      Monitor(level, m.moved, m.symbols)
  }

  function Watch(wire: seq<Level>): Monitor
    requires |wire| > 0
  {
    if |wire| == 1 then Monitor(wire[0], false, [])
    else Observe(Watch(wire[..|wire| - 1]), wire[|wire| - 1])
  }

  lemma WatchNext(wire: seq<Level>, level: Level)
    requires |wire| > 0
    ensures Watch(wire + [level]) == Observe(Watch(wire), level)
  {
    assert (wire + [level])[..|wire|] == wire;
  }

  /** SDA falling under a high clock is a START, rising under one a STOP, and a level held over a clock pulse
      from the rise to the fall of SCL is the bit it was. */
  lemma SymbolsMean(sda: bool)
    ensures Watch([Level(true, true), Level(false, true)]).symbols == [StartCondition]
    ensures Watch([Level(false, true), Level(true, true)]).symbols == [StopCondition]
    ensures Watch([Level(sda, false), Level(sda, true), Level(sda, false)]).symbols == [Bit(sda)]
  {
    var high, low, pulse := [Level(true, true)], [Level(false, true)], [Level(sda, false)];
    WatchNext(high, Level(false, true));
    WatchNext(low, Level(true, true));
    WatchNext(pulse, Level(sda, true));
    WatchNext(pulse + [Level(sda, true)], Level(sda, false));
    assert pulse + [Level(sda, true)] + [Level(sda, false)] == [Level(sda, false), Level(sda, true), Level(sda, false)];
    assert low + [Level(true, true)] == [Level(false, true), Level(true, true)] && high + [Level(false, true)] == [Level(true, true), Level(false, true)];
  }

  // ----- bytes and bits ------------------------------------------------------

  /** One left shift in an eight-bit register. */
  function ShiftOut(b: u8): (r: u8) {
    if b >= 128 then 2 * b - 256 else 2 * b
  }

  function Shifted(b: u8, n: nat): (r: u8) {
    if n == 0 then b else ShiftOut(Shifted(b, n - 1))
  }

  /** The bits that leave the top of the register, the highest first. */
  function Bits(b: u8): (r: seq<bool>)
    ensures |r| == 8
  {
    seq(8, i requires 0 <= i < 8 => Shifted(b, i) >= 128)
  }

  /** Shifting the bits in from the right. */
  function FromBits(bits: seq<bool>): (r: nat) {
    if |bits| == 0 then 0
    else 2 * FromBits(bits[..|bits| - 1]) + (if bits[|bits| - 1] then 1 else 0)
  }

  lemma {:induction false} FromBitsBound(bits: seq<bool>)
    ensures FromBits(bits) < Doubled(1, |bits|)
  {
    if |bits| > 0 { FromBitsBound(bits[..|bits| - 1]); }
  }

  lemma ByteBound(bits: seq<bool>)
    requires |bits| <= 8
    ensures FromBits(bits) < 256
  {
    FromBitsBound(bits);
    DoubledMonotone(|bits|, 8);
    DoubledEight(1);
  }

  /** What has left the register and what is still in it add up to the shifted byte. */
  lemma {:induction false} ShiftInvariant(b: u8, n: nat)
    requires n <= 8
    ensures Doubled(b, n) == 256 * FromBits(Bits(b)[..n]) + Shifted(b, n)
  {
    if n > 0 {
      ShiftInvariant(b, n - 1);
      assert Bits(b)[..n][..n - 1] == Bits(b)[..n - 1];
    }
  }

  lemma BitsRoundTrip(b: u8)
    ensures FromBits(Bits(b)) == b
  {
    ShiftInvariant(b, 8);
    DoubledEight(b);
    assert Bits(b)[..8] == Bits(b);
  }

  lemma {:induction false} FromBitsInjective(a: seq<bool>, b: seq<bool>)
    requires |a| == |b| && FromBits(a) == FromBits(b)
    ensures a == b
  {
    if |a| > 0 {
      var n := |a| - 1;
      FromBitsInjective(a[..n], b[..n]);
      assert a == a[..n] + [a[n]] && b == b[..n] + [b[n]];
    }
  }

  lemma BitsInverse(bits: seq<bool>)
    requires |bits| == 8 && FromBits(bits) < 256
    ensures Bits(FromBits(bits)) == bits
  {
    BitsRoundTrip(FromBits(bits));
    FromBitsInjective(Bits(FromBits(bits)), bits);
  }

  function BitAt(b: u8, i: nat): int
    requires i < 8
  {
    if Bits(b)[i] then 1 else 0
  }

  /** The bit that leaves the register first has weight 128, the last weight one. */
  lemma BitsAreBinary(b: u8)
    ensures b == 128 * BitAt(b, 0) + 64 * BitAt(b, 1) + 32 * BitAt(b, 2) + 16 * BitAt(b, 3)
              + 8 * BitAt(b, 4) + 4 * BitAt(b, 5) + 2 * BitAt(b, 6) + BitAt(b, 7)
  {
    ShiftsOut(b, 0);
    ShiftsOut(b, 1);
    ShiftsOut(b, 2);
    ShiftsOut(b, 3);
    ShiftsOut(b, 4);
    ShiftsOut(b, 5);
    ShiftsOut(b, 6);
    ShiftsOut(b, 7);
    assert Shifted(b, 0) == b;
    var last: int := Shifted(b, 8);
    assert 0 <= last < 256;
    hide BitAt, Shifted;
  }

  lemma ShiftsOut(b: u8, i: nat)
    requires i < 8
    ensures var now: int := Shifted(b, i); var next: int := Shifted(b, i + 1); next == 2 * now - 256 * BitAt(b, i)
  {}

  // ----- frames ----------------------------------------------------------------

  datatype Token = Start | Stop | Byte(value: u8, acknowledged: bool)

  function BitSymbols(bits: seq<bool>): (r: seq<Symbol>)
    ensures |r| == |bits|
  {
    seq(|bits|, i requires 0 <= i < |bits| => Bit(bits[i]))
  }

  /** Eight data bits, highest first, then the acknowledge bit, low when acknowledged. */
  function ByteSymbols(value: u8, acknowledged: bool): (r: seq<Symbol>)
    ensures |r| == 9
  {
    BitSymbols(Bits(value) + [!acknowledged])
  }

  function Print(tokens: seq<Token>): seq<Symbol> {
    if |tokens| == 0 then []
    else (match tokens[0]
      case Start => [StartCondition]
      case Stop => [StopCondition]
      case Byte(value, acknowledged) => ByteSymbols(value, acknowledged)) + Print(tokens[1..])
  }

  predicate AllBits(s: seq<Symbol>) {
    forall i | 0 <= i < |s| :: s[i].Bit?
  }

  function BitValues(s: seq<Symbol>): (r: seq<bool>)
    requires AllBits(s)
    ensures |r| == |s|
  {
    seq(|s|, i requires 0 <= i < |s| => s[i].value)
  }

  function Prepend(t: Token, rest: Option<seq<Token>>): Option<seq<Token>> {
    if rest.None? then None else Some([t] + rest.value)
  }

  /** The frames a symbol stream spells, or None when it is no frame sequence. */
  function Parse(s: seq<Symbol>): Option<seq<Token>> {
    if |s| == 0 then Some([])
    else if s[0].StartCondition? then Prepend(Start, Parse(s[1..]))
    else if s[0].StopCondition? then Prepend(Stop, Parse(s[1..]))
    else if |s| >= 9 && AllBits(s[..9]) then
      var bits := BitValues(s[..9]);
      ByteBound(bits[..8]);
      Prepend(Byte(FromBits(bits[..8]), !bits[8]), Parse(s[9..]))
    else None
  }

  /** Reading back what was printed. */
  lemma {:induction false} ParsePrint(tokens: seq<Token>)
    ensures Parse(Print(tokens)) == Some(tokens)
  {
    if |tokens| > 0 {
      var rest := tokens[1..];
      ParsePrint(rest);
      var s := Print(tokens);
      assert tokens == [tokens[0]] + rest;
      match tokens[0]
      case Start => assert s[0] == StartCondition && s[1..] == Print(rest);
      case Stop => assert s[0] == StopCondition && s[1..] == Print(rest);
      case Byte(value, acknowledged) =>
        assert s[..9] == ByteSymbols(value, acknowledged) && s[9..] == Print(rest);
        var bits := BitValues(s[..9]);
        assert bits == Bits(value) + [!acknowledged];
        assert bits[..8] == Bits(value);
        BitsRoundTrip(value);
    }
  }

  /** Nothing but the printed form is read as the frames. */
  lemma {:induction false} PrintParse(s: seq<Symbol>)
    requires Parse(s).Some?
    ensures Print(Parse(s).value) == s
    decreases |s|
  {
    if |s| > 0 {
      var t := Parse(s).value;
      if !s[0].Bit? {
        PrintParse(s[1..]);
        assert t[1..] == Parse(s[1..]).value;
        assert s == [s[0]] + s[1..];
      } else {
        PrintParse(s[9..]);
        assert t[1..] == Parse(s[9..]).value;
        var bits := BitValues(s[..9]);
        ByteBound(bits[..8]);
        BitsInverse(bits[..8]);
        assert bits == bits[..8] + [bits[8]];
        assert BitSymbols(bits) == s[..9];
        assert s == s[..9] + s[9..];
      }
    }
  }

  /** The monitor reads exactly these frames when, and only when, the wire carried their printed form. */
  lemma ParsesExactly(s: seq<Symbol>, tokens: seq<Token>)
    ensures Parse(s) == Some(tokens) <==> s == Print(tokens)
  {
    ParsePrint(tokens);
    if Parse(s).Some? { PrintParse(s); }
  }

  lemma {:induction false} PrintConcat(a: seq<Token>, b: seq<Token>)
    ensures Print(a + b) == Print(a) + Print(b)
  {
    if |a| == 0 {
      assert a + b == b;
    } else {
      assert (a + b)[1..] == a[1..] + b;
      PrintConcat(a[1..], b);
    }
  }

  /** Behind symbols that read as whole frames, a monitor reads these frames exactly when their printed form follows. */
  lemma ReadBehind(s: seq<Symbol>, before: seq<Token>, more: seq<Symbol>, tokens: seq<Token>)
    requires Parse(s) == Some(before)
    ensures Parse(s + more) == Some(before + tokens) <==> more == Print(tokens)
  {
    hide Parse, Print;
    ParsesExactly(s, before);
    ParsesExactly(s + more, before + tokens);
    PrintConcat(before, tokens);
    assert (s + more)[|s|..] == more && (s + Print(tokens))[|s|..] == Print(tokens);
  }
}
