/** The bit-banging WS2812 driver: the frame as register writes and delays. */
module LedBitBang {
  import opened Wrappers
  import opened LedFrame

  /** What the driver does to the outside: write the port register, or wait. */
  datatype Signal = Reg(value: bv32) | Delay(ns: nat)

  /** `BIT(offset % 32)` with `offset` 4. */
  const PIN: bv32 := 0x10

  function High(val: bv32): bv32 {
    val | PIN
  }

  function Low(val: bv32): bv32 {
    val & !PIN
  }

  function BitSignals(val: bv32, bit: bool): seq<Signal> {
    if bit then [Reg(High(val)), Delay(400), Reg(Low(val)), Delay(800)]
    else [Reg(High(val)), Reg(High(val)), Reg(Low(val)), Delay(500)]
  }

  function Signals(val: bv32, bits: seq<bool>): seq<Signal> {
    if bits == [] then [] else Signals(val, bits[..|bits| - 1]) + BitSignals(val, bits[|bits| - 1])
  }

  /** The bits behind the cells: only a cell of value 1 is sent as a 1. */
  function CellBits(cells: seq<int>): (bits: seq<bool>)
    ensures |bits| == |cells| && forall i :: 0 <= i < |cells| ==> bits[i] == (cells[i] == 1)
  {
    seq(|cells|, i requires 0 <= i < |cells| => cells[i] == 1)
  }

  // ----- Decoding the line -----

  /** What is left of a signal on the wire: the pin's level, or a delay. */
  datatype Line = Level(high: bool) | Wait(ns: nat)

  function LineOf(s: Signal): Line {
    match s
    case Reg(value) => Level(value & PIN != 0)
    case Delay(ns) => Wait(ns)
  }

  function Lines(trace: seq<Signal>): (lines: seq<Line>)
    ensures |lines| == |trace| && forall i :: 0 <= i < |trace| ==> lines[i] == LineOf(trace[i])
  {
    seq(|trace|, i requires 0 <= i < |trace| => LineOf(trace[i]))
  }

  function BitLines(bit: bool): seq<Line> {
    if bit then [Level(true), Wait(400), Level(false), Wait(800)]
    else [Level(true), Level(true), Level(false), Wait(500)]
  }

  function DecodeBit(lines: seq<Line>): Option<bool> {
    if lines == BitLines(true) then Some(true)
    else if lines == BitLines(false) then Some(false)
    else None
  }

  /** Reads the bits off the wire, four line events each. */
  function Decode(lines: seq<Line>): Option<seq<bool>> {
    if lines == [] then Some([])
    else if |lines| < 4 then None
    else
      match (Decode(lines[..|lines| - 4]), DecodeBit(lines[|lines| - 4..]))
      case (Some(bits), Some(bit)) => Some(bits + [bit])
      case _ => None
  }

  lemma PinLevels(val: bv32)
    ensures High(val) & PIN != 0 && Low(val) & PIN == 0
    ensures (High(val) ^ val) & !PIN == 0 && (Low(val) ^ val) & !PIN == 0
  {
  }

  lemma BitOnTheLine(val: bv32, bit: bool)
    ensures Lines(BitSignals(val, bit)) == BitLines(bit)
  {
    PinLevels(val);
  }

  /** The line events of a run of bits. */
  function Wire(bits: seq<bool>): seq<Line> {
    if bits == [] then [] else Wire(bits[..|bits| - 1]) + BitLines(bits[|bits| - 1])
  }

  lemma {:induction false} SignalsOnTheLine(val: bv32, bits: seq<bool>)
    ensures Lines(Signals(val, bits)) == Wire(bits)
  {
    if bits != [] {
      SignalsOnTheLine(val, bits[..|bits| - 1]);
      LinesJoin(Signals(val, bits[..|bits| - 1]), BitSignals(val, bits[|bits| - 1]));
      BitOnTheLine(val, bits[|bits| - 1]);
    }
  }

  lemma LinesJoin(a: seq<Signal>, b: seq<Signal>)
    ensures Lines(a + b) == Lines(a) + Lines(b)
  {
  }

  lemma OneMoreDecoded(before: seq<Line>, bit: bool, all: seq<Line>)
    requires Decode(before).Some? && all == before + BitLines(bit)
    ensures Decode(all) == Some(Decode(before).value + [bit])
  {
    assert all[..|all| - 4] == before && all[|all| - 4..] == BitLines(bit);
    assert BitLines(true)[1] != BitLines(false)[1];
  }

  lemma {:induction false} WireRoundTrip(bits: seq<bool>)
    ensures Decode(Wire(bits)) == Some(bits)
  {
    if bits != [] {
      var init, last := bits[..|bits| - 1], bits[|bits| - 1];
      assert init + [last] == bits;
      WireRoundTrip(init);
      OneMoreDecoded(Wire(init), last, Wire(bits));
    }
  }

  lemma OneMoreBitOnWire(bits: seq<bool>, bit: bool)
    ensures Wire(bits + [bit]) == Wire(bits) + BitLines(bit)
  {
    assert (bits + [bit])[..|bits|] == bits;
  }

  lemma {:induction false} OnlyWiresDecode(lines: seq<Line>)
    requires Decode(lines).Some?
    ensures lines == Wire(Decode(lines).value)
  {
    if lines != [] {
      var before, one := lines[..|lines| - 4], lines[|lines| - 4..];
      OnlyWiresDecode(before);
      var bit := DecodeBit(one).value;
      assert one == BitLines(bit);
      OneMoreBitOnWire(Decode(before).value, bit);
      assert lines == before + one;
    }
  }

  /** The trace is uniquely decodable: whatever the other register bits are, the
      pin's levels and the delays give the bits back. */
  lemma TraceRoundTrip(val: bv32, bits: seq<bool>)
    ensures Decode(Lines(Signals(val, bits))) == Some(bits)
  {
    SignalsOnTheLine(val, bits);
    WireRoundTrip(bits);
  }

  /** The register writes of a trace are all `High(val)` or `Low(val)`. */
  predicate DrivenFrom(val: bv32, trace: seq<Signal>) {
    forall i :: 0 <= i < |trace| && trace[i].Reg? ==> trace[i].value == High(val) || trace[i].value == Low(val)
  }

  lemma {:induction false} SignalsDriven(val: bv32, bits: seq<bool>)
    ensures DrivenFrom(val, Signals(val, bits))
  {
    if bits != [] {
      SignalsDriven(val, bits[..|bits| - 1]);
    }
  }

  /** With the other register bits fixed, the line determines the trace. */
  lemma LineDetermines(val: bv32, a: seq<Signal>, b: seq<Signal>)
    requires DrivenFrom(val, a) && DrivenFrom(val, b) && Lines(a) == Lines(b)
    ensures a == b
  {
    forall i | 0 <= i < |a| ensures a[i] == b[i] {
      assert LineOf(a[i]) == Lines(a)[i] == LineOf(b[i]);
      PinLevels(val);
    }
  }

  /** The decoder accepts nothing but what the encoder sends. */
  lemma OnlyEncodedTracesDecode(val: bv32, trace: seq<Signal>)
    requires DrivenFrom(val, trace) && Decode(Lines(trace)).Some?
    ensures trace == Signals(val, Decode(Lines(trace)).value)
  {
    var bits := Decode(Lines(trace)).value;
    OnlyWiresDecode(Lines(trace));
    SignalsOnTheLine(val, bits);
    SignalsDriven(val, bits);
    LineDetermines(val, trace, Signals(val, bits));
  }

  predicate OnlyPinDiffers(val: bv32, s: Signal) {
    s.Reg? ==> (s.value ^ val) & !PIN == 0
  }

  predicate OnlyPinMoves(val: bv32, trace: seq<Signal>) {
    forall i :: 0 <= i < |trace| ==> OnlyPinDiffers(val, trace[i])
  }

  predicate EndsLow(trace: seq<Signal>) {
    |trace| >= 2 && LineOf(trace[|trace| - 2]) == Level(false) && trace[|trace| - 1].Delay?
  }

  lemma OneBitMovesThePin(val: bv32, bit: bool)
    ensures OnlyPinMoves(val, BitSignals(val, bit)) && EndsLow(BitSignals(val, bit))
  {
    PinLevels(val);
    var one := BitSignals(val, bit);
    assert OnlyPinDiffers(val, Reg(High(val))) && OnlyPinDiffers(val, Reg(Low(val)));
    forall i | 0 <= i < |one| ensures OnlyPinDiffers(val, one[i]) {
      assert one[i] in {Reg(High(val)), Reg(Low(val))} || one[i].Delay?;
    }
    assert one[|one| - 2] == Reg(Low(val));
  }

  lemma JoinedTraces(val: bv32, a: seq<Signal>, b: seq<Signal>)
    requires OnlyPinMoves(val, a) && OnlyPinMoves(val, b) && EndsLow(b)
    ensures OnlyPinMoves(val, a + b) && EndsLow(a + b)
  {
  }

  /** Every register write leaves all bits but the pin's as they are in
      `val_data`, and the line ends low, held for a delay. */
  lemma {:induction false} OnlyThePinMoves(val: bv32, bits: seq<bool>)
    ensures OnlyPinMoves(val, Signals(val, bits))
    ensures bits != [] ==> EndsLow(Signals(val, bits))
  {
    if bits != [] {
      OnlyThePinMoves(val, bits[..|bits| - 1]);
      OneBitMovesThePin(val, bits[|bits| - 1]);
      JoinedTraces(val, Signals(val, bits[..|bits| - 1]), BitSignals(val, bits[|bits| - 1]));
    }
  }

  // ----- From the line back to the picture -----

  lemma {:induction false} FlatRows(p: Picture, n: nat)
    requires n <= LEDS
    ensures CellBits(Joined(Rows(BIT_BANG, p), n)) == PictureBits(p, n)
  {
    if n > 0 {
      FlatRows(p, n - 1);
      CellBitsJoin(Joined(Rows(BIT_BANG, p), n - 1), Row(BIT_BANG, p[n - 1]));
      assert CellBits(Row(BIT_BANG, p[n - 1])) == ColourBits(p[n - 1]);
    }
  }

  lemma CellBitsJoin(a: seq<int>, b: seq<int>)
    ensures CellBits(a + b) == CellBits(a) + CellBits(b)
  {
  }

  /** The signals of the first `n` cells of a row. */
  function RowSignals(val: bv32, row: seq<int>, n: nat): seq<Signal>
    requires n <= |row|
  {
    if n == 0 then [] else RowSignals(val, row, n - 1) + BitSignals(val, row[n - 1] == 1)
  }

  /** The trace of one transfer of a frame, row after row. */
  function FrameSignals(val: bv32, rows: seq<seq<int>>, n: nat): seq<Signal>
    requires n <= |rows|
  {
    if n == 0 then [] else FrameSignals(val, rows, n - 1) + RowSignals(val, rows[n - 1], |rows[n - 1]|)
  }

  lemma RowGrows(val: bv32, row: seq<int>, n: nat)
    requires n < |row|
    ensures RowSignals(val, row, n + 1) == RowSignals(val, row, n) + BitSignals(val, row[n] == 1)
  {
  }

  lemma FrameGrows(val: bv32, rows: seq<seq<int>>, n: nat)
    requires n < |rows|
    ensures FrameSignals(val, rows, n + 1) == FrameSignals(val, rows, n) + RowSignals(val, rows[n], |rows[n]|)
  {
  }

  lemma {:induction false} RowSignalsAre(val: bv32, row: seq<int>, n: nat)
    requires n <= |row|
    ensures RowSignals(val, row, n) == Signals(val, CellBits(row)[..n])
  {
    if n > 0 {
      RowSignalsAre(val, row, n - 1);
      assert CellBits(row)[..n][..n - 1] == CellBits(row)[..n - 1];
    }
  }

  lemma {:induction false} SignalsJoin(val: bv32, a: seq<bool>, b: seq<bool>)
    ensures Signals(val, a + b) == Signals(val, a) + Signals(val, b)
  {
    if b == [] {
      assert a + b == a;
    } else {
      var init, last := b[..|b| - 1], BitSignals(val, b[|b| - 1]);
      SignalsJoin(val, a, init);
      assert (a + b)[..|a + b| - 1] == a + init;
      Associative(Signals(val, a), Signals(val, init), last);
    }
  }

  lemma Associative(a: seq<Signal>, b: seq<Signal>, c: seq<Signal>)
    ensures a + (b + c) == (a + b) + c
  {
  }

  /** The rows' signals are the signals of all their cells in one sequence. */
  lemma {:induction false} FrameSignalsAre(val: bv32, rows: seq<seq<int>>, n: nat)
    requires n <= |rows|
    ensures FrameSignals(val, rows, n) == Signals(val, CellBits(Joined(rows, n)))
  {
    if n > 0 {
      FrameSignalsAre(val, rows, n - 1);
      RowBehind(val, Joined(rows, n - 1), rows[n - 1], FrameSignals(val, rows, n - 1));
    }
  }

  lemma RowBehind(val: bv32, cells: seq<int>, row: seq<int>, before: seq<Signal>)
    requires before == Signals(val, CellBits(cells))
    ensures before + RowSignals(val, row, |row|) == Signals(val, CellBits(cells + row))
  {
    CellBitsJoin(cells, row);
    SignalsJoin(val, CellBits(cells), CellBits(row));
    RowSignalsAre(val, row, |row|);
    assert CellBits(row)[..|row|] == CellBits(row);
  }

  /** From the colours through the arrays, the register writes and the line back:
      the strip shows every colour written, mod 256. */
  lemma {:induction false} LineShowsThePicture(val: bv32, p: Picture)
    ensures var r := Decode(Lines(FrameSignals(val, Rows(BIT_BANG, p), LEDS)));
            r.Some? && |r.value| == LEDS * PER_LED
            && forall n :: 0 <= n < LEDS ==> DecodePicture(r.value)[n] == Shown(p[n])
  {
    FrameSignalsAre(val, Rows(BIT_BANG, p), LEDS);
    FlatRows(p, LEDS);
    TraceRoundTrip(val, PictureBits(p, LEDS));
    PictureDecodes(p);
  }

  /** How many signals a whole frame takes: four for each of its cells. */
  const FRAME_SIGNALS: int := 1536

  lemma {:induction false} RowLength(val: bv32, row: seq<int>, n: nat)
    requires n <= |row|
    ensures |RowSignals(val, row, n)| == 4 * n
  {
    if n > 0 {
      RowLength(val, row, n - 1);
    }
  }

  lemma {:induction false} FrameLength(val: bv32, rows: seq<seq<int>>, n: nat)
    requires n <= |rows| && forall k :: 0 <= k < |rows| ==> |rows[k]| == PER_LED
    ensures |FrameSignals(val, rows, n)| == 4 * PER_LED * n
  {
    if n > 0 {
      FrameLength(val, rows, n - 1);
      FrameGrows(val, rows, n - 1);
      RowLength(val, rows[n - 1], PER_LED);
    }
  }

  /** The whole frame of a picture. */
  function Transfer(val: bv32, p: Picture): seq<Signal> {
    FrameSignals(val, Rows(BIT_BANG, p), LEDS)
  }

  lemma TransferLength(val: bv32, p: Picture)
    ensures |Transfer(val, p)| == FRAME_SIGNALS
  {
    FrameLength(val, Rows(BIT_BANG, p), LEDS);
  }

  /** The first `n` frames sent. */
  function Transfers(val: bv32, frames: seq<Picture>, n: nat): seq<Signal>
    requires n <= |frames|
  {
    if n == 0 then [] else Transfers(val, frames, n - 1) + Transfer(val, frames[n - 1])
  }

  lemma {:induction false} TransfersKept(val: bv32, frames: seq<Picture>, p: Picture, n: nat)
    requires n <= |frames|
    ensures Transfers(val, frames + [p], n) == Transfers(val, frames, n)
  {
    if n > 0 {
      TransfersKept(val, frames, p, n - 1);
      assert (frames + [p])[n - 1] == frames[n - 1];
    }
  }

  lemma OneMoreTransfer(val: bv32, frames: seq<Picture>, p: Picture)
    ensures Transfers(val, frames + [p], |frames| + 1) == Transfers(val, frames, |frames|) + Transfer(val, p)
  {
    TransfersKept(val, frames, p, |frames|);
  }

  /** The last frame of this part of the line decodes to the picture, mod 256. */
  predicate StripShows(trace: seq<Signal>, p: Picture) {
    |trace| >= FRAME_SIGNALS &&
    var r := Decode(Lines(trace[|trace| - FRAME_SIGNALS..]));
    && r.Some? && |r.value| == LEDS * PER_LED
    && forall n :: 0 <= n < LEDS ==> DecodePicture(r.value)[n] == Shown(p[n])
  }

  lemma TransferShows(before: seq<Signal>, val: bv32, p: Picture)
    ensures StripShows(before + Transfer(val, p), p)
  {
    var frame := Transfer(val, p);
    TransferLength(val, p);
    LineShowsThePicture(val, p);
    assert (before + frame)[|before|..] == frame;
  }

  lemma LengthOfBoth(a: seq<Signal>, b: seq<Signal>)
    ensures |a + b| == |a| + |b|
  {
  }

  lemma {:induction false} TransfersLength(val: bv32, frames: seq<Picture>, n: nat)
    requires n <= |frames|
    ensures |Transfers(val, frames, n)| == FRAME_SIGNALS * n
  {
    if n > 0 {
      TransfersLength(val, frames, n - 1);
      TransferLength(val, frames[n - 1]);
      LengthOfBoth(Transfers(val, frames, n - 1), Transfer(val, frames[n - 1]));
    }
  }

  lemma PrefixOfLonger(a: seq<Signal>, b: seq<Signal>, c: seq<Signal>)
    requires a <= b
    ensures a <= b + c
  {
  }

  lemma {:induction false} TransfersPrefix(val: bv32, frames: seq<Picture>, k: nat, n: nat)
    requires k <= n <= |frames|
    ensures Transfers(val, frames, k) <= Transfers(val, frames, n)
    decreases n
  {
    if k < n {
      TransfersPrefix(val, frames, k, n - 1);
      PrefixOfLonger(Transfers(val, frames, k), Transfers(val, frames, n - 1), Transfer(val, frames[n - 1]));
    }
  }

  lemma ShowsInLonger(trace: seq<Signal>, longer: seq<Signal>, k: nat, p: Picture)
    requires trace <= longer && |trace| == k && StripShows(trace, p)
    ensures StripShows(longer[..k], p)
  {
    assert longer[..k] == trace;
  }

  /** After each transfer the strip shows what was meant. */
  lemma EveryFrameShows(val: bv32, frames: seq<Picture>, k: nat)
    requires 0 < k <= |frames|
    ensures var trace := Transfers(val, frames, |frames|);
            FRAME_SIGNALS * k <= |trace| && StripShows(trace[..FRAME_SIGNALS * k], frames[k - 1])
  {
    TransfersPrefix(val, frames, k, |frames|);
    TransfersLength(val, frames, k);
    TransferShows(Transfers(val, frames, k - 1), val, frames[k - 1]);
    ShowsInLonger(Transfers(val, frames, k), Transfers(val, frames, |frames|), FRAME_SIGNALS * k, frames[k - 1]);
  }

  // ----- The driver -----

  class Driver {
    const strip: Strip
    const valData: bv32
    ghost var picture: Picture
    ghost var frames: seq<Picture>
    var trace: seq<Signal>

    ghost predicate Valid()
      reads this, strip, strip.frame
    {
      && strip.Valid() && strip.code == BIT_BANG && strip.rows == Rows(BIT_BANG, picture)
      && trace == Transfers(valData, frames, |frames|)
    }

    constructor (valData: bv32)
      ensures Valid() && picture == Dark() && frames == [] && this.valData == valData
      ensures fresh(strip) && fresh(strip.frame) && fresh(strip.single)
    {
      this.valData := valData;
      strip := new Strip(BIT_BANG);
      picture, frames, trace := Dark(), [], [];
      BlackRow();
    }

    method Out(s: Signal)
      modifies `trace
      ensures trace == old(trace) + [s]
    {
      trace := trace + [s];
    }

    /** `send_bit_1_ndelay`. */
    method SendOne()
      modifies `trace
      ensures trace == old(trace) + BitSignals(valData, true)
    {
      Out(Reg(High(valData)));
      Out(Delay(400));
      Out(Reg(Low(valData)));
      Out(Delay(800));
    }

    /** `send_bit_0_ndelay`. */
    method SendZero()
      modifies `trace
      ensures trace == old(trace) + BitSignals(valData, false)
    {
      Out(Reg(High(valData)));
      Out(Reg(High(valData)));
      Out(Reg(Low(valData)));
      Out(Delay(500));
    }

    /** One cell: anything but 1 is sent as a 0. */
    method SendCell(cell: int)
      modifies `trace
      ensures trace == old(trace) + BitSignals(valData, cell == 1)
    {
      if cell == 1 {
        SendOne();
      } else {
        SendZero();
      }
    }

    /** The inner loop of `write_to_registers`. */
    method WriteRow(led: int)
      requires strip.Valid() && 0 <= led < LEDS
      modifies `trace
      ensures trace == old(trace) + RowSignals(valData, strip.rows[led], |strip.rows[led]|)
    {
      var bit := 0;
      while bit < PER_LED
        invariant 0 <= bit <= PER_LED
        invariant trace == old(trace) + RowSignals(valData, strip.rows[led], bit)
      {
        assert strip.frame[led, bit] == strip.rows[led][bit];
        SendCell(strip.frame[led, bit]);
        RowGrows(valData, strip.rows[led], bit);
        bit := bit + 1;
      }
    }

    /** `write_to_registers`. */
    method WriteToRegisters()
      requires strip.Valid()
      modifies `trace
      ensures trace == old(trace) + FrameSignals(valData, strip.rows, LEDS)
    {
      var led := 0;
      while led < LEDS
        invariant 0 <= led <= LEDS
        invariant trace == old(trace) + FrameSignals(valData, strip.rows, led)
      {
        WriteRow(led);
        FrameGrows(valData, strip.rows, led);
        Associative(old(trace), FrameSignals(valData, strip.rows, led), RowSignals(valData, strip.rows[led], PER_LED));
        led := led + 1;
      }
    }

    /** Transmits the picture the frame holds. */
    method Transmit()
      requires strip.Valid() && strip.rows == Rows(BIT_BANG, picture)
      requires trace == Transfers(valData, frames, |frames|)
      modifies `trace, `frames
      ensures frames == old(frames) + [picture] && trace == Transfers(valData, frames, |frames|)
    {
      WriteToRegisters();
      OneMoreTransfer(valData, frames, picture);
      frames := frames + [picture];
    }

    /** `ws_write`: the new picture goes out as one more frame. */
    method Write(n: int, red: int, green: int, blue: int)
      requires Valid() && 0 <= n < LEDS
      modifies this, strip, strip.frame, strip.single
      ensures Valid() && picture == Paint(old(picture), SetLed(n, Colour(green, red, blue)))
      ensures frames == old(frames) + [picture]
    {
      strip.SetLedRgb(n, red, green, blue);
      picture := Paint(picture, SetLed(n, Colour(green, red, blue)));
      assert strip.rows == Rows(BIT_BANG, picture);
      Transmit();
    }

    /** The RESET ioctl, its LED part. */
    method ResetLeds()
      requires Valid()
      modifies this, strip, strip.frame, strip.single
      ensures Valid() && picture == Paint(old(picture), Reset)
      ensures frames == old(frames) + [picture]
    {
      strip.ResetFrame();
      picture := Dark();
      Transmit();
    }
  }
}
