/** Colours, their 24 cells, and the frame of 16 LEDs that both WS2812 drivers
    keep. The drivers differ only in the cell values for a 1 and a 0. */
module LedFrame {
  import opened Machine

  const LEDS: int := 16
  const PER_LED: int := 24

  datatype Colour = Colour(green: int, red: int, blue: int)

  const BLACK: Colour := Colour(0, 0, 0)

  type Led = n: int | 0 <= n < LEDS

  /** The cell values of a driver: 1 and 0 for bit-banging, 0xF0 and 0xC0 for SPI. */
  datatype Code = Code(one: int, zero: int)

  const BIT_BANG: Code := Code(1, 0)
  const SPI: Code := Code(0xF0, 0xC0)

  function Pow2(n: nat): (p: nat)
    ensures p > 0
  {
    if n == 0 then 1 else 2 * Pow2(n - 1)
  }

  /** `(x >> i) & 1` on a C int: the shift is arithmetic. */
  function Bit(x: int, i: nat): bool {
    (x / Pow2(i)) % 2 == 1
  }

  /** The low eight bits, least significant first. */
  function Byte(x: int): (bits: seq<bool>)
    ensures |bits| == 8 && forall i :: 0 <= i < 8 ==> bits[i] == Bit(x, i)
  {
    seq(8, i requires 0 <= i < 8 => Bit(x, i))
  }

  function Cell(code: Code, bit: bool): int {
    if bit then code.one else code.zero
  }

  function Cells(code: Code, bits: seq<bool>): (cells: seq<int>)
    ensures |cells| == |bits| && forall i :: 0 <= i < |bits| ==> cells[i] == Cell(code, bits[i])
  {
    seq(|bits|, i requires 0 <= i < |bits| => Cell(code, bits[i]))
  }

  /** The bits of one LED in wire order: green, red, blue. */
  function ColourBits(c: Colour): (bits: seq<bool>)
    ensures |bits| == PER_LED
  {
    Byte(c.green) + Byte(c.red) + Byte(c.blue)
  }

  function Row(code: Code, c: Colour): (row: seq<int>)
    ensures |row| == PER_LED
  {
    Cells(code, ColourBits(c))
  }

  // ----- Decoding -----

  function Value(bits: seq<bool>): nat {
    if bits == [] then 0 else (if bits[0] then 1 else 0) + 2 * Value(bits[1..])
  }

  function DecodeColour(bits: seq<bool>): Colour
    requires |bits| == PER_LED
  {
    Colour(Value(bits[..8]), Value(bits[8..16]), Value(bits[16..]))
  }

  /** A colour as the strip can show it. */
  function Shown(c: Colour): Colour {
    Colour(c.green % 256, c.red % 256, c.blue % 256)
  }

  lemma DivMod(x: int, m: int, q: int, r: int)
    requires m > 0 && x == q * m + r && 0 <= r < m
    ensures x / m == q && x % m == r
  {
    var k := q - x / m;
    assert k * m == x % m - r by {
      assert x == (x / m) * m + x % m;
    }
    CancelFactor(-1, k, m);
    CancelFactor(k, 1, m);
  }

  /** Shifting by one and then by the rest is shifting by all of it. */
  lemma HalfThenRest(x: int, p: int)
    requires p > 0
    ensures x / (2 * p) == (x / 2) / p
    ensures x % (2 * p) == x % 2 + 2 * ((x / 2) % p)
  {
    var y := x / 2;
    var q, r := y / p, y % p;
    assert x == q * (2 * p) + (x % 2 + 2 * r) by {
      assert y == q * p + r && x == 2 * y + x % 2;
      assert q * (2 * p) == 2 * (q * p);
    }
    DivMod(x, 2 * p, q, x % 2 + 2 * r);
  }

  lemma {:induction false} ValueOfBits(x: int, bits: seq<bool>)
    requires forall i :: 0 <= i < |bits| ==> bits[i] == Bit(x, i)
    ensures Value(bits) == x % Pow2(|bits|)
    decreases |bits|
  {
    if bits != [] {
      forall i | 0 <= i < |bits| - 1 ensures bits[1..][i] == Bit(x / 2, i) {
        HalfThenRest(x, Pow2(i));
        assert bits[i + 1] == Bit(x, i + 1);
      }
      ValueOfBits(x / 2, bits[1..]);
      HalfThenRest(x, Pow2(|bits| - 1));
      assert bits[0] == Bit(x, 0);
    }
  }

  lemma ByteValue(x: int)
    ensures Value(Byte(x)) == x % 256
  {
    ValueOfBits(x, Byte(x));
    assert Pow2(8) == 2 * Pow2(7) == 4 * Pow2(6) == 8 * Pow2(5) == 16 * Pow2(4) == 256;
  }

  /** For every int, negative ones included, the 24 bits of a colour decode to
      its three intensities mod 256. */
  lemma ColourRoundTrip(c: Colour)
    ensures DecodeColour(ColourBits(c)) == Shown(c)
  {
    var bits := ColourBits(c);
    assert bits[..8] == Byte(c.green) && bits[8..16] == Byte(c.red) && bits[16..] == Byte(c.blue);
    ByteValue(c.green);
    ByteValue(c.red);
    ByteValue(c.blue);
  }

  // ----- Frames -----

  /** The 16 colours a strip is meant to show. */
  type Picture = p: seq<Colour> | |p| == LEDS witness seq(16, _ => BLACK)

  function Dark(): Picture {
    seq(LEDS, _ => BLACK)
  }

  function Rows(code: Code, p: Picture): seq<seq<int>> {
    seq(LEDS, n requires 0 <= n < LEDS => Row(code, p[n]))
  }

  datatype Op = SetLed(n: Led, c: Colour) | Reset

  function Paint(p: Picture, op: Op): Picture {
    match op
    case SetLed(n, c) => p[n := c]
    case Reset => Dark()
  }

  function Painted(ops: seq<Op>): Picture {
    if ops == [] then Dark() else Paint(Painted(ops[..|ops| - 1]), ops[|ops| - 1])
  }

  /** The static array before any call. */
  function BlankRows(): seq<seq<int>> {
    seq(LEDS, _ => seq(PER_LED, _ => 0))
  }

  function PaintRows(code: Code, rows: seq<seq<int>>, op: Op): (r: seq<seq<int>>)
    requires |rows| == LEDS
    ensures |r| == LEDS
  {
    match op
    case SetLed(n, c) => rows[n := Row(code, c)]
    case Reset => Rows(code, Dark())
  }

  function RowsAfter(code: Code, ops: seq<Op>): (r: seq<seq<int>>)
    ensures |r| == LEDS
  {
    if ops == [] then BlankRows() else PaintRows(code, RowsAfter(code, ops[..|ops| - 1]), ops[|ops| - 1])
  }

  predicate Touched(ops: seq<Op>, n: Led) {
    exists i :: 0 <= i < |ops| && (ops[i] == Reset || (ops[i].SetLed? && ops[i].n == n))
  }

  /** A write changes only its own LED; an LED written or reset before shows its
      latest colour in either code; one never touched has cells of value 0. */
  lemma {:induction false} RowsShowPicture(code: Code, ops: seq<Op>, n: Led)
    ensures RowsAfter(code, ops)[n] == if Touched(ops, n) then Row(code, Painted(ops)[n]) else BlankRows()[n]
  {
    if ops != [] {
      var init, op := ops[..|ops| - 1], ops[|ops| - 1];
      RowsShowPicture(code, init, n);
      if Touched(init, n) {
        var i :| 0 <= i < |init| && (init[i] == Reset || (init[i].SetLed? && init[i].n == n));
        assert ops[i] == init[i];
      }
      if Touched(ops, n) && !(op == Reset || (op.SetLed? && op.n == n)) {
        var i :| 0 <= i < |ops| && (ops[i] == Reset || (ops[i].SetLed? && ops[i].n == n));
        assert init[i] == ops[i];
      }
      if op == Reset || (op.SetLed? && op.n == n) {
        assert Touched(ops, n);
      }
    }
  }

  /** An SPI row carries the same bits as a bit-bang row: 0xF0 for 1, 0xC0 for 0. */
  predicate SameBits(spi: seq<int>, bang: seq<int>) {
    && |spi| == |bang|
    && forall i :: 0 <= i < |spi| ==> spi[i] == if bang[i] == 1 then 0xF0 else 0xC0
  }

  lemma RowsSameBits(c: Colour)
    ensures SameBits(Row(SPI, c), Row(BIT_BANG, c))
  {
  }

  /** Under any common sequence of writes and resets since power-up, the two
      frames agree on an LED exactly when it was written or reset. */
  lemma FramesAgreeIff(ops: seq<Op>, n: Led)
    ensures SameBits(RowsAfter(SPI, ops)[n], RowsAfter(BIT_BANG, ops)[n]) <==> Touched(ops, n)
  {
    RowsShowPicture(SPI, ops, n);
    RowsShowPicture(BIT_BANG, ops, n);
    if Touched(ops, n) {
      RowsSameBits(Painted(ops)[n]);
    } else {
      assert RowsAfter(SPI, ops)[n][0] == 0;
    }
  }

  /** After a first RESET the two frames agree on every LED for good, and both
      represent the same picture. */
  lemma {:induction false} FramesAgreeAfterReset(ops: seq<Op>)
    requires Reset in ops
    ensures forall n: Led :: SameBits(RowsAfter(SPI, ops)[n], RowsAfter(BIT_BANG, ops)[n])
    ensures RowsAfter(SPI, ops) == Rows(SPI, Painted(ops))
    ensures RowsAfter(BIT_BANG, ops) == Rows(BIT_BANG, Painted(ops))
  {
    var i :| 0 <= i < |ops| && ops[i] == Reset;
    forall n: Led ensures Touched(ops, n) {
      assert ops[i] == Reset;
    }
    forall n: Led
      ensures SameBits(RowsAfter(SPI, ops)[n], RowsAfter(BIT_BANG, ops)[n])
      ensures RowsAfter(SPI, ops)[n] == Row(SPI, Painted(ops)[n])
      ensures RowsAfter(BIT_BANG, ops)[n] == Row(BIT_BANG, Painted(ops)[n])
    {
      FramesAgreeIff(ops, n);
      RowsShowPicture(SPI, ops, n);
      RowsShowPicture(BIT_BANG, ops, n);
    }
  }

  /** The bit-bang frame starts as a dark picture, so it never needs the reset. */
  lemma {:induction false} BitBangAlwaysShows(ops: seq<Op>)
    ensures RowsAfter(BIT_BANG, ops) == Rows(BIT_BANG, Painted(ops))
  {
    if ops == [] {
      BlackRow();
    } else {
      BitBangAlwaysShows(ops[..|ops| - 1]);
    }
  }

  lemma BlackRow()
    ensures Row(BIT_BANG, BLACK) == seq(PER_LED, _ => 0)
  {
    forall i: nat | i < 8 ensures !Bit(0, i) {
      assert 0 / Pow2(i) == 0;
    }
  }

  // ----- Shifting a picture through the strip -----

  function PictureBits(p: Picture, n: nat): (bits: seq<bool>)
    requires n <= LEDS
    ensures |bits| == n * PER_LED
  {
    if n == 0 then [] else PictureBits(p, n - 1) + ColourBits(p[n - 1])
  }

  /** What 16 LEDs show when the bits are shifted through them. */
  function DecodePicture(bits: seq<bool>): seq<Colour>
    requires |bits| == LEDS * PER_LED
  {
    seq(LEDS, n requires 0 <= n < LEDS => DecodeColour(bits[n * PER_LED..(n + 1) * PER_LED]))
  }

  lemma {:induction false} PictureSlice(p: Picture, n: nat, m: nat)
    requires m < n <= LEDS
    ensures PictureBits(p, n)[m * PER_LED..(m + 1) * PER_LED] == ColourBits(p[m])
  {
    var before, last := PictureBits(p, n - 1), ColourBits(p[n - 1]);
    if m < n - 1 {
      PictureSlice(p, n - 1, m);
      assert (m + 1) * PER_LED <= |before|;
      assert (before + last)[m * PER_LED..(m + 1) * PER_LED] == before[m * PER_LED..(m + 1) * PER_LED];
    } else {
      assert |before| == m * PER_LED && |before + last| == (m + 1) * PER_LED;
      assert (before + last)[|before|..|before + last|] == last;
    }
  }

  /** The strip shows a whole picture, each intensity mod 256. */
  lemma PictureDecodes(p: Picture)
    ensures forall n :: 0 <= n < LEDS ==> DecodePicture(PictureBits(p, LEDS))[n] == Shown(p[n])
  {
    forall n | 0 <= n < LEDS ensures DecodePicture(PictureBits(p, LEDS))[n] == Shown(p[n]) {
      PictureSlice(p, LEDS, n);
      ColourRoundTrip(p[n]);
    }
  }

  // ----- The arrays -----

  class Strip {
    const code: Code
    const frame: array2<int>
    const single: array<int>
    ghost var rows: seq<seq<int>>

    ghost predicate Valid()
      reads this, frame
    {
      && frame.Length0 == LEDS && frame.Length1 == PER_LED && single.Length == PER_LED
      && |rows| == LEDS && (forall n :: 0 <= n < LEDS ==> |rows[n]| == PER_LED)
      && forall n, j :: 0 <= n < LEDS && 0 <= j < PER_LED ==> frame[n, j] == rows[n][j]
    }

    constructor (code: Code)
      ensures Valid() && fresh(frame) && fresh(single) && this.code == code
      ensures rows == BlankRows()
    {
      this.code := code;
      frame := new int[LEDS, PER_LED]((_, _) => 0);
      single := new int[PER_LED](_ => 0);
      rows := BlankRows();
    }

    /** One of the three loops of `set_color`. */
    method SetChannel(first: int, x: int)
      requires single.Length == PER_LED && 0 <= first <= 16
      modifies single
      ensures single[..] == old(single[..first]) + Cells(code, Byte(x)) + old(single[first + 8..])
    {
      var index := first;
      while index < first + 8
        invariant first <= index <= first + 8
        invariant forall j :: first <= j < index ==> single[j] == Cell(code, Bit(x, j - first))
        invariant forall j :: 0 <= j < PER_LED && !(first <= j < index) ==> single[j] == old(single[j])
      {
        if (x / Pow2(index - first)) % 2 == 1 {
          single[index] := code.one;
        } else {
          single[index] := code.zero;
        }
        index := index + 1;
      }
    }

    /** `set_color`. */
    method SetColor(green: int, red: int, blue: int)
      requires single.Length == PER_LED
      modifies single
      ensures single[..] == Row(code, Colour(green, red, blue))
    {
      SetChannel(0, green);
      SetChannel(8, red);
      SetChannel(16, blue);
    }

    /** Copies the single LED's cells into one row. */
    method CopyRow(n: int)
      requires Valid() && 0 <= n < LEDS
      modifies `rows, frame
      ensures Valid() && rows == old(rows)[n := single[..]]
    {
      var index := 0;
      while index < PER_LED
        invariant 0 <= index <= PER_LED
        invariant forall j :: 0 <= j < index ==> frame[n, j] == single[j]
        invariant forall m, j :: 0 <= m < LEDS && 0 <= j < PER_LED && m != n ==> frame[m, j] == rows[m][j]
        modifies frame
      {
        frame[n, index] := single[index];
        index := index + 1;
      }
      rows := rows[n := single[..]];
    }

    /** `set_led_rgb`. The caller keeps the LED number within the array. */
    method SetLedRgb(n: int, red: int, green: int, blue: int)
      requires Valid() && 0 <= n < LEDS
      modifies `rows, frame, single
      ensures Valid() && rows == PaintRows(code, old(rows), SetLed(n, Colour(green, red, blue)))
    {
      SetColor(green, red, blue);
      CopyRow(n);
    }

    /** The frame part of `reset_leds`. */
    method ResetFrame()
      requires Valid()
      modifies `rows, frame, single
      ensures Valid() && rows == PaintRows(code, old(rows), Reset)
    {
      SetColor(0, 0, 0);
      var row := 0;
      while row < LEDS
        invariant 0 <= row <= LEDS && Valid() && single[..] == Row(code, BLACK)
        invariant forall n :: 0 <= n < row ==> rows[n] == Row(code, BLACK)
      {
        CopyRow(row);
        row := row + 1;
      }
      assert rows == Rows(code, Dark());
    }
  }
}
