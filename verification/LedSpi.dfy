/** The SPI WS2812 driver: the same frame in another code, sent as bytes. */
module LedSpi {
  import opened LedFrame
  import opened Wrappers

  /** The bits behind the bytes of a transfer. */
  function ByteBits(bytes: seq<int>): (bits: seq<bool>)
    ensures |bits| == |bytes| && forall i :: 0 <= i < |bytes| ==> bits[i] == (bytes[i] == 0xF0)
  {
    seq(|bytes|, i requires 0 <= i < |bytes| => bytes[i] == 0xF0)
  }

  lemma {:induction false} FlatRows(p: Picture, n: nat)
    requires n <= LEDS
    ensures ByteBits(Joined(Rows(SPI, p), n)) == PictureBits(p, n)
  {
    if n > 0 {
      FlatRows(p, n - 1);
      ByteBitsJoin(Joined(Rows(SPI, p), n - 1), Row(SPI, p[n - 1]));
      assert ByteBits(Row(SPI, p[n - 1])) == ColourBits(p[n - 1]);
    }
  }

  lemma ByteBitsJoin(a: seq<int>, b: seq<int>)
    ensures ByteBits(a + b) == ByteBits(a) + ByteBits(b)
  {
  }

  /** Once a RESET has been seen, every transfer decodes to the colours written
      so far, mod 256. */
  lemma TransferShowsThePicture(ops: seq<Op>)
    requires Reset in ops
    ensures var bits := ByteBits(Joined(RowsAfter(SPI, ops), LEDS));
            |bits| == LEDS * PER_LED
            && forall n :: 0 <= n < LEDS ==> DecodePicture(bits)[n] == Shown(Painted(ops)[n])
  {
    FramesAgreeAfterReset(ops);
    FlatRows(Painted(ops), LEDS);
    PictureDecodes(Painted(ops));
  }

  class Driver {
    const strip: Strip
    ghost var ops: seq<Op>
    ghost var transfers: seq<seq<int>>

    ghost predicate Valid()
      reads this, strip, strip.frame
    {
      strip.Valid() && strip.code == SPI && strip.rows == RowsAfter(SPI, ops)
    }

    constructor ()
      ensures Valid() && ops == [] && transfers == []
      ensures fresh(strip) && fresh(strip.frame) && fresh(strip.single)
    {
      strip := new Strip(SPI);
      ops, transfers := [], [];
    }

    /** `spi_write` or the asynchronous message: the whole array, row by row. */
    method Transfer()
      requires Valid()
      modifies `transfers
      ensures transfers == old(transfers) + [Joined(strip.rows, LEDS)]
    {
      transfers := transfers + [Joined(strip.rows, LEDS)];
    }

    /** `ws_write`. */
    method Write(n: int, red: int, green: int, blue: int)
      requires Valid() && 0 <= n < LEDS
      modifies this, strip, strip.frame, strip.single
      ensures Valid() && ops == old(ops) + [SetLed(n, Colour(green, red, blue))]
      ensures transfers == old(transfers) + [Joined(RowsAfter(SPI, ops), LEDS)]
    {
      strip.SetLedRgb(n, red, green, blue);
      ops := ops + [SetLed(n, Colour(green, red, blue))];
      assert ops[..|ops| - 1] == old(ops);
      Transfer();
    }

    /** The RESET ioctl, its LED part. */
    method ResetLeds()
      requires Valid()
      modifies this, strip, strip.frame, strip.single
      ensures Valid() && ops == old(ops) + [Reset]
      ensures transfers == old(transfers) + [Joined(RowsAfter(SPI, ops), LEDS)]
    {
      strip.ResetFrame();
      ops := ops + [Reset];
      assert ops[..|ops| - 1] == old(ops);
      Transfer();
    }
  }
}
