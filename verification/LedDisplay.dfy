/** The rotating display program on top of the bit-bang driver. */
module LedDisplay {
  import opened LedFrame
  import opened Machine
  import opened LedBitBang

  /** How far LED `n` lies behind the first lit LED of step `i`. */
  function Offset(n: int, i: int): int {
    (n - i) % LEDS
  }

  /** Step `i` of the rotation: LED (i + k) % 16 shows colour k, all others are off. */
  function Rotated(colours: seq<Colour>, i: int): Picture {
    seq(LEDS, n requires 0 <= n < LEDS => if Offset(n, i) < |colours| then colours[Offset(n, i)] else BLACK)
  }

  lemma OffsetIs(n: int, i: int, k: int)
    requires 0 <= n < LEDS && 0 <= k < LEDS
    ensures Offset(n, i) == k <==> n == (i + k) % LEDS
  {
  }

  /** LED (i + k) % 16 of the rotated picture shows colour k. */
  lemma RotatedShows(colours: seq<Colour>, i: int, k: int)
    requires 0 <= k < |colours| <= LEDS
    ensures Rotated(colours, i)[(i + k) % LEDS] == colours[k]
  {
    OffsetIs((i + k) % LEDS, i, k);
  }

  lemma OffsetPeriod(n: int, i: int, rounds: int)
    ensures Offset(n, i + rounds * LEDS) == Offset(n, i)
  {
    DivMod(n - i - rounds * LEDS, LEDS, (n - i) / LEDS - rounds, (n - i) % LEDS);
  }

  /** The same picture comes round every 16 steps. */
  lemma RotationPeriod(colours: seq<Colour>, i: int, rounds: int)
    ensures Rotated(colours, i + rounds * LEDS) == Rotated(colours, i)
  {
    forall n | 0 <= n < LEDS
      ensures Rotated(colours, i + rounds * LEDS)[n] == Rotated(colours, i)[n]
    {
      OffsetPeriod(n, i, rounds);
    }
  }

  lemma LitAt(colours: seq<Colour>, index: nat, k: nat, n: Led)
    requires k < |colours| <= LEDS
    ensures Rotated(colours[..k + 1], index)[n]
         == if n == (index + k) % LEDS then colours[k] else Rotated(colours[..k], index)[n]
  {
    OffsetIs(n, index, k);
  }

  lemma OneMoreLit(colours: seq<Colour>, index: nat, k: nat)
    requires k < |colours| <= LEDS
    ensures Paint(Rotated(colours[..k], index), SetLed((index + k) % LEDS, colours[k]))
         == Rotated(colours[..k + 1], index)
  {
    var lit := Paint(Rotated(colours[..k], index), SetLed((index + k) % LEDS, colours[k]));
    forall n | 0 <= n < LEDS ensures lit[n] == Rotated(colours[..k + 1], index)[n] {
      LitAt(colours, index, k, n);
    }
  }

  /** What is still lit after the off-loop has darkened the first `t` offsets. */
  function Fading(colours: seq<Colour>, i: int, t: int): Picture {
    seq(LEDS, n requires 0 <= n < LEDS =>
      if t <= Offset(n, i) < |colours| then colours[Offset(n, i)] else BLACK)
  }

  lemma OneMoreDark(colours: seq<Colour>, index: nat, k: nat)
    requires k < |colours| <= LEDS
    ensures Paint(Fading(colours, index, k), SetLed((index + k) % LEDS, BLACK)) == Fading(colours, index, k + 1)
  {
    var dark := Paint(Fading(colours, index, k), SetLed((index + k) % LEDS, BLACK));
    forall n | 0 <= n < LEDS ensures dark[n] == Fading(colours, index, k + 1)[n] {
      OffsetIs(n, index, k);
    }
  }

  /** Frames were added, and the last one is `p`. */
  predicate Latest(before: seq<Picture>, frames: seq<Picture>, p: Picture) {
    before < frames && frames[|frames| - 1] == p
  }

  method LightOne(driver: Driver, colours: seq<Colour>, index: nat, k: nat)
    requires driver.Valid() && k < |colours| <= LEDS && driver.picture == Rotated(colours[..k], index)
    modifies driver, driver.strip, driver.strip.frame, driver.strip.single
    ensures driver.Valid() && driver.picture == Rotated(colours[..k + 1], index)
    ensures driver.frames == old(driver.frames) + [driver.picture]
  {
    var c := colours[k];
    OneMoreLit(colours, index, k);
    driver.Write((index + k) % LEDS, c.red, c.green, c.blue);
  }

  method DarkenOne(driver: Driver, colours: seq<Colour>, index: nat, k: nat)
    requires driver.Valid() && k < |colours| <= LEDS && driver.picture == Fading(colours, index, k)
    modifies driver, driver.strip, driver.strip.frame, driver.strip.single
    ensures driver.Valid() && driver.picture == Fading(colours, index, k + 1)
    ensures driver.frames == old(driver.frames) + [driver.picture]
  {
    OneMoreDark(colours, index, k);
    driver.Write((index + k) % LEDS, 0, 0, 0);
  }

  /** The on-loop: after `t` writes the first `t` colours are lit. */
  method TurnOn(driver: Driver, colours: seq<Colour>, index: nat)
    requires driver.Valid() && 1 <= |colours| <= LEDS && driver.picture == Dark()
    modifies driver, driver.strip, driver.strip.frame, driver.strip.single
    ensures driver.Valid() && driver.picture == Rotated(colours, index)
    ensures Latest(old(driver.frames), driver.frames, Rotated(colours, index))
  {
    var row := index;
    while row < index + |colours|
      invariant index <= row <= index + |colours| && driver.Valid()
      invariant driver.picture == Rotated(colours[..row - index], index)
      invariant old(driver.frames) <= driver.frames
      invariant row > index ==> Latest(old(driver.frames), driver.frames, driver.picture)
    {
      LightOne(driver, colours, index, row - index);
      row := row + 1;
    }
    assert colours[..|colours|] == colours;
  }

  /** The off-loop. */
  method TurnOff(driver: Driver, colours: seq<Colour>, index: nat)
    requires driver.Valid() && 1 <= |colours| <= LEDS && driver.picture == Rotated(colours, index)
    modifies driver, driver.strip, driver.strip.frame, driver.strip.single
    ensures driver.Valid() && driver.picture == Dark()
    ensures Latest(old(driver.frames), driver.frames, Dark())
  {
    var row := index;
    assert driver.picture == Fading(colours, index, 0);
    while row < index + |colours|
      invariant index <= row <= index + |colours| && driver.Valid()
      invariant driver.picture == Fading(colours, index, row - index)
      invariant old(driver.frames) <= driver.frames
      invariant row > index ==> Latest(old(driver.frames), driver.frames, driver.picture)
    {
      DarkenOne(driver, colours, index, row - index);
      row := row + 1;
    }
    assert Fading(colours, index, |colours|) == Dark();
  }

  /** One step of the display: how many frames were out at its pause, and how many
      after its off-loop. */
  datatype Pause = Pause(lit: nat, dark: nat)

  predicate StepShown(frames: seq<Picture>, pause: Pause, p: Picture) {
    && 0 < pause.lit < pause.dark <= |frames|
    && frames[pause.lit - 1] == p && frames[pause.dark - 1] == Dark()
  }

  /** The frames show the rotation step by step, and darkness after each step. */
  predicate PausesShow(frames: seq<Picture>, pauses: seq<Pause>, colours: seq<Colour>) {
    forall i :: 0 <= i < |pauses| ==> StepShown(frames, pauses[i], Rotated(colours, i))
  }

  lemma PausesStay(before: seq<Picture>, frames: seq<Picture>, pauses: seq<Pause>, colours: seq<Colour>)
    requires before <= frames && PausesShow(before, pauses, colours)
    ensures PausesShow(frames, pauses, colours)
  {
    forall i | 0 <= i < |pauses| ensures StepShown(frames, pauses[i], Rotated(colours, i)) {
      assert StepShown(before, pauses[i], Rotated(colours, i));
    }
  }

  lemma PauseAdded(frames: seq<Picture>, pauses: seq<Pause>, pause: Pause, colours: seq<Colour>)
    requires PausesShow(frames, pauses, colours) && StepShown(frames, pause, Rotated(colours, |pauses|))
    ensures PausesShow(frames, pauses + [pause], colours)
  {
  }

  lemma PausesJoin(frames: seq<Picture>, a: seq<Pause>, b: seq<Pause>, colours: seq<Colour>, rounds: nat)
    requires PausesShow(frames, a, colours) && |a| == rounds * LEDS && PausesShow(frames, b, colours)
    ensures PausesShow(frames, a + b, colours)
  {
    var both := a + b;
    forall i | 0 <= i < |both| ensures StepShown(frames, both[i], Rotated(colours, i)) {
      if i < |a| {
        assert StepShown(frames, a[i], Rotated(colours, i));
      } else {
        RotationPeriod(colours, i - |a|, rounds);
        assert StepShown(frames, b[i - |a|], Rotated(colours, i - |a|));
      }
    }
  }

  lemma StepIsShown(before: seq<Picture>, lit: seq<Picture>, dark: seq<Picture>, p: Picture)
    requires Latest(before, lit, p) && Latest(lit, dark, Dark())
    ensures StepShown(dark, Pause(|lit|, |dark|), p)
  {
  }

  /** One step: on, the pause, off. */
  method ShowStep(driver: Driver, colours: seq<Colour>, index: nat, ghost pauses: seq<Pause>)
    returns (ghost more: seq<Pause>)
    requires driver.Valid() && 1 <= |colours| <= LEDS && driver.picture == Dark()
    requires |pauses| == index && PausesShow(driver.frames, pauses, colours)
    modifies driver, driver.strip, driver.strip.frame, driver.strip.single
    ensures driver.Valid() && driver.picture == Dark() && old(driver.frames) <= driver.frames
    ensures |more| == index + 1 && PausesShow(driver.frames, more, colours)
  {
    TurnOn(driver, colours, index);
    ghost var lit := driver.frames;
    TurnOff(driver, colours, index);
    ghost var pause := Pause(|lit|, |driver.frames|);
    StepIsShown(old(driver.frames), lit, driver.frames, Rotated(colours, index));
    PausesStay(old(driver.frames), driver.frames, pauses, colours);
    PauseAdded(driver.frames, pauses, pause, colours);
    more := pauses + [pause];
  }

  /** The steps of one pass: the program multiplies the repeat count in a C int. */
  function Steps(repeat: int): nat {
    if Int32(repeat * 16) > 0 then Int32(repeat * 16) else 0
  }

  /** For any repeat count: what is left of it modulo 2^28 decides. */
  lemma StepsAre(repeat: int)
    ensures var rest := repeat % 0x1000_0000;
            Steps(repeat) == if rest < 0x800_0000 then 16 * rest else 0
  {
    var q, rest := repeat / 0x1000_0000, repeat % 0x1000_0000;
    assert repeat * 16 == q * TWO_32 + 16 * rest;
    assert (repeat * 16) % TWO_32 == 16 * rest;
  }

  /** A positive repeat count gets all its steps exactly below 2^27, and from there
      to the next multiple of 2^28 none at all. */
  lemma StepsInFullIff(repeat: int)
    requires 0 < repeat < TWO_31
    ensures Steps(repeat) == repeat * 16 <==> repeat < 0x800_0000
    ensures Steps(0x800_0000) == 0
  {
    StepsAre(repeat);
    StepsAre(0x800_0000);
  }

  /** One pass of the loop, from a dark strip. */
  method Pass(driver: Driver, colours: seq<Colour>, repeat: int) returns (ghost pauses: seq<Pause>)
    requires driver.Valid() && 1 <= |colours| <= LEDS && driver.picture == Dark()
    modifies driver, driver.strip, driver.strip.frame, driver.strip.single
    ensures driver.Valid() && driver.picture == Dark() && old(driver.frames) <= driver.frames
    ensures |pauses| == Steps(repeat) && PausesShow(driver.frames, pauses, colours)
  {
    pauses := [];
    var index := 0;
    while index < Int32(repeat * 16)
      invariant 0 <= index <= Steps(repeat)
      invariant driver.Valid() && driver.picture == Dark() && old(driver.frames) <= driver.frames
      invariant |pauses| == index && PausesShow(driver.frames, pauses, colours)
      decreases Steps(repeat) - index
    {
      pauses := ShowStep(driver, colours, index, pauses);
      index := index + 1;
    }
  }

  /** How many steps the program makes: with a repeat count of 0 it goes on for
      ever, and at least one round of 16 is watched. */
  function PauseCount(repeatLoop: int, watched: nat): nat {
    if repeatLoop != 0 then Steps(repeatLoop) else if watched == 0 then 16 else watched * 16
  }

  /** The passes: for a repeat count of 0 one after the other, of which `watched`
      are watched, for any other count one. */
  method Passes(driver: Driver, colours: seq<Colour>, repeatLoop: int, watched: nat) returns (ghost pauses: seq<Pause>)
    requires driver.Valid() && 1 <= |colours| <= LEDS && driver.picture == Dark()
    modifies driver, driver.strip, driver.strip.frame, driver.strip.single
    ensures driver.Valid() && driver.picture == Dark()
    ensures |pauses| == PauseCount(repeatLoop, watched) && PausesShow(driver.frames, pauses, colours)
  {
    if repeatLoop != 0 {
      pauses := Pass(driver, colours, repeatLoop);
      return;
    }
    assert Steps(1) == 16;
    pauses := Pass(driver, colours, 1);
    var passes := 1;
    while passes < watched
      invariant driver.Valid() && driver.picture == Dark() && 1 <= passes
      invariant |pauses| == passes * 16 && (passes <= watched || passes == 1)
      invariant PausesShow(driver.frames, pauses, colours)
    {
      ghost var before := driver.frames;
      ghost var more := Pass(driver, colours, 1);
      PausesStay(before, driver.frames, pauses, colours);
      PausesJoin(driver.frames, pauses, more, colours, passes);
      pauses := pauses + more;
      passes := passes + 1;
    }
  }

  /** What the line has brought to the strip when `k` frames are out. */
  predicate ShownAfter(trace: seq<Signal>, k: nat, p: Picture) {
    FRAME_SIGNALS * k <= |trace| && StripShows(trace[..FRAME_SIGNALS * k], p)
  }

  /** The line shows the picture at the pause and darkness after the off-loop. */
  predicate LineShowsStep(trace: seq<Signal>, pause: Pause, p: Picture) {
    pause.lit < pause.dark && ShownAfter(trace, pause.lit, p) && ShownAfter(trace, pause.dark, Dark())
  }

  lemma FrameShownAfter(val: bv32, frames: seq<Picture>, k: nat, p: Picture)
    requires 0 < k <= |frames| && frames[k - 1] == p
    ensures ShownAfter(Transfers(val, frames, |frames|), k, p)
  {
    EveryFrameShows(val, frames, k);
  }

  lemma LineFollowsStep(val: bv32, frames: seq<Picture>, pause: Pause, p: Picture)
    requires StepShown(frames, pause, p)
    ensures LineShowsStep(Transfers(val, frames, |frames|), pause, p)
  {
    FrameShownAfter(val, frames, pause.lit, p);
    FrameShownAfter(val, frames, pause.dark, Dark());
  }

  lemma LineFollowsFrames(val: bv32, frames: seq<Picture>, pauses: seq<Pause>, colours: seq<Colour>)
    requires PausesShow(frames, pauses, colours)
    ensures forall i :: 0 <= i < |pauses| ==>
              LineShowsStep(Transfers(val, frames, |frames|), pauses[i], Rotated(colours, i))
  {
    forall i | 0 <= i < |pauses|
      ensures LineShowsStep(Transfers(val, frames, |frames|), pauses[i], Rotated(colours, i))
    {
      LineFollowsStep(val, frames, pauses[i], Rotated(colours, i));
    }
  }

  /** The display, from a dark strip: at every pause what came down the line shows
      on the strip as the colours rotated by the step, all other LEDs off, and
      after the step's off-loop as dark. Only a repeat count other than 0 reaches
      the RESET, which leaves the strip dark. */
  method Display(driver: Driver, colours: seq<Colour>, repeatLoop: int, watched: nat) returns (ghost pauses: seq<Pause>)
    requires driver.Valid() && 1 <= |colours| <= LEDS && driver.picture == Dark()
    modifies driver, driver.strip, driver.strip.frame, driver.strip.single
    ensures driver.Valid() && driver.picture == Dark()
    ensures |pauses| == PauseCount(repeatLoop, watched)
    ensures forall i :: 0 <= i < |pauses| ==> LineShowsStep(driver.trace, pauses[i], Rotated(colours, i))
    ensures repeatLoop != 0 ==> ShownAfter(driver.trace, |driver.frames|, Dark())
  {
    pauses := Passes(driver, colours, repeatLoop, watched);
    if repeatLoop != 0 {
      ghost var before := driver.frames;
      driver.ResetLeds();
      PausesStay(before, driver.frames, pauses, colours);
      EveryFrameShows(driver.valData, driver.frames, |driver.frames|);
    }
    LineFollowsFrames(driver.valData, driver.frames, pauses, colours);
  }
}
