/** The hrtimer experiment: an event-driven callback meant to drive the pin like
    the nested delay loops. */
module HrTimer {
  /** One pin change and how long the level is to last. */
  datatype Edge = Edge(high: bool, ns: nat)

  function OneBit(): seq<Edge> {
    [Edge(true, 700), Edge(false, 600)]
  }

  function ZeroBit(): seq<Edge> {
    [Edge(true, 350), Edge(false, 800)]
  }

  function Repeated(bit: seq<Edge>, n: nat): (trace: seq<Edge>)
    ensures |trace| == |bit| * n
  {
    if n == 0 then [] else Repeated(bit, n - 1) + bit
  }

  /** The trace of the nested loops for `n` bits: all on, then all off. */
  function LoopTrace(n: nat): seq<Edge> {
    Repeated(OneBit(), n) + Repeated(ZeroBit(), n)
  }

  /** The callback's globals, and what it has done to the pin. */
  datatype Timer = Timer(index: int, cycle: int, trace: seq<Edge>)

  const ARMED: Timer := Timer(0, 1, [])

  /** `hr_timer_expired` for `n` bits, with its restart verdict. */
  function Callback(n: nat, t: Timer): (Timer, bool) {
    if t.index < n && t.cycle == 1 then (Timer(t.index, 0, t.trace + [Edge(true, 700)]), true)
    else if t.index < n && t.cycle == 0 then (Timer(t.index + 1, 1, t.trace + [Edge(false, 600)]), true)
    else if t.index < 2 * n && t.cycle == 1 then (Timer(t.index, 0, t.trace + [Edge(true, 350)]), true)
    else if t.index < 2 * n && t.cycle == 0 then (Timer(t.index + 1, 1, t.trace + [Edge(false, 800)]), true)
    else (t, false)
  }

  /** The state after `k` callbacks, whether or not the timer is still armed. */
  function After(n: nat, k: nat): Timer {
    if k == 0 then ARMED else Callback(n, After(n, k - 1)).0
  }

  function Min(a: int, b: int): int {
    if a < b then a else b
  }

  lemma {:induction false} RepeatedAt(bit: seq<Edge>, n: nat, j: nat)
    requires |bit| == 2 && j < 2 * n
    ensures Repeated(bit, n)[j] == bit[j % 2]
  {
    if j < 2 * (n - 1) {
      RepeatedAt(bit, n - 1, j);
    }
  }

  lemma ParityBehind(n: nat, j: nat)
    requires 2 * n <= j
    ensures (j - 2 * n) % 2 == j % 2
  {
    assert j - 2 * n == (j / 2 - n) * 2 + j % 2;
  }

  lemma LoopTraceLength(n: nat)
    ensures |LoopTrace(n)| == 4 * n && |Repeated(OneBit(), n)| == 2 * n
  {
  }

  lemma BehindFirst(a: seq<Edge>, b: seq<Edge>, j: nat)
    requires |a| <= j < |a| + |b|
    ensures (a + b)[j] == b[j - |a|]
  {
  }

  /** Entry `j` of the loops' trace. */
  lemma LoopTraceAt(n: nat, j: nat)
    requires j < 4 * n
    ensures |LoopTrace(n)| == 4 * n
    ensures LoopTrace(n)[j] == if j < 2 * n then OneBit()[j % 2] else ZeroBit()[j % 2]
  {
    LoopTraceLength(n);
    if j < 2 * n {
      RepeatedAt(OneBit(), n, j);
    } else {
      BehindFirst(Repeated(OneBit(), n), Repeated(ZeroBit(), n), j);
      RepeatedAt(ZeroBit(), n, j - 2 * n);
      ParityBehind(n, j);
    }
  }

  /** The callback after `k` others emits entry `k` of the loops' trace. */
  lemma CallbackAt(n: nat, k: nat, t: Timer)
    requires t.index == Min(k, 4 * n) / 2 && t.cycle == 1 - Min(k, 4 * n) % 2
    ensures if k < 4 * n
            then |LoopTrace(n)| == 4 * n
                 && Callback(n, t) == (Timer((k + 1) / 2, 1 - (k + 1) % 2, t.trace + [LoopTrace(n)[k]]), true)
            else Callback(n, t) == (t, false)
  {
    if k < 4 * n {
      LoopTraceAt(n, k);
    }
  }

  /** The timer stands where `k` callbacks take it, along the loops' trace. */
  predicate Follows(n: nat, k: nat, t: Timer) {
    && |LoopTrace(n)| == 4 * n
    && t.trace == LoopTrace(n)[..Min(k, 4 * n)]
    && t.index == Min(k, 4 * n) / 2 && t.cycle == 1 - Min(k, 4 * n) % 2
  }

  lemma OneMoreFollows(n: nat, k: nat, t: Timer)
    requires Follows(n, k, t)
    ensures Follows(n, k + 1, Callback(n, t).0)
  {
    CallbackAt(n, k, t);
    if k < 4 * n {
      PrefixGrows(LoopTrace(n), k);
    }
  }

  lemma PrefixGrows(trace: seq<Edge>, k: nat)
    requires k < |trace|
    ensures trace[..k + 1] == trace[..k] + [trace[k]]
  {
  }

  /** The callback machine refines the nested loops: after any number of
      callbacks its trace is that many first entries of the loops' trace, and it
      asks for a restart exactly 4n times. */
  lemma {:induction false} CallbacksFollowLoops(n: nat, k: nat)
    ensures Follows(n, k, After(n, k))
    ensures Callback(n, After(n, k)).1 <==> k < 4 * n
  {
    if k > 0 {
      CallbacksFollowLoops(n, k - 1);
      OneMoreFollows(n, k - 1, After(n, k - 1));
    }
    CallbackAt(n, k, After(n, k));
  }

  /** What is left to do; every restart makes it smaller. */
  function Remaining(n: nat, t: Timer): int {
    4 * n - (2 * t.index + 1 - t.cycle)
  }

  lemma RestartMeansProgress(n: nat, t: Timer)
    requires Callback(n, t).1
    ensures Remaining(n, Callback(n, t).0) == Remaining(n, t) - 1
    ensures Remaining(n, t) > 0
  {
  }

  // ----- The code -----

  class Pin {
    var trace: seq<Edge>

    /** Where in the trace the driver has slept for two seconds. */
    var pauses: seq<nat>

    constructor ()
      ensures trace == [] && pauses == []
    {
      trace, pauses := [], [];
    }

    method Sleep()
      modifies `pauses
      ensures pauses == old(pauses) + [|trace|]
    {
      pauses := pauses + [|trace|];
    }

    method SetGpio(high: bool, ns: nat)
      modifies `trace
      ensures trace == old(trace) + [Edge(high, ns)]
    {
      trace := trace + [Edge(high, ns)];
    }

    /** `send_bit_1_ndelay`. */
    method SendOne()
      modifies `trace
      ensures trace == old(trace) + OneBit()
    {
      SetGpio(true, 700);
      SetGpio(false, 600);
    }

    /** `send_bit_0_ndelay`. */
    method SendZero()
      modifies `trace
      ensures trace == old(trace) + ZeroBit()
    {
      SetGpio(true, 350);
      SetGpio(false, 800);
    }

    /** The first pair of loops of `bit_bang_ndelay_gpio`. */
    method AllOn(leds: nat, bits: nat)
      modifies `trace
      ensures trace == old(trace) + Repeated(OneBit(), leds * bits)
    {
      for led := 0 to leds
        invariant trace == old(trace) + Repeated(OneBit(), led * bits)
      {
        for bit := 0 to bits
          invariant trace == old(trace) + Repeated(OneBit(), led * bits + bit)
        {
          SendOne();
        }
        assert led * bits + bits == (led + 1) * bits;
      }
    }

    /** The second pair. */
    method AllOff(leds: nat, bits: nat)
      modifies `trace
      ensures trace == old(trace) + Repeated(ZeroBit(), leds * bits)
    {
      for led := 0 to leds
        invariant trace == old(trace) + Repeated(ZeroBit(), led * bits)
      {
        for bit := 0 to bits
          invariant trace == old(trace) + Repeated(ZeroBit(), led * bits + bit)
        {
          SendZero();
        }
        assert led * bits + bits == (led + 1) * bits;
      }
    }

    /** `bit_bang_ndelay_gpio`: all bits on, a pause, all bits off. */
    method BitBangLoops(leds: nat, bits: nat)
      modifies this
      ensures trace == old(trace) + LoopTrace(leds * bits)
      ensures pauses == old(pauses) + [|old(trace)| + 2 * leds * bits]
    {
      AllOn(leds, bits);
      assert |trace| == |old(trace)| + 2 * (leds * bits);
      Sleep();
      AllOff(leds, bits);
    }
  }

  class HrTimer {
    const pin: Pin
    const total: nat
    var index: int
    var cycle: int

    function View(): Timer
      reads this, pin
    {
      Timer(index, cycle, pin.trace)
    }

    /** The set-up of `bit_bang_hrtimer_gpio`. */
    constructor (total: nat)
      ensures View() == ARMED && this.total == total && fresh(pin)
    {
      this.total := total;
      index, cycle := 0, 1;
      pin := new Pin();
    }

    /** `hr_timer_expired`; the result says HRTIMER_RESTART. */
    method Expired() returns (restart: bool)
      modifies this, pin
      ensures (View(), restart) == Callback(total, old(View()))
    {
      if index < total {
        if cycle == 1 {
          pin.SetGpio(true, 700);
          cycle := 0;
          return true;
        } else if cycle == 0 {
          pin.SetGpio(false, 600);
          cycle := 1;
          index := index + 1;
          return true;
        }
      }
      if index < 2 * total {
        if cycle == 1 {
          pin.SetGpio(true, 350);
          cycle := 0;
          return true;
        } else if cycle == 0 {
          pin.SetGpio(false, 800);
          cycle := 1;
          index := index + 1;
          return true;
        }
      }
      return false;
    }

    /** The kernel's side: the callback runs again as long as it asks for it, or
        until the program cancels the timer after `budget` expirations. It asks
        exactly four times per bit, and the trace is as much of the loops' as there
        was time for. */
    method RunOut(budget: nat) returns (fired: nat)
      requires View() == ARMED
      modifies this, pin
      ensures fired == Min(budget, 4 * total + 1)
      ensures |LoopTrace(total)| == 4 * total
      ensures pin.trace == LoopTrace(total)[..Min(budget, 4 * total)]
    {
      fired := 0;
      var armed := true;
      while armed && fired < budget
        invariant View() == After(total, fired)
        invariant fired <= Min(budget, 4 * total + 1)
        invariant armed <==> fired <= 4 * total
      {
        CallbacksFollowLoops(total, fired);
        armed := Expired();
        fired := fired + 1;
      }
      CallbacksFollowLoops(total, fired);
    }
  }
}
