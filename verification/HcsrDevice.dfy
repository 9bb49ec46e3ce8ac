/** The HC-SR04 device structure and the driver functions that update it. */
module HcsrDevice {
  import opened Machine
  import opened HcsrRing
  import opened HcsrEcho
  import opened HcsrMeasure
  import Runs

  const EINVAL: int := 22

  /** What `pin_config` does to an output line. */
  datatype LineOp = DirectionOutput(pin: int, level: bool) | SetValue(pin: int, level: bool)

  /** `pin_config` of an output in update mode: the direction is set only below
      line 64, and the value is always set low afterwards. */
  function OutputOps(pin: int, level: bool): seq<LineOp> {
    (if pin < 64 then [DirectionOutput(pin, level)] else []) + [SetValue(pin, false)]
  }

  /** The trigger's two `pin_config` calls, `n` times over. */
  function Pulses(pin: int, n: nat): seq<LineOp> {
    if n == 0 then [] else Pulses(pin, n - 1) + OutputOps(pin, true) + OutputOps(pin, false)
  }

  /** How often a line goes from low to high, starting from `level`; operations on
      a number below 0 reach no line. */
  function Rises(level: bool, ops: seq<LineOp>): nat
    decreases ops
  {
    if ops == [] then 0
    else if ops[0].pin < 0 then Rises(level, ops[1..])
    else (if !level && ops[0].level then 1 else 0) + Rises(ops[0].level, ops[1..])
  }

  function LevelAfter(level: bool, ops: seq<LineOp>): bool
    decreases ops
  {
    if ops == [] then level else LevelAfter(if ops[0].pin < 0 then level else ops[0].level, ops[1..])
  }

  lemma {:induction false} RisesAppend(level: bool, a: seq<LineOp>, b: seq<LineOp>)
    ensures Rises(level, a + b) == Rises(level, a) + Rises(LevelAfter(level, a), b)
    ensures LevelAfter(level, a + b) == LevelAfter(LevelAfter(level, a), b)
    decreases a
  {
    if a == [] {
      assert a + b == b;
    } else {
      assert (a + b)[1..] == a[1..] + b;
      RisesAppend(if a[0].pin < 0 then level else a[0].level, a[1..], b);
    }
  }

  lemma OneOp(level: bool, op: LineOp)
    ensures Rises(level, [op]) == if op.pin >= 0 && !level && op.level then 1 else 0
    ensures LevelAfter(level, [op]) == if op.pin < 0 then level else op.level
  {
    assert [op][1..] == [];
  }

  lemma RisesOfOutput(pin: int, level: bool)
    ensures Rises(false, OutputOps(pin, level)) == if 0 <= pin < 64 && level then 1 else 0
    ensures !LevelAfter(false, OutputOps(pin, level))
  {
    OneOp(false, SetValue(pin, false));
    if pin < 64 {
      OneOp(false, DirectionOutput(pin, level));
      OneOp(if pin < 0 then false else level, SetValue(pin, false));
      RisesAppend(false, [DirectionOutput(pin, level)], [SetValue(pin, false)]);
    } else {
      assert OutputOps(pin, level) == [SetValue(pin, false)];
    }
  }

  /** Each trigger raises its line exactly once and leaves it low, provided that
      there is a line and it is below 64; otherwise nothing ever rises. */
  lemma {:induction false} OneRisePerTrigger(pin: int, n: nat)
    ensures Rises(false, Pulses(pin, n)) == if 0 <= pin < 64 then n else 0
    ensures !LevelAfter(false, Pulses(pin, n))
  {
    if n > 0 {
      OneRisePerTrigger(pin, n - 1);
      RisesOfOutput(pin, true);
      RisesOfOutput(pin, false);
      RisesAppend(false, Pulses(pin, n - 1), OutputOps(pin, true));
      RisesAppend(false, Pulses(pin, n - 1) + OutputOps(pin, true), OutputOps(pin, false));
    }
  }

  /** The part of a device that its own fields hold. */
  datatype Fields = Fields(
    m: int, delta: int, inProgress: bool, pinsSet: bool, paramsSet: bool, locked: bool,
    irq: Counters, ring: Ring)
  {
    predicate Ready() {
      pinsSet && paramsSet
    }

    predicate LooksEmpty() {
      Newest(ring).distance == BUFFER_EMPTY
    }
  }

  /** The same part of a state of the interleaved model. */
  function Of(s: State): Fields {
    Fields(s.m, s.delta, s.inProgress, s.pinsSet, s.paramsSet, s.holder != -1, s.log.counters, s.log.ring)
  }

  const NEW_FIELDS: Fields := Fields(-1, -1, false, false, false, false, NO_ECHOES, EMPTY_RING)

  /** How a call or a thread stands when nothing else moves: back with a return
      value, waiting for the buffer lock, or dead after dividing by zero. */
  datatype Outcome = Returned(ret: int) | Waiting | Died

  /** `kthread_run` of worker `w` succeeds or fails. */
  function Creation(w: nat, created: bool): Event {
    if created then Spawn(w) else SpawnFails(w)
  }

  /** Open, and a release that is let through, make the device as new, with the
      lock free, whatever is under way. */
  lemma ReinitIsStep(s: State, e: Event)
    requires Reinitialises(s, e)
    ensures Of(Step(s, e)) == NEW_FIELDS
  {
  }

  /** The clock register `dt` ticks from now. */
  function ClockIn(s: State, dt: nat): int {
    (s.log.clock + dt) % TWO_64
  }

  /** The handler is the edge step of the interleaved model. */
  lemma EdgeIsStep(s: State, dt: nat)
    ensures Of(s).(irq := Handle(Of(s).irq, ClockIn(s, dt))) == Of(Step(s, Edge(dt)))
  {
  }

  predicate WriteStarts(f: Fields) {
    f.Ready() && !f.inProgress
  }

  /** An undisturbed write as steps of the interleaved model. */
  function WriteEvents(f: Fields, op: int, w: nat, created: bool): seq<Event> {
    [Event.Write(op)] + if WriteStarts(f) && !f.locked then [Creation(w, created)] else []
  }

  /** After a write: a refused thread leaves the lock taken. */
  function AfterWrite(f: Fields, op: int, created: bool): Fields {
    if !f.Ready() then f
    else
      var f1 := if op != 0 then f.(ring := EMPTY_RING) else f;
      if f.inProgress then f1 else f1.(inProgress := true, locked := f.locked || !created)
  }

  lemma WriteIsSteps(s: State, op: int, created: bool)
    ensures Of(RunAll(s, WriteEvents(Of(s), op, |s.workers|, created))) == AfterWrite(Of(s), op, created)
  {
    var w, es := |s.workers|, WriteEvents(Of(s), op, |s.workers|, created);
    assert Runs.Run(Step, s, es, 1) == WriteStep(s, op);
    if |es| == 2 {
      assert At(WriteStep(s, op), w, Requested);
    }
  }

  predicate ReadStarts(f: Fields) {
    f.LooksEmpty() && f.Ready() && !f.inProgress
  }

  predicate LooksTwice(f: Fields) {
    f.LooksEmpty() && f.Ready() && f.inProgress
  }

  /** An undisturbed read as steps of the interleaved model. */
  function ReadEvents(f: Fields, w: nat, created: bool): seq<Event> {
    [Event.Read] + if ReadStarts(f) then [Creation(w, created)] else if LooksTwice(f) then [ReadAgain] else []
  }

  /** After a read that found the lock free. */
  function AfterRead(f: Fields, created: bool): Fields {
    if LooksTwice(f) then f.(ring := Taken(Taken(f.ring)))
    else f.(ring := Taken(f.ring), locked := ReadStarts(f) && !created)
  }

  lemma ReadIsSteps(s: State, created: bool)
    requires s.holder == -1
    ensures Of(RunAll(s, ReadEvents(Of(s), |s.workers|, created))) == AfterRead(Of(s), created)
  {
    var w, es := |s.workers|, ReadEvents(Of(s), |s.workers|, created);
    assert Runs.Run(Step, s, es, 1) == ReadStep(s);
    if ReadStarts(Of(s)) {
      assert At(ReadStep(s), w, Requested);
    }
  }

  function Triggers(w: nat, n: nat): (es: seq<Event>)
    ensures |es| == n
  {
    if n == 0 then [] else Triggers(w, n - 1) + [Trigger(w)]
  }

  /** The whole thread as steps of the interleaved model. */
  function ThreadEvents(w: nat, m: int, dt: nat): seq<Event> {
    [Begin(w)] + (Triggers(w, AtLeastZero(Wanted(m))) + [Publish(w, dt)])
  }

  /** After a thread that found the lock free: it publishes and gives the lock
      back, or dies with it in the division. */
  function AfterThread(f: Fields, tsc: int): Fields {
    if DivisionFaults(f.irq) then f.(locked := true)
    else f.(inProgress := false, locked := false, ring := Added(f.ring, Entry(Published(f.irq), tsc)))
  }

  lemma OneTrigger(s: State, w: nat, m: int, wanted: int, n: nat)
    requires w < |s.workers| && n < AtLeastZero(wanted)
    ensures Step(SetStage(s, w, Stage.Sampling(m, wanted, n)), Trigger(w))
         == SetStage(s, w, Stage.Sampling(m, wanted, n + 1))
  {
    var s1 := SetStage(s, w, Stage.Sampling(m, wanted, n));
    assert SetStage(s1, w, Stage.Sampling(m, wanted, n + 1)).workers
        == SetStage(s, w, Stage.Sampling(m, wanted, n + 1)).workers;
  }

  lemma {:induction false} TriggersFire(s: State, w: nat, m: int, wanted: int, n: nat)
    requires At(s, w, Stage.Sampling(m, wanted, 0)) && n <= AtLeastZero(wanted)
    ensures RunAll(s, Triggers(w, n)) == SetStage(s, w, Stage.Sampling(m, wanted, n))
  {
    if n == 0 {
      assert s.workers[w := s.workers[w]] == s.workers;
    } else {
      var s1 := SetStage(s, w, Stage.Sampling(m, wanted, n - 1));
      TriggersFire(s, w, m, wanted, n - 1);
      Runs.RunAllJoin(Step, s, Triggers(w, n - 1), [Trigger(w)]);
      OneStep(s1, Trigger(w));
      OneTrigger(s, w, m, wanted, n - 1);
    }
  }

  lemma OneStep(s: State, e: Event)
    ensures RunAll(s, [e]) == Step(s, e)
  {
    assert Runs.Run(Step, s, [e], 0) == s;
  }

  /** The thread after its last trigger. */
  function FiredOut(s: State, w: nat): State
    requires w < |s.workers|
  {
    SetStage(s, w, Stage.Sampling(s.m, Wanted(s.m), AtLeastZero(Wanted(s.m)))).(holder := w)
  }

  lemma ThreadRuns(s: State, w: nat, dt: nat)
    requires At(s, w, Spawned) && s.holder == -1
    ensures RunAll(s, ThreadEvents(w, s.m, dt)) == PublishStep(FiredOut(s, w), w, dt)
  {
    var m, n := s.m, AtLeastZero(Wanted(s.m));
    var s1 := BeginStep(s, w);
    Runs.RunAllJoin(Step, s, [Begin(w)], Triggers(w, n) + [Publish(w, dt)]);
    OneStep(s, Begin(w));
    Runs.RunAllJoin(Step, s1, Triggers(w, n), [Publish(w, dt)]);
    TriggersFire(s1, w, m, Wanted(m), n);
    OneStep(FiredOut(s, w), Publish(w, dt));
    assert SetStage(s1, w, Stage.Sampling(m, Wanted(m), n)).workers == FiredOut(s, w).workers;
  }

  lemma ThreadIsSteps(s: State, w: nat, dt: nat)
    requires At(s, w, Spawned) && s.holder == -1
    ensures Of(RunAll(s, ThreadEvents(w, s.m, dt))) == AfterThread(Of(s), ClockIn(s, dt))
  {
    ThreadRuns(s, w, dt);
    EndIsStep(FiredOut(s, w), w, dt);
  }

  lemma EndIsStep(s: State, w: nat, dt: nat)
    requires FiredAll(s, w) && s.holder == w
    ensures Of(PublishStep(s, w, dt)) == AfterThread(Of(s), ClockIn(s, dt))
  {
  }

  class Device {
    // ioctl parameters and flags
    var m: int
    var delta: int
    var inProgress: bool
    var pinsSet: bool
    var paramsSet: bool
    var locked: bool

    // struct hcsr04_irq_data
    var irqTrigger: int
    var edge: int
    var rise: int
    var fall: int
    var total: int
    var lowest: int
    var highest: int
    var sum: int

    // the ring
    const cells: array<Entry>
    var bufferIndex: int

    // every operation on the trigger line
    var wave: seq<LineOp>

    ghost predicate Valid()
      reads `bufferIndex
    {
      cells.Length == CELLS && 0 <= bufferIndex < CELLS
    }

    function Irq(): Counters
      reads this
    {
      Counters(edge, rise, fall, total, lowest, highest, sum)
    }

    function Buffer(): Ring
      requires Valid()
      reads `bufferIndex, cells
    {
      Cells(cells[..], bufferIndex)
    }

    function View(): Fields
      requires Valid()
      reads this, cells
    {
      Fields(m, delta, inProgress, pinsSet, paramsSet, locked, Irq(), Buffer())
    }

    /** `initialize_device`. */
    constructor ()
      ensures Valid() && wave == []
      ensures View() == NEW_FIELDS
      ensures irqTrigger == -1
    {
      m, delta, inProgress, pinsSet, paramsSet, locked := -1, -1, false, false, false, false;
      irqTrigger := -1;
      edge, rise, fall, total, lowest, highest, sum := 0, 0, 0, 0, 0, 0, 0;
      cells := new Entry[CELLS](_ => EMPTY_CELL);
      bufferIndex := 0;
      wave := [];
    }

    /** The clearing loop that `hcsr04_write` and `initialize_device` share. */
    method ClearRing()
      requires Valid()
      modifies `bufferIndex, cells
      ensures Valid() && Buffer() == EMPTY_RING
    {
      var i := 0;
      while i < CELLS
        invariant 0 <= i <= CELLS
        invariant forall j :: 0 <= j < i ==> cells[j] == EMPTY_CELL
      {
        cells[i] := EMPTY_CELL;
        i := i + 1;
      }
      bufferIndex := 0;
    }

    /** `initialize_device` of a device in use; it does not wait for the lock. */
    method Reinitialize()
      requires Valid()
      modifies this, cells
      ensures Valid() && irqTrigger == -1
      ensures View() == NEW_FIELDS
    {
      ClearRing();
      ResetCounters();
      m, delta, inProgress, pinsSet, paramsSet, locked := -1, -1, false, false, false, false;
      irqTrigger := -1;
    }

    method ResetCounters()
      modifies `edge, `rise, `fall, `total, `lowest, `highest, `sum
      ensures Irq() == NO_ECHOES
    {
      edge, rise, fall, total, lowest, highest, sum := 0, 0, 0, 0, 0, 0, 0;
    }

    /** `fifoWrite`. */
    method FifoWrite(e: Entry)
      requires Valid()
      modifies `bufferIndex, cells
      ensures Valid() && Buffer() == Added(old(Buffer()), e)
    {
      bufferIndex := (bufferIndex + 1) % CELLS;
      cells[bufferIndex] := e;
    }

    /** `fifoRead`. */
    method FifoRead() returns (e: Entry)
      requires Valid()
      modifies `bufferIndex, cells
      ensures Valid() && e == Newest(old(Buffer())) && Buffer() == Taken(old(Buffer()))
    {
      if cells[bufferIndex].tsc == NO_TSC {
        return Entry(BUFFER_EMPTY, 0);
      }
      e := cells[bufferIndex];
      cells[bufferIndex] := EMPTY_CELL;
      bufferIndex := bufferIndex - 1;
      if bufferIndex < 0 {
        bufferIndex := CELLS - 1;
      }
    }

    /** The part of `irq_handler` that a measured distance reaches. */
    method CountEcho(distance: int)
      modifies `total, `lowest, `highest, `sum
      ensures Irq() == Accumulate(old(Irq()), distance)
    {
      if distance > FARTHEST {
        return;
      }
      if distance > highest {
        highest := distance;
      } else if distance < lowest {
        lowest := distance;
      }
      total := Int32(total + 1);
      sum := Int32(sum + distance);
    }

    /** `irq_handler`. */
    method IrqHandler(now: int)
      modifies `edge, `rise, `fall, `total, `lowest, `highest, `sum
      ensures Irq() == Handle(old(Irq()), now)
    {
      if edge == 0 {
        rise := now;
        edge := 1;
      } else if edge == 1 {
        fall := now;
        edge := 0;
        var ticks := (fall - rise) % TWO_64;
        CountEcho(Int32(ticks / TICKS_PER_CM));
      }
    }

    /** The SET_PARAMETERS ioctl. */
    method SetParameters(p1: int, p2: int) returns (ret: int)
      requires Valid()
      modifies `m, `delta, `paramsSet
      ensures Valid() && ret == if p1 <= 0 || p2 <= 0 then EINVAL else 0
      ensures forall s: State | Of(s) == old(View()) :: View() == Of(Step(s, Event.SetParameters(p1, p2)))
    {
      if p1 <= 0 || p2 <= 0 {
        return EINVAL;
      }
      m, delta, paramsSet := p1, p2, true;
      return 0;
    }

    /** `initiate_measurement` with the lock free; `created` says whether
        `kthread_run` succeeds. On failure the lock is not given back. */
    method InitiateMeasurement(created: bool) returns (failed: int)
      requires !locked
      modifies `locked
      ensures failed == if created then 0 else 1
      ensures locked <==> !created
    {
      locked := true;
      if !created {
        return 1;
      }
      locked := false;
      return 0;
    }

    /** `hcsr04_write` with nothing else happening in between. A started
        measurement is reported as EINVAL, only a failed start as success. */
    method Write(op: int, created: bool) returns (out: Outcome)
      requires Valid()
      modifies `inProgress, `locked, `bufferIndex, cells
      ensures Valid() && View() == AfterWrite(old(View()), op, created)
      ensures out == if !WriteStarts(old(View())) then Returned(EINVAL)
                     else if old(locked) then Waiting
                     else if created then Returned(EINVAL)
                     else Returned(0)
    {
      if !pinsSet || !paramsSet {
        return Returned(EINVAL);
      }
      if op != 0 {
        ClearRing();
      }
      if inProgress {
        return Returned(EINVAL);
      }
      inProgress := true;
      if locked {
        return Waiting;
      }
      var failed := InitiateMeasurement(created);
      return Returned(if failed == 0 then EINVAL else 0);
    }

    /** `hcsr04_read` with nothing else happening in between: it hands back the
        newest entry. When that looks empty it starts a measurement and reports
        EINVAL; with one under way it looks a second time and drops what it
        finds; and when no thread can be created it waits for ever for the lock
        that it took itself. */
    method Read(created: bool) returns (out: Outcome, e: Entry)
      requires Valid()
      modifies `locked, `bufferIndex, cells
      ensures Valid()
      ensures old(locked) ==> out == Waiting && View() == old(View())
      ensures !old(locked) ==> e == Newest(old(Buffer())) && View() == AfterRead(old(View()), created)
      ensures !old(locked) ==>
                out == if !old(View()).LooksEmpty() || LooksTwice(old(View())) then Returned(0)
                       else if ReadStarts(old(View())) && !created then Waiting
                       else Returned(EINVAL)
    {
      e := Entry(BUFFER_EMPTY, 0);
      if locked {
        return Waiting, e;
      }
      e := FifoRead();
      if e.distance == BUFFER_EMPTY {
        if !pinsSet || !paramsSet {
          return Returned(EINVAL), e;
        }
        if !inProgress {
          var failed := InitiateMeasurement(created);
          if failed == 0 {
            return Returned(EINVAL), e;
          }
        }
        if locked {
          return Waiting, e;
        }
        var again := FifoRead();
      }
      out := Returned(0);
    }

    /** `pin_config` of an output line that is already configured. */
    method DriveOutput(pin: int, level: bool)
      modifies `wave
      ensures wave == old(wave) + OutputOps(pin, level)
    {
      if pin < 64 {
        wave := wave + [DirectionOutput(pin, level)];
      }
      wave := wave + [SetValue(pin, false)];
    }

    /** The triggering loop of `hcsr04_thread_write`. */
    method FireTriggers()
      modifies `wave
      ensures wave == old(wave) + Pulses(irqTrigger, AtLeastZero(Wanted(m)))
    {
      var collected := 0;
      var wanted := Int32(m + 2);
      while collected < wanted
        invariant 0 <= collected <= AtLeastZero(wanted)
        invariant wave == old(wave) + Pulses(irqTrigger, collected)
      {
        DriveOutput(irqTrigger, true);
        DriveOutput(irqTrigger, false);
        collected := collected + 1;
      }
    }

    /** The end of `hcsr04_thread_write`, from reading the clock. */
    method PublishReading(tsc: int)
      requires Valid() && !DivisionFaults(Irq())
      modifies `inProgress, `locked, `bufferIndex, cells
      ensures Valid() && !inProgress && !locked
      ensures Buffer() == Added(old(Buffer()), Entry(Published(Irq()), tsc))
    {
      FifoWrite(Entry(TruncDiv(sum, total), tsc));
      inProgress := false;
      locked := false;
    }

    /** `hcsr04_thread_write` with no other step in between, ending at clock value
        `tsc`. The processor's division traps on a zero divisor and on a quotient
        that no int holds; then the thread dies and the lock stays. */
    method ThreadWrite(tsc: int) returns (out: Outcome)
      requires Valid()
      modifies `inProgress, `locked, `bufferIndex, `wave, cells
      ensures Valid()
      ensures out == if old(locked) then Waiting else if DivisionFaults(Irq()) then Died else Returned(0)
      ensures View() == if old(locked) then old(View()) else AfterThread(old(View()), tsc)
      ensures wave == if old(locked) then old(wave)
                      else old(wave) + Pulses(irqTrigger, AtLeastZero(Wanted(m)))
    {
      if locked {
        return Waiting;
      }
      locked := true;
      FireTriggers();
      if total == 0 || (total == -1 && sum == -TWO_31) {
        return Died;
      }
      PublishReading(tsc);
      return Returned(0);
    }
  }
}
