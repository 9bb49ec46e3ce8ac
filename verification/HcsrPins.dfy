/** The HC-SR04 driver's pin groups, GPIO lines and interrupts, shared by all
    devices: CONFIG_PINS, open and release, and every interleaving of them. */
module HcsrPins {
  const NO_PIN: int := -1
  const NO_VALUE: int := -1

  /** The fixed part of `struct gen2_pin_config`: one Galileo pin with the GPIO
      lines behind it. The shifter and the multiplexer lines may be absent. */
  datatype Group = Group(io: int, line: int, shifter: int, mux1: int, mux2: int) {
    function Lines(): set<int> {
      {line} + Optional(shifter) + Optional(mux1) + Optional(mux2)
    }

    /** The lines that are present are numbered from 0 and all different. */
    predicate Ok() {
      && line >= 0
      && (shifter == NO_PIN || (shifter >= 0 && shifter != line))
      && (mux1 == NO_PIN || (mux1 >= 0 && mux1 != line && mux1 != shifter))
      && (mux2 == NO_PIN || (mux2 >= 0 && mux2 != line && mux2 != shifter && mux2 != mux1))
    }
  }

  /** The changing part: whether the lines are held, and by whose call. */
  datatype Status = Status(configured: bool, owner: int)

  function Optional(pin: int): set<int> {
    if pin == NO_PIN then {} else {pin}
  }

  /** The fields of a device that pins and interrupts touch. */
  datatype Dev = Dev(
    trigger: int, echo: int, irqNo: int, irqEcho: int, irqTrigger: int, pinsSet: bool)

  const FRESH_DEV: Dev := Dev(NO_PIN, NO_PIN, NO_VALUE, NO_VALUE, NO_VALUE, false)

  /** `status[g]` belongs to `table[g]`, `held` is every line the driver holds, `irqs` every handler registered by
      it with the minor of the device it was registered for. */
  datatype Board = Board(
    table: seq<Group>, status: seq<Status>, held: set<int>, irqs: map<int, int>, devs: map<int, Dev>)
  {
    predicate Sized() {
      |status| == |table|
    }
  }

  /** How the kernel answers during one CONFIG_PINS call: which lines it would
      grant, the `gpio_to_irq` numbering, which interrupts it would grant. */
  datatype Kernel = Kernel(lines: set<int>, irqOf: int -> int, irqs: set<int>)

  // ----- Specification of the operations -----

  predicate EdgeCapable(io: int) {
    io !in {0, 1, 7, 8, 10, 12}
  }

  predicate PinsAccepted(trigger: int, echo: int) {
    0 <= trigger <= 12 && 0 <= echo <= 12 && EdgeCapable(echo)
  }

  function ClaimIrq(b: Board, d: int, line: int, k: Kernel): (Board, bool)
    requires d in b.devs
  {
    if k.irqOf(line) < 0 || k.irqOf(line) in b.irqs || k.irqOf(line) !in k.irqs then (b, false)
    else
      (b.(irqs := b.irqs[k.irqOf(line) := d],
          devs := b.devs[d := b.devs[d].(irqNo := k.irqOf(line), irqEcho := line)]), true)
  }

  /** Takes group `g` for device `d`, unless some call took it before. */
  function TakeGroup(b: Board, d: int, g: nat): Board
    requires b.Sized() && g < |b.table|
  {
    if b.status[g].configured then b
    else b.(status := b.status[g := Status(true, d)], held := b.held + b.table[g].Lines())
  }

  predicate Named(dev: Dev, group: Group) {
    dev.trigger == group.io || dev.echo == group.io
  }

  /** What the list walk does at one group. */
  function Visit(b: Board, d: int, g: nat, k: Kernel): (r: (Board, bool))
    requires b.Sized() && d in b.devs && g < |b.table|
    ensures r.0.Sized() && d in r.0.devs && r.0.table == b.table
  {
    if !Named(b.devs[d], b.table[g]) then (b, true)
    else if !b.status[g].configured && !(b.table[g].Lines() <= k.lines) then (b, false)
    else if b.devs[d].echo == b.table[g].io then ClaimIrq(TakeGroup(b, d, g), d, b.table[g].line, k)
    else (TakeGroup(b, d, g).(devs := b.devs[d := b.devs[d].(irqTrigger := b.table[g].line)]), true)
  }

  /** The walk from group `g` on; it stops at the first failure. */
  function Walk(b: Board, d: int, g: nat, k: Kernel): (r: (Board, bool))
    requires b.Sized() && d in b.devs && g <= |b.table|
    ensures r.0.Sized() && d in r.0.devs && r.0.table == b.table
    decreases |b.table| - g
  {
    if g == |b.table| then (b, true)
    else
      var (b1, ok) := Visit(b, d, g, k);
      if ok then Walk(b1, d, g + 1, k) else (b1, false)
  }

  /** Frees the device's interrupt if it has one. */
  function DropIrq(b: Board, d: int): Board
    requires d in b.devs
  {
    if b.devs[d].irqNo == NO_VALUE then b else b.(irqs := b.irqs - {b.devs[d].irqNo})
  }

  /** CONFIG_PINS up to the walk: the old interrupt goes, the pins are recorded. */
  function Renamed(b: Board, d: int, trigger: int, echo: int): Board
    requires d in b.devs
  {
    var dev := b.devs[d];
    if dev.echo != NO_VALUE && dev.irqNo != NO_VALUE then
      DropIrq(b, d).(devs := b.devs[d := dev.(trigger := trigger, echo := echo, irqNo := NO_VALUE)])
    else b.(devs := b.devs[d := dev.(trigger := trigger, echo := echo)])
  }

  function ConfigPins(b: Board, d: int, trigger: int, echo: int, k: Kernel): (r: (Board, bool))
    requires b.Sized() && d in b.devs
    ensures r.0.Sized() && r.0.table == b.table
  {
    if !PinsAccepted(trigger, echo) then (b, false)
    else
      var (b1, ok) := Walk(Renamed(b, d, trigger, echo), d, 0, k);
      if ok then (b1.(devs := b1.devs[d := b1.devs[d].(pinsSet := true)]), true) else (b1, false)
  }

  predicate Owns(status: seq<Status>, g: int, d: int) {
    0 <= g < |status| && status[g].configured && status[g].owner == d
  }

  /** The lines of the configured groups recorded under `d` among the first `n`. */
  function OwnedLines(table: seq<Group>, status: seq<Status>, d: int, n: nat): set<int>
    requires n <= |table| == |status|
  {
    if n == 0 then {}
    else OwnedLines(table, status, d, n - 1) + if Owns(status, n - 1, d) then table[n - 1].Lines() else {}
  }

  function Cleared(st: Status, d: int): Status {
    if st.configured && st.owner == d then Status(false, NO_VALUE) else st
  }

  function ClearedFlags(status: seq<Status>, d: int): seq<Status> {
    seq(|status|, g requires 0 <= g < |status| => Cleared(status[g], d))
  }

  function Release(b: Board, d: int): Board
    requires b.Sized() && d in b.devs
  {
    DropIrq(b, d).(
      status := ClearedFlags(b.status, d),
      held := b.held - OwnedLines(b.table, b.status, d, |b.table|),
      devs := b.devs[d := FRESH_DEV])
  }

  function Open(b: Board, d: int): Board
    requires d in b.devs
  {
    b.(devs := b.devs[d := FRESH_DEV])
  }

  // ----- Invariants -----

  predicate Uses(table: seq<Group>, g: int, x: int) {
    0 <= g < |table| && x in table[g].Lines()
  }

  /** Pin names are unique, and no line belongs to two groups. */
  ghost predicate TableOk(table: seq<Group>) {
    && (forall g :: 0 <= g < |table| ==> table[g].Ok())
    && (forall g, h :: 0 <= g < |table| && 0 <= h < |table| && table[g].io == table[h].io ==> g == h)
    && (forall g, h, x :: Uses(table, g, x) && Uses(table, h, x) ==> g == h)
  }

  /** The held lines are exactly the lines of the groups flagged configured. */
  ghost predicate PinsOk(b: Board) {
    && TableOk(b.table) && b.Sized()
    && forall x :: x in b.held <==> exists g :: Uses(b.table, g, x) && b.status[g].configured
  }

  /** A device's interrupt number, if any, is registered for that device. */
  ghost predicate NumbersBacked(b: Board) {
    forall d :: d in b.devs && b.devs[d].irqNo != NO_VALUE ==>
      && b.devs[d].irqNo in b.irqs && b.irqs[b.devs[d].irqNo] == d
      && b.devs[d].echo != NO_VALUE
  }

  /** A device has an interrupt number exactly when one handler is registered
      for it, under that number. */
  ghost predicate IrqsOk(b: Board) {
    && NumbersBacked(b)
    && forall i :: i in b.irqs ==> i >= 0 && b.irqs[i] in b.devs && b.devs[b.irqs[i]].irqNo == i
  }

  // ----- The driver -----

  class PinDriver {
    const table: seq<Group>
    var status: seq<Status>
    var held: set<int>
    var irqs: map<int, int>
    var devs: map<int, Dev>

    function View(): Board
      reads this
    {
      Board(table, status, held, irqs, devs)
    }

    /** `hcsr04_init`: nothing is configured, held or registered. */
    constructor (table: seq<Group>, minors: set<int>)
      requires TableOk(table)
      ensures View() == Board(table, seq(|table|, _ => Status(false, NO_VALUE)), {}, map[],
                              map d | d in minors :: FRESH_DEV)
      ensures PinsOk(View()) && NumbersBacked(View())
    {
      this.table := table;
      status := seq(|table|, _ => Status(false, NO_VALUE));
      held, irqs := {}, map[];
      devs := map d | d in minors :: FRESH_DEV;
    }

    /** `hcsr04_open`, its pin and interrupt part. */
    method OpenDevice(d: int)
      requires d in devs
      modifies `devs
      ensures View() == Open(old(View()), d)
    {
      devs := devs[d := FRESH_DEV];
    }

    /** `gpio_request` of a line the driver does not hold yet. */
    method GpioRequest(pin: int, k: Kernel) returns (ret: int)
      requires pin !in held
      modifies `held
      ensures ret == 0 <==> pin in k.lines
      ensures held == if ret == 0 then old(held) + {pin} else old(held)
    {
      if pin in k.lines {
        held := held + {pin};
        ret := 0;
      } else {
        ret := 1;
      }
    }

    /** `gpio_free` of a line the driver holds. */
    method GpioFree(pin: int)
      requires pin in held
      modifies `held
      ensures held == old(held) - {pin}
    {
      held := held - {pin};
    }

    /** `pin_config`: only `configure` requests the line, so updating cannot fail. */
    method PinConfig(pin: int, configure: bool, k: Kernel) returns (ret: int)
      requires configure ==> pin !in held
      modifies `held
      ensures ret == 0 <==> !configure || pin in k.lines
      ensures held == if configure && ret == 0 then old(held) + {pin} else old(held)
    {
      if configure {
        ret := GpioRequest(pin, k);
        if ret != 0 {
          return 1;
        }
      }
      ret := 0;
    }

    /** The acquisition of an unconfigured group: up to four requests, each
        failure undoing the ones before it. */
    method AcquireGroup(group: Group, k: Kernel) returns (ok: bool)
      requires group.Ok() && group.Lines() !! held
      modifies `held
      ensures ok <==> group.Lines() <= k.lines
      ensures held == if ok then old(held) + group.Lines() else old(held)
    {
      var ret := PinConfig(group.line, true, k);
      if ret != 0 {
        return false;
      }
      if group.shifter != NO_PIN {
        ret := PinConfig(group.shifter, true, k);
        if ret != 0 {
          GpioFree(group.line);
          return false;
        }
      }
      if group.mux1 != NO_PIN {
        ret := PinConfig(group.mux1, true, k);
        if ret != 0 {
          GpioFree(group.line);
          if group.shifter != NO_PIN {
            GpioFree(group.shifter);
          }
          return false;
        }
      }
      if group.mux2 != NO_PIN {
        ret := PinConfig(group.mux2, true, k);
        if ret != 0 {
          GpioFree(group.line);
          if group.shifter != NO_PIN {
            GpioFree(group.shifter);
          }
          if group.mux1 != NO_PIN {
            GpioFree(group.mux1);
          }
          return false;
        }
      }
      return true;
    }

    /** The update of a configured group. Its failure branches, which would free
        the group's lines, cannot be reached. */
    method UpdateGroup(group: Group, k: Kernel)
      modifies `held
      ensures held == old(held)
    {
      var ret := PinConfig(group.line, false, k);
      if ret != 0 {
        assert false;
      }
      if group.shifter != NO_PIN {
        ret := PinConfig(group.shifter, false, k);
        if ret != 0 {
          assert false;
        }
      }
    }

    /** `configure_interrupt`: `request_irq` refuses a number already taken. */
    method ConfigureInterrupt(d: int, line: int, k: Kernel) returns (ok: bool)
      requires d in devs
      modifies `irqs, `devs
      ensures (View(), ok) == ClaimIrq(old(View()), d, line, k)
    {
      var irq := k.irqOf(line);
      if irq < 0 {
        return false;
      }
      if irq in irqs || irq !in k.irqs {
        return false;
      }
      irqs := irqs[irq := d];
      devs := devs[d := devs[d].(irqNo := irq, irqEcho := line)];
      return true;
    }

    /** `configure_pins`. */
    method ConfigurePins(d: int, k: Kernel) returns (ok: bool)
      requires PinsOk(View()) && d in devs
      modifies this
      ensures (View(), ok) == Walk(old(View()), d, 0, k)
      ensures PinsOk(View())
    {
      var g := 0;
      while g < |table|
        invariant 0 <= g <= |table| && d in devs && PinsOk(View())
        invariant Walk(old(View()), d, 0, k) == Walk(View(), d, g, k)
        decreases |table| - g
      {
        if devs[d].trigger == table[g].io || devs[d].echo == table[g].io {
          var visited := VisitNamed(d, g, k);
          if !visited {
            return false;
          }
        }
        g := g + 1;
      }
      return true;
    }

    /** The body of the walk for a group the device names. */
    method VisitNamed(d: int, g: nat, k: Kernel) returns (ok: bool)
      requires PinsOk(View()) && d in devs && g < |table| && Named(devs[d], table[g])
      modifies this
      ensures (View(), ok) == Visit(old(View()), d, g, k)
      ensures PinsOk(View())
    {
      var group := table[g];
      var output := devs[d].echo != group.io;
      TakeGroupKeepsPins(View(), d, g);
      if status[g].configured {
        UpdateGroup(group, k);
      } else {
        UnconfiguredLinesFree(View(), g);
        var acquired := AcquireGroup(group, k);
        if !acquired {
          return false;
        }
        status := status[g := Status(true, d)];
      }
      if !output {
        ok := ConfigureInterrupt(d, group.line, k);
      } else {
        devs := devs[d := devs[d].(irqTrigger := group.line)];
        ok := true;
      }
    }

    /** `is_edge_interruptible`. */
    method IsEdgeInterruptible(io: int) returns (r: bool)
      ensures r <==> EdgeCapable(io)
    {
      var nonEcho := [0, 1, 7, 8, 10, 12];
      r := true;
      for i := 0 to |nonEcho|
        invariant r <==> io !in nonEcho[..i]
      {
        if nonEcho[i] == io {
          r := false;
        }
      }
      assert nonEcho[..|nonEcho|] == nonEcho;
    }

    /** The CONFIG_PINS ioctl. */
    method ConfigPinsIoctl(d: int, trigger: int, echo: int, k: Kernel) returns (ok: bool)
      requires PinsOk(View()) && NumbersBacked(View()) && d in devs
      modifies this
      ensures (View(), ok) == ConfigPins(old(View()), d, trigger, echo, k)
      ensures PinsOk(View())
    {
      var interruptible := IsEdgeInterruptible(echo);
      if trigger < 0 || trigger > 12 || echo < 0 || echo > 12 || !interruptible {
        return false;
      }
      if devs[d].echo != NO_VALUE && devs[d].irqNo != NO_VALUE {
        FreeIrq(devs[d].irqNo, d);
        devs := devs[d := devs[d].(echo := NO_VALUE, irqNo := NO_VALUE)];
      }
      devs := devs[d := devs[d].(trigger := trigger, echo := echo)];
      assert View() == Renamed(old(View()), d, trigger, echo);
      ok := ConfigurePins(d, k);
      if ok {
        devs := devs[d := devs[d].(pinsSet := true)];
      }
    }

    /** `free_irq` of a handler registered for device `d`. */
    method FreeIrq(irq: int, d: int)
      requires irq in irqs && irqs[irq] == d
      modifies `irqs
      ensures irqs == old(irqs) - {irq}
    {
      irqs := irqs - {irq};
    }

    /** `release_gpio_pins` at one group, where `b` is the board before the walk. */
    method ReleaseOwned(d: int, g: nat, ghost b: Board)
      requires PinsOk(b) && b.table == table && g < |table| == |status| && status[g] == b.status[g]
      requires held == b.held - OwnedLines(table, b.status, d, g)
      modifies `status, `held
      ensures status == old(status)[g := Cleared(b.status[g], d)]
      ensures held == b.held - OwnedLines(table, b.status, d, g + 1)
    {
      OwnedLinesGrow(b, d, g);
      if status[g].configured && status[g].owner == d {
        OwnedLinesHeld(b, d, g);
        ReleaseGroup(table[g]);
        status := status[g := Status(false, NO_VALUE)];
      }
    }

    /** `release_gpio_pins` for a device. */
    method ReleaseGpioPins(d: int)
      requires PinsOk(View())
      modifies `status, `held
      ensures status == ClearedFlags(old(status), d)
      ensures held == old(held) - OwnedLines(table, old(status), d, |table|)
    {
      ghost var b := View();
      for g := 0 to |table|
        invariant |status| == |table|
        invariant forall h :: 0 <= h < |table| ==> status[h] == if h < g then Cleared(b.status[h], d) else b.status[h]
        invariant held == b.held - OwnedLines(table, b.status, d, g)
      {
        ReleaseOwned(d, g, b);
      }
    }

    /** Frees the lines of one group. */
    method ReleaseGroup(group: Group)
      requires group.Ok() && group.Lines() <= held
      modifies `held
      ensures held == old(held) - group.Lines()
    {
      GpioFree(group.line);
      if group.shifter != NO_PIN {
        GpioFree(group.shifter);
      }
      if group.mux1 != NO_PIN {
        GpioFree(group.mux1);
      }
      if group.mux2 != NO_PIN {
        GpioFree(group.mux2);
      }
    }

    /** `hcsr04_release`, its pin and interrupt part. */
    method ReleaseDevice(d: int)
      requires PinsOk(View()) && NumbersBacked(View()) && d in devs
      modifies this
      ensures View() == Release(old(View()), d)
    {
      if devs[d].irqNo != NO_VALUE {
        FreeIrq(devs[d].irqNo, d);
      }
      ReleaseGpioPins(d);
      devs := devs[d := FRESH_DEV];
    }
  }

  // ----- One step keeps the lines accounted for -----

  lemma UnconfiguredLinesFree(b: Board, g: nat)
    requires PinsOk(b) && g < |b.table| && !b.status[g].configured
    ensures b.table[g].Lines() !! b.held
  {
    forall x | x in b.table[g].Lines() ensures x !in b.held {
      assert Uses(b.table, g, x);
    }
  }

  lemma TakeGroupKeepsPins(b: Board, d: int, g: nat)
    requires PinsOk(b) && g < |b.table|
    ensures PinsOk(TakeGroup(b, d, g))
  {
    var b1 := TakeGroup(b, d, g);
    forall x ensures x in b1.held <==> exists h :: Uses(b.table, h, x) && b1.status[h].configured {
      if x in b.table[g].Lines() {
        assert Uses(b.table, g, x) && b1.status[g].configured;
        assert x in b.held || !b.status[g].configured;
      } else if x in b.held {
        var h :| Uses(b.table, h, x) && b.status[h].configured;
        assert b1.status[h].configured;
      }
    }
  }

  lemma {:induction false} OwnedLinesAre(b: Board, d: int, n: nat, x: int)
    requires b.Sized() && n <= |b.table|
    ensures x in OwnedLines(b.table, b.status, d, n) <==>
              exists g :: g < n && Uses(b.table, g, x) && Owns(b.status, g, d)
  {
    if n > 0 {
      OwnedLinesAre(b, d, n - 1, x);
      if x in b.table[n - 1].Lines() {
        assert Uses(b.table, n - 1, x);
      }
    }
  }

  lemma OwnedLinesGrow(b: Board, d: int, g: nat)
    requires b.Sized() && g < |b.table|
    ensures OwnedLines(b.table, b.status, d, g + 1)
         == OwnedLines(b.table, b.status, d, g) + if Owns(b.status, g, d) then b.table[g].Lines() else {}
  {
  }

  /** When the release walk reaches a group of `d`, all its lines are still held. */
  lemma OwnedLinesHeld(b: Board, d: int, g: nat)
    requires PinsOk(b) && g < |b.table| && Owns(b.status, g, d)
    ensures b.table[g].Lines() <= b.held - OwnedLines(b.table, b.status, d, g)
  {
    forall x | x in b.table[g].Lines() ensures x in b.held && x !in OwnedLines(b.table, b.status, d, g) {
      assert Uses(b.table, g, x);
      OwnedLinesAre(b, d, g, x);
    }
  }
}
