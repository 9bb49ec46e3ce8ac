/** Every interleaving of CONFIG_PINS, open and release by any devices. */
module HcsrPinRuns {
  import opened HcsrPins
  import Runs

  // ----- The Galileo table -----

  /** `populate_gen2_pins_data`, in the order of its calls. */
  const GALILEO_PINS: seq<Group> := [
    Group(0, 11, 32, NO_PIN, NO_PIN), Group(1, 12, 28, 45, NO_PIN), Group(2, 61, NO_PIN, 77, NO_PIN),
    Group(3, 62, NO_PIN, 76, 64), Group(4, 6, 36, NO_PIN, NO_PIN), Group(5, 0, 18, 66, NO_PIN),
    Group(6, 1, 20, 68, NO_PIN), Group(7, 38, NO_PIN, NO_PIN, NO_PIN), Group(8, 40, NO_PIN, NO_PIN, NO_PIN),
    Group(9, 4, 22, 70, NO_PIN), Group(10, 10, 26, 74, NO_PIN), Group(11, 5, 24, 44, 72),
    Group(12, 15, 42, NO_PIN, NO_PIN), Group(13, 7, 30, 46, NO_PIN)]

  /** The list after `n` calls: each new pin goes in front (`populate_pin_data`). */
  function Populated(n: nat): (table: seq<Group>)
    requires n <= |GALILEO_PINS|
    ensures |table| == n && forall g :: 0 <= g < n ==> table[g] == GALILEO_PINS[n - 1 - g]
  {
    if n == 0 then [] else [GALILEO_PINS[n - 1]] + Populated(n - 1)
  }

  function GalileoTable(): seq<Group> {
    Populated(|GALILEO_PINS|)
  }

  /** The only pin a line may belong to. */
  function HomeOf(x: int): int {
    if x in {11, 32} then 0 else if x in {12, 28, 45} then 1 else if x in {61, 77} then 2
    else if x in {62, 76, 64} then 3 else if x in {6, 36} then 4 else if x in {0, 18, 66} then 5
    else if x in {1, 20, 68} then 6 else if x == 38 then 7 else if x == 40 then 8
    else if x in {4, 22, 70} then 9 else if x in {10, 26, 74} then 10 else if x in {5, 24, 44, 72} then 11
    else if x in {15, 42} then 12 else 13
  }

  lemma PinOk(g: Group)
    requires g in GALILEO_PINS
    ensures g.Ok() && g.line < 64 && forall x :: x in g.Lines() ==> HomeOf(x) == g.io
  {
  }

  /** The table of the board is sound: pins IO13 down to IO0, each once, no line
      in two groups, and every main line in the range whose direction can be set. */
  lemma GalileoTableOk()
    ensures TableOk(GalileoTable()) && |GalileoTable()| == 14
    ensures forall g :: 0 <= g < 14 ==> GalileoTable()[g].io == 13 - g && GalileoTable()[g].line < 64
  {
    var t := GalileoTable();
    assert forall i :: 0 <= i < 14 ==> GALILEO_PINS[i].io == i;
    forall g | 0 <= g < 14
      ensures t[g].Ok() && t[g].io == 13 - g && t[g].line < 64
      ensures forall x :: x in t[g].Lines() ==> HomeOf(x) == 13 - g
    {
      PinOk(t[g]);
    }
    forall g, x | Uses(t, g, x) ensures HomeOf(x) == 13 - g {}
  }

  // ----- Runs -----

  datatype Event =
    | Opens(d: int)
    | Configures(d: int, trigger: int, echo: int, k: Kernel)
    | Releases(d: int)

  /** Calls for a minor that no device has do nothing. */
  function Step(b: Board, e: Event): Board {
    if !b.Sized() || e.d !in b.devs then b
    else match e
      case Opens(d) => Open(b, d)
      case Configures(d, trigger, echo, k) => ConfigPins(b, d, trigger, echo, k).0
      case Releases(d) => Release(b, d)
  }

  /** The board after the first `n` events. */
  function Run(b: Board, es: seq<Event>, n: nat): Board
    requires n <= |es|
  {
    Runs.Run(Step, b, es, n)
  }

  /** Nothing configured, held or registered. */
  ghost predicate Fresh(b: Board) {
    && TableOk(b.table) && b.Sized()
    && (forall g :: 0 <= g < |b.status| ==> !b.status[g].configured)
    && b.held == {} && b.irqs == map[]
    && forall d :: d in b.devs ==> b.devs[d] == FRESH_DEV
  }

  function LiveAfter(live: set<int>, e: Event): set<int> {
    match e
    case Opens(_) => live
    case Configures(d, _, _, _) => live + {d}
    case Releases(d) => live - {d}
  }

  /** The devices that called CONFIG_PINS after their last release. */
  function Live(es: seq<Event>, n: nat): set<int>
    requires n <= |es|
  {
    if n == 0 then {} else LiveAfter(Live(es, n - 1), es[n - 1])
  }

  predicate OpensNew(es: seq<Event>, k: nat)
    requires k < |es|
  {
    es[k].Opens? ==> es[k].d !in Live(es, k)
  }

  /** No device is opened a second time after it was configured. */
  predicate OpenedOnce(es: seq<Event>, n: nat)
    requires n <= |es|
  {
    forall k: nat :: k < n ==> OpensNew(es, k)
  }

  // ----- The walk -----

  /** The flags of `b1` are those of `b`, except for free groups the device names. */
  ghost predicate OnlyNamedTaken(b: Board, b1: Board, d: int, dev: Dev) {
    && b.Sized() && b1.Sized() && b1.table == b.table
    && forall h :: 0 <= h < |b.table| ==>
         b1.status[h] == b.status[h]
         || (Named(dev, b.table[h]) && !b.status[h].configured && b1.status[h] == Status(true, d))
  }

  /** Nothing but `d` has changed, and `d` still has the same pins. */
  ghost predicate OthersKept(b: Board, b1: Board, d: int)
    requires d in b.devs
  {
    && b1.devs.Keys == b.devs.Keys
    && (forall e :: e in b.devs && e != d ==> b1.devs[e] == b.devs[e])
    && b1.devs[d].trigger == b.devs[d].trigger && b1.devs[d].echo == b.devs[d].echo
  }

  lemma VisitTakesNamed(b: Board, d: int, g: nat, k: Kernel)
    requires b.Sized() && d in b.devs && g < |b.table|
    ensures var b1 := Visit(b, d, g, k).0;
            OnlyNamedTaken(b, b1, d, b.devs[d]) && OthersKept(b, b1, d)
  {
  }

  lemma VisitKeepsPins(b: Board, d: int, g: nat, k: Kernel)
    requires PinsOk(b) && d in b.devs && g < |b.table|
    ensures var b1 := Visit(b, d, g, k).0;
            PinsOk(b1) && OnlyNamedTaken(b, b1, d, b.devs[d]) && OthersKept(b, b1, d)
  {
    var b1 := Visit(b, d, g, k).0;
    VisitTakesNamed(b, d, g, k);
    TakeGroupKeepsPins(b, d, g);
    SameLines(TakeGroup(b, d, g), b1);
    SameLines(b, b1);
  }

  /** Whether the lines are accounted for depends on table, flags and lines only. */
  lemma SameLines(b: Board, b1: Board)
    ensures PinsOk(b) && b1.table == b.table && b1.status == b.status && b1.held == b.held ==> PinsOk(b1)
  {
  }

  /** The walk keeps the lines accounted for, takes only groups the device names,
      records them under the device, and leaves every other group alone. */
  lemma {:induction false} WalkKeepsPins(b: Board, d: int, g: nat, k: Kernel)
    requires PinsOk(b) && d in b.devs && g <= |b.table|
    ensures var b1 := Walk(b, d, g, k).0;
            PinsOk(b1) && OnlyNamedTaken(b, b1, d, b.devs[d]) && OthersKept(b, b1, d)
    decreases |b.table| - g
  {
    if g < |b.table| {
      var (b1, ok) := Visit(b, d, g, k);
      VisitKeepsPins(b, d, g, k);
      if ok {
        WalkKeepsPins(b1, d, g + 1, k);
      }
    }
  }

  /** A visit keeps the interrupts in order and sets the device's number only at
      the group of its echo pin. */
  lemma VisitKeepsIrqs(b: Board, d: int, g: nat, k: Kernel)
    requires b.Sized() && NumbersBacked(b) && d in b.devs && g < |b.table|
    requires b.devs[d].echo != NO_VALUE
    requires b.devs[d].irqNo != NO_VALUE ==> b.table[g].io != b.devs[d].echo
    ensures var b1 := Visit(b, d, g, k).0;
            && NumbersBacked(b1) && (IrqsOk(b) ==> IrqsOk(b1))
            && (forall i :: i in b1.irqs ==> b1.irqs[i] == d || (i in b.irqs && b1.irqs[i] == b.irqs[i]))
            && b1.devs[d].echo == b.devs[d].echo
            && (b.table[g].io != b.devs[d].echo ==> b1.devs[d].irqNo == b.devs[d].irqNo)
  {
  }

  /** The walk claims at most one interrupt: pin names are unique. */
  lemma {:induction false} WalkKeepsIrqs(b: Board, d: int, g: nat, k: Kernel)
    requires TableOk(b.table) && b.Sized() && NumbersBacked(b) && d in b.devs && g <= |b.table|
    requires b.devs[d].echo != NO_VALUE
    requires b.devs[d].irqNo != NO_VALUE ==> forall h :: g <= h < |b.table| ==> b.table[h].io != b.devs[d].echo
    ensures var b1 := Walk(b, d, g, k).0;
            && NumbersBacked(b1) && (IrqsOk(b) ==> IrqsOk(b1))
            && forall i :: i in b1.irqs ==> b1.irqs[i] == d || (i in b.irqs && b1.irqs[i] == b.irqs[i])
    decreases |b.table| - g
  {
    if g < |b.table| {
      var (b1, ok) := Visit(b, d, g, k);
      VisitKeepsIrqs(b, d, g, k);
      if ok {
        WalkKeepsIrqs(b1, d, g + 1, k);
      }
    }
  }

  /** The kernel lets the device have this line's interrupt. */
  predicate Claimable(b: Board, line: int, k: Kernel) {
    k.irqOf(line) >= 0 && k.irqOf(line) !in b.irqs && k.irqOf(line) in k.irqs
  }

  predicate Takeable(b: Board, g: nat, k: Kernel)
    requires b.Sized() && g < |b.table|
  {
    b.status[g].configured || b.table[g].Lines() <= k.lines
  }

  ghost predicate CanVisit(b: Board, dev: Dev, g: nat, k: Kernel)
    requires b.Sized() && g < |b.table|
  {
    && (Named(dev, b.table[g]) ==> Takeable(b, g, k))
    && (dev.echo == b.table[g].io ==> Claimable(b, b.table[g].line, k))
  }

  lemma {:induction false} WalkSucceedsIff(b: Board, d: int, g: nat, k: Kernel)
    requires TableOk(b.table) && b.Sized() && d in b.devs && g <= |b.table|
    ensures Walk(b, d, g, k).1 <==> forall h :: g <= h < |b.table| ==> CanVisit(b, b.devs[d], h, k)
    decreases |b.table| - g
  {
    if g < |b.table| {
      var (b1, ok) := Visit(b, d, g, k);
      assert ok <==> CanVisit(b, b.devs[d], g, k);
      if ok {
        WalkSucceedsIff(b1, d, g + 1, k);
        forall h | g + 1 <= h < |b.table|
          ensures CanVisit(b1, b1.devs[d], h, k) <==> CanVisit(b, b.devs[d], h, k)
        {
          assert b.table[h].io != b.table[g].io;
        }
      }
    }
  }

  /** What a successful walk has done at one group. */
  ghost predicate Visited(b: Board, b1: Board, d: int, h: nat, k: Kernel)
    requires d in b.devs && h < |b.table|
  {
    var dev := b.devs[d];
    && b1.table == b.table && b1.Sized() && d in b1.devs
    && (Named(dev, b.table[h]) ==> b1.status[h].configured)
    && (dev.echo == b.table[h].io ==>
          && b1.devs[d].irqNo == k.irqOf(b.table[h].line)
          && b1.devs[d].irqEcho == b.table[h].line
          && b1.devs[d].irqNo in b1.irqs && b1.irqs[b1.devs[d].irqNo] == d)
    && (dev.trigger == b.table[h].io != dev.echo ==> b1.devs[d].irqTrigger == b.table[h].line)
  }

  /** Everything a walk may not undo: the pins, other registrations, and the
      device's own records about pins that the walk does not meet. */
  ghost predicate Carried(b: Board, b1: Board, d: int, echoMet: bool, triggerMet: bool)
    requires d in b.devs && d in b1.devs
  {
    var dev, dev1 := b.devs[d], b1.devs[d];
    && dev1.trigger == dev.trigger && dev1.echo == dev.echo
    && (forall i :: i in b.irqs ==> i in b1.irqs && b1.irqs[i] == b.irqs[i])
    && (!echoMet ==> dev1.irqNo == dev.irqNo && dev1.irqEcho == dev.irqEcho)
    && (!triggerMet || dev.trigger == dev.echo ==> dev1.irqTrigger == dev.irqTrigger)
  }

  lemma VisitDone(b: Board, d: int, g: nat, k: Kernel)
    requires b.Sized() && d in b.devs && g < |b.table| && Visit(b, d, g, k).1
    ensures var b1, dev, group := Visit(b, d, g, k).0, b.devs[d], b.table[g];
            Visited(b, b1, d, g, k) && Carried(b, b1, d, dev.echo == group.io, dev.trigger == group.io)
  {
  }

  ghost predicate Met(table: seq<Group>, g: nat, io: int) {
    exists h :: g <= h < |table| && table[h].io == io
  }

  /** A visit of the rest of the walk counts for the whole of it. */
  lemma LaterVisited(b: Board, b1: Board, b2: Board, d: int, h: nat, k: Kernel)
    requires d in b.devs && d in b1.devs && h < |b.table| && b1.table == b.table
    requires b1.devs[d].trigger == b.devs[d].trigger && b1.devs[d].echo == b.devs[d].echo
    requires Visited(b1, b2, d, h, k)
    ensures Visited(b, b2, d, h, k)
  {
  }

  /** The rest of the walk, not meeting the pin again, keeps what a visit did. */
  lemma EarlierVisited(b: Board, b1: Board, b2: Board, d: int, g: nat, k: Kernel, echoMet: bool, triggerMet: bool)
    requires b.Sized() && d in b.devs && g < |b.table| && Visited(b, b1, d, g, k)
    requires b1.devs[d].trigger == b.devs[d].trigger && b1.devs[d].echo == b.devs[d].echo
    requires d in b2.devs && Carried(b1, b2, d, echoMet, triggerMet) && OnlyNamedTaken(b1, b2, d, b1.devs[d])
    requires b.devs[d].echo == b.table[g].io ==> !echoMet
    requires b.devs[d].trigger == b.table[g].io ==> !triggerMet
    ensures Visited(b, b2, d, g, k)
  {
  }

  lemma {:induction false} WalkDone(b: Board, d: int, g: nat, k: Kernel)
    requires PinsOk(b) && d in b.devs && g <= |b.table| && Walk(b, d, g, k).1
    ensures var b1, dev := Walk(b, d, g, k).0, b.devs[d];
            Carried(b, b1, d, Met(b.table, g, dev.echo), Met(b.table, g, dev.trigger))
    ensures forall h :: g <= h < |b.table| ==> Visited(b, Walk(b, d, g, k).0, d, h, k)
    decreases |b.table| - g
  {
    if g < |b.table| {
      var b1, b2, dev := Visit(b, d, g, k).0, Walk(b, d, g, k).0, b.devs[d];
      VisitKeepsPins(b, d, g, k);
      VisitDone(b, d, g, k);
      WalkDone(b1, d, g + 1, k);
      WalkKeepsPins(b1, d, g + 1, k);
      NotMetAgain(b.table, g);
      forall h | g <= h < |b.table| ensures Visited(b, b2, d, h, k) {
        if h > g {
          LaterVisited(b, b1, b2, d, h, k);
        } else {
          EarlierVisited(
            b, b1, b2, d, g, k, Met(b.table, g + 1, dev.echo), Met(b.table, g + 1, dev.trigger));
        }
      }
    }
  }

  lemma NotMetAgain(table: seq<Group>, g: nat)
    requires TableOk(table) && g < |table|
    ensures !Met(table, g + 1, table[g].io)
  {
  }

  // ----- One CONFIG_PINS call -----

  lemma RenamedOk(b: Board, d: int, trigger: int, echo: int)
    requires PinsOk(b) && NumbersBacked(b) && d in b.devs && echo >= 0
    ensures var b1 := Renamed(b, d, trigger, echo);
            && PinsOk(b1) && NumbersBacked(b1) && b1.devs[d].irqNo == NO_VALUE
            && (IrqsOk(b) ==> IrqsOk(b1) && forall i :: i in b1.irqs <==> i in b.irqs && b.irqs[i] != d)
  {
  }

  /** CONFIG_PINS succeeds exactly when the pins are acceptable, the kernel
      grants the lines of each named group that is not configured yet, and the
      echo line has an interrupt that the kernel grants and no other device has. */
  lemma ConfigSucceedsIff(b: Board, d: int, trigger: int, echo: int, k: Kernel)
    requires PinsOk(b) && IrqsOk(b) && d in b.devs
    ensures ConfigPins(b, d, trigger, echo, k).1 <==>
              && PinsAccepted(trigger, echo)
              && (forall g :: 0 <= g < |b.table| && b.table[g].io in {trigger, echo} ==> Takeable(b, g, k))
              && (forall g :: 0 <= g < |b.table| && b.table[g].io == echo ==>
                    var irq := k.irqOf(b.table[g].line);
                    irq >= 0 && irq in k.irqs && (irq in b.irqs ==> b.irqs[irq] == d))
  {
    if PinsAccepted(trigger, echo) {
      var b1 := Renamed(b, d, trigger, echo);
      RenamedOk(b, d, trigger, echo);
      WalkSucceedsIff(b1, d, 0, k);
      forall g | 0 <= g < |b.table|
        ensures CanVisit(b1, b1.devs[d], g, k) <==>
                  && (b.table[g].io in {trigger, echo} ==> Takeable(b, g, k))
                  && (b.table[g].io == echo ==>
                        var irq := k.irqOf(b.table[g].line);
                        irq >= 0 && irq in k.irqs && (irq in b.irqs ==> b.irqs[irq] == d))
      {
      }
    }
  }

  /** After a successful call the named groups are configured and held, the
      device has the interrupt of its echo line and the trigger line on record
      (the latter only when the two pins differ). */
  lemma ConfigDone(b: Board, d: int, trigger: int, echo: int, k: Kernel, g: nat)
    requires PinsOk(b) && IrqsOk(b) && d in b.devs && g < |b.table|
    requires ConfigPins(b, d, trigger, echo, k).1
    ensures var b1 := ConfigPins(b, d, trigger, echo, k).0;
            && d in b1.devs && b1.devs[d].pinsSet
            && b1.devs[d].trigger == trigger && b1.devs[d].echo == echo
            && (b.table[g].io in {trigger, echo} ==> b1.status[g].configured && b.table[g].Lines() <= b1.held)
            && (b.table[g].io == echo ==>
                  && b1.devs[d].irqNo == k.irqOf(b.table[g].line) && b1.devs[d].irqEcho == b.table[g].line
                  && b1.devs[d].irqNo in b1.irqs && b1.irqs[b1.devs[d].irqNo] == d)
            && (b.table[g].io == trigger != echo ==> b1.devs[d].irqTrigger == b.table[g].line)
  {
    var r := Renamed(b, d, trigger, echo);
    RenamedOk(b, d, trigger, echo);
    WalkDone(r, d, 0, k);
    WalkKeepsPins(r, d, 0, k);
    var w := Walk(r, d, 0, k).0;
    assert Visited(r, w, d, g, k);
    if w.status[g].configured {
      forall x | x in b.table[g].Lines() ensures x in w.held {
        assert Uses(b.table, g, x);
      }
    }
  }

  lemma ConfigKeepsPins(b: Board, d: int, trigger: int, echo: int, k: Kernel)
    requires PinsOk(b) && NumbersBacked(b) && d in b.devs
    ensures var b1 := ConfigPins(b, d, trigger, echo, k).0;
            && PinsOk(b1) && b1.devs.Keys == b.devs.Keys
            && (forall g :: 0 <= g < |b.table| ==>
                  b1.status[g] == b.status[g]
                  || (b.table[g].io in {trigger, echo} && !b.status[g].configured && b1.status[g] == Status(true, d)))
            && forall e :: e in b.devs && e != d ==> b1.devs[e] == b.devs[e]
  {
    if PinsAccepted(trigger, echo) {
      RenamedOk(b, d, trigger, echo);
      WalkKeepsPins(Renamed(b, d, trigger, echo), d, 0, k);
    }
  }

  lemma ConfigKeepsIrqs(b: Board, d: int, trigger: int, echo: int, k: Kernel)
    requires PinsOk(b) && NumbersBacked(b) && d in b.devs
    ensures var b1 := ConfigPins(b, d, trigger, echo, k).0;
            && NumbersBacked(b1) && (IrqsOk(b) ==> IrqsOk(b1))
            && forall i :: i in b1.irqs ==> b1.irqs[i] == d || (i in b.irqs && b1.irqs[i] == b.irqs[i])
  {
    if PinsAccepted(trigger, echo) {
      RenamedOk(b, d, trigger, echo);
      WalkKeepsIrqs(Renamed(b, d, trigger, echo), d, 0, k);
    }
  }

  /** Whether it succeeds or fails, a call keeps the lines and the interrupts
      accounted for, changes only groups that it names and that were free, and
      touches no other device. */
  lemma ConfigKeeps(b: Board, d: int, trigger: int, echo: int, k: Kernel)
    requires PinsOk(b) && NumbersBacked(b) && d in b.devs
    ensures var b1 := ConfigPins(b, d, trigger, echo, k).0;
            && PinsOk(b1) && NumbersBacked(b1) && b1.devs.Keys == b.devs.Keys
            && (IrqsOk(b) ==> IrqsOk(b1))
            && (forall i :: i in b1.irqs ==> b1.irqs[i] == d || (i in b.irqs && b1.irqs[i] == b.irqs[i]))
            && (forall g :: 0 <= g < |b.table| ==>
                  b1.status[g] == b.status[g]
                  || (b.table[g].io in {trigger, echo} && !b.status[g].configured && b1.status[g] == Status(true, d)))
            && forall e :: e in b.devs && e != d ==> b1.devs[e] == b.devs[e]
  {
    ConfigKeepsPins(b, d, trigger, echo, k);
    ConfigKeepsIrqs(b, d, trigger, echo, k);
  }

  // ----- One release, one open -----

  /** Release frees exactly the lines of the groups recorded under the device
      and clears exactly their flags; every other group keeps its lines. */
  lemma ReleaseFreesExactly(b: Board, d: int, x: int)
    requires PinsOk(b) && d in b.devs
    ensures PinsOk(Release(b, d))
    ensures x in Release(b, d).held <==>
              x in b.held && !exists g :: Uses(b.table, g, x) && Owns(b.status, g, d)
    ensures x in Release(b, d).held <==>
              exists g :: Uses(b.table, g, x) && b.status[g].configured && b.status[g].owner != d
  {
    var b1 := Release(b, d);
    forall y
      ensures y in b1.held <==> exists g :: Uses(b.table, g, y) && b1.status[g].configured
      ensures y in b1.held <==> y in b.held && !exists g :: Uses(b.table, g, y) && Owns(b.status, g, d)
    {
      OwnedLinesAre(b, d, |b.table|, y);
      if y in b1.held {
        var g :| Uses(b.table, g, y) && b.status[g].configured;
        assert !Owns(b.status, g, d);
        assert b1.status[g].configured;
      }
      if g :| Uses(b.table, g, y) && b1.status[g].configured {
        assert b.status[g].configured && !Owns(b.status, g, d);
      }
    }
    if x in b1.held {
      var g :| Uses(b.table, g, x) && b1.status[g].configured;
      assert b.status[g].configured && b.status[g].owner != d;
    }
    if g :| Uses(b.table, g, x) && b.status[g].configured && b.status[g].owner != d {
      assert b1.status[g].configured;
    }
  }

  lemma ReleaseKeepsIrqs(b: Board, d: int)
    requires NumbersBacked(b) && b.Sized() && d in b.devs
    ensures NumbersBacked(Release(b, d))
    ensures IrqsOk(b) ==>
              IrqsOk(Release(b, d)) && forall i :: i in Release(b, d).irqs <==> i in b.irqs && b.irqs[i] != d
  {
  }

  /** A group configured by one device and reused by another goes away with its
      owner: after the owner's release the other device still believes its pins
      are set, and its trigger line is held exactly when it is not the owner's. */
  lemma ReusedGroupFollowsItsOwner(b: Board, owner: int, user: int, g: nat)
    requires PinsOk(b) && owner in b.devs && user in b.devs && owner != user
    requires g < |b.table| && b.status[g].configured
    requires b.devs[user].pinsSet && b.devs[user].irqTrigger == b.table[g].line
    ensures Release(b, owner).devs[user] == b.devs[user]
    ensures b.table[g].line in Release(b, owner).held <==> b.status[g].owner != owner
  {
    ReleaseFreesExactly(b, owner, b.table[g].line);
    assert Uses(b.table, g, b.table[g].line);
  }

  /** A second open forgets a registered interrupt without freeing it: it keeps
      the interrupts accounted for exactly when the device has none. */
  lemma OpenKeepsIrqsIff(b: Board, d: int)
    requires IrqsOk(b) && d in b.devs
    ensures IrqsOk(Open(b, d)) <==> b.devs[d].irqNo == NO_VALUE
  {
    var b1 := Open(b, d);
    if b.devs[d].irqNo != NO_VALUE {
      assert b.devs[d].irqNo in b1.irqs && b1.irqs[b.devs[d].irqNo] == d;
    }
  }

  // ----- Every run -----

  /** The lines are accounted for, each configured group is recorded under a live
      device, no interrupt number is kept that is not registered for its device,
      and the devices that are not live are as new. */
  ghost predicate Accounted(b: Board, minors: set<int>, live: set<int>) {
    && PinsOk(b) && NumbersBacked(b) && b.devs.Keys == minors
    && (forall g :: 0 <= g < |b.status| && b.status[g].configured ==>
          b.status[g].owner in live && b.status[g].owner in b.devs)
    && forall d :: d in b.devs && d !in live ==> b.devs[d] == FRESH_DEV
  }

  lemma OpenAccounted(b: Board, d: int, live: set<int>)
    requires Accounted(b, b.devs.Keys, live) && d in b.devs
    ensures Accounted(Open(b, d), b.devs.Keys, live)
  {
  }

  lemma ConfigAccounted(b: Board, e: Event, live: set<int>)
    requires Accounted(b, b.devs.Keys, live) && e.Configures? && e.d in b.devs
    ensures Accounted(Step(b, e), b.devs.Keys, live + {e.d})
  {
    ConfigKeeps(b, e.d, e.trigger, e.echo, e.k);
  }

  lemma ReleaseAccounted(b: Board, d: int, live: set<int>)
    requires Accounted(b, b.devs.Keys, live) && d in b.devs
    ensures Accounted(Release(b, d), b.devs.Keys, live - {d})
  {
    ReleaseFreesExactly(b, d, 0);
    ReleaseKeepsIrqs(b, d);
    assert forall g :: 0 <= g < |b.status| ==> Release(b, d).status[g] == Cleared(b.status[g], d);
  }

  lemma StepAccounted(b: Board, e: Event, live: set<int>)
    requires Accounted(b, b.devs.Keys, live)
    ensures Accounted(Step(b, e), b.devs.Keys, LiveAfter(live, e))
  {
    if e.d in b.devs {
      match e
      case Opens(d) => OpenAccounted(b, d, live);
      case Configures(_, _, _, _) => ConfigAccounted(b, e, live);
      case Releases(d) => ReleaseAccounted(b, d, live);
    }
  }

  /** Over every interleaving, with any request allowed to fail, the held lines
      are exactly the lines of the configured groups, each recorded under a
      device that configured pins after its last release, no interrupt number is
      kept that is not registered for its device, and all other devices are as
      new. */
  lemma {:induction false} LinesAccountedFor(b: Board, es: seq<Event>, n: nat)
    requires Fresh(b) && n <= |es|
    ensures Accounted(Run(b, es, n), b.devs.Keys, Live(es, n))
  {
    if n > 0 {
      LinesAccountedFor(b, es, n - 1);
      StepAccounted(Run(b, es, n - 1), es[n - 1], Live(es, n - 1));
    }
  }

  /** The interrupts are in order and belong to live devices. */
  ghost predicate IrqsLive(b: Board, live: set<int>) {
    IrqsOk(b) && forall i :: i in b.irqs ==> b.irqs[i] in live
  }

  lemma StepIrqs(b: Board, e: Event, live: set<int>)
    requires Accounted(b, b.devs.Keys, live) && IrqsLive(b, live)
    requires e.Opens? ==> e.d !in live
    ensures IrqsLive(Step(b, e), LiveAfter(live, e))
  {
    if e.d in b.devs {
      match e
      case Opens(d) => OpenKeepsIrqsIff(b, d);
      case Configures(d, trigger, echo, k) => ConfigKeeps(b, d, trigger, echo, k);
      case Releases(d) => ReleaseKeepsIrqs(b, d);
    }
  }

  /** Over every interleaving in which no configured device is opened again, a
      device has an interrupt number exactly when one handler is registered for
      it, and only live devices have one. */
  lemma {:induction false} IrqsAccountedFor(b: Board, es: seq<Event>, n: nat)
    requires Fresh(b) && n <= |es| && OpenedOnce(es, n)
    ensures IrqsLive(Run(b, es, n), Live(es, n))
  {
    if n > 0 {
      assert OpensNew(es, n - 1);
      IrqsAccountedFor(b, es, n - 1);
      LinesAccountedFor(b, es, n - 1);
      StepIrqs(Run(b, es, n - 1), es[n - 1], Live(es, n - 1));
    }
  }

  /** Once every device that configured pins has been released, the driver holds
      no line and no interrupt, however often each of them reconfigured. */
  lemma NothingLeftAfterRelease(b: Board, es: seq<Event>, n: nat)
    requires Fresh(b) && n <= |es| && Live(es, n) == {}
    ensures Run(b, es, n).held == {}
    ensures OpenedOnce(es, n) ==> Run(b, es, n).irqs == map[]
  {
    LinesAccountedFor(b, es, n);
    var b1 := Run(b, es, n);
    assert forall g :: 0 <= g < |b1.status| ==> !b1.status[g].configured;
    assert forall x :: x !in b1.held;
    if OpenedOnce(es, n) {
      IrqsAccountedFor(b, es, n);
      assert forall i :: i !in b1.irqs;
    }
  }

  // ----- What a second open leaves behind -----

  /** An interrupt that is registered, but that no device has on record. */
  ghost predicate Forgotten(b: Board, irq: int) {
    irq in b.irqs && forall d :: d in b.devs ==> b.devs[d].irqNo != irq
  }

  /** A second open of a device that has an interrupt forgets it. */
  lemma OpenForgets(b: Board, d: int)
    requires IrqsOk(b) && d in b.devs && b.devs[d].irqNo != NO_VALUE
    ensures Forgotten(Open(b, d), b.devs[d].irqNo)
  {
  }

  lemma VisitForgets(b: Board, d: int, g: nat, k: Kernel, irq: int)
    requires b.Sized() && d in b.devs && g < |b.table| && Forgotten(b, irq)
    ensures var b1 := Visit(b, d, g, k).0; Forgotten(b1, irq) && b1.irqs[irq] == b.irqs[irq]
  {
  }

  lemma {:induction false} WalkForgets(b: Board, d: int, g: nat, k: Kernel, irq: int)
    requires b.Sized() && d in b.devs && g <= |b.table| && Forgotten(b, irq)
    ensures var b1 := Walk(b, d, g, k).0; Forgotten(b1, irq) && b1.irqs[irq] == b.irqs[irq]
    decreases |b.table| - g
  {
    if g < |b.table| {
      VisitForgets(b, d, g, k, irq);
      if Visit(b, d, g, k).1 {
        WalkForgets(Visit(b, d, g, k).0, d, g + 1, k, irq);
      }
    }
  }

  lemma RenamedForgets(b: Board, d: int, trigger: int, echo: int, irq: int)
    requires d in b.devs && Forgotten(b, irq) && irq != NO_VALUE
    ensures var b1 := Renamed(b, d, trigger, echo); Forgotten(b1, irq) && b1.irqs[irq] == b.irqs[irq]
  {
  }

  lemma StepForgets(b: Board, e: Event, irq: int)
    requires Forgotten(b, irq) && irq != NO_VALUE
    ensures Forgotten(Step(b, e), irq) && Step(b, e).irqs[irq] == b.irqs[irq]
  {
    if b.Sized() && e.d in b.devs {
      match e
      case Opens(_) =>
      case Releases(_) =>
      case Configures(d, trigger, echo, k) =>
        if PinsAccepted(trigger, echo) {
          RenamedForgets(b, d, trigger, echo, irq);
          WalkForgets(Renamed(b, d, trigger, echo), d, 0, k, irq);
        }
    }
  }

  ghost predicate ForgottenFor(b: Board, irq: int, owner: int) {
    Forgotten(b, irq) && b.irqs[irq] == owner
  }

  /** A forgotten interrupt stays registered, and forgotten, in every later run:
      no release and no CONFIG_PINS ever frees it. */
  lemma ForgottenForGood(b: Board, es: seq<Event>, n: nat, irq: int)
    requires n <= |es| && Forgotten(b, irq) && irq != NO_VALUE
    ensures ForgottenFor(Run(b, es, n), irq, b.irqs[irq])
  {
    forall t: Board, e: Event | ForgottenFor(t, irq, b.irqs[irq]) ensures ForgottenFor(Step(t, e), irq, b.irqs[irq]) {
      StepForgets(t, e, irq);
    }
    Runs.RunKeeps(Step, (_: Board, _: Event) => true, t => ForgottenFor(t, irq, b.irqs[irq]), b, es, n);
  }

  /** And every CONFIG_PINS whose echo line maps to it fails, whatever device asks. */
  lemma ForgottenBlocks(b: Board, d: int, trigger: int, echo: int, k: Kernel, g: nat, irq: int)
    requires PinsOk(b) && Forgotten(b, irq) && irq != NO_VALUE && d in b.devs
    requires g < |b.table| && b.table[g].io == echo && k.irqOf(b.table[g].line) == irq
    ensures !ConfigPins(b, d, trigger, echo, k).1
  {
    if PinsAccepted(trigger, echo) {
      var b1 := Renamed(b, d, trigger, echo);
      RenamedForgets(b, d, trigger, echo, irq);
      WalkSucceedsIff(b1, d, 0, k);
      assert !CanVisit(b1, b1.devs[d], g, k);
    }
  }

  lemma TableStays(b: Board, es: seq<Event>, n: nat)
    requires n <= |es|
    ensures Run(b, es, n).table == b.table
  {
    Runs.RunKeeps(Step, (_: Board, _: Event) => true, (t: Board) => t.table == b.table, b, es, n);
  }

  /** Over whole runs: after the second open of a device with an interrupt, any
      later CONFIG_PINS on an echo line that maps to it fails. */
  lemma SecondOpenBlocksForGood(
      b: Board, es: seq<Event>, m: nat, n: nat, d: int, user: int, trigger: int, echo: int, k: Kernel, g: nat)
    requires Fresh(b) && m < n <= |es| && OpenedOnce(es, m) && es[m] == Opens(d)
    requires user in b.devs && d in Run(b, es, m).devs && Run(b, es, m).devs[d].irqNo != NO_VALUE
    requires g < |b.table| && b.table[g].io == echo
    requires k.irqOf(b.table[g].line) == Run(b, es, m).devs[d].irqNo
    ensures var b1 := Run(b, es, n);
            && b1.Sized() && b1.table == b.table && user in b1.devs
            && k.irqOf(b.table[g].line) in b1.irqs && !ConfigPins(b1, user, trigger, echo, k).1
  {
    var before, irq := Run(b, es, m), Run(b, es, m).devs[d].irqNo;
    IrqsAccountedFor(b, es, m);
    LinesAccountedFor(b, es, m);
    LinesAccountedFor(b, es, n);
    OpenForgets(before, d);
    assert Run(b, es, m + 1) == Open(before, d);
    Runs.RunSplit(Step, b, es, m + 1, n);
    ForgottenForGood(Run(b, es, m + 1), es[m + 1..], n - m - 1, irq);
    TableStays(b, es, n);
    ForgottenBlocks(Run(b, es, n), user, trigger, echo, k, g, irq);
  }

  // ----- A run in which a reused line is lost -----

  /** A kernel that grants the lines behind pins 2, 3 and 4 and the interrupts of
      the last two, numbered like their lines. */
  function Obliging(): Kernel {
    Kernel({61, 77, 62, 76, 64, 6, 36}, line => line, {62, 6})
  }

  /** A call has taken group `gt` for its trigger and `ge` for its echo. */
  ghost predicate PairTaken(b: Board, b1: Board, d: int, gt: nat, ge: nat)
    requires b.Sized() && gt < |b.table| && ge < |b.table|
  {
    && PinsOk(b1) && IrqsOk(b1) && b1.table == b.table && b1.devs.Keys == b.devs.Keys && d in b1.devs
    && b1.status[gt] == (if b.status[gt].configured then b.status[gt] else Status(true, d))
    && b1.status[gt].configured && b.table[gt].line in b1.held
    && b1.devs[d].pinsSet && b1.devs[d].irqTrigger == b.table[gt].line
    && forall i :: i in b1.irqs && i !in b.irqs ==> b1.irqs[i] == d && b1.devs[d].irqNo == i
  }

  lemma SuccessTakesPair(b: Board, d: int, trigger: int, echo: int, k: Kernel, gt: nat, ge: nat)
    requires PinsOk(b) && IrqsOk(b) && d in b.devs && ConfigPins(b, d, trigger, echo, k).1
    requires gt < |b.table| && ge < |b.table| && b.table[gt].io == trigger != echo == b.table[ge].io
    ensures var b1 := ConfigPins(b, d, trigger, echo, k).0;
            PairTaken(b, b1, d, gt, ge) && b1.devs[d].irqNo == k.irqOf(b.table[ge].line)
  {
    ConfigDone(b, d, trigger, echo, k, gt);
    ConfigDone(b, d, trigger, echo, k, ge);
    ConfigKeeps(b, d, trigger, echo, k);
  }

  /** Two devices name the same trigger group: the second one's line goes with the
      release of the first. */
  lemma PairsShareTrigger(b: Board, b1: Board, b2: Board, d1: int, d2: int, gt: nat, ge1: nat, ge2: nat)
    requires b.Sized() && gt < |b.table| && ge1 < |b.table| && ge2 < |b.table| && !b.status[gt].configured
    requires d1 != d2 && d1 in b.devs && d2 in b.devs
    requires PairTaken(b, b1, d1, gt, ge1) && PairTaken(b1, b2, d2, gt, ge2)
    ensures b.table[gt].line in b2.held && d2 in b2.devs
    ensures b2.devs[d2].pinsSet && b2.devs[d2].irqTrigger == b.table[gt].line
    ensures b.table[gt].line !in Release(b2, d1).held && Release(b2, d1).devs[d2] == b2.devs[d2]
  {
    ReusedGroupFollowsItsOwner(b2, d1, d2, gt);
  }

  lemma TableFacts()
    ensures var t := GalileoTable();
            && t[11] == GALILEO_PINS[2] && t[10] == GALILEO_PINS[3] && t[9] == GALILEO_PINS[4]
            && forall g :: 0 <= g < 14 ==> t[g].io == 13 - g
  {
    GalileoTableOk();
  }

  lemma ObligingGrants(b: Board, echo: int, g: nat)
    requires b.table == GalileoTable() && b.Sized() && g < 14 && echo in {3, 4} && b.table[g].io in {2, echo}
    ensures Takeable(b, g, Obliging())
  {
    TableFacts();
    assert g in {11, 10, 9};
  }

  /** With pin 2 as trigger and pin 3 or 4 as echo, that kernel lets the call
      succeed while the echo's interrupt is free. */
  lemma ObligingSucceeds(b: Board, d: int, echo: int)
    requires b.table == GalileoTable() && PinsOk(b) && IrqsOk(b) && d in b.devs && echo in {3, 4}
    requires GALILEO_PINS[echo].line !in b.irqs
    ensures ConfigPins(b, d, 2, echo, Obliging()).1
  {
    TableFacts();
    forall g | 0 <= g < 14 && b.table[g].io in {2, echo} ensures Takeable(b, g, Obliging()) {
      ObligingGrants(b, echo, g);
    }
    forall g | 0 <= g < 14 && b.table[g].io == echo ensures b.table[g] == GALILEO_PINS[echo] {
      assert g == 13 - echo;
    }
    ConfigSucceedsIff(b, d, 2, echo, Obliging());
  }

  /** Device 0 takes pins 2 and 3, device 1 pins 2 and 4, device 0 is released. */
  function ReusingRun(): seq<Event> {
    [Configures(0, 2, 3, Obliging()), Configures(1, 2, 4, Obliging()), Releases(0)]
  }

  lemma RunOfThree(b: Board, es: seq<Event>)
    requires |es| == 3
    ensures Run(b, es, 2) == Step(Step(b, es[0]), es[1])
    ensures Run(b, es, 3) == Step(Step(Step(b, es[0]), es[1]), es[2])
  {
    assert Run(b, es, 0) == b && Run(b, es, 1) == Step(b, es[0]);
  }

  /** The first call of that run on a fresh board. */
  lemma FirstPair(b: Board)
    requires Fresh(b) && b.table == GalileoTable() && 0 in b.devs
    ensures var b1 := ConfigPins(b, 0, 2, 3, Obliging()).0;
            PairTaken(b, b1, 0, 11, 10) && b1.devs[0].irqNo == 62 && 6 !in b1.irqs
  {
    TableFacts();
    ObligingSucceeds(b, 0, 3);
    SuccessTakesPair(b, 0, 2, 3, Obliging(), 11, 10);
  }

  lemma FirstTakes(b: Board, e: Event)
    requires Fresh(b) && b.table == GalileoTable() && 0 in b.devs && e == ReusingRun()[0]
    ensures PairTaken(b, Step(b, e), 0, 11, 10)
    ensures Step(b, e).devs[0].irqNo == 62 && 6 !in Step(b, e).irqs
  {
    FirstPair(b);
  }

  lemma SecondTakes(b: Board, e: Event)
    requires PinsOk(b) && IrqsOk(b) && b.table == GalileoTable() && 1 in b.devs && e == ReusingRun()[1]
    requires 6 !in b.irqs
    ensures PairTaken(b, Step(b, e), 1, 11, 9)
  {
    TableFacts();
    ObligingSucceeds(b, 1, 4);
    SuccessTakesPair(b, 1, 2, 4, Obliging(), 11, 9);
  }

  /** Device 1 still believes in its trigger line 61, which is no longer held. */
  predicate LineLost(before: Board, after: Board) {
    && 61 in before.held && 1 in before.devs
    && before.devs[1].pinsSet && before.devs[1].irqTrigger == 61
    && 61 !in after.held && 1 in after.devs && after.devs[1] == before.devs[1]
  }

  lemma PairsThenRelease(b: Board, b1: Board, b2: Board, e: Event)
    requires Fresh(b) && b.table == GalileoTable() && 0 in b.devs && 1 in b.devs && |b.table| == 14
    requires PairTaken(b, b1, 0, 11, 10) && PairTaken(b1, b2, 1, 11, 9) && e == Releases(0)
    ensures LineLost(b2, Step(b2, e))
  {
    TableFacts();
    PairsShareTrigger(b, b1, b2, 0, 1, 11, 10, 9);
  }

  lemma ReusedLineIsLost(b: Board)
    requires Fresh(b) && b.table == GalileoTable() && 0 in b.devs && 1 in b.devs
    ensures LineLost(Run(b, ReusingRun(), 2), Run(b, ReusingRun(), 3))
  {
    var es := ReusingRun();
    var b1 := Step(b, es[0]);
    FirstTakes(b, es[0]);
    SecondTakes(b1, es[1]);
    PairsThenRelease(b, b1, Step(b1, es[1]), es[2]);
    RunOfThree(b, es);
  }

  /** Device 0 takes pins 2 and 3 and is opened again: interrupt 62 is forgotten. */
  lemma InterruptIsForgotten(b: Board)
    requires Fresh(b) && b.table == GalileoTable() && 0 in b.devs
    ensures Forgotten(Run(b, [ReusingRun()[0], Opens(0)], 2), 62)
  {
    var es := [ReusingRun()[0], Opens(0)];
    var b1 := Step(b, es[0]);
    FirstTakes(b, es[0]);
    OpenForgets(b1, 0);
    LinesAccountedFor(b, es, 1);
    assert Run(b, es, 0) == b && Run(b, es, 1) == b1;
  }
}
