/** The 5-cell ring of readings. The source calls it a FIFO, but a read returns
    the newest entry: it is a bounded stack that forgets its oldest entry. */
module HcsrRing {
  import opened Machine

  datatype Entry = Entry(distance: int, tsc: int)

  const CELLS: int := 5
  const BUFFER_EMPTY: int := -1

  /** `NO_VALUE` stored in the unsigned 64-bit timestamp marks an empty cell. */
  const NO_TSC: int := TWO_64 - 1

  const EMPTY_CELL: Entry := Entry(-1, NO_TSC)

  datatype Cells = Cells(cells: seq<Entry>, cursor: int)

  type Ring = r: Cells | |r.cells| == CELLS && 0 <= r.cursor < CELLS
    witness Cells([EMPTY_CELL, EMPTY_CELL, EMPTY_CELL, EMPTY_CELL, EMPTY_CELL], 0)

  const EMPTY_RING: Ring := Cells([EMPTY_CELL, EMPTY_CELL, EMPTY_CELL, EMPTY_CELL, EMPTY_CELL], 0)

  function After(cursor: int): int {
    (cursor + 1) % CELLS
  }

  function Before(cursor: int): int {
    if cursor == 0 then CELLS - 1 else cursor - 1
  }

  /** `fifoWrite`. */
  function Added(r: Ring, e: Entry): Ring {
    Cells(r.cells[After(r.cursor) := e], After(r.cursor))
  }

  /** What `fifoRead` hands back. */
  function Newest(r: Ring): Entry {
    if r.cells[r.cursor].tsc == NO_TSC then Entry(BUFFER_EMPTY, 0) else r.cells[r.cursor]
  }

  /** What `fifoRead` leaves. */
  function Taken(r: Ring): Ring {
    if r.cells[r.cursor].tsc == NO_TSC then r
    else Cells(r.cells[r.cursor := EMPTY_CELL], Before(r.cursor))
  }

  // ----- The bounded stack that the ring stands for -----

  function Push(stack: seq<Entry>, e: Entry): seq<Entry> {
    if |stack| < CELLS then stack + [e] else stack[|stack| - CELLS + 1..] + [e]
  }

  function Pop(stack: seq<Entry>): seq<Entry> {
    if stack == [] then [] else stack[..|stack| - 1]
  }

  function Top(stack: seq<Entry>): Entry {
    if stack == [] then Entry(BUFFER_EMPTY, 0) else stack[|stack| - 1]
  }

  /** The cell `back` places behind the cursor. */
  function Slot(cursor: int, back: int): int {
    if cursor >= back then cursor - back else cursor - back + CELLS
  }

  /** The valid cells form one circular arc that ends at the cursor and reads,
      from newest to oldest, as the stack from its top. */
  predicate Holds(r: Ring, stack: seq<Entry>) {
    && |stack| <= CELLS
    && forall j :: 0 <= j < CELLS ==>
         var cell := r.cells[Slot(r.cursor, j)];
         if j < |stack| then cell == stack[|stack| - 1 - j] && cell.tsc != NO_TSC else cell.tsc == NO_TSC
  }

  /** A ring stands for one stack only. */
  lemma HoldsOneStack(r: Ring, s: seq<Entry>, t: seq<Entry>)
    requires Holds(r, s) && Holds(r, t)
    ensures s == t
  {
    assert |s| < CELLS ==> r.cells[Slot(r.cursor, |s|)].tsc == NO_TSC;
    assert |t| < CELLS ==> r.cells[Slot(r.cursor, |t|)].tsc == NO_TSC;
    assert |s| == |t|;
    forall i | 0 <= i < |s| ensures s[i] == t[i] {
      assert r.cells[Slot(r.cursor, |s| - 1 - i)] == s[i];
    }
  }

  lemma EmptyHolds()
    ensures Holds(EMPTY_RING, [])
  {
  }

  lemma SlotAfter(cursor: int, j: int)
    requires 0 <= cursor < CELLS && 1 <= j < CELLS
    ensures Slot(After(cursor), j) == Slot(cursor, j - 1) != After(cursor)
  {
  }

  /** A write pushes the entry on the stack, exactly when its timestamp is not the
      one that marks an empty cell. */
  lemma WritePushesIff(r: Ring, stack: seq<Entry>, e: Entry)
    requires Holds(r, stack)
    ensures Holds(Added(r, e), Push(stack, e)) <==> e.tsc != NO_TSC
  {
    var r', stack' := Added(r, e), Push(stack, e);
    assert Slot(r'.cursor, 0) == r'.cursor && stack'[|stack'| - 1] == e;
    forall j | 1 <= j < CELLS
      ensures r'.cells[Slot(r'.cursor, j)] == r.cells[Slot(r.cursor, j - 1)]
      ensures j < |stack'| <==> j - 1 < |stack|
      ensures j < |stack'| ==> stack'[|stack'| - 1 - j] == stack[|stack| - 1 - (j - 1)]
    {
      SlotAfter(r.cursor, j);
    }
  }

  lemma SlotBefore(cursor: int, j: int)
    requires 0 <= cursor < CELLS && 0 <= j < CELLS
    ensures Slot(Before(cursor), j) == if j + 1 < CELLS then Slot(cursor, j + 1) else cursor
    ensures j + 1 < CELLS ==> Slot(cursor, j + 1) != cursor
  {
  }

  /** A read hands back the newest entry, or the empty answer exactly for the empty
      stack, and pops. */
  lemma ReadPops(r: Ring, stack: seq<Entry>)
    requires Holds(r, stack)
    ensures Newest(r) == Top(stack) && Holds(Taken(r), Pop(stack))
    ensures r.cells[r.cursor].tsc == NO_TSC <==> stack == []
  {
    assert Slot(r.cursor, 0) == r.cursor;
    if stack != [] {
      var r', stack' := Taken(r), Pop(stack);
      forall j | 0 <= j < CELLS
        ensures var cell := r'.cells[Slot(r'.cursor, j)];
                if j < |stack'| then cell == stack'[|stack'| - 1 - j] && cell.tsc != NO_TSC
                else cell.tsc == NO_TSC
      {
        SlotBefore(r.cursor, j);
      }
    }
  }
}
