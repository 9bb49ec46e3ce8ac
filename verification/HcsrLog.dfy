/** What one HC-SR04 device has seen and published since it was opened. */
module HcsrLog {
  import opened Machine
  import opened HcsrRing
  import opened HcsrEcho

  type Marks = m: seq<nat> | |m| == CELLS witness [0, 0, 0, 0, 0]

  /** `times` are the edges since open, `marks[c]` the number of edges seen when
      cell `c` of the ring was last written. */
  datatype Log = Log(times: seq<int>, counters: Counters, ring: Ring, marks: Marks, clock: nat)

  function Started(clock: nat): Log {
    Log([], NO_ECHOES, EMPTY_RING, [0, 0, 0, 0, 0], clock)
  }

  function Cleared(g: Log): Log {
    g.(ring := EMPTY_RING)
  }

  function Popped(g: Log): Log {
    g.(ring := Taken(g.ring))
  }

  function Later(g: Log, dt: nat): Log {
    g.(clock := g.clock + dt)
  }

  /** An edge `dt` ticks from now. */
  function EdgeSeen(g: Log, dt: nat): Log {
    Later(g, dt).(times := g.times + [g.clock + dt], counters := Handle(g.counters, (g.clock + dt) % TWO_64))
  }

  function Written(g: Log, dt: nat, e: Entry): Log {
    Later(g, dt).(ring := Added(g.ring, e), marks := g.marks[After(g.ring.cursor) := |g.times|])
  }

  /** The reading that would be published `dt` ticks from now. */
  function Reading(g: Log, dt: nat): Entry
    requires !DivisionFaults(g.counters)
  {
    Entry(Published(g.counters), (g.clock + dt) % TWO_64)
  }

  function MeanPublished(g: Log, dt: nat): Log
    requires !DivisionFaults(g.counters)
  {
    Written(g, dt, Reading(g, dt))
  }

  // ----- What the cells hold -----

  /** The reading was the mean of the echoes among the first `n` edges. */
  predicate IsMean(times: seq<int>, n: nat, e: Entry) {
    n <= |times| && !DivisionFaults(Handled(times[..n])) && e.distance == Published(Handled(times[..n]))
  }

  predicate Valid(e: Entry) {
    e.tsc != NO_TSC
  }

  /** Every valid cell is a mean over some first edges. */
  predicate Means(g: Log) {
    && g.counters == Handled(g.times)
    && forall c :: 0 <= c < CELLS && Valid(g.ring.cells[c]) ==> IsMean(g.times, g.marks[c], g.ring.cells[c])
  }

  lemma MeanStays(times: seq<int>, now: int, n: nat, e: Entry)
    requires IsMean(times, n, e)
    ensures IsMean(times + [now], n, e)
  {
    assert (times + [now])[..n] == times[..n];
  }

  lemma EdgeKeepsMeans(g: Log, dt: nat)
    requires Means(g)
    ensures Means(EdgeSeen(g, dt))
  {
    var g', now := EdgeSeen(g, dt), g.clock + dt;
    assert g'.times[..|g.times|] == g.times;
    forall c | 0 <= c < CELLS && Valid(g.ring.cells[c]) ensures IsMean(g'.times, g.marks[c], g.ring.cells[c]) {
      MeanStays(g.times, now, g.marks[c], g.ring.cells[c]);
    }
  }

  lemma MeanOfAll(times: seq<int>, tsc: int)
    requires !DivisionFaults(Handled(times))
    ensures IsMean(times, |times|, Entry(Published(Handled(times)), tsc))
  {
    assert times[..|times|] == times;
  }

  lemma WriteKeepsMeans(g: Log, dt: nat, e: Entry)
    requires Means(g) && IsMean(g.times, |g.times|, e)
    ensures Means(Written(g, dt, e))
  {
  }

  lemma PublishKeepsMeans(g: Log, dt: nat)
    requires Means(g) && !DivisionFaults(g.counters)
    ensures Means(MeanPublished(g, dt))
  {
    MeanOfAll(g.times, (g.clock + dt) % TWO_64);
    WriteKeepsMeans(g, dt, Reading(g, dt));
  }

  lemma OthersKeepMeans(g: Log, dt: nat)
    requires Means(g)
    ensures Means(Later(g, dt)) && Means(Popped(g)) && Means(Cleared(g))
  {
  }

  // ----- What a read makes of it -----

  /** What the newest entry was computed from. */
  function NewestCounters(g: Log): Counters
    requires Means(g) && Valid(g.ring.cells[g.ring.cursor])
  {
    var c := g.ring.cursor;
    assert IsMean(g.times, g.marks[c], g.ring.cells[c]);
    Handled(g.times[..g.marks[c]])
  }

  /** A read answers -1 exactly when the cell at the cursor is marked empty or its
      mean was -1 when it was published. */
  lemma AnswersEmptyIff(g: Log)
    requires Means(g)
    ensures Newest(g.ring).distance == BUFFER_EMPTY <==>
              !Valid(g.ring.cells[g.ring.cursor]) || MeanIsMinusOne(NewestCounters(g))
  {
    var c := g.ring.cursor;
    if Valid(g.ring.cells[c]) {
      assert IsMean(g.times, g.marks[c], g.ring.cells[c]);
      ReadingLooksEmptyIff(NewestCounters(g));
    }
  }

  // ----- Plausible echoes -----

  /** The echoes accepted when cell `c` was written. */
  function Heard(g: Log, c: int): seq<int>
    requires 0 <= c < CELLS
  {
    if g.marks[c] <= |g.times| then Accepted(g.times[..g.marks[c]]) else []
  }

  predicate Within(a: seq<int>, lo: int, hi: int) {
    forall d :: d in a ==> lo <= d <= hi
  }

  /** The reading is the floor of the mean of these echoes and lies between them. */
  ghost predicate IsFloorOfMean(a: seq<int>, d: int) {
    && a != [] && d == Sum(a) / |a| && 0 <= d <= FARTHEST
    && forall lo, hi :: Within(a, lo, hi) ==> lo <= d <= hi
  }

  lemma PlausiblePrefix(times: seq<int>, n: nat)
    requires n <= |times| && Plausible(times)
    ensures Plausible(times[..n])
  {
  }

  lemma MeanIsFloor(times: seq<int>, n: nat, e: Entry)
    requires IsMean(times, n, e) && Plausible(times) && |Accepted(times[..n])| <= 5368709
    ensures IsFloorOfMean(Accepted(times[..n]), e.distance)
  {
    var before := times[..n];
    PlausiblePrefix(times, n);
    CountersExact(before);
    AcceptedInRange(before);
    assert |Accepted(before)| > 0;
    PublishedIsTheMean(before, 0, FARTHEST);
    forall lo, hi | Within(Accepted(before), lo, hi) ensures lo <= e.distance <= hi {
      PublishedIsTheMean(before, lo, hi);
    }
  }
}
