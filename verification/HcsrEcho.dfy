/** The edge interrupt handler: a two-state automaton that turns pairs of clock
    values into distances and accumulates the ones it accepts. */
module HcsrEcho {
  import opened Machine

  const TICKS_PER_CM: int := 23200
  const FARTHEST: int := 400

  datatype Counters = Counters(
    edge: int, rise: int, fall: int, total: int, lowest: int, highest: int, sum: int)

  const NO_ECHOES: Counters := Counters(0, 0, 0, 0, 0, 0, 0)

  /** The distance computed from two 64-bit clock values: an unsigned difference,
      divided, then cut down to an int. */
  function Distance(rise: int, fall: int): int {
    Int32(((fall - rise) % TWO_64) / TICKS_PER_CM)
  }

  function Accumulate(c: Counters, distance: int): Counters {
    if distance > FARTHEST then c
    else c.(highest := if distance > c.highest then distance else c.highest,
            lowest := if distance <= c.highest && distance < c.lowest then distance else c.lowest,
            total := Int32(c.total + 1),
            sum := Int32(c.sum + distance))
  }

  /** `irq_handler` at clock value `now`. */
  function Handle(c: Counters, now: int): Counters {
    if c.edge == 0 then c.(rise := now, edge := 1)
    else if c.edge == 1 then Accumulate(c.(fall := now, edge := 0), Distance(c.rise, now))
    else c
  }

  /** The counters after edges at the given true times; the clock register
      holds 64 bits of them. */
  function Handled(times: seq<int>): Counters {
    if times == [] then NO_ECHOES
    else Handle(Handled(times[..|times| - 1]), times[|times| - 1] % TWO_64)
  }

  // ----- What the counters should be -----

  /** The accepted distances: edges pair up as rising and falling. */
  function Accepted(times: seq<int>): seq<int> {
    if |times| < 2 then []
    else if |times| % 2 == 1 then Accepted(times[..|times| - 1])
    else
      Accepted(times[..|times| - 2])
      + (if Distance(times[|times| - 2], times[|times| - 1]) <= FARTHEST
         then [Distance(times[|times| - 2], times[|times| - 1])] else [])
  }

  function Sum(s: seq<int>): int {
    if s == [] then 0 else Sum(s[..|s| - 1]) + s[|s| - 1]
  }

  function Max0(s: seq<int>): (m: int)
    ensures m >= 0 && (m == 0 || m in s) && forall i :: 0 <= i < |s| ==> s[i] <= m
  {
    if s == [] then 0
    else if Max0(s[..|s| - 1]) < s[|s| - 1] then s[|s| - 1] else Max0(s[..|s| - 1])
  }

  function Min0(s: seq<int>): (m: int)
    ensures m <= 0 && (m == 0 || m in s) && forall i :: 0 <= i < |s| ==> m <= s[i]
  {
    if s == [] then 0
    else if s[|s| - 1] < Min0(s[..|s| - 1]) then s[|s| - 1] else Min0(s[..|s| - 1])
  }

  /** The counters summarise the accepted distances `a`. */
  predicate Summarises(c: Counters, a: seq<int>) {
    && c.sum == Int32(Sum(a)) && c.total == Int32(|a|)
    && c.highest == Max0(a) && c.lowest == Min0(a)
  }

  lemma {:induction false} AccumulateSummarises(c: Counters, a: seq<int>, d: int)
    requires Summarises(c, a)
    ensures Summarises(Accumulate(c, d), if d <= FARTHEST then a + [d] else a)
  {
    if d <= FARTHEST {
      var a' := a + [d];
      assert a'[..|a'| - 1] == a;
      assert Sum(a') == Sum(a) + d;
      Int32Add(Sum(a), d);
      Int32Add(|a|, 1);
    }
  }

  lemma DistanceOfWrapped(rise: int, fall: int)
    ensures Distance(rise % TWO_64, fall % TWO_64) == Distance(rise, fall)
  {
    WrappedDifference(rise, fall);
  }

  lemma {:induction false} FallingEdge(c: Counters, a: seq<int>, rise: int, now: int)
    requires Summarises(c, a) && c.edge == 1 && c.rise == rise % TWO_64
    ensures var c1, d := Handle(c, now % TWO_64), Distance(rise, now);
            c1.edge == 0 && Summarises(c1, if d <= FARTHEST then a + [d] else a)
  {
    DistanceOfWrapped(rise, now);
    AccumulateSummarises(c.(fall := now % TWO_64, edge := 0), a, Distance(rise, now));
  }

  /** What the counters should be after the edges: the automaton's state is the
      parity, and the counters summarise the accepted echoes. */
  predicate Accounted(c: Counters, times: seq<int>) {
    && c.edge == |times| % 2
    && Summarises(c, Accepted(times))
    && (c.edge == 1 ==> c.rise == times[|times| - 1] % TWO_64)
  }

  lemma {:induction false} AcceptedAfterFall(times: seq<int>, now: int)
    requires |times| % 2 == 1
    ensures var a, d := Accepted(times), Distance(times[|times| - 1], now);
            Accepted(times + [now]) == if d <= FARTHEST then a + [d] else a
  {
    var after := times + [now];
    assert after[..|after| - 2] == times[..|times| - 1];
    assert Accepted(times) == Accepted(times[..|times| - 1]);
    assert Accepted(times) + [] == Accepted(times);
  }

  lemma {:induction false} AcceptedAfterRise(times: seq<int>, now: int)
    requires |times| % 2 == 0
    ensures Accepted(times + [now]) == Accepted(times)
  {
    assert (times + [now])[..|times|] == times;
  }

  /** A whole echo after an even number of edges adds its distance if accepted. */
  lemma {:induction false} AcceptedAfterEcho(times: seq<int>, rise: int, fall: int)
    requires |times| % 2 == 0
    ensures var d := Distance(rise, fall);
            Accepted(times + [rise] + [fall]) == if d <= FARTHEST then Accepted(times) + [d] else Accepted(times)
  {
    var odd := times + [rise];
    assert |odd| % 2 == 1 && odd[|odd| - 1] == rise;
    AcceptedAfterRise(times, rise);
    AcceptedAfterFall(odd, fall);
  }

  lemma SumOfMore(a: seq<int>, d: int)
    ensures Sum(a + [d]) == Sum(a) + d
  {
    assert (a + [d])[..|a|] == a;
  }

  lemma EchoAdds(times: seq<int>, rise: int, fall: int)
    requires |times| % 2 == 0 && Distance(rise, fall) <= FARTHEST
    ensures var a, a' := Accepted(times), Accepted(times + [rise] + [fall]);
            |a'| == |a| + 1 && Sum(a') == Sum(a) + Distance(rise, fall)
  {
    AcceptedAfterEcho(times, rise, fall);
    SumOfMore(Accepted(times), Distance(rise, fall));
  }

  lemma {:induction false} OneMoreEdge(c: Counters, times: seq<int>, now: int)
    requires Accounted(c, times)
    ensures Accounted(Handle(c, now % TWO_64), times + [now])
  {
    if |times| % 2 == 1 {
      AcceptedAfterFall(times, now);
      FallingEdge(c, Accepted(times), times[|times| - 1], now);
    } else {
      AcceptedAfterRise(times, now);
    }
  }

  /** For every sequence of edges, whatever the widths and however the clock
      wraps: the automaton's state is the parity of the edges, and the counters
      are the 32-bit sum and count of the accepted distances and their largest
      and smallest value, 0 included. */
  lemma {:induction false} CountersAreTheEchoes(times: seq<int>)
    ensures Accounted(Handled(times), times)
  {
    if times != [] {
      var init, now := times[..|times| - 1], times[|times| - 1];
      CountersAreTheEchoes(init);
      OneMoreEdge(Handled(init), init, now);
      assert init + [now] == times;
    }
  }

  /** With 64-bit wrapping subtraction, an echo of true width `e` below
      23200 * 2^31 ticks reads as `e / 23200` and is accepted exactly below
      401 * 23200 ticks. */
  lemma EchoWidth(rise: int, e: int)
    requires 0 <= e < TICKS_PER_CM * TWO_31
    ensures Distance(rise, rise + e) == e / TICKS_PER_CM >= 0
    ensures Distance(rise, rise + e) <= FARTHEST <==> e < 9303200
  {
  }

  predicate AllNonNegative(s: seq<int>) {
    forall i :: 0 <= i < |s| ==> s[i] >= 0
  }

  /** `outlier_lowest` leaves 0 exactly when an accepted distance is negative. */
  lemma {:induction false} LowestStaysZeroIff(times: seq<int>)
    ensures Handled(times).lowest == 0 <==> AllNonNegative(Accepted(times))
  {
    CountersAreTheEchoes(times);
    Min0IsZeroIff(Accepted(times));
  }

  lemma Min0IsZeroIff(s: seq<int>)
    ensures Min0(s) == 0 <==> AllNonNegative(s)
  {
  }

  /** A wide enough gap between two edges is accepted as a negative distance. */
  lemma NegativeDistanceExists()
    ensures Accepted([0, TICKS_PER_CM * (TWO_32 - 1)]) == [-1]
  {
    var times := [0, TICKS_PER_CM * (TWO_32 - 1)];
    assert times[..|times| - 2] == [];
    assert Distance(times[0], times[1]) == -1;
  }

  // ----- The mean -----

  /** Every completed echo is shorter than 23200 * 2^31 ticks. */
  ghost predicate Plausible(times: seq<int>) {
    forall i :: 0 <= i && 2 * i + 1 < |times| ==> 0 <= times[2 * i + 1] - times[2 * i] < TICKS_PER_CM * TWO_31
  }

  lemma {:induction false} AcceptedInRange(times: seq<int>)
    requires Plausible(times)
    ensures forall d :: d in Accepted(times) ==> 0 <= d <= FARTHEST
  {
    if |times| >= 2 {
      if |times| % 2 == 1 {
        AcceptedInRange(times[..|times| - 1]);
      } else {
        AcceptedInRange(times[..|times| - 2]);
        var i := |times| / 2 - 1;
        assert 2 * i + 1 == |times| - 1;
        EchoWidth(times[2 * i], times[2 * i + 1] - times[2 * i]);
      }
    }
  }

  lemma OneMoreTimes(x: int, n: int)
    ensures x * n == x * (n - 1) + x
  {
  }

  lemma {:induction false} SumBounds(s: seq<int>, lo: int, hi: int)
    requires forall d :: d in s ==> lo <= d <= hi
    ensures lo * |s| <= Sum(s) <= hi * |s|
  {
    if s != [] {
      var init := s[..|s| - 1];
      assert s[|s| - 1] in s && forall d :: d in init ==> d in s;
      SumBounds(init, lo, hi);
      OneMoreTimes(lo, |s|);
      OneMoreTimes(hi, |s|);
    }
  }

  /** No 32-bit overflow up to 5368709 accepted samples. */
  lemma {:induction false} CountersExact(times: seq<int>)
    requires Plausible(times) && |Accepted(times)| <= 5368709
    ensures Handled(times).sum == Sum(Accepted(times))
    ensures Handled(times).total == |Accepted(times)|
    ensures 0 <= Handled(times).sum <= FARTHEST * Handled(times).total
  {
    CountersAreTheEchoes(times);
    AcceptedInRange(times);
    SumBounds(Accepted(times), 0, FARTHEST);
  }

  predicate IsInt(x: int) {
    -TWO_31 <= x < TWO_31
  }

  /** The signed division faults on a zero count, and on the one quotient that no
      int holds. */
  predicate DivisionFaults(c: Counters) {
    c.total == 0 || (c.sum == -TWO_31 && c.total == -1)
  }

  /** The reading the measurement thread publishes. */
  function Published(c: Counters): (r: int)
    requires !DivisionFaults(c)
    ensures IsInt(c.sum) ==> IsInt(r)
  {
    assert IsInt(c.sum) ==> IsInt(TruncDiv(c.sum, c.total)) by {
      if IsInt(c.sum) {
        QuotientIsInt(c.sum, c.total);
      }
    }
    TruncDiv(c.sum, c.total)
  }

  lemma TimesMore(q: nat, a: nat, b: nat)
    requires a <= b
    ensures q * a <= q * b
  {
  }

  lemma QuotientAtMost(m: nat, n: nat, k: nat)
    requires 0 < k <= n
    ensures k * (m / n) <= m
  {
    var q := m / n;
    assert q * n <= m;
    TimesMore(q, k, n);
  }

  lemma QuotientFacts(m: nat, n: nat)
    requires n > 0
    ensures 0 <= m / n
    ensures n == 1 ==> m / n == m
    ensures n >= 2 ==> 2 * (m / n) <= m
  {
    var q := m / n;
    assert q * n <= m < (q + 1) * n;
    CancelFactor(0, q + 1, n);
    if n >= 2 {
      QuotientAtMost(m, n, 2);
    }
  }

  lemma SignedIsInt(a: int, b: int, q: int)
    requires 0 <= q && b != 0 && IsInt(a) && !(a == -TWO_31 && b == -1)
    requires (Abs(b) == 1 ==> q == Abs(a)) && (Abs(b) >= 2 ==> 2 * q <= Abs(a))
    ensures IsInt(Signed((a < 0) != (b < 0), q))
  {
  }

  lemma QuotientIsInt(a: int, b: int)
    requires b != 0 && IsInt(a) && !(a == -TWO_31 && b == -1)
    ensures IsInt(TruncDiv(a, b))
  {
    QuotientFacts(Abs(a), Abs(b));
    SignedIsInt(a, b, Abs(a) / Abs(b));
  }

  /** A published reading is the floor of the mean of all accepted echoes: it
      lies between their extremes and in 0..400, so it is never the value that
      stands for an empty buffer. */
  lemma {:induction false} PublishedIsTheMean(times: seq<int>, lo: int, hi: int)
    requires Plausible(times) && 1 <= |Accepted(times)| <= 5368709
    requires forall d :: d in Accepted(times) ==> lo <= d <= hi
    ensures !DivisionFaults(Handled(times))
    ensures Published(Handled(times)) == Sum(Accepted(times)) / |Accepted(times)|
    ensures lo <= Published(Handled(times)) <= hi
    ensures 0 <= Published(Handled(times)) <= FARTHEST
  {
    var a := Accepted(times);
    CountersExact(times);
    AcceptedInRange(times);
    SumBounds(a, lo, hi);
    SumBounds(a, 0, FARTHEST);
    MeanBetween(Sum(a), |a|, lo, hi);
    MeanBetween(Sum(a), |a|, 0, FARTHEST);
  }

  lemma MeanBetween(sum: int, n: int, lo: int, hi: int)
    requires n > 0 && lo * n <= sum <= hi * n
    ensures lo <= sum / n <= hi
  {
    var q := sum / n;
    assert q * n <= sum < (q + 1) * n;
    assert hi * n < (hi + 1) * n;
    CancelFactor(lo, q + 1, n);
    CancelFactor(q, hi + 1, n);
  }

  lemma QuotientIsOneIff(a: nat, b: nat)
    requires b > 0
    ensures a / b == 1 <==> b <= a < 2 * b
  {
    var q := a / b;
    assert q * b <= a < (q + 1) * b;
    if b <= a < 2 * b {
      CancelFactor(1, q + 1, b);
      CancelFactor(q, 2, b);
    }
  }

  /** The recorded sum and count, of opposite signs, have a quotient from 1 to
      below 2. */
  predicate MeanIsMinusOne(c: Counters) {
    if c.total > 0 then c.total <= -c.sum < 2 * c.total else -c.total <= c.sum < -2 * c.total
  }

  /** A reading collides with the empty-buffer value exactly when the recorded
      sum lies in this range, whatever the counters hold. */
  lemma ReadingLooksEmptyIff(c: Counters)
    requires !DivisionFaults(c)
    ensures Published(c) == -1 <==> MeanIsMinusOne(c)
  {
    QuotientIsOneIff(Abs(c.sum), Abs(c.total));
  }

  /** One gap of 23200 * (2^32 - 1) ticks is enough for a mean of -1. */
  lemma MeanOfMinusOneExists()
    ensures var c := Handled([0, TICKS_PER_CM * (TWO_32 - 1)]);
            c.total == 1 && c.sum == -1 && !DivisionFaults(c) && Published(c) == -1
  {
    var times := [0, TICKS_PER_CM * (TWO_32 - 1)];
    NegativeDistanceExists();
    assert Accepted(times) == [-1];
    assert Sum([-1]) == -1;
    CountersAreTheEchoes(times);
  }
}
