/** The threaded test client: any number of threads run the same function over
    two shared counters, with loop guards read outside the mutex. */
module HashClient {
  import opened Wrappers
  import opened HashChains
  import opened HashDriver
  import Runs

  datatype Phase = Fill | Mixed
  datatype Kind = Search | Add | Delete

  /** Where a thread stands. Everything from Pick to Unlock runs under the mutex. */
  datatype Pc = Guard | Lock | Pick | Write | Read | Count | Unlock | Done

  datatype Thread = Thread(phase: Phase, pc: Pc, kind: Kind, key: int, data: int)

  /** The random draws of one step. */
  datatype Draw = Draw(kind: Kind, key: int, data: int)

  /** One read-back: what was asked, how many writes came before, the answer. */
  datatype ReadBack = ReadBack(kind: Kind, key: int, data: int, after: nat, got: int)

  datatype Limits = Limits(fill: nat, mixed: nat)

  /** `owner` is the thread holding the mutex, or -1. `writes` and `answers` record
      every driver call in the order in which the driver saw them. */
  datatype State = State(
    threads: seq<Thread>, owner: int, filled: int, operations: int,
    driver: DriverView, writes: seq<Obj>, answers: seq<ReadBack>)

  const NOT_FOUND: int := -1

  function ReadOf(data: int): int {
    if data == 0 then NOT_FOUND else data
  }

  function StartThread(): Thread {
    Thread(Fill, Guard, Search, 0, 0)
  }

  /** `main` opens device 0 and then device 1, and creates the threads. */
  function Start(count: nat, driver: DriverView): State {
    State(seq(count, _ => StartThread()), -1, 0, 0, driver.Opened(0).Opened(1), [], [])
  }

  /** One atomic step of thread `t`; a thread waiting for a taken mutex stays put. */
  function Step(h: Hash, lim: Limits, s: State, t: nat, draw: Draw): (s': State)
  {
    if t >= |s.threads| then s else
    var th := s.threads[t];
    match th.pc
    case Guard =>
      if th.phase == Fill then
        Put(s, t, if s.filled < lim.fill then th.(pc := Lock) else th.(phase := Mixed))
      else
        Put(s, t, if s.operations < lim.mixed then th.(pc := Lock) else th.(pc := Done))
    case Lock =>
      if s.owner == -1 then Put(s, t, th.(pc := Pick)).(owner := t) else s
    case Pick =>
      var kind := if th.phase == Fill then Add else draw.kind;
      Put(s, t, Thread(th.phase, if kind == Search then Read else Write, kind, draw.key,
                       if kind == Delete then 0 else draw.data))
    case Write =>
      Put(s, t, th.(pc := Read)).(
        driver := s.driver.Written(h, Obj(th.key, th.data)),
        writes := s.writes + [Obj(th.key, th.data)])
    case Read =>
      Put(s, t, th.(pc := Count)).(
        answers := s.answers + [ReadBack(th.kind, th.key, th.data, |s.writes|,
                                     ReadData(h, s.driver.Picked(), th.key))])
    case Count =>
      var s1 := Put(s, t, th.(pc := Unlock));
      if th.phase == Fill then s1.(filled := s.filled + 1) else s1.(operations := s.operations + 1)
    case Unlock =>
      Put(s, t, th.(pc := Guard)).(owner := -1)
    case Done => s
  }

  function Put(s: State, t: nat, th: Thread): State
    requires t < |s.threads|
  {
    s.(threads := s.threads[t := th])
  }

  datatype Move = Move(t: nat, draw: Draw)

  function StepOf(h: Hash, lim: Limits): (State, Move) -> State {
    (s: State, m: Move) => Step(h, lim, s, m.t, m.draw)
  }

  predicate AnyMove(s: State, m: Move) {
    true
  }

  /** Any interleaving: the state after the first `n` steps of any threads. */
  function Run(h: Hash, lim: Limits, count: nat, driver: DriverView, moves: seq<Move>, n: nat): State
    requires n <= |moves|
  {
    Runs.Run(StepOf(h, lim), Start(count, driver), moves, n)
  }

  predicate Finished(s: State) {
    forall t :: 0 <= t < |s.threads| ==> s.threads[t].pc == Done
  }

  // ----- Mutual exclusion and what the driver holds -----

  predicate InSection(th: Thread) {
    th.pc in {Pick, Write, Read, Count, Unlock}
  }

  predicate Exclusion(s: State) {
    && -1 <= s.owner < |s.threads|
    && forall t :: 0 <= t < |s.threads| ==> (InSection(s.threads[t]) <==> s.owner == t)
  }

  /** The driver's picked table is the outcome of the writes in the order seen. */
  ghost predicate TableIsWrites(h: Hash, s: State) {
    s.driver.minor == 1 && s.driver.tbl1 == RunPuts(h, s.writes)
  }

  /** Inside a section the write is still the latest one when it is read back. */
  predicate Latest(s: State, th: Thread) {
    th.pc == Read && th.kind != Search ==>
      |s.writes| > 0 && s.writes[|s.writes| - 1] == Obj(th.key, th.data)
  }

  predicate DeletesZero(th: Thread) {
    && (th.pc in {Write, Read} && th.kind == Delete ==> th.data == 0)
    && (th.pc == Write ==> th.kind != Search)
  }

  /** The answer is the bound value after the writes that came before the read,
      and for a read-back after a write it is exactly what was written. */
  ghost predicate Answered(s: State, r: ReadBack) {
    && r.after <= |s.writes|
    && r.got == (match Get(Replay(s.writes[..r.after]), r.key) case None => NOT_FOUND case Some(d) => d)
    && (r.kind == Add ==> r.got == ReadOf(r.data))
    && (r.kind == Delete ==> r.got == NOT_FOUND)
  }

  ghost predicate Consistent(h: Hash, s: State) {
    && Exclusion(s)
    && TableIsWrites(h, s)
    && (forall t :: 0 <= t < |s.threads| ==> Latest(s, s.threads[t]) && DeletesZero(s.threads[t]))
    && (forall i :: 0 <= i < |s.answers| ==> Answered(s, s.answers[i]))
  }

  lemma ReadAnswered(h: Hash, s: State, t: nat)
    requires Consistent(h, s) && t < |s.threads| && s.threads[t].pc == Read
    ensures var th := s.threads[t];
            Answered(s, ReadBack(th.kind, th.key, th.data, |s.writes|, ReadData(h, s.driver.Picked(), th.key)))
  {
    var th := s.threads[t];
    TableRefinesMap(h, s.writes, th.key);
    assert s.writes[..|s.writes|] == s.writes;
    assert Latest(s, th) && DeletesZero(th);
  }

  lemma StepExclusive(h: Hash, lim: Limits, s: State, t: nat, draw: Draw)
    requires Exclusion(s)
    ensures Exclusion(Step(h, lim, s, t, draw))
  {
  }

  lemma StepAnswered(h: Hash, lim: Limits, s: State, t: nat, draw: Draw, i: nat)
    requires Consistent(h, s) && i < |Step(h, lim, s, t, draw).answers|
    ensures Answered(Step(h, lim, s, t, draw), Step(h, lim, s, t, draw).answers[i])
  {
    var s' := Step(h, lim, s, t, draw);
    if i < |s.answers| {
      assert Answered(s, s.answers[i]);
      assert s'.writes[..s.answers[i].after] == s.writes[..s.answers[i].after];
    } else {
      ReadAnswered(h, s, t);
    }
  }

  lemma StepWrites(h: Hash, lim: Limits, s: State, t: nat, draw: Draw)
    requires Exclusion(s) && TableIsWrites(h, s)
    ensures TableIsWrites(h, Step(h, lim, s, t, draw))
  {
    if t < |s.threads| && s.threads[t].pc == Write {
      PutsNext(h, s.writes, Obj(s.threads[t].key, s.threads[t].data));
    }
  }

  lemma StepLatest(h: Hash, lim: Limits, s: State, t: nat, draw: Draw)
    requires Consistent(h, s)
    ensures forall u :: 0 <= u < |s.threads| ==>
              var th := Step(h, lim, s, t, draw).threads[u];
              Latest(Step(h, lim, s, t, draw), th) && DeletesZero(th)
  {
    var s' := Step(h, lim, s, t, draw);
    forall u | 0 <= u < |s.threads| ensures Latest(s', s'.threads[u]) && DeletesZero(s'.threads[u]) {
      OneLatest(h, lim, s, t, draw, u);
    }
  }

  /** Only the owner of the mutex writes, so no one else's write is overtaken. */
  lemma OneLatest(h: Hash, lim: Limits, s: State, t: nat, draw: Draw, u: nat)
    requires Consistent(h, s) && u < |s.threads|
    ensures var s' := Step(h, lim, s, t, draw);
            Latest(s', s'.threads[u]) && DeletesZero(s'.threads[u])
  {
    assert Latest(s, s.threads[u]) && DeletesZero(s.threads[u]);
    assert InSection(s.threads[u]) <==> s.owner == u;
    if t < |s.threads| {
      assert InSection(s.threads[t]) <==> s.owner == t;
    }
  }

  lemma StepConsistent(h: Hash, lim: Limits, s: State, t: nat, draw: Draw)
    requires Consistent(h, s)
    ensures Consistent(h, Step(h, lim, s, t, draw))
  {
    var s' := Step(h, lim, s, t, draw);
    StepExclusive(h, lim, s, t, draw);
    StepWrites(h, lim, s, t, draw);
    StepLatest(h, lim, s, t, draw);
    forall i | 0 <= i < |s'.answers| ensures Answered(s', s'.answers[i]) {
      StepAnswered(h, lim, s, t, draw, i);
    }
  }

  /** For any interleaving of any number of threads: each read-back inside
      `add_to_hash_table` returns the value just written (not found for 0), each
      one inside `delete_from_hash_table` returns not found, every read returns
      the bound value at its place in the write order, and the table is the
      outcome of the writes in that order. */
  lemma EveryReadBackIsRight(h: Hash, lim: Limits, count: nat, driver: DriverView, moves: seq<Move>, n: nat)
    requires n <= |moves|
    ensures Consistent(h, Run(h, lim, count, driver, moves, n))
  {
    forall s: State, m: Move | Consistent(h, s) ensures Consistent(h, StepOf(h, lim)(s, m)) {
      StepConsistent(h, lim, s, m.t, m.draw);
    }
    Runs.RunKeeps(StepOf(h, lim), AnyMove, s => Consistent(h, s), Start(count, driver), moves, n);
  }

  // ----- Counters -----

  predicate FillPending(th: Thread) {
    th.phase == Fill && th.pc in {Lock, Pick, Write, Read, Count}
  }

  predicate MixedPending(th: Thread) {
    th.phase == Mixed && th.pc in {Lock, Pick, Write, Read, Count}
  }

  predicate ReadDone(th: Thread) {
    th.pc == Count
  }

  predicate WriteDone(th: Thread) {
    th.pc == Read && th.kind != Search
  }

  function CountIf(p: Thread -> bool, ths: seq<Thread>): (n: nat)
    ensures n <= |ths|
  {
    if ths == [] then 0 else (if p(ths[0]) then 1 else 0) + CountIf(p, ths[1..])
  }

  lemma {:induction false} CountIfUpdate(p: Thread -> bool, ths: seq<Thread>, t: nat, th: Thread)
    requires t < |ths|
    ensures CountIf(p, ths[t := th])
         == CountIf(p, ths) - (if p(ths[t]) then 1 else 0) + (if p(th) then 1 else 0)
  {
    var ths' := ths[t := th];
    if t == 0 {
      assert ths'[1..] == ths[1..];
    } else {
      assert ths'[1..] == ths[1..][t - 1 := th];
      CountIfUpdate(p, ths[1..], t - 1, th);
    }
  }

  lemma {:induction false} CountIfNone(p: Thread -> bool, ths: seq<Thread>)
    requires forall t :: 0 <= t < |ths| ==> !p(ths[t])
    ensures CountIf(p, ths) == 0
  {
    if ths != [] {
      assert !p(ths[0]);
      forall t | 0 <= t < |ths| - 1 ensures !p(ths[1..][t]) {
        assert ths[1..][t] == ths[t + 1];
      }
      CountIfNone(p, ths[1..]);
    }
  }

  // What the guards have committed to.

  predicate FillBounded(lim: Limits, s: State) {
    |s.threads| > 0 ==> s.filled + CountIf(FillPending, s.threads) < lim.fill + |s.threads|
  }

  predicate MixedBounded(lim: Limits, s: State) {
    |s.threads| > 0 ==> s.operations + CountIf(MixedPending, s.threads) < lim.mixed + |s.threads|
  }

  /** A thread is in its second loop, or done, only once the counter allowed it. */
  predicate PhaseOk(lim: Limits, s: State, th: Thread) {
    && (th.phase == Mixed ==> lim.fill <= s.filled)
    && (th.pc == Done ==> th.phase == Mixed && lim.mixed <= s.operations)
    && DeletesZero(th)
  }

  /** What the counters account for. */
  predicate CallsCounted(s: State) {
    && |s.answers| == s.filled + s.operations + CountIf(ReadDone, s.threads)
    && |s.writes| <= |s.answers| + CountIf(WriteDone, s.threads)
    && 0 <= s.filled && 0 <= s.operations
  }

  predicate Counted(lim: Limits, s: State) {
    && FillBounded(lim, s) && MixedBounded(lim, s) && CallsCounted(s)
    && forall t :: 0 <= t < |s.threads| ==> PhaseOk(lim, s, s.threads[t])
  }

  /** What thread `t` has become. */
  function Moved(h: Hash, lim: Limits, s: State, t: nat, draw: Draw): Thread
    requires t < |s.threads|
  {
    Step(h, lim, s, t, draw).threads[t]
  }

  lemma OnlyOneMoves(h: Hash, lim: Limits, s: State, t: nat, draw: Draw)
    requires t < |s.threads|
    ensures Step(h, lim, s, t, draw).threads == s.threads[t := Moved(h, lim, s, t, draw)]
  {
  }

  lemma {:induction false} NotAllPending(p: Thread -> bool, ths: seq<Thread>, t: nat)
    requires t < |ths| && !p(ths[t])
    ensures CountIf(p, ths) < |ths|
  {
    if t > 0 {
      NotAllPending(p, ths[1..], t - 1);
    }
  }

  lemma StepFill(h: Hash, lim: Limits, s: State, t: nat, draw: Draw)
    requires FillBounded(lim, s) && t < |s.threads|
    ensures FillBounded(lim, Step(h, lim, s, t, draw))
  {
    OnlyOneMoves(h, lim, s, t, draw);
    CountIfUpdate(FillPending, s.threads, t, Moved(h, lim, s, t, draw));
    if s.threads[t].pc == Guard {
      NotAllPending(FillPending, s.threads, t);
    }
  }

  lemma StepMixed(h: Hash, lim: Limits, s: State, t: nat, draw: Draw)
    requires MixedBounded(lim, s) && t < |s.threads|
    ensures MixedBounded(lim, Step(h, lim, s, t, draw))
  {
    OnlyOneMoves(h, lim, s, t, draw);
    CountIfUpdate(MixedPending, s.threads, t, Moved(h, lim, s, t, draw));
    if s.threads[t].pc == Guard {
      NotAllPending(MixedPending, s.threads, t);
    }
  }

  lemma StepPhase(h: Hash, lim: Limits, s: State, t: nat, draw: Draw, u: nat)
    requires u < |s.threads| && PhaseOk(lim, s, s.threads[u])
    ensures PhaseOk(lim, Step(h, lim, s, t, draw), Step(h, lim, s, t, draw).threads[u])
  {
    var s' := Step(h, lim, s, t, draw);
    assert s.filled <= s'.filled && s.operations <= s'.operations;
    if t < |s.threads| && u != t {
      OnlyOneMoves(h, lim, s, t, draw);
      assert s'.threads[u] == s.threads[u];
    }
  }

  lemma StepCalls(h: Hash, lim: Limits, s: State, t: nat, draw: Draw)
    requires CallsCounted(s) && t < |s.threads| && DeletesZero(s.threads[t])
    ensures CallsCounted(Step(h, lim, s, t, draw))
  {
    var th := Moved(h, lim, s, t, draw);
    OnlyOneMoves(h, lim, s, t, draw);
    CountIfUpdate(ReadDone, s.threads, t, th);
    CountIfUpdate(WriteDone, s.threads, t, th);
  }

  lemma StepCounted(h: Hash, lim: Limits, s: State, t: nat, draw: Draw)
    requires Counted(lim, s)
    ensures Counted(lim, Step(h, lim, s, t, draw))
  {
    if t < |s.threads| {
      var s' := Step(h, lim, s, t, draw);
      assert PhaseOk(lim, s, s.threads[t]);
      StepFill(h, lim, s, t, draw);
      StepMixed(h, lim, s, t, draw);
      StepCalls(h, lim, s, t, draw);
      OnlyOneMoves(h, lim, s, t, draw);
      forall u | 0 <= u < |s'.threads| ensures PhaseOk(lim, s', s'.threads[u]) {
        StepPhase(h, lim, s, t, draw, u);
      }
    }
  }

  lemma StartCounted(lim: Limits, count: nat, driver: DriverView)
    ensures Counted(lim, Start(count, driver))
  {
    var ths := Start(count, driver).threads;
    CountIfNone(FillPending, ths);
    CountIfNone(MixedPending, ths);
    CountIfNone(ReadDone, ths);
    CountIfNone(WriteDone, ths);
  }

  predicate CountedFor(lim: Limits, count: nat, s: State) {
    Counted(lim, s) && |s.threads| == count
  }

  lemma RunCounted(h: Hash, lim: Limits, count: nat, driver: DriverView, moves: seq<Move>, n: nat)
    requires n <= |moves|
    ensures CountedFor(lim, count, Run(h, lim, count, driver, moves, n))
  {
    StartCounted(lim, count, driver);
    forall s: State, m: Move | CountedFor(lim, count, s) ensures CountedFor(lim, count, StepOf(h, lim)(s, m)) {
      StepCounted(h, lim, s, m.t, m.draw);
    }
    Runs.RunKeeps(StepOf(h, lim), AnyMove, s => CountedFor(lim, count, s), Start(count, driver), moves, n);
  }

  /** Although the guards are read outside the mutex, every finished run ends
      with each counter between its limit and its limit plus threads minus one,
      and the driver has seen exactly one read and at most one write for each
      counted section. */
  lemma FinishedRunIsBounded(h: Hash, lim: Limits, count: nat, driver: DriverView, moves: seq<Move>, n: nat)
    requires n <= |moves| && count > 0
    requires Finished(Run(h, lim, count, driver, moves, n))
    ensures var s := Run(h, lim, count, driver, moves, n);
            && lim.fill <= s.filled <= lim.fill + count - 1
            && lim.mixed <= s.operations <= lim.mixed + count - 1
            && |s.writes| <= |s.answers| == s.filled + s.operations
  {
    var s := Run(h, lim, count, driver, moves, n);
    RunCounted(h, lim, count, driver, moves, n);
    assert PhaseOk(lim, s, s.threads[0]);
    CountIfNone(FillPending, s.threads);
    CountIfNone(MixedPending, s.threads);
    CountIfNone(ReadDone, s.threads);
    CountIfNone(WriteDone, s.threads);
  }

  // ----- Every run ends -----

  /** Whatever it draws, the thread does not stay where it is. */
  ghost predicate CanMove(h: Hash, lim: Limits, s: State, t: nat) {
    t < |s.threads| && forall draw :: Step(h, lim, s, t, draw) != s
  }

  lemma OwnerMoves(h: Hash, lim: Limits, s: State, t: nat, draw: Draw)
    requires t < |s.threads| && s.threads[t].pc != Done && (s.threads[t].pc == Lock ==> s.owner == -1)
    ensures Step(h, lim, s, t, draw) != s
  {
    assert Moved(h, lim, s, t, draw) != s.threads[t];
  }

  /** No run gets stuck: until all threads are done, one of them can move. */
  lemma SomeThreadMoves(h: Hash, lim: Limits, count: nat, driver: DriverView, moves: seq<Move>, n: nat) returns (t: nat)
    requires n <= |moves| && !Finished(Run(h, lim, count, driver, moves, n))
    ensures CanMove(h, lim, Run(h, lim, count, driver, moves, n), t)
  {
    var s := Run(h, lim, count, driver, moves, n);
    EveryReadBackIsRight(h, lim, count, driver, moves, n);
    assert Exclusion(s);
    if s.owner == -1 {
      t :| t < |s.threads| && s.threads[t].pc != Done;
    } else {
      t := s.owner;
      assert InSection(s.threads[t]);
    }
    forall draw ensures Step(h, lim, s, t, draw) != s {
      OwnerMoves(h, lim, s, t, draw);
    }
  }

  /** How far a thread is from its next guard. */
  function Rank(th: Thread): nat {
    match th.pc
    case Done => 0
    case Guard => if th.phase == Mixed then 1 else 2
    case Unlock => 3
    case Count => 4
    case Read => 5
    case Write => 6
    case Pick => 7
    case Lock => 8
  }

  function Ranks(ths: seq<Thread>): nat {
    if ths == [] then 0 else Rank(ths[0]) + Ranks(ths[1..])
  }

  lemma {:induction false} RanksUpdate(ths: seq<Thread>, t: nat, th: Thread)
    requires t < |ths|
    ensures Ranks(ths[t := th]) == Ranks(ths) - Rank(ths[t]) + Rank(th)
  {
    var ths' := ths[t := th];
    if t == 0 {
      assert ths'[1..] == ths[1..];
    } else {
      assert ths'[1..] == ths[1..][t - 1 := th];
      RanksUpdate(ths[1..], t - 1, th);
    }
  }

  /** How many more sections the guards may still let in. */
  function Credits(lim: Limits, s: State): int {
    lim.fill + |s.threads| - s.filled - CountIf(FillPending, s.threads)
    + lim.mixed + |s.threads| - s.operations - CountIf(MixedPending, s.threads)
  }

  function Remaining(lim: Limits, s: State): int {
    8 * Credits(lim, s) + Ranks(s.threads)
  }

  lemma StepCredits(h: Hash, lim: Limits, s: State, t: nat, draw: Draw)
    requires t < |s.threads|
    ensures Credits(lim, Step(h, lim, s, t, draw))
         == Credits(lim, s) - if s.threads[t].pc == Guard && Moved(h, lim, s, t, draw).pc == Lock then 1 else 0
  {
    var th := Moved(h, lim, s, t, draw);
    OnlyOneMoves(h, lim, s, t, draw);
    CountIfUpdate(FillPending, s.threads, t, th);
    CountIfUpdate(MixedPending, s.threads, t, th);
  }

  /** Every step that changes anything leaves less to do. */
  lemma StepUsesUp(h: Hash, lim: Limits, s: State, t: nat, draw: Draw)
    ensures Remaining(lim, Step(h, lim, s, t, draw)) + (if Step(h, lim, s, t, draw) != s then 1 else 0)
         <= Remaining(lim, s)
  {
    if Step(h, lim, s, t, draw) != s {
      StepCredits(h, lim, s, t, draw);
      OnlyOneMoves(h, lim, s, t, draw);
      RanksUpdate(s.threads, t, Moved(h, lim, s, t, draw));
      RankDrops(h, lim, s, t, draw);
    }
  }

  lemma RankDrops(h: Hash, lim: Limits, s: State, t: nat, draw: Draw)
    requires t < |s.threads| && Step(h, lim, s, t, draw) != s
    ensures var th, th' := s.threads[t], Moved(h, lim, s, t, draw);
            Rank(th') < Rank(th) + if th.pc == Guard && th'.pc == Lock then 8 else 0
  {
  }

  /** A state with the number of steps so far that changed anything. */
  datatype Tally = Tally(s: State, moved: nat)

  function TallyOf(h: Hash, lim: Limits): (Tally, Move) -> Tally {
    (c: Tally, m: Move) =>
      var s := Step(h, lim, c.s, m.t, m.draw);
      Tally(s, c.moved + if s != c.s then 1 else 0)
  }

  function Tallied(h: Hash, lim: Limits, count: nat, driver: DriverView, moves: seq<Move>, n: nat): Tally
    requires n <= |moves|
  {
    Runs.Run(TallyOf(h, lim), Tally(Start(count, driver), 0), moves, n)
  }

  lemma TallyIsRun(h: Hash, lim: Limits, count: nat, driver: DriverView, moves: seq<Move>, n: nat)
    requires n <= |moves|
    ensures Tallied(h, lim, count, driver, moves, n).s == Run(h, lim, count, driver, moves, n)
  {
    Runs.RunProjects(
      TallyOf(h, lim), StepOf(h, lim), (c: Tally) => c.s, Tally(Start(count, driver), 0), moves, n);
  }

  /** The steps made and what is left stay within the budget. */
  predicate WithinBudget(lim: Limits, budget: int, c: Tally) {
    && Counted(lim, c.s) && c.moved + Remaining(lim, c.s) <= budget
    && (c.s.threads == [] ==> c.moved == 0)
  }

  lemma StepWithinBudget(h: Hash, lim: Limits, budget: int, c: Tally, m: Move)
    requires WithinBudget(lim, budget, c)
    ensures WithinBudget(lim, budget, TallyOf(h, lim)(c, m))
  {
    StepCounted(h, lim, c.s, m.t, m.draw);
    StepUsesUp(h, lim, c.s, m.t, m.draw);
  }

  lemma {:induction false} GuardRanks(ths: seq<Thread>)
    requires forall t :: 0 <= t < |ths| ==> ths[t] == StartThread()
    ensures Ranks(ths) == 2 * |ths|
  {
    if ths != [] {
      GuardRanks(ths[1..]);
    }
  }

  lemma RemainingAtStart(lim: Limits, count: nat, driver: DriverView)
    ensures Remaining(lim, Start(count, driver)) == 8 * (lim.fill + lim.mixed + 2 * count) + 2 * count
  {
    var ths := Start(count, driver).threads;
    CountIfNone(FillPending, ths);
    CountIfNone(MixedPending, ths);
    GuardRanks(ths);
  }

  lemma RemainingIsNat(lim: Limits, s: State)
    requires Counted(lim, s) && |s.threads| > 0
    ensures Remaining(lim, s) >= 0
  {
    assert FillBounded(lim, s) && MixedBounded(lim, s);
  }

  /** Every run ends: however it interleaves, only so many steps change anything. */
  lemma EveryRunEnds(h: Hash, lim: Limits, count: nat, driver: DriverView, moves: seq<Move>, n: nat)
    requires n <= |moves|
    ensures var c := Tallied(h, lim, count, driver, moves, n);
            && c.s == Run(h, lim, count, driver, moves, n)
            && c.moved <= 8 * (lim.fill + lim.mixed + 2 * count) + 2 * count
  {
    var start := Tally(Start(count, driver), 0);
    var budget := Remaining(lim, start.s);
    StartCounted(lim, count, driver);
    RemainingAtStart(lim, count, driver);
    forall c: Tally, m: Move | WithinBudget(lim, budget, c) ensures WithinBudget(lim, budget, TallyOf(h, lim)(c, m)) {
      StepWithinBudget(h, lim, budget, c, m);
    }
    Runs.RunKeeps(
      TallyOf(h, lim), (_: Tally, _: Move) => true, c => WithinBudget(lim, budget, c), start, moves, n);
    TallyIsRun(h, lim, count, driver, moves, n);
    var c := Tallied(h, lim, count, driver, moves, n);
    if c.s.threads != [] {
      RemainingIsNat(lim, c.s);
    }
  }
}
