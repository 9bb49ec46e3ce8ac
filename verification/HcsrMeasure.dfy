/** One HC-SR04 device as interleaved steps: its ioctl, its edges, the write and
    read calls, the measurement threads they start, and open and release, which
    re-initialise the device under whatever threads are still running. */
module HcsrMeasure {
  import opened Machine
  import opened HcsrRing
  import opened HcsrEcho
  import opened HcsrLog
  import Runs

  /** How far a measurement has come: requested but not spawned (the caller
      waits for the lock), refused a thread (the caller left with the lock
      held), spawned, sampling with the `m` read at its start, finished, or dead
      after dividing by zero. */
  datatype Stage =
    | Requested
    | Refused
    | Spawned
    | Sampling(m: int, wanted: int, fired: nat)
    | Finished(m: int, wanted: int, fired: nat)
    | Faulted

  /** `flagged`: requested by a write, which sets `measurement_in_progress`; the
      read call does not. */
  datatype Worker = Worker(flagged: bool, stage: Stage) {
    predicate UnderWay() {
      stage.Requested? || stage.Spawned? || stage.Sampling?
    }

    predicate Dead() {
      stage.Refused? || stage.Faulted?
    }
  }

  /** `workers` are all measurements ever requested and `published` counts all
      readings ever written. `tsk` is the thread last started, `holder` the
      worker that last took the buffer lock or -1 while it is free, `lateReads`
      the reads waiting to look at the ring again. */
  datatype State = State(
    pinsSet: bool, paramsSet: bool, m: int, delta: int, inProgress: bool,
    workers: seq<Worker>, tsk: int, holder: int, published: nat, lateReads: nat, log: Log)
  {
    predicate Ready() {
      pinsSet && paramsSet
    }
  }

  datatype Event =
    | PinsConfigured
    | SetParameters(p1: int, p2: int)
    | Edge(dt: nat)
    | Write(op: int)
    | Read
    | ReadAgain
    | Spawn(w: nat)
    | SpawnFails(w: nat)
    | Begin(w: nat)
    | Trigger(w: nat)
    | Publish(w: nat, dt: nat)
    | Open
    | Release

  /** Opened for the first time. */
  function Opened(clock: nat): State {
    State(false, false, -1, -1, false, [], -1, -1, 0, 0, Started(clock))
  }

  /** `initialize_device`: the lock is free again, whoever held it, but threads
      and waiting calls live on. */
  function Reinitialised(s: State): State {
    s.(pinsSet := false, paramsSet := false, m := -1, delta := -1, inProgress := false,
       tsk := -1, holder := -1, log := Started(s.log.clock))
  }

  function Wanted(m: int): int {
    Int32(m + 2)
  }

  function SetStage(s: State, w: nat, stage: Stage): State
    requires w < |s.workers|
  {
    s.(workers := s.workers[w := s.workers[w].(stage := stage)])
  }

  function Request(s: State, flagged: bool): State {
    s.(inProgress := s.inProgress || flagged, workers := s.workers + [Worker(flagged, Requested)])
  }

  function WriteStep(s: State, op: int): State {
    if !s.Ready() then s
    else
      var s1 := if op != 0 then s.(log := Cleared(s.log)) else s;
      if s.inProgress then s1 else Request(s1, true)
  }

  /** The read goes by the distance it gets: -1 is taken for an empty ring. */
  predicate LooksEmpty(s: State) {
    Newest(s.log.ring).distance == BUFFER_EMPTY
  }

  /** A read takes the lock, so it waits while that is held. */
  function ReadStep(s: State): State {
    if s.holder != -1 then s
    else
      var s1 := s.(log := Popped(s.log));
      if !LooksEmpty(s) || !s.Ready() then s1
      else if s.inProgress then s1.(lateReads := s.lateReads + 1)
      else Request(s1, false)
  }

  /** The second look of a read: what it takes is overwritten in the caller's
      buffer by the "empty" answer of the first look. */
  function ReadAgainStep(s: State): State {
    if s.lateReads == 0 || s.holder != -1 then s else s.(log := Popped(s.log), lateReads := s.lateReads - 1)
  }

  /** `kthread_run`, called with the lock held, which is given back. */
  function SpawnStep(s: State, w: nat): State {
    if At(s, w, Requested) && s.holder == -1 then SetStage(s, w, Spawned).(tsk := w) else s
  }

  /** `kthread_run` fails and the lock is kept; a read goes on to look again. */
  function SpawnFailsStep(s: State, w: nat): State {
    if At(s, w, Requested) && s.holder == -1
    then
      SetStage(s, w, Refused).(
        tsk := -1, holder := w, lateReads := s.lateReads + if s.workers[w].flagged then 0 else 1)
    else s
  }

  /** The thread takes the lock and reads `m`. */
  function BeginStep(s: State, w: nat): State {
    if At(s, w, Spawned) && s.holder == -1
    then SetStage(s, w, Stage.Sampling(s.m, Wanted(s.m), 0)).(holder := w) else s
  }

  function TriggerStep(s: State, w: nat): State
    requires IsSampling(s, w)
  {
    var stage := s.workers[w].stage;
    if stage.fired < stage.wanted
    then SetStage(s, w, Stage.Sampling(stage.m, stage.wanted, stage.fired + 1)) else s
  }

  /** `fifoWrite` of the mean so far, then the flag and the lock go, even when
      the lock is no longer this thread's. */
  function FinishStep(s: State, w: nat, dt: nat): State
    requires IsSampling(s, w) && !DivisionFaults(s.log.counters)
  {
    var stage := s.workers[w].stage;
    SetStage(s, w, Finished(stage.m, stage.wanted, stage.fired)).(
      log := MeanPublished(s.log, dt), published := s.published + 1, inProgress := false, holder := -1)
  }

  predicate FiredAll(s: State, w: nat) {
    IsSampling(s, w) && s.workers[w].stage.fired >= s.workers[w].stage.wanted
  }

  function PublishStep(s: State, w: nat, dt: nat): State {
    if !FiredAll(s, w) then s
    else if DivisionFaults(s.log.counters) then SetStage(s, w, Faulted).(log := Later(s.log, dt))
    else FinishStep(s, w, dt)
  }

  predicate At(s: State, w: nat, stage: Stage) {
    w < |s.workers| && s.workers[w].stage == stage
  }

  predicate IsSampling(s: State, w: int) {
    0 <= w < |s.workers| && s.workers[w].stage.Sampling?
  }

  predicate HasEnded(s: State, w: int) {
    0 <= w < |s.workers| && (s.workers[w].stage.Finished? || s.workers[w].stage.Faulted?)
  }

  /** With the flag set, release first waits in `kthread_stop` for the thread
      last started. */
  predicate CanRelease(s: State) {
    s.inProgress ==> HasEnded(s, s.tsk)
  }

  /** One atomic step. Steps that cannot happen now leave the state alone. */
  function Step(s: State, e: Event): State {
    match e
    case PinsConfigured => s.(pinsSet := true)
    case SetParameters(p1, p2) =>
      if p1 <= 0 || p2 <= 0 then s else s.(m := p1, delta := p2, paramsSet := true)
    case Edge(dt) => s.(log := EdgeSeen(s.log, dt))
    case Write(op) => WriteStep(s, op)
    case Read => ReadStep(s)
    case ReadAgain => ReadAgainStep(s)
    case Spawn(w) => SpawnStep(s, w)
    case SpawnFails(w) => SpawnFailsStep(s, w)
    case Begin(w) => BeginStep(s, w)
    case Trigger(w) => if IsSampling(s, w) then TriggerStep(s, w) else s
    case Publish(w, dt) => PublishStep(s, w, dt)
    case Open => Reinitialised(s)
    case Release => if CanRelease(s) then Reinitialised(s) else s
  }

  /** The state after the first `n` events since the device was first opened. */
  function Run(start: nat, es: seq<Event>, n: nat): State
    requires n <= |es|
  {
    Runs.Run(Step, Opened(start), es, n)
  }

  function RunAll(s: State, es: seq<Event>): State {
    Runs.RunAll(Step, s, es)
  }

  /** The event re-initialises the device. */
  predicate Reinitialises(s: State, e: Event) {
    e.Open? || (e.Release? && CanRelease(s))
  }

  // ----- Scripted runs -----

  /** Events that set the device up and take a new measurement `w` to the lock. */
  function Starting(w: nat): seq<Event> {
    [PinsConfigured, SetParameters(1, 1), Write(0), Spawn(w), Begin(w)]
  }

  /** What `Starting` reaches from a state with the lock free and the flag clear. */
  function WithSampler(s: State): State {
    s.(pinsSet := true, paramsSet := true, m := 1, delta := 1, inProgress := true,
       workers := s.workers + [Worker(true, Stage.Sampling(1, 3, 0))], tsk := |s.workers|, holder := |s.workers|)
  }

  /** Whatever threads are about: if the lock is free and the flag clear, a
      set-up and a write bring a new worker inside. */
  lemma StartingGetsInside(s: State)
    requires s.holder == -1 && !s.inProgress
    ensures RunAll(s, Starting(|s.workers|)) == WithSampler(s)
  {
    var w := |s.workers|;
    var es := Starting(w);
    var s2 := s.(pinsSet := true, paramsSet := true, m := 1, delta := 1);
    assert Runs.Run(Step, s, es, 1) == s.(pinsSet := true);
    assert Runs.Run(Step, s, es, 2) == s2;
    assert Runs.Run(Step, s, es, 3).workers == s.workers + [Worker(true, Requested)];
    assert Runs.Run(Step, s, es, 4).workers == s.workers + [Worker(true, Spawned)];
    assert Runs.Run(Step, s, es, 5).workers == s.workers + [Worker(true, Stage.Sampling(1, 3, 0))];
  }

  /** The three triggers of a measurement with m = 1, and its end. */
  function Finishing(w: nat): seq<Event> {
    [Trigger(w), Trigger(w), Trigger(w), Publish(w, 0)]
  }

  lemma FinishingPublishes(s: State, w: nat)
    requires At(s, w, Stage.Sampling(1, 3, 0))
    ensures RunAll(s, Finishing(w)) == PublishStep(SetStage(s, w, Stage.Sampling(1, 3, 3)), w, 0)
  {
    var es := Finishing(w);
    assert Runs.Run(Step, s, es, 1).workers == SetStage(s, w, Stage.Sampling(1, 3, 1)).workers;
    assert Runs.Run(Step, s, es, 2).workers == SetStage(s, w, Stage.Sampling(1, 3, 2)).workers;
    assert Runs.Run(Step, s, es, 3).workers == SetStage(s, w, Stage.Sampling(1, 3, 3)).workers;
  }

  /** A set-up, an echo of the given width, and the rest of the measurement. */
  function Measuring(w: nat, width: nat): seq<Event> {
    Starting(w) + ([Edge(0), Edge(width)] + Finishing(w))
  }

  /** What a device reads when it hears its first echo. */
  function FirstReading(width: nat): int {
    Int32((width % TWO_64) / TICKS_PER_CM)
  }

  function Echoed(g: Log, width: nat): Log {
    EdgeSeen(EdgeSeen(g, 0), width)
  }

  lemma FirstEcho(clock: nat, width: nat)
    requires FirstReading(width) <= FARTHEST
    ensures var g := Echoed(Started(clock), width);
            && g.clock == clock + width && g.ring == EMPTY_RING
            && g.counters.total == 1 && g.counters.sum == FirstReading(width)
  {
    DistanceOfWrapped(clock, clock + width);
  }

  lemma EchoHeard(s: State, width: nat)
    ensures RunAll(s, [Edge(0), Edge(width)]) == s.(log := Echoed(s.log, width))
  {
    assert Runs.Run(Step, s, [Edge(0), Edge(width)], 1) == s.(log := EdgeSeen(s.log, 0));
  }

  /** The lock is free, `n` readings have been published since the beginning, and
      the last one alone was written to an empty ring. */
  predicate FirstPublished(s: State, n: nat, d: int, clock: nat) {
    s.holder == -1 && s.published == n && s.log.ring == Added(EMPTY_RING, Entry(d, clock % TWO_64))
  }

  /** The end of a measurement that heard exactly one echo, of distance `d`. */
  lemma OneEchoPublished(s: State, w: nat, d: int)
    requires At(s, w, Stage.Sampling(1, 3, 3)) && s.log.ring == EMPTY_RING
    requires s.log.counters.total == 1 && s.log.counters.sum == d
    ensures FirstPublished(PublishStep(s, w, 0), s.published + 1, d, s.log.clock)
  {
    assert Published(s.log.counters) == d;
  }

  lemma MeasuringRuns(s: State, width: nat)
    requires s.holder == -1 && !s.inProgress
    ensures RunAll(s, Measuring(|s.workers|, width))
         == RunAll(WithSampler(s).(log := Echoed(s.log, width)), Finishing(|s.workers|))
  {
    var w, s1, echo := |s.workers|, WithSampler(s), [Edge(0), Edge(width)];
    Runs.RunAllJoin(Step, s, Starting(w), echo + Finishing(w));
    StartingGetsInside(s);
    Runs.RunAllJoin(Step, s1, echo, Finishing(w));
    EchoHeard(s1, width);
  }

  lemma MeasuringPublishes(s: State, width: nat)
    requires s.holder == -1 && !s.inProgress && s.log == Started(s.log.clock)
    requires FirstReading(width) <= FARTHEST
    ensures FirstPublished(
              RunAll(s, Measuring(|s.workers|, width)), s.published + 1, FirstReading(width), s.log.clock + width)
  {
    var w, s1 := |s.workers|, WithSampler(s);
    var s2 := s1.(log := Echoed(s1.log, width));
    MeasuringRuns(s, width);
    FinishingPublishes(s2, w);
    FirstEcho(s.log.clock, width);
    OneEchoPublished(SetStage(s2, w, Stage.Sampling(1, 3, 3)), w, FirstReading(width));
  }

  lemma RunOpens(s: State, es: seq<Event>)
    ensures RunAll(s, [Open] + es) == RunAll(Reinitialised(s), es)
  {
    Runs.RunAllJoin(Step, s, [Open], es);
    assert Runs.Run(Step, s, [Open], 0) == s;
  }

  // ----- What every measurement does -----

  function AtLeastZero(x: int): nat {
    if x < 0 then 0 else x
  }

  /** `m` as set by SET_PARAMETERS, or -1 after open. */
  predicate ParameterOk(m: int) {
    m >= 1 || m == -1
  }

  /** Trigger pulses: none too many while sampling, all of them when finished. */
  predicate StageOk(stage: Stage) {
    match stage
    case Sampling(m, wanted, fired) => ParameterOk(m) && wanted == Wanted(m) && fired <= AtLeastZero(wanted)
    case Finished(m, wanted, fired) => ParameterOk(m) && wanted == Wanted(m) && fired == AtLeastZero(wanted)
    case _ => true
  }

  function CountFinished(ws: seq<Worker>): nat {
    if ws == [] then 0
    else CountFinished(ws[..|ws| - 1]) + if ws[|ws| - 1].stage.Finished? then 1 else 0
  }

  lemma {:induction false} CountFinishedUpdate(ws: seq<Worker>, w: nat, x: Worker)
    requires w < |ws| && !ws[w].stage.Finished?
    ensures CountFinished(ws[w := x]) == CountFinished(ws) + if x.stage.Finished? then 1 else 0
  {
    var ws' := ws[w := x];
    if w == |ws| - 1 {
      assert ws'[..w] == ws[..w];
    } else {
      assert ws'[..|ws| - 1] == ws[..|ws| - 1][w := x];
      CountFinishedUpdate(ws[..|ws| - 1], w, x);
    }
  }

  /** The lock is free or held by a worker that samples or is dead. */
  predicate HolderOk(s: State) {
    s.holder == -1 || (0 <= s.holder < |s.workers| && (IsSampling(s, s.holder) || s.workers[s.holder].Dead()))
  }

  predicate Measured(s: State) {
    && HolderOk(s)
    && (forall w :: 0 <= w < |s.workers| ==> StageOk(s.workers[w].stage))
    && ParameterOk(s.m)
    && s.published == CountFinished(s.workers)
  }

  lemma RequestMeasured(s: State, flagged: bool)
    requires Measured(s)
    ensures Measured(Request(s, flagged))
  {
    assert Request(s, flagged).workers[..|s.workers|] == s.workers;
  }

  lemma StageMeasured(s: State, w: nat, stage: Stage, s': State)
    requires Measured(s) && w < |s.workers| && !s.workers[w].stage.Finished? && StageOk(stage)
    requires s'.workers == SetStage(s, w, stage).workers && s'.m == s.m && HolderOk(s')
    requires s'.published == s.published + if stage.Finished? then 1 else 0
    ensures Measured(s')
  {
    CountFinishedUpdate(s.workers, w, s'.workers[w]);
  }

  lemma PublishMeasured(s: State, w: nat, dt: nat)
    requires Measured(s)
    ensures Measured(PublishStep(s, w, dt))
  {
    if FiredAll(s, w) {
      var s' := PublishStep(s, w, dt);
      assert StageOk(s.workers[w].stage);
      StageMeasured(s, w, s'.workers[w].stage, s');
    }
  }

  lemma TriggerMeasured(s: State, w: nat)
    requires Measured(s) && IsSampling(s, w)
    ensures Measured(TriggerStep(s, w))
  {
    var s' := TriggerStep(s, w);
    assert StageOk(s.workers[w].stage);
    if s' != s {
      StageMeasured(s, w, s'.workers[w].stage, s');
    }
  }

  lemma BeginMeasured(s: State, w: nat)
    requires Measured(s)
    ensures Measured(BeginStep(s, w))
  {
    if s.holder == -1 && At(s, w, Spawned) {
      StageMeasured(s, w, Stage.Sampling(s.m, Wanted(s.m), 0), BeginStep(s, w));
    }
  }

  lemma SpawnMeasured(s: State, w: nat)
    requires Measured(s)
    ensures Measured(SpawnStep(s, w)) && Measured(SpawnFailsStep(s, w))
  {
    if s.holder == -1 && At(s, w, Requested) {
      StageMeasured(s, w, Spawned, SpawnStep(s, w));
      StageMeasured(s, w, Refused, SpawnFailsStep(s, w));
    }
  }

  lemma CallMeasured(s: State, op: int)
    requires Measured(s)
    ensures Measured(WriteStep(s, op)) && Measured(ReadStep(s)) && Measured(ReadAgainStep(s))
  {
    RequestMeasured(s.(log := Popped(s.log)), false);
    RequestMeasured(if op != 0 then s.(log := Cleared(s.log)) else s, true);
  }

  lemma StepMeasured(s: State, e: Event)
    requires Measured(s)
    ensures Measured(Step(s, e))
  {
    match e
    case Write(op) => CallMeasured(s, op);
    case Read => CallMeasured(s, 0);
    case ReadAgain => CallMeasured(s, 0);
    case Spawn(w) => SpawnMeasured(s, w);
    case SpawnFails(w) => SpawnMeasured(s, w);
    case Begin(w) => BeginMeasured(s, w);
    case Trigger(w) => if IsSampling(s, w) { TriggerMeasured(s, w); }
    case Publish(w, dt) => PublishMeasured(s, w, dt);
    case _ =>
  }

  /** For every interleaving, opens and releases at any moment included: a worker
      that finished has fired exactly the triggers wanted by the `m` read at its
      start, whatever SET_PARAMETERS or an open did since, and each finished
      worker has published exactly once. */
  lemma EveryMeasurement(start: nat, es: seq<Event>, n: nat)
    requires n <= |es|
    ensures Measured(Run(start, es, n))
  {
    forall t: State, e: Event | Measured(t) ensures Measured(Step(t, e)) {
      StepMeasured(t, e);
    }
    Runs.RunKeeps(Step, (_: State, _: Event) => true, Measured, Opened(start), es, n);
  }

  /** The thread fires m + 2 triggers exactly when `m + 2` does not overflow. */
  lemma FiresTwoMoreIff(start: nat, es: seq<Event>, n: nat, w: nat)
    requires n <= |es|
    requires var s := Run(start, es, n);
             w < |s.workers| && s.workers[w].stage.Finished? && s.workers[w].stage.m < TWO_31
    ensures var stage := Run(start, es, n).workers[w].stage;
            stage.fired == stage.m + 2 <==> stage.m <= TWO_31 - 3
  {
    EveryMeasurement(start, es, n);
    assert StageOk(Run(start, es, n).workers[w].stage);
  }

  predicate Captured(s: State, w: nat) {
    w < |s.workers| && (s.workers[w].stage.Sampling? || s.workers[w].stage.Finished?)
  }

  lemma OnlyBeginCaptures(s: State, e: Event, w: nat)
    requires Captured(Step(s, e), w)
    ensures if Captured(s, w) then Step(s, e).workers[w].stage.m == s.workers[w].stage.m
            else e == Begin(w) && At(s, w, Spawned) && Step(s, e).workers[w].stage.m == s.m
  {
  }

  /** `m` of a measurement is the one in force when its thread took the lock. */
  lemma {:induction false} CapturedAtStart(start: nat, es: seq<Event>, n: nat, w: nat) returns (k: nat)
    requires n <= |es| && Captured(Run(start, es, n), w)
    ensures k < n && es[k] == Begin(w) && At(Run(start, es, k), w, Spawned)
    ensures Run(start, es, k).m == Run(start, es, n).workers[w].stage.m
  {
    k := n - 1;
    var before := Run(start, es, k);
    OnlyBeginCaptures(before, es[k], w);
    if Captured(before, w) {
      k := CapturedAtStart(start, es, n - 1, w);
    }
  }

  // ----- The lock -----

  predicate NoneInside(s: State) {
    forall w :: 0 <= w < |s.workers| ==> !IsSampling(s, w)
  }

  /** Whoever samples holds the lock; in particular at most one worker samples. */
  predicate Exclusive(s: State) {
    forall w :: 0 <= w < |s.workers| && IsSampling(s, w) ==> s.holder == w
  }

  /** The step is no open or release that frees the lock under a sampling worker. */
  predicate SparesTheLock(s: State, e: Event) {
    Reinitialises(s, e) ==> NoneInside(s)
  }

  lemma SamplerBefore(s: State, e: Event, w: int)
    requires IsSampling(Step(s, e), w)
    ensures IsSampling(s, w) || (e == Begin(w) && s.holder == -1 && Step(s, e).holder == w)
  {
  }

  lemma HolderKept(s: State, e: Event, w: int)
    requires Exclusive(s) && !Reinitialises(s, e) && IsSampling(s, w) && IsSampling(Step(s, e), w)
    ensures Step(s, e).holder == w
  {
    assert s.holder == w;
  }

  /** A step keeps the lock exclusive exactly when it spares it. */
  lemma StepExclusiveIff(s: State, e: Event)
    requires Exclusive(s)
    ensures Exclusive(Step(s, e)) <==> SparesTheLock(s, e)
  {
    var s' := Step(s, e);
    if Reinitialises(s, e) {
      assert s'.holder == -1 && s'.workers == s.workers;
      forall w ensures IsSampling(s', w) <==> IsSampling(s, w) {}
    } else {
      forall w | 0 <= w < |s'.workers| && IsSampling(s', w) ensures s'.holder == w {
        SamplerBefore(s, e, w);
        if IsSampling(s, w) {
          HolderKept(s, e, w);
        }
      }
    }
  }

  /** In every run whose opens and releases find no worker sampling, at most one
      worker is ever inside the lock. */
  lemma OneInsideTheLock(start: nat, es: seq<Event>, n: nat)
    requires n <= |es| && Runs.Always(Step, SparesTheLock, Opened(start), es, n)
    ensures Exclusive(Run(start, es, n))
  {
    forall t: State, e: Event | Exclusive(t) && SparesTheLock(t, e) ensures Exclusive(Step(t, e)) {
      StepExclusiveIff(t, e);
    }
    Runs.RunKeeps(Step, SparesTheLock, Exclusive, Opened(start), es, n);
  }

  /** A second open frees the lock under a sampling worker: after one more set-up
      and write two workers are inside. */
  lemma OpenLetsTwoInside(start: nat)
    ensures var s := RunAll(Opened(start), Starting(0) + ([Open] + Starting(1)));
            IsSampling(s, 0) && IsSampling(s, 1) && !Exclusive(s)
  {
    var s1 := WithSampler(Opened(start));
    Runs.RunAllJoin(Step, Opened(start), Starting(0), [Open] + Starting(1));
    StartingGetsInside(Opened(start));
    RunOpens(s1, Starting(1));
    StartingGetsInside(Reinitialised(s1));
    var s2 := WithSampler(Reinitialised(s1));
    assert s2.workers == [Worker(true, Stage.Sampling(1, 3, 0)), Worker(true, Stage.Sampling(1, 3, 0))];
    assert IsSampling(s2, 0) && s2.holder == 1;
  }

  // ----- Division by zero -----

  lemma EdgeCounters(g: Log, dt: nat)
    requires g.counters == Handled(g.times)
    ensures EdgeSeen(g, dt).counters == Handled(EdgeSeen(g, dt).times)
  {
    assert (g.times + [g.clock + dt])[..|g.times|] == g.times;
  }

  lemma OnlyEdgesCount(s: State, e: Event)
    requires !e.Edge?
    ensures var g, g' := s.log, Step(s, e).log;
            g' == Started(g.clock) || (g'.times == g.times && g'.counters == g.counters)
  {
  }

  lemma StepCounters(s: State, e: Event)
    requires CountersOk(s)
    ensures CountersOk(Step(s, e))
  {
    if e.Edge? {
      EdgeCounters(s.log, e.dt);
    } else {
      OnlyEdgesCount(s, e);
    }
  }

  predicate CountersOk(s: State) {
    s.log.counters == Handled(s.log.times)
  }

  lemma CountersOfRun(start: nat, es: seq<Event>, n: nat)
    requires n <= |es|
    ensures CountersOk(Run(start, es, n))
  {
    forall t: State, e: Event | CountersOk(t) ensures CountersOk(Step(t, e)) {
      StepCounters(t, e);
    }
    Runs.RunKeeps(Step, (_: State, _: Event) => true, CountersOk, Opened(start), es, n);
  }

  lemma CountAsInt32(n: nat)
    ensures Int32(n) == 0 <==> n % TWO_32 == 0
    ensures Int32(n) == -1 <==> n % TWO_32 == TWO_32 - 1
  {
  }

  lemma SumAsInt32(x: int)
    ensures Int32(x) == -TWO_31 <==> x % TWO_32 == TWO_31
  {
  }

  /** The accepted echoes for which the division faults: their number is 0 modulo
      2^32, so in practice there was none, or it is -1 and their sum is -2^31. */
  predicate Undividable(a: seq<int>) {
    |a| % TWO_32 == 0 || (|a| % TWO_32 == TWO_32 - 1 && Sum(a) % TWO_32 == TWO_31)
  }

  lemma FaultsWhenUndividable(times: seq<int>)
    ensures DivisionFaults(Handled(times)) <==> Undividable(Accepted(times))
  {
    CountersAreTheEchoes(times);
    CountAsInt32(|Accepted(times)|);
    SumAsInt32(Sum(Accepted(times)));
  }

  lemma PublishesOrFaults(s: State, w: nat, dt: nat)
    requires FiredAll(s, w)
    ensures var s' := Step(s, Publish(w, dt));
            if DivisionFaults(s.log.counters) then At(s', w, Faulted) && s'.published == s.published
            else s'.workers[w].stage.Finished? && s'.published == s.published + 1
  {
  }

  /** A measurement with all its triggers fired dies in the division exactly when
      the echoes accepted since open cannot be divided; otherwise it publishes, and
      what it publishes is an int. */
  lemma FaultsIff(start: nat, es: seq<Event>, n: nat, w: nat, dt: nat)
    requires n <= |es| && FiredAll(Run(start, es, n), w)
    ensures var s := Run(start, es, n);
            var s' := Step(s, Publish(w, dt));
            if Undividable(Accepted(s.log.times)) then At(s', w, Faulted) && s'.published == s.published
            else
              && s'.workers[w].stage.Finished? && s'.published == s.published + 1
              && !DivisionFaults(s.log.counters) && IsInt(Published(s.log.counters))
  {
    var s := Run(start, es, n);
    CountersOfRun(start, es, n);
    CountersAreTheEchoes(s.log.times);
    FaultsWhenUndividable(s.log.times);
    PublishesOrFaults(s, w, dt);
  }

  /** A device that hears no echo reaches the fault, with the lock held. */
  lemma FaultReached(start: nat)
    ensures var s := RunAll(Opened(start), Starting(0) + Finishing(0));
            At(s, 0, Faulted) && s.holder == 0 && s.inProgress && s.published == 0
  {
    Runs.RunAllJoin(Step, Opened(start), Starting(0), Finishing(0));
    StartingGetsInside(Opened(start));
    FinishingPublishes(WithSampler(Opened(start)), 0);
  }

  /** `n` echoes of the same width. */
  function Echoes(n: nat, width: nat): seq<Event> {
    if n == 0 then [] else Echoes(n - 1, width) + [Edge(0), Edge(width)]
  }

  function EchoedOften(g: Log, n: nat, width: nat): Log {
    if n == 0 then g else Echoed(EchoedOften(g, n - 1, width), width)
  }

  lemma {:induction false} EchoesRun(s: State, n: nat, width: nat)
    ensures RunAll(s, Echoes(n, width)) == s.(log := EchoedOften(s.log, n, width))
  {
    if n > 0 {
      EchoesRun(s, n - 1, width);
      Runs.RunAllJoin(Step, s, Echoes(n - 1, width), [Edge(0), Edge(width)]);
      EchoHeard(s.(log := EchoedOften(s.log, n - 1, width)), width);
    }
  }

  /** Between echoes: an even number of edges, `n` distances accepted, of sum `x`. */
  predicate Counts(times: seq<int>, n: nat, x: int) {
    |times| % 2 == 0 && |Accepted(times)| == n && Sum(Accepted(times)) == x
  }

  lemma FirstReadingIs(clock: nat, width: nat)
    ensures Distance(clock, clock + width) == FirstReading(width)
  {
  }

  lemma EchoCounts(times: seq<int>, clock: nat, width: nat, n: nat, x: int)
    requires Counts(times, n, x) && FirstReading(width) <= FARTHEST
    ensures Counts(times + [clock] + [clock + width], n + 1, x + FirstReading(width))
  {
    FirstReadingIs(clock, width);
    EchoAdds(times, clock, clock + width);
  }

  lemma EchoTimes(g: Log, width: nat)
    ensures Echoed(g, width).times == g.times + [g.clock] + [g.clock + width]
  {
  }

  lemma EchoedCounts(g: Log, width: nat, n: nat, x: int)
    requires Counts(g.times, n, x) && FirstReading(width) <= FARTHEST
    ensures Counts(Echoed(g, width).times, n + 1, x + FirstReading(width))
  {
    EchoTimes(g, width);
    EchoCounts(g.times, g.clock, width, n, x);
  }

  /** `n` distances of 0 or 1 add up to 0 or `n`. */
  function Share(n: nat, d: int): int {
    if d == 1 then n else 0
  }

  lemma {:induction false} EchoesCount(g: Log, m: nat, width: nat, n: nat, x: int)
    requires Counts(g.times, n, x) && FirstReading(width) in {0, 1}
    ensures Counts(EchoedOften(g, m, width).times, n + m, x + Share(m, FirstReading(width)))
  {
    if m > 0 {
      EchoesCount(g, m - 1, width, n, x);
      EchoedCounts(EchoedOften(g, m - 1, width), width, n + m - 1, x + Share(m - 1, FirstReading(width)));
    }
  }

  /** 2^31 echoes of one centimetre and 2^31 - 1 of none. */
  function ManyEchoes(): seq<Event> {
    Echoes(TWO_31, TICKS_PER_CM) + Echoes(TWO_31 - 1, 0)
  }

  function ManyEchoed(g: Log): Log {
    EchoedOften(EchoedOften(g, TWO_31, TICKS_PER_CM), TWO_31 - 1, 0)
  }

  lemma ManyEchoesCount(clock: nat)
    ensures Counts(ManyEchoed(Started(clock)).times, TWO_32 - 1, TWO_31)
  {
    var g := EchoedOften(Started(clock), TWO_31, TICKS_PER_CM);
    assert FirstReading(TICKS_PER_CM) == 1 && FirstReading(0) == 0;
    EchoesCount(Started(clock), TWO_31, TICKS_PER_CM, 0, 0);
    EchoesCount(g, TWO_31 - 1, 0, TWO_31, TWO_31);
  }

  lemma ManyEchoesRun(s: State)
    ensures RunAll(s, ManyEchoes()) == s.(log := ManyEchoed(s.log))
  {
    var s1 := s.(log := EchoedOften(s.log, TWO_31, TICKS_PER_CM));
    Runs.RunAllJoin(Step, s, Echoes(TWO_31, TICKS_PER_CM), Echoes(TWO_31 - 1, 0));
    EchoesRun(s, TWO_31, TICKS_PER_CM);
    EchoesRun(s1, TWO_31 - 1, 0);
  }

  lemma FaultyDies(s: State, w: nat)
    requires At(s, w, Stage.Sampling(1, 3, 0)) && DivisionFaults(s.log.counters)
    ensures var s' := RunAll(s, Finishing(w));
            At(s', w, Faulted) && s'.holder == s.holder && s'.log.times == s.log.times
  {
    FinishingPublishes(s, w);
    PublishesOrFaults(SetStage(s, w, Stage.Sampling(1, 3, 3)), w, 0);
  }

  lemma ManyEchoesFault(times: seq<int>)
    requires Counts(times, TWO_32 - 1, TWO_31)
    ensures DivisionFaults(Handled(times))
  {
    FaultsWhenUndividable(times);
  }

  /** A sampler that has heard this many echoes dies at its end. */
  lemma ManyEchoesKill(s: State, w: nat)
    requires At(s, w, Stage.Sampling(1, 3, 0)) && CountersOk(s) && Counts(s.log.times, TWO_32 - 1, TWO_31)
    ensures var s' := RunAll(s, Finishing(w));
            At(s', w, Faulted) && s'.holder == s.holder && s'.log.times == s.log.times
  {
    ManyEchoesFault(s.log.times);
    FaultyDies(s, w);
  }

  lemma StartingThenMany(start: nat)
    ensures RunAll(Opened(start), Starting(0) + ManyEchoes())
         == WithSampler(Opened(start)).(log := ManyEchoed(Started(start)))
  {
    Runs.RunAllJoin(Step, Opened(start), Starting(0), ManyEchoes());
    StartingGetsInside(Opened(start));
    ManyEchoesRun(WithSampler(Opened(start)));
  }

  /** A run of plausible echoes that reaches the other fault: the count reads -1 and
      the sum -2^31. */
  lemma OverflowFaultReached(start: nat)
    ensures var s := RunAll(Opened(start), Starting(0) + ManyEchoes() + Finishing(0));
            At(s, 0, Faulted) && s.holder == 0 && |Accepted(s.log.times)| == TWO_32 - 1
  {
    var es := Starting(0) + ManyEchoes();
    CountersOfRun(start, es, |es|);
    StartingThenMany(start);
    ManyEchoesCount(start);
    Runs.RunAllJoin(Step, Opened(start), es, Finishing(0));
    ManyEchoesKill(RunAll(Opened(start), es), 0);
  }

  /** Worker `w` is dead and has the lock, no other worker samples, and nothing
      was published since `s0`. */
  predicate Stuck(s: State, w: nat, s0: State) {
    && w < |s.workers| && s.workers[w].Dead() && s.holder == w && NoneInside(s)
    && s.published == s0.published && s.log.ring in {s0.log.ring, EMPTY_RING}
  }

  lemma StaysStuck(s: State, e: Event, w: nat, s0: State)
    requires Stuck(s, w, s0) && !Reinitialises(s, e)
    ensures Stuck(Step(s, e), w, s0)
  {
    var s' := Step(s, e);
    forall v | IsSampling(s', v) ensures false {
      SamplerBefore(s, e, v);
    }
    assert e.Publish? ==> !IsSampling(s, e.w);
    assert e.Trigger? ==> !IsSampling(s, e.w);
  }

  predicate NoReinit(s: State, e: Event) {
    !Reinitialises(s, e)
  }

  /** A worker that dies with the lock, by the division or for want of a thread,
      stops the device: until the next open or release that takes effect the lock
      stays taken and nothing is published. */
  lemma DeadWorkerStopsDevice(s: State, es: seq<Event>, n: nat, w: nat)
    requires Exclusive(s) && w < |s.workers| && s.workers[w].Dead() && s.holder == w
    requires n <= |es| && Runs.Always(Step, NoReinit, s, es, n)
    ensures Stuck(Runs.Run(Step, s, es, n), w, s)
  {
    forall v: int ensures !IsSampling(s, v) {
      assert 0 <= v < |s.workers| && IsSampling(s, v) ==> s.holder == v;
    }
    forall t: State, e: Event | Stuck(t, w, s) && NoReinit(t, e) ensures Stuck(Step(t, e), w, s) {
      StaysStuck(t, e, w, s);
    }
    Runs.RunKeeps(Step, NoReinit, t => Stuck(t, w, s), s, es, n);
  }

  /** From any state at all, an open and one ordinary measurement, of any echo
      that is accepted, publish a reading again. */
  lemma ReopenRecovers(s: State, width: nat)
    requires FirstReading(width) <= FARTHEST
    ensures FirstPublished(
              RunAll(s, [Open] + Measuring(|s.workers|, width)),
              s.published + 1, FirstReading(width), s.log.clock + width)
  {
    RunOpens(s, Measuring(|s.workers|, width));
    MeasuringPublishes(Reinitialised(s), width);
  }

  // ----- At most one measurement -----

  predicate NoneUnderWay(s: State) {
    forall w :: 0 <= w < |s.workers| ==> !s.workers[w].UnderWay()
  }

  /** At most the newest worker is under way. While it is the flag is set, and
      otherwise the flag is set only when it died. */
  predicate OneAtATime(s: State) {
    && (forall w :: 0 <= w < |s.workers| - 1 ==> !s.workers[w].UnderWay())
    && (s.workers != [] && s.workers[|s.workers| - 1].UnderWay() ==> s.inProgress)
    && (s.inProgress ==> s.workers != [])
    && (s.inProgress ==> s.workers[|s.workers| - 1].UnderWay() || s.workers[|s.workers| - 1].Dead())
  }

  /** A read that finds the ring empty with the flag clear starts a measurement
      without setting the flag. */
  predicate StartsUnflagged(s: State, e: Event) {
    e.Read? && s.holder == -1 && LooksEmpty(s) && s.Ready() && !s.inProgress
  }

  /** The step is no open or release while a measurement is under way. */
  predicate SparesMeasurements(s: State, e: Event) {
    Reinitialises(s, e) ==> NoneUnderWay(s)
  }

  lemma ReinitOneAtATimeIff(s: State)
    requires OneAtATime(s)
    ensures OneAtATime(Reinitialised(s)) <==> NoneUnderWay(s)
  {
  }

  lemma CallOneAtATimeIff(s: State, e: Event)
    requires OneAtATime(s) && (e.Write? || e.Read? || e.ReadAgain?)
    ensures OneAtATime(Step(s, e)) <==> !StartsUnflagged(s, e)
  {
    var s' := Step(s, e);
    assert |s'.workers| > |s.workers| ==> s'.workers[|s.workers|].UnderWay();
  }

  /** A worker under way that moves on was the newest, and the flag follows it. */
  lemma StageOneAtATime(s: State, w: nat, stage: Stage, s': State)
    requires OneAtATime(s) && w < |s.workers| && s.workers[w].UnderWay()
    requires s'.workers == SetStage(s, w, stage).workers
    requires s'.inProgress == !stage.Finished?
    ensures OneAtATime(s')
  {
    assert w == |s.workers| - 1;
  }

  lemma WorkOneAtATime(s: State, e: Event)
    requires OneAtATime(s) && (e.Spawn? || e.SpawnFails? || e.Begin? || e.Trigger? || e.Publish?)
    ensures OneAtATime(Step(s, e))
  {
    var s' := Step(s, e);
    if s'.workers != s.workers {
      assert s.workers[e.w].UnderWay();
      StageOneAtATime(s, e.w, s'.workers[e.w].stage, s');
    }
  }

  /** A step keeps measurements one at a time exactly when it is neither a read
      that starts one nor an open or release under one. */
  lemma StepOneAtATimeIff(s: State, e: Event)
    requires OneAtATime(s)
    ensures OneAtATime(Step(s, e)) <==> !StartsUnflagged(s, e) && SparesMeasurements(s, e)
  {
    if Reinitialises(s, e) {
      ReinitOneAtATimeIff(s);
    } else if e.Write? || e.Read? || e.ReadAgain? {
      CallOneAtATimeIff(s, e);
    } else if e.Spawn? || e.SpawnFails? || e.Begin? || e.Trigger? || e.Publish? {
      WorkOneAtATime(s, e);
    }
  }

  predicate AllFlagged(s: State) {
    forall w :: 0 <= w < |s.workers| ==> s.workers[w].flagged
  }

  lemma UnflaggedStart(s: State, e: Event)
    requires StartsUnflagged(s, e)
    ensures !AllFlagged(Step(s, e))
  {
    assert !Step(s, e).workers[|s.workers|].flagged;
  }

  lemma FlagsStay(s: State, e: Event)
    requires AllFlagged(Step(s, e))
    ensures AllFlagged(s)
  {
    forall w | 0 <= w < |s.workers| ensures s.workers[w].flagged {
      assert Step(s, e).workers[w].flagged;
    }
  }

  predicate OneIfFlagged(s: State) {
    AllFlagged(s) ==> OneAtATime(s)
  }

  lemma FlaggedStep(s: State, e: Event)
    requires OneIfFlagged(s) && SparesMeasurements(s, e)
    ensures OneIfFlagged(Step(s, e))
  {
    if AllFlagged(Step(s, e)) {
      FlagsStay(s, e);
      StepOneAtATimeIff(s, e);
      if StartsUnflagged(s, e) {
        UnflaggedStart(s, e);
      }
    }
  }

  /** If writes started every measurement, and no open or release came under one,
      at most one is under way, and `measurement_in_progress` tells. */
  lemma WritesMeasureOneAtATime(start: nat, es: seq<Event>, n: nat)
    requires n <= |es| && Runs.Always(Step, SparesMeasurements, Opened(start), es, n)
    requires AllFlagged(Run(start, es, n))
    ensures OneAtATime(Run(start, es, n))
  {
    forall t: State, e: Event | OneIfFlagged(t) && SparesMeasurements(t, e) ensures OneIfFlagged(Step(t, e)) {
      FlaggedStep(t, e);
    }
    Runs.RunKeeps(Step, SparesMeasurements, OneIfFlagged, Opened(start), es, n);
  }

  /** A read that finds the ring empty starts a measurement without setting the
      flag, so a write can start a second one. */
  lemma ReadThenWriteStartsTwo(start: nat)
    ensures var s := RunAll(Opened(start), [PinsConfigured, SetParameters(5, 1), Read, Write(0)]);
            |s.workers| == 2 && s.workers[0].UnderWay() && s.workers[1].UnderWay()
  {
    var s, es := Opened(start), [PinsConfigured, SetParameters(5, 1), Read, Write(0)];
    assert Runs.Run(Step, s, es, 1) == Step(s, PinsConfigured);
    assert Runs.Run(Step, s, es, 2).Ready() && Runs.Run(Step, s, es, 2).workers == [];
    assert Runs.Run(Step, s, es, 3).workers == [Worker(false, Requested)];
  }

  // ----- What the ring holds -----

  lemma StepMeans(s: State, e: Event)
    requires Means(s.log)
    ensures Means(Step(s, e).log)
  {
    match e
    case Edge(dt) => EdgeKeepsMeans(s.log, dt);
    case Publish(w, dt) => PublishMeans(s, w, dt);
    case Write(_) => OthersKeepMeans(s.log, 0);
    case Read => OthersKeepMeans(s.log, 0);
    case ReadAgain => OthersKeepMeans(s.log, 0);
    case _ =>
  }

  lemma PublishMeans(s: State, w: nat, dt: nat)
    requires Means(s.log)
    ensures Means(PublishStep(s, w, dt).log)
  {
    OthersKeepMeans(s.log, dt);
    if FiredAll(s, w) && !DivisionFaults(s.log.counters) {
      PublishKeepsMeans(s.log, dt);
    }
  }

  predicate LogMeans(s: State) {
    Means(s.log)
  }

  /** For every interleaving, however the clock wraps: every valid cell of the ring
      is the mean of the echoes accepted between open and its publication. */
  lemma EveryReadingIsAMean(start: nat, es: seq<Event>, n: nat)
    requires n <= |es|
    ensures LogMeans(Run(start, es, n))
  {
    forall t: State, e: Event | LogMeans(t) ensures LogMeans(Step(t, e)) {
      StepMeans(t, e);
    }
    Runs.RunKeeps(Step, (_: State, _: Event) => true, LogMeans, Opened(start), es, n);
  }

  /** In every run a read answers -1 exactly when the cell at the cursor is marked
      empty or its recorded sum and count gave -1 when it was published. */
  lemma ReadAnswersEmptyIff(start: nat, es: seq<Event>, n: nat)
    requires n <= |es|
    ensures var g := Run(start, es, n).log;
            && Means(g)
            && (LooksEmpty(Run(start, es, n)) <==>
                  !Valid(g.ring.cells[g.ring.cursor]) || MeanIsMinusOne(NewestCounters(g)))
  {
    EveryReadingIsAMean(start, es, n);
    AnswersEmptyIff(Run(start, es, n).log);
  }

  /** In every run with plausible echoes, a reading before which at most 5368709
      were accepted is the floor of their mean, lies between them and in 0..400. */
  lemma PlausibleReadings(start: nat, es: seq<Event>, n: nat, c: int)
    requires n <= |es| && 0 <= c < CELLS
    requires var g := Run(start, es, n).log;
             Valid(g.ring.cells[c]) && Plausible(g.times) && |Heard(g, c)| <= 5368709
    ensures var g := Run(start, es, n).log;
            IsFloorOfMean(Heard(g, c), g.ring.cells[c].distance)
  {
    var g := Run(start, es, n).log;
    EveryReadingIsAMean(start, es, n);
    assert IsMean(g.times, g.marks[c], g.ring.cells[c]);
    MeanIsFloor(g.times, g.marks[c], g.ring.cells[c]);
  }

  /** A run that leaves a reading of -1 in the ring, which a read then takes for
      an empty ring and drops. */
  lemma ReadingTakenForEmpty()
    ensures var s := RunAll(Opened(0), Measuring(0, TICKS_PER_CM * (TWO_32 - 1)));
            && s.log.ring == Added(EMPTY_RING, Entry(-1, TICKS_PER_CM * (TWO_32 - 1)))
            && LooksEmpty(s) && Step(s, Read).log.ring == EMPTY_RING
  {
    var width := TICKS_PER_CM * (TWO_32 - 1);
    assert FirstReading(width) == -1;
    assert width % TWO_64 == width;
    MeasuringPublishes(Opened(0), width);
  }

  // ----- The ring as a stack -----

  predicate Publishes(s: State, e: Event) {
    e.Publish? && FiredAll(s, e.w) && !DivisionFaults(s.log.counters)
  }

  /** What a step means for the stack of readings. */
  function StackAfter(stack: seq<Entry>, s: State, e: Event): seq<Entry> {
    if Publishes(s, e) then Push(stack, Reading(s.log, e.dt))
    else if Reinitialises(s, e) || (e.Write? && e.op != 0 && s.Ready()) then []
    else if s.holder == -1 && (e.Read? || (e.ReadAgain? && s.lateReads > 0)) then Pop(stack)
    else stack
  }

  /** A state with the stack of readings beside it. */
  datatype Tracked = Tracked(s: State, stack: seq<Entry>)

  function TrackStep(t: Tracked, e: Event): Tracked {
    Tracked(Step(t.s, e), StackAfter(t.stack, t.s, e))
  }

  function Track(start: nat, es: seq<Event>, n: nat): Tracked
    requires n <= |es|
  {
    Runs.Run(TrackStep, Tracked(Opened(start), []), es, n)
  }

  lemma TrackIsRun(start: nat, es: seq<Event>, n: nat)
    requires n <= |es|
    ensures Track(start, es, n).s == Run(start, es, n)
  {
    Runs.RunProjects(TrackStep, Step, (t: Tracked) => t.s, Tracked(Opened(start), []), es, n);
  }

  /** No reading is stamped with the value that marks an empty cell. */
  predicate StampsApart(t: Tracked, e: Event) {
    Publishes(t.s, e) ==> Reading(t.s.log, e.dt).tsc != NO_TSC
  }

  predicate Stacked(t: Tracked) {
    Holds(t.s.log.ring, t.stack)
  }

  lemma OtherStepHolds(s: State, e: Event, stack: seq<Entry>)
    requires Holds(s.log.ring, stack) && !Publishes(s, e)
    ensures Holds(Step(s, e).log.ring, StackAfter(stack, s, e))
  {
    EmptyHolds();
    ReadPops(s.log.ring, stack);
  }

  /** A step keeps the ring a stack exactly when it does not stamp a reading like
      an empty cell. */
  lemma StepStackedIff(t: Tracked, e: Event)
    requires Stacked(t)
    ensures Stacked(TrackStep(t, e)) <==> StampsApart(t, e)
  {
    if Publishes(t.s, e) {
      WritePushesIff(t.s.log.ring, t.stack, Reading(t.s.log, e.dt));
    } else {
      OtherStepHolds(t.s, e, t.stack);
    }
  }

  /** In every run without such a stamp the ring stands for the bounded stack of
      the readings, and a read hands back its top. */
  lemma RingIsAStack(start: nat, es: seq<Event>, n: nat)
    requires n <= |es| && Runs.Always(TrackStep, StampsApart, Tracked(Opened(start), []), es, n)
    ensures var r, stack := Run(start, es, n).log.ring, Track(start, es, n).stack;
            Holds(r, stack) && Newest(r) == Top(stack)
  {
    EmptyHolds();
    forall t: Tracked, e: Event | Stacked(t) && StampsApart(t, e) ensures Stacked(TrackStep(t, e)) {
      StepStackedIff(t, e);
    }
    Runs.RunKeeps(TrackStep, StampsApart, Stacked, Tracked(Opened(start), []), es, n);
    TrackIsRun(start, es, n);
    ReadPops(Run(start, es, n).log.ring, Track(start, es, n).stack);
  }

  /** Timestamps ascend, and none lies ahead. */
  predicate Ascending(stack: seq<Entry>, now: int) {
    && (forall i, j :: 0 <= i < j < |stack| ==> stack[i].tsc <= stack[j].tsc)
    && forall j :: 0 <= j < |stack| ==> stack[j].tsc <= now
  }

  lemma PushAscends(stack: seq<Entry>, now: int, e: Entry)
    requires Ascending(stack, now) && now <= e.tsc
    ensures Ascending(Push(stack, e), e.tsc)
  {
    assert forall j :: 0 <= j < |stack| ==> stack[j].tsc <= now;
  }

  /** As long as the 64-bit clock has not wrapped. */
  predicate AscendsSoFar(t: Tracked) {
    t.s.log.clock < TWO_64 ==> Ascending(t.stack, t.s.log.clock)
  }

  lemma PublishAscends(t: Tracked, e: Event)
    requires AscendsSoFar(t) && Publishes(t.s, e)
    ensures AscendsSoFar(TrackStep(t, e))
  {
    var now := t.s.log.clock + e.dt;
    if now < TWO_64 {
      Unwrapped(now);
      PushAscends(t.stack, t.s.log.clock, Reading(t.s.log, e.dt));
    }
  }

  lemma StepAscends(t: Tracked, e: Event)
    requires AscendsSoFar(t)
    ensures AscendsSoFar(TrackStep(t, e))
  {
    if Publishes(t.s, e) {
      PublishAscends(t, e);
    } else {
      assert t.s.log.clock <= Step(t.s, e).log.clock;
    }
  }

  /** Until the 64-bit clock wraps, the timestamps do not decrease from the oldest
      reading to the newest. */
  lemma ReadingsAscend(start: nat, es: seq<Event>, n: nat)
    requires n <= |es| && Run(start, es, n).log.clock < TWO_64
    ensures Ascending(Track(start, es, n).stack, Run(start, es, n).log.clock)
  {
    forall t: Tracked, e: Event | AscendsSoFar(t) ensures AscendsSoFar(TrackStep(t, e)) {
      StepAscends(t, e);
    }
    Runs.RunKeeps(
      TrackStep, (_: Tracked, _: Event) => true, AscendsSoFar, Tracked(Opened(start), []), es, n);
    TrackIsRun(start, es, n);
  }
}
