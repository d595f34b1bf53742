/** An undisturbed mission completes: started when due, with an executor that succeeds and saves that
    succeed, it confirms its cycles one after the other, up to the last. */
module Cycles {
  import opened Foundations
  import opened Kernel
  import opened Intents
  import opened Missions
  import opened Json
  import opened Sections
  import opened Coherence
  import opened Destinations
  import opened World
  import opened Instance
  import opened Safety
  import opened Evolution
  import opened Theorems
  import opened Runs
  import opened Progress

  // ---------------------------------------------------------------- one cycle

  /** When a cycle starts and settles, and what the executor returns in between. */
  datatype Round = Round(start: int, result: Bytes, finish: int)

  /** Nothing pends and nothing runs; the next step that is due starts a cycle. */
  predicate Idle(c: Core) {
    && !c.fatal && !c.running && c.mem.status.Active? && RecoveryReady(c.mem) && NextAction(c.mem.actions) == -1
  }

  /** Cycles and, with cognition, model calls for `n` more rounds. */
  predicate Affords(s: State, n: nat) {
    && s.completed + n <= s.protocol.maxCycles
    && (s.cognition.Some? ==> s.modelAttempts + n <= s.cognition.value.maxCalls)
  }

  function StatusAfter(completed: int, maxCycles: int): Status {
    if completed >= maxCycles then Completed else Active
  }

  /** What one undisturbed round makes of a core. */
  predicate Advanced(c: Core, d: Core, t: Round) {
    && !d.fatal && !d.running && d.disk == d.mem && d.files == c.files[Digest(t.result) := t.result]
    && d.mem.protocol == c.mem.protocol && d.mem.actions == c.mem.actions && d.mem.recovery == c.mem.recovery
    && d.mem.cognition == c.mem.cognition
    && d.mem.modelAttempts == c.mem.modelAttempts + (if c.mem.cognition.Some? then 1 else 0)
    && d.mem.completed == c.mem.completed + 1
    && d.mem.artifacts == c.mem.artifacts + [Artifact(c.mem.completed + 1, Digest(t.result), |t.result|)]
    && d.mem.memory == Canonical(t.result)
    && d.mem.nextRun == t.finish + Delay(c.mem.protocol.intervalSeconds)
    && d.mem.status == StatusAfter(d.mem.completed, d.mem.protocol.maxCycles)
  }

  /** The cycle that an idle core begins. */
  lemma RoundBegins(c: Core, now: int)
    requires Idle(c) && Affords(c.mem, 1) && c.mem.nextRun <= now
    ensures var m := WithReservation(Named(c.mem, now));
            BeginStep(c, now, Saved)
            == (Persist(c, m, Saved).(running := true), Some(CycleJob(c.epoch, m.protocol, RequestOf(m))))
  {
    hide NextAction;
  }

  lemma RoundAdvances(c: Core, t: Round)
    requires Idle(c) && Affords(c.mem, 1) && c.mem.nextRun <= t.start
    ensures var (d, job) := BeginStep(c, t.start, Saved);
            && job.Some? && job.value.CycleJob?
            && Advanced(c, SettleCycle(d, job.value, false, Some(t.result), Saved, t.finish, Saved), t)
  {
    RoundBegins(c, t.start);
    var m := WithReservation(Named(c.mem, t.start));
    assert m == c.mem.(pending := m.pending, events := m.events, modelAttempts := m.modelAttempts);
    assert m.modelAttempts == c.mem.modelAttempts + (if c.mem.cognition.Some? then 1 else 0);
    hide BeginStep, Named, WithReservation, NextAction, Canonical, Delay;
  }

  // ---------------------------------------------------------------- many cycles

  function RoundSteps(n: nat, t: Round): seq<Step> {
    [DoStep(n, t.start, Saved), DoSettleCycle(n, 0, false, Some(t.result), Saved, t.finish, Saved)]
  }

  function AllRounds(n: nat, rounds: seq<Round>): seq<Step> {
    if rounds == [] then [] else RoundSteps(n, rounds[0]) + AllRounds(n, rounds[1..])
  }

  /** Every round starts when it is due. */
  predicate Timely(nextRun: int, delay: int, rounds: seq<Round>)
    decreases |rounds|
  {
    rounds == [] || (nextRun <= rounds[0].start && Timely(rounds[0].finish + delay, delay, rounds[1..]))
  }

  function ResultsOf(first: int, rounds: seq<Round>): seq<Artifact>
    decreases |rounds|
  {
    if rounds == [] then []
    else [Artifact(first, Digest(rounds[0].result), |rounds[0].result|)] + ResultsOf(first + 1, rounds[1..])
  }

  /** Where the rounds lead from `s`. */
  predicate RoundsDone(s: State, x: Node, rounds: seq<Round>) {
    && x.up && x.flights == [] && !x.core.fatal && !x.core.running && x.core.disk == x.core.mem
    && x.core.mem.protocol == s.protocol && x.core.mem.actions == s.actions && x.core.mem.recovery == s.recovery
    && x.core.mem.cognition == s.cognition
    && x.core.mem.modelAttempts == s.modelAttempts + (if s.cognition.Some? then |rounds| else 0)
    && x.core.mem.completed == s.completed + |rounds|
    && x.core.mem.artifacts == s.artifacts + ResultsOf(s.completed + 1, rounds)
    && (rounds != [] ==>
          && x.core.mem.memory == Canonical(rounds[|rounds| - 1].result)
          && x.core.mem.nextRun == rounds[|rounds| - 1].finish + Delay(s.protocol.intervalSeconds)
          && x.core.mem.status == StatusAfter(x.core.mem.completed, s.protocol.maxCycles))
  }

  /** A round at the instance `n`. */
  lemma RoundRuns(w: World, n: nat, t: Round)
    requires n in w.nodes && w.nodes[n].up && w.nodes[n].flights == [] && Idle(w.nodes[n].core)
    requires Affords(w.nodes[n].core.mem, 1) && w.nodes[n].core.mem.nextRun <= t.start
    ensures var v := Run(w, RoundSteps(n, t));
            && n in v.nodes && v.nodes[n].up && v.nodes[n].flights == []
               && Advanced(w.nodes[n].core, v.nodes[n].core, t)
  {
    hide Idle, Affords, Advanced, BeginStep, SettleCycle, Run, NextAction;
    var x := w.nodes[n];
    RoundAdvances(x.core, t);
    var begun := BeginStep(x.core, t.start, Saved);
    var w1 := Apply(w, DoStep(n, t.start, Saved));
    assert w1.nodes[n].up && w1.nodes[n].core == begun.0
           && w1.nodes[n].flights == [Flight(begun.1.value, Fresh, begun.0.mem)];
    RoundSettles(w1, n, begun.0, begun.1.value, t);
    RunTwo(w, DoStep(n, t.start, Saved), DoSettleCycle(n, 0, false, Some(t.result), Saved, t.finish, Saved));
  }

  lemma RoundSettles(w: World, n: nat, c: Core, job: Job, t: Round)
    requires n in w.nodes && w.nodes[n].up && w.nodes[n].core == c && |w.nodes[n].flights| == 1
    requires w.nodes[n].flights[0].job == job && job.CycleJob?
    ensures var v := Apply(w, DoSettleCycle(n, 0, false, Some(t.result), Saved, t.finish, Saved));
            && n in v.nodes && v.nodes[n].up && v.nodes[n].flights == []
            && v.nodes[n].core == SettleCycle(c, job, false, Some(t.result), Saved, t.finish, Saved)
  {
    hide SettleCycle;
  }

  /** One round leaves the rest as it should be. */
  lemma RoundLeaves(c: Core, d: Core, rounds: seq<Round>)
    requires rounds != [] && Idle(c) && Affords(c.mem, |rounds|) && Advanced(c, d, rounds[0])
    requires Timely(c.mem.nextRun, Delay(c.mem.protocol.intervalSeconds), rounds)
    ensures c.mem.nextRun <= rounds[0].start && Affords(c.mem, 1)
    ensures |rounds| > 1 ==> Idle(d) && Affords(d.mem, |rounds[1..]|)
    ensures Timely(d.mem.nextRun, Delay(d.mem.protocol.intervalSeconds), rounds[1..])
  {
    hide NextAction, Delay;
  }

  lemma RoundsJoin(s: State, d: Core, x: Node, rounds: seq<Round>, c: Core)
    requires rounds != [] && c.mem == s && Advanced(c, d, rounds[0]) && RoundsDone(d.mem, x, rounds[1..])
    requires |rounds| == 1 ==> x.core == d
    ensures RoundsDone(s, x, rounds)
  {
    hide Canonical, Delay, Digest;
    assert s.artifacts + ResultsOf(s.completed + 1, rounds)
        == s.artifacts + [Artifact(s.completed + 1, Digest(rounds[0].result), |rounds[0].result|)]
           + ResultsOf(s.completed + 2, rounds[1..]);
  }

  lemma {:induction false} RoundsRun(w: World, n: nat, rounds: seq<Round>)
    requires n in w.nodes && w.nodes[n].up && w.nodes[n].flights == [] && rounds != []
    requires Idle(w.nodes[n].core) && Affords(w.nodes[n].core.mem, |rounds|)
    requires Timely(w.nodes[n].core.mem.nextRun, Delay(w.nodes[n].core.mem.protocol.intervalSeconds), rounds)
    ensures var v := Run(w, AllRounds(n, rounds));
            n in v.nodes && RoundsDone(w.nodes[n].core.mem, v.nodes[n], rounds)
    decreases |rounds|
  {
    hide Idle, Affords, Advanced, Run, Timely, RoundsDone, Delay, RoundSteps;
    var c := w.nodes[n].core;
    TimelyFirst(c, rounds);
    RoundRuns(w, n, rounds[0]);
    var v := Run(w, RoundSteps(n, rounds[0]));
    RoundLeaves(c, v.nodes[n].core, rounds);
    RunSplits(w, RoundSteps(n, rounds[0]), AllRounds(n, rounds[1..]));
    if |rounds| > 1 {
      RoundsRun(v, n, rounds[1..]);
    } else {
      assert rounds[1..] == [];
      RunNone(v);
      NothingDone(v.nodes[n], c, rounds[0]);
    }
    RoundsJoin(c.mem, v.nodes[n].core, Run(v, AllRounds(n, rounds[1..])).nodes[n], rounds, c);
  }

  lemma TimelyFirst(c: Core, rounds: seq<Round>)
    requires rounds != [] && Affords(c.mem, |rounds|)
    requires Timely(c.mem.nextRun, Delay(c.mem.protocol.intervalSeconds), rounds)
    ensures c.mem.nextRun <= rounds[0].start && Affords(c.mem, 1)
  {
    hide Delay;
  }

  lemma NothingDone(x: Node, c: Core, t: Round)
    requires x.up && x.flights == [] && Advanced(c, x.core, t)
    ensures RoundsDone(x.core.mem, x, [])
  {
  }

  lemma IdleAlone(past: seq<Step>, n: nat)
    requires n in Run(EMPTY, past).nodes && Run(EMPTY, past).nodes[n].up && Idle(Run(EMPTY, past).nodes[n].core)
    ensures var x := Run(EMPTY, past).nodes[n]; x.flights == [] && x.core.disk == x.core.mem
  {
    hide Run, NextAction;
    AnyNode(past, n);
    hide Consistent, Evolves, Addressed, Readable, FlightFits, Vouched, Books, Accountable, Ran, Gated;
  }

  lemma {:induction false} ArtifactAt(first: int, rounds: seq<Round>, i: nat)
    requires i < |rounds|
    ensures |ResultsOf(first, rounds)| == |rounds|
    ensures ResultsOf(first, rounds)[i] == Artifact(first + i, Digest(rounds[i].result), |rounds[i].result|)
    decreases |rounds|
  {
    if i > 0 {
      ArtifactAt(first + 1, rounds[1..], i - 1);
    } else if |rounds| > 1 {
      ArtifactAt(first + 1, rounds[1..], 0);
    }
  }

  /** The artifacts of the rounds read back. */
  lemma ResultsRead(s: State, x: Node, rounds: seq<Round>, i: nat)
    requires RoundsDone(s, x, rounds) && i < |rounds| && Readable(x.core.disk, x.core.files) && Addressed(x.core.files)
    ensures var h := Digest(rounds[i].result); h in x.core.files && x.core.files[h] == rounds[i].result
  {
    ArtifactAt(s.completed + 1, rounds, i);
    var made := ResultsOf(s.completed + 1, rounds);
    assert x.core.disk.artifacts[|s.artifacts| + i] == made[i];
    hide ResultsOf, Canonical;
  }

  /** After any run that leaves an instance idle, undisturbed timely rounds confirm their cycles in order
      on disk: numbers, artifacts, memory and the next moment are theirs, their results read back, and the
      mission is completed exactly after the last. */
  lemma {:induction false} RoundsSucceed(past: seq<Step>, n: nat, rounds: seq<Round>)
    requires n in Run(EMPTY, past).nodes && rounds != []
    requires var x := Run(EMPTY, past).nodes[n];
             && x.up && Idle(x.core) && Affords(x.core.mem, |rounds|)
             && Timely(x.core.mem.nextRun, Delay(x.core.mem.protocol.intervalSeconds), rounds)
    ensures var s := Run(EMPTY, past).nodes[n].core.disk;
            var v := Run(EMPTY, past + AllRounds(n, rounds));
            && n in v.nodes && RoundsDone(s, v.nodes[n], rounds)
            && (forall i :: 0 <= i < |rounds| ==>
                  var h := Digest(rounds[i].result);
                  h in v.nodes[n].core.files && v.nodes[n].core.files[h] == rounds[i].result)
  {
    hide Run, Idle, Affords, Timely, Delay, RoundsDone, Digest, Readable, Addressed, LedgerAgrees, Loadable;
    var w := Run(EMPTY, past);
    IdleAlone(past, n);
    RoundsRun(w, n, rounds);
    RunSplits(EMPTY, past, AllRounds(n, rounds));
    var later := past + AllRounds(n, rounds);
    Durable(later, n);
    forall i | 0 <= i < |rounds|
      ensures var h := Digest(rounds[i].result);
              h in Run(EMPTY, later).nodes[n].core.files && Run(EMPTY, later).nodes[n].core.files[h] == rounds[i].result
    {
      ResultsRead(w.nodes[n].core.disk, Run(EMPTY, later).nodes[n], rounds, i);
    }
  }

  /** Every legal mission that can pay for its cycles completes: after `MaxCycles` timely rounds its status
      is completed, its artifacts are the results in order, and its memory is the last. */
  lemma MissionCompletes(init: Step, rounds: seq<Round>)
    requires init.DoInit? && ValidInit(init) && |rounds| == init.protocol.maxCycles
    requires init.cognition.Some? ==> init.protocol.maxCycles <= init.cognition.value.maxCalls
    requires Timely(init.now, Delay(init.protocol.intervalSeconds), rounds)
    ensures var v := Run(EMPTY, [init, DoStart(init.n)] + AllRounds(init.n, rounds));
            && init.n in v.nodes && !v.nodes[init.n].core.fatal
            && var s := v.nodes[init.n].core.disk;
               && s.status.Completed? && s.completed == init.protocol.maxCycles
               && s.artifacts == ResultsOf(1, rounds)
               && s.memory == Canonical(rounds[|rounds| - 1].result)
  {
    assert init.protocol.maxCycles >= 1;
    hide Run, Apply, Timely, Delay, ResultsOf, Canonical, ValidInit;
    Created(init);
    hide Idle;
    RoundsSucceed([init, DoStart(init.n)], init.n, rounds);
    assert [] + ResultsOf(1, rounds) == ResultsOf(1, rounds);
  }

  lemma Created(init: Step)
    requires init.DoInit? && ValidInit(init)
    ensures var w := Run(EMPTY, [init, DoStart(init.n)]);
            && init.n in w.nodes && w.nodes[init.n].up && Idle(w.nodes[init.n].core)
            && w.nodes[init.n].core.mem == MissionOf(init) && w.nodes[init.n].core.disk == MissionOf(init)
  {
    MissionStarts(init);
    RunTwo(EMPTY, init, DoStart(init.n));
    hide Run, Apply, ValidInit;
  }

  // ---------------------------------------------------------------- how long an interval may be

  /** At this moment a step starts an execution. */
  predicate Starts(w: World, n: nat, now: int, r: SaveResult) {
    n in w.nodes && w.nodes[n].up && Launch(w.nodes[n], BeginStep(w.nodes[n].core, now, r)).execs != w.nodes[n].execs
  }

  /** The interval between the newest completion on disk, if there is one, and `now`. */
  predicate IntervalBefore(s: State, now: int) {
    s.completed > 0 ==>
      LastCompletion(s.events).Some? && now >= LastCompletion(s.events).value + s.protocol.intervalSeconds * SECOND
  }

  /** In every run of the mission every start keeps the interval. */
  ghost predicate AlwaysSpaced(init: Step)
    requires init.DoInit?
  {
    forall steps, now, r :: Starts(Run(EMPTY, [init] + steps), init.n, now, r) ==>
      IntervalBefore(Run(EMPTY, [init] + steps).nodes[init.n].core.disk, now)
  }

  /** A mission of two or more cycles keeps its interval between them in every run exactly if the
      interval is at most `LONGEST_INTERVAL` seconds. */
  lemma IntervalKept(init: Step)
    requires init.DoInit? && ValidInit(init) && init.protocol.maxCycles >= 2
    requires init.cognition.Some? ==> init.cognition.value.maxCalls >= 2
    ensures AlwaysSpaced(init) <==> init.protocol.intervalSeconds <= LONGEST_INTERVAL
  {
    hide Run, BeginStep, Launch, IntervalBefore, ValidProtocol, ValidCognition;
    if init.protocol.intervalSeconds <= LONGEST_INTERVAL {
      forall steps, now, r | Starts(Run(EMPTY, [init] + steps), init.n, now, r)
        ensures IntervalBefore(Run(EMPTY, [init] + steps).nodes[init.n].core.disk, now)
      {
        ShortSpaced(init, steps, now, r);
      }
    } else {
      TooEarly(init);
    }
  }

  lemma ShortSpaced(init: Step, steps: seq<Step>, now: int, r: SaveResult)
    requires init.DoInit? && ValidInit(init) && init.protocol.intervalSeconds <= LONGEST_INTERVAL
    requires Starts(Run(EMPTY, [init] + steps), init.n, now, r)
    ensures IntervalBefore(Run(EMPTY, [init] + steps).nodes[init.n].core.disk, now)
  {
    hide Run, BeginStep, Launch, LastCompletion, Delay, Evolves, ValidInit, Apply;
    var later := Run(EMPTY, [init] + steps);
    OnlyInit(init);
    StartsSpaced([init], steps, init.n, now, r);
    AnyRunSafe([init]);
    RunSplits(EMPTY, [init], steps);
    DiskEvolves(Run(EMPTY, [init]), steps, init.n);
    SameCompletion([init], [init] + steps, init.n);
  }

  lemma OnlyInit(init: Step)
    requires init.DoInit? && ValidInit(init)
    ensures var w := Run(EMPTY, [init]); init.n in w.nodes && w.nodes[init.n].core.disk.protocol == init.protocol
  {
    RunOne(EMPTY, init);
    hide Run, ValidInit;
  }

  /** While cycles are left, rounds leave an idle core idle. */
  lemma StillIdle(c: Core, x: Node, rounds: seq<Round>)
    requires Idle(c) && RoundsDone(c.mem, x, rounds) && rounds != [] && Affords(c.mem, |rounds| + 1)
    ensures Idle(x.core) && Affords(x.core.mem, 1)
  {
    hide NextAction, Canonical, Delay, ResultsOf;
  }

  lemma IdleStarts(w: World, n: nat, now: int)
    requires n in w.nodes && w.nodes[n].up && Idle(w.nodes[n].core) && Affords(w.nodes[n].core.mem, 1)
    requires w.nodes[n].core.mem.nextRun <= now
    ensures Starts(w, n, now, Saved)
  {
    hide Idle, Affords;
    RoundBegins(w.nodes[n].core, now);
    hide BeginStep, Named, WithReservation, RequestOf;
  }

  /** When the delay is too short, a start as soon as it is over is too early. */
  lemma TooShort(s: State)
    requires Paced(s) && s.completed > 0 && s.protocol.intervalSeconds > LONGEST_INTERVAL
    ensures !IntervalBefore(s, s.nextRun)
  {
    DelayMeaning(s.protocol.intervalSeconds);
    hide Delay;
  }

  /** One cycle, and the next as soon as it is due. */
  lemma TooEarly(init: Step)
    requires init.DoInit? && ValidInit(init) && init.protocol.maxCycles >= 2
    requires init.cognition.Some? ==> init.cognition.value.maxCalls >= 2
    requires init.protocol.intervalSeconds > LONGEST_INTERVAL
    ensures !AlwaysSpaced(init)
  {
    var n, first := init.n, [Round(init.now, [], init.now)];
    var steps := [DoStart(n)] + AllRounds(n, first);
    var opening := [init, DoStart(n)];
    assert Timely(init.now, Delay(init.protocol.intervalSeconds), first);
    Created(init);
    assert Affords(MissionOf(init), 2) && Affords(MissionOf(init), 1) && MissionOf(init).completed == 0;
    assert MissionOf(init).nextRun == init.now && MissionOf(init).protocol == init.protocol;
    assert opening + AllRounds(n, first) == [init] + steps;
    var c := Run(EMPTY, opening).nodes[n].core;
    var w := Run(EMPTY, [init] + steps);
    hide Run, Apply, Delay, Idle, ValidInit, NextAction, Canonical, Affords, AllRounds, MissionOf, Timely;
    RoundsSucceed(opening, n, first);
    var x := w.nodes[n];
    StillIdle(c, x, first);
    IdleStarts(w, n, x.core.mem.nextRun);
    PacedOnDisk([init] + steps, n);
    hide RoundsDone, Paced, Starts, IntervalBefore;
    assert x.core.disk == x.core.mem && x.core.disk.completed == 1 && x.core.disk.protocol == init.protocol by {
      DoneMeans(c.mem, x, first);
    }
    TooShort(x.core.disk);
  }

  lemma DoneMeans(s: State, x: Node, rounds: seq<Round>)
    requires RoundsDone(s, x, rounds)
    ensures x.core.disk == x.core.mem && x.core.disk.completed == s.completed + |rounds|
            && x.core.disk.protocol == s.protocol
  {
  }

  lemma PacedOnDisk(steps: seq<Step>, n: nat)
    requires n in Run(EMPTY, steps).nodes
    ensures Paced(Run(EMPTY, steps).nodes[n].core.disk)
  {
    hide Run, Loadable, Readable, Addressed, MemoryIsLast;
    Durable(steps, n);
  }

  /** At the failing input: with an interval of 10^10 seconds all cycles of a mission start and are
      confirmed in the moment of its creation. */
  lemma AllAtOnce(init: Step, results: seq<Bytes>)
    requires init.DoInit? && ValidInit(init) && |results| == init.protocol.maxCycles
    requires init.cognition.Some? ==> init.protocol.maxCycles <= init.cognition.value.maxCalls
    requires init.protocol.intervalSeconds == 10_000_000_000
    ensures var rounds := seq(|results|, i requires 0 <= i < |results| => Round(init.now, results[i], init.now));
            var v := Run(EMPTY, [init, DoStart(init.n)] + AllRounds(init.n, rounds));
            init.n in v.nodes && v.nodes[init.n].core.disk.status.Completed?
  {
    var rounds := seq(|results|, i requires 0 <= i < |results| => Round(init.now, results[i], init.now));
    DelayMeaning(init.protocol.intervalSeconds);
    hide Delay, ValidInit, Run, AllRounds;
    TimelyAtOnce(init.now, init.now, Delay(init.protocol.intervalSeconds), rounds);
    MissionCompletes(init, rounds);
  }

  lemma {:induction false} TimelyAtOnce(nextRun: int, now: int, delay: int, rounds: seq<Round>)
    requires nextRun <= now && delay <= 0 && forall t <- rounds :: t.start == now && t.finish == now
    ensures Timely(nextRun, delay, rounds)
    decreases |rounds|
  {
    if rounds != [] {
      assert rounds[0] in rounds;
      TimelyAtOnce(now + delay, now, delay, rounds[1..]);
    }
  }
}
