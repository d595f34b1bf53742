/** The sequential runner in the world: whatever `Tick` does turn after turn, and wherever its process
    ends, is a run of the concurrent controller, so what holds of all runs holds of the runner. */
module Turns {
  import opened Foundations
  import opened Kernel
  import opened Intents
  import opened Missions
  import opened Sections
  import opened Coherence
  import opened Destinations
  import opened World
  import opened Instance
  import opened Safety
  import opened Evolution
  import opened Theorems
  import opened Runs
  import opened Progress

  /** A turn of the runner; `talk` is what goes on in the world while the runner's exchange with the
      destination lasts, and `ends` says that the process ends after the turn and a new one starts. */
  datatype Pass = Pass(turn: Turn, talk: seq<Step>, ends: bool)

  // ---------------------------------------------------------------- the runner

  /** `Tick` returns an error after a failed save, execution or store; then the process ends. */
  predicate GoesOn(c: Core, p: Pass)
    requires !c.fatal && !c.running
  {
    var job := BeginStep(c, p.turn.now, p.turn.begin).1;
    !p.ends ==>
      && !TickStep(c, p.turn).fatal
      && (job.Some? && job.value.CycleJob? ==> p.turn.result.Some? && p.turn.stored.Saved?)
  }

  /** What a turn leaves to the next one, in the same process or in a new one. */
  function AfterPass(c: Core, p: Pass): (d: Core)
    requires !c.fatal && !c.running && GoesOn(c, p)
    ensures !d.fatal && !d.running
  {
    TurnMatches(c, p);
    if p.ends then Booted(TickStep(c, p.turn)) else TickStep(c, p.turn)
  }

  predicate Proceeds(c: Core, passes: seq<Pass>)
    requires !c.fatal && !c.running
    decreases |passes|
  {
    passes == [] || (GoesOn(c, passes[0]) && Proceeds(AfterPass(c, passes[0]), passes[1..]))
  }

  /** The runner, turn after turn. */
  function Runner(c: Core, passes: seq<Pass>): Core
    requires !c.fatal && !c.running && Proceeds(c, passes)
    decreases |passes|
  {
    if passes == [] then c else Runner(AfterPass(c, passes[0]), passes[1..])
  }

  /** What the work of a turn makes of the core that its begin left. */
  function Worked(d: Core, job: Option<Job>, p: Pass): Core
    requires job.Some? && job.value.ActionJob? ==> job.value.index < |d.mem.actions|
  {
    match job
    case None => d
    case Some(ActionJob(_, _, _)) => SettleAction(d, job.value, p.turn.outcome, p.turn.later, p.turn.end)
    case Some(CycleJob(_, _, _)) =>
      if p.turn.result.None? then d
      else SettleCycle(d, job.value, false, p.turn.result, p.turn.stored, p.turn.later, p.turn.end)
  }

  lemma TurnMatches(c: Core, p: Pass)
    requires !c.fatal && !c.running && GoesOn(c, p)
    ensures var (d, job) := BeginStep(c, p.turn.now, p.turn.begin);
            if p.ends then Booted(TickStep(c, p.turn)) == Booted(Worked(d, job, p))
            else TickStep(c, p.turn) == Worked(d, job, p) && !TickStep(c, p.turn).fatal && !TickStep(c, p.turn).running
  {
    TickIsUninterruptedStep(c, p.turn);
    hide BeginAction, Named, RequestOf, Committed, StoreArtifact, WithIntent, Settled, NextAction, Log;
  }

  // ---------------------------------------------------------------- its turns as steps of the world

  /** A message to or from the instance, or anything that happens elsewhere. */
  predicate Chatter(s: Step, n: nat) {
    OfInstance(s) && s.n == n ==> s.DoAsk? || s.DoHearGet? || s.DoSend? || s.DoHearPut? || s.DoGiveUp?
  }

  /** How the job of a turn goes on, if one has left. */
  function WorkSteps(n: nat, job: Option<Job>, p: Pass): seq<Step> {
    match job
    case None => []
    case Some(ActionJob(_, _, _)) => p.talk + [DoSettleIntent(n, 0, p.turn.later, p.turn.end)]
    case Some(CycleJob(_, _, _)) =>
      if p.turn.result.None? then []
      else [DoSettleCycle(n, 0, false, p.turn.result, p.turn.stored, p.turn.later, p.turn.end)]
  }

  function PassSteps(c: Core, n: nat, p: Pass): seq<Step> {
    [DoStep(n, p.turn.now, p.turn.begin)] + WorkSteps(n, BeginStep(c, p.turn.now, p.turn.begin).1, p)
    + (if p.ends then [DoCrash(n), DoStart(n)] else [])
  }

  function AllPasses(c: Core, n: nat, passes: seq<Pass>): seq<Step>
    requires !c.fatal && !c.running && Proceeds(c, passes)
    decreases |passes|
  {
    if passes == [] then [] else PassSteps(c, n, passes[0]) + AllPasses(AfterPass(c, passes[0]), n, passes[1..])
  }

  /** The exchange of a turn with an intent is conducted by messages, and has the turn's outcome. */
  predicate Conducted(w: World, n: nat, p: Pass)
    requires n in w.nodes
  {
    var v := Apply(w, DoStep(n, p.turn.now, p.turn.begin));
    n in v.nodes && |v.nodes[n].flights| == 1 && v.nodes[n].flights[0].job.ActionJob? ==>
      && (forall s <- p.talk :: Chatter(s, n))
      && var x := Run(v, p.talk);
         n in x.nodes && |x.nodes[n].flights| == 1 && x.nodes[n].flights[0].phase == Answered(p.turn.outcome)
  }

  predicate AllConducted(w: World, n: nat, c: Core, passes: seq<Pass>)
    requires !c.fatal && !c.running && Proceeds(c, passes)
    decreases |passes|
  {
    passes == []
    || (&& n in w.nodes && Conducted(w, n, passes[0])
        && AllConducted(Run(w, PassSteps(c, n, passes[0])), n, AfterPass(c, passes[0]), passes[1..]))
  }

  /** A process between turns. */
  predicate Resting(w: World, n: nat) {
    n in w.nodes && w.nodes[n].up && w.nodes[n].flights == [] && !w.nodes[n].core.fatal && !w.nodes[n].core.running
  }

  // ---------------------------------------------------------------- a turn is a stretch of a run

  lemma ChatterStep(w: World, s: Step, n: nat)
    requires n in w.nodes && w.nodes[n].up && |w.nodes[n].flights| == 1 && Chatter(s, n)
    ensures var v := Apply(w, s);
            && n in v.nodes && v.nodes[n].up && v.nodes[n].core == w.nodes[n].core && |v.nodes[n].flights| == 1
            && v.nodes[n].flights[0].job == w.nodes[n].flights[0].job
  {
    OthersUntouched(w, s, n);
    hide GetReply, PutEffect, MayArrive, Classify, Clears, ValidInit, NewMission, RestoredState;
  }

  lemma {:induction false} ChatterRuns(w: World, talk: seq<Step>, n: nat)
    requires n in w.nodes && w.nodes[n].up && |w.nodes[n].flights| == 1 && forall s <- talk :: Chatter(s, n)
    ensures var v := Run(w, talk);
            && n in v.nodes && v.nodes[n].up && v.nodes[n].core == w.nodes[n].core && |v.nodes[n].flights| == 1
            && v.nodes[n].flights[0].job == w.nodes[n].flights[0].job
    decreases |talk|
  {
    if talk != [] {
      hide Apply, Chatter;
      ChatterStep(w, talk[0], n);
      ChatterRuns(Apply(w, talk[0]), talk[1..], n);
    }
  }

  /** The job of a turn has left, and comes back with what the turn says. */
  lemma WorkRuns(w: World, n: nat, d: Core, job: Option<Job>, p: Pass)
    requires n in w.nodes && w.nodes[n].up && w.nodes[n].core == d
    requires job.Some? && job.value.ActionJob? ==> job.value.index < |d.mem.actions|
    requires if job.None? then w.nodes[n].flights == []
             else |w.nodes[n].flights| == 1 && w.nodes[n].flights[0].job == job.value
    requires job.Some? && job.value.ActionJob? ==>
               && (forall s <- p.talk :: Chatter(s, n))
               && var v := Run(w, p.talk);
                  n in v.nodes && |v.nodes[n].flights| == 1 && v.nodes[n].flights[0].phase == Answered(p.turn.outcome)
    ensures var v := Run(w, WorkSteps(n, job, p));
            && n in v.nodes && v.nodes[n].up && v.nodes[n].core == Worked(d, job, p)
            && (job.None? || job.value.ActionJob? || p.turn.result.Some? ==> v.nodes[n].flights == [])
  {
    hide Run, Apply, Chatter, SettleAction, SettleCycle;
    match job
    case None =>
      RunNone(w);
    case Some(ActionJob(_, _, _)) =>
      ChatterRuns(w, p.talk, n);
      RunSplits(w, p.talk, [DoSettleIntent(n, 0, p.turn.later, p.turn.end)]);
      RunOne(Run(w, p.talk), DoSettleIntent(n, 0, p.turn.later, p.turn.end));
      IntentLands(Run(w, p.talk), n, d, job.value, p);
    case Some(CycleJob(_, _, _)) =>
      if p.turn.result.None? {
        RunNone(w);
      } else {
        RunOne(w, DoSettleCycle(n, 0, false, p.turn.result, p.turn.stored, p.turn.later, p.turn.end));
        CycleLands(w, n, d, job.value, p);
      }
  }

  lemma IntentLands(w: World, n: nat, d: Core, job: Job, p: Pass)
    requires n in w.nodes && w.nodes[n].up && w.nodes[n].core == d && |w.nodes[n].flights| == 1
    requires w.nodes[n].flights[0].job == job && w.nodes[n].flights[0].phase == Answered(p.turn.outcome)
    requires job.ActionJob? && job.index < |d.mem.actions|
    ensures var v := Apply(w, DoSettleIntent(n, 0, p.turn.later, p.turn.end));
            && n in v.nodes && v.nodes[n].up && v.nodes[n].flights == []
            && v.nodes[n].core == SettleAction(d, job, p.turn.outcome, p.turn.later, p.turn.end)
  {
    hide SettleAction;
  }

  lemma CycleLands(w: World, n: nat, d: Core, job: Job, p: Pass)
    requires n in w.nodes && w.nodes[n].up && w.nodes[n].core == d && |w.nodes[n].flights| == 1
    requires w.nodes[n].flights[0].job == job && job.CycleJob?
    ensures var v := Apply(w, DoSettleCycle(n, 0, false, p.turn.result, p.turn.stored, p.turn.later, p.turn.end));
            && n in v.nodes && v.nodes[n].up && v.nodes[n].flights == []
            && v.nodes[n].core == SettleCycle(d, job, false, p.turn.result, p.turn.stored, p.turn.later, p.turn.end)
  {
    hide SettleCycle;
  }

  lemma TurnBegins(w: World, n: nat, p: Pass)
    requires Resting(w, n)
    ensures var (d, job) := BeginStep(w.nodes[n].core, p.turn.now, p.turn.begin);
            var v := Apply(w, DoStep(n, p.turn.now, p.turn.begin));
            && n in v.nodes && v.nodes[n].up && v.nodes[n].core == d
            && if job.None? then v.nodes[n].flights == []
               else |v.nodes[n].flights| == 1 && v.nodes[n].flights[0].job == job.value
  {
    hide BeginStep;
  }

  /** A new process after the turn. */
  lemma Restarts(w: World, n: nat)
    requires Safe(w) && n in w.nodes && w.nodes[n].up
    ensures var v := Run(w, [DoCrash(n), DoStart(n)]);
            n in v.nodes && v.nodes[n].up && v.nodes[n].flights == [] && v.nodes[n].core == Booted(w.nodes[n].core)
  {
    hide Safe, Loadable, Run;
    LoadableDisk(w, n);
    RunTwo(w, DoCrash(n), DoStart(n));
  }

  lemma LoadableDisk(w: World, n: nat)
    requires Safe(w) && n in w.nodes
    ensures Loadable(w.nodes[n].core.disk)
  {
    hide Safe, Holds, Shaped, Sound, Consistent, Loadable;
    HoldsOf(w, n);
    Parts(w.nodes[n], w.bound, w.remote);
    SoundParts(w.nodes[n].core);
    ConsistentLoads(w.nodes[n].core.disk);
  }

  lemma ConsistentLoads(s: State)
    requires Consistent(s)
    ensures Loadable(s)
  {
    hide Loadable, LedgerAgrees;
  }

  lemma PassRuns(w: World, n: nat, p: Pass)
    requires Safe(w) && Resting(w, n) && GoesOn(w.nodes[n].core, p) && Conducted(w, n, p)
    ensures var v := Run(w, PassSteps(w.nodes[n].core, n, p));
            Safe(v) && Resting(v, n) && v.nodes[n].core == AfterPass(w.nodes[n].core, p)
  {
    hide Safe, Run, Apply, BeginStep, TickStep, WorkSteps, Worked, Chatter;
    var c := w.nodes[n].core;
    var (d, job) := BeginStep(c, p.turn.now, p.turn.begin);
    var begin, work := [DoStep(n, p.turn.now, p.turn.begin)], WorkSteps(n, job, p);
    TurnBegins(w, n, p);
    RunOne(w, begin[0]);
    var w1 := Run(w, begin);
    WorkRuns(w1, n, d, job, p);
    RunSplits(w, begin, work);
    var w2 := Run(w1, work);
    RunSafe(w, begin + work);
    TurnMatches(c, p);
    if p.ends {
      Restarts(w2, n);
      RunSplits(w, begin + work, [DoCrash(n), DoStart(n)]);
      RunSafe(w2, [DoCrash(n), DoStart(n)]);
    } else {
      assert begin + work + [] == begin + work;
    }
  }

  lemma {:induction false} PassesRun(w: World, n: nat, passes: seq<Pass>)
    requires Safe(w) && Resting(w, n) && Proceeds(w.nodes[n].core, passes)
             && AllConducted(w, n, w.nodes[n].core, passes)
    ensures var v := Run(w, AllPasses(w.nodes[n].core, n, passes));
            Safe(v) && Resting(v, n) && v.nodes[n].core == Runner(w.nodes[n].core, passes)
    decreases |passes|
  {
    hide Safe, Run, Conducted, GoesOn, PassSteps, AfterPass;
    var c := w.nodes[n].core;
    if passes == [] {
      RunNone(w);
    } else {
      PassRuns(w, n, passes[0]);
      var v := Run(w, PassSteps(c, n, passes[0]));
      RunSplits(w, PassSteps(c, n, passes[0]), AllPasses(v.nodes[n].core, n, passes[1..]));
      PassesRun(v, n, passes[1..]);
    }
  }

  /** Any sequence of turns of the sequential runner, in one process or in several, is a run: it leads
      from a reached world to a reached world whose memory, disk and artifacts are the runner's. What is
      proved of every run is thereby proved of the runner. */
  lemma TurnsAreRuns(past: seq<Step>, n: nat, passes: seq<Pass>)
    requires Resting(Run(EMPTY, past), n)
    requires var c := Run(EMPTY, past).nodes[n].core;
             Proceeds(c, passes) && AllConducted(Run(EMPTY, past), n, c, passes)
    ensures var c := Run(EMPTY, past).nodes[n].core;
            var v := Run(EMPTY, past + AllPasses(c, n, passes));
            Resting(v, n) && v.nodes[n].core == Runner(c, passes)
  {
    hide Run, Safe, Proceeds, AllConducted, AllPasses, Runner;
    AnyRunSafe(past);
    PassesRun(Run(EMPTY, past), n, passes);
    RunSplits(EMPTY, past, AllPasses(Run(EMPTY, past).nodes[n].core, n, passes));
  }
}
