/** What a failed save blocks, and for how long. */
module Failures {
  import opened Foundations
  import opened Kernel
  import opened Intents
  import opened Missions
  import opened Sections
  import opened Coherence
  import opened Destinations
  import opened World
  import opened Instance
  import opened Safety
  import opened Evolution
  import opened Theorems
  import opened Runs
  import opened Progress

  // ---------------------------------------------------------------- a pending error lasts

  /** The two steps that can end a pending error: an intent in flight settles and its save succeeds, or
      the process is killed. */
  predicate Relieves(s: Step, n: nat) {
    (s.DoSettleIntent? && s.n == n && s.r.Saved?) || (s.DoCrash? && s.n == n)
  }

  /** The jobs in flight are gone or still the same. */
  predicate SameJobs(x: Node, y: Node) {
    y.flights == []
    || (|y.flights| == |x.flights| && forall k :: 0 <= k < |x.flights| ==> y.flights[k].job == x.flights[k].job)
  }

  /** From `x` to `y` nothing was accepted, authorized or started, no result was committed, and no job left. */
  predicate Stalled(x: Node, y: Node) {
    && y.up && y.core.fatal && y.execs == x.execs && y.tally.auths == x.tally.auths
    && y.core.mem.completed == x.core.mem.completed && SameJobs(x, y)
  }

  lemma CommandStalled(x: Node, command: Command, id: Id, hash: Fingerprint, payload: Payload, newId: Option<Id>,
                       now: int, r: SaveResult)
    requires x.up && x.core.fatal
    ensures Obey(x, command, id, hash, payload, newId, now, r) == x
  {
    hide ValidActions, ProposeStep, DecideStep;
  }

  lemma SectionStalled(w: World, s: Step, x: Node)
    requires OfInstance(s) && s.n in w.nodes && x == w.nodes[s.n] && !IsFlight(s) && !s.DoCrash?
    requires x.up && x.core.fatal
    ensures Stalled(x, NodeStep(w, s, x).nodes[s.n])
  {
    if s.DoCommand? {
      CommandStalled(x, s.command, s.id, s.hash, s.payload, s.newId, s.now, s.r);
    }
    hide Loadable, FreshId, Bind, Referenced, BeginAction, BeginCycle, Obey, ValidActions;
  }

  lemma SettleStalled(x: Node, k: nat, now: int, r: SaveResult, remote: Records)
    requires CanSettleIntent(x, k) && !r.Saved? && Shaped(x, remote)
    ensures Stalled(x, SettleIntent(x, k, now, r))
  {
    OneFlight(x, k, remote);
    SettleClearsFatal(x.core, x.flights[k].job, x.flights[k].phase.out, now, r);
    SettleKeepsCompleted(x.core, x.flights[k].job, x.flights[k].phase.out, now, r);
    hide SettleAction, Sound, Shaped;
  }

  lemma ExecutionStalled(x: Node, k: nat, stopped: bool, result: Option<Bytes>, stored: SaveResult, now: int,
                         r: SaveResult, remote: Records)
    requires Flying(x, k) && x.flights[k].job.CycleJob? && x.core.fatal && Shaped(x, remote)
    ensures Stalled(x, SettleExecution(x, k, stopped, result, stored, now, r))
  {
    OneFlight(x, k, remote);
    FatalDropsCycle(x.core, x.flights[k].job, stopped, result, stored, now, r);
    hide Sound, Fits, SettleCycle, Shaped;
  }

  lemma FlightStalled(w: World, s: Step, x: Node)
    requires OfInstance(s) && s.n in w.nodes && x == w.nodes[s.n] && IsFlight(s) && !Relieves(s, s.n)
    requires x.up && x.core.fatal && Shaped(x, w.remote)
    ensures Stalled(x, NodeStep(w, s, x).nodes[s.n])
  {
    hide Shaped;
    if s.DoSettleIntent? && CanSettleIntent(x, s.k) {
      SettleStalled(x, s.k, s.now, s.r, w.remote);
      hide SettleIntent, Stalled;
    } else if s.DoSettleCycle? && Flying(x, s.k) && x.flights[s.k].job.CycleJob? {
      ExecutionStalled(x, s.k, s.stopped, s.result, s.stored, s.now, s.r, w.remote);
      hide SettleExecution, Stalled;
    } else {
      ExchangeStalled(w, s, x);
      hide FlightStep, Stalled;
    }
  }

  /** Messages touch nothing but their own flight. */
  lemma ExchangeStalled(w: World, s: Step, x: Node)
    requires IsFlight(s) && s.n in w.nodes && x == w.nodes[s.n] && x.up && x.core.fatal
    requires !(s.DoSettleIntent? && CanSettleIntent(x, s.k))
    requires !(s.DoSettleCycle? && Flying(x, s.k) && x.flights[s.k].job.CycleJob?)
    ensures Stalled(x, FlightStep(w, s, x).nodes[s.n])
  {
    hide Stalled, Classify, Clears, MayArrive, SettleIntent, SettleExecution, EnvelopeOf, InPhase;
    if Flying(x, s.k) {
      forall phase: Phase
        ensures SameButPhases(x, InPhase(x, s.k, phase))
      {
        PhaseAlone(x, s.k, phase);
      }
    }
    StalledSo(x, FlightStep(w, s, x).nodes[s.n]);
  }

  predicate SameButPhases(x: Node, y: Node) {
    y.up == x.up && y.core == x.core && y.execs == x.execs && y.tally == x.tally && SameJobs(x, y)
  }

  lemma PhaseAlone(x: Node, k: nat, phase: Phase)
    requires Flying(x, k)
    ensures SameButPhases(x, InPhase(x, k, phase))
  {
  }

  lemma StalledSo(x: Node, y: Node)
    requires x.up && x.core.fatal && SameButPhases(x, y.(tally := x.tally)) && y.tally.auths == x.tally.auths
    ensures Stalled(x, y)
  {
  }

  lemma SettleKeepsCompleted(c: Core, job: Job, out: RecordOutcome, now: int, r: SaveResult)
    requires job.ActionJob? && job.index < |c.mem.actions|
    ensures SettleAction(c, job, out, now, r).mem.completed == c.mem.completed
  {
  }

  lemma StepStalled(w: World, s: Step, n: nat)
    requires Safe(w) && n in w.nodes && w.nodes[n].core.fatal && !Relieves(s, n)
    ensures n in Apply(w, s).nodes && Stalled(w.nodes[n], Apply(w, s).nodes[n])
  {
    var x := w.nodes[n];
    OthersUntouched(w, s, n);
    assert Shaped(x, w.remote) && x.up by {
      HoldsOf(w, n);
      Parts(x, w.bound, w.remote);
      hide Safe, Holds, Sound, FlightFits;
    }
    if OfInstance(s) && s.n == n {
      hide Safe, Shaped, NodeStep, Stalled;
      if IsFlight(s) {
        FlightStalled(w, s, x);
      } else {
        SectionStalled(w, s, x);
      }
    }
  }

  lemma {:induction false} RunStalled(w: World, steps: seq<Step>, n: nat)
    requires Safe(w) && n in w.nodes && w.nodes[n].up && w.nodes[n].core.fatal
    requires forall s <- steps :: !Relieves(s, n)
    ensures n in Run(w, steps).nodes && Stalled(w.nodes[n], Run(w, steps).nodes[n])
    decreases |steps|
  {
    if steps != [] {
      hide Safe, Apply, Relieves;
      StepSafe(w, steps[0]);
      StepStalled(w, steps[0], n);
      RunStalled(Apply(w, steps[0]), steps[1..], n);
    }
  }

  lemma ErrorMeansUp(past: seq<Step>, n: nat)
    requires n in Run(EMPTY, past).nodes && Run(EMPTY, past).nodes[n].core.fatal
    ensures Run(EMPTY, past).nodes[n].up
  {
    hide Run;
    AnyNode(past, n);
    hide Sound, FlightFits, Consistent, Vouched, Books, Accountable, Ran, Gated;
  }

  /** A persistence error blocks everything new, in every run, until an intent in flight settles with a
      successful save or the process ends. */
  lemma ErrorBlocks(past: seq<Step>, future: seq<Step>, n: nat)
    requires n in Run(EMPTY, past).nodes && Run(EMPTY, past).nodes[n].core.fatal
    requires forall s <- future :: !Relieves(s, n)
    ensures var later := Run(EMPTY, past + future);
            n in later.nodes && Stalled(Run(EMPTY, past).nodes[n], later.nodes[n])
  {
    hide Run, Safe, Relieves, Stalled;
    var w := Run(EMPTY, past);
    AnyRunSafe(past);
    ErrorMeansUp(past, n);
    RunSplits(EMPTY, past, future);
    RunStalled(w, future, n);
  }

  // ---------------------------------------------------------------- exactly when it lasts

  /** No write intent is in flight. */
  predicate OnlyCycles(x: Node) {
    forall f <- x.flights :: f.job.CycleJob?
  }

  predicate Kills(s: Step, n: nat) {
    s.DoCrash? && s.n == n
  }

  /** Whatever happens but a kill, everything new is blocked. */
  ghost predicate BlockedForGood(past: seq<Step>, n: nat)
    requires n in Run(EMPTY, past).nodes
  {
    forall future | forall s <- future :: !Kills(s, n) ::
      var later := Run(EMPTY, past + future);
      n in later.nodes && Stalled(Run(EMPTY, past).nodes[n], later.nodes[n])
  }

  lemma CyclesRemain(x: Node, y: Node)
    requires OnlyCycles(x) && Stalled(x, y)
    ensures OnlyCycles(y)
  {
    forall f | f in y.flights
      ensures f.job.CycleJob?
    {
      var k :| 0 <= k < |y.flights| && y.flights[k] == f;
      assert x.flights[k] in x.flights;
    }
  }

  /** Without an intent in flight nothing settles one. */
  lemma NothingToSettle(w: World, s: Step, n: nat)
    requires n in w.nodes && OnlyCycles(w.nodes[n]) && s.DoSettleIntent? && s.n == n
    ensures Apply(w, s) == w
  {
    assert !CanSettleIntent(w.nodes[n], s.k);
    hide CanSettleIntent;
  }

  lemma StepBlocked(w: World, s: Step, n: nat)
    requires Safe(w) && n in w.nodes && w.nodes[n].core.fatal && OnlyCycles(w.nodes[n]) && !Kills(s, n)
    requires w.nodes[n].up
    ensures n in Apply(w, s).nodes && Stalled(w.nodes[n], Apply(w, s).nodes[n])
  {
    hide Safe, Apply;
    if Relieves(s, n) {
      NothingToSettle(w, s, n);
    } else {
      StepStalled(w, s, n);
      hide Stalled;
    }
  }

  lemma StalledTwice(x: Node, y: Node, z: Node)
    requires Stalled(x, y) && Stalled(y, z)
    ensures Stalled(x, z)
  {
  }

  lemma {:induction false} RunBlocked(w: World, steps: seq<Step>, n: nat)
    requires Safe(w) && n in w.nodes && w.nodes[n].up && w.nodes[n].core.fatal && OnlyCycles(w.nodes[n])
    requires forall s <- steps :: !Kills(s, n)
    ensures n in Run(w, steps).nodes && Stalled(w.nodes[n], Run(w, steps).nodes[n])
    decreases |steps|
  {
    if steps != [] {
      hide Safe, Apply, Kills, OnlyCycles;
      var v := Apply(w, steps[0]);
      StepSafe(w, steps[0]);
      StepBlocked(w, steps[0], n);
      CyclesRemain(w.nodes[n], v.nodes[n]);
      RunBlocked(v, steps[1..], n);
      StalledTwice(w.nodes[n], v.nodes[n], Run(v, steps[1..]).nodes[n]);
    }
  }

  /** Give up on the exchange, and record that. */
  function Relief(n: nat): seq<Step> {
    [DoGiveUp(n, 0), DoSettleIntent(n, 0, 0, Saved)]
  }

  lemma IntentAlone(w: World, n: nat)
    requires Safe(w) && n in w.nodes && w.nodes[n].up && !OnlyCycles(w.nodes[n])
    ensures var x := w.nodes[n];
            && |x.flights| == 1 && x.flights[0].job.ActionJob? && x.flights[0].job.index < |x.core.mem.actions|
  {
    var x := w.nodes[n];
    var k :| 0 <= k < |x.flights| && x.flights[k].job.ActionJob?;
    hide Safe, Holds, Sound, Shaped;
    HoldsOf(w, n);
    Parts(x, w.bound, w.remote);
    OneFlight(x, k, w.remote);
  }

  lemma JobGivesUp(w: World, n: nat, core: Core, job: Job, phase: Phase)
    requires Waits(w, n, core, job, phase) && job.ActionJob?
    ensures Waits(Apply(w, DoGiveUp(n, 0)), n, core, job, Answered(FAILED))
  {
  }

  lemma ReliefWorks(w: World, n: nat)
    requires Safe(w) && n in w.nodes && w.nodes[n].up && !OnlyCycles(w.nodes[n])
    ensures n in Run(w, Relief(n)).nodes && !Run(w, Relief(n)).nodes[n].core.fatal
  {
    var x := w.nodes[n];
    IntentAlone(w, n);
    var f := x.flights[0];
    assert Waits(w, n, x.core, f.job, f.phase);
    hide Safe, Apply, SettleAction, Waits, OnlyCycles;
    JobGivesUp(w, n, x.core, f.job, f.phase);
    JobSettles(Apply(w, DoGiveUp(n, 0)), n, x.core, f.job, FAILED, 0);
    SettleClearsFatal(x.core, f.job, FAILED, 0, Saved);
    RunTwo(w, DoGiveUp(n, 0), DoSettleIntent(n, 0, 0, Saved));
  }

  /** A persistence error blocks new executions until the process ends exactly if no write intent is in
      flight when it occurs, which an operator can see at that moment. */
  lemma BlockedExactly(past: seq<Step>, n: nat)
    requires n in Run(EMPTY, past).nodes && Run(EMPTY, past).nodes[n].core.fatal
    ensures OnlyCycles(Run(EMPTY, past).nodes[n]) <==> BlockedForGood(past, n)
  {
    hide Run, Safe, Kills, Stalled, OnlyCycles;
    var w := Run(EMPTY, past);
    AnyRunSafe(past);
    ErrorMeansUp(past, n);
    if OnlyCycles(w.nodes[n]) {
      forall future | forall s <- future :: !Kills(s, n)
        ensures n in Run(EMPTY, past + future).nodes && Stalled(w.nodes[n], Run(EMPTY, past + future).nodes[n])
      {
        RunSplits(EMPTY, past, future);
        RunBlocked(w, future, n);
      }
    } else {
      RunSplits(EMPTY, past, Relief(n));
      ReliefWorks(w, n);
      NotStalled(w.nodes[n], Run(w, Relief(n)).nodes[n]);
      NoKill(n);
      assert !Stalled(w.nodes[n], Run(EMPTY, past + Relief(n)).nodes[n]);
    }
  }

  lemma NotStalled(x: Node, y: Node)
    requires !y.core.fatal
    ensures !Stalled(x, y)
  {
  }

  lemma NoKill(n: nat)
    ensures forall s <- Relief(n) :: !Kills(s, n)
  {
  }

  // ---------------------------------------------------------------- but it can be forgotten

  /** A control command leaves the job in flight waiting. */
  lemma ControlWhileWaiting(w: World, n: nat, core: Core, job: Job, phase: Phase, action: Admin, now: int,
                            r: SaveResult)
    requires Waits(w, n, core, job, phase)
    ensures var v := Apply(w, DoAdmin(n, action, now, r));
            Waits(v, n, ControlStep(core, action, now, r).0, job, phase) && v.remote == w.remote
  {
    hide ControlStep;
  }

  /** Open the mission, begin the write, and let the save of a `resume` fail. */
  function Failing(init: Step, id: Id, payload: Payload, now: int): seq<Step>
    requires init.DoInit? && init.writes.Some?
  {
    Opening(init, id, payload, now) + [DoStep(init.n, now, Saved), DoAdmin(init.n, Resume, now, LostBefore)]
  }

  /** ... then let the exchange end well, and take the next step. */
  function Forgetting(init: Step, id: Id, payload: Payload, now: int): seq<Step>
    requires init.DoInit? && init.writes.Some?
  {
    var copy := Reserved(ApprovedProposal(MissionOf(init), id, payload), true);
    Failing(init, id, payload, now) + (ExchangeSteps(map[], init.n, copy, now) + [DoStep(init.n, now, Saved)])
  }

  /** A new mission whose intents are final starts its first cycle when it is due. */
  lemma CycleStarts(c: Core, init: Step, now: int)
    requires init.DoInit? && ValidInit(init) && init.now <= now && !c.fatal && !c.running
    requires c.mem == MissionOf(init).(actions := c.mem.actions, events := c.mem.events)
             && NextAction(c.mem.actions) == -1
    ensures var (d, job) := BeginStep(c, now, Saved);
            !d.fatal && job.Some? && job.value.CycleJob?
  {
    hide NextAction, Blank, AbsolutePath;
  }

  /** The memory after a failed `resume` and a settled exchange. */
  lemma ForgottenCore(core: Core, job: Job, out: RecordOutcome, now: int, init: Step, a: Intent)
    requires init.DoInit? && ValidInit(init) && job == ActionJob(0, a, true) && !core.fatal && a.status.InFlight?
    requires core.mem == MissionOf(init).(actions := [a], events := core.mem.events)
    requires Confirmed(a, out) && !out.absent
    ensures var failed := ControlStep(core, Resume, now, LostBefore).0;
            var d := SettleAction(failed, job, out, now, Saved);
            && failed.fatal && failed.mem.actions == [a] && failed.disk == core.disk
            && !d.fatal && !d.running && d.disk == d.mem && NextAction(d.mem.actions) == -1
            && d.mem == MissionOf(init).(actions := d.mem.actions, events := d.mem.events)
  {
    hide ValidReceipt, ValidInit;
  }

  /** The error pends while the intent is in flight; one settled save later the next step starts an
      execution, and nobody has restarted the process. This happens to every mission with a write policy. */
  lemma ErrorForgotten(init: Step, id: Id, payload: Payload, now: int)
    requires init.DoInit? && ValidInit(init) && init.writes.Some? && init.now <= now && RecordPayload(payload)
             && RoutedId(id)
    ensures var n := init.n;
            var w := Run(EMPTY, Failing(init, id, payload, now));
            var v := Run(EMPTY, Forgetting(init, id, payload, now));
            && n in w.nodes && w.nodes[n].core.fatal && |w.nodes[n].flights| == 1
            && n in v.nodes && !v.nodes[n].core.fatal && |v.nodes[n].flights| == 1
               && v.nodes[n].flights[0].job.CycleJob?
  {
    PayloadRulesDiffer();
    var n, opening := init.n, Opening(init, id, payload, now);
    var a := ApprovedProposal(MissionOf(init), id, payload);
    OpeningCanWrite(init, id, payload, now);
    AnyRunSafe(opening);
    var w0 := Run(EMPTY, opening);
    var copy := Reserved(a, true);
    var core, job := CoreFor(w0.nodes[n], 0, now), JobFor(w0.nodes[n], 0);
    assert job == ActionJob(0, copy, true) && !core.fatal
           && core.mem == MissionOf(init).(actions := [copy], events := core.mem.events);
    hide Run, Apply, Safe, ValidPayload, RecordPayload, RoutedId, ValidInit, Opening, Waits, CanWrite, Confirmed,
         MissionOf,
         ControlStep, SettleAction, ExchangeSteps, Outcome, ApprovedProposal, BeginStep;
    JobLeaves(w0, n, 0, now);
    var w1 := Apply(w0, DoStep(n, now, Saved));
    ControlWhileWaiting(w1, n, core, job, Fresh, Resume, now, LostBefore);
    var w2 := Apply(w1, DoAdmin(n, Resume, now, LostBefore));
    RunTwo(w0, DoStep(n, now, Saved), DoAdmin(n, Resume, now, LostBefore));
    RunSplits(EMPTY, opening, [DoStep(n, now, Saved), DoAdmin(n, Resume, now, LostBefore)]);
    LedgerAnswers(map[], job);
    ForgottenCore(core, job, Outcome(map[], copy), now, init, copy);
    var failed := ControlStep(core, Resume, now, LostBefore).0;
    Exchange(w2, n, failed, job, now);
    var w3 := Run(w2, ExchangeSteps(map[], n, copy, now));
    var d := SettleAction(failed, job, Outcome(map[], copy), now, Saved);
    CycleStarts(d, init, now);
    CycleLaunched(w3, n, d, now);
    RunOne(w3, DoStep(n, now, Saved));
    RunSplits(w2, ExchangeSteps(map[], n, copy, now), [DoStep(n, now, Saved)]);
    RunSplits(EMPTY, Failing(init, id, payload, now), ExchangeSteps(map[], n, copy, now) + [DoStep(n, now, Saved)]);
    WaitsMeans(w2, n, failed, job);
  }

  lemma WaitsMeans(w: World, n: nat, core: Core, job: Job)
    requires Waits(w, n, core, job, Fresh)
    ensures n in w.nodes && w.nodes[n].core == core && |w.nodes[n].flights| == 1
  {
  }

  lemma CycleLaunched(w: World, n: nat, c: Core, now: int)
    requires n in w.nodes && w.nodes[n].up && w.nodes[n].flights == [] && w.nodes[n].core == c
    requires BeginStep(c, now, Saved).1.Some? && BeginStep(c, now, Saved).1.value.CycleJob?
             && !BeginStep(c, now, Saved).0.fatal
    ensures var v := Apply(w, DoStep(n, now, Saved));
            n in v.nodes && !v.nodes[n].core.fatal && |v.nodes[n].flights| == 1 && v.nodes[n].flights[0].job.CycleJob?
  {
    hide BeginStep;
  }
}
