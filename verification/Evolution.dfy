/** How one instance changes over time: its disk only evolves, and it writes nothing by itself. */
module Evolution {
  import opened Foundations
  import opened Kernel
  import opened Intents
  import opened Missions
  import opened Sections
  import opened Coherence
  import opened Destinations
  import opened World
  import opened Instance
  import opened Safety

  // ---------------------------------------------------------------- the disk evolves

  lemma ObeyEvolves(x: Node, w: World, s: Step)
    requires Holds(x, w.bound, w.remote) && s.DoCommand? && (s.newId.Some? ==> FreshId(w, s.newId.value))
    ensures Evolves(x.core.disk, Obey(x, s.command, s.id, s.hash, s.payload, s.newId, s.now, s.r).core.disk)
  {
    EvolvesReflexive(x.core.disk);
    hide Evolves, Holds, ActionControlStep, Sound, Advances;
    Parts(x, w.bound, w.remote);
    if s.newId.Some? {
      UnboundIsNew(x, s.newId.value, w.bound, w.remote);
      assert WellFormedId(s.newId.value);
    }
    ActionControlSound(x.core, s.command, s.id, s.hash, s.payload, s.newId, s.now, s.r);
    AdvancesParts(x.core, ActionControlStep(x.core, s.command, s.id, s.hash, s.payload, s.newId, s.now, s.r).0);
  }

  lemma LaunchEvolves(x: Node, begun: (Core, Option<Job>))
    requires Began(x.core, begun)
    ensures Evolves(x.core.disk, Launch(x, begun).core.disk)
  {
  }

  /** Sections of a running process, and `recover` on a stopped one. */
  lemma SectionEvolves(x: Node, w: World, s: Step)
    requires Holds(x, w.bound, w.remote) && OfInstance(s) && s.n in w.nodes && x == w.nodes[s.n] && IsSection(s)
    ensures s.n in NodeStep(w, s, x).nodes && Evolves(x.core.disk, NodeStep(w, s, x).nodes[s.n].core.disk)
  {
    EvolvesReflexive(x.core.disk);
    hide Evolves, Holds, Sound, Advances, Began, ControlStep, RunActionStep, BeginStep, ActivateStep, Launch;
    Parts(x, w.bound, w.remote);
    if s.DoAdmin? {
      ControlSound(x.core, s.action, s.now, s.r);
      AdvancesParts(x.core, ControlStep(x.core, s.action, s.now, s.r).0);
    } else if s.DoRunAction? {
      RunActionSound(x.core, s.id, s.readOnly, s.now, s.r);
      LaunchEvolves(x, RunActionStep(x.core, s.id, s.readOnly, s.now, s.r));
    } else if s.DoStep? {
      BeginStepSound(x.core, s.now, s.r);
      LaunchEvolves(x, BeginStep(x.core, s.now, s.r));
    } else if s.DoActivate? {
      ActivateSound(x.core, s.sourceFenced, s.checked, s.now, s.r);
      AdvancesParts(x.core, ActivateStep(x.core, s.sourceFenced, s.checked, s.now, s.r).0);
    }
  }

  lemma FlightEvolves(x: Node, w: World, s: Step)
    requires Holds(x, w.bound, w.remote) && OfInstance(s) && s.n in w.nodes && x == w.nodes[s.n] && IsFlight(s)
    ensures s.n in NodeStep(w, s, x).nodes && Evolves(x.core.disk, NodeStep(w, s, x).nodes[s.n].core.disk)
  {
    EvolvesReflexive(x.core.disk);
    hide Evolves, Holds, Sound, Advances, SettleAction, SettleCycle, Fits;
    Parts(x, w.bound, w.remote);
    if s.DoSettleIntent? && CanSettleIntent(x, s.k) {
      OneFlight(x, s.k, w.remote);
      SettleActionSound(x.core, x.flights[s.k].job, x.flights[s.k].phase.out, s.now, s.r);
      AdvancesParts(x.core, SettleAction(x.core, x.flights[s.k].job, x.flights[s.k].phase.out, s.now, s.r));
    } else if s.DoSettleCycle? && Flying(x, s.k) && x.flights[s.k].job.CycleJob? {
      OneFlight(x, s.k, w.remote);
      SettleCycleSound(x.core, x.flights[s.k].job, s.stopped, s.result, s.stored, s.now, s.r);
      AdvancesParts(x.core, SettleCycle(x.core, x.flights[s.k].job, s.stopped, s.result, s.stored, s.now, s.r));
    }
  }

  /** An instance only changes by its own steps. */
  lemma OthersUntouched(w: World, s: Step, n: nat)
    requires n in w.nodes
    ensures n in Apply(w, s).nodes
    ensures !OfInstance(s) || s.n != n ==> Apply(w, s).nodes[n] == w.nodes[n]
  {
    hide NodeStep, PutEffect, GetReply, NewMission, RestoredState, ValidInit;
  }

  /** No step loses an instance, and its disk evolves. */
  lemma StepEvolves(w: World, s: Step, n: nat)
    requires Safe(w) && n in w.nodes
    ensures n in Apply(w, s).nodes && Evolves(w.nodes[n].core.disk, Apply(w, s).nodes[n].core.disk)
  {
    EvolvesReflexive(w.nodes[n].core.disk);
    OthersUntouched(w, s, n);
    hide Evolves, Safe, NodeStep;
    if OfInstance(s) && s.n == n {
      InstanceStepEvolves(w, s);
    }
  }

  /** A command acts on its instance alone, unless its identifier would not be new; a backup only reads. */
  lemma Commanded(w: World, s: Step, x: Node)
    requires (s.DoCommand? || s.DoBackup?) && s.n in w.nodes && x == w.nodes[s.n]
    ensures s.DoCommand? && (s.newId.Some? ==> FreshId(w, s.newId.value)) ==>
              NodeStep(w, s, x).nodes[s.n] == Obey(x, s.command, s.id, s.hash, s.payload, s.newId, s.now, s.r)
    ensures s.DoBackup? || (s.newId.Some? && !FreshId(w, s.newId.value)) ==> NodeStep(w, s, x).nodes[s.n] == x
  {
    hide Obey, Bind, FreshId, Referenced;
  }

  lemma CommandEvolves(w: World, s: Step)
    requires Safe(w) && OfInstance(s) && s.n in w.nodes && (s.DoCommand? || s.DoBackup?)
    ensures Evolves(w.nodes[s.n].core.disk, NodeStep(w, s, w.nodes[s.n]).nodes[s.n].core.disk)
  {
    hide Evolves, Safe, Holds, Obey, NodeStep, FreshId;
    EvolvesReflexive(w.nodes[s.n].core.disk);
    HoldsOf(w, s.n);
    Commanded(w, s, w.nodes[s.n]);
    if s.DoCommand? && (s.newId.None? || FreshId(w, s.newId.value)) {
      ObeyEvolves(w.nodes[s.n], w, s);
    }
  }

  lemma InstanceStepEvolves(w: World, s: Step)
    requires Safe(w) && OfInstance(s) && s.n in w.nodes
    ensures Evolves(w.nodes[s.n].core.disk, NodeStep(w, s, w.nodes[s.n]).nodes[s.n].core.disk)
  {
    hide Evolves, Safe, Holds, NodeStep;
    HoldsOf(w, s.n);
    if s.DoCommand? || s.DoBackup? {
      CommandEvolves(w, s);
    } else if IsSection(s) {
      SectionEvolves(w.nodes[s.n], w, s);
    } else {
      FlightEvolves(w.nodes[s.n], w, s);
    }
  }

  /** Along any run the disk of an instance evolves: terminal statuses, final intents, bindings,
      published artifacts and events stay, and counters never decrease. */
  lemma {:induction false} DiskEvolves(w: World, steps: seq<Step>, n: nat)
    requires Safe(w) && n in w.nodes
    ensures n in Run(w, steps).nodes && Evolves(w.nodes[n].core.disk, Run(w, steps).nodes[n].core.disk)
    decreases |steps|
  {
    if steps == [] {
      EvolvesReflexive(w.nodes[n].core.disk);
    } else {
      hide Evolves, Safe, Apply;
      var v := Apply(w, steps[0]);
      StepSafe(w, steps[0]);
      StepEvolves(w, steps[0], n);
      DiskEvolves(v, steps[1..], n);
      EvolvesTransitive(w.nodes[n].core.disk, v.nodes[n].core.disk, Run(v, steps[1..]).nodes[n].core.disk);
    }
  }

  // ---------------------------------------------------------------- bindings and records persist

  /** Only a proposal binds. */
  lemma CommandGrows(w: World, s: Step)
    requires s.DoCommand? && s.n in w.nodes
    ensures Grows(w.bound, w.remote, NodeStep(w, s, w.nodes[s.n]).bound, NodeStep(w, s, w.nodes[s.n]).remote)
  {
    if s.newId.None? || FreshId(w, s.newId.value) {
      NewBinding(w, w.nodes[s.n], s.command, s.id, s.hash, s.payload, s.newId, s.now, s.r);
    }
    hide Obey, Bind, FreshId;
  }

  /** No other step of an instance binds anything or writes to the destination by itself. */
  lemma InstanceKeeps(w: World, s: Step, x: Node)
    requires OfInstance(s) && !s.DoCommand?
    ensures NodeStep(w, s, x).bound == w.bound && NodeStep(w, s, x).remote == w.remote
  {
    hide Start, Crash, Administer, Launch, Activate, Ask, Send, HearGet, HearPut, InPhase, SettleIntent,
         SettleExecution,
         MayArrive, Referenced, EnvelopeOf;
  }

  lemma StepGrows(w: World, s: Step)
    ensures Grows(w.bound, w.remote, Apply(w, s).bound, Apply(w, s).remote)
  {
    hide NewMission, RestoredState, GetReply, RoutedId, RecordPayload, NodeStep, ValidInit;
    if s.DoCommand? && s.n in w.nodes {
      CommandGrows(w, s);
    } else if OfInstance(s) && s.n in w.nodes {
      InstanceKeeps(w, s, w.nodes[s.n]);
    }
  }

  lemma {:induction false} RunGrows(w: World, steps: seq<Step>)
    ensures Grows(w.bound, w.remote, Run(w, steps).bound, Run(w, steps).remote)
    decreases |steps|
  {
    if steps != [] {
      StepGrows(w, steps[0]);
      RunGrows(Apply(w, steps[0]), steps[1..]);
    }
  }

  // ---------------------------------------------------------------- nothing is written unasked

  predicate Unapproved(actions: seq<Intent>, id: Id) {
    forall i :: 0 <= i < |actions| && actions[i].id == id ==> !actions[i].status.Approved?
  }

  /** Neither memory nor disk approves the intent, and no job may still write it. */
  predicate Quiet(x: Node, id: Id) {
    Unapproved(x.core.mem.actions, id) && Unapproved(x.core.disk.actions, id) && OwedPut(x.flights, id) == 0
  }

  /** Quiet before, quiet after, and no PUT in between. */
  predicate Silent(x: Node, y: Node, id: Id) {
    Quiet(y, id) && y.tally.puts[id] == x.tally.puts[id]
  }

  /** An approve or retry command for the intent, at this instance. */
  predicate Asks(s: Step, n: nat, id: Id) {
    s.DoCommand? && s.n == n && s.id == id && Authorizes(s.command)
  }

  lemma ObeyQuiet(x: Node, w: World, s: Step, id: Id)
    requires Quiet(x, id) && s.DoCommand? && !(s.id == id && Authorizes(s.command))
    ensures Silent(x, Obey(x, s.command, s.id, s.hash, s.payload, s.newId, s.now, s.r), id)
  {
    hide ValidActions, ValidPayload, OwedPut;
  }

  lemma BeginActionQuiet(x: Node, i: nat, readOnly: bool, now: int, r: SaveResult, id: Id)
    requires Quiet(x, id) && i < |x.core.mem.actions| && x.flights == [] && x.core.disk == x.core.mem
    ensures Silent(x, Launch(x, BeginAction(x.core, i, readOnly, now, r)), id)
  {
    BeginActionEffect(x.core, i, readOnly, now, r);
    BeginActionPublishes(x.core, i, readOnly, now, r);
    hide BeginAction;
  }

  lemma BeginActionPublishes(c: Core, i: nat, readOnly: bool, now: int, r: SaveResult)
    requires i < |c.mem.actions|
    ensures var d := BeginAction(c, i, readOnly, now, r).0; d.disk == c.disk || d.disk == d.mem
  {
  }

  lemma BeginCycleQuiet(x: Node, now: int, r: SaveResult, id: Id)
    requires Quiet(x, id) && x.flights == [] && x.core.disk == x.core.mem
    ensures Silent(x, Launch(x, BeginCycle(x.core, now, r)), id)
  {
    BeginCycleEffect(x.core, now, r);
    BeginCyclePublishes(x.core, now, r);
    hide BeginCycle;
  }

  lemma BeginCyclePublishes(c: Core, now: int, r: SaveResult)
    ensures var d := BeginCycle(c, now, r).0; d.disk == c.disk || d.disk == d.mem
  {
  }

  lemma LaunchQuiet(x: Node, w: World, s: Step, id: Id)
    requires Shaped(x, w.remote) && Quiet(x, id) && x.up && (s.DoStep? || s.DoRunAction?)
    ensures s.DoStep? ==> Silent(x, Launch(x, BeginStep(x.core, s.now, s.r)), id)
    ensures s.DoRunAction? ==> Silent(x, Launch(x, RunActionStep(x.core, s.id, s.readOnly, s.now, s.r)), id)
  {
    hide FlightFits, Consistent, Evolves, Readable, Addressed, BeginAction, BeginCycle, Unapproved, OwedPut;
    if !x.core.fatal && !x.core.running {
      assert x.flights == [] && x.core.disk == x.core.mem;
      if s.DoStep? {
        var i := NextAction(x.core.mem.actions);
        if i >= 0 {
          BeginActionQuiet(x, i, false, s.now, s.r, id);
        } else {
          BeginCycleQuiet(x, s.now, s.r, id);
        }
      } else {
        var i := Position(x.core.mem.actions, s.id);
        if i >= 0 {
          BeginActionQuiet(x, i, s.readOnly, s.now, s.r, id);
        }
      }
    }
  }

  lemma SectionQuiet(w: World, s: Step, x: Node, id: Id)
    requires OfInstance(s) && s.n in w.nodes && x == w.nodes[s.n] && IsSection(s)
    requires Shaped(x, w.remote) && Quiet(x, id)
    ensures Silent(x, NodeStep(w, s, x).nodes[s.n], id)
  {
    if (s.DoStep? || s.DoRunAction?) && x.up {
      LaunchQuiet(x, w, s, id);
      hide Silent, BeginStep, RunActionStep, Launch;
    } else {
      hide BeginStep, RunActionStep, Launch, Sound, FlightFits;
    }
  }

  lemma FlightQuiet(w: World, s: Step, x: Node, id: Id)
    requires OfInstance(s) && s.n in w.nodes && x == w.nodes[s.n] && IsFlight(s)
    requires Shaped(x, w.remote) && Quiet(x, id)
    ensures Silent(x, NodeStep(w, s, x).nodes[s.n], id)
  {
    if !s.DoSettleIntent? && !s.DoSettleCycle? && Flying(x, s.k) {
      ExchangeQuiet(w, s, x, id);
    } else if s.DoSettleIntent? && CanSettleIntent(x, s.k) {
      OneFlight(x, s.k, w.remote);
      SettleQuiet(x, s.k, s.now, s.r, id);
      hide Silent, SettleIntent;
    } else if s.DoSettleCycle? && Flying(x, s.k) && x.flights[s.k].job.CycleJob? {
      OneFlight(x, s.k, w.remote);
      ExecutionQuiet(x, s.k, s.stopped, s.result, s.stored, s.now, s.r, id);
      hide Silent, SettleExecution;
    }
  }

  /** A job that moves on owes no more than before. */
  lemma PhaseQuiet(x: Node, phase: Phase, t: Tally, id: Id)
    requires x.up && |x.flights| == 1 && Quiet(x, id) && t.puts[id] == x.tally.puts[id]
    requires phase.Sent? || phase.Answered? || !(x.flights[0].phase.Sent? || x.flights[0].phase.Answered?)
    ensures Silent(x, InPhase(x, 0, phase).(tally := t), id)
  {
    hide Unapproved;
  }

  /** A quiet job may ask and hear, but the PUT that would count was never cleared. */
  lemma ExchangeQuiet(w: World, s: Step, x: Node, id: Id)
    requires OfInstance(s) && s.n in w.nodes && x == w.nodes[s.n]
    requires IsFlight(s) && !s.DoSettleIntent? && !s.DoSettleCycle? && Flying(x, s.k)
    requires Shaped(x, w.remote) && Quiet(x, id)
    ensures Silent(x, NodeStep(w, s, x).nodes[s.n], id)
  {
    OneFlight(x, s.k, w.remote);
    assert x.flights[0].job.ActionJob? && x.flights[0].phase.Cleared? ==> x.flights[0].job.allowWrite;
    hide Sound, Fits, FlightFits, Unapproved, Shaped, Classify, MayArrive, Silent, InPhase;
    match s
    case DoAsk(_, _) =>
      if Exchanging(x, s.k, Fresh) {
        PhaseQuiet(x, Asked, Ask(x, 0).tally, id);
      }
    case DoHearGet(_, _, reply) =>
      if Exchanging(x, s.k, Asked) {
        PhaseQuiet(x, Cleared, x.tally, id);
        PhaseQuiet(x, Answered(Classify(Get, x.flights[0].job.copy, reply)), x.tally, id);
      }
    case DoSend(_, _) =>
      if Exchanging(x, s.k, Cleared) {
        PhaseQuiet(x, Sent, Send(x, 0).tally, id);
      }
    case DoHearPut(_, _, reply) =>
      if Exchanging(x, s.k, Sent) {
        PhaseQuiet(x, Answered(Classify(Put, x.flights[0].job.copy, reply)), x.tally, id);
      }
    case DoGiveUp(_, _) =>
      PhaseQuiet(x, Answered(FAILED), x.tally, id);
  }

  lemma SettleQuiet(x: Node, k: nat, now: int, r: SaveResult, id: Id)
    requires CanSettleIntent(x, k) && |x.flights| == 1 && Quiet(x, id)
    ensures Silent(x, SettleIntent(x, k, now, r), id)
  {
  }

  lemma ExecutionQuiet(x: Node, k: nat, stopped: bool, result: Option<Bytes>, stored: SaveResult, now: int,
                       r: SaveResult, id: Id)
    requires Flying(x, k) && x.flights[k].job.CycleJob? && |x.flights| == 1 && Quiet(x, id)
    ensures Silent(x, SettleExecution(x, k, stopped, result, stored, now, r), id)
  {
    SettleCycleEffect(x.core, x.flights[k].job, stopped, result, stored, now, r);
    SettleCyclePublishes(x.core, x.flights[k].job, stopped, result, stored, now, r);
    hide SettleCycle;
  }

  lemma SettleCyclePublishes(c: Core, job: Job, stopped: bool, result: Option<Bytes>, stored: SaveResult, now: int,
                             r: SaveResult)
    requires job.CycleJob?
    ensures var d := SettleCycle(c, job, stopped, result, stored, now, r); d.disk == c.disk || d.disk == d.mem
  {
  }

  lemma StepQuiet(w: World, s: Step, n: nat, id: Id)
    requires Safe(w) && n in w.nodes && Quiet(w.nodes[n], id) && !Asks(s, n, id)
    ensures n in Apply(w, s).nodes && Silent(w.nodes[n], Apply(w, s).nodes[n], id)
  {
    OthersUntouched(w, s, n);
    if OfInstance(s) && s.n == n {
      assert Shaped(w.nodes[n], w.remote) by {
        HoldsOf(w, n);
        hide Sound, Books, Ran, Vouched, Accountable, Gated, FlightFits;
      }
      hide Safe, Shaped, Quiet, Silent;
      if s.DoCommand? {
        CommandQuiet(w, s, id);
      } else if IsSection(s) {
        SectionQuiet(w, s, w.nodes[n], id);
      } else if IsFlight(s) {
        FlightQuiet(w, s, w.nodes[n], id);
      } else {
        CommandQuiet(w, s, id);
      }
    }
  }

  lemma CommandQuiet(w: World, s: Step, id: Id)
    requires OfInstance(s) && s.n in w.nodes && (s.DoCommand? || s.DoBackup?)
    requires Quiet(w.nodes[s.n], id) && !Asks(s, s.n, id)
    ensures Silent(w.nodes[s.n], NodeStep(w, s, w.nodes[s.n]).nodes[s.n], id)
  {
    hide FreshId, Obey, NodeStep;
    Commanded(w, s, w.nodes[s.n]);
    if s.DoCommand? && (s.newId.None? || FreshId(w, s.newId.value)) {
      ObeyQuiet(w.nodes[s.n], w, s, id);
    }
  }

  /** No instance sends a PUT for an intent that is not approved there until an operator approves or
      retries it there: not after a crash that found it in flight, not after a restore, not ever. */
  lemma {:induction false} NothingUnasked(w: World, steps: seq<Step>, n: nat, id: Id)
    requires Safe(w) && n in w.nodes && Quiet(w.nodes[n], id)
    requires forall s <- steps :: !Asks(s, n, id)
    ensures n in Run(w, steps).nodes && Run(w, steps).nodes[n].tally.puts[id] == w.nodes[n].tally.puts[id]
    decreases |steps|
  {
    if steps != [] {
      hide Safe, Apply, Quiet, Asks;
      var v := Apply(w, steps[0]);
      StepSafe(w, steps[0]);
      StepQuiet(w, steps[0], n, id);
      NothingUnasked(v, steps[1..], n, id);
    }
  }
}
