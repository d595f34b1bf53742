/** internal/core/backup.go and internal/core/recovery.go: a restored mission stays behind its
    recovery gate until `ActivateRecovery`, and writes nothing that was authorized before. */
module Fencing {
  import opened Foundations
  import opened Kernel
  import opened Intents
  import opened Missions
  import opened Sections
  import opened Coherence
  import opened Destinations
  import opened World
  import opened Instance
  import opened Safety
  import opened Evolution
  import opened Theorems
  import opened Runs

  /** What `RestoreBackup` takes away is activity, readiness and the authorizations that were still open;
      it keeps everything else: identity, settings, progress, budgets, counters, receipts and decisions. */
  lemma RestoredKeeps(s: State, backup: Hash, script: string, workspace: string, now: int)
    ensures var t := RestoredState(s, backup, script, workspace, now);
            && RecoveredFrom(s, t, backup, script, workspace, now)
            && t.agentId == s.agentId && t.completed == s.completed && t.pending == s.pending && t.memory == s.memory
            && t.artifacts == s.artifacts && t.modelAttempts == s.modelAttempts && t.writes == s.writes
               && s.events <= t.events
            && !RecoveryReady(t) && t.recovery.value.originalStatus == s.status
            && !t.status.Active? && (Terminal(s.status) ==> t.status == s.status)
            && |t.actions| == |s.actions|
            && forall i :: 0 <= i < |s.actions| ==>
                 && t.actions[i].(status := s.actions[i].status) == s.actions[i]
                 && !t.actions[i].status.Approved?
                 && (s.actions[i].status.Proposed? || Final(s.actions[i].status) ==> t.actions[i] == s.actions[i])
  {
  }

  // ---------------------------------------------------------------- the gate stays shut

  predicate Shut(x: Node) {
    !RecoveryReady(x.core.mem) && !RecoveryReady(x.core.disk)
  }

  /** A section that leaves the gate alone and publishes its memory or nothing. */
  predicate KeepsGate(c: Core, d: Core) {
    d.mem.recovery == c.mem.recovery && (d.disk == c.disk || d.disk == d.mem)
  }

  lemma ControlKeepsGate(c: Core, action: Admin, now: int, r: SaveResult)
    ensures KeepsGate(c, ControlStep(c, action, now, r).0)
  {
  }

  lemma ActionControlKeepsGate(c: Core, command: Command, id: Id, hash: Fingerprint, payload: Payload,
                               newId: Option<Id>, now: int, r: SaveResult)
    ensures KeepsGate(c, ActionControlStep(c, command, id, hash, payload, newId, now, r).0)
  {
  }

  lemma BeginActionKeepsGate(c: Core, i: nat, readOnly: bool, now: int, r: SaveResult)
    requires i < |c.mem.actions|
    ensures KeepsGate(c, BeginAction(c, i, readOnly, now, r).0)
  {
    hide ValidActions, Reserved;
  }

  lemma SettlesKeepGate(c: Core, job: Job)
    ensures job.ActionJob? && job.index < |c.mem.actions| ==>
              forall out, now, r :: KeepsGate(c, SettleAction(c, job, out, now, r))
    ensures job.CycleJob? ==>
              forall stopped, result, stored, now,
                r :: KeepsGate(c, SettleCycle(c, job, stopped, result, stored, now, r))
  {
  }

  lemma FlightShut(w: World, s: Step, x: Node)
    requires OfInstance(s) && s.n in w.nodes && x == w.nodes[s.n] && Shut(x) && IsFlight(s)
    ensures Shut(NodeStep(w, s, x).nodes[s.n])
  {
    if (s.DoSettleIntent? || s.DoSettleCycle?) && Flying(x, s.k) {
      SettlesKeepGate(x.core, x.flights[s.k].job);
    }
    hide SettleAction, SettleCycle, Classify, Clears, MayArrive, RecoveryReady;
  }

  lemma SectionShut(w: World, s: Step, x: Node)
    requires OfInstance(s) && s.n in w.nodes && x == w.nodes[s.n] && Shut(x) && !s.DoActivate? && !IsFlight(s)
    ensures Shut(NodeStep(w, s, x).nodes[s.n])
  {
    var c := x.core;
    if s.DoAdmin? {
      ControlKeepsGate(c, s.action, s.now, s.r);
    } else if s.DoCommand? {
      ActionControlKeepsGate(c, s.command, s.id, s.hash, s.payload, s.newId, s.now, s.r);
    } else if s.DoRunAction? && Position(c.mem.actions, s.id) >= 0 {
      BeginActionKeepsGate(c, Position(c.mem.actions, s.id), s.readOnly, s.now, s.r);
    }
    hide ControlStep, ActionControlStep, BeginAction, BeginCycle, Loadable, FreshId, Bind, Referenced;
  }

  lemma {:induction false} RunShut(w: World, steps: seq<Step>, n: nat)
    requires n in w.nodes && Shut(w.nodes[n])
    requires forall s <- steps :: !(s.DoActivate? && s.n == n)
    ensures n in Run(w, steps).nodes && Shut(Run(w, steps).nodes[n])
    decreases |steps|
  {
    if steps != [] {
      var s := steps[0];
      OthersUntouched(w, s, n);
      if OfInstance(s) && s.n == n {
        if IsFlight(s) {
          FlightShut(w, s, w.nodes[n]);
        } else {
          SectionShut(w, s, w.nodes[n]);
        }
      }
      hide Shut, NodeStep;
      RunShut(Apply(w, s), steps[1..], n);
    }
  }

  // ---------------------------------------------------------------- a restored instance

  predicate Restores(w: World, s: Step) {
    s.DoRestore? && s.n !in w.nodes && s.n in Apply(w, s).nodes
  }

  lemma RestoredNode(past: seq<Step>, s: Step)
    requires Restores(Run(EMPTY, past), s)
    ensures Run(EMPTY, past + [s]) == Apply(Run(EMPTY, past), s)
    ensures var w := Run(EMPTY, past);
            && s.source < |w.archives|
            && Apply(w, s).nodes[s.n]
               == NewNode(RestoredState(w.archives[s.source].state, s.backup, s.script, s.workspace, s.now),
                                                 w.archives[s.source].files)
  {
    RunSplits(EMPTY, past, [s]);
    RunOne(Run(EMPTY, past), s);
    hide Run, RestoredState, AbsolutePath;
  }

  /** From the moment of a restore until `ActivateRecovery` at that instance: never active, nothing
      authorized, no PUT sent, no cycle executed. */
  lemma NothingBeforeActivation(past: seq<Step>, s: Step, future: seq<Step>)
    requires Restores(Run(EMPTY, past), s)
    requires forall t <- future :: !(t.DoActivate? && t.n == s.n)
    ensures var later := Run(EMPTY, past + [s] + future);
            && s.n in later.nodes
            && var x := later.nodes[s.n];
               && !RecoveryReady(x.core.disk) && !x.core.disk.status.Active? && !x.core.mem.status.Active?
               && x.tally.auths == multiset{} && x.tally.puts == multiset{} && x.execs == []
               && forall f <- x.flights :: OnlyLooks(f)
  {
    hide Run, Apply, Shaped, Sound, Books, Vouched, Ran, Accountable, RestoredState;
    var w := Run(EMPTY, past);
    RestoredNode(past, s);
    RestoredKeeps(w.archives[s.source].state, s.backup, s.script, s.workspace, s.now);
    RunSplits(EMPTY, past + [s], future);
    RunShut(Apply(w, s), future, s.n);
    AnyNode(past + [s] + future, s.n);
    hide Loadable, LedgerAgrees, Provisioned;
  }

  /** After a restore, also after activation, an intent is sent only once an operator has approved or
      retried it at the restored instance. */
  lemma RestoreNeedsNewCommand(past: seq<Step>, s: Step, future: seq<Step>, id: Id)
    requires Restores(Run(EMPTY, past), s)
    requires forall t <- future :: !Asks(t, s.n, id)
    ensures var later := Run(EMPTY, past + [s] + future);
            s.n in later.nodes && later.nodes[s.n].tally.puts[id] == 0
  {
    hide Run, Apply, RestoredState;
    var w := Run(EMPTY, past);
    RestoredNode(past, s);
    RestoredKeeps(w.archives[s.source].state, s.backup, s.script, s.workspace, s.now);
    RestartOnlyAsks(past + [s], future, s.n, id);
  }
}
