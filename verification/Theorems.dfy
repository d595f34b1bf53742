/** What holds after every run from the empty world: the promises of the mission controller, its
    write-intent protocol and the destination, read off from the invariant. */
module Theorems {
  import opened Foundations
  import opened Kernel
  import opened Intents
  import opened Missions
  import opened Json
  import opened Sections
  import opened Coherence
  import opened Destinations
  import opened World
  import opened Instance
  import opened Safety
  import opened Evolution
  import opened Runs

  lemma AnyRunSafe(steps: seq<Step>)
    ensures Safe(Run(EMPTY, steps))
  {
    hide Safe, Run;
    EmptySafe();
    RunSafe(EMPTY, steps);
  }

  lemma AnyNode(steps: seq<Step>, n: nat)
    requires n in Run(EMPTY, steps).nodes
    ensures var w := Run(EMPTY, steps);
            var x := w.nodes[n];
            && Shaped(x, w.remote) && Sound(x.core) && Consistent(x.core.disk) && Consistent(x.core.mem)
            && Vouched(x.core.disk.actions, w.bound, w.remote) && Books(x.core.disk.actions, x.tally, x.flights)
            && Accountable(x.tally, x.core.disk.actions) && Ran(x.execs, x.core.disk) && Gated(x)
  {
    hide Safe, Run, Holds, Shaped, Sound, Vouched, Books, Ran, Accountable, Gated, Consistent;
    var w := Run(EMPTY, steps);
    AnyRunSafe(steps);
    HoldsOf(w, n);
    Parts(w.nodes[n], w.bound, w.remote);
    SoundParts(w.nodes[n].core);
  }

  // ---------------------------------------------------------------- end to end

  /** What the destination holds for an intent of any instance is what that intent was bound to at
      its proposal; and once an instance has recorded success, the record is there for good. */
  lemma EndToEnd(past: seq<Step>, future: seq<Step>, n: nat, i: nat)
    requires n in Run(EMPTY, past).nodes && i < |Run(EMPTY, past).nodes[n].core.disk.actions|
    ensures var a := Run(EMPTY, past).nodes[n].core.disk.actions[i];
            var later := Run(EMPTY, past + future);
            && a.id in later.bound && later.bound[a.id] == a.digest
            && (a.id in later.remote ==> later.remote[a.id] == Record(a.digest, a.payload))
            && (a.status.Succeeded? ==> a.id in later.remote)
  {
    hide Run, Sound, Books, Ran, Accountable, Gated, Consistent;
    var w := Run(EMPTY, past);
    var a := w.nodes[n].core.disk.actions[i];
    AnyNode(past, n);
    IntentFacts(w.nodes[n].core.disk, i);
    assert VouchedIntent(a, w.bound, w.remote);
    RunSplits(EMPTY, past, future);
    RunGrows(w, future);
    RecordsMatch(past + future, a.id);
    hide ValidActions, Vouched, Provisioned;
  }

  lemma RecordsMatch(steps: seq<Step>, id: Id)
    ensures var w := Run(EMPTY, steps);
            id in w.remote && id in w.bound ==> w.remote[id] == Record(w.bound[id], w.bound[id].payload)
  {
    hide Run, Instances, Archives, Faithful, Honest;
    AnyRunSafe(steps);
  }

  /** Every copy of a mission means the same thing by the same identifier. */
  lemma CopiesAgree(steps: seq<Step>, m: nat, i: nat, n: nat, j: nat)
    requires m in Run(EMPTY, steps).nodes && i < |Run(EMPTY, steps).nodes[m].core.disk.actions|
    requires n in Run(EMPTY, steps).nodes && j < |Run(EMPTY, steps).nodes[n].core.disk.actions|
    ensures var a := Run(EMPTY, steps).nodes[m].core.disk.actions[i];
            var b := Run(EMPTY, steps).nodes[n].core.disk.actions[j];
            a.id == b.id ==> a.digest == b.digest && a.payload == b.payload
  {
    hide Run;
    assert steps + [] == steps;
    EndToEnd(steps, [], m, i);
    EndToEnd(steps, [], n, j);
    PayloadOf(steps, m, i);
    PayloadOf(steps, n, j);
  }

  lemma PayloadOf(steps: seq<Step>, n: nat, i: nat)
    requires n in Run(EMPTY, steps).nodes && i < |Run(EMPTY, steps).nodes[n].core.disk.actions|
    ensures var a := Run(EMPTY, steps).nodes[n].core.disk.actions[i]; a.digest.payload == a.payload
  {
    hide Run, Sound, Books, Ran, Accountable, Gated, Consistent, Vouched, Shaped;
    AnyNode(steps, n);
    IntentFacts(Run(EMPTY, steps).nodes[n].core.disk, i);
    hide ValidActions, Provisioned;
  }

  /** However late, duplicated or reordered a PUT of any instance reaches the destination, it never
      conflicts. It is accepted or replayed, unless the database fails, exactly if the service takes
      its payload, which for a proposed payload means that neither field consists of separators. */
  lemma PutsNeverConflict(steps: seq<Step>, e: Envelope, fault: bool)
    requires e in Run(EMPTY, steps).sent
    ensures var w := Run(EMPTY, steps);
            var (records, reply) := PutEffect(w.remote, e.actionId, e, fault);
            && e.actionId in w.bound
            && reply == (if Stripped(e.payload.name) || Stripped(e.payload.content) then Http(400, None)
                         else if fault then Http(503, None)
                         else Http(if e.actionId in w.remote then 200 else 201, Some(ReceiptFor(e.actionId, e.digest))))
            && records == (if reply.body.Some?
                           then w.remote[e.actionId := Record(w.bound[e.actionId], w.bound[e.actionId].payload)]
                           else w.remote)
  {
    hide Run, Instances, Archives, Honest, RoutedId, Stripped, Blank;
    var w := Run(EMPTY, steps);
    AnyRunSafe(steps);
    assert Faithful(e, w.bound);
    if e.actionId in w.remote {
      assert w.remote == w.remote[e.actionId := w.remote[e.actionId]];
    }
  }

  // ---------------------------------------------------------------- write ahead

  /** For every intent on disk: the PUTs ever sent by its instance are covered by durable attempts,
      by the policy and by operator commands, and the GETs by durable checks; and an approved intent
      can still be carried out. */
  lemma WriteAhead(steps: seq<Step>, n: nat, i: nat)
    requires n in Run(EMPTY, steps).nodes && i < |Run(EMPTY, steps).nodes[n].core.disk.actions|
    ensures var x := Run(EMPTY, steps).nodes[n];
            var a := x.core.disk.actions[i];
            && x.core.disk.writes.Some?
            && x.tally.puts[a.id] <= a.attempts <= x.core.disk.writes.value.maxAttempts
            && x.tally.puts[a.id] <= x.tally.auths[a.id]
            && x.tally.gets[a.id] <= a.checks <= MAX_CHECKS
            && (a.status.Approved? ==> a.attempts < x.core.disk.writes.value.maxAttempts && a.checks < MAX_CHECKS
                                       && x.tally.puts[a.id] < x.tally.auths[a.id])
            && (a.status.Proposed? || a.status.Rejected? ==> x.tally.puts[a.id] == 0)
  {
    hide Run, Sound, Vouched, Ran, Accountable, Gated, Consistent, Shaped;
    var x := Run(EMPTY, steps).nodes[n];
    AnyNode(steps, n);
    IntentFacts(x.core.disk, i);
    assert Covered(x.core.disk.actions[i], x.tally, x.flights);
    hide ValidActions;
  }

  lemma TallyGrows(w: World, s: Step, n: nat)
    requires n in w.nodes
    ensures n in Apply(w, s).nodes && w.nodes[n].tally.puts <= Apply(w, s).nodes[n].tally.puts
  {
    OthersUntouched(w, s, n);
    hide ControlStep, ActionControlStep, RunActionStep, BeginStep, ActivateStep, SettleAction, SettleCycle, Loadable,
         Bind,
         FreshId, Referenced, Classify, Clears, MayArrive, PutEffect, GetReply, NewMission, RestoredState, ValidInit;
  }

  /** Every PUT in transit was counted by the instance that sent it. */
  ghost predicate Tallied(w: World) {
    forall e <- w.sent :: SentBySome(w, e.actionId)
  }

  ghost predicate SentBySome(w: World, id: Id) {
    exists n :: n in w.nodes && w.nodes[n].tally.puts[id] > 0
  }

  lemma SentStays(w: World, s: Step, id: Id)
    requires SentBySome(w, id)
    ensures SentBySome(Apply(w, s), id)
  {
    hide Apply;
    var n :| n in w.nodes && w.nodes[n].tally.puts[id] > 0;
    TallyGrows(w, s, n);
  }

  /** What a sent PUT adds to the messages and to the tally. */
  lemma SendTallied(w: World, s: Step)
    requires s.DoSend? && s.n in w.nodes && Exchanging(w.nodes[s.n], s.k, Cleared)
    ensures var id := w.nodes[s.n].flights[s.k].job.copy.id;
            && Apply(w, s).sent == w.sent + {EnvelopeOf(w.nodes[s.n].flights[s.k].job.copy)}
            && s.n in Apply(w, s).nodes
            && Apply(w, s).nodes[s.n].tally.puts[id] == w.nodes[s.n].tally.puts[id] + 1
  {
  }

  lemma SentOnlyBySend(w: World, s: Step)
    requires !(s.DoSend? && s.n in w.nodes && Exchanging(w.nodes[s.n], s.k, Cleared))
    ensures Apply(w, s).sent == w.sent
  {
    hide ControlStep, ActionControlStep, RunActionStep, BeginStep, ActivateStep, SettleAction, SettleCycle, Loadable,
         Bind,
         FreshId, Referenced, Classify, Clears, MayArrive, PutEffect, GetReply, NewMission, RestoredState, ValidInit;
  }

  lemma StepTallied(w: World, s: Step)
    requires Tallied(w)
    ensures Tallied(Apply(w, s))
  {
    hide Apply, SentBySome;
    var v := Apply(w, s);
    forall e | e in w.sent
      ensures SentBySome(v, e.actionId)
    {
      SentStays(w, s, e.actionId);
    }
    if s.DoSend? && s.n in w.nodes && Exchanging(w.nodes[s.n], s.k, Cleared) {
      SendTallied(w, s);
      SentHere(v, s.n, w.nodes[s.n].flights[s.k].job.copy.id);
    } else {
      SentOnlyBySend(w, s);
    }
  }

  lemma SentHere(w: World, n: nat, id: Id)
    requires n in w.nodes && w.nodes[n].tally.puts[id] > 0
    ensures SentBySome(w, id)
  {
  }

  lemma {:induction false} RunTallied(w: World, steps: seq<Step>)
    requires Tallied(w)
    ensures Tallied(Run(w, steps))
    decreases |steps|
  {
    if steps != [] {
      hide Apply, Tallied;
      StepTallied(w, steps[0]);
      RunTallied(Apply(w, steps[0]), steps[1..]);
    }
  }

  /** Every PUT in transit was sent by an instance that has the intent on disk and paid for it. */
  lemma SentIsPaid(steps: seq<Step>, e: Envelope)
    requires e in Run(EMPTY, steps).sent
    ensures var w := Run(EMPTY, steps);
            exists n, i :: n in w.nodes && 0 <= i < |w.nodes[n].core.disk.actions|
                           && w.nodes[n].core.disk.actions[i].id == e.actionId
                           && w.nodes[n].core.disk.actions[i].digest == e.digest
                           && w.nodes[n].core.disk.actions[i].attempts > 0 && w.nodes[n].tally.auths[e.actionId] > 0
  {
    hide Run;
    var w := Run(EMPTY, steps);
    RunTallied(EMPTY, steps);
    assert SentBySome(w, e.actionId);
    var n :| n in w.nodes && w.nodes[n].tally.puts[e.actionId] > 0;
    NothingOffTheBooks(steps, n, e.actionId);
    var i :| 0 <= i < |w.nodes[n].core.disk.actions| && w.nodes[n].core.disk.actions[i].id == e.actionId;
    WriteAhead(steps, n, i);
    assert steps + [] == steps;
    EndToEnd(steps, [], n, i);
    SentFaithful(steps, e);
  }

  lemma SentFaithful(steps: seq<Step>, e: Envelope)
    requires e in Run(EMPTY, steps).sent
    ensures Faithful(e, Run(EMPTY, steps).bound)
  {
    hide Run, Instances, Archives, Honest, Faithful;
    AnyRunSafe(steps);
  }

  /** Nothing is ever sent for an identifier that is not in a durable intent of that instance. */
  lemma NothingOffTheBooks(steps: seq<Step>, n: nat, id: Id)
    requires n in Run(EMPTY, steps).nodes
    requires id in Run(EMPTY, steps).nodes[n].tally.puts || id in Run(EMPTY, steps).nodes[n].tally.gets
    ensures var actions := Run(EMPTY, steps).nodes[n].core.disk.actions;
            exists i :: 0 <= i < |actions| && actions[i].id == id
  {
    hide Run, Sound, Vouched, Ran, Books, Gated, Consistent, Shaped;
    AnyNode(steps, n);
    var actions := Run(EMPTY, steps).nodes[n].core.disk.actions;
    assert actions[Position(actions, id)].id == id;
  }

  /** When a PUT may leave, its intent is on disk: approved, marked in flight, with an attempt and an
      authorization that no earlier PUT used. */
  lemma MarkerFirst(steps: seq<Step>, n: nat, k: nat)
    requires n in Run(EMPTY, steps).nodes && Exchanging(Run(EMPTY, steps).nodes[n], k, Cleared)
    ensures var x := Run(EMPTY, steps).nodes[n];
            var job := x.flights[k].job;
            && job.index < |x.core.disk.actions| && job.copy == x.core.disk.actions[job.index]
            && job.copy.status.InFlight? && job.copy.approved == Some(job.copy.digest)
            && x.tally.puts[job.copy.id] < job.copy.attempts && x.tally.puts[job.copy.id] < x.tally.auths[job.copy.id]
            && RecoveryReady(x.core.disk)
  {
    hide Run, Sound, Vouched, Ran, Accountable, Consistent;
    var w := Run(EMPTY, steps);
    var x := w.nodes[n];
    AnyNode(steps, n);
    OneFlight(x, k, w.remote);
    MarkedOnDisk(x, k, w.remote);
    var job := x.flights[k].job;
    assert x.flights[0] in x.flights && job.allowWrite;
    IntentFacts(x.core.disk, job.index);
    assert Covered(x.core.disk.actions[job.index], x.tally, x.flights);
    hide Shaped, FlightFits, ValidActions, Books;
  }

  /** A stopped instance asks about the intents it left in flight, but writes nothing for an intent
      that is not approved on disk until an operator approves or retries it there. */
  lemma RestartOnlyAsks(past: seq<Step>, future: seq<Step>, n: nat, id: Id)
    requires n in Run(EMPTY, past).nodes && !Run(EMPTY, past).nodes[n].up
    requires Unapproved(Run(EMPTY, past).nodes[n].core.disk.actions, id)
    requires forall s <- future :: !Asks(s, n, id)
    ensures var later := Run(EMPTY, past + future);
            n in later.nodes && later.nodes[n].tally.puts[id] == Run(EMPTY, past).nodes[n].tally.puts[id]
  {
    hide Run, Safe;
    var w := Run(EMPTY, past);
    AnyRunSafe(past);
    assert Quiet(w.nodes[n], id) by {
      AnyNode(past, n);
      hide Sound, Consistent, Vouched, Books, Ran, Accountable, Gated, FlightFits;
    }
    hide Unapproved;
    RunSplits(EMPTY, past, future);
    NothingUnasked(w, future, n, id);
  }

  // ---------------------------------------------------------------- coherence and the ledger

  /** The memory is the JSON value of the newest artifact's file, and reading it back changes nothing. */
  lemma MemoryReads(s: State, files: map<Hash, Bytes>)
    requires LedgerAgrees(s) && Readable(s, files) && Addressed(files)
    ensures s.artifacts != [] ==>
              var last := s.artifacts[|s.artifacts| - 1]; last.hash in files && s.memory == Canonical(files[last.hash])
    ensures Canonical(s.memory) == s.memory
  {
    hide Canonical, CompletedCycles, UpTo, LastCompletion;
    if s.artifacts == [] {
      CanonicalStable([]);
      EmptyCanonical();
    } else {
      var last := s.artifacts[|s.artifacts| - 1];
      assert ReadsBack(last, files);
      CanonicalStable(last.hash.preimage);
    }
  }

  lemma EmptyCanonical()
    ensures Canonical([]) == []
  {
  }

  /** Whenever the mutex is free: no fatal error means that the disk is the memory; the disk loads,
      its ledger agrees with itself, and everything it refers to reads back. The memory is the JSON text
      of the newest artifact, however the snapshot file spaces it. */
  lemma Durable(steps: seq<Step>, n: nat)
    requires n in Run(EMPTY, steps).nodes
    ensures var x := Run(EMPTY, steps).nodes[n];
            && (!x.core.fatal ==> x.core.disk == x.core.mem)
            && Loadable(x.core.disk) && Start(x).up
            && LedgerAgrees(x.core.disk)
            && Readable(x.core.disk, x.core.files) && Addressed(x.core.files)
            && (x.core.disk.artifacts != [] ==>
                  var last := x.core.disk.artifacts[|x.core.disk.artifacts| - 1];
                  last.hash in x.core.files && x.core.disk.memory == Canonical(x.core.files[last.hash]))
            && Canonical(x.core.disk.memory) == x.core.disk.memory
            && (forall text :: Respaced(text, x.core.disk.memory) ==> Canonical(text) == x.core.disk.memory)
            && (x.core.disk.cognition.Some? ==> x.core.disk.modelAttempts <= x.core.disk.cognition.value.maxCalls)
  {
    hide Run, Vouched, Books, Ran, Accountable, Gated, LedgerAgrees, Readable, Addressed, Evolves, FlightFits, Shaped,
         Loadable;
    AnyNode(steps, n);
    MemoryReads(Run(EMPTY, steps).nodes[n].core.disk, Run(EMPTY, steps).nodes[n].core.files);
    SpacingForgotten(Run(EMPTY, steps).nodes[n].core.disk.memory);
  }

  /** The text as a snapshot file may space it. */
  predicate Respaced(text: Bytes, memory: Bytes) {
    Dense(text, Outside) == Dense(memory, Outside)
  }

  lemma SpacingForgotten(memory: Bytes)
    requires Canonical(memory) == memory
    ensures forall text :: Respaced(text, memory) ==> Canonical(text) == memory
  {
    forall text | Respaced(text, memory)
      ensures Canonical(text) == memory
    {
      SpacingInvisible(text, memory);
    }
  }

  /** A backup of any instance at any moment restores to a mission that loads, with its artifacts. */
  lemma BackupsRestore(steps: seq<Step>, k: nat, backup: Hash, script: string, workspace: string, now: int)
    requires k < |Run(EMPTY, steps).archives| && AbsolutePath(script) && AbsolutePath(workspace)
    ensures var a := Run(EMPTY, steps).archives[k];
            var s := RestoredState(a.state, backup, script, workspace, now);
            && Loadable(a.state) && Loadable(s) && LedgerAgrees(s) && Readable(s, a.files) && Addressed(a.files)
  {
    var w := Run(EMPTY, steps);
    AnyRunSafe(steps);
    assert Restorable(w.archives[k], w.bound, w.remote) by {
      hide Instances, Network, Restorable, Run;
    }
    hide Run, Safe, Addressed, LedgerAgrees, Loadable, Vouched, AbsolutePath;
    RestoredConsistent(w.archives[k].state, backup, script, workspace, now);
  }

  /** Every request that an executor was started with named a cycle of this mission, at most the one
      after the last confirmed, in an order that never goes back, and was paid for from the durable budget. */
  lemma ExecutionsPaid(steps: seq<Step>, n: nat)
    requires n in Run(EMPTY, steps).nodes
    ensures var x := Run(EMPTY, steps).nodes[n];
            && (forall i :: 0 <= i < |x.execs| ==> NamesCycle(x.execs[i], x.core.disk))
            && (forall i, j :: 0 <= i <= j < |x.execs| ==> x.execs[i].cycle <= x.execs[j].cycle)
            && (x.core.disk.cognition.Some? ==>
                  |x.execs| <= x.core.disk.modelAttempts <= x.core.disk.cognition.value.maxCalls)
  {
    hide Run, Vouched, Books, Accountable, Gated, Shaped, Sound, Ordered;
    AnyNode(steps, n);
    var x := Run(EMPTY, steps).nodes[n];
    assert forall i :: 0 <= i < |x.execs| ==> NamesCycle(x.execs[i], x.core.disk);
  }

  /** What a step starts is the cycle after the last one that the disk confirms. */
  lemma StepStartsNext(x: Node, now: int, r: SaveResult, bound: map<Id, Fingerprint>, remote: Records)
    requires Holds(x, bound, remote) && x.up
    ensures var y := Launch(x, BeginStep(x.core, now, r));
            y.execs == x.execs || y.execs == x.execs + [CycleName(x.core.disk.agentId, x.core.disk.completed + 1)]
  {
    hide Holds, Sound, Consistent, BeginAction, BeginCycle;
    Parts(x, bound, remote);
    SoundParts(x.core);
    if !x.core.fatal && !x.core.running && x.core.mem.status.Active? {
      ActiveHasCyclesLeft(x.core.mem);
      BeginCycleEffect(x.core, now, r);
    }
    hide Shaped, Evolves, Vouched, Books, Ran, Accountable, Gated;
  }

  /** No other step of an instance starts a cycle. */
  lemma OnlyStepExecutes(w: World, s: Step, x: Node)
    requires OfInstance(s) && s.n in w.nodes && x == w.nodes[s.n] && (!s.DoStep? || !x.up)
    ensures NodeStep(w, s, x).nodes[s.n].execs == x.execs
  {
    hide ControlStep, ActionControlStep, BeginAction, BeginStep, ActivateStep, SettleAction, SettleCycle, Loadable,
         Bind,
         FreshId, Referenced, Classify, Clears, MayArrive;
  }

  lemma StepExecutes(w: World, s: Step, n: nat)
    requires Safe(w) && n in w.nodes
    ensures n in Apply(w, s).nodes
    ensures var x, y := w.nodes[n], Apply(w, s).nodes[n];
            y.execs == x.execs || y.execs == x.execs + [CycleName(x.core.disk.agentId, x.core.disk.completed + 1)]
  {
    hide Safe, Holds, BeginStep, Launch;
    OthersUntouched(w, s, n);
    if OfInstance(s) && s.n == n {
      if s.DoStep? && w.nodes[n].up {
        HoldsOf(w, n);
        StepStartsNext(w.nodes[n], s.now, s.r, w.bound, w.remote);
      } else {
        OnlyStepExecutes(w, s, w.nodes[n]);
        hide NodeStep;
      }
    }
  }

  /** Every entry from `from` on names a cycle of `s` after the confirmed ones. */
  ghost predicate NamesLater(execs: seq<Pending>, from: nat, s: State) {
    forall i :: from <= i < |execs| ==>
        execs[i].CycleName? && execs[i].agent == s.agentId && execs[i].cycle > s.completed
  }

  lemma LaterStill(a: seq<Pending>, b: seq<Pending>, c: seq<Pending>, s: State, t: State)
    requires a <= b <= c && Evolves(s, t) && NamesLater(b, |a|, s) && NamesLater(c, |b|, t)
    ensures a <= c && NamesLater(c, |a|, s)
  {
    forall i | |a| <= i < |c|
      ensures c[i].CycleName? && c[i].agent == s.agentId && c[i].cycle > s.completed
    {
      assert i < |b| ==> c[i] == b[i];
    }
  }

  /** What executors were started with from `x` to `y`. */
  ghost predicate Continued(x: Node, y: Node) {
    x.execs <= y.execs && NamesLater(y.execs, |x.execs|, x.core.disk)
  }

  lemma StepContinued(w: World, s: Step, n: nat)
    requires Safe(w) && n in w.nodes
    ensures n in Apply(w, s).nodes && Continued(w.nodes[n], Apply(w, s).nodes[n])
  {
    hide Safe, Apply;
    StepExecutes(w, s, n);
  }

  lemma ContinuedItself(x: Node)
    ensures Continued(x, x)
  {
  }

  lemma ContinuedTwice(x: Node, y: Node, z: Node)
    requires Continued(x, y) && Continued(y, z) && Evolves(x.core.disk, y.core.disk)
    ensures Continued(x, z)
  {
    LaterStill(x.execs, y.execs, z.execs, x.core.disk, y.core.disk);
  }

  lemma {:induction false} RunExecutes(w: World, steps: seq<Step>, n: nat)
    requires Safe(w) && n in w.nodes
    ensures n in Run(w, steps).nodes && Continued(w.nodes[n], Run(w, steps).nodes[n])
    decreases |steps|
  {
    hide Safe, Apply, Evolves, Continued;
    if steps == [] {
      ContinuedItself(w.nodes[n]);
    } else {
      var v := Apply(w, steps[0]);
      StepSafe(w, steps[0]);
      StepEvolves(w, steps[0], n);
      StepContinued(w, steps[0], n);
      RunExecutes(v, steps[1..], n);
      ContinuedTwice(w.nodes[n], v.nodes[n], Run(v, steps[1..]).nodes[n]);
    }
  }

  /** A confirmed cycle is never executed again: whatever an instance starts from any moment on names a
      cycle after those that its disk confirms at that moment. */
  lemma ConfirmedNeverRerun(past: seq<Step>, future: seq<Step>, n: nat)
    requires n in Run(EMPTY, past).nodes
    ensures var x, later := Run(EMPTY, past).nodes[n], Run(EMPTY, past + future);
            && n in later.nodes && x.execs <= later.nodes[n].execs
            && forall i :: |x.execs| <= i < |later.nodes[n].execs| ==>
                 var name := later.nodes[n].execs[i];
                 name.CycleName? && name.agent == x.core.disk.agentId && name.cycle > x.core.disk.completed
  {
    hide Run, Safe;
    AnyRunSafe(past);
    RunSplits(EMPTY, past, future);
    RunExecutes(Run(EMPTY, past), future, n);
  }

  lemma {:induction false} CompletionsGrow(a: seq<Event>, b: seq<Event>)
    requires a <= b
    ensures |CompletedCycles(a)| <= |CompletedCycles(b)|
    ensures |CompletedCycles(a)| == |CompletedCycles(b)| ==> LastCompletion(a) == LastCompletion(b)
    decreases |b|
  {
    if |a| == |b| {
      assert a == b;
    } else {
      CompletionsGrow(a, b[..|b| - 1]);
    }
  }

  lemma {:induction false} UpToLength(n: nat)
    ensures |UpTo(n)| == n
  {
    if n > 0 {
      UpToLength(n - 1);
    }
  }

  /** What a start says about the clock. */
  lemma StartIsDue(x: Node, now: int, r: SaveResult, bound: map<Id, Fingerprint>, remote: Records)
    requires Holds(x, bound, remote) && x.up && Launch(x, BeginStep(x.core, now, r)).execs != x.execs
    ensures now >= x.core.disk.nextRun && Paced(x.core.disk)
  {
    hide Holds, Sound, Consistent, BeginAction, BeginCycle;
    Parts(x, bound, remote);
    SoundParts(x.core);
    assert Paced(x.core.disk) by {
      ConsistentLedger(x.core.disk);
    }
    hide Shaped, Evolves, Vouched, Books, Ran, Accountable, Gated;
  }

  lemma ConsistentLedger(s: State)
    requires Consistent(s)
    ensures LedgerAgrees(s)
  {
    hide LedgerAgrees, Loadable;
  }

  /** Between the completion of a cycle and the start of the next one lies at least the delay, which is the
      interval if that is at most `LONGEST_INTERVAL`, however much later and after however many crashes,
      pauses and restarts the start happens: a start is at least a delay after the newest completion on
      record, and as long as no further cycle is confirmed that is the completion that was on record before. */
  lemma StartsSpaced(past: seq<Step>, future: seq<Step>, n: nat, now: int, r: SaveResult)
    requires n in Run(EMPTY, past).nodes && n in Run(EMPTY, past + future).nodes
    requires var y := Run(EMPTY, past + future).nodes[n]; y.up && Launch(y, BeginStep(y.core, now, r)).execs != y.execs
    ensures var s, t := Run(EMPTY, past).nodes[n].core.disk, Run(EMPTY, past + future).nodes[n].core.disk;
            && (t.completed > 0 ==>
                  LastCompletion(t.events).Some?
                    && KeepsDelay(LastCompletion(t.events).value, t.protocol.intervalSeconds, now))
            && (t.completed == s.completed > 0 ==>
                  LastCompletion(s.events).Some?
                    && KeepsDelay(LastCompletion(s.events).value, s.protocol.intervalSeconds, now))
  {
    hide Run, Safe, Holds, BeginStep, Launch, Evolves, LedgerAgrees, Delay;
    var w, v := Run(EMPTY, past), Run(EMPTY, past + future);
    var s, t := w.nodes[n].core.disk, v.nodes[n].core.disk;
    AnyRunSafe(past + future);
    HoldsOf(v, n);
    StartIsDue(v.nodes[n], now, r, v.bound, v.remote);
    AnyRunSafe(past);
    RunSplits(EMPTY, past, future);
    DiskEvolves(w, future, n);
    SameCompletion(past, past + future, n);
    DelayMeaning(t.protocol.intervalSeconds);
  }

  lemma IntervalPositive(s: State)
    requires Loadable(s)
    ensures s.protocol.intervalSeconds >= 1
  {
    hide ValidActions, ValidCognition;
  }

  /** A start at `now` is a delay after a completion at `at`, and an interval if that does not wrap. */
  predicate KeepsDelay(at: int, interval: int, now: int) {
    now >= at + Delay(interval) && (interval <= LONGEST_INTERVAL ==> now >= at + interval * SECOND)
  }

  lemma SameCompletion(past: seq<Step>, later: seq<Step>, n: nat)
    requires n in Run(EMPTY, past).nodes && n in Run(EMPTY, later).nodes
    requires Evolves(Run(EMPTY, past).nodes[n].core.disk, Run(EMPTY, later).nodes[n].core.disk)
    ensures var s, t := Run(EMPTY, past).nodes[n].core.disk, Run(EMPTY, later).nodes[n].core.disk;
            && t.protocol == s.protocol && s.protocol.intervalSeconds >= 1 && s.completed >= 0 && Paced(s)
            && (t.completed == s.completed ==> LastCompletion(t.events) == LastCompletion(s.events))
  {
    hide Run, Loadable, Readable, Addressed, Start, UpTo;
    Durable(past, n);
    Durable(later, n);
    var s, t := Run(EMPTY, past).nodes[n].core.disk, Run(EMPTY, later).nodes[n].core.disk;
    IntervalPositive(s);
    UpToLength(s.completed);
    UpToLength(t.completed);
    CompletionsGrow(s.events, t.events);
    hide CompletedCycles, LastCompletion, MemoryIsLast;
  }

  /** One job at a time, also after pause and resume; and a cycle never runs beside an open intent. */
  lemma OneJobAndBarrier(steps: seq<Step>, n: nat)
    requires n in Run(EMPTY, steps).nodes
    ensures var x := Run(EMPTY, steps).nodes[n];
            && |x.flights| <= 1 && (x.core.running <==> x.flights != [])
            && (forall k :: 0 <= k < |x.flights| && x.flights[k].job.CycleJob? ==>
                  forall i :: 0 <= i < |x.core.disk.actions| ==> Final(x.core.disk.actions[i].status))
  {
    hide Run, Vouched, Books, Accountable, Gated, Sound, Ordered, Ran, Consistent;
    AnyNode(steps, n);
  }

  // ---------------------------------------------------------------- late results

  /** Whatever `Control` changes, it changes the epoch too. */
  lemma ControlBumpsEpoch(c: Core, action: Admin, now: int, r: SaveResult)
    ensures ControlStep(c, action, now, r).0 == c || ControlStep(c, action, now, r).0.epoch == c.epoch + 1
  {
  }

  /** A result enters the mission only from `active`, in the epoch of its job and on top of the very
      snapshot that the job left behind; any other late result leaves memory and disk alone, or
      pauses the mission when the executor failed. */
  lemma LateResultsDropped(steps: seq<Step>, n: nat, k: nat, stopped: bool, result: Option<Bytes>, stored: SaveResult,
                           now: int, r: SaveResult)
    requires n in Run(EMPTY, steps).nodes && Flying(Run(EMPTY, steps).nodes[n], k)
             && Run(EMPTY, steps).nodes[n].flights[k].job.CycleJob?
    ensures var x := Run(EMPTY, steps).nodes[n];
            var f := x.flights[k];
            var y := SettleExecution(x, k, stopped, result, stored, now, r);
            && (y.core.mem != x.core.mem ==>
                  && f.job.epoch == x.core.epoch && !stopped && x.core.mem.status.Active?
                  && x.core.mem == f.began && x.core.disk == f.began && f.job.request == RequestOf(f.began))
            && (y.core.mem.completed != x.core.mem.completed ==>
                  && result.Some?
                  && y.core.mem
                     == Committed(f.began, result.value, f.began.protocol.intervalSeconds, f.began.protocol.maxCycles,
                                  now))
            && (y.core.disk == x.core.disk || y.core.disk == y.core.mem)
  {
    hide Run, Vouched, Books, Accountable, Gated, Sound, Ran, Consistent, Committed;
    var w := Run(EMPTY, steps);
    AnyNode(steps, n);
    OneFlight(w.nodes[n], k, w.remote);
    hide Shaped, RequestOf, NextAction;
  }

  // ---------------------------------------------------------------- what never changes again

  /** A terminal mission, a final intent and a published artifact stay as they are on disk. */
  lemma Absorbing(past: seq<Step>, future: seq<Step>, n: nat)
    requires n in Run(EMPTY, past).nodes
    ensures var later := Run(EMPTY, past + future);
            && n in later.nodes
            && var s := Run(EMPTY, past).nodes[n].core.disk;
               var t := later.nodes[n].core.disk;
               && (Terminal(s.status) ==> t.status == s.status)
               && s.completed <= t.completed && s.artifacts <= t.artifacts && s.events <= t.events
               && |s.actions| <= |t.actions|
               && forall i :: 0 <= i < |s.actions| && Final(s.actions[i].status) ==> t.actions[i] == s.actions[i]
  {
    hide Run, Safe;
    AnyRunSafe(past);
    RunSplits(EMPTY, past, future);
    DiskEvolves(Run(EMPTY, past), future, n);
  }

  /** A durably rejected intent was never sent by its instance and never will be. */
  lemma RejectedNeverSent(past: seq<Step>, future: seq<Step>, n: nat, i: nat)
    requires n in Run(EMPTY, past).nodes && i < |Run(EMPTY, past).nodes[n].core.disk.actions|
    requires Run(EMPTY, past).nodes[n].core.disk.actions[i].status.Rejected?
    ensures var later := Run(EMPTY, past + future);
            n in later.nodes && later.nodes[n].tally.puts[Run(EMPTY, past).nodes[n].core.disk.actions[i].id] == 0
  {
    hide Run;
    Absorbing(past, future, n);
    WriteAhead(past + future, n, i);
  }

  // ---------------------------------------------------------------- effects have a cause

  /** Every record under a bound identifier was put there by a PUT of an instance. */
  ghost predicate Sourced(w: World) {
    forall id :: id in w.remote && id in w.bound ==> PutFor(w.sent, id)
  }

  ghost predicate PutFor(sent: set<Envelope>, id: Id) {
    exists e :: e in sent && e.actionId == id
  }

  lemma SentGrows(w: World, s: Step)
    ensures w.sent <= Apply(w, s).sent
  {
    if s.DoSend? && s.n in w.nodes && Exchanging(w.nodes[s.n], s.k, Cleared) {
      SendTallied(w, s);
    } else {
      SentOnlyBySend(w, s);
    }
    hide Apply;
  }

  /** What one step adds to the records of bound identifiers, it adds for a PUT in transit; and what it
      binds has no record yet. */
  lemma NewRecords(w: World, s: Step, id: Id)
    requires id in Apply(w, s).remote && id in Apply(w, s).bound
    ensures (id in w.remote && id in w.bound) || PutFor(w.sent, id)
  {
    if s.DoCommand? && s.n in w.nodes && (s.newId.Some? ==> FreshId(w, s.newId.value)) {
      NewBinding(w, w.nodes[s.n], s.command, s.id, s.hash, s.payload, s.newId, s.now, s.r);
      hide Obey, Bind, FreshId;
    } else if OfInstance(s) && !s.DoCommand? && s.n in w.nodes {
      InstanceKeeps(w, s, w.nodes[s.n]);
      hide NodeStep;
    } else {
      hide Obey, Bind, FreshId, NewMission, RestoredState, GetReply, RoutedId, RecordPayload, ValidInit;
    }
  }

  lemma StepSourced(w: World, s: Step)
    requires Sourced(w)
    ensures Sourced(Apply(w, s))
  {
    hide Apply, PutFor;
    var v := Apply(w, s);
    SentGrows(w, s);
    forall id | id in v.remote && id in v.bound
      ensures PutFor(v.sent, id)
    {
      NewRecords(w, s, id);
      StillPut(w.sent, v.sent, id);
    }
  }

  lemma StillPut(sent: set<Envelope>, more: set<Envelope>, id: Id)
    requires PutFor(sent, id) && sent <= more
    ensures PutFor(more, id)
  {
  }

  lemma {:induction false} RunSourced(w: World, steps: seq<Step>)
    requires Sourced(w)
    ensures Sourced(Run(w, steps))
    decreases |steps|
  {
    if steps != [] {
      hide Apply, Sourced;
      StepSourced(w, steps[0]);
      RunSourced(Apply(w, steps[0]), steps[1..]);
    }
  }

  /** No effect without cause: if there is a record for an intent that this instance holds as rejected
      (or only as proposed), another instance was authorized to send it and did. */
  lemma EffectsElsewhere(steps: seq<Step>, n: nat, i: nat)
    requires n in Run(EMPTY, steps).nodes && i < |Run(EMPTY, steps).nodes[n].core.disk.actions|
    ensures var w := Run(EMPTY, steps);
            var a := w.nodes[n].core.disk.actions[i];
            (a.status.Rejected? || a.status.Proposed?) && a.id in w.remote ==>
              exists m :: m in w.nodes && m != n && w.nodes[m].tally.puts[a.id] > 0 && w.nodes[m].tally.auths[a.id] > 0
  {
    hide Run, Sourced, Tallied;
    var w := Run(EMPTY, steps);
    var a := w.nodes[n].core.disk.actions[i];
    if (a.status.Rejected? || a.status.Proposed?) && a.id in w.remote {
      WriteAhead(steps, n, i);
      assert steps + [] == steps;
      EndToEnd(steps, [], n, i);
      var m := Sender(steps, a.id);
      NothingOffTheBooks(steps, m, a.id);
      var j :| 0 <= j < |w.nodes[m].core.disk.actions| && w.nodes[m].core.disk.actions[j].id == a.id;
      WriteAhead(steps, m, j);
    }
  }

  lemma Sender(steps: seq<Step>, id: Id) returns (m: nat)
    requires id in Run(EMPTY, steps).remote && id in Run(EMPTY, steps).bound
    ensures m in Run(EMPTY, steps).nodes && Run(EMPTY, steps).nodes[m].tally.puts[id] > 0
  {
    hide Run;
    var w := Run(EMPTY, steps);
    RunSourced(EMPTY, steps);
    assert PutFor(w.sent, id);
    RunTallied(EMPTY, steps);
    assert SentBySome(w, id);
    m :| m in w.nodes && w.nodes[m].tally.puts[id] > 0;
  }
}
