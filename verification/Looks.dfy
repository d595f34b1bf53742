/** A look settles a doubt: a read-only exchange that nobody disturbs ends with what the destination holds,
    and an absence that it reports can be answered by a retry. */
module Looks {
  import opened Foundations
  import opened Kernel
  import opened Intents
  import opened Missions
  import opened Sections
  import opened Coherence
  import opened Destinations
  import opened World
  import opened Instance
  import opened Safety
  import opened Theorems
  import opened Runs
  import opened Progress
  import opened Effects

  /** An idle process with an intent that is under way and has a check left; the mission may be paused,
      ended or behind its recovery gate. */
  predicate CanLook(x: Node, i: nat) {
    && x.up && !x.core.fatal && !x.core.running && i < |x.core.mem.actions|
    && var a := x.core.mem.actions[i];
       && (a.status.InFlight? || a.status.Unknown? || a.status.RetryRequired? || a.status.Approved?)
       && a.checks < MAX_CHECKS
  }

  function LookSteps(records: Records, n: nat, id: Id, now: int): seq<Step> {
    [DoRunAction(n, id, true, now, Saved), DoAsk(n, 0), DoServeGet(id), DoHearGet(n, 0, GetReply(records, id)),
     DoSettleIntent(n, 0, now, Saved)]
  }

  /** The look is on disk: the intent has one more check and is succeeded with the ledger's receipt if the
      record exists, otherwise it waits for a retry and an active mission is paused. */
  predicate LookedUp(x: Node, y: Node, i: nat, remote: Records) {
    && i < |x.core.mem.actions| == |y.core.disk.actions|
    && y.up && y.flights == [] && !y.core.fatal && !y.core.running && y.core.disk == y.core.mem
    && var a, b := x.core.mem.actions[i], y.core.disk.actions[i];
       && b == a.(status := b.status, checks := a.checks + 1, receipt := b.receipt)
       && (if a.id in remote then b.status.Succeeded? && b.receipt == Some(ReceiptFor(a.id, a.digest))
           else b.status.RetryRequired? && b.receipt == a.receipt)
       && y.core.disk.status == (if x.core.mem.status.Active? && a.id !in remote then Paused else x.core.mem.status)
       && y.core.disk.writes == x.core.mem.writes && y.core.disk.recovery == x.core.mem.recovery
       && y.core.disk.agentId == x.core.mem.agentId
  }

  /** The job of a look. */
  predicate LookJob(x: Node, i: nat, core: Core, job: Job) {
    && i < |x.core.mem.actions| == |core.mem.actions| && job == ActionJob(i, core.mem.actions[i], false)
    && Marked(x.core.mem.actions[i], core.mem.actions[i], false)
    && core.mem == x.core.mem.(actions := core.mem.actions, events := core.mem.events)
  }

  lemma LookLeaves(w: World, n: nat, i: nat, now: int) returns (core: Core, job: Job)
    requires Safe(w) && n in w.nodes && CanLook(w.nodes[n], i)
    ensures var v := Apply(w, DoRunAction(n, w.nodes[n].core.mem.actions[i].id, true, now, Saved));
            Waits(v, n, core, job, Fresh) && v.remote == w.remote && LookJob(w.nodes[n], i, core, job)
  {
    hide Safe, ValidActions, RunActionStep, LookJob, Waits, Apply;
    QueueValid(w, n);
    core, job := LookBegins(w.nodes[n], i, now);
    LookTakesOff(w, n, w.nodes[n].core.mem.actions[i].id, now, core, job);
  }

  lemma LookTakesOff(w: World, n: nat, id: Id, now: int, core: Core, job: Job)
    requires n in w.nodes && w.nodes[n].up && w.nodes[n].flights == []
    requires RunActionStep(w.nodes[n].core, id, true, now, Saved) == (core, Some(job))
    ensures var v := Apply(w, DoRunAction(n, id, true, now, Saved));
            Waits(v, n, core, job, Fresh) && v.remote == w.remote
  {
    hide RunActionStep;
  }

  lemma LookBegins(x: Node, i: nat, now: int) returns (core: Core, job: Job)
    requires CanLook(x, i) && ValidActions(x.core.mem.actions, x.core.mem.agentId, x.core.mem.writes)
    ensures LookJob(x, i, core, job)
            && RunActionStep(x.core, x.core.mem.actions[i].id, true, now, Saved) == (core, Some(job))
  {
    var id := x.core.mem.actions[i].id;
    assert DistinctIds(x.core.mem.actions) && Eligible(x.core.mem, i, true);
    hide ValidActions, DistinctIds, BeginAction, RunActionStep;
    RunActionMeaning(x.core, id, true, now, Saved);
    BeginActionMeaning(x.core, i, true, now, Saved);
    var (d, begun) := BeginAction(x.core, i, true, now, Saved);
    core, job := d, begun.value;
  }

  /** In a safe world a process that is not running has nothing in flight and a valid queue. */
  lemma QueueValid(w: World, n: nat)
    requires Safe(w) && n in w.nodes
    ensures var x := w.nodes[n];
            && ValidActions(x.core.mem.actions, x.core.mem.agentId, x.core.mem.writes)
            && (!x.core.running ==> x.flights == [])
  {
    hide Safe, Holds, Sound, Consistent, FlightFits, ValidActions;
    var x := w.nodes[n];
    HoldsOf(w, n);
    Parts(x, w.bound, w.remote);
    SoundParts(x.core);
    MemoryValid(x.core.mem);
  }

  lemma MemoryValid(s: State)
    requires Consistent(s)
    ensures ValidActions(s.actions, s.agentId, s.writes)
  {
    hide LedgerAgrees, ValidActions;
  }

  lemma LookHears(w: World, n: nat, core: Core, job: Job)
    requires Waits(w, n, core, job, Asked) && job.ActionJob? && !job.allowWrite && job.copy.id in w.asked
    ensures var g := GetReply(w.remote, job.copy.id);
            var v := Apply(Apply(w, DoServeGet(job.copy.id)), DoHearGet(n, 0, g));
            v.remote == w.remote && Waits(v, n, core, job, Answered(Classify(Get, job.copy, g)))
  {
    hide GetReply, Classify;
  }

  /** What the ledger's answer says. */
  lemma AnswerMeans(remote: Records, copy: Intent)
    requires RoutedId(copy.id) && (copy.id in remote ==> remote[copy.id].digest == copy.digest)
    ensures var out := Classify(Get, copy, GetReply(remote, copy.id));
            && !out.failed && (Confirms(copy, out) <==> copy.id in remote) && (out.absent <==> copy.id !in remote)
            && (copy.id in remote ==> out.receipt == Some(ReceiptFor(copy.id, copy.digest)))
  {
    hide RoutedId;
  }

  lemma LookSettled(x: Node, i: nat, core: Core, job: Job, out: RecordOutcome, now: int, y: Node, remote: Records)
    requires LookJob(x, i, core, job) && y.core == SettleAction(core, job, out, now, Saved) && y.up && y.flights == []
    requires !out.failed && (Confirms(job.copy, out) <==> job.copy.id in remote)
             && (out.absent <==> job.copy.id !in remote)
    requires job.copy.id in remote ==> out.receipt == Some(ReceiptFor(job.copy.id, job.copy.digest))
    ensures LookedUp(x, y, i, remote)
  {
    SettleMeaning(core, job, out, now, Saved);
    hide SettleAction, Confirms;
  }

  /** After any run that leaves an intent under way with a check to spend, a look that nobody disturbs ends
      with what the destination holds, and changes nothing there. */
  lemma LookSettles(past: seq<Step>, n: nat, i: nat, now: int)
    requires n in Run(EMPTY, past).nodes && CanLook(Run(EMPTY, past).nodes[n], i)
    ensures var w := Run(EMPTY, past);
            var v := Run(EMPTY, past + LookSteps(w.remote, n, w.nodes[n].core.mem.actions[i].id, now));
            n in v.nodes && v.remote == w.remote && LookedUp(w.nodes[n], v.nodes[n], i, w.remote)
  {
    hide Run, Apply, Safe, CanLook, LookedUp, LookJob, Waits, SettleAction, Classify, GetReply, RoutedId;
    var w := Run(EMPTY, past);
    AnyRunSafe(past);
    LookRuns(w, n, i, now);
    RunSplits(EMPTY, past, LookSteps(w.remote, n, LookedFor(w, n, i), now));
  }

  function LookedFor(w: World, n: nat, i: nat): Id
    requires n in w.nodes && CanLook(w.nodes[n], i)
  {
    w.nodes[n].core.mem.actions[i].id
  }

  lemma LookRuns(w: World, n: nat, i: nat, now: int)
    requires Safe(w) && n in w.nodes && CanLook(w.nodes[n], i)
    ensures var v := Run(w, LookSteps(w.remote, n, LookedFor(w, n, i), now));
            n in v.nodes && v.remote == w.remote && LookedUp(w.nodes[n], v.nodes[n], i, w.remote)
  {
    var id := LookedFor(w, n, i);
    var core, job := LookLeaves(w, n, i, now);
    assert job.copy.id == id && job.ActionJob? && !job.allowWrite && job.index < |core.mem.actions|;
    IntentReady(w, n, i);
    assert RoutedId(id) && (id in w.remote ==> w.remote[id].digest == job.copy.digest);
    hide Run, Apply, Safe, CanLook, LookedUp, LookJob, Waits, SettleAction, Classify, GetReply, RoutedId, LookedFor;
    var g := GetReply(w.remote, id);
    var out := Classify(Get, job.copy, g);
    var w1 := Apply(w, DoRunAction(n, id, true, now, Saved));
    JobAsks(w1, n, core, job);
    var w2 := Apply(w1, DoAsk(n, 0));
    LookHears(w2, n, core, job);
    var w4 := Apply(Apply(w2, DoServeGet(id)), DoHearGet(n, 0, g));
    JobSettles(w4, n, core, job, out, now);
    RunFive(w, DoRunAction(n, id, true, now, Saved), DoAsk(n, 0), DoServeGet(id), DoHearGet(n, 0, g),
            DoSettleIntent(n, 0, now, Saved));
    AnswerMeans(w.remote, job.copy);
    LookSettled(w.nodes[n], i, core, job, out, now, Apply(w4, DoSettleIntent(n, 0, now, Saved)).nodes[n], w.remote);
  }

  // ---------------------------------------------------------------- and a retry answers an absence

  /** An intent that waits for a retry which the operator may still give. */
  predicate CanRetry(x: Node, i: nat) {
    && x.up && !x.core.fatal && !x.core.running && RecoveryReady(x.core.mem) && !Terminal(x.core.mem.status)
    && x.core.mem.writes.Some? && i < |x.core.mem.actions|
    && var a := x.core.mem.actions[i];
       a.status.RetryRequired? && a.attempts < x.core.mem.writes.value.maxAttempts && a.checks < MAX_CHECKS
  }

  /** After any run that leaves an intent waiting for a retry within the budgets, a retry with its digest
      approves it on disk. */
  lemma RetryApproves(past: seq<Step>, n: nat, i: nat, payload: Payload, now: int)
    requires n in Run(EMPTY, past).nodes && CanRetry(Run(EMPTY, past).nodes[n], i)
    ensures var a := Run(EMPTY, past).nodes[n].core.mem.actions[i];
            var v := Run(EMPTY, past + [DoCommand(n, Retry, a.id, a.digest, payload, None, now, Saved)]);
            && n in v.nodes && i < |v.nodes[n].core.disk.actions|
            && v.nodes[n].core.disk.actions[i] == a.(status := Approved)
  {
    hide Run, Safe, ActionControlStep, ValidActions, DistinctIds;
    var w := Run(EMPTY, past);
    var x := w.nodes[n];
    var a := x.core.mem.actions[i];
    AnyRunSafe(past);
    QueueValid(w, n);
    DecisionMeaning(x.core, Retry, a.id, a.digest, payload, None, now, Saved);
    var (d, v) := ActionControlStep(x.core, Retry, a.id, a.digest, payload, None, now, Saved);
    assert Decidable(a, Retry, x.core.mem.writes.value);
    assert !v.Refused?;
    var k :| DecidedAt(x.core, d, k, Retry, a.id, a.digest, now);
    SameIndex(x.core.mem.actions, k, i, x.core.mem.agentId, x.core.mem.writes);
    RunSplits(EMPTY, past, [DoCommand(n, Retry, a.id, a.digest, payload, None, now, Saved)]);
    RunOne(w, DoCommand(n, Retry, a.id, a.digest, payload, None, now, Saved));
    hide Bind, FreshId;
  }

  lemma SameIndex(actions: seq<Intent>, k: int, i: int, agentId: string, writes: Option<Policy>)
    requires ValidActions(actions, agentId, writes) && 0 <= k < |actions| && 0 <= i < |actions|
    requires actions[k].id == actions[i].id
    ensures k == i
  {
  }

  /** The absence that a look reports leads to an approval: the look, and then the retry. */
  lemma AbsenceRetried(past: seq<Step>, n: nat, i: nat, payload: Payload, now: int)
    requires n in Run(EMPTY, past).nodes && CanLook(Run(EMPTY, past).nodes[n], i)
    requires var x := Run(EMPTY, past).nodes[n];
             var a := x.core.mem.actions[i];
             && a.id !in Run(EMPTY, past).remote && RecoveryReady(x.core.mem) && !Terminal(x.core.mem.status)
             && x.core.mem.writes.Some? && a.attempts < x.core.mem.writes.value.maxAttempts && a.checks + 1 < MAX_CHECKS
    ensures var w := Run(EMPTY, past);
            var a := w.nodes[n].core.mem.actions[i];
            var looked := past + LookSteps(w.remote, n, a.id, now);
            var v := Run(EMPTY, looked + [DoCommand(n, Retry, a.id, a.digest, payload, None, now, Saved)]);
            && n in v.nodes && i < |v.nodes[n].core.disk.actions|
            && v.nodes[n].core.disk.actions[i] == a.(status := Approved, checks := a.checks + 1)
  {
    hide Run, LookSteps;
    var w := Run(EMPTY, past);
    var a := w.nodes[n].core.mem.actions[i];
    LookSettles(past, n, i, now);
    var looked := past + LookSteps(w.remote, n, a.id, now);
    var y := Run(EMPTY, looked).nodes[n];
    assert CanRetry(y, i);
    RetryApproves(looked, n, i, payload, now);
    assert y.core.mem.actions[i] == a.(status := RetryRequired, checks := a.checks + 1);
  }
}
