/** What every section of the controller does to the snapshot, observed from outside: when it acts, what
    it changes, and that it changes nothing else. */
module Effects {
  import opened Foundations
  import opened Utf8
  import opened Kernel
  import opened Intents
  import opened Missions
  import opened Json
  import opened Sections

  /** The memory was published with this fate. */
  predicate SavedAs(c: Core, d: Core, r: SaveResult) {
    && d.disk == (if r.LostBefore? then c.disk else d.mem)
    && d.fatal == !r.Saved? && d.files == c.files
  }

  /** Exactly this event was logged. */
  predicate Logged(s: State, t: State, now: int, kind: EventKind, cycle: int) {
    t.events == s.events + [Event(now, kind, cycle)]
  }

  // ---------------------------------------------------------------- a new mission

  /** A new mission is what was asked for, active, due at once, and empty. */
  lemma NewMissionMeaning(agentId: string, protocol: Protocol, execution: Manifest, cognition: Option<Cognition>,
                          retrieval: bool, writes: Option<Policy>, now: int)
    ensures var s := NewMission(agentId, protocol, execution, cognition, retrieval, writes, now);
            && s.agentId == agentId && s.protocol == protocol && s.execution == Some(execution)
            && s.cognition == cognition && s.retrieval == retrieval && s.writes == writes
            && Due(s.status, s.nextRun, now) && RecoveryReady(s)
            && s.completed == 0 && s.modelAttempts == 0 && s.pending == NoCycle && s.memory == []
            && s.artifacts == [] && s.actions == [] && s.events == []
  {
  }

  // ---------------------------------------------------------------- operator control

  /** The commands of an operator, and the status that each leads to. */
  predicate LeadsTo(action: Admin, status: Status) {
    || (action == Pause && status == Paused)
    || (action == Resume && status == Active)
    || (action == Cancel && status == Cancelled)
  }

  /** A command is accepted exactly from active or paused, without a pending error and, to resume, with an
      open gate. It then changes the status to what it says, logs itself and begins an epoch. */
  lemma ControlMeaning(c: Core, action: Admin, now: int, r: SaveResult)
    ensures var (d, v) := ControlStep(c, action, now, r);
            && (v.Refused? <==>
                  || c.fatal || !(c.mem.status.Active? || c.mem.status.Paused?) || action.OtherAdmin?
                  || (action.Resume? && !RecoveryReady(c.mem)))
            && (v.Refused? ==> d == c)
            && (!v.Refused? ==>
                  && (v.Done? <==> r.Saved?) && SavedAs(c, d, r)
                  && LeadsTo(action, d.mem.status) && Logged(c.mem, d.mem, now, Operator(action), c.mem.completed)
                  && d.mem == c.mem.(status := d.mem.status, events := d.mem.events)
                  && d.epoch == c.epoch + 1 && d.running == c.running)
  {
  }

  // ---------------------------------------------------------------- commands on write intents

  /** Nothing is proposed or decided except by an idle controller of a mission with a write policy. */
  predicate OpenForCommands(c: Core) {
    && RecoveryReady(c.mem) && !c.fatal && !c.running && !c.mem.status.Cancelled? && !c.mem.status.Completed?
    && c.mem.writes.Some? && ValidActions(c.mem.actions, c.mem.agentId, c.mem.writes)
  }

  /** The intent that a new proposal is. */
  predicate FreshIntent(a: Intent, s: State, id: Id, payload: Payload) {
    && a.id == id && a.payload == payload && a.operation == "record.create"
    && s.writes.Some? && a.endpoint == s.writes.value.endpoint
    && a.digest.agentId == s.agentId && a.digest.id == id && a.digest.operation == a.operation
    && a.digest.endpoint == a.endpoint && a.digest.payload == payload
    && a.status.Proposed? && a.approved.None? && a.receipt.None? && a.attempts == 0 && a.checks == 0
  }

  lemma ProposeMeaning(c: Core, id: Id, hash: Fingerprint, payload: Payload, newId: Option<Id>, now: int, r: SaveResult)
    ensures var (d, v) := ActionControlStep(c, Propose, id, hash, payload, newId, now, r);
            && (v.Refused? <==>
                  !(OpenForCommands(c) && ValidPayload(payload) && |c.mem.actions| < MAX_ACTIONS && newId.Some?))
            && (v.Refused? ==> d == c)
            && (!v.Refused? ==>
                  && (v.Done? <==> r.Saved?) && SavedAs(c, d, r)
                  && |d.mem.actions| == |c.mem.actions| + 1 && c.mem.actions == d.mem.actions[..|c.mem.actions|]
                  && FreshIntent(d.mem.actions[|c.mem.actions|], c.mem, newId.value, payload)
                  && Logged(c.mem, d.mem, now, Action(Proposed, newId.value), c.mem.completed)
                  && d.mem == c.mem.(actions := d.mem.actions, events := d.mem.events)
                  && d.epoch == c.epoch && d.running == c.running)
  {
    hide ValidActions, ValidPayload;
  }

  /** What a reviewed command may do to its intent. */
  predicate Decided(a: Intent, b: Intent, command: Command, policy: Policy) {
    && b == a.(status := b.status, approved := b.approved)
    && match command
       case Approve => a.status.Proposed? && b.status.Approved? && b.approved == Some(a.digest)
       case Retry =>
         && a.status.RetryRequired? && a.attempts < policy.maxAttempts && a.checks < MAX_CHECKS
         && b.status.Approved? && b.approved == a.approved
       case Reject =>
         && (a.status.Proposed? || a.status.Approved?) && a.attempts <= 0
         && b.status.Rejected? && b.approved == a.approved
       case _ => false
  }

  predicate Decidable(a: Intent, command: Command, policy: Policy) {
    match command
    case Approve => a.status.Proposed?
    case Retry => a.status.RetryRequired? && a.attempts < policy.maxAttempts && a.checks < MAX_CHECKS
    case Reject => (a.status.Proposed? || a.status.Approved?) && a.attempts <= 0
    case _ => false
  }

  /** From `c` to `d` the intent at `i`, and nothing else, was decided; it has the identifier and the very
      digest that the operator gave. */
  predicate DecidedAt(c: Core, d: Core, i: int, command: Command, id: Id, hash: Fingerprint, now: int) {
    && 0 <= i < |c.mem.actions| == |d.mem.actions| && c.mem.writes.Some?
    && c.mem.actions[i].id == id && c.mem.actions[i].digest == hash
    && Decided(c.mem.actions[i], d.mem.actions[i], command, c.mem.writes.value)
    && d.mem.actions == c.mem.actions[i := d.mem.actions[i]]
    && Logged(c.mem, d.mem, now, Action(d.mem.actions[i].status, id), c.mem.completed)
    && d.mem == c.mem.(actions := d.mem.actions, events := d.mem.events)
  }

  /** A decision needs the intent's identifier and its exact digest: it is accepted exactly if there is
      such an intent that admits the command, and then it decides that intent alone. */
  lemma DecisionMeaning(c: Core, command: Command, id: Id, hash: Fingerprint, payload: Payload, newId: Option<Id>,
                        now: int, r: SaveResult)
    requires !command.Propose?
    ensures var (d, v) := ActionControlStep(c, command, id, hash, payload, newId, now, r);
            && (v.Refused? ==> d == c)
            && (!v.Refused? ==>
                  && OpenForCommands(c) && (v.Done? <==> r.Saved?) && SavedAs(c, d, r)
                  && d.epoch == c.epoch && d.running == c.running
                  && exists i :: DecidedAt(c, d, i, command, id, hash, now))
            && (!v.Refused? <==>
                  && OpenForCommands(c)
                  && exists i :: && 0 <= i < |c.mem.actions| && c.mem.actions[i].id == id
                                 && c.mem.actions[i].digest == hash
                                 && Decidable(c.mem.actions[i], command, c.mem.writes.value))
  {
    if AcceptsCommands(c) {
      DecidingMeans(c, command, id, hash, payload, newId, now, r);
    }
    hide ValidActions, DecideStep, Position;
  }

  lemma OnlyPosition(actions: seq<Intent>, id: Id, i: nat)
    requires DistinctIds(actions) && i < |actions| && actions[i].id == id
    ensures Position(actions, id) == i
  {
  }

  lemma DecidingMeans(c: Core, command: Command, id: Id, hash: Fingerprint, payload: Payload, newId: Option<Id>,
                      now: int, r: SaveResult)
    requires !command.Propose? && AcceptsCommands(c)
    ensures var (d, v) := ActionControlStep(c, command, id, hash, payload, newId, now, r);
            && (v.Refused? ==> d == c)
            && (!v.Refused? ==>
                  && (v.Done? <==> r.Saved?) && SavedAs(c, d, r) && d.epoch == c.epoch && d.running == c.running
                  && DecidedAt(c, d, Position(c.mem.actions, id), command, id, hash, now))
    ensures !ActionControlStep(c, command, id, hash, payload, newId, now, r).1.Refused? <==>
              exists i :: 0 <= i < |c.mem.actions| && c.mem.actions[i].id == id && c.mem.actions[i].digest == hash
                          && Decidable(c.mem.actions[i], command, c.mem.writes.value)
  {
    var actions := c.mem.actions;
    assert DistinctIds(actions);
    hide ValidActions, Decidable;
    forall i | 0 <= i < |actions| && actions[i].id == id
      ensures Position(actions, id) == i
    {
      OnlyPosition(actions, id, i);
    }
    hide DistinctIds, Position;
    PositionMeans(actions, id);
    var i := Position(actions, id);
    if i >= 0 && hash == actions[i].digest {
      DecideMeans(c, i, command, id, hash, now, r);
    }
    hide DecidedAt, DecideStep, SavedAs;
  }

  lemma DecideMeans(c: Core, i: nat, command: Command, id: Id, hash: Fingerprint, now: int, r: SaveResult)
    requires c.mem.writes.Some? && i < |c.mem.actions| && c.mem.actions[i].id == id && c.mem.actions[i].digest == hash
    ensures var (d, v) := DecideStep(c, i, command, now, r);
            && (v.Refused? ==> d == c)
            && (!v.Refused? <==> Decidable(c.mem.actions[i], command, c.mem.writes.value))
            && (!v.Refused? ==>
                  && (v.Done? <==> r.Saved?) && SavedAs(c, d, r) && d.epoch == c.epoch && d.running == c.running
                  && DecidedAt(c, d, i, command, id, hash, now))
  {
  }

  lemma PositionMeans(actions: seq<Intent>, id: Id)
    ensures var i := Position(actions, id); i < |actions| && (i >= 0 ==> actions[i].id == id)
    ensures Position(actions, id) < 0 ==> forall i :: 0 <= i < |actions| ==> actions[i].id != id
  {
  }

  // ---------------------------------------------------------------- beginning an intent

  /** The job carries the intent as it was marked: one more check, one more attempt if it may write. */
  predicate Marked(a: Intent, copy: Intent, allowWrite: bool) {
    && copy.status.InFlight? && copy.checks == a.checks + 1
    && copy.attempts == a.attempts + (if allowWrite then 1 else 0)
    && copy == a.(status := copy.status, checks := copy.checks, attempts := copy.attempts)
  }

  /** An intent of a valid queue that is under way, or, for a look only, waits for a retry. */
  predicate Eligible(s: State, i: nat, readOnly: bool)
    requires i < |s.actions|
  {
    var status := s.actions[i].status;
    && ValidActions(s.actions, s.agentId, s.writes)
    && (status.Approved? || status.InFlight? || status.Unknown? || (readOnly && status.RetryRequired?))
  }

  /** Only an approved intent may be written, and only when not just looking. */
  predicate Writing(a: Intent, readOnly: bool) {
    a.status.Approved? && !readOnly
  }

  /** One more check, and for a write one more attempt, are within the budgets. */
  predicate Funded(a: Intent, readOnly: bool, writes: Option<Policy>) {
    a.checks < MAX_CHECKS && (Writing(a, readOnly) ==> writes.Some? && a.attempts < writes.value.maxAttempts)
  }

  /** What the marker of a job looks like, in memory and on disk. */
  predicate MarkedAt(c: Core, d: Core, i: nat, readOnly: bool, now: int, r: SaveResult)
    requires i < |c.mem.actions|
  {
    var a := c.mem.actions[i];
    && |d.mem.actions| == |c.mem.actions| && Marked(a, d.mem.actions[i], Writing(a, readOnly))
    && d.mem == c.mem.(actions := c.mem.actions[i := d.mem.actions[i]], events := d.mem.events)
    && Logged(c.mem, d.mem, now, Action(InFlight, a.id), c.mem.completed)
    && SavedAs(c, d, r) && d.epoch == c.epoch
  }

  /** The mission gave up on an intent whose budget is spent: paused if it was active, the intent as it was. */
  predicate Exhausted(c: Core, d: Core, i: nat, now: int, r: SaveResult)
    requires i < |c.mem.actions|
  {
    var a := c.mem.actions[i];
    && d.mem == c.mem.(status := if c.mem.status.Active? then Paused else c.mem.status, events := d.mem.events)
    && Logged(c.mem, d.mem, now, Action(a.status, a.id), c.mem.completed)
    && SavedAs(c, d, r) && d.epoch == c.epoch && d.running == c.running
  }

  /** A job leaves exactly if its intent is eligible and funded and its marker is published; it carries the
      marked intent. Without funds the mission gives up; without eligibility nothing happens. */
  lemma BeginActionMeaning(c: Core, i: nat, readOnly: bool, now: int, r: SaveResult)
    requires i < |c.mem.actions|
    ensures var a := c.mem.actions[i];
            var (d, job) := BeginAction(c, i, readOnly, now, r);
            && (job.Some? <==> Eligible(c.mem, i, readOnly) && Funded(a, readOnly, c.mem.writes) && r.Saved?)
            && (!Eligible(c.mem, i, readOnly) ==> d == c)
            && (Eligible(c.mem, i, readOnly) ==>
                  if Funded(a, readOnly, c.mem.writes) then MarkedAt(c, d, i, readOnly, now, r)
                  else Exhausted(c, d, i, now, r))
            && (job.Some? ==> job.value == ActionJob(i, d.mem.actions[i], Writing(a, readOnly)) && d.running)
  {
    var a := c.mem.actions[i];
    assert ValidActions(c.mem.actions, c.mem.agentId, c.mem.writes) ==> c.mem.writes.Some?;
    ReservedMarks(c, i, readOnly, now, r);
    GivesUp(c, i, now, r);
    hide ValidActions, Reserved, MarkedAt, Exhausted, WithIntent, PausedIf;
  }

  lemma GivesUp(c: Core, i: nat, now: int, r: SaveResult)
    requires i < |c.mem.actions|
    ensures Exhausted(c, Persist(c, WithIntent(PausedIf(c.mem, true), i, c.mem.actions[i], now), r), i, now, r)
  {
    assert c.mem.actions[i := c.mem.actions[i]] == c.mem.actions;
  }

  lemma ReservedMarks(c: Core, i: nat, readOnly: bool, now: int, r: SaveResult)
    requires i < |c.mem.actions|
    ensures var b := Reserved(c.mem.actions[i], Writing(c.mem.actions[i], readOnly));
            var d := Persist(c, WithIntent(c.mem, i, b, now), r);
            MarkedAt(c, d, i, readOnly, now, r) && MarkedAt(c, d.(running := true), i, readOnly, now, r)
            && d.mem.actions[i] == b
  {
  }

  /** Looking needs neither an open gate nor an active mission; writing needs both. */
  lemma RunActionMeaning(c: Core, id: Id, readOnly: bool, now: int, r: SaveResult)
    ensures RunActionStep(c, id, readOnly, now, r) == (c, None)
            || (&& !c.fatal && !c.running && (readOnly || (RecoveryReady(c.mem) && c.mem.status.Active?))
                && exists i :: 0 <= i < |c.mem.actions| && c.mem.actions[i].id == id
                               && RunActionStep(c, id, readOnly, now, r) == BeginAction(c, i, readOnly, now, r))
    ensures DistinctIds(c.mem.actions)
            && !c.fatal && !c.running && (readOnly || (RecoveryReady(c.mem) && c.mem.status.Active?)) ==>
              forall i :: 0 <= i < |c.mem.actions| && c.mem.actions[i].id == id ==>
                RunActionStep(c, id, readOnly, now, r) == BeginAction(c, i, readOnly, now, r)
  {
    var actions := c.mem.actions;
    PositionMeans(actions, id);
    forall i | 0 <= i < |actions| && actions[i].id == id && DistinctIds(actions)
      ensures Position(actions, id) == i
    {
      OnlyPosition(actions, id, i);
    }
    hide BeginAction, Position, DistinctIds;
  }

  // ---------------------------------------------------------------- settling an intent

  /** The receipt confirms this very intent. */
  predicate Confirms(copy: Intent, out: RecordOutcome) {
    && !out.failed && out.receipt.Some?
    && out.receipt.value.actionId == copy.id && out.receipt.value.recordId == copy.id
    && out.receipt.value.digest == copy.digest && out.receipt.value.status == "committed"
  }

  /** `b` is `a` with the outcome: success with its receipt exactly if it is confirmed, a required retry
      exactly for an absence without failure, and doubt otherwise. */
  predicate Recorded(a: Intent, b: Intent, copy: Intent, out: RecordOutcome) {
    && (b.status.Succeeded? <==> Confirms(copy, out))
    && (b.status.RetryRequired? <==> !Confirms(copy, out) && !out.failed && out.absent)
    && (b.status.Unknown? <==> !Confirms(copy, out) && (out.failed || !out.absent))
    && b.receipt == (if Confirms(copy, out) then out.receipt else a.receipt)
    && b == a.(status := b.status, receipt := b.receipt)
  }

  /** Whatever was pending, a settle records the outcome. An active mission is paused unless the write is
      confirmed. Nothing else changes. */
  lemma SettleMeaning(c: Core, job: Job, out: RecordOutcome, now: int, r: SaveResult)
    requires job.ActionJob? && job.index < |c.mem.actions|
    ensures var a := c.mem.actions[job.index];
            var d := SettleAction(c, job, out, now, r);
            && |d.mem.actions| == |c.mem.actions| && Recorded(a, d.mem.actions[job.index], job.copy, out)
            && d.mem.actions == c.mem.actions[job.index := d.mem.actions[job.index]]
            && Logged(c.mem, d.mem, now, Action(d.mem.actions[job.index].status, a.id), c.mem.completed)
            && d.mem == c.mem.(actions := d.mem.actions, events := d.mem.events, status := d.mem.status)
            && d.mem.status == (if c.mem.status.Active? && (out.absent || !Confirms(job.copy, out)) then Paused
                                else c.mem.status)
            && SavedAs(c, d, r) && !d.running && d.epoch == c.epoch
  {
  }

  // ---------------------------------------------------------------- cycles

  /** What the executor of the next cycle is asked: for this agent, this mission and this workspace, the
      cycle after the last one confirmed, with the memory as it stands. */
  predicate AsksForNext(q: Request, s: State) {
    && q.agentId == s.agentId && q.mission == s.protocol.mission && q.workspace == s.protocol.workspace
    && q.memory == s.memory
    && q.cycle == s.pending
  }

  /** A cycle begins with its name, paid for, and published; only then does its job leave. A spent budget
      pauses the mission instead, and without a cycle left it is completed. */
  lemma BeginCycleMeaning(c: Core, now: int, r: SaveResult)
    ensures var left := c.mem.completed < c.mem.protocol.maxCycles;
            var spent := c.mem.cognition.Some? && c.mem.modelAttempts >= c.mem.cognition.value.maxCalls;
            var (d, job) := BeginCycle(c, now, r);
            && SavedAs(c, d, r) && d.epoch == c.epoch && (job.Some? <==> left && !spent && r.Saved?)
            && (!left ==> d.mem == c.mem.(status := Completed))
            && (left ==> CycleBegan(c.mem, d.mem, spent, now))
            && (job.Some? ==>
                  && job.value.CycleJob? && job.value.epoch == c.epoch && job.value.protocol == c.mem.protocol
                  && AsksForNext(job.value.request, d.mem) && d.running)
  {
    assert c.mem.events + [] == c.mem.events;
  }

  /** `t` is `s` with the cycle named, and paid for unless the budget is spent. */
  predicate CycleBegan(s: State, t: State, spent: bool, now: int) {
    var began := if s.pending.NoCycle? then [Event(now, Started, s.completed + 1)] else [];
    && t.pending == (if s.pending.NoCycle? then CycleName(s.agentId, s.completed + 1) else s.pending)
    && t == s.(pending := t.pending, modelAttempts := t.modelAttempts, status := t.status, events := t.events)
    && (if spent
        then
          && t.status.Paused? && t.modelAttempts == s.modelAttempts
          && t.events == s.events + began + [Event(now, BudgetExhausted, s.completed)]
        else
          && t.status == s.status && t.events == s.events + began
          && t.modelAttempts == s.modelAttempts + (if s.cognition.Some? then 1 else 0))
  }

  /** A step does something exactly when idle, active and behind no gate; intents come first and keep the
      cycles waiting, also one that waits for a review; and a cycle waits until it is due. */
  lemma StepMeaning(c: Core, now: int, r: SaveResult)
    ensures var ready := !c.fatal && !c.running && c.mem.status.Active? && RecoveryReady(c.mem);
            var open := exists i :: 0 <= i < |c.mem.actions| && Unresolved(c.mem.actions, i);
            && (!ready ==> BeginStep(c, now, r) == (c, None))
            && (ready && !open ==>
                  BeginStep(c, now, r) == if c.mem.nextRun <= now then BeginCycle(c, now, r) else (c, None))
            && (forall i :: ready && 0 <= i < |c.mem.actions| && Unresolved(c.mem.actions, i) ==>
                  BeginStep(c, now, r)
                  == if c.mem.actions[i].status.Proposed? || c.mem.actions[i].status.RetryRequired? then (c, None)
                     else BeginAction(c, i, false, now, r))
  {
    hide BeginAction, BeginCycle;
    var actions := c.mem.actions;
    forall i | 0 <= i < |actions| && Unresolved(actions, i)
      ensures NextAction(actions) == i
    {
    }
    assert NextAction(actions) >= 0 ==> Unresolved(actions, NextAction(actions));
    hide NextFrom;
  }

  /** The first intent that is neither succeeded nor rejected. */
  predicate Unresolved(actions: seq<Intent>, i: nat)
    requires i < |actions|
  {
    && !actions[i].status.Succeeded? && !actions[i].status.Rejected?
    && forall k :: 0 <= k < i ==> actions[k].status.Succeeded? || actions[k].status.Rejected?
  }

  /** One more cycle on record: its artifact, memory, number, event and next moment, and the end of the
      mission with the last one. */
  predicate OneMore(s: State, t: State, result: Bytes, p: Protocol, now: int) {
    && t.completed == s.completed + 1 && t.artifacts == s.artifacts + [Artifact(t.completed, Digest(result), |result|)]
    && t.memory == Canonical(result) && t.pending.NoCycle? && t.nextRun == now + Delay(p.intervalSeconds)
    && Logged(s, t, now, CycleCompleted, t.completed)
    && (t.status == if t.completed >= p.maxCycles then Completed else s.status)
    && t == s.(completed := t.completed, artifacts := t.artifacts, memory := t.memory, pending := t.pending,
               nextRun := t.nextRun, events := t.events, status := t.status)
  }

  /** The end of a cycle: a stale or stopped one leaves nothing behind; an executor error pauses the
      mission and keeps the cycle pending; a result that cannot be stored is an error and nothing more;
      and a stored result is one more cycle on record. */
  lemma SettleCycleMeaning(c: Core, job: Job, stopped: bool, result: Option<Bytes>, stored: SaveResult, now: int,
                           r: SaveResult)
    requires job.CycleJob?
    ensures var d := SettleCycle(c, job, stopped, result, stored, now, r);
            var late := job.epoch != c.epoch || stopped;
            && !d.running && d.epoch == c.epoch
            && (late ==> d == c.(running := false))
            && (!late && result.None? ==>
                  && d.mem == c.mem.(status := Paused, events := d.mem.events)
                  && Logged(c.mem, d.mem, now, ExecutionFailed, c.mem.completed + 1)
                  && d.disk == (if r.LostBefore? then c.disk else d.mem) && d.fatal == (c.fatal || !r.Saved?)
                  && d.files == c.files)
            && (!late && result.Some? ==>
                  d.files == if stored.LostBefore? then c.files else c.files[Digest(result.value) := result.value])
            && (!late && result.Some? && !stored.Saved? ==> d.mem == c.mem && d.disk == c.disk && d.fatal)
            && (!late && result.Some? && stored.Saved? ==>
                  && OneMore(c.mem, d.mem, result.value, job.protocol, now)
                  && d.disk == (if r.LostBefore? then c.disk else d.mem) && d.fatal == !r.Saved?)
  {
    hide Canonical, Delay;
  }

  // ---------------------------------------------------------------- recovery

  /** The gate opens exactly if there is one, the operator declares the source fenced and the doctor is
      content; nothing else changes. */
  lemma ActivateMeaning(c: Core, sourceFenced: bool, checked: bool, now: int, r: SaveResult)
    ensures var (d, v) := ActivateStep(c, sourceFenced, checked, now, r);
            && (v.Refused? <==> !(c.mem.recovery.Some? && sourceFenced && checked))
            && (v.Refused? ==> d == c)
            && (!v.Refused? ==>
                  && (v.Done? <==> r.Saved?) && SavedAs(c, d, r) && RecoveryReady(d.mem)
                  && Logged(c.mem, d.mem, now, RecoveryValidated, c.mem.completed)
                  && d.mem.recovery.Some?
                  && d.mem.recovery.value.backup == c.mem.recovery.value.backup
                  && d.mem.recovery.value.originalStatus == c.mem.recovery.value.originalStatus
                  && d.mem == c.mem.(recovery := d.mem.recovery, events := d.mem.events)
                  && d.epoch == c.epoch && d.running == c.running)
  {
  }

  // ---------------------------------------------------------------- payloads

  /** The limits of a payload are on its octets. */
  lemma PayloadInOctets(p: Payload)
    ensures var name, content := EncodeAll(p.name), EncodeAll(p.content);
            ValidPayload(p) <==> !BlankText(name) && |name| <= 120 && !BlankText(content) && |content| <= 8192
  {
    TextAgrees(p.name);
    TextAgrees(p.content);
    hide EncodeAll, BlankText, Blank, ByteLength;
  }
}
