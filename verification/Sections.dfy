/** The mutex-protected sections of internal/core/controller.go and internal/core/actions.go as
    functions on a controller's memory, its disk and its flags. Work outside the mutex (running an
    executor, talking to the destination) lies between a `Begin` and a `Settle` section. */
module Sections {
  import opened Foundations
  import opened Kernel
  import opened Intents
  import opened Missions
  import opened Json

  datatype Core = Core(mem: State, disk: State, files: map<Hash, Bytes>, fatal: bool, epoch: nat, running: bool)

  datatype Request = Request(agentId: string, mission: string, cycle: Pending, workspace: string, memory: Bytes)

  /** What the goroutine that left the mutex carries with it. */
  datatype Job =
    | CycleJob(epoch: nat, protocol: Protocol, request: Request)
    | ActionJob(index: nat, copy: Intent, allowWrite: bool)

  datatype Verdict = Done | Refused | StorageFailed

  /** The three results of `executeRecord`: a receipt, "the record is absent", an error. */
  datatype RecordOutcome = RecordOutcome(receipt: Option<Receipt>, absent: bool, failed: bool)

  function Judge(r: SaveResult): Verdict {
    if r.Saved? then Done else StorageFailed
  }

  /** `c.fatal = c.store.Save(c.state)` */
  function Persist(c: Core, m: State, r: SaveResult): Core {
    c.(mem := m, disk := if Reached(r) then m else c.disk, fatal := !r.Saved?)
  }

  /** A process that has just loaded the snapshot. */
  function Booted(c: Core): Core {
    Core(c.disk, c.disk, c.files, false, 0, false)
  }

  // ---------------------------------------------------------------- operator commands

  function ControlStep(c: Core, action: Admin, now: int, r: SaveResult): (Core, Verdict) {
    if c.fatal || Terminal(c.mem.status) then (c, Refused)
    else
      match Transition(c.mem.status, action)
      case None => (c, Refused)
      case Some(status) =>
        if action.Resume? && !RecoveryReady(c.mem) then (c, Refused)
        else
          var m := Log(c.mem.(status := status), now, Operator(action), c.mem.completed);
          (Persist(c.(epoch := c.epoch + 1), m, r), Judge(r))
  }

  function Proposal(s: State, id: Id, payload: Payload): Intent
    requires s.writes.Some?
  {
    var endpoint := s.writes.value.endpoint;
    Intent(id, RECORD_CREATE, endpoint, payload, Fingerprint(s.agentId, id, RECORD_CREATE, endpoint, payload),
           None, Proposed, 0, 0, None)
  }

  /** Effect of a reviewed command on its intent; `None` when the command is not allowed. An intent
      becomes approved by approving a proposal, or by retrying a reconciled absence within both
      budgets; it becomes rejected as long as nothing was attempted; nothing else is possible. */
  function Authorize(a: Intent, command: Command, policy: Policy): (b: Option<Intent>)
    ensures b.Some? && b.value.status.Approved? <==>
              || (command.Approve? && a.status.Proposed?)
              || (command.Retry? && a.status.RetryRequired? && a.attempts < policy.maxAttempts && a.checks < MAX_CHECKS)
    ensures b.Some? && b.value.status.Rejected? <==>
              command.Reject? && (a.status.Proposed? || a.status.Approved?) && a.attempts <= 0
    ensures b.Some? ==> b.value.status.Approved? || b.value.status.Rejected?
    // only an approval records an approved digest, and it is the intent's own
    ensures b.Some? ==> b.value.approved == if command.Approve? then Some(a.digest) else a.approved
    ensures b.Some? ==> b.value == a.(status := b.value.status, approved := b.value.approved)
  {
    match command
    case Approve =>
      if a.status.Proposed? then Some(a.(approved := Some(a.digest), status := Approved)) else None
    case Retry =>
      if a.status.RetryRequired? && a.attempts < policy.maxAttempts && a.checks < MAX_CHECKS
      then Some(a.(status := Approved)) else None
    case Reject =>
      if (a.status.Proposed? || a.status.Approved?) && a.attempts <= 0 then Some(a.(status := Rejected)) else None
    case _ => None
  }

  predicate AcceptsCommands(c: Core) {
    && RecoveryReady(c.mem) && !c.fatal && !c.running && !Terminal(c.mem.status)
    && c.mem.writes.Some? && ValidActions(c.mem.actions, c.mem.agentId, c.mem.writes)
  }

  /** `newId` is the random identifier, absent when the source of randomness fails. */
  function ProposeStep(c: Core, payload: Payload, newId: Option<Id>, now: int, r: SaveResult): (Core, Verdict)
    requires c.mem.writes.Some?
  {
    if !ValidPayload(payload) || |c.mem.actions| >= MAX_ACTIONS || newId.None? then (c, Refused)
    else (Persist(c, WithNewIntent(c.mem, Proposal(c.mem, newId.value, payload), now), r), Judge(r))
  }

  function DecideStep(c: Core, i: nat, command: Command, now: int, r: SaveResult): (decided: (Core, Verdict))
    requires c.mem.writes.Some? && i < |c.mem.actions|
    ensures |decided.0.mem.actions| == |c.mem.actions|
  {
    match Authorize(c.mem.actions[i], command, c.mem.writes.value)
    case None => (c, Refused)
    case Some(a) => (Persist(c, WithIntent(c.mem, i, a, now), r), Judge(r))
  }

  function ActionControlStep(c: Core, command: Command, id: Id, hash: Fingerprint, payload: Payload,
                             newId: Option<Id>, now: int, r: SaveResult): (Core, Verdict) {
    if !AcceptsCommands(c) then (c, Refused)
    else if command.Propose? then ProposeStep(c, payload, newId, now, r)
    else
      var i := Position(c.mem.actions, id);
      if i < 0 || hash != c.mem.actions[i].digest then (c, Refused)
      else DecideStep(c, i, command, now, r)
  }

  // ---------------------------------------------------------------- write intents

  predicate Runnable(s: IntentStatus, readOnly: bool) {
    s.Approved? || s.InFlight? || s.Unknown? || (readOnly && s.RetryRequired?)
  }

  function PausedIf(s: State, condition: bool): State {
    if condition && s.status.Active? then s.(status := Paused) else s
  }

  function Reserved(a: Intent, allowWrite: bool): Intent {
    a.(checks := a.checks + 1, attempts := if allowWrite then a.attempts + 1 else a.attempts, status := InFlight)
  }

  /** First half of `stepActionLocked`: reserve, publish the in-flight marker, leave the mutex. */
  function BeginAction(c: Core, i: nat, readOnly: bool, now: int, r: SaveResult): (begun: (Core, Option<Job>))
    requires i < |c.mem.actions|
    ensures begun.1.Some? ==>
              begun.1.value.ActionJob? && begun.1.value.index == i && |begun.0.mem.actions| == |c.mem.actions|
  {
    var a := c.mem.actions[i];
    if !ValidActions(c.mem.actions, c.mem.agentId, c.mem.writes) || !Runnable(a.status, readOnly) then (c, None)
    else
      var allowWrite := !readOnly && a.status.Approved?;
      if a.checks >= MAX_CHECKS || (allowWrite && a.attempts >= c.mem.writes.value.maxAttempts) then
        (Persist(c, WithIntent(PausedIf(c.mem, true), i, a, now), r), None)
      else
        var b := Reserved(a, allowWrite);
        var d := Persist(c, WithIntent(c.mem, i, b, now), r);
        if d.fatal then (d, None) else (d.(running := true), Some(ActionJob(i, b, allowWrite)))
  }

  function RunActionStep(c: Core, id: Id, readOnly: bool, now: int, r: SaveResult): (Core, Option<Job>) {
    if (!readOnly && !RecoveryReady(c.mem)) || c.fatal || c.running || (!readOnly && !c.mem.status.Active?)
    then (c, None)
    else
      var i := Position(c.mem.actions, id);
      if i < 0 then (c, None) else BeginAction(c, i, readOnly, now, r)
  }

  function Settled(a: Intent, copy: Intent, out: RecordOutcome): Intent {
    if !out.failed && ValidReceipt(copy, out.receipt) then a.(status := Succeeded, receipt := out.receipt)
    else if !out.failed && out.absent then a.(status := RetryRequired)
    else a.(status := Unknown)
  }

  /** Second half of `stepActionLocked`: the outcome is always recorded, whatever the mission's status. */
  function SettleAction(c: Core, job: Job, out: RecordOutcome, now: int, r: SaveResult): Core
    requires job.ActionJob? && job.index < |c.mem.actions|
  {
    var b := Settled(c.mem.actions[job.index], job.copy, out);
    Persist(c.(running := false), WithIntent(PausedIf(c.mem, b.status.Unknown? || out.absent), job.index, b, now), r)
  }

  // ---------------------------------------------------------------- cycles

  function Named(s: State, now: int): State {
    if s.pending.NoCycle?
    then Log(s.(pending := CycleName(s.agentId, s.completed + 1)), now, Started, s.completed + 1)
    else s
  }

  predicate BudgetSpent(s: State) {
    s.cognition.Some? && s.modelAttempts >= s.cognition.value.maxCalls
  }

  function WithReservation(s: State): State {
    if s.cognition.Some? then s.(modelAttempts := s.modelAttempts + 1) else s
  }

  function RequestOf(s: State): Request {
    Request(s.agentId, s.protocol.mission, s.pending, s.protocol.workspace, s.memory)
  }

  /** First half of a cycle, shared by `Step` and `Tick`: name it, reserve the model call, publish. */
  function BeginCycle(c: Core, now: int, r: SaveResult): (Core, Option<Job>) {
    var m := Named(c.mem, now);
    if c.mem.completed >= c.mem.protocol.maxCycles then
      (Persist(c, c.mem.(status := Completed), r), None)
    else if BudgetSpent(m) then
      (Persist(c, Log(m.(status := Paused), now, BudgetExhausted, m.completed), r), None)
    else
      var n := WithReservation(m);
      var d := Persist(c, n, r);
      if d.fatal then (d, None) else (d.(running := true), Some(CycleJob(c.epoch, n.protocol, RequestOf(n))))
  }

  /** First half of `Step`: the write intents come first, one at a time, then the cycles. */
  function BeginStep(c: Core, now: int, r: SaveResult): (begun: (Core, Option<Job>))
    ensures begun.1.Some? && begun.1.value.ActionJob? ==> begun.1.value.index < |begun.0.mem.actions|
    ensures begun.1.Some? ==> (begun.1.value.ActionJob? <==> NextAction(c.mem.actions) >= 0)
  {
    if c.fatal || c.running || !c.mem.status.Active? || !RecoveryReady(c.mem) then (c, None)
    else
      var i := NextAction(c.mem.actions);
      if i >= 0 then
        if c.mem.actions[i].status.Proposed? || c.mem.actions[i].status.RetryRequired? then (c, None)
        else BeginAction(c, i, false, now, r)
      else if !Due(c.mem.status, c.mem.nextRun, now) then (c, None)
      else BeginCycle(c, now, r)
  }

  /** The result of a cycle enters the snapshot. */
  function Committed(s: State, result: Bytes, interval: int, maxCycles: int, now: int): State {
    var n := s.completed + 1;
    var m := Log(s.(artifacts := s.artifacts + [Artifact(n, Digest(result), |result|)], memory := Canonical(result),
                    completed := n, pending := NoCycle, nextRun := now + Delay(interval)), now, CycleCompleted, n);
    if n >= maxCycles then m.(status := Completed) else m
  }

  function StoreArtifact(files: map<Hash, Bytes>, b: Bytes, r: SaveResult): map<Hash, Bytes> {
    if Reached(r) then files[Digest(b) := b] else files
  }

  /** Second half of `Step`: `result` is absent when the executor failed; `stopped` is `ctx.Err() != nil`. */
  function SettleCycle(c: Core, job: Job, stopped: bool, result: Option<Bytes>, stored: SaveResult, now: int,
                       r: SaveResult): Core
    requires job.CycleJob?
  {
    var d := c.(running := false);
    if job.epoch != c.epoch || stopped then d
    else if result.None? then
      var e := Persist(d, Log(c.mem.(status := Paused), now, ExecutionFailed, c.mem.completed + 1), r);
      e.(fatal := c.fatal || e.fatal)
    else
      var e := d.(files := StoreArtifact(c.files, result.value, stored));
      if !stored.Saved? then e.(fatal := true)
      else Persist(e, Committed(c.mem, result.value, job.protocol.intervalSeconds, job.protocol.maxCycles, now), r)
  }

  /** What the world supplies to one turn of the sequential runner. */
  datatype Turn = Turn(now: int, begin: SaveResult, outcome: RecordOutcome, result: Option<Bytes>,
                       stored: SaveResult, later: int, end: SaveResult)

  /** `Tick`, the runner of the `run` command: no mutex, no epoch, and it returns the executor's error. */
  function TickStep(c: Core, t: Turn): Core
    requires !c.fatal && !c.running
  {
    if c.mem.status.Active? && !RecoveryReady(c.mem) then c
    else if c.mem.status.Active? && NextAction(c.mem.actions) >= 0 then
      var (d, job) := BeginStep(c, t.now, t.begin);
      if job.None? then d else SettleAction(d, job.value, t.outcome, t.later, t.end)
    else if !Due(c.mem.status, c.mem.nextRun, t.now) then c
    else
      var (d, job) := BeginCycle(c, t.now, t.begin);
      if job.None? || t.result.None? then d.(running := false)
      else
        var e := d.(running := false, files := StoreArtifact(c.files, t.result.value, t.stored));
        if !t.stored.Saved? then e
        else
          var p := d.mem.protocol;
          Persist(e, Committed(d.mem, t.result.value, p.intervalSeconds, p.maxCycles, t.later), t.end)
  }

  /** `ActivateRecovery`, run on a stopped mission; `checked` is the verdict of `Doctor`. */
  function ActivateStep(c: Core, sourceFenced: bool, checked: bool, now: int, r: SaveResult): (Core, Verdict) {
    if c.mem.recovery.None? || !sourceFenced || !checked then (c, Refused)
    else
      var ready := c.mem.recovery.value.(ready := true);
      (Persist(c, Log(c.mem.(recovery := Some(ready)), now, RecoveryValidated, c.mem.completed), r), Judge(r))
  }
}
