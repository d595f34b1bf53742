/** internal/core/controller.go, internal/core/actions.go, `Store` and `Tick` as the objects they are.
    Every method is one stretch of code that runs under the mutex and equals its section function.
    Clock reads, random identifiers, results of the outside world and the fate of each durable write
    are parameters. */
module Controllers {
  import opened Foundations
  import opened Kernel
  import opened Intents
  import opened Missions
  import opened Json
  import opened Sections
  import opened Coherence

  /** The mission state that the controller and the CLI update in place. */
  class Mission {
    var version: int
    var agentId: string
    var protocol: Protocol
    var status: Status
    var completed: int
    var nextRun: int
    var pending: Pending
    var memory: Bytes
    var events: seq<Event>
    var execution: Option<Manifest>
    var artifacts: seq<Artifact>
    var cognition: Option<Cognition>
    var modelAttempts: int
    var retrieval: bool
    var writes: Option<Policy>
    var actions: seq<Intent>
    var recovery: Option<Recovery>

    /** The value that marshalling the mission would write. */
    function Snapshot(): State
      reads this
    {
      State(version, agentId, protocol, status, completed, nextRun, pending, memory, events, execution, artifacts,
            cognition, modelAttempts, retrieval, writes, actions, recovery)
    }

    /** `decodeState` on a stored snapshot. */
    constructor Load(s: State)
      ensures Snapshot() == s
    {
      version, agentId, protocol, status, completed := s.version, s.agentId, s.protocol, s.status, s.completed;
      nextRun, pending, memory, events, execution := s.nextRun, s.pending, s.memory, s.events, s.execution;
      artifacts, cognition, modelAttempts, retrieval := s.artifacts, s.cognition, s.modelAttempts, s.retrieval;
      writes, actions, recovery := s.writes, s.actions, s.recovery;
    }

    method Append(at: int, kind: EventKind, cycle: int)
      modifies this`events
      ensures Snapshot() == Log(old(Snapshot()), at, kind, cycle)
    {
      events := events + [Event(at, kind, cycle)];
    }
  }

  /** One state directory: the snapshot file and the content-addressed artifacts. */
  class Store {
    var state: State
    var files: map<Hash, Bytes>

    constructor (s: State)
      ensures state == s && files == map[]
    {
      state, files := s, map[];
    }

    method Save(m: Mission, r: SaveResult) returns (ok: bool)
      modifies this`state
      ensures ok == r.Saved?
      ensures state == if Reached(r) then m.Snapshot() else old(state)
    {
      if r.LostBefore? {
        return false;
      }
      state := m.Snapshot();
      ok := r.Saved?;
    }

    method PutArtifact(cycle: int, b: Bytes, r: SaveResult) returns (a: Artifact, ok: bool)
      modifies this`files
      ensures a == Artifact(cycle, Digest(b), |b|) && ok == r.Saved?
      ensures files == StoreArtifact(old(files), b, r)
      ensures ok ==> ReadsBack(a, files)
    {
      a := Artifact(cycle, Digest(b), |b|);
      if r.LostBefore? {
        return a, false;
      }
      files := files[a.hash := b];
      ok := r.Saved?;
    }

    method ReadArtifact(a: Artifact) returns (r: Option<Bytes>)
      ensures r.Some? <==> ReadsBack(a, files)
      ensures r.Some? ==> Digest(r.value) == a.hash && |r.value| == a.bytes
    {
      if a.hash !in files {
        return None;
      }
      var b := files[a.hash];
      if Digest(b) != a.hash || |b| != a.bytes {
        return None;
      }
      return Some(b);
    }
  }

  /** `reserveModel`; `spent` reports the exhausted budget, `ok` a successful save in that case. */
  method ReserveModel(s: Store, st: Mission, now: int, r: SaveResult) returns (spent: bool, ok: bool)
    modifies s`state, st
    ensures spent == BudgetSpent(old(st.Snapshot()))
    ensures !spent ==> ok && st.Snapshot() == WithReservation(old(st.Snapshot())) && s.state == old(s.state)
    ensures spent ==>
              st.Snapshot() == Log(old(st.Snapshot()).(status := Paused), now, BudgetExhausted, old(st.completed))
    ensures spent ==> ok == r.Saved? && s.state == if Reached(r) then st.Snapshot() else old(s.state)
  {
    if st.cognition.None? {
      return false, true;
    }
    if st.modelAttempts >= st.cognition.value.maxCalls {
      st.status := Paused;
      st.Append(now, BudgetExhausted, st.completed);
      ok := s.Save(st, r);
      return true, ok;
    }
    st.modelAttempts := st.modelAttempts + 1;
    return false, true;
  }

  /** The sole snapshot writer of a running process. */
  class Controller {
    const store: Store
    const state: Mission
    var running: bool
    var epoch: nat
    var fatal: bool

    function View(): Core
      reads this, state, store
    {
      Core(state.Snapshot(), store.state, store.files, fatal, epoch, running)
    }

    constructor (s: Store, st: Mission)
      ensures store == s && state == st
      ensures View() == Core(st.Snapshot(), s.state, s.files, false, 0, false)
    {
      store, state := s, st;
      running, epoch, fatal := false, 0, false;
    }

    method Control(action: Admin, now: int, r: SaveResult) returns (v: Verdict)
      modifies this, state, store
      ensures (View(), v) == ControlStep(old(View()), action, now, r)
    {
      if fatal || state.status.Cancelled? || state.status.Completed? {
        return Refused;
      }
      var status := Transition(state.status, action);
      if status.None? {
        return Refused;
      }
      if action.Resume? && !RecoveryReady(state.Snapshot()) {
        return Refused;
      }
      state.status := status.value;
      state.Append(now, Operator(action), state.completed);
      epoch := epoch + 1;
      var ok := store.Save(state, r);
      fatal := !ok;
      v := if ok then Done else StorageFailed;
    }

    /** `saveAction` for the intent at `i`. */
    method SaveAction(i: nat, now: int, r: SaveResult) returns (ok: bool)
      requires i < |state.actions|
      modifies this`fatal, state`events, store`state
      ensures ok == r.Saved?
      ensures View() == Persist(old(View()),
                                Log(old(state.Snapshot()), now,
                                    Action(old(state.actions)[i].status, old(state.actions)[i].id),
                                    old(state.completed)), r)
    {
      state.Append(now, Action(state.actions[i].status, state.actions[i].id), state.completed);
      ok := store.Save(state, r);
      fatal := !ok;
    }

    /** The proposal branch of `ActionControl`. */
    method Propose(payload: Payload, newId: Option<Id>, now: int, r: SaveResult) returns (v: Verdict)
      requires state.writes.Some?
      modifies this, state, store
      ensures (View(), v) == ProposeStep(old(View()), payload, newId, now, r)
    {
      if !ValidPayload(payload) || |state.actions| >= MAX_ACTIONS || newId.None? {
        return Refused;
      }
      var endpoint, random := state.writes.value.endpoint, newId.value;
      var a := Intent(random, RECORD_CREATE, endpoint, payload,
                      Fingerprint(state.agentId, random, RECORD_CREATE, endpoint, payload), None, Proposed, 0, 0, None);
      state.actions := state.actions + [a];
      var ok := SaveAction(|state.actions| - 1, now, r);
      v := if ok then Done else StorageFailed;
    }

    /** The branches of `ActionControl` that change the intent at `i`. */
    method Decide(i: nat, command: Command, now: int, r: SaveResult) returns (v: Verdict)
      requires i < |state.actions| && state.writes.Some?
      modifies this, state, store
      ensures (View(), v) == DecideStep(old(View()), i, command, now, r)
    {
      var a := state.actions[i];
      match command {
        case Approve =>
          if !a.status.Proposed? {
            return Refused;
          }
          a := a.(approved := Some(a.digest), status := Approved);
        case Retry =>
          if !a.status.RetryRequired? || a.attempts >= state.writes.value.maxAttempts || a.checks >= MAX_CHECKS {
            return Refused;
          }
          a := a.(status := Approved);
        case Reject =>
          if (!a.status.Proposed? && !a.status.Approved?) || a.attempts > 0 {
            return Refused;
          }
          a := a.(status := Rejected);
        case _ =>
          return Refused;
      }
      state.actions := state.actions[i := a];
      var ok := SaveAction(i, now, r);
      v := if ok then Done else StorageFailed;
    }

    /** `ActionControl` once a command may be accepted at all. */
    method Review(command: Command, id: Id, hash: Fingerprint, payload: Payload,
                  newId: Option<Id>, now: int, r: SaveResult) returns (v: Verdict)
      requires AcceptsCommands(View())
      modifies this, state, store
      ensures (View(), v) == ActionControlStep(old(View()), command, id, hash, payload, newId, now, r)
    {
      hide ValidActions, ProposeStep, DecideStep;
      if command.Propose? {
        v := Propose(payload, newId, now, r);
        return;
      }
      var i := FindAction(state.actions, id);
      if i < 0 || hash != state.actions[i].digest {
        return Refused;
      }
      v := Decide(i, command, now, r);
    }

    method ActionControl(command: Command, id: Id, hash: Fingerprint, payload: Payload,
                         newId: Option<Id>, now: int, r: SaveResult) returns (v: Verdict)
      modifies this, state, store
      ensures (View(), v) == ActionControlStep(old(View()), command, id, hash, payload, newId, now, r)
    {
      hide ValidActions, ProposeStep, DecideStep;
      if !RecoveryReady(state.Snapshot()) || fatal || running || state.status.Cancelled? || state.status.Completed?
         || state.writes.None? {
        return Refused;
      }
      var valid := ValidateActions(state.actions, state.agentId, state.writes);
      if !valid {
        return Refused;
      }
      v := Review(command, id, hash, payload, newId, now, r);
    }

    /** `stepActionLocked` until it leaves the mutex; the job is what it leaves with. */
    method BeginActionLocked(i: nat, readOnly: bool, now: int, r: SaveResult) returns (job: Option<Job>)
      requires i < |state.actions|
      modifies this, state, store
      ensures (View(), job) == BeginAction(old(View()), i, readOnly, now, r)
    {
      hide ValidActions;
      var valid := ValidateActions(state.actions, state.agentId, state.writes);
      if !valid {
        return None;
      }
      var a := state.actions[i];
      if !a.status.Approved? && !a.status.InFlight? && !a.status.Unknown? && !(readOnly && a.status.RetryRequired?) {
        return None;
      }
      var allowWrite := !readOnly && a.status.Approved?;
      if a.checks >= MAX_CHECKS || (allowWrite && a.attempts >= state.writes.value.maxAttempts) {
        var _ := PauseAndSave(i, true, now, r);
        return None;
      }
      job := Reserve(i, allowWrite, now, r);
    }

    /** Pause an active mission if `condition` holds, then save the intent at `i` as it stands. */
    method PauseAndSave(i: nat, condition: bool, now: int, r: SaveResult) returns (ok: bool)
      requires i < |state.actions|
      modifies this`fatal, state`status, state`events, store`state
      ensures ok == r.Saved?
      ensures View()
              == Persist(old(View()),
                         WithIntent(PausedIf(old(state.Snapshot()), condition), i, old(state.actions)[i], now), r)
    {
      if condition && state.status.Active? {
        state.status := Paused;
      }
      ok := SaveAction(i, now, r);
      assert state.actions == state.actions[i := state.actions[i]];
    }

    /** Take a check, and an attempt for a write, and publish the in-flight marker. */
    method Reserve(i: nat, allowWrite: bool, now: int, r: SaveResult) returns (job: Option<Job>)
      requires i < |state.actions|
      modifies this, state, store
      ensures var b := Reserved(old(state.actions)[i], allowWrite);
              var d := Persist(old(View()), WithIntent(old(state.Snapshot()), i, b, now), r);
              (View(), job) == if d.fatal then (d, None) else (d.(running := true), Some(ActionJob(i, b, allowWrite)))
    {
      var a := state.actions[i];
      a := a.(checks := a.checks + 1);
      if allowWrite {
        a := a.(attempts := a.attempts + 1);
      }
      a := a.(status := InFlight);
      state.actions := state.actions[i := a];
      var ok := SaveAction(i, now, r);
      if !ok {
        return None;
      }
      running := true;
      return Some(ActionJob(i, a, allowWrite));
    }

    method RunAction(id: Id, readOnly: bool, now: int, r: SaveResult) returns (job: Option<Job>)
      modifies this, state, store
      ensures (View(), job) == RunActionStep(old(View()), id, readOnly, now, r)
    {
      if !readOnly && !RecoveryReady(state.Snapshot()) {
        return None;
      }
      if fatal || running || (!readOnly && !state.status.Active?) {
        return None;
      }
      var i := FindAction(state.actions, id);
      if i < 0 {
        return None;
      }
      job := BeginActionLocked(i, readOnly, now, r);
    }

    /** `stepActionLocked` after the destination has answered, or not. */
    method FinishAction(job: Job, out: RecordOutcome, now: int, r: SaveResult) returns (ok: bool)
      requires job.ActionJob? && job.index < |state.actions|
      modifies this, state, store
      ensures View() == SettleAction(old(View()), job, out, now, r) && ok == r.Saved?
    {
      hide ValidReceipt;
      ghost var before := state.Snapshot();
      running := false;
      var a := state.actions[job.index];
      var problem := out.failed || out.absent;
      if !out.failed && ValidReceipt(job.copy, out.receipt) {
        a := a.(status := Succeeded, receipt := out.receipt);
      } else if !out.failed && out.absent {
        a := a.(status := RetryRequired);
      } else {
        a := a.(status := Unknown);
        problem := true;
      }
      state.actions := state.actions[job.index := a];
      assert WithIntent(PausedIf(state.Snapshot(), problem), job.index, a, now)
          == WithIntent(PausedIf(before, problem), job.index, a, now);
      ok := PauseAndSave(job.index, problem, now, r);
    }

    /** `Step` from the naming of the cycle until it leaves the mutex. */
    method BeginCycleLocked(now: int, r: SaveResult) returns (job: Option<Job>)
      requires !fatal && !running && state.completed < state.protocol.maxCycles
      modifies this, state, store
      ensures (View(), job) == BeginCycle(old(View()), now, r)
    {
      if state.pending.NoCycle? {
        state.pending := CycleName(state.agentId, state.completed + 1);
        state.Append(now, Started, state.completed + 1);
      }
      var spent, ok := ReserveModel(store, state, now, r);
      if spent {
        fatal := !ok;
        return None;
      }
      ok := store.Save(state, r);
      if !ok {
        fatal := true;
        return None;
      }
      running := true;
      return Some(CycleJob(epoch, state.protocol,
                           Request(state.agentId, state.protocol.mission, state.pending, state.protocol.workspace,
                                   state.memory)));
    }

    /** `Step` until it leaves the mutex. */
    method Step(now: int, r: SaveResult) returns (job: Option<Job>)
      modifies this, state, store
      ensures (View(), job) == BeginStep(old(View()), now, r)
    {
      if fatal || running || !state.status.Active? || !RecoveryReady(state.Snapshot()) {
        return None;
      }
      var i := FindNextAction(state.actions);
      if i >= 0 {
        if state.actions[i].status.Proposed? || state.actions[i].status.RetryRequired? {
          return None;
        }
        job := BeginActionLocked(i, false, now, r);
        return;
      }
      if !Due(state.status, state.nextRun, now) {
        return None;
      }
      if state.completed >= state.protocol.maxCycles {
        state.status := Status.Completed;
        var ok := store.Save(state, r);
        fatal := !ok;
        return None;
      }
      job := BeginCycleLocked(now, r);
    }

    /** `Step` after the executor has returned. */
    method FinishCycle(job: Job, stopped: bool, result: Option<Bytes>, stored: SaveResult, now: int, r: SaveResult)
      requires job.CycleJob?
      modifies this, state, store
      ensures View() == SettleCycle(old(View()), job, stopped, result, stored, now, r)
    {
      running := false;
      if job.epoch != epoch || stopped {
        return;
      }
      if result.None? {
        state.status := Paused;
        state.Append(now, ExecutionFailed, state.completed + 1);
        var ok := store.Save(state, r);
        if !ok {
          fatal := true;
        }
        return;
      }
      var artifact, ok := store.PutArtifact(state.completed + 1, result.value, stored);
      if !ok {
        fatal := true;
        return;
      }
      CommitResult(state, artifact, result.value, job.protocol.intervalSeconds, job.protocol.maxCycles, now);
      ok := store.Save(state, r);
      fatal := !ok;
    }
  }

  /** The assignments that put a cycle's result into the mission, common to `Step` and `Tick`. */
  method CommitResult(st: Mission, artifact: Artifact, result: Bytes, interval: int, maxCycles: int, now: int)
    requires artifact == Artifact(st.completed + 1, Digest(result), |result|)
    modifies st
    ensures st.Snapshot() == Committed(old(st.Snapshot()), result, interval, maxCycles, now)
  {
    st.artifacts, st.memory, st.completed := st.artifacts + [artifact], Canonical(result), st.completed + 1;
    st.pending, st.nextRun := NoCycle, now + Delay(interval);
    st.events := st.events + [Event(now, CycleCompleted, st.completed)];
    assert st.Snapshot() == Committed(old(st.Snapshot()), result, interval, st.completed + 1, now);
    if st.completed >= maxCycles {
      st.status := Status.Completed;
    }
  }

  /** `Tick`, one turn of the `run` command. */
  method Tick(s: Store, st: Mission, t: Turn)
    modifies s, st
    ensures var c := old(Core(st.Snapshot(), s.state, s.files, false, 0, false));
            SameResult(TickStep(c, t), Core(st.Snapshot(), s.state, s.files, false, 0, false))
  {
    if st.status.Active? && !RecoveryReady(st.Snapshot()) {
      return;
    }
    var i := FindNextAction(st.actions);
    if st.status.Active? && i >= 0 {
      var c := new Controller(s, st);
      var job := c.Step(t.now, t.begin);
      if job.Some? {
        var _ := c.FinishAction(job.value, t.outcome, t.later, t.end);
      }
      return;
    }
    if !Due(st.status, st.nextRun, t.now) {
      return;
    }
    TickCycle(s, st, t);
  }

  /** The cycle of `Tick`. */
  method TickCycle(s: Store, st: Mission, t: Turn)
    modifies s, st
    ensures var (d, job) := BeginCycle(old(Core(st.Snapshot(), s.state, s.files, false, 0, false)), t.now, t.begin);
            SameResult(Core(st.Snapshot(), s.state, s.files, false, 0, false),
              if job.None? || t.result.None? then d
              else if !t.stored.Saved? then d.(files := StoreArtifact(d.files, t.result.value, t.stored))
              else Persist(d.(files := StoreArtifact(d.files, t.result.value, t.stored)),
                           Committed(d.mem, t.result.value, d.mem.protocol.intervalSeconds, d.mem.protocol.maxCycles,
                                     t.later), t.end))
  {
    if st.completed >= st.protocol.maxCycles {
      st.status := Status.Completed;
      var _ := s.Save(st, t.begin);
      return;
    }
    if st.pending.NoCycle? {
      st.pending := CycleName(st.agentId, st.completed + 1);
      st.Append(t.now, Started, st.completed + 1);
    }
    var spent, ok := ReserveModel(s, st, t.now, t.begin);
    if spent {
      return;
    }
    ok := s.Save(st, t.begin);
    if !ok || t.result.None? {
      return;
    }
    var artifact;
    artifact, ok := s.PutArtifact(st.completed + 1, t.result.value, t.stored);
    if !ok {
      return;
    }
    CommitResult(st, artifact, t.result.value, st.protocol.intervalSeconds, st.protocol.maxCycles, t.later);
    ok := s.Save(st, t.end);
  }

  /** `ActivateRecovery` on a loaded mission; `checked` is the verdict of `Doctor`. */
  method ActivateRecovery(s: Store, st: Mission, sourceFenced: bool, checked: bool, now: int, r: SaveResult)
    returns (v: Verdict)
    modifies s`state, st
    ensures var c := old(Core(st.Snapshot(), s.state, s.files, false, 0, false));
            var (d, w) := ActivateStep(c, sourceFenced, checked, now, r);
            v == w && st.Snapshot() == d.mem && s.state == d.disk
  {
    if st.recovery.None? || !sourceFenced || !checked {
      return Refused;
    }
    st.recovery := Some(st.recovery.value.(ready := true));
    st.Append(now, RecoveryValidated, st.completed);
    var ok := s.Save(st, r);
    v := if ok then Done else StorageFailed;
  }
}
