/** Write-through coherence, loadability and the cycle ledger across every locked section. */
module Coherence {
  import opened Foundations
  import opened Kernel
  import opened Intents
  import opened Missions
  import opened Sections

  /** Every artifact the snapshot refers to passes `ReadArtifact`. */
  ghost predicate Readable(s: State, files: map<Hash, Bytes>) {
    forall i :: 0 <= i < |s.artifacts| ==> ReadsBack(s.artifacts[i], files)
  }

  predicate ReadsBack(a: Artifact, files: map<Hash, Bytes>) {
    a.hash in files && Digest(files[a.hash]) == a.hash && |files[a.hash]| == a.bytes
  }

  /** The artifact store is content addressed. */
  ghost predicate Addressed(files: map<Hash, Bytes>) {
    forall h :: h in files ==> Digest(files[h]) == h
  }

  /** Holds whenever the mutex is free. */
  ghost predicate Sound(c: Core) {
    match c
    case Core(mem, disk, files, fatal, _, _) =>
      && Consistent(mem) && Consistent(disk)
      && Evolves(disk, mem)
      && Addressed(files) && Readable(mem, files) && Readable(disk, files)
      && (!fatal ==> disk == mem)
  }

  /** What one section may do to memory and disk; it leaves the mutex with everything sound. */
  ghost predicate Advances(c: Core, d: Core) {
    match d
    case Core(mem, disk, files, _, epoch, _) =>
      && Sound(d)
      && Evolves(c.mem, mem) && Evolves(c.disk, disk)
      && (disk == c.disk || disk == mem)
      && c.files.Keys <= files.Keys
      && c.epoch <= epoch
  }

  lemma AdvancesParts(c: Core, d: Core)
    requires Advances(c, d)
    ensures Sound(d) && Evolves(c.mem, d.mem) && Evolves(c.disk, d.disk)
    ensures d.disk == c.disk || d.disk == d.mem
    ensures c.files.Keys <= d.files.Keys && c.epoch <= d.epoch
  {
  }

  lemma SoundParts(c: Core)
    requires Sound(c)
    ensures Consistent(c.mem) && Consistent(c.disk) && Evolves(c.disk, c.mem)
    ensures !c.fatal ==> c.disk == c.mem
  {
  }

  lemma SoundItself(c: Core)
    requires Sound(c)
    ensures Advances(c, c)
  {
  }

  /** `b` is `c` with other flags: the new memory is published from there. */
  lemma PersistSound(c: Core, b: Core, m: State, r: SaveResult)
    requires Sound(c) && Consistent(m) && Evolves(c.mem, m) && m.artifacts == c.mem.artifacts
    requires b == c.(epoch := b.epoch, running := b.running) && c.epoch <= b.epoch
    ensures Advances(c, Persist(b, m, r))
  {
    EvolvesReflexive(c.disk);
    EvolvesReflexive(m);
    EvolvesTransitive(c.disk, c.mem, m);
    hide Consistent, Evolves, Addressed;
  }

  // ---------------------------------------------------------------- commands

  lemma ControlSound(c: Core, action: Admin, now: int, r: SaveResult)
    requires Sound(c)
    ensures Advances(c, ControlStep(c, action, now, r).0)
  {
    SoundItself(c);
    assert Consistent(c.mem);
    hide Consistent, Evolves, Sound, Advances;
    var s := Transition(c.mem.status, action);
    if !c.fatal && !Terminal(c.mem.status) && s.Some? && (action.Resume? ==> RecoveryReady(c.mem)) {
      var t := c.mem.(status := s.value);
      StatusConsistent(c.mem, s.value);
      LogConsistent(t, now, Operator(action), c.mem.completed);
      EvolvesTransitive(c.mem, t, Log(t, now, Operator(action), c.mem.completed));
      PersistSound(c, c.(epoch := c.epoch + 1), Log(t, now, Operator(action), c.mem.completed), r);
    }
  }

  lemma AuthorizeLegal(a: Intent, command: Command, agentId: string, policy: Policy)
    requires ValidIntent(a, agentId, policy) && Provisioned(a, policy) && ValidPolicy(policy)
    requires Authorize(a, command, policy).Some?
    ensures var b := Authorize(a, command, policy).value;
            IntentEvolves(a, b) && ValidIntent(b, agentId, policy) && Provisioned(b, policy)
  {
  }

  lemma ProposeSound(c: Core, payload: Payload, newId: Option<Id>, now: int, r: SaveResult)
    requires Sound(c) && AcceptsCommands(c)
    requires newId.Some? ==>
               WellFormedId(newId.value) && forall i :: 0 <= i < |c.mem.actions| ==> c.mem.actions[i].id != newId.value
    ensures Advances(c, ProposeStep(c, payload, newId, now, r).0)
  {
    SoundItself(c);
    assert Consistent(c.mem);
    hide Consistent, Evolves, Sound, Advances, ValidActions;
    if ValidPayload(payload) && |c.mem.actions| < MAX_ACTIONS && newId.Some? {
      var a := Proposal(c.mem, newId.value, payload);
      assert ValidPolicy(c.mem.writes.value) by {
        hide ValidIntent;
        assert ValidActions(c.mem.actions, c.mem.agentId, c.mem.writes);
      }
      WithNewIntentConsistent(c.mem, a, now);
      PersistSound(c, c, WithNewIntent(c.mem, a, now), r);
    }
  }

  lemma DecideSound(c: Core, i: nat, command: Command, now: int, r: SaveResult)
    requires Sound(c) && AcceptsCommands(c) && i < |c.mem.actions|
    ensures Advances(c, DecideStep(c, i, command, now, r).0)
  {
    SoundItself(c);
    assert Consistent(c.mem);
    IntentFacts(c.mem, i);
    hide Consistent, Evolves, Sound, Advances, ValidActions;
    var b := Authorize(c.mem.actions[i], command, c.mem.writes.value);
    if b.Some? {
      AuthorizeLegal(c.mem.actions[i], command, c.mem.agentId, c.mem.writes.value);
      hide Authorize, ValidIntent, IntentEvolves, Provisioned;
      WithIntentConsistent(c.mem, i, b.value, now);
      PersistSound(c, c, WithIntent(c.mem, i, b.value, now), r);
    }
  }

  lemma ActionControlSound(c: Core, command: Command, id: Id, hash: Fingerprint, payload: Payload,
                           newId: Option<Id>, now: int, r: SaveResult)
    requires Sound(c)
    requires newId.Some? ==>
               WellFormedId(newId.value) && forall i :: 0 <= i < |c.mem.actions| ==> c.mem.actions[i].id != newId.value
    ensures Advances(c, ActionControlStep(c, command, id, hash, payload, newId, now, r).0)
  {
    SoundItself(c);
    hide Sound, Advances, ValidActions, ProposeStep, DecideStep;
    if AcceptsCommands(c) {
      if command.Propose? {
        ProposeSound(c, payload, newId, now, r);
      } else if Position(c.mem.actions, id) >= 0 {
        DecideSound(c, Position(c.mem.actions, id), command, now, r);
      }
    }
  }

  // ---------------------------------------------------------------- jobs outside the mutex

  /** What an in-flight job may rely on when it comes back. `Control` and nothing else runs in
      between, so an intent's job finds its own marker on disk, and a cycle's job whose epoch is
      still current finds the very snapshot it started from. */
  ghost predicate Fits(c: Core, job: Job) {
    match job
    case ActionJob(i, copy, _) =>
      && i < |c.mem.actions| && c.disk.actions == c.mem.actions
      && c.mem.actions[i] == copy && copy.status.InFlight?
    case CycleJob(epoch, protocol, request) =>
      && c.disk.actions == c.mem.actions && NextAction(c.mem.actions) == -1
      && epoch <= c.epoch
      && (epoch == c.epoch ==> Undisturbed(c, protocol, request))
  }

  /** A `Begin` section leaves the mutex with a job that fits, or with no job at all. */
  ghost predicate Began(c: Core, begun: (Core, Option<Job>)) {
    match begun
    case (d, None) => Advances(c, d) && d.running == c.running
    case (d, Some(job)) => Advances(c, d) && Fits(d, job) && d.running && !c.running && !d.fatal
  }

  ghost predicate Undisturbed(c: Core, protocol: Protocol, request: Request) {
    && !c.fatal && c.disk == c.mem && c.mem.status.Active?
    && c.mem.pending == CycleName(c.mem.agentId, c.mem.completed + 1)
    && protocol == c.mem.protocol && request == RequestOf(c.mem)
  }

  /** An intent's job stays fit, and a stale cycle's job stays stale, under operator control. */
  lemma ControlKeepsJob(c: Core, job: Job, action: Admin, now: int, r: SaveResult)
    requires Fits(c, job)
    ensures Fits(ControlStep(c, action, now, r).0, job)
  {
  }

  // ---------------------------------------------------------------- write intents

  lemma PausedIfConsistent(s: State, condition: bool)
    requires Consistent(s)
    ensures Consistent(PausedIf(s, condition)) && Evolves(s, PausedIf(s, condition))
  {
    if condition && s.status.Active? {
      StatusConsistent(s, Paused);
    } else {
      EvolvesReflexive(s);
    }
  }

  /** Publish an intent's change, with the pause that may come with it. */
  lemma IntentSaveSound(c: Core, b: Core, pause: bool, i: nat, a: Intent, now: int, r: SaveResult)
    requires Sound(c) && i < |c.mem.actions|
    requires b == c.(running := b.running)
    requires IntentEvolves(c.mem.actions[i], a)
    requires c.mem.writes.Some? && ValidIntent(a, c.mem.agentId, c.mem.writes.value)
             && Provisioned(a, c.mem.writes.value)
    ensures Advances(c, Persist(b, WithIntent(PausedIf(c.mem, pause), i, a, now), r))
  {
    assert Consistent(c.mem);
    hide Consistent, Evolves, Sound, Advances, ValidIntent;
    var m := PausedIf(c.mem, pause);
    PausedIfConsistent(c.mem, pause);
    WithIntentConsistent(m, i, a, now);
    EvolvesTransitive(c.mem, m, WithIntent(m, i, a, now));
    PersistSound(c, b, WithIntent(m, i, a, now), r);
  }

  lemma BeginActionSound(c: Core, i: nat, readOnly: bool, now: int, r: SaveResult)
    requires Sound(c) && !c.fatal && !c.running && i < |c.mem.actions|
    ensures Began(c, BeginAction(c, i, readOnly, now, r))
  {
    SoundItself(c);
    assert Consistent(c.mem);
    hide Consistent, Evolves, Sound, Advances, ValidActions;
    IntentFacts(c.mem, i);
    var a := c.mem.actions[i];
    if Runnable(a.status, readOnly) {
      var allowWrite := !readOnly && a.status.Approved?;
      if a.checks >= MAX_CHECKS || (allowWrite && a.attempts >= c.mem.writes.value.maxAttempts) {
        IntentSaveSound(c, c, true, i, a, now, r);
      } else {
        IntentSaveSound(c, c, false, i, Reserved(a, allowWrite), now, r);
        IntentSaveSound(c, c.(running := true), false, i, Reserved(a, allowWrite), now, r);
      }
    }
  }

  lemma SettleActionSound(c: Core, job: Job, out: RecordOutcome, now: int, r: SaveResult)
    requires Sound(c) && job.ActionJob? && Fits(c, job)
    ensures Advances(c, SettleAction(c, job, out, now, r))
  {
    IntentFacts(c.mem, job.index);
    hide Consistent, Evolves, Sound, Advances, ValidActions;
    var b := Settled(c.mem.actions[job.index], job.copy, out);
    IntentSaveSound(c, c.(running := false), b.status.Unknown? || out.absent, job.index, b, now, r);
  }

  // ---------------------------------------------------------------- cycles

  lemma NamedConsistent(s: State, now: int)
    requires Consistent(s)
    ensures Consistent(Named(s, now)) && Evolves(s, Named(s, now))
    ensures var t := Named(s, now);
            t == s.(pending := CycleName(s.agentId, s.completed + 1), events := t.events)
  {
    if s.pending.NoCycle? {
      PendingConsistent(s, s.modelAttempts);
      hide Consistent, Evolves;
      var t := s.(pending := CycleName(s.agentId, s.completed + 1), modelAttempts := s.modelAttempts);
      LogConsistent(t, now, Started, s.completed + 1);
      EvolvesTransitive(s, t, Named(s, now));
    } else {
      EvolvesReflexive(s);
    }
  }

  lemma ReservationConsistent(s: State)
    requires Consistent(s) && s.pending == CycleName(s.agentId, s.completed + 1) && !BudgetSpent(s)
    ensures Consistent(WithReservation(s)) && Evolves(s, WithReservation(s))
    ensures WithReservation(s) == s.(modelAttempts := WithReservation(s).modelAttempts)
  {
    PendingConsistent(s, if s.cognition.Some? then s.modelAttempts + 1 else s.modelAttempts);
  }

  lemma BudgetPauseConsistent(s: State, now: int)
    requires Consistent(s) && s.status.Active?
    ensures var t := Log(s.(status := Paused), now, BudgetExhausted, s.completed); Consistent(t) && Evolves(s, t)
  {
    StatusConsistent(s, Paused);
    hide Consistent, Evolves;
    LogConsistent(s.(status := Paused), now, BudgetExhausted, s.completed);
    EvolvesTransitive(s, s.(status := Paused), Log(s.(status := Paused), now, BudgetExhausted, s.completed));
  }

  /** An active mission always has a cycle left, so the branch of `Step` and `Tick` that only marks
      the mission completed is never taken by a run. */
  lemma ActiveHasCyclesLeft(s: State)
    requires Consistent(s) && s.status.Active?
    ensures s.completed < s.protocol.maxCycles && RecoveryReady(s)
    ensures s.pending == NoCycle || s.pending == CycleName(s.agentId, s.completed + 1)
  {
  }

  /** Publishing a named and paid cycle lets its job out, unless the save fails. */
  lemma PublishCycle(c: Core, n: State, r: SaveResult)
    requires Sound(c) && !c.fatal && !c.running && NextAction(c.mem.actions) == -1
    requires Consistent(n) && Evolves(c.mem, n) && n.artifacts == c.mem.artifacts && n.actions == c.mem.actions
    requires n.status.Active? && n.pending == CycleName(n.agentId, n.completed + 1)
    ensures var d := Persist(c, n, r);
            Began(c,
                  if d.fatal then (d, None)
                  else (d.(running := true), Some(CycleJob(c.epoch, n.protocol, RequestOf(n)))))
  {
    PersistSound(c, c, n, r);
    PersistSound(c, c.(running := true), n, r);
    hide Consistent, Evolves, Sound, Advances;
  }

  lemma BeginCycleSound(c: Core, now: int, r: SaveResult)
    requires Sound(c) && !c.fatal && !c.running && c.mem.status.Active? && NextAction(c.mem.actions) == -1
    ensures Began(c, BeginCycle(c, now, r))
  {
    ActiveHasCyclesLeft(c.mem);
    assert Consistent(c.mem);
    hide Consistent, Sound;
    var m := Named(c.mem, now);
    NamedConsistent(c.mem, now);
    if BudgetSpent(m) {
      hide Evolves, Advances, Named;
      var t := Log(m.(status := Paused), now, BudgetExhausted, m.completed);
      BudgetPauseConsistent(m, now);
      EvolvesTransitive(c.mem, m, t);
      PersistSound(c, c, t, r);
    } else {
      hide Evolves, Began, Named, WithReservation, NextAction;
      ReservationConsistent(m);
      EvolvesTransitive(c.mem, m, WithReservation(m));
      PublishCycle(c, WithReservation(m), r);
    }
  }

  lemma BeginStepSound(c: Core, now: int, r: SaveResult)
    requires Sound(c)
    ensures Began(c, BeginStep(c, now, r))
  {
    SoundItself(c);
    assert Began(c, (c, None));
    hide Consistent, Evolves, Sound, Advances, Began, BeginAction, BeginCycle;
    if !c.fatal && !c.running && c.mem.status.Active? && RecoveryReady(c.mem) {
      var i := NextAction(c.mem.actions);
      if i >= 0 {
        BeginActionSound(c, i, false, now, r);
      } else {
        BeginCycleSound(c, now, r);
      }
    }
  }

  lemma RunActionSound(c: Core, id: Id, readOnly: bool, now: int, r: SaveResult)
    requires Sound(c)
    ensures Began(c, RunActionStep(c, id, readOnly, now, r))
  {
    SoundItself(c);
    assert Began(c, (c, None));
    hide Consistent, Evolves, Sound, Advances, Began, BeginAction;
    var i := Position(c.mem.actions, id);
    if !c.fatal && !c.running && i >= 0 {
      BeginActionSound(c, i, readOnly, now, r);
    }
  }

  lemma CommittedLedger(s: State, result: Bytes, interval: int, now: int)
    requires LedgerAgrees(s) && s.status.Active? && interval == s.protocol.intervalSeconds
    ensures LedgerAgrees(Committed(s, result, interval, s.protocol.maxCycles, now))
  {
  }

  lemma CommittedConsistent(s: State, result: Bytes, interval: int, now: int)
    requires Consistent(s) && s.status.Active? && interval == s.protocol.intervalSeconds
    ensures var t := Committed(s, result, interval, s.protocol.maxCycles, now); Consistent(t) && Evolves(s, t)
  {
    CommittedLedger(s, result, interval, now);
    hide ValidSettings, ValidActions, LedgerAgrees;
  }

  /** Storing one more artifact breaks no reference. */
  lemma StoreArtifactSound(s: State, files: map<Hash, Bytes>, b: Bytes, r: SaveResult)
    requires Addressed(files) && Readable(s, files)
    ensures Addressed(StoreArtifact(files, b, r)) && Readable(s, StoreArtifact(files, b, r))
    ensures files.Keys <= StoreArtifact(files, b, r).Keys
  {
  }

  lemma CommittedReadable(s: State, files: map<Hash, Bytes>, result: Bytes, interval: int, maxCycles: int, now: int)
    requires Addressed(files) && Readable(s, files)
    ensures Addressed(StoreArtifact(files, result, Saved))
    ensures Readable(Committed(s, result, interval, maxCycles, now), StoreArtifact(files, result, Saved))
  {
  }

  lemma CommittedEvolves(c: Core, result: Bytes, interval: int, now: int)
    requires Sound(c) && c.mem.status.Active? && interval == c.mem.protocol.intervalSeconds
    ensures var m := Committed(c.mem, result, interval, c.mem.protocol.maxCycles, now);
            Consistent(m) && Evolves(c.mem, m) && Evolves(c.disk, m)
  {
    hide Readable, Addressed, Evolves, Consistent, Committed;
    CommittedConsistent(c.mem, result, interval, now);
    EvolvesTransitive(c.disk, c.mem, Committed(c.mem, result, interval, c.mem.protocol.maxCycles, now));
  }

  lemma CommitSound(c: Core, files: map<Hash, Bytes>, result: Bytes, interval: int, now: int, r: SaveResult)
    requires Sound(c) && c.mem.status.Active? && interval == c.mem.protocol.intervalSeconds
    requires files == StoreArtifact(c.files, result, Saved)
    ensures Advances(c,
                     Persist(c.(running := false, files := files),
                             Committed(c.mem, result, interval, c.mem.protocol.maxCycles, now), r))
  {
    hide Consistent, Evolves, Addressed, Readable, Committed;
    var m := Committed(c.mem, result, interval, c.mem.protocol.maxCycles, now);
    CommittedEvolves(c, result, interval, now);
    EvolvesReflexive(m);
    EvolvesReflexive(c.disk);
    StoreArtifactSound(c.disk, c.files, result, Saved);
    CommittedReadable(c.mem, c.files, result, interval, c.mem.protocol.maxCycles, now);
    hide StoreArtifact;
  }

  lemma SettleCycleSound(c: Core, job: Job, stopped: bool, result: Option<Bytes>, stored: SaveResult, now: int,
                         r: SaveResult)
    requires Sound(c) && job.CycleJob? && Fits(c, job)
    ensures Advances(c, SettleCycle(c, job, stopped, result, stored, now, r))
  {
    SoundItself(c);
    assert Consistent(c.mem) && Addressed(c.files) && Readable(c.mem, c.files) && Readable(c.disk, c.files);
    hide Consistent, Evolves, Committed, Addressed, Readable;
    if job.epoch == c.epoch && !stopped {
      if result.None? {
        hide Sound;
        var t := Log(c.mem.(status := Paused), now, ExecutionFailed, c.mem.completed + 1);
        StatusConsistent(c.mem, Paused);
        LogConsistent(c.mem.(status := Paused), now, ExecutionFailed, c.mem.completed + 1);
        EvolvesTransitive(c.mem, c.mem.(status := Paused), t);
        PersistSound(c, c.(running := false), t, r);
      } else {
        StoreArtifactSound(c.mem, c.files, result.value, stored);
        StoreArtifactSound(c.disk, c.files, result.value, stored);
        if stored.Saved? {
          hide Sound, Advances, Persist, StoreArtifact;
          CommitSound(c, StoreArtifact(c.files, result.value, stored), result.value, job.protocol.intervalSeconds, now,
                      r);
        }
      }
    }
  }

  lemma ActivateSound(c: Core, sourceFenced: bool, checked: bool, now: int, r: SaveResult)
    requires Sound(c)
    ensures Advances(c, ActivateStep(c, sourceFenced, checked, now, r).0)
  {
    SoundItself(c);
    if c.mem.recovery.Some? && sourceFenced && checked {
      var t := c.mem.(recovery := Some(c.mem.recovery.value.(ready := true)));
      assert Consistent(t) && Evolves(c.mem, t) by {
        hide ValidSettings, ValidActions, Sound;
      }
      hide Consistent, Evolves, Sound, Advances;
      LogConsistent(t, now, RecoveryValidated, c.mem.completed);
      EvolvesTransitive(c.mem, t, Log(t, now, RecoveryValidated, c.mem.completed));
      PersistSound(c, c, Log(t, now, RecoveryValidated, c.mem.completed), r);
    }
  }

  /** A cycle starts only when it is due, and a committed one is due again a delay later: between the
      commit of a cycle and the start of the next lies at least the interval, unless the interval is so
      long that the delay wraps around. */
  lemma CyclesSpaced(c: Core, job: Job, result: Bytes, stored: SaveResult, now: int, r: SaveResult, later: int,
                     r': SaveResult)
    requires job.CycleJob? && job.epoch == c.epoch && stored.Saved?
    ensures var d := SettleCycle(c, job, false, Some(result), stored, now, r);
            var begun := BeginStep(d, later, r').1;
            begun.Some? && begun.value.CycleJob? ==>
              && later >= now + Delay(job.protocol.intervalSeconds)
              && (1 <= job.protocol.intervalSeconds <= LONGEST_INTERVAL ==>
                    later >= now + job.protocol.intervalSeconds * SECOND)
              && d.mem.completed < job.protocol.maxCycles
  {
    if job.protocol.intervalSeconds >= 1 {
      DelayMeaning(job.protocol.intervalSeconds);
    }
    hide BeginCycle, Delay;
  }

  // ---------------------------------------------------------------- after a failed save

  /** While an error is pending nothing new is accepted, authorized or started, and the result of a
      cycle in flight is dropped. */
  lemma FatalBlocks(c: Core, action: Admin, command: Command, id: Id, hash: Fingerprint, payload: Payload,
                    newId: Option<Id>, readOnly: bool, now: int, r: SaveResult)
    requires c.fatal
    ensures ControlStep(c, action, now, r) == (c, Refused)
    ensures ActionControlStep(c, command, id, hash, payload, newId, now, r) == (c, Refused)
    ensures RunActionStep(c, id, readOnly, now, r) == (c, None) && BeginStep(c, now, r) == (c, None)
  {
  }

  lemma FatalDropsCycle(c: Core, job: Job, stopped: bool, result: Option<Bytes>, stored: SaveResult, now: int,
                        r: SaveResult)
    requires c.fatal && job.CycleJob? && Fits(c, job)
    ensures SettleCycle(c, job, stopped, result, stored, now, r) == c.(running := false)
  {
  }

  /** The exception: the settle of an intent decides anew whether an error is pending. It clears one
      exactly when its own save succeeds, and then the whole memory, with the change whose save had
      failed, has reached the disk. */
  lemma SettleClearsFatal(c: Core, job: Job, out: RecordOutcome, now: int, r: SaveResult)
    requires job.ActionJob? && job.index < |c.mem.actions|
    ensures var d := SettleAction(c, job, out, now, r);
            && (!d.fatal <==> r.Saved?)
            && (!d.fatal ==> d.disk == d.mem && c.mem.events <= d.disk.events)
            && (d.mem.status == c.mem.status || (c.mem.status.Active? && d.mem.status.Paused?))
  {
  }

  // ---------------------------------------------------------------- Step refines Tick

  /** What a turn leaves behind for the next process: the durable part and the memory. */
  predicate SameResult(c: Core, d: Core) {
    c.mem == d.mem && c.disk == d.disk && c.files == d.files
  }

  /** Every turn of the sequential runner is a turn of the concurrent controller that nobody
      interrupts: the same begin and, when the work succeeds, the same settle; when the executor
      fails, `Tick` stops where a kill would stop `Step`. */
  lemma TickIsUninterruptedStep(c: Core, t: Turn)
    requires !c.fatal && !c.running
    ensures var (d, job) := BeginStep(c, t.now, t.begin);
            match job
            case None => SameResult(TickStep(c, t), d)
            case Some(ActionJob(_, _, _)) => TickStep(c, t) == SettleAction(d, job.value, t.outcome, t.later, t.end)
            case Some(CycleJob(_, _, _)) =>
              SameResult(TickStep(c, t),
                         if t.result.None? then Booted(d)
                         else SettleCycle(d, job.value, false, t.result, t.stored, t.later, t.end))
  {
    hide BeginAction, RequestOf, Named;
  }
}
