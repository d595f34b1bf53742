/** internal/core/core.go and internal/core/recovery.go: the durable snapshot of a mission,
    what the loader accepts, and the two properties every published snapshot has. */
module Missions {
  import opened Foundations
  import opened Json
  import opened Kernel
  import opened Intents

  datatype EventKind =
    | Started | CycleCompleted | ExecutionFailed | BudgetExhausted
    | Operator(action: Admin) | Action(status: IntentStatus, id: Id)
    | Restored | RecoveryValidated

  datatype Event = Event(at: int, kind: EventKind, cycle: int)

  datatype Artifact = Artifact(cycle: int, hash: Hash, bytes: int)

  /** The persisted name of the cycle in progress, formatted "agent:cycle" by the source. */
  datatype Pending = NoCycle | CycleName(agent: string, cycle: int)

  datatype Cognition = Cognition(model: string, maxCalls: int, maxTokens: int)

  datatype Manifest = Manifest(runtime: string, script: Hash)

  datatype Recovery = Recovery(backup: Hash, originalStatus: Status, ready: bool)

  datatype State = State(
    version: int, agentId: string, protocol: Protocol, status: Status, completed: int, nextRun: int,
    pending: Pending, memory: Bytes, events: seq<Event>, execution: Option<Manifest>, artifacts: seq<Artifact>,
    cognition: Option<Cognition>, modelAttempts: int, retrieval: bool, writes: Option<Policy>,
    actions: seq<Intent>, recovery: Option<Recovery>)

  predicate ValidCognition(c: Cognition) {
    !Blank(c.model) && ByteLength(c.model) <= 200 && 1 <= c.maxCalls <= 10000 && 128 <= c.maxTokens <= 4096
  }

  predicate RecoveryReady(s: State) {
    s.recovery.Some? ==> s.recovery.value.ready
  }

  predicate ValidSettings(version: int, agentId: string, protocol: Protocol, cognition: Option<Cognition>,
                          retrieval: bool) {
    && version == 1 && agentId != ""
    && ValidProtocol(protocol)
    && (cognition.Some? ==> ValidCognition(cognition.value))
    && (retrieval ==> cognition.Some?)
  }

  /** `decodeState`: the snapshots a process can start from. */
  predicate Loadable(s: State) {
    && ValidSettings(s.version, s.agentId, s.protocol, s.cognition, s.retrieval)
    && s.modelAttempts >= 0
    && !s.status.OtherStatus?
    && ValidActions(s.actions, s.agentId, s.writes)
  }

  /** The checks of the loader, in its order. */
  method CheckState(s: State) returns (ok: bool)
    ensures ok <==> Loadable(s)
  {
    hide ValidActions, ValidProtocol, ValidCognition;
    if s.version != 1 || s.agentId == "" || s.modelAttempts < 0 {
      return false;
    }
    if !ValidProtocol(s.protocol) {
      return false;
    }
    if s.cognition.Some? && !ValidCognition(s.cognition.value) {
      return false;
    }
    if s.retrieval && s.cognition.None? {
      return false;
    }
    match s.status {
      case Active | Paused | Cancelled | Completed =>
      case OtherStatus(_) =>
        return false;
    }
    ok := ValidateActions(s.actions, s.agentId, s.writes);
  }

  /** The range of every setting, given that the rest is legal: what the loader lets an operator, or an edited
      file, put there. */
  lemma SettingsExact(s: State)
    requires Loadable(s)
    ensures forall x :: Loadable(s.(version := x)) <==> x == 1
    ensures forall x :: Loadable(s.(protocol := s.protocol.(intervalSeconds := x))) <==> x >= 1
    ensures forall x :: Loadable(s.(protocol := s.protocol.(timeoutSeconds := x))) <==> x >= 1
    ensures forall x :: Loadable(s.(protocol := s.protocol.(maxCycles := x))) <==> 1 <= x <= 10000
    ensures forall x :: Loadable(s.(protocol := s.protocol.(mission := x))) <==> !Blank(x)
    ensures forall x :: Loadable(s.(protocol := s.protocol.(script := x))) <==> AbsolutePath(x)
    ensures forall x :: Loadable(s.(protocol := s.protocol.(workspace := x))) <==> AbsolutePath(x)
    ensures forall x :: Loadable(s.(modelAttempts := x)) <==> x >= 0
    ensures forall x :: Loadable(s.(status := x)) <==> x == Active || x == Paused || x == Cancelled || x == Completed
    ensures forall x :: Loadable(s.(retrieval := x)) <==> x ==> s.cognition.Some?
    ensures s.cognition.Some? ==>
              var c := s.cognition.value;
              && (forall x :: Loadable(s.(cognition := Some(c.(maxCalls := x)))) <==> 1 <= x <= 10000)
              && (forall x :: Loadable(s.(cognition := Some(c.(maxTokens := x)))) <==> 128 <= x <= 4096)
              && (forall x :: Loadable(s.(cognition := Some(c.(model := x)))) <==> !Blank(x) && ByteLength(x) <= 200)
    ensures s.actions == [] ==> forall p :: Loadable(s.(writes := Some(p))) <==> 1 <= p.maxAttempts <= 5
    ensures !Loadable(s.(agentId := ""))
  {
    assert s.actions == [] ==>
        forall p :: ValidActions(s.actions, s.agentId, Some(p)) <==> 1 <= p.maxAttempts <= 5;
    hide Blank, AbsolutePath, ByteLength, ValidActions;
  }

  /** `New`, followed by the optional settings of the `init` command. */
  function NewMission(agentId: string, protocol: Protocol, execution: Manifest, cognition: Option<Cognition>,
                      retrieval: bool, writes: Option<Policy>, now: int): State {
    State(1, agentId, protocol, Active, 0, now, NoCycle, [], [], Some(execution), [], cognition, 0, retrieval, writes,
          [], None)
  }

  // ---------------------------------------------------------------- the cycle ledger

  /** The cycles that the event log reports as completed, oldest first. */
  function CompletedCycles(events: seq<Event>): seq<int> {
    if events == [] then []
    else
      var rest := CompletedCycles(events[..|events| - 1]);
      var last := events[|events| - 1];
      if last.kind.CycleCompleted? then rest + [last.cycle] else rest
  }

  function UpTo(n: int): seq<int> {
    if n <= 0 then [] else UpTo(n - 1) + [n]
  }

  /** When the newest completed cycle was committed. */
  function LastCompletion(events: seq<Event>): Option<int> {
    if events == [] then None
    else
      var last := events[|events| - 1];
      if last.kind.CycleCompleted? then Some(last.at) else LastCompletion(events[..|events| - 1])
  }

  lemma CompletionAppend(events: seq<Event>, e: Event)
    ensures CompletedCycles(events + [e])
            == CompletedCycles(events) + (if e.kind.CycleCompleted? then [e.cycle] else [])
    ensures LastCompletion(events + [e]) == if e.kind.CycleCompleted? then Some(e.at) else LastCompletion(events)
  {
    assert (events + [e])[..|events|] == events;
  }

  /** The memory is the JSON value of the newest artifact. */
  predicate MemoryIsLast(s: State) {
    if s.artifacts == [] then s.memory == []
    else
      var last := s.artifacts[|s.artifacts| - 1];
      last.hash.Sha256? && s.memory == Canonical(last.hash.preimage) && last.bytes == |last.hash.preimage|
  }

  /** The next cycle is due one delay after the newest completion. */
  predicate Paced(s: State) {
    LastCompletion(s.events) == if s.completed == 0 then None else Some(s.nextRun - Delay(s.protocol.intervalSeconds))
  }

  /** Artifacts, events, memory and the pending cycle tell one story about `completed`. */
  ghost predicate LedgerAgrees(s: State) {
    && 0 <= s.completed <= s.protocol.maxCycles
    && (s.status.Completed? <==> s.completed == s.protocol.maxCycles)
    && |s.artifacts| == s.completed
    && (forall i :: 0 <= i < |s.artifacts| ==> s.artifacts[i].cycle == i + 1)
    && MemoryIsLast(s) && Paced(s)
    && CompletedCycles(s.events) == UpTo(s.completed)
    && (s.pending == NoCycle || s.pending == CycleName(s.agentId, s.completed + 1))
  }

  // ---------------------------------------------------------------- consistency

  /** Budgets an intent still has, by status. */
  predicate Provisioned(a: Intent, policy: Policy) {
    && (a.status.Proposed? ==> a.attempts == 0 && a.checks == 0)
    && (a.status.Rejected? ==> a.attempts == 0)
    && (a.status.Approved? ==> a.attempts < policy.maxAttempts && a.checks < MAX_CHECKS)
  }

  ghost predicate Ordered(s: State) {
    && Loadable(s)
    && LedgerAgrees(s)
    && (s.status.Active? ==> RecoveryReady(s))
    && (forall i :: 0 <= i < |s.actions| ==> Provisioned(s.actions[i], s.writes.value))
  }

  /** What every snapshot written by a run from `NewMission` satisfies. */
  ghost predicate Consistent(s: State) {
    match s.cognition
    case None => Ordered(s)
    case Some(budget) => Ordered(s) && s.modelAttempts <= budget.maxCalls
  }

  lemma NewMissionConsistent(agentId: string, protocol: Protocol, execution: Manifest, cognition: Option<Cognition>,
                             retrieval: bool, writes: Option<Policy>, now: int)
    requires agentId != "" && ValidProtocol(protocol)
    requires cognition.Some? ==> ValidCognition(cognition.value)
    requires retrieval ==> cognition.Some?
    requires writes.Some? ==> ValidPolicy(writes.value)
    ensures Consistent(NewMission(agentId, protocol, execution, cognition, retrieval, writes, now))
  {
  }

  // ---------------------------------------------------------------- evolution

  /** How one intent may change: its binding never, its counters only upwards, a final one not at all. */
  predicate IntentEvolves(a: Intent, b: Intent) {
    && b.id == a.id && b.operation == a.operation && b.endpoint == a.endpoint
    && b.payload == a.payload && b.digest == a.digest
    && a.attempts <= b.attempts && a.checks <= b.checks
    && (Final(a.status) ==> b == a)
  }

  /** Everything but the recovery gate, which can only open. */
  ghost predicate Continues(s: State, t: State) {
    && t.version == s.version && t.agentId == s.agentId && t.protocol == s.protocol
    && t.execution == s.execution && t.cognition == s.cognition && t.retrieval == s.retrieval && t.writes == s.writes
    && (Terminal(s.status) ==> t.status == s.status)
    && s.completed <= t.completed && s.modelAttempts <= t.modelAttempts
    && s.artifacts <= t.artifacts
    && s.events <= t.events
    && |s.actions| <= |t.actions|
    && (forall i :: 0 <= i < |s.actions| ==> IntentEvolves(s.actions[i], t.actions[i]))
  }

  /** The order in which the snapshots of one instance follow each other. */
  ghost predicate Evolves(s: State, t: State) {
    match s.recovery
    case None => t.recovery == None && Continues(s, t)
    case Some(gate) =>
      t.recovery.Some? && t.recovery.value.(ready := gate.ready) == gate
      && (gate.ready ==> t.recovery.value.ready) && Continues(s, t)
  }

  lemma EvolvesReflexive(s: State)
    ensures Evolves(s, s)
  {
  }

  lemma EvolvesTransitive(s: State, t: State, u: State)
    requires Evolves(s, t) && Evolves(t, u)
    ensures Evolves(s, u)
  {
  }

  // ---------------------------------------------------------------- state updates of the controller

  function Log(s: State, at: int, kind: EventKind, cycle: int): State {
    s.(events := s.events + [Event(at, kind, cycle)])
  }

  /** Replace one intent and log its new status (`saveAction`, up to the save). */
  function WithIntent(s: State, i: int, a: Intent, now: int): State
    requires 0 <= i < |s.actions|
  {
    Log(s.(actions := s.actions[i := a]), now, Action(a.status, a.id), s.completed)
  }

  function WithNewIntent(s: State, a: Intent, now: int): State {
    Log(s.(actions := s.actions + [a]), now, Action(a.status, a.id), s.completed)
  }

  lemma LogConsistent(s: State, at: int, kind: EventKind, cycle: int)
    requires Consistent(s) && !kind.CycleCompleted?
    ensures Consistent(Log(s, at, kind, cycle)) && Evolves(s, Log(s, at, kind, cycle))
  {
    hide ValidSettings, ValidActions;
    CompletionAppend(s.events, Event(at, kind, cycle));
  }

  lemma StatusConsistent(s: State, status: Status)
    requires Consistent(s) && !Terminal(s.status)
    requires status.Active? || status.Paused? || status.Cancelled?
    requires status.Active? ==> RecoveryReady(s)
    ensures Consistent(s.(status := status)) && Evolves(s, s.(status := status))
  {
    hide ValidSettings, ValidActions;
  }

  lemma ActionsConsistent(s: State, actions: seq<Intent>)
    requires Consistent(s) && ValidActions(actions, s.agentId, s.writes)
    requires |s.actions| <= |actions|
    requires forall i :: 0 <= i < |actions| ==> Provisioned(actions[i], s.writes.value)
    requires forall i :: 0 <= i < |s.actions| ==> IntentEvolves(s.actions[i], actions[i])
    ensures Consistent(s.(actions := actions)) && Evolves(s, s.(actions := actions))
  {
  }

  /** What a consistent snapshot says about one of its intents. */
  lemma IntentFacts(s: State, i: int)
    requires Consistent(s) && 0 <= i < |s.actions|
    ensures s.writes.Some? && ValidPolicy(s.writes.value)
    ensures ValidActions(s.actions, s.agentId, s.writes)
    ensures ValidIntent(s.actions[i], s.agentId, s.writes.value)
    ensures Provisioned(s.actions[i], s.writes.value)
  {
  }

  lemma WithIntentConsistent(s: State, i: int, a: Intent, now: int)
    requires Consistent(s) && 0 <= i < |s.actions|
    requires IntentEvolves(s.actions[i], a)
    requires ValidIntent(a, s.agentId, s.writes.value) && Provisioned(a, s.writes.value)
    ensures Consistent(WithIntent(s, i, a, now)) && Evolves(s, WithIntent(s, i, a, now))
  {
    var t := s.(actions := s.actions[i := a]);
    assert Consistent(t) && Evolves(s, t) by {
      hide ValidSettings, ValidIntent;
      ActionsConsistent(s, s.actions[i := a]);
    }
    hide Consistent, Evolves;
    LogConsistent(t, now, Action(a.status, a.id), s.completed);
    EvolvesTransitive(s, t, WithIntent(s, i, a, now));
  }

  lemma WithNewIntentConsistent(s: State, a: Intent, now: int)
    requires Consistent(s) && |s.actions| < MAX_ACTIONS && s.writes.Some?
    requires ValidIntent(a, s.agentId, s.writes.value) && Provisioned(a, s.writes.value)
    requires forall i :: 0 <= i < |s.actions| ==> s.actions[i].id != a.id
    ensures Consistent(WithNewIntent(s, a, now)) && Evolves(s, WithNewIntent(s, a, now))
  {
    var t := s.(actions := s.actions + [a]);
    assert Consistent(t) && Evolves(s, t) by {
      hide ValidSettings, ValidIntent;
      ActionsConsistent(s, s.actions + [a]);
    }
    hide Consistent, Evolves;
    LogConsistent(t, now, Action(a.status, a.id), s.completed);
    EvolvesTransitive(s, t, WithNewIntent(s, a, now));
  }

  lemma PendingConsistent(s: State, modelAttempts: int)
    requires Consistent(s) && s.modelAttempts <= modelAttempts
    requires s.cognition.Some? ==> modelAttempts <= s.cognition.value.maxCalls
    ensures var t := s.(pending := CycleName(s.agentId, s.completed + 1), modelAttempts := modelAttempts);
            Consistent(t) && Evolves(s, t)
  {
  }
}
