/** The invariant of the whole world, kept by every step and so by every run. */
module Safety {
  import opened Foundations
  import opened Kernel
  import opened Intents
  import opened Missions
  import opened Sections
  import opened Coherence
  import opened Destinations
  import opened World
  import opened Instance

  // ---------------------------------------------------------------- restore

  lemma FencedIntentValid(a: Intent, agentId: string, policy: Policy)
    requires ValidIntent(a, agentId, policy)
    ensures ValidIntent(Fenced(a), agentId, policy) && Fenced(a).id == a.id
  {
  }

  lemma FencedValid(actions: seq<Intent>, agentId: string, writes: Option<Policy>)
    requires ValidActions(actions, agentId, writes)
    ensures ValidActions(FenceAll(actions), agentId, writes)
  {
    hide ValidIntent, FenceAll, Fenced;
    var fenced := FenceAll(actions);
    forall i | 0 <= i < |actions|
      ensures ValidIntent(fenced[i], agentId, writes.value) && fenced[i].id == actions[i].id
    {
      FencedIntentValid(actions[i], agentId, writes.value);
    }
  }

  lemma FencedLegal(a: Intent, policy: Policy)
    requires Provisioned(a, policy)
    ensures Provisioned(Fenced(a), policy) && IntentEvolves(a, Fenced(a)) && !Fenced(a).status.Approved?
  {
  }

  lemma FenceAllLegal(actions: seq<Intent>, policy: Policy)
    requires forall i :: 0 <= i < |actions| ==> Provisioned(actions[i], policy)
    ensures forall i :: 0 <= i < |actions| ==> Provisioned(FenceAll(actions)[i], policy)
    ensures forall i :: 0 <= i < |actions| ==> IntentEvolves(actions[i], FenceAll(actions)[i])
  {
    hide Provisioned, Fenced, IntentEvolves, FenceAll;
    forall i | 0 <= i < |actions|
      ensures Provisioned(FenceAll(actions)[i], policy) && IntentEvolves(actions[i], FenceAll(actions)[i])
    {
      FencedLegal(actions[i], policy);
    }
  }

  lemma RelocatedConsistent(s: State, gate: Recovery, script: string, workspace: string)
    requires Consistent(s) && !gate.ready && AbsolutePath(script) && AbsolutePath(workspace)
    ensures Consistent(s.(recovery := Some(gate), status := if s.status.Active? then Paused else s.status,
                          protocol := s.protocol.(script := script, workspace := workspace)))
  {
  }

  /** A restored snapshot loads: the checks of the loader are closed under `RestoreBackup`. */
  lemma RestoredConsistent(s: State, backup: Hash, script: string, workspace: string, now: int)
    requires Consistent(s) && AbsolutePath(script) && AbsolutePath(workspace)
    ensures Consistent(RestoredState(s, backup, script, workspace, now))
  {
    var t := s.(actions := FenceAll(s.actions));
    var gate := Recovery(backup, s.status, false);
    var u := t.(recovery := Some(gate), status := if t.status.Active? then Paused else t.status,
                protocol := t.protocol.(script := script, workspace := workspace));
    assert Consistent(t) by {
      FencedValid(s.actions, s.agentId, s.writes);
      if s.actions != [] {
        FenceAllLegal(s.actions, s.writes.value);
      }
      hide ValidIntent, Provisioned, IntentEvolves;
      ActionsConsistent(s, FenceAll(s.actions));
    }
    hide Consistent, AbsolutePath;
    RelocatedConsistent(t, gate, script, workspace);
    LogConsistent(u, now, Restored, s.completed);
  }

  ghost predicate Restorable(a: Archive, bound: map<Id, Fingerprint>, remote: Records) {
    match a
    case Archive(s, files) =>
      Consistent(s) && Vouched(s.actions, bound, remote) && Addressed(files) && Readable(s, files)
  }

  lemma NewNodeHolds(s: State, files: map<Hash, Bytes>, bound: map<Id, Fingerprint>, remote: Records)
    requires Consistent(s) && Addressed(files) && Readable(s, files) && Vouched(s.actions, bound, remote)
    requires forall i :: 0 <= i < |s.actions| ==> !s.actions[i].status.Approved?
    ensures Holds(NewNode(s, files), bound, remote)
  {
    EvolvesReflexive(s);
    assert Books(s.actions, Tally(multiset{}, multiset{}, multiset{}), []) by {
      hide VouchedIntent;
      forall i | 0 <= i < |s.actions|
        ensures s.actions[i].attempts >= 0 && s.actions[i].checks >= 0
      {
        IntentFacts(s, i);
      }
    }
    assert s.cognition.Some? ==> 0 <= s.modelAttempts;
    hide Consistent, Evolves, Addressed, Readable, Vouched, Books;
  }

  lemma RestoreHolds(a: Archive, backup: Hash, script: string, workspace: string, now: int, bound: map<Id, Fingerprint>,
                     remote: Records)
    requires Restorable(a, bound, remote) && AbsolutePath(script) && AbsolutePath(workspace)
    ensures Holds(NewNode(RestoredState(a.state, backup, script, workspace, now), a.files), bound, remote)
  {
    var s := RestoredState(a.state, backup, script, workspace, now);
    RestoredConsistent(a.state, backup, script, workspace, now);
    hide Consistent, AbsolutePath;
    assert Vouched(s.actions, bound, remote);
    NewNodeHolds(s, a.files, bound, remote);
  }

  lemma BackupRestorable(x: Node, bound: map<Id, Fingerprint>, remote: Records)
    requires Holds(x, bound, remote)
    ensures Restorable(Archive(x.core.disk, Referenced(x.core.disk, x.core.files)), bound, remote)
  {
  }

  // ---------------------------------------------------------------- the world

  /** A PUT in transit carries what its identifier was bound to. */
  predicate Faithful(e: Envelope, bound: map<Id, Fingerprint>) {
    && RoutedId(e.actionId) && ValidPayload(e.payload)
    && e.actionId in bound && bound[e.actionId] == e.digest && e.payload == e.digest.payload
  }

  /** An answer of the destination in transit is genuine, and it never reports a conflict. */
  predicate Honest(reply: Reply, remote: Records) {
    Genuine(reply, remote) && reply != Http(409, None)
  }

  /** What the destination holds under a bound identifier is what was bound. */
  ghost predicate Bound(bound: map<Id, Fingerprint>, remote: Records) {
    forall id :: id in remote && id in bound ==> remote[id] == Record(bound[id], bound[id].payload)
  }

  ghost predicate Network(w: World) {
    && (forall e <- w.sent :: Faithful(e, w.bound))
    && (forall p <- w.replies :: Honest(p.1, w.remote))
    && Bound(w.bound, w.remote)
  }

  ghost predicate Instances(nodes: map<nat, Node>, bound: map<Id, Fingerprint>, remote: Records) {
    forall n :: n in nodes ==> Holds(nodes[n], bound, remote)
  }

  ghost predicate Archives(archives: seq<Archive>, bound: map<Id, Fingerprint>, remote: Records) {
    forall i :: 0 <= i < |archives| ==> Restorable(archives[i], bound, remote)
  }

  ghost predicate Safe(w: World) {
    match w
    case World(nodes, archives, _, _, _, remote, bound) =>
      Instances(nodes, bound, remote) && Archives(archives, bound, remote) && Network(w)
  }

  lemma EmptySafe()
    ensures Safe(EMPTY)
  {
  }

  lemma InstancesGrow(nodes: map<nat, Node>, archives: seq<Archive>, bound: map<Id, Fingerprint>, remote: Records,
                      bound': map<Id, Fingerprint>, remote': Records)
    requires Instances(nodes, bound, remote) && Archives(archives, bound, remote)
             && Grows(bound, remote, bound', remote')
    ensures Instances(nodes, bound', remote') && Archives(archives, bound', remote')
  {
    hide Holds, Grows;
    forall n | n in nodes
      ensures Holds(nodes[n], bound', remote')
    {
      HoldsGrows(nodes[n], bound, remote, bound', remote');
    }
    forall i | 0 <= i < |archives|
      ensures Restorable(archives[i], bound', remote')
    {
      RestorableGrows(archives[i], bound, remote, bound', remote');
    }
  }

  lemma RestorableGrows(a: Archive, bound: map<Id, Fingerprint>, remote: Records, bound': map<Id, Fingerprint>,
                        remote': Records)
    requires Restorable(a, bound, remote) && Grows(bound, remote, bound', remote')
    ensures Restorable(a, bound', remote')
  {
  }

  // ---------------------------------------------------------------- the destination and the network

  /** The destination only adds records, and answers for the record it holds. */
  lemma PutEffectGrows(records: Records, e: Envelope, fault: bool, bound: map<Id, Fingerprint>)
    requires Faithful(e, bound) && Bound(bound, records)
    ensures var (after, reply) := PutEffect(records, e.actionId, e, fault);
            Grows(bound, records, bound, after) && Bound(bound, after) && Honest(reply, after)
  {
  }

  lemma RepliesHonest(replies: set<(Id, Reply)>, bound: map<Id, Fingerprint>, remote: Records, remote': Records)
    requires (forall p <- replies :: Honest(p.1, remote)) && Grows(bound, remote, bound, remote')
    ensures forall p <- replies :: Honest(p.1, remote')
  {
  }

  lemma ServePutSafe(w: World, e: Envelope, fault: bool)
    requires Safe(w)
    ensures Safe(Apply(w, DoServePut(e, fault)))
  {
    if e in w.sent {
      hide Instances, Archives, Bound, Faithful, Honest, Grows, PutEffect;
      var (records, reply) := PutEffect(w.remote, e.actionId, e, fault);
      PutEffectGrows(w.remote, e, fault, w.bound);
      InstancesGrow(w.nodes, w.archives, w.bound, w.remote, w.bound, records);
      RepliesHonest(w.replies, w.bound, w.remote, records);
    }
  }

  lemma ServeGetSafe(w: World, id: Id)
    requires Safe(w)
    ensures Safe(Apply(w, DoServeGet(id)))
  {
    hide Instances, Archives, RoutedId;
  }

  lemma ForeignPutSafe(w: World, id: Id, record: Record)
    requires Safe(w)
    ensures Safe(Apply(w, DoForeignPut(id, record)))
  {
    if id !in w.bound && id !in w.remote {
      hide Instances, Archives, Honest;
      var remote := w.remote[id := record];
      assert Grows(w.bound, w.remote, w.bound, remote);
      hide Grows;
      InstancesGrow(w.nodes, w.archives, w.bound, w.remote, w.bound, remote);
      RepliesHonest(w.replies, w.bound, w.remote, remote);
    }
  }

  // ---------------------------------------------------------------- steps of an instance

  /** Put a stepped instance back; the environment may have grown with it. */
  lemma PlaceSafe(w: World, n: nat, y: Node, bound: map<Id, Fingerprint>)
    requires Safe(w) && Grows(w.bound, w.remote, bound, w.remote) && Holds(y, bound, w.remote)
    requires forall id :: id in bound && id !in w.bound ==> id !in w.remote
    ensures Instances(w.nodes[n := y], bound, w.remote) && Archives(w.archives, bound, w.remote)
            && Bound(bound, w.remote)
    ensures (forall e <- w.sent :: Faithful(e, bound)) && (forall p <- w.replies :: Honest(p.1, w.remote))
  {
    hide Holds, Restorable, Honest, RoutedId, ValidPayload;
    InstancesGrow(w.nodes, w.archives, w.bound, w.remote, bound, w.remote);
  }

  /** Most steps change one instance and nothing else. */
  lemma LocalSafe(w: World, n: nat, y: Node)
    requires Safe(w) && Holds(y, w.bound, w.remote)
    ensures Safe(Place(w, n, y))
  {
  }

  lemma NetworkOf(w: World, w': World)
    requires Network(w) && w'.sent == w.sent && w'.replies == w.replies && w'.bound == w.bound && w'.remote == w.remote
    ensures Network(w')
  {
  }

  lemma HoldsOf(w: World, n: nat)
    requires Safe(w) && n in w.nodes
    ensures Holds(w.nodes[n], w.bound, w.remote)
  {
  }

  /** What a cleared job sends is bound, well formed and acceptable to the ledger. */
  lemma EnvelopeFaithful(x: Node, k: nat, bound: map<Id, Fingerprint>, remote: Records)
    requires Holds(x, bound, remote) && Flying(x, k) && x.flights[k].job.ActionJob?
    ensures Faithful(EnvelopeOf(x.flights[k].job.copy), bound)
  {
  }

  lemma SentMore(w: World, e: Envelope)
    requires Safe(w) && Faithful(e, w.bound)
    ensures Safe(w.(sent := w.sent + {e}))
  {
  }

  lemma SendSafe(w: World, n: nat, k: nat)
    requires Safe(w) && n in w.nodes && Exchanging(w.nodes[n], k, Cleared)
    ensures Safe(Place(w, n, Send(w.nodes[n], k)).(sent := w.sent + {EnvelopeOf(w.nodes[n].flights[k].job.copy)}))
  {
    hide Safe, Holds, Faithful, Send;
    HoldsOf(w, n);
    SendHolds(w.nodes[n], k, w.bound, w.remote);
    EnvelopeFaithful(w.nodes[n], k, w.bound, w.remote);
    LocalSafe(w, n, Send(w.nodes[n], k));
    SentMore(Place(w, n, Send(w.nodes[n], k)), EnvelopeOf(w.nodes[n].flights[k].job.copy));
  }

  lemma AskSafe(w: World, n: nat, k: nat)
    requires Safe(w) && n in w.nodes && Exchanging(w.nodes[n], k, Fresh)
    ensures Safe(Place(w, n, Ask(w.nodes[n], k)).(asked := w.asked + {w.nodes[n].flights[k].job.copy.id}))
  {
    HoldsOf(w, n);
    AskHolds(w.nodes[n], k, w.bound, w.remote);
    LocalSafe(w, n, Ask(w.nodes[n], k));
    hide Holds, Instances, Archives, Faithful, Honest, Bound, Ask;
  }

  /** Anything that may arrive is genuine. */
  lemma ArrivalGenuine(w: World, id: Id, reply: Reply)
    requires Safe(w) && MayArrive(w, id, reply)
    ensures Genuine(reply, w.remote)
  {
  }

  /** A proposal binds a fresh identifier. */
  lemma ObeySafe(w: World, n: nat, command: Command, id: Id, hash: Fingerprint, payload: Payload, newId: Option<Id>,
                 now: int, r: SaveResult)
    requires Safe(w) && n in w.nodes && (newId.Some? ==> FreshId(w, newId.value))
    ensures var y := Obey(w.nodes[n], command, id, hash, payload, newId, now, r);
            Safe(Place(w, n, y).(bound := Bind(w, w.nodes[n], y)))
  {
    hide Holds, Obey, Bind, FreshId, Instances, Archives, Faithful, Honest, Bound, Grows;
    var x := w.nodes[n];
    var y := Obey(x, command, id, hash, payload, newId, now, r);
    HoldsOf(w, n);
    ObeyHolds(x, command, id, hash, payload, newId, now, r, w);
    NewBinding(w, x, command, id, hash, payload, newId, now, r);
    PlaceSafe(w, n, y, Bind(w, x, y));
  }

  lemma NewBinding(w: World, x: Node, command: Command, id: Id, hash: Fingerprint, payload: Payload, newId: Option<Id>,
                   now: int, r: SaveResult)
    requires newId.Some? ==> FreshId(w, newId.value)
    ensures var bound := Bind(w, x, Obey(x, command, id, hash, payload, newId, now, r));
            Grows(w.bound, w.remote, bound, w.remote) && forall id :: id in bound && id !in w.bound ==> id !in w.remote
  {
  }

  // ---------------------------------------------------------------- every step, every run

  /** Operator and scheduler steps. */
  lemma SectionSafe(w: World, s: Step, x: Node)
    requires Safe(w) && OfInstance(s) && s.n in w.nodes && x == w.nodes[s.n] && IsSection(s)
    ensures Safe(NodeStep(w, s, x))
  {
    hide Safe, Holds, Place, Start, Crash, Administer, Launch, RunActionStep, BeginStep, Activate;
    HoldsOf(w, s.n);
    match s
    case DoStart(n) =>
      StartHolds(x, w.bound, w.remote);
      LocalSafe(w, n, Start(x));
    case DoCrash(n) =>
      CrashHolds(x, w.bound, w.remote);
      LocalSafe(w, n, Crash(x));
    case DoAdmin(n, action, now, r) =>
      AdministerHolds(x, action, now, r, w.bound, w.remote);
      LocalSafe(w, n, Administer(x, action, now, r));
    case DoRunAction(n, id, readOnly, now, r) =>
      if x.up {
        RunActionHolds(x, id, readOnly, now, r, w.bound, w.remote);
        LocalSafe(w, n, Launch(x, RunActionStep(x.core, id, readOnly, now, r)));
      }
    case DoStep(n, now, r) =>
      if x.up {
        BeginStepHolds(x, now, r, w.bound, w.remote);
        LocalSafe(w, n, Launch(x, BeginStep(x.core, now, r)));
      }
    case DoActivate(n, sourceFenced, checked, now, r) =>
      ActivateHolds(x, sourceFenced, checked, now, r, w.bound, w.remote);
      LocalSafe(w, n, Activate(x, sourceFenced, checked, now, r));
  }

  /** Steps of a job in flight. */
  lemma FlightSafe(w: World, s: Step, x: Node)
    requires Safe(w) && OfInstance(s) && s.n in w.nodes && x == w.nodes[s.n] && IsFlight(s)
    ensures Safe(NodeStep(w, s, x))
  {
    hide Safe, Holds, Place, Ask, HearGet, Send, HearPut, InPhase, SettleIntent, SettleExecution, MayArrive;
    HoldsOf(w, s.n);
    match s
    case DoAsk(n, k) =>
      if Exchanging(x, k, Fresh) {
        AskSafe(w, n, k);
      }
    case DoHearGet(n, k, reply) =>
      if Exchanging(x, k, Asked) && MayArrive(w, x.flights[k].job.copy.id, reply) {
        ArrivalGenuine(w, x.flights[k].job.copy.id, reply);
        HearGetHolds(x, k, reply, w.bound, w.remote);
        LocalSafe(w, n, HearGet(x, k, reply));
      }
    case DoSend(n, k) =>
      if Exchanging(x, k, Cleared) {
        SendSafe(w, n, k);
      }
    case DoHearPut(n, k, reply) =>
      if Exchanging(x, k, Sent) && MayArrive(w, x.flights[k].job.copy.id, reply) {
        ArrivalGenuine(w, x.flights[k].job.copy.id, reply);
        HearPutHolds(x, k, reply, w.bound, w.remote);
        LocalSafe(w, n, HearPut(x, k, reply));
      }
    case DoGiveUp(n, k) =>
      if Flying(x, k) && x.flights[k].job.ActionJob? {
        AnswerHolds(x, k, Answered(FAILED), w.bound, w.remote);
        LocalSafe(w, n, InPhase(x, k, Answered(FAILED)));
      }
    case DoSettleIntent(n, k, now, r) =>
      if CanSettleIntent(x, k) {
        SettleIntentHolds(x, k, now, r, w.bound, w.remote);
        LocalSafe(w, n, SettleIntent(x, k, now, r));
      }
    case DoSettleCycle(n, k, stopped, result, stored, now, r) =>
      if Flying(x, k) && x.flights[k].job.CycleJob? {
        SettleExecutionHolds(x, k, stopped, result, stored, now, r, w.bound, w.remote);
        LocalSafe(w, n, SettleExecution(x, k, stopped, result, stored, now, r));
      }
  }

  lemma BackupSafe(w: World, n: nat)
    requires Safe(w) && n in w.nodes
    ensures Safe(Apply(w, DoBackup(n)))
  {
    hide Holds, Instances, Network, Restorable, Referenced;
    assert Instances(w.nodes, w.bound, w.remote);
    HoldsOf(w, n);
    BackupRestorable(w.nodes[n], w.bound, w.remote);
    assert Network(Apply(w, DoBackup(n))) by {
      NetworkOf(w, Apply(w, DoBackup(n)));
    }
  }

  lemma InitSafe(w: World, s: Step)
    requires Safe(w) && s.DoInit?
    ensures Safe(Apply(w, s))
  {
    if s.n !in w.nodes && ValidInit(s) {
      var m := NewMission(s.agentId, s.protocol, s.execution, s.cognition, s.retrieval, s.writes, s.now);
      NewMissionConsistent(s.agentId, s.protocol, s.execution, s.cognition, s.retrieval, s.writes, s.now);
      hide Consistent, Safe, ValidProtocol, ValidCognition;
      NewNodeHolds(m, map[], w.bound, w.remote);
      LocalSafe(w, s.n, NewNode(m, map[]));
    }
  }

  lemma RestorableOf(w: World, i: nat)
    requires Safe(w) && i < |w.archives|
    ensures Restorable(w.archives[i], w.bound, w.remote)
  {
    hide Instances, Network, Restorable;
  }

  lemma RestoreSafe(w: World, s: Step)
    requires Safe(w) && s.DoRestore?
    ensures Safe(Apply(w, s))
  {
    hide Safe, Restorable, AbsolutePath, RestoredState, NewNode;
    if s.n !in w.nodes && s.source < |w.archives| && AbsolutePath(s.script) && AbsolutePath(s.workspace) {
      var a := w.archives[s.source];
      RestorableOf(w, s.source);
      RestoreHolds(a, s.backup, s.script, s.workspace, s.now, w.bound, w.remote);
      hide Holds;
      LocalSafe(w, s.n, NewNode(RestoredState(a.state, s.backup, s.script, s.workspace, s.now), a.files));
    }
  }

  lemma StepSafe(w: World, s: Step)
    requires Safe(w)
    ensures Safe(Apply(w, s))
  {
    hide Safe, NodeStep, PutEffect, GetReply, NewMission, RestoredState;
    match s {
      case DoInit(_, _, _, _, _, _, _, _) => InitSafe(w, s);
      case DoRestore(_, _, _, _, _, _) => RestoreSafe(w, s);
      case DoServeGet(id) => ServeGetSafe(w, id);
      case DoServePut(e, fault) => ServePutSafe(w, e, fault);
      case DoForeignPut(id, record) => ForeignPutSafe(w, id, record);
      case _ =>
        if s.n in w.nodes {
          InstanceStepSafe(w, s);
        }
    }
  }

  lemma InstanceStepSafe(w: World, s: Step)
    requires Safe(w) && OfInstance(s) && s.n in w.nodes
    ensures Safe(NodeStep(w, s, w.nodes[s.n]))
  {
    hide Safe;
    if s.DoCommand? {
      if s.newId.None? || FreshId(w, s.newId.value) {
        ObeySafe(w, s.n, s.command, s.id, s.hash, s.payload, s.newId, s.now, s.r);
      }
    } else if s.DoBackup? {
      BackupSafe(w, s.n);
    } else if IsSection(s) {
      SectionSafe(w, s, w.nodes[s.n]);
    } else {
      FlightSafe(w, s, w.nodes[s.n]);
    }
  }

  /** Every run from the empty world, whatever fails, crashes or gets lost, is safe throughout. */
  lemma {:induction false} RunSafe(w: World, steps: seq<Step>)
    requires Safe(w)
    ensures Safe(Run(w, steps))
    decreases |steps|
  {
    if steps != [] {
      StepSafe(w, steps[0]);
      RunSafe(Apply(w, steps[0]), steps[1..]);
    }
  }
}
