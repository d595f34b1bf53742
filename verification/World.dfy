/** The distributed protocol: any number of instances (a mission and the copies restored from its
    backups), their operators, crashes and restarts, one destination, and a network that may lose,
    delay, duplicate and reorder. A step is one locked section or one message. */
module World {
  import opened Foundations
  import opened Kernel
  import opened Intents
  import opened Missions
  import opened Sections
  import opened Coherence
  import opened Destinations

  // ---------------------------------------------------------------- one instance

  /** Progress of the exchange that an intent's job conducts with the destination. */
  datatype Phase = Fresh | Asked | Cleared | Sent | Answered(out: RecordOutcome)

  /** A job outside the mutex; `began` is the memory it left behind. */
  datatype Flight = Flight(job: Job, phase: Phase, began: State)

  /** Per identifier, the PUTs and GETs that left an instance and the approve and retry commands
      that it accepted. */
  datatype Tally = Tally(puts: multiset<Id>, gets: multiset<Id>, auths: multiset<Id>)

  /** One state directory and, when `up`, the process that owns it. `execs` lists the cycles named
      in the requests that its executor was started with. The history, `tally` and `execs`, is the model's
      own and survives crashes. */
  datatype Node = Node(core: Core, up: bool, flights: seq<Flight>, tally: Tally, execs: seq<Pending>)

  function NewNode(s: State, files: map<Hash, Bytes>): Node {
    Node(Core(s, s, files, false, 0, false), false, [], Tally(multiset{}, multiset{}, multiset{}), [])
  }

  /** `SIGKILL`: memory and every job are gone, disk and messages are not. */
  function Crash(x: Node): Node {
    x.(core := Booted(x.core), up := false, flights := [])
  }

  function Start(x: Node): Node {
    if Loadable(x.core.disk) then x.(up := true) else x
  }

  function Administer(x: Node, action: Admin, now: int, r: SaveResult): Node {
    if !x.up then x else x.(core := ControlStep(x.core, action, now, r).0)
  }

  function Authorized(t: Tally, id: Id): Tally {
    t.(auths := t.auths + multiset{id})
  }

  predicate Authorizes(command: Command) {
    command.Approve? || command.Retry?
  }

  function Obey(x: Node, command: Command, id: Id, hash: Fingerprint, payload: Payload,
                   newId: Option<Id>, now: int, r: SaveResult): Node {
    if !x.up then x
    else
      var (d, verdict) := ActionControlStep(x.core, command, id, hash, payload, newId, now, r);
      x.(core := d, tally := if Authorizes(command) && !verdict.Refused? then Authorized(x.tally, id) else x.tally)
  }

  /** The outcome of a `Begin` section: a job takes off, or nothing does. */
  function Launch(x: Node, begun: (Core, Option<Job>)): Node {
    match begun
    case (d, None) => x.(core := d)
    case (d, Some(job)) =>
      x.(core := d, flights := x.flights + [Flight(job, Fresh, d.mem)],
         execs := if job.CycleJob? then x.execs + [job.request.cycle] else x.execs)
  }

  predicate Flying(x: Node, k: nat) {
    x.up && k < |x.flights|
  }

  predicate Exchanging(x: Node, k: nat, phase: Phase) {
    Flying(x, k) && x.flights[k].job.ActionJob? && x.flights[k].phase == phase
  }

  function InPhase(x: Node, k: nat, phase: Phase): Node
    requires Flying(x, k)
  {
    x.(flights := x.flights[k := x.flights[k].(phase := phase)])
  }

  function Ask(x: Node, k: nat): Node
    requires Exchanging(x, k, Fresh)
  {
    InPhase(x, k, Asked).(tally := x.tally.(gets := x.tally.gets + multiset{x.flights[k].job.copy.id}))
  }

  function HearGet(x: Node, k: nat, reply: Reply): Node
    requires Exchanging(x, k, Asked)
  {
    var job := x.flights[k].job;
    InPhase(x, k, if Clears(job.copy, job.allowWrite, reply) then Cleared else Answered(Classify(Get, job.copy, reply)))
  }

  function Send(x: Node, k: nat): Node
    requires Exchanging(x, k, Cleared)
  {
    InPhase(x, k, Sent).(tally := x.tally.(puts := x.tally.puts + multiset{x.flights[k].job.copy.id}))
  }

  function HearPut(x: Node, k: nat, reply: Reply): Node
    requires Exchanging(x, k, Sent)
  {
    InPhase(x, k, Answered(Classify(Put, x.flights[k].job.copy, reply)))
  }

  function Land(x: Node, k: nat, d: Core): Node
    requires Flying(x, k)
  {
    x.(core := d, flights := x.flights[..k] + x.flights[k + 1..])
  }

  predicate CanSettleIntent(x: Node, k: nat) {
    Flying(x, k) && x.flights[k].job.ActionJob? && x.flights[k].phase.Answered?
    && x.flights[k].job.index < |x.core.mem.actions|
  }

  function SettleIntent(x: Node, k: nat, now: int, r: SaveResult): Node
    requires CanSettleIntent(x, k)
  {
    Land(x, k, SettleAction(x.core, x.flights[k].job, x.flights[k].phase.out, now, r))
  }

  function SettleExecution(x: Node, k: nat, stopped: bool, result: Option<Bytes>, stored: SaveResult, now: int,
                           r: SaveResult): Node
    requires Flying(x, k) && x.flights[k].job.CycleJob?
  {
    Land(x, k, SettleCycle(x.core, x.flights[k].job, stopped, result, stored, now, r))
  }

  function Activate(x: Node, sourceFenced: bool, checked: bool, now: int, r: SaveResult): Node {
    if x.up then x else x.(core := Booted(ActivateStep(x.core, sourceFenced, checked, now, r).0))
  }

  // ---------------------------------------------------------------- restore

  function Fenced(a: Intent): Intent {
    match a.status
    case Approved | InFlight | Unknown | RetryRequired => a.(status := Unknown)
    case _ => a
  }

  function FenceAll(actions: seq<Intent>): (fenced: seq<Intent>)
    ensures |fenced| == |actions|
    ensures forall i :: 0 <= i < |actions| ==> fenced[i] == Fenced(actions[i])
  {
    if actions == [] then [] else [Fenced(actions[0])] + FenceAll(actions[1..])
  }

  /** `RestoreBackup` on the decoded snapshot: pause, relocate, gate and fence. */
  function RestoredState(s: State, backup: Hash, script: string, workspace: string, now: int): State {
    Log(s.(recovery := Some(Recovery(backup, s.status, false)),
           status := if s.status.Active? then Paused else s.status,
           protocol := s.protocol.(script := script, workspace := workspace),
           actions := FenceAll(s.actions)), now, Restored, s.completed)
  }

  /** An authorization or a doubt that a restore takes back. */
  predicate Open(s: IntentStatus) {
    s.Approved? || s.InFlight? || s.Unknown? || s.RetryRequired?
  }

  /** `t` is `s` behind a closed gate, paused if it was active, at another place, with every open intent in
      doubt and one more event; everything else is as it was. */
  predicate RecoveredFrom(s: State, t: State, backup: Hash, script: string, workspace: string, now: int) {
    && t.recovery == Some(Recovery(backup, s.status, false))
    && (if s.status.Active? then t.status.Paused? else t.status == s.status)
    && t.protocol.script == script && t.protocol.workspace == workspace
    && t.protocol.(script := s.protocol.script, workspace := s.protocol.workspace) == s.protocol
    && t.events == s.events + [Event(now, Restored, s.completed)]
    && |t.actions| == |s.actions|
    && (forall i :: 0 <= i < |s.actions| ==>
          if Open(s.actions[i].status) then t.actions[i] == s.actions[i].(status := Unknown)
          else t.actions[i] == s.actions[i])
    && t.(recovery := s.recovery, status := s.status, protocol := s.protocol, events := s.events,
          actions := s.actions) == s
  }

  // ---------------------------------------------------------------- everything together

  /** A backup: a published snapshot with the artifacts that go with it. */
  datatype Archive = Archive(state: State, files: map<Hash, Bytes>)

  function Referenced(s: State, files: map<Hash, Bytes>): map<Hash, Bytes> {
    map h | h in files && (exists i :: 0 <= i < |s.artifacts| && s.artifacts[i].hash == h) :: files[h]
  }

  datatype World = World(nodes: map<nat, Node>, archives: seq<Archive>, asked: set<Id>, sent: set<Envelope>,
                         replies: set<(Id, Reply)>, remote: Records, bound: map<Id, Fingerprint>)

  datatype Step =
    | DoInit(n: nat, agentId: string, protocol: Protocol, execution: Manifest, cognition: Option<Cognition>,
             retrieval: bool, writes: Option<Policy>, now: int)
    | DoStart(n: nat)
    | DoCrash(n: nat)
    | DoAdmin(n: nat, action: Admin, now: int, r: SaveResult)
    | DoCommand(n: nat, command: Command, id: Id, hash: Fingerprint, payload: Payload, newId: Option<Id>, now: int,
                r: SaveResult)
    | DoRunAction(n: nat, id: Id, readOnly: bool, now: int, r: SaveResult)
    | DoStep(n: nat, now: int, r: SaveResult)
    | DoAsk(n: nat, k: nat)
    | DoHearGet(n: nat, k: nat, reply: Reply)
    | DoSend(n: nat, k: nat)
    | DoHearPut(n: nat, k: nat, reply: Reply)
    | DoGiveUp(n: nat, k: nat)
    | DoSettleIntent(n: nat, k: nat, now: int, r: SaveResult)
    | DoSettleCycle(n: nat, k: nat, stopped: bool, result: Option<Bytes>, stored: SaveResult, now: int, r: SaveResult)
    | DoActivate(n: nat, sourceFenced: bool, checked: bool, now: int, r: SaveResult)
    | DoBackup(n: nat)
    | DoRestore(n: nat, source: nat, backup: Hash, script: string, workspace: string, now: int)
    | DoServeGet(id: Id)
    | DoServePut(e: Envelope, fault: bool)
    | DoForeignPut(id: Id, record: Record)

  const EMPTY := World(map[], [], {}, {}, {}, map[], map[])

  predicate ValidInit(s: Step)
    requires s.DoInit?
  {
    && s.agentId != "" && ValidProtocol(s.protocol)
    && (s.cognition.Some? ==> ValidCognition(s.cognition.value))
    && (s.retrieval ==> s.cognition.Some?)
    && (s.writes.Some? ==> ValidPolicy(s.writes.value))
  }

  /** A random identifier never repeats one that is in use anywhere. */
  predicate FreshId(w: World, id: Id) {
    RoutedId(id) && id !in w.bound && id !in w.remote
  }

  /** The network may invent an answer, but not a receipt. */
  predicate MayArrive(w: World, id: Id, reply: Reply) {
    (id, reply) in w.replies || reply.NoReply? || reply.body.None?
  }

  function Place(w: World, n: nat, x: Node): World {
    w.(nodes := w.nodes[n := x])
  }

  /** The identifier a proposal has just bound, if it reached the controller's memory. */
  function Bind(w: World, before: Node, after: Node): map<Id, Fingerprint> {
    if |after.core.mem.actions| > |before.core.mem.actions| then
      var a := after.core.mem.actions[|after.core.mem.actions| - 1];
      w.bound[a.id := a.digest]
    else w.bound
  }

  predicate OfInstance(s: Step) {
    !s.DoInit? && !s.DoRestore? && !s.DoServeGet? && !s.DoServePut? && !s.DoForeignPut?
  }

  /** A locked section of a running process, a start, a kill, or `recover`. */
  predicate IsSection(s: Step) {
    s.DoStart? || s.DoCrash? || s.DoAdmin? || s.DoRunAction? || s.DoStep? || s.DoActivate?
  }

  /** A step of a job in flight. */
  predicate IsFlight(s: Step) {
    OfInstance(s) && !IsSection(s) && !s.DoCommand? && !s.DoBackup?
  }

  /** A step of a job in flight. */
  function FlightStep(w: World, s: Step, x: Node): (v: World)
    requires IsFlight(s)
    ensures forall m :: m in w.nodes ==> m in v.nodes && (m != s.n ==> v.nodes[m] == w.nodes[m])
  {
    match s
    case DoAsk(n, k) =>
      if Exchanging(x, k, Fresh) then Place(w, n, Ask(x, k)).(asked := w.asked + {x.flights[k].job.copy.id}) else w
    case DoHearGet(n, k, reply) =>
      if Exchanging(x, k, Asked) && MayArrive(w, x.flights[k].job.copy.id, reply) then Place(w, n, HearGet(x, k, reply))
      else w
    case DoSend(n, k) =>
      if Exchanging(x, k, Cleared) then Place(w, n, Send(x, k)).(sent := w.sent + {EnvelopeOf(x.flights[k].job.copy)})
      else w
    case DoHearPut(n, k, reply) =>
      if Exchanging(x, k, Sent) && MayArrive(w, x.flights[k].job.copy.id, reply) then Place(w, n, HearPut(x, k, reply))
      else w
    case DoGiveUp(n, k) =>
      if Flying(x, k) && x.flights[k].job.ActionJob? then Place(w, n, InPhase(x, k, Answered(FAILED))) else w
    case DoSettleIntent(n, k, now, r) =>
      if CanSettleIntent(x, k) then Place(w, n, SettleIntent(x, k, now, r)) else w
    case DoSettleCycle(n, k, stopped, result, stored, now, r) =>
      if Flying(x, k) && x.flights[k].job.CycleJob?
      then Place(w, n, SettleExecution(x, k, stopped, result, stored, now, r)) else w
  }

  /** A step of the instance `s.n`; a step that is not enabled changes nothing. */
  function NodeStep(w: World, s: Step, x: Node): (v: World)
    requires OfInstance(s)
    ensures forall m :: m in w.nodes ==> m in v.nodes && (m != s.n ==> v.nodes[m] == w.nodes[m])
  {
    if IsFlight(s) then FlightStep(w, s, x)
    else
      match s
      case DoStart(n) => Place(w, n, Start(x))
      case DoCrash(n) => Place(w, n, Crash(x))
      case DoAdmin(n, action, now, r) => Place(w, n, Administer(x, action, now, r))
      case DoCommand(n, command, id, hash, payload, newId, now, r) =>
        if newId.Some? && !FreshId(w, newId.value) then w
        else
          var y := Obey(x, command, id, hash, payload, newId, now, r);
          Place(w, n, y).(bound := Bind(w, x, y))
      case DoRunAction(n, id, readOnly, now, r) =>
        if x.up then Place(w, n, Launch(x, RunActionStep(x.core, id, readOnly, now, r))) else w
      case DoStep(n, now, r) =>
        if x.up then Place(w, n, Launch(x, BeginStep(x.core, now, r))) else w
      case DoActivate(n, sourceFenced, checked, now, r) => Place(w, n, Activate(x, sourceFenced, checked, now, r))
      case DoBackup(n) => w.(archives := w.archives + [Archive(x.core.disk, Referenced(x.core.disk, x.core.files))])
  }

  function Serve(w: World, id: Id, reply: Reply): World {
    w.(replies := w.replies + {(id, reply)})
  }

  function Apply(w: World, s: Step): World {
    match s
    case DoInit(n, agentId, protocol, execution, cognition, retrieval, writes, now) =>
      if n in w.nodes || !ValidInit(s) then w
      else Place(w, n, NewNode(NewMission(agentId, protocol, execution, cognition, retrieval, writes, now), map[]))
    case DoRestore(n, source, backup, script, workspace, now) =>
      if n in w.nodes || source >= |w.archives| || !AbsolutePath(script) || !AbsolutePath(workspace) then w
      else
        var a := w.archives[source];
        Place(w, n, NewNode(RestoredState(a.state, backup, script, workspace, now), a.files))
    case DoServeGet(id) =>
      if id in w.asked then Serve(w, id, GetReply(w.remote, id)) else w
    case DoServePut(e, fault) =>
      if e !in w.sent then w
      else
        var (records, reply) := PutEffect(w.remote, e.actionId, e, fault);
        Serve(w, e.actionId, reply).(remote := records)
    case DoForeignPut(id, record) =>
      if id in w.bound || id in w.remote then w else w.(remote := w.remote[id := record])
    case _ =>
      if s.n in w.nodes then NodeStep(w, s, w.nodes[s.n]) else w
  }

  function Run(w: World, steps: seq<Step>): World
    decreases |steps|
  {
    if steps == [] then w else Run(Apply(w, steps[0]), steps[1..])
  }
}
