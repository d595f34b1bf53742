/** What every step of one instance keeps: a sound core, at most one job in flight, vouched intents,
    honest books and a shut gate. */
module Instance {
  import opened Foundations
  import opened Kernel
  import opened Intents
  import opened Missions
  import opened Sections
  import opened Coherence
  import opened Destinations
  import opened World

  // ---------------------------------------------------------------- the invariant

  predicate OnRecord(a: Intent, remote: Records) {
    a.id in remote && remote[a.id].digest == a.digest
  }

  /** Identifiers keep their binding, and success is on record at the destination. */
  ghost predicate Vouched(actions: seq<Intent>, bound: map<Id, Fingerprint>, remote: Records) {
    forall i :: 0 <= i < |actions| ==> VouchedIntent(actions[i], bound, remote)
  }

  predicate VouchedIntent(a: Intent, bound: map<Id, Fingerprint>, remote: Records) {
    && RoutedId(a.id) && a.id in bound && bound[a.id] == a.digest
    && (a.status.Succeeded? ==> OnRecord(a, remote))
  }

  /** The PUT that the job in flight may still send. */
  function OwedPut(flights: seq<Flight>, id: Id): nat {
    if |flights| == 1 && flights[0].job.ActionJob? && flights[0].job.copy.id == id && flights[0].job.allowWrite
       && (flights[0].phase.Fresh? || flights[0].phase.Asked? || flights[0].phase.Cleared?)
    then 1 else 0
  }

  function OwedGet(flights: seq<Flight>, id: Id): nat {
    if |flights| == 1 && flights[0].job.ActionJob? && flights[0].job.copy.id == id && flights[0].phase.Fresh?
    then 1 else 0
  }

  /** Attempts, checks and authorizations cover everything sent and everything still to be sent. */
  predicate Covered(a: Intent, t: Tally, flights: seq<Flight>) {
    && t.puts[a.id] + OwedPut(flights, a.id) <= a.attempts
    && t.gets[a.id] + OwedGet(flights, a.id) <= a.checks
    && t.puts[a.id] + OwedPut(flights, a.id) + (if a.status.Approved? then 1 else 0) <= t.auths[a.id]
  }

  ghost predicate Books(actions: seq<Intent>, t: Tally, flights: seq<Flight>) {
    forall i :: 0 <= i < |actions| ==> Covered(actions[i], t, flights)
  }

  /** Nothing was ever sent for an identifier that is not on disk. */
  ghost predicate Accountable(t: Tally, actions: seq<Intent>) {
    forall id :: id in t.puts || id in t.gets ==> Position(actions, id) >= 0
  }

  /** `name` names cycle number `name.cycle` of this mission, at most the one after the last confirmed. */
  predicate NamesCycle(name: Pending, s: State) {
    name.CycleName? && name.agent == s.agentId && 1 <= name.cycle <= s.completed + 1
  }

  ghost predicate Nondecreasing(names: seq<Pending>) {
    forall i, j :: 0 <= i <= j < |names| && names[i].CycleName? && names[j].CycleName? ==>
        names[i].cycle <= names[j].cycle
  }

  /** Started cycles are this mission's own, never go back, never pass the next one, and are paid for. */
  ghost predicate Ran(execs: seq<Pending>, s: State) {
    && Nondecreasing(execs)
    && (forall i :: 0 <= i < |execs| ==> NamesCycle(execs[i], s))
    && (s.cognition.Some? ==> |execs| <= s.modelAttempts)
  }

  /** A job that neither writes nor executes. */
  predicate OnlyLooks(f: Flight) {
    f.job.ActionJob? && !f.job.allowWrite
  }

  /** Behind a closed recovery gate nothing has been authorized, written or executed. */
  ghost predicate Gated(x: Node) {
    RecoveryReady(x.core.disk)
    || (x.tally.puts == multiset{} && x.tally.auths == multiset{} && x.execs == []
        && forall f <- x.flights :: OnlyLooks(f))
  }

  ghost predicate FlightFits(c: Core, f: Flight, remote: Records) {
    match f.job
    case ActionJob(_, copy, allowWrite) =>
      && Fits(c, f.job)
      && (f.phase.Cleared? || f.phase.Sent? ==> allowWrite)
      && (f.phase.Answered? && Confirmed(copy, f.phase.out) ==> OnRecord(copy, remote))
    case CycleJob(epoch, _, _) =>
      && Fits(c, f.job)
      && (epoch == c.epoch ==> f.began == c.mem)
  }

  /** A sound core, a process that matches it, and a job in flight exactly when `running` says so. */
  ghost predicate Shaped(x: Node, remote: Records) {
    match x
    case Node(core, up, flights, _, _) =>
      && Sound(core)
      && (!up ==> core == Booted(core) && flights == [])
      && |flights| == (if core.running then 1 else 0)
      && (flights != [] ==> FlightFits(core, flights[0], remote))
  }

  ghost predicate Holds(x: Node, bound: map<Id, Fingerprint>, remote: Records) {
    match x
    case Node(core, _, flights, tally, execs) =>
      && Shaped(x, remote)
      && Vouched(core.mem.actions, bound, remote) && Vouched(core.disk.actions, bound, remote)
      && Books(core.mem.actions, tally, flights) && Books(core.disk.actions, tally, flights)
      && Accountable(tally, core.disk.actions)
      && Ran(execs, core.disk)
      && Gated(x)
  }

  lemma Parts(x: Node, bound: map<Id, Fingerprint>, remote: Records)
    requires Holds(x, bound, remote)
    ensures Shaped(x, remote) && Sound(x.core)
    ensures Vouched(x.core.mem.actions, bound, remote) && Vouched(x.core.disk.actions, bound, remote)
    ensures Books(x.core.mem.actions, x.tally, x.flights) && Books(x.core.disk.actions, x.tally, x.flights)
    ensures Accountable(x.tally, x.core.disk.actions) && Ran(x.execs, x.core.disk) && Gated(x)
  {
  }

  // ---------------------------------------------------------------- the environment only adds

  ghost predicate Grows(bound: map<Id, Fingerprint>, remote: Records, bound': map<Id, Fingerprint>, remote': Records) {
    && (forall id :: id in bound ==> id in bound' && bound'[id] == bound[id])
    && (forall id :: id in remote ==> id in remote' && remote'[id] == remote[id])
  }

  lemma HoldsGrows(x: Node, bound: map<Id, Fingerprint>, remote: Records, bound': map<Id, Fingerprint>,
                   remote': Records)
    requires Holds(x, bound, remote) && Grows(bound, remote, bound', remote')
    ensures Holds(x, bound', remote')
  {
  }

  // ---------------------------------------------------------------- crash, start, control

  lemma BootedSound(c: Core)
    requires Sound(c)
    ensures Sound(Booted(c)) && Advances(Booted(c), Booted(c))
  {
  }

  lemma CrashHolds(x: Node, bound: map<Id, Fingerprint>, remote: Records)
    requires Holds(x, bound, remote)
    ensures Holds(Crash(x), bound, remote)
  {
    BootedSound(x.core);
    hide Sound, Fits, VouchedIntent, Position;
  }

  lemma StartHolds(x: Node, bound: map<Id, Fingerprint>, remote: Records)
    requires Holds(x, bound, remote)
    ensures Holds(Start(x), bound, remote)
    ensures Start(x).up
  {
  }

  /** What an evolving disk carries along while nothing new is sent or executed. */
  lemma CarriedAlong(t: Tally, execs: seq<Pending>, s: State, s': State)
    requires Accountable(t, s.actions) && Ran(execs, s) && Evolves(s, s')
    ensures Accountable(t, s'.actions) && Ran(execs, s')
    ensures RecoveryReady(s) ==> RecoveryReady(s')
  {
  }

  /** A section that keeps every intent as it is. */
  lemma SameIntents(x: Node, y: Node, bound: map<Id, Fingerprint>, remote: Records)
    requires Holds(x, bound, remote) && Shaped(y, remote) && Advances(x.core, y.core)
    requires y.core.mem.actions == x.core.mem.actions
    requires y == x.(core := y.core)
    ensures Holds(y, bound, remote)
  {
    CarriedAlong(x.tally, x.execs, x.core.disk, y.core.disk);
    hide Sound, Shaped, Vouched, Books, Evolves, Ran, Accountable, RecoveryReady;
  }

  lemma AdministerHolds(x: Node, action: Admin, now: int, r: SaveResult, bound: map<Id, Fingerprint>, remote: Records)
    requires Holds(x, bound, remote)
    ensures Holds(Administer(x, action, now, r), bound, remote)
  {
    var y := Administer(x, action, now, r);
    if x.up {
      ControlSound(x.core, action, now, r);
      if x.flights != [] {
        ControlKeepsJob(x.core, x.flights[0].job, action, now, r);
      }
      hide Sound, Holds, Fits, Advances;
      assert Shaped(y, remote) by {
        assert Shaped(x, remote);
      }
      SameIntents(x, y, bound, remote);
    }
  }

  // ---------------------------------------------------------------- sections that change an intent

  /** Put the parts together after a section that sent nothing. */
  lemma Assemble(x: Node, y: Node, bound: map<Id, Fingerprint>, remote: Records)
    requires Holds(x, bound, remote) && Shaped(y, remote) && Advances(x.core, y.core)
    requires Vouched(y.core.mem.actions, bound, remote)
    requires Books(y.core.mem.actions, y.tally, y.flights)
    requires y.core.disk == y.core.mem || Books(x.core.disk.actions, y.tally, y.flights)
    requires y.tally.puts == x.tally.puts && y.tally.gets == x.tally.gets
    requires Ran(y.execs, y.core.disk) && Gated(y)
    ensures Holds(y, bound, remote)
  {
    CarriedAlong(x.tally, x.execs, x.core.disk, y.core.disk);
    hide Sound, Shaped, Vouched, Books, Evolves, Ran, RecoveryReady, Gated, Position;
  }

  lemma ReplaceVouched(actions: seq<Intent>, i: nat, b: Intent, bound: map<Id, Fingerprint>, remote: Records)
    requires Vouched(actions, bound, remote) && i < |actions| && VouchedIntent(b, bound, remote)
    ensures Vouched(actions[i := b], bound, remote)
  {
  }

  /** Books stay honest when tallies of authorizations grow, debts shrink and one intent is replaced. */
  lemma ReplaceBooks(actions: seq<Intent>, t: Tally, flights: seq<Flight>, t': Tally, flights': seq<Flight>, i: nat,
                     b: Intent)
    requires Books(actions, t, flights) && i < |actions| && Covered(b, t', flights')
    requires forall id :: t'.puts[id] + OwedPut(flights', id) <= t.puts[id] + OwedPut(flights, id) || id == b.id
    requires forall id :: t'.gets[id] + OwedGet(flights', id) <= t.gets[id] + OwedGet(flights, id) || id == b.id
    requires forall id :: t.auths[id] <= t'.auths[id]
    requires b.id == actions[i].id && forall k :: 0 <= k < |actions| && k != i ==> actions[k].id != b.id
    ensures Books(actions[i := b], t', flights')
  {
  }

  lemma SameBooks(actions: seq<Intent>, t: Tally, flights: seq<Flight>, t': Tally, flights': seq<Flight>)
    requires Books(actions, t, flights)
    requires forall id :: t'.puts[id] + OwedPut(flights', id) <= t.puts[id] + OwedPut(flights, id)
    requires forall id :: t'.gets[id] + OwedGet(flights', id) <= t.gets[id] + OwedGet(flights, id)
    requires forall id :: t.auths[id] <= t'.auths[id]
    ensures Books(actions, t', flights')
  {
  }

  /** In a sound core the identifiers are distinct. */
  lemma OthersDiffer(s: State, i: nat)
    requires Consistent(s) && i < |s.actions|
    ensures forall k :: 0 <= k < |s.actions| && k != i ==> s.actions[k].id != s.actions[i].id
  {
  }

  // ---------------------------------------------------------------- operator commands on intents

  /** With nothing in flight, memory and disk agree and a section keeps the shape. */
  lemma IdleShape(x: Node, d: Core, t: Tally, remote: Records)
    requires Shaped(x, remote) && x.up && !x.core.running && Advances(x.core, d) && !d.running
    ensures Shaped(x.(core := d, tally := t), remote)
    ensures x.flights == []
    ensures !x.core.fatal ==> x.core.disk == x.core.mem
  {
  }

  function CommandTally(x: Node, command: Command, id: Id, verdict: Verdict): Tally {
    if Authorizes(command) && !verdict.Refused? then Authorized(x.tally, id) else x.tally
  }

  lemma DecideHolds(x: Node, i: nat, command: Command, now: int, r: SaveResult, bound: map<Id, Fingerprint>,
                    remote: Records)
    requires Holds(x, bound, remote) && x.up && AcceptsCommands(x.core) && i < |x.core.mem.actions|
    ensures var (d, verdict) := DecideStep(x.core, i, command, now, r);
            Holds(x.(core := d, tally := CommandTally(x, command, x.core.mem.actions[i].id, verdict)), bound, remote)
  {
    hide Holds, Advances, Consistent, Evolves, Sound, ValidActions, Ran, Accountable, OwedPut, OwedGet;
    var a := x.core.mem.actions[i];
    var b := Authorize(a, command, x.core.mem.writes.value);
    Parts(x, bound, remote);
    SoundParts(x.core);
    assert VouchedIntent(a, bound, remote) && Covered(a, x.tally, x.flights);
    DecideSound(x.core, i, command, now, r);
    OthersDiffer(x.core.mem, i);
    if b.Some? {
      var t := if Authorizes(command) then Authorized(x.tally, b.value.id) else x.tally;
      var y := x.(core := Persist(x.core, WithIntent(x.core.mem, i, b.value, now), r), tally := t);
      IdleShape(x, y.core, t, remote);
      IntentHolds(x, y, i, b.value, bound, remote);
    }
  }

  /** The intent at `i` becomes `b`, and debts for the others do not grow. */
  lemma IntentHolds(x: Node, y: Node, i: nat, b: Intent, bound: map<Id, Fingerprint>, remote: Records)
    requires Holds(x, bound, remote) && Shaped(y, remote) && Advances(x.core, y.core)
    requires y.execs == x.execs && Gated(y) && i < |x.core.mem.actions|
    requires y.core.mem.actions == x.core.mem.actions[i := b] && b.id == x.core.mem.actions[i].id
    requires forall k :: 0 <= k < |x.core.mem.actions| && k != i ==> x.core.mem.actions[k].id != b.id
    requires VouchedIntent(b, bound, remote) && Covered(b, y.tally, y.flights)
    requires y.tally == x.tally.(auths := y.tally.auths) && x.tally.auths <= y.tally.auths
    requires forall id :: id != b.id ==>
               OwedPut(y.flights, id) <= OwedPut(x.flights, id) && OwedGet(y.flights, id) <= OwedGet(x.flights, id)
    requires y.core.disk == y.core.mem || y.flights == []
    ensures Holds(y, bound, remote)
  {
    hide Holds, Advances, Evolves, Shaped, Gated, Sound, Vouched, Books, Ran, Accountable, Covered, VouchedIntent;
    Parts(x, bound, remote);
    AdvancesParts(x.core, y.core);
    CarriedAlong(x.tally, x.execs, x.core.disk, y.core.disk);
    ReplaceVouched(x.core.mem.actions, i, b, bound, remote);
    ReplaceBooks(x.core.mem.actions, x.tally, x.flights, y.tally, y.flights, i, b);
    if y.flights == [] {
      SameBooks(x.core.disk.actions, x.tally, x.flights, y.tally, y.flights);
    }
    hide OwedPut, OwedGet;
    Assemble(x, y, bound, remote);
  }

  /** An identifier that is not bound anywhere has no tally here and no intent. */
  lemma UnboundIsNew(x: Node, id: Id, bound: map<Id, Fingerprint>, remote: Records)
    requires Holds(x, bound, remote) && id !in bound
    ensures x.tally.puts[id] == 0 && x.tally.gets[id] == 0
    ensures forall i :: 0 <= i < |x.core.mem.actions| ==> x.core.mem.actions[i].id != id
  {
  }

  lemma ProposeHolds(x: Node, payload: Payload, newId: Option<Id>, now: int, r: SaveResult, w: World)
    requires Holds(x, w.bound, w.remote) && x.up && AcceptsCommands(x.core)
    requires newId.Some? ==> FreshId(w, newId.value)
    ensures var y := x.(core := ProposeStep(x.core, payload, newId, now, r).0);
            Holds(y, Bind(w, x, y), w.remote)
  {
    if ValidPayload(payload) && |x.core.mem.actions| < MAX_ACTIONS && newId.Some? {
      var a := Proposal(x.core.mem, newId.value, payload);
      UnboundIsNew(x, a.id, w.bound, w.remote);
      assert WellFormedId(newId.value) && Sound(x.core);
      ProposeSound(x.core, payload, newId, now, r);
      NewIntentHolds(x, a, now, r, w.bound, w.remote);
    }
  }

  lemma NewIntentHolds(x: Node, a: Intent, now: int, r: SaveResult, bound: map<Id, Fingerprint>, remote: Records)
    requires Holds(x, bound, remote) && x.up && AcceptsCommands(x.core)
    requires a.id !in bound && RoutedId(a.id) && a.status.Proposed? && a.attempts == 0 && a.checks == 0
    requires x.tally.puts[a.id] == 0 && x.tally.gets[a.id] == 0
    requires Advances(x.core, Persist(x.core, WithNewIntent(x.core.mem, a, now), r))
    ensures Holds(x.(core := Persist(x.core, WithNewIntent(x.core.mem, a, now), r)), bound[a.id := a.digest], remote)
  {
    var y := x.(core := Persist(x.core, WithNewIntent(x.core.mem, a, now), r));
    Parts(x, bound, remote);
    hide Holds, Sound, Advances, ValidActions, Vouched, Books, Ran, Accountable;
    IdleShape(x, y.core, x.tally, remote);
    AppendedHolds(x, y, a, bound, remote);
  }

  /** A proposal joins the queue; nothing was tallied. */
  lemma AppendedHolds(x: Node, y: Node, a: Intent, bound: map<Id, Fingerprint>, remote: Records)
    requires Holds(x, bound, remote) && Shaped(y, remote) && Advances(x.core, y.core)
    requires x.flights == [] && y == x.(core := y.core)
    requires y.core.mem.actions == x.core.mem.actions + [a]
    requires a.id !in bound && RoutedId(a.id) && a.status.Proposed? && a.attempts == 0 && a.checks == 0
    requires x.tally.puts[a.id] == 0 && x.tally.gets[a.id] == 0 && RecoveryReady(x.core.disk)
    ensures Holds(y, bound[a.id := a.digest], remote)
  {
    hide Holds, Advances, Evolves, Shaped, Sound, Ran, Accountable, RoutedId;
    var bound' := bound[a.id := a.digest];
    HoldsGrows(x, bound, remote, bound', remote);
    Parts(x, bound', remote);
    AdvancesParts(x.core, y.core);
    CarriedAlong(x.tally, x.execs, x.core.disk, y.core.disk);
    assert Books(y.core.mem.actions, x.tally, []) by {
      assert Covered(a, x.tally, []);
      hide Covered;
    }
    assert Vouched(y.core.mem.actions, bound', remote) by {
      assert VouchedIntent(a, bound', remote);
      hide VouchedIntent;
    }
    hide Vouched, Books;
    Assemble(x, y, bound', remote);
  }

  lemma ObeyHolds(x: Node, command: Command, id: Id, hash: Fingerprint, payload: Payload, newId: Option<Id>,
                  now: int, r: SaveResult, w: World)
    requires Holds(x, w.bound, w.remote) && (newId.Some? ==> FreshId(w, newId.value))
    ensures var y := Obey(x, command, id, hash, payload, newId, now, r);
            Holds(y, Bind(w, x, y), w.remote)
  {
    hide Holds, ProposeStep, DecideStep, ValidActions, FreshId;
    if x.up && AcceptsCommands(x.core) {
      if command.Propose? {
        ProposeHolds(x, payload, newId, now, r, w);
      } else if Position(x.core.mem.actions, id) >= 0 {
        DecideHolds(x, Position(x.core.mem.actions, id), command, now, r, w.bound, w.remote);
      }
    }
  }

  // ---------------------------------------------------------------- beginnings

  lemma LaunchShape(x: Node, begun: (Core, Option<Job>), remote: Records)
    requires Shaped(x, remote) && x.up && !x.core.running && Began(x.core, begun)
    ensures Shaped(Launch(x, begun), remote) && Advances(x.core, begun.0)
  {
  }

  /** What `BeginAction` does to the intent it was asked to step. */
  lemma BeginActionEffect(c: Core, i: nat, readOnly: bool, now: int, r: SaveResult)
    requires i < |c.mem.actions|
    ensures var (d, job) := BeginAction(c, i, readOnly, now, r);
            var a := c.mem.actions[i];
            var allowWrite := !readOnly && a.status.Approved?;
            match job
            case None =>
              d == c || d.mem.actions == c.mem.actions[i := a]
                || d.mem.actions == c.mem.actions[i := Reserved(a, allowWrite)]
            case Some(j) =>
              j == ActionJob(i, Reserved(a, allowWrite), allowWrite)
                && d.mem.actions == c.mem.actions[i := Reserved(a, allowWrite)]
              && d.disk == d.mem && d.mem.recovery == c.mem.recovery
  {
    hide ValidActions;
  }

  lemma BeginActionHolds(x: Node, i: nat, readOnly: bool, now: int, r: SaveResult, bound: map<Id, Fingerprint>,
                         remote: Records)
    requires Holds(x, bound, remote) && x.up && !x.core.fatal && !x.core.running && i < |x.core.mem.actions|
    requires readOnly || RecoveryReady(x.core.mem)
    ensures Holds(Launch(x, BeginAction(x.core, i, readOnly, now, r)), bound, remote)
  {
    hide Holds, Advances, Began, Consistent, Evolves, Sound, Ran, Accountable, Shaped, BeginAction;
    var a := x.core.mem.actions[i];
    Parts(x, bound, remote);
    SoundItself(x.core);
    IdleShape(x, x.core, x.tally, remote);
    SoundParts(x.core);
    OthersDiffer(x.core.mem, i);
    BeginActionSound(x.core, i, readOnly, now, r);
    BeginActionEffect(x.core, i, readOnly, now, r);
    LaunchShape(x, BeginAction(x.core, i, readOnly, now, r), remote);
    var y := Launch(x, BeginAction(x.core, i, readOnly, now, r));
    if y != x {
      var b := y.core.mem.actions[i];
      assert VouchedIntent(a, bound, remote) && Covered(a, x.tally, []);
      hide Vouched, Books;
      assert Gated(y) by {
        AdvancesParts(x.core, y.core);
        CarriedAlong(x.tally, x.execs, x.core.disk, y.core.disk);
      }
      IntentHolds(x, y, i, b, bound, remote);
    }
  }

  /** What `BeginCycle` does to the parts that the books and the ledger look at. */
  lemma BeginCycleEffect(c: Core, now: int, r: SaveResult)
    ensures var (d, job) := BeginCycle(c, now, r);
            && d.mem.actions == c.mem.actions && d.mem.completed == c.mem.completed && d.mem.recovery == c.mem.recovery
            && d.mem.cognition == c.mem.cognition && d.mem.agentId == c.mem.agentId
            && (job.Some? ==>
                  && job.value.CycleJob? && job.value.epoch == c.epoch && d.disk == d.mem
                  && job.value.request.cycle
                     == (if c.mem.pending.NoCycle? then CycleName(c.mem.agentId, c.mem.completed + 1)
                         else c.mem.pending)
                  && (c.mem.cognition.Some? ==> d.mem.modelAttempts == c.mem.modelAttempts + 1))
  {
    var m := Named(c.mem, now);
    var n, t := WithReservation(m), Log(m.(status := Paused), now, BudgetExhausted, m.completed);
    assert m == c.mem.(pending := m.pending, events := m.events);
    assert m.pending == if c.mem.pending.NoCycle? then CycleName(c.mem.agentId, c.mem.completed + 1) else c.mem.pending;
    assert n == m.(modelAttempts := n.modelAttempts) && (m.cognition.Some? ==> n.modelAttempts == m.modelAttempts + 1);
    assert t == m.(status := Paused, events := t.events);
    hide Named, Log, WithReservation, BudgetSpent;
  }

  lemma RanOnce(execs: seq<Pending>, s: State, t: State)
    requires Ran(execs, s) && t.agentId == s.agentId && t.completed == s.completed && t.cognition == s.cognition
             && s.completed >= 0
    requires t.cognition.Some? ==> t.modelAttempts == s.modelAttempts + 1
    ensures Ran(execs + [CycleName(t.agentId, t.completed + 1)], t)
  {
  }

  lemma BeginCycleHolds(x: Node, now: int, r: SaveResult, bound: map<Id, Fingerprint>, remote: Records)
    requires Holds(x, bound, remote) && x.up && !x.core.fatal && !x.core.running
    requires x.core.mem.status.Active? && NextAction(x.core.mem.actions) == -1
    ensures Holds(Launch(x, BeginCycle(x.core, now, r)), bound, remote)
  {
    hide Holds, Advances, Began, Evolves, Sound, Ran, Accountable, Shaped, BeginCycle, Vouched, Books, NextAction;
    Parts(x, bound, remote);
    SoundItself(x.core);
    IdleShape(x, x.core, x.tally, remote);
    SoundParts(x.core);
    ActiveHasCyclesLeft(x.core.mem);
    assert RecoveryReady(x.core.disk) && x.core.mem.completed >= 0;
    hide Consistent;
    BeginCycleSound(x.core, now, r);
    BeginCycleEffect(x.core, now, r);
    LaunchShape(x, BeginCycle(x.core, now, r), remote);
    var y := Launch(x, BeginCycle(x.core, now, r));
    if BeginCycle(x.core, now, r).1.None? {
      SameIntents(x, y, bound, remote);
    } else {
      RanOnce(x.execs, x.core.disk, y.core.mem);
      SameBooks(x.core.mem.actions, x.tally, [], y.tally, y.flights);
      hide OwedPut, OwedGet;
      Assemble(x, y, bound, remote);
    }
  }

  lemma BeginStepHolds(x: Node, now: int, r: SaveResult, bound: map<Id, Fingerprint>, remote: Records)
    requires Holds(x, bound, remote) && x.up
    ensures Holds(Launch(x, BeginStep(x.core, now, r)), bound, remote)
  {
    hide Holds, BeginAction, BeginCycle;
    if !x.core.fatal && !x.core.running && x.core.mem.status.Active? && RecoveryReady(x.core.mem) {
      var i := NextAction(x.core.mem.actions);
      if i >= 0 {
        BeginActionHolds(x, i, false, now, r, bound, remote);
      } else {
        BeginCycleHolds(x, now, r, bound, remote);
      }
    }
  }

  lemma RunActionHolds(x: Node, id: Id, readOnly: bool, now: int, r: SaveResult, bound: map<Id, Fingerprint>,
                       remote: Records)
    requires Holds(x, bound, remote) && x.up
    ensures Holds(Launch(x, RunActionStep(x.core, id, readOnly, now, r)), bound, remote)
  {
    hide Holds, BeginAction;
    var i := Position(x.core.mem.actions, id);
    if !x.core.fatal && !x.core.running && i >= 0 && (readOnly || RecoveryReady(x.core.mem)) {
      BeginActionHolds(x, i, readOnly, now, r, bound, remote);
    }
  }

  // ---------------------------------------------------------------- the exchange with the destination

  /** Moving the exchange on: the tallies may grow by what the job still owed. */
  lemma ExchangeHolds(x: Node, y: Node, bound: map<Id, Fingerprint>, remote: Records)
    requires Holds(x, bound, remote) && Shaped(y, remote)
    requires y == x.(flights := y.flights, tally := y.tally)
    requires y.tally.auths == x.tally.auths
    requires forall id :: y.tally.puts[id] + OwedPut(y.flights, id) <= x.tally.puts[id] + OwedPut(x.flights, id)
    requires forall id :: y.tally.gets[id] + OwedGet(y.flights, id) <= x.tally.gets[id] + OwedGet(x.flights, id)
    requires Accountable(y.tally, y.core.disk.actions) && Gated(y)
    ensures Holds(y, bound, remote)
  {
    hide Shaped, Vouched, Accountable, Ran, Gated, OwedPut, OwedGet, Books;
    SameBooks(x.core.mem.actions, x.tally, x.flights, y.tally, y.flights);
    SameBooks(x.core.disk.actions, x.tally, x.flights, y.tally, y.flights);
  }

  /** The only flight there can be. */
  lemma OneFlight(x: Node, k: nat, remote: Records)
    requires Shaped(x, remote) && Flying(x, k)
    ensures k == 0 && x.core.running && x.flights == [x.flights[0]] && FlightFits(x.core, x.flights[0], remote)
  {
  }

  /** The intent of the job in flight is on disk, marked in flight. */
  lemma MarkedOnDisk(x: Node, k: nat, remote: Records)
    requires Shaped(x, remote) && Flying(x, k) && x.flights[k].job.ActionJob?
    ensures var job := x.flights[k].job;
            && job.index < |x.core.disk.actions| && x.core.disk.actions[job.index] == job.copy
               && job.copy.status.InFlight?
            && Position(x.core.disk.actions, job.copy.id) >= 0
  {
  }

  lemma PhaseShape(x: Node, k: nat, phase: Phase, t: Tally, remote: Records)
    requires Shaped(x, remote) && Flying(x, k) && x.flights[k].job.ActionJob?
    requires phase.Cleared? || phase.Sent? ==> x.flights[k].job.allowWrite
    requires phase.Answered? && Confirmed(x.flights[k].job.copy, phase.out) ==> OnRecord(x.flights[k].job.copy, remote)
    ensures Shaped(InPhase(x, k, phase).(tally := t), remote)
  {
  }

  lemma PhaseGate(x: Node, k: nat, phase: Phase, t: Tally)
    requires Gated(x) && Flying(x, k) && |x.flights| == 1
    requires t.puts == x.tally.puts && t.auths == x.tally.auths
    ensures Gated(InPhase(x, k, phase).(tally := t))
  {
    assert x.flights[0] in x.flights;
    var flights := InPhase(x, k, phase).flights;
    assert flights == [flights[0]];
  }

  lemma AskHolds(x: Node, k: nat, bound: map<Id, Fingerprint>, remote: Records)
    requires Holds(x, bound, remote) && Exchanging(x, k, Fresh)
    ensures Holds(Ask(x, k), bound, remote)
  {
    hide Holds, Shaped, FlightFits, Position, Fits, Ran, Books, Vouched;
    Parts(x, bound, remote);
    OneFlight(x, k, remote);
    MarkedOnDisk(x, k, remote);
    PhaseShape(x, k, Asked, Ask(x, k).tally, remote);
    PhaseGate(x, k, Asked, Ask(x, k).tally);
    ExchangeHolds(x, Ask(x, k), bound, remote);
  }

  lemma SendHolds(x: Node, k: nat, bound: map<Id, Fingerprint>, remote: Records)
    requires Holds(x, bound, remote) && Exchanging(x, k, Cleared)
    ensures Holds(Send(x, k), bound, remote)
  {
    hide Holds, Shaped, Position, Fits, Ran, Books, Vouched, RecoveryReady;
    Parts(x, bound, remote);
    OneFlight(x, k, remote);
    assert x.flights[k].job.allowWrite && x.flights[0] in x.flights;
    MarkedOnDisk(x, k, remote);
    hide FlightFits;
    PhaseShape(x, k, Sent, Send(x, k).tally, remote);
    ExchangeHolds(x, Send(x, k), bound, remote);
  }

  /** A receipt that arrives was written by the destination from its record. */
  predicate Genuine(reply: Reply, remote: Records) {
    reply.Http? && reply.body.Some? ==>
      reply.body.value.actionId in remote && remote[reply.body.value.actionId].digest == reply.body.value.digest
  }

  /** The exchange ends with an answer, or is cleared for a write. */
  lemma AnswerHolds(x: Node, k: nat, phase: Phase, bound: map<Id, Fingerprint>, remote: Records)
    requires Holds(x, bound, remote) && Flying(x, k) && x.flights[k].job.ActionJob?
    requires phase.Answered? || (phase.Cleared? && x.flights[k].phase.Asked? && x.flights[k].job.allowWrite)
    requires phase.Answered? && Confirmed(x.flights[k].job.copy, phase.out) ==> OnRecord(x.flights[k].job.copy, remote)
    ensures Holds(InPhase(x, k, phase), bound, remote)
  {
    hide Holds, Shaped, FlightFits, Accountable, Fits, Ran, Books, Vouched, OnRecord, RecoveryReady;
    Parts(x, bound, remote);
    OneFlight(x, k, remote);
    PhaseShape(x, k, phase, x.tally, remote);
    PhaseGate(x, k, phase, x.tally);
    ExchangeHolds(x, InPhase(x, k, phase), bound, remote);
  }

  lemma HearGetHolds(x: Node, k: nat, reply: Reply, bound: map<Id, Fingerprint>, remote: Records)
    requires Holds(x, bound, remote) && Exchanging(x, k, Asked) && Genuine(reply, remote)
    ensures Holds(HearGet(x, k, reply), bound, remote)
  {
    hide Holds;
    AnswerHolds(x, k, HearGet(x, k, reply).flights[k].phase, bound, remote);
  }

  lemma HearPutHolds(x: Node, k: nat, reply: Reply, bound: map<Id, Fingerprint>, remote: Records)
    requires Holds(x, bound, remote) && Exchanging(x, k, Sent) && Genuine(reply, remote)
    ensures Holds(HearPut(x, k, reply), bound, remote)
  {
    hide Holds;
    AnswerHolds(x, k, HearPut(x, k, reply).flights[k].phase, bound, remote);
  }

  // ---------------------------------------------------------------- landings

  lemma LandShape(x: Node, k: nat, d: Core, remote: Records)
    requires Shaped(x, remote) && Flying(x, k) && Advances(x.core, d) && !d.running
    ensures Shaped(Land(x, k, d), remote) && Land(x, k, d).flights == []
  {
  }

  lemma SettleActionEffect(c: Core, job: Job, out: RecordOutcome, now: int, r: SaveResult)
    requires job.ActionJob? && job.index < |c.mem.actions|
    ensures var d := SettleAction(c, job, out, now, r);
            !d.running && d.mem.actions == c.mem.actions[job.index := Settled(c.mem.actions[job.index], job.copy, out)]
  {
  }

  lemma SettleIntentHolds(x: Node, k: nat, now: int, r: SaveResult, bound: map<Id, Fingerprint>, remote: Records)
    requires Holds(x, bound, remote) && CanSettleIntent(x, k)
    ensures Holds(SettleIntent(x, k, now, r), bound, remote)
  {
    hide Holds, Shaped, Accountable, Ran, Sound, SettleAction, Consistent, Advances;
    var job := x.flights[k].job;
    var out := x.flights[k].phase.out;
    var y := SettleIntent(x, k, now, r);
    Parts(x, bound, remote);
    SoundParts(x.core);
    OneFlight(x, k, remote);
    OthersDiffer(x.core.mem, job.index);
    SettleActionSound(x.core, job, out, now, r);
    SettleActionEffect(x.core, job, out, now, r);
    LandShape(x, k, y.core, remote);
    var a := x.core.mem.actions[job.index];
    assert VouchedIntent(a, bound, remote) && Covered(a, x.tally, x.flights);
    hide Vouched, Books, Fits, FlightFits, RecoveryReady;
    assert Gated(y) by {
      AdvancesParts(x.core, y.core);
      CarriedAlong(x.tally, x.execs, x.core.disk, y.core.disk);
    }
    IntentHolds(x, y, job.index, Settled(a, job.copy, out), bound, remote);
  }

  lemma SettleCycleEffect(c: Core, job: Job, stopped: bool, result: Option<Bytes>, stored: SaveResult, now: int,
                          r: SaveResult)
    requires job.CycleJob?
    ensures var d := SettleCycle(c, job, stopped, result, stored, now, r); !d.running && d.mem.actions == c.mem.actions
  {
  }

  lemma SettleExecutionHolds(x: Node, k: nat, stopped: bool, result: Option<Bytes>, stored: SaveResult, now: int,
                             r: SaveResult,
                             bound: map<Id, Fingerprint>, remote: Records)
    requires Holds(x, bound, remote) && Flying(x, k) && x.flights[k].job.CycleJob?
    ensures Holds(SettleExecution(x, k, stopped, result, stored, now, r), bound, remote)
  {
    hide Holds, Shaped, Accountable, Ran, Sound, SettleCycle, Advances, Vouched, Books, Evolves, RecoveryReady;
    var y := SettleExecution(x, k, stopped, result, stored, now, r);
    Parts(x, bound, remote);
    OneFlight(x, k, remote);
    SettleCycleSound(x.core, x.flights[k].job, stopped, result, stored, now, r);
    SettleCycleEffect(x.core, x.flights[k].job, stopped, result, stored, now, r);
    LandShape(x, k, y.core, remote);
    AdvancesParts(x.core, y.core);
    CarriedAlong(x.tally, x.execs, x.core.disk, y.core.disk);
    SameBooks(x.core.mem.actions, x.tally, x.flights, y.tally, []);
    SameBooks(x.core.disk.actions, x.tally, x.flights, y.tally, []);
    Assemble(x, y, bound, remote);
  }

  // ---------------------------------------------------------------- recovery

  lemma ActivateHolds(x: Node, sourceFenced: bool, checked: bool, now: int, r: SaveResult, bound: map<Id, Fingerprint>,
                      remote: Records)
    requires Holds(x, bound, remote)
    ensures Holds(Activate(x, sourceFenced, checked, now, r), bound, remote)
  {
    hide Holds, Accountable, Ran, Sound, Advances, Vouched, Books, Evolves, RecoveryReady, FlightFits;
    if !x.up {
      var d := ActivateStep(x.core, sourceFenced, checked, now, r).0;
      var y := Activate(x, sourceFenced, checked, now, r);
      Parts(x, bound, remote);
      ActivateSound(x.core, sourceFenced, checked, now, r);
      AdvancesParts(x.core, d);
      BootedSound(d);
      CarriedAlong(x.tally, x.execs, x.core.disk, d.disk);
      assert Shaped(y, remote);
      assert y.core.disk.actions == x.core.disk.actions;
      AssembleBooted(x, y, bound, remote);
    }
  }

  lemma AssembleBooted(x: Node, y: Node, bound: map<Id, Fingerprint>, remote: Records)
    requires Holds(x, bound, remote) && Shaped(y, remote) && y == x.(core := y.core)
    requires y.core.mem == y.core.disk && y.core.disk.actions == x.core.disk.actions
    requires Ran(y.execs, y.core.disk) && (RecoveryReady(x.core.disk) ==> RecoveryReady(y.core.disk))
    ensures Holds(y, bound, remote)
  {
  }
}
