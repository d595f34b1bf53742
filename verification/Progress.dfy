/** A clean exchange completes: with nothing lost and nothing interrupting, an approved intent whose
    turn has come is committed at the destination and recorded as succeeded, exactly if the service
    takes its payload or has the record already. */
module Progress {
  import opened Foundations
  import opened Kernel
  import opened Intents
  import opened Missions
  import opened Sections
  import opened Coherence
  import opened Destinations
  import opened World
  import opened Instance
  import opened Safety
  import opened Theorems
  import opened Runs

  /** The instance `n` waits in `phase` for the job it launched. */
  predicate Waits(w: World, n: nat, core: Core, job: Job, phase: Phase) {
    && n in w.nodes && w.nodes[n].up && w.nodes[n].core == core
    && |w.nodes[n].flights| == 1 && w.nodes[n].flights[0].job == job && w.nodes[n].flights[0].phase == phase
  }

  /** An idle, active instance whose next intent is approved. */
  predicate CanWrite(x: Node, i: nat) {
    && x.up && !x.core.fatal && !x.core.running && x.flights == []
    && x.core.mem.status.Active? && RecoveryReady(x.core.mem)
    && i < |x.core.mem.actions| && NextAction(x.core.mem.actions) == i && x.core.mem.actions[i].status.Approved?
  }

  function JobFor(x: Node, i: nat): Job
    requires i < |x.core.mem.actions|
  {
    ActionJob(i, Reserved(x.core.mem.actions[i], true), true)
  }

  function CoreFor(x: Node, i: nat, now: int): Core
    requires i < |x.core.mem.actions|
  {
    Persist(x.core, WithIntent(x.core.mem, i, Reserved(x.core.mem.actions[i], true), now), Saved).(running := true)
  }

  lemma StartsCore(c: Core, i: nat, now: int)
    requires !c.fatal && !c.running && c.mem.status.Active? && RecoveryReady(c.mem)
    requires i < |c.mem.actions| && NextAction(c.mem.actions) == i && c.mem.actions[i].status.Approved?
    requires ValidActions(c.mem.actions, c.mem.agentId, c.mem.writes)
    requires c.mem.actions[i].checks < MAX_CHECKS && c.mem.actions[i].attempts < c.mem.writes.value.maxAttempts
    ensures BeginStep(c, now, Saved)
         == (Persist(c, WithIntent(c.mem, i, Reserved(c.mem.actions[i], true), now), Saved).(running := true),
             Some(ActionJob(i, Reserved(c.mem.actions[i], true), true)))
  {
  }

  lemma IntentReadyToWrite(w: World, n: nat, i: nat)
    requires Safe(w) && n in w.nodes && CanWrite(w.nodes[n], i)
    ensures var m := w.nodes[n].core.mem;
            && ValidActions(m.actions, m.agentId, m.writes) && m.writes.Some?
            && m.actions[i].checks < MAX_CHECKS && m.actions[i].attempts < m.writes.value.maxAttempts
  {
    hide Holds, Safe, Sound, Consistent, NextAction;
    var x := w.nodes[n];
    HoldsOf(w, n);
    Parts(x, w.bound, w.remote);
    SoundParts(x.core);
    IntentFacts(x.core.mem, i);
    hide ValidActions, ValidIntent;
  }

  lemma JobLeaves(w: World, n: nat, i: nat, now: int)
    requires Safe(w) && n in w.nodes && CanWrite(w.nodes[n], i)
    ensures var v := Apply(w, DoStep(n, now, Saved));
            && Waits(v, n, CoreFor(w.nodes[n], i, now), JobFor(w.nodes[n], i), Fresh)
            && v.remote == w.remote && v.sent == w.sent && v.bound == w.bound
  {
    hide Safe, ValidActions;
    IntentReadyToWrite(w, n, i);
    StartsCore(w.nodes[n].core, i, now);
    hide BeginStep, Reserved, WithIntent, Persist, NextAction;
  }

  lemma JobAsks(w: World, n: nat, core: Core, job: Job)
    requires Waits(w, n, core, job, Fresh) && job.ActionJob?
    ensures var v := Apply(w, DoAsk(n, 0));
            Waits(v, n, core, job, Asked) && v.remote == w.remote && v.sent == w.sent && job.copy.id in v.asked
  {
  }

  lemma JobHears(w: World, n: nat, core: Core, job: Job)
    requires Waits(w, n, core, job, Asked) && job.ActionJob? && job.allowWrite && job.copy.id in w.asked
    ensures var g := GetReply(w.remote, job.copy.id);
            var v := Apply(Apply(w, DoServeGet(job.copy.id)), DoHearGet(n, 0, g));
            && v.remote == w.remote && v.sent == w.sent
            && Waits(v, n, core, job,
                     if Clears(job.copy, true, g) then Cleared else Answered(Classify(Get, job.copy, g)))
  {
    hide GetReply, Classify;
  }

  /** What the destination answers to the PUT of this intent when the database works. */
  function PutReply(records: Records, copy: Intent): Reply {
    PutEffect(records, copy.id, EnvelopeOf(copy), false).1
  }

  lemma JobWrites(w: World, n: nat, core: Core, job: Job)
    requires Waits(w, n, core, job, Cleared) && job.ActionJob?
    ensures var v := Apply(Apply(w, DoSend(n, 0)), DoServePut(EnvelopeOf(job.copy), false));
            && Waits(v, n, core, job, Sent)
            && v.remote == PutEffect(w.remote, job.copy.id, EnvelopeOf(job.copy), false).0
            && (job.copy.id, PutReply(w.remote, job.copy)) in v.replies
  {
    hide PutEffect;
  }

  lemma JobConfirms(w: World, n: nat, core: Core, job: Job, reply: Reply)
    requires Waits(w, n, core, job, Sent) && job.ActionJob? && (job.copy.id, reply) in w.replies
    ensures var v := Apply(w, DoHearPut(n, 0, reply));
            v.remote == w.remote && Waits(v, n, core, job, Answered(Classify(Put, job.copy, reply)))
  {
    hide Classify;
  }

  lemma JobSettles(w: World, n: nat, core: Core, job: Job, out: RecordOutcome, now: int)
    requires Waits(w, n, core, job, Answered(out)) && job.ActionJob? && job.index < |core.mem.actions|
    ensures var v := Apply(w, DoSettleIntent(n, 0, now, Saved));
            && v.remote == w.remote && n in v.nodes && v.nodes[n].up && v.nodes[n].flights == []
            && v.nodes[n].core == SettleAction(core, job, out, now, Saved)
  {
    hide SettleAction;
  }

  /** What the settled core says about its intent and its mission. */
  lemma SettledCore(core: Core, job: Job, out: RecordOutcome, now: int)
    requires job.ActionJob? && job.index < |core.mem.actions| && !out.absent && core.mem.status.Active?
    requires core.mem.actions[job.index] == job.copy
    ensures var d := SettleAction(core, job, out, now, Saved);
            && !d.fatal && !d.running && |d.disk.actions| == |core.mem.actions|
               && d.disk.actions[job.index].id == job.copy.id
            && d.disk.actions[job.index].status == (if Confirmed(job.copy, out) then Succeeded else Unknown)
            && d.disk.status == (if Confirmed(job.copy, out) then Active else Paused)
  {
  }

  /** The exchange of a job that has left, to its end; the answers are those of this very exchange. */
  function ExchangeSteps(records: Records, n: nat, copy: Intent, now: int): seq<Step> {
    [DoAsk(n, 0), DoServeGet(copy.id), DoHearGet(n, 0, GetReply(records, copy.id))]
    + ((if copy.id in records then []
        else [DoSend(n, 0), DoServePut(EnvelopeOf(copy), false), DoHearPut(n, 0, PutReply(records, copy))])
       + [DoSettleIntent(n, 0, now, Saved)])
  }

  /** What such an exchange reports. */
  function Outcome(records: Records, copy: Intent): RecordOutcome {
    if copy.id in records then Classify(Get, copy, GetReply(records, copy.id))
    else Classify(Put, copy, PutReply(records, copy))
  }

  function CleanRun(w: World, n: nat, i: nat, now: int): seq<Step>
    requires n in w.nodes && i < |w.nodes[n].core.mem.actions|
  {
    [DoStep(n, now, Saved)] + ExchangeSteps(w.remote, n, Reserved(w.nodes[n].core.mem.actions[i], true), now)
  }

  /** The intent in question is routed and bound; a record that exists is its own. */
  lemma IntentReady(w: World, n: nat, i: nat)
    requires Safe(w) && n in w.nodes && i < |w.nodes[n].core.mem.actions|
    ensures var a := w.nodes[n].core.mem.actions[i];
            && RoutedId(a.id)
            && (a.id in w.remote ==> w.remote[a.id].digest == a.digest)
  {
  }

  /** What the answers mean for the job. */
  lemma LedgerAnswers(records: Records, job: Job)
    requires job.ActionJob? && RoutedId(job.copy.id)
    requires job.copy.id in records ==> records[job.copy.id].digest == job.copy.digest
    ensures Clears(job.copy, true, GetReply(records, job.copy.id)) <==> job.copy.id !in records
    ensures !Outcome(records, job.copy).absent
    ensures Confirmed(job.copy, Outcome(records, job.copy))
            <==> job.copy.id in records || RecordPayload(job.copy.payload)
    ensures job.copy.id !in records ==>
              PutEffect(records, job.copy.id, EnvelopeOf(job.copy), false).0
              == if RecordPayload(job.copy.payload)
                 then records[job.copy.id := Record(job.copy.digest, job.copy.payload)] else records
  {
    hide RoutedId, RecordPayload;
  }

  /** The exchange ended as it should. */
  predicate CarriedOut(x: Node, i: nat, a: Intent, before: Records, after: Records) {
    var good := a.id in before || RecordPayload(a.payload);
    && i < |x.core.disk.actions| && x.core.disk.actions[i].id == a.id
    && x.core.disk.actions[i].status == (if good then Succeeded else Unknown)
    && x.core.disk.status == (if good then Active else Paused)
    && RecordStands(a.id, a.digest, good, after)
  }

  /** The record is there exactly if all went well, and then it is the intent's own. */
  predicate RecordStands(id: Id, digest: Fingerprint, good: bool, after: Records) {
    (id in after <==> good) && (good ==> after[id].digest == digest)
  }

  /** A job that has left completes, whatever has happened to its controller's core in the meantime. */
  lemma Exchange(w: World, n: nat, core: Core, job: Job, now: int)
    requires Waits(w, n, core, job, Fresh) && job.ActionJob? && job.allowWrite && job.index < |core.mem.actions|
    requires RoutedId(job.copy.id) && (job.copy.id in w.remote ==> w.remote[job.copy.id].digest == job.copy.digest)
    ensures var v := Run(w, ExchangeSteps(w.remote, n, job.copy, now));
            && n in v.nodes && v.nodes[n].up && v.nodes[n].flights == []
            && v.nodes[n].core == SettleAction(core, job, Outcome(w.remote, job.copy), now, Saved)
            && RecordStands(job.copy.id, job.copy.digest,
                            job.copy.id in w.remote || RecordPayload(job.copy.payload), v.remote)
  {
    hide Apply, Run, GetReply, PutEffect, Waits, RoutedId, RecordPayload, SettleAction, Classify, Clears, Confirmed;
    var id, g := job.copy.id, GetReply(w.remote, job.copy.id);
    LedgerAnswers(w.remote, job);
    JobAsks(w, n, core, job);
    var w1 := Apply(w, DoAsk(n, 0));
    JobHears(w1, n, core, job);
    var w3 := Apply(Apply(w1, DoServeGet(id)), DoHearGet(n, 0, g));
    RunThree(w, DoAsk(n, 0), DoServeGet(id), DoHearGet(n, 0, g));
    if id in w.remote {
      var tail := [DoSettleIntent(n, 0, now, Saved)];
      JobSettles(w3, n, core, job, Outcome(w.remote, job.copy), now);
      RunOne(w3, tail[0]);
      RunSplits(w, [DoAsk(n, 0), DoServeGet(id), DoHearGet(n, 0, g)], tail);
      assert [] + tail == tail;
    } else {
      var reply := PutReply(w.remote, job.copy);
      var tail := [DoSend(n, 0), DoServePut(EnvelopeOf(job.copy), false), DoHearPut(n, 0, reply),
                   DoSettleIntent(n, 0, now, Saved)];
      JobWrites(w3, n, core, job);
      var w5 := Apply(Apply(w3, tail[0]), tail[1]);
      JobConfirms(w5, n, core, job, reply);
      JobSettles(Apply(w5, tail[2]), n, core, job, Outcome(w.remote, job.copy), now);
      RunFour(w3, tail[0], tail[1], tail[2], tail[3]);
      RunSplits(w, [DoAsk(n, 0), DoServeGet(id), DoHearGet(n, 0, g)], tail);
      assert [tail[0], tail[1], tail[2]] + [tail[3]] == tail;
    }
  }

  lemma CleanExchange(w: World, n: nat, i: nat, now: int)
    requires Safe(w) && n in w.nodes && CanWrite(w.nodes[n], i)
    ensures var v := Run(w, CleanRun(w, n, i, now));
            n in v.nodes && CarriedOut(v.nodes[n], i, w.nodes[n].core.mem.actions[i], w.remote, v.remote)
  {
    hide Safe, Apply, Run, ExchangeSteps, Outcome, Waits, RoutedId, RecordPayload, SettleAction, Confirmed,
         RecordStands;
    var x := w.nodes[n];
    var core, job := CoreFor(x, i, now), JobFor(x, i);
    IntentReady(w, n, i);
    JobLeaves(w, n, i, now);
    var w1 := Apply(w, DoStep(n, now, Saved));
    Exchange(w1, n, core, job, now);
    LedgerAnswers(w.remote, job);
    SettledCore(core, job, Outcome(w.remote, job.copy), now);
    RunOne(w, DoStep(n, now, Saved));
    RunSplits(w, [DoStep(n, now, Saved)], ExchangeSteps(w.remote, n, job.copy, now));
  }

  /** After any run that leaves an instance ready to write, the clean exchange carries its intent out. */
  lemma CleanRunSucceeds(past: seq<Step>, n: nat, i: nat, now: int)
    requires n in Run(EMPTY, past).nodes && CanWrite(Run(EMPTY, past).nodes[n], i)
    ensures var w := Run(EMPTY, past);
            var v := Run(EMPTY, past + CleanRun(w, n, i, now));
            n in v.nodes && CarriedOut(v.nodes[n], i, w.nodes[n].core.mem.actions[i], w.remote, v.remote)
  {
    hide Run, Safe, CarriedOut, CleanRun;
    AnyRunSafe(past);
    CleanExchange(Run(EMPTY, past), n, i, now);
    RunSplits(EMPTY, past, CleanRun(Run(EMPTY, past), n, i, now));
  }

  // ---------------------------------------------------------------- and such runs exist

  /** The digest that an operator reviews for the first proposal of a mission. */
  function ReviewedDigest(init: Step, id: Id, payload: Payload): Fingerprint
    requires init.DoInit? && init.writes.Some?
  {
    Fingerprint(init.agentId, id, RECORD_CREATE, init.writes.value.endpoint, payload)
  }

  /** Create, start, propose, approve. */
  function Opening(init: Step, id: Id, payload: Payload, now: int): seq<Step>
    requires init.DoInit? && init.writes.Some?
  {
    var hash := ReviewedDigest(init, id, payload);
    [init, DoStart(init.n), DoCommand(init.n, Propose, id, hash, payload, Some(id), now, Saved),
     DoCommand(init.n, Approve, id, hash, payload, None, now, Saved)]
  }

  /** A mission whose only intent is `a`. */
  predicate Alone(x: Node, m: State, a: Intent) {
    && x.up && !x.core.fatal && !x.core.running && x.flights == []
    && x.core.disk == x.core.mem && x.core.mem == m.(actions := [a], events := x.core.mem.events)
  }

  lemma ProposalStands(m: State, id: Id, hash: Fingerprint, payload: Payload, now: int)
    requires m.writes.Some? && ValidPolicy(m.writes.value) && m.actions == [] && RecoveryReady(m) && !Terminal(m.status)
             && ValidPayload(payload)
    ensures Alone(Obey(NewNode(m, map[]).(up := true), Propose, id, hash, payload, Some(id), now, Saved), m,
                  Proposal(m, id, payload))
  {
    hide ValidPayload;
  }

  lemma Approves(x: Node, m: State, id: Id, payload: Payload, now: int)
    requires m.writes.Some? && ValidPolicy(m.writes.value) && RecoveryReady(m) && m.status.Active?
             && ValidPayload(payload) && WellFormedId(id)
    requires Alone(x, m, Proposal(m, id, payload))
    ensures var a := Proposal(m, id, payload);
            Alone(Obey(x, Approve, id, a.digest, payload, None, now, Saved), m,
                  a.(approved := Some(a.digest), status := Approved))
  {
    hide ValidPayload, WellFormedId;
    var a := Proposal(m, id, payload);
    assert ValidIntent(a, m.agentId, m.writes.value);
    hide ValidIntent;
    assert AcceptsCommands(x.core) && Position([a], id) == 0;
    assert [a][0 := a.(approved := Some(a.digest), status := Approved)]
           == [a.(approved := Some(a.digest), status := Approved)];
  }

  /** Creating and starting a mission in the empty world. */
  lemma MissionStarts(init: Step)
    requires init.DoInit? && ValidInit(init)
    ensures var m := NewMission(init.agentId, init.protocol, init.execution, init.cognition, init.retrieval,
                                init.writes, init.now);
            var w := Apply(Apply(EMPTY, init), DoStart(init.n));
            w == EMPTY.(nodes := map[init.n := NewNode(m, map[]).(up := true)])
  {
    var m := NewMission(init.agentId, init.protocol, init.execution, init.cognition, init.retrieval, init.writes,
                        init.now);
    assert Loadable(m) by {
      NewMissionConsistent(init.agentId, init.protocol, init.execution, init.cognition, init.retrieval, init.writes,
                           init.now);
    }
    hide Loadable, ValidProtocol, ValidCognition;
  }

  /** A command touches its instance and the bindings, nothing else. */
  lemma CommandedAlone(w: World, s: Step)
    requires s.DoCommand? && s.n in w.nodes && (s.newId.Some? ==> FreshId(w, s.newId.value))
    ensures var v := Apply(w, s);
            && v.nodes == w.nodes[s.n := Obey(w.nodes[s.n], s.command, s.id, s.hash, s.payload, s.newId, s.now, s.r)]
            && v.archives == w.archives && v.remote == w.remote
  {
    hide Obey, Bind, FreshId;
  }

  lemma OpeningSteps(init: Step, id: Id, payload: Payload, now: int)
    requires init.DoInit? && init.writes.Some?
    ensures var s := Opening(init, id, payload, now);
            Run(EMPTY, s) == Apply(Apply(Apply(Apply(EMPTY, init), DoStart(init.n)), s[2]), s[3])
  {
    hide Apply;
    var s := Opening(init, id, payload, now);
    assert s == [s[0], s[1], s[2], s[3]];
    RunFour(EMPTY, s[0], s[1], s[2], s[3]);
  }

  /** The mission that `init` creates, and its only intent after the opening. */
  function MissionOf(init: Step): State
    requires init.DoInit?
  {
    NewMission(init.agentId, init.protocol, init.execution, init.cognition, init.retrieval, init.writes, init.now)
  }

  function ApprovedProposal(s: State, id: Id, payload: Payload): Intent
    requires s.writes.Some?
  {
    var p := Proposal(s, id, payload);
    p.(approved := Some(p.digest), status := Approved)
  }

  /** The commands of the opening, one after the other. */
  lemma OpeningCommands(w: World, init: Step, id: Id, payload: Payload, now: int)
    requires init.DoInit? && ValidInit(init) && init.writes.Some? && ValidPayload(payload) && RoutedId(id)
    requires w == Apply(Apply(EMPTY, init), DoStart(init.n))
    ensures var s := Opening(init, id, payload, now);
            var v := Apply(Apply(w, s[2]), s[3]);
            && init.n in v.nodes
            && Alone(v.nodes[init.n], MissionOf(init), ApprovedProposal(MissionOf(init), id, payload))
            && v.remote == map[]
  {
    var m := MissionOf(init);
    assert WellFormedId(id) && ValidPolicy(m.writes.value) && RecoveryReady(m) && m.status.Active? && m.actions == [];
    assert ReviewedDigest(init, id, payload) == Proposal(m, id, payload).digest;
    MissionStarts(init);
    assert FreshId(w, id);
    var propose, approve := Opening(init, id, payload, now)[2], Opening(init, id, payload, now)[3];
    hide ValidPayload, RoutedId, WellFormedId, ValidInit, Apply, Obey, FreshId, MissionOf, ReviewedDigest, Proposal,
         Alone;
    ProposalStands(m, id, propose.hash, payload, now);
    CommandedAlone(w, propose);
    var w3 := Apply(w, propose);
    Approves(w3.nodes[init.n], m, id, payload, now);
    CommandedAlone(w3, approve);
  }

  /** Every legal mission with a write policy, every payload and every identifier lead to an instance
      whose only intent is approved and ready to be written. */
  lemma OpeningCanWrite(init: Step, id: Id, payload: Payload, now: int)
    requires init.DoInit? && ValidInit(init) && init.writes.Some? && ValidPayload(payload) && RoutedId(id)
    ensures var w := Run(EMPTY, Opening(init, id, payload, now));
            && init.n in w.nodes && CanWrite(w.nodes[init.n], 0) && w.remote == map[]
            && Alone(w.nodes[init.n], MissionOf(init), ApprovedProposal(MissionOf(init), id, payload))
  {
    hide ValidPayload, RoutedId, ValidInit, Run, Apply, Opening;
    OpeningSteps(init, id, payload, now);
    OpeningCommands(Apply(Apply(EMPTY, init), DoStart(init.n)), init, id, payload, now);
  }
}
