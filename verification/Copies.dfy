/** A rejection binds one instance: what a copy restored from an older backup rejects, the original may
    have been authorized to write. */
module Copies {
  import opened Foundations
  import opened Kernel
  import opened Intents
  import opened Missions
  import opened Sections
  import opened Coherence
  import opened Destinations
  import opened World
  import opened Safety
  import opened Evolution
  import opened Theorems
  import opened Progress
  import opened Runs
  import Restores

  /** Restore, activate, start and reject, on the copy's own directory. */
  function RejectingCopy(s: State, files: map<Hash, Bytes>, backup: Hash, script: string, place: string, now: int,
                         id: Id, hash: Fingerprint, payload: Payload): Node {
    var restored := NewNode(RestoredState(s, backup, script, place, now), files);
    Obey(Start(Activate(restored, true, true, now, Saved)), Reject, id, hash, payload, None, now, Saved)
  }

  lemma ActivatedCopy(s: State, files: map<Hash, Bytes>, backup: Hash, script: string, place: string, now: int)
    requires Loadable(s) && AbsolutePath(script) && AbsolutePath(place)
    ensures var t := RestoredState(s, backup, script, place, now);
            var y := Start(Activate(NewNode(t, files), true, true, now, Saved));
            && y.up && y.core.disk == y.core.mem && !y.core.fatal && !y.core.running && y.flights == []
            && RecoveryReady(y.core.mem) && y.core.mem.actions == t.actions && y.core.mem.status == t.status
            && y.core.mem.writes == s.writes && y.core.mem.agentId == s.agentId
  {
    Restores.RestoredLoads(s, backup, script, place, now);
    hide ValidActions, ValidSettings, FenceAll;
  }

  lemma CopyRejects(s: State, files: map<Hash, Bytes>, backup: Hash, script: string, place: string, now: int,
                    id: Id, payload: Payload)
    requires Loadable(s) && AbsolutePath(script) && AbsolutePath(place) && !Terminal(s.status)
    requires s.writes.Some? && s.actions == [Proposal(s, id, payload)]
    ensures var p := Proposal(s, id, payload);
            var y := RejectingCopy(s, files, backup, script, place, now, id, p.digest, payload);
            y.core.disk.actions == [p.(status := Rejected)]
  {
    var p := Proposal(s, id, payload);
    var t := RestoredState(s, backup, script, place, now);
    assert t.actions == [p] by {
      assert FenceAll(s.actions)[0] == Fenced(p);
    }
    ActivatedCopy(s, files, backup, script, place, now);
    hide ValidIntent, Activate, Start, RestoredState;
    assert Position([p], id) == 0;
    assert [p][0 := p.(status := Rejected)] == [p.(status := Rejected)];
  }

  // ---------------------------------------------------------------- two instances

  /** Back up instance `n`, restore the archive as `m`, activate and start the copy, and reject there. */
  function CopySteps(n: nat, m: nat, backup: Hash, script: string, place: string, now: int, id: Id, hash: Fingerprint,
                     payload: Payload): seq<Step> {
    [DoBackup(n), DoRestore(m, 0, backup, script, place, now), DoActivate(m, true, true, now, Saved), DoStart(m),
     DoCommand(m, Reject, id, hash, payload, None, now, Saved)]
  }

  lemma CopyAppears(w: World, n: nat, m: nat, backup: Hash, script: string, place: string, now: int)
    requires n in w.nodes && m !in w.nodes && w.archives == [] && AbsolutePath(script) && AbsolutePath(place)
    ensures var x := w.nodes[n];
            var v := Apply(Apply(w, DoBackup(n)), DoRestore(m, 0, backup, script, place, now));
            && m in v.nodes && n in v.nodes && v.nodes[n] == x
            && v.nodes[m]
               == NewNode(RestoredState(x.core.disk, backup, script, place, now), Referenced(x.core.disk, x.core.files))
  {
    hide AbsolutePath, Referenced, RestoredState, NewNode;
  }

  lemma CopyContinues(w: World, n: nat, m: nat, now: int, id: Id, hash: Fingerprint, payload: Payload)
    requires n in w.nodes && m in w.nodes && n != m
    ensures var v := Apply(Apply(Apply(w, DoActivate(m, true, true, now, Saved)), DoStart(m)),
                           DoCommand(m, Reject, id, hash, payload, None, now, Saved));
            && m in v.nodes && n in v.nodes && v.nodes[n] == w.nodes[n]
            && v.nodes[m]
               == Obey(Start(Activate(w.nodes[m], true, true, now, Saved)), Reject, id, hash, payload, None, now, Saved)
  {
    hide Activate, Start, Obey, Bind;
  }

  /** The copy does all that by itself; the original is as before. */
  lemma CopyRuns(w: World, n: nat, m: nat, backup: Hash, script: string, place: string, now: int, id: Id,
                 hash: Fingerprint, payload: Payload)
    requires n in w.nodes && m !in w.nodes && w.archives == [] && AbsolutePath(script) && AbsolutePath(place)
    ensures var x := w.nodes[n];
            var v := Run(w, CopySteps(n, m, backup, script, place, now, id, hash, payload));
            && n in v.nodes && v.nodes[n] == x && m in v.nodes
            && v.nodes[m]
               == RejectingCopy(x.core.disk, Referenced(x.core.disk, x.core.files), backup, script, place, now, id,
                                hash, payload)
  {
    hide Apply, AbsolutePath, Referenced, RestoredState, NewNode, Activate, Start, Obey, Run;
    var s := CopySteps(n, m, backup, script, place, now, id, hash, payload);
    RunFive(w, s[0], s[1], s[2], s[3], s[4]);
    CopyAppears(w, n, m, backup, script, place, now);
    CopyContinues(Apply(Apply(w, DoBackup(n)), DoRestore(m, 0, backup, script, place, now)), n, m, now, id, hash,
                  payload);
  }

  // ---------------------------------------------------------------- the whole story

  /** Create, start, propose; copy and reject there; approve here and write. */
  lemma ProposedAlone(init: Step, id: Id, payload: Payload, now: int)
    requires init.DoInit? && ValidInit(init) && init.writes.Some? && ValidPayload(payload) && RoutedId(id)
    ensures var s := Opening(init, id, payload, now);
            var mission := NewMission(init.agentId, init.protocol, init.execution, init.cognition, init.retrieval,
                                      init.writes, init.now);
            var w := Run(EMPTY, s[..3]);
            && w.nodes.Keys == {init.n} && w.archives == [] && w.remote == map[]
            && Alone(w.nodes[init.n], mission, Proposal(mission, id, payload))
  {
    var s := Opening(init, id, payload, now);
    var mission := NewMission(init.agentId, init.protocol, init.execution, init.cognition, init.retrieval, init.writes,
                              init.now);
    assert ValidPolicy(mission.writes.value) && RecoveryReady(mission) && mission.status.Active?
           && mission.actions == [];
    MissionStarts(init);
    var w2 := Apply(Apply(EMPTY, init), DoStart(init.n));
    assert FreshId(w2, id);
    assert s[..3] == [init, DoStart(init.n), s[2]];
    hide ValidPayload, RoutedId, ValidInit, Apply, Obey, FreshId, NewMission;
    RunThree(EMPTY, init, DoStart(init.n), s[2]);
    ProposalStands(mission, id, s[2].hash, payload, now);
    CommandedAlone(w2, s[2]);
  }

  /** The story up to the point where the original may write. */
  function Story(init: Step, m: nat, backup: Hash, script: string, place: string, id: Id, payload: Payload,
                 now: int): seq<Step>
    requires init.DoInit? && init.writes.Some?
  {
    var s := Opening(init, id, payload, now);
    s[..3] + CopySteps(init.n, m, backup, script, place, now, id, s[3].hash, payload) + [s[3]]
  }

  /** What the story ends with: the original may write, the copy has rejected. */
  predicate Split(w: World, n: nat, m: nat, id: Id, payload: Payload) {
    && n in w.nodes && CanWrite(w.nodes[n], 0)
    && w.nodes[n].core.mem.actions[0].id == id && w.nodes[n].core.mem.actions[0].payload == payload
    && m in w.nodes && 0 < |w.nodes[m].core.disk.actions|
    && w.nodes[m].core.disk.actions[0].id == id && w.nodes[m].core.disk.actions[0].status.Rejected?
  }

  lemma ApprovedSplit(w: World, mission: State, n: nat, m: nat, id: Id, payload: Payload, now: int)
    requires n in w.nodes && m in w.nodes && m != n && ValidPayload(payload) && WellFormedId(id)
    requires mission.writes.Some? && ValidPolicy(mission.writes.value) && RecoveryReady(mission)
             && mission.status.Active?
    requires var p := Proposal(mission, id, payload);
             Alone(w.nodes[n], mission, p) && w.nodes[m].core.disk.actions == [p.(status := Rejected)]
    ensures Split(Apply(w, DoCommand(n, Approve, id, Proposal(mission, id, payload).digest, payload, None, now, Saved)),
                  n, m, id, payload)
  {
    hide ValidPayload, WellFormedId, Obey, Apply;
    Approves(w.nodes[n], mission, id, payload, now);
    CommandedAlone(w, DoCommand(n, Approve, id, Proposal(mission, id, payload).digest, payload, None, now, Saved));
  }

  lemma StoryContinues(w: World, mission: State, n: nat, m: nat, backup: Hash, script: string, place: string, id: Id,
                       payload: Payload, now: int)
    requires w.nodes.Keys == {n} && w.archives == [] && m != n && AbsolutePath(script) && AbsolutePath(place)
    requires mission.writes.Some? && ValidPolicy(mission.writes.value) && RecoveryReady(mission)
             && mission.status.Active?
    requires ValidPayload(payload) && WellFormedId(id)
    requires Alone(w.nodes[n], mission, Proposal(mission, id, payload)) && Loadable(w.nodes[n].core.disk)
    ensures var hash := Proposal(mission, id, payload).digest;
            var v := Run(w, CopySteps(n, m, backup, script, place, now, id, hash, payload));
            Split(Apply(v, DoCommand(n, Approve, id, hash, payload, None, now, Saved)), n, m, id, payload)
  {
    var x, p := w.nodes[n], Proposal(mission, id, payload);
    assert Proposal(x.core.disk, id, payload) == p;
    assert x.core.disk.writes.Some? && x.core.disk.actions == [p] && !Terminal(x.core.disk.status);
    hide ValidPayload, WellFormedId, AbsolutePath, Loadable, Run, Apply, CopySteps, RejectingCopy, Proposal, Alone,
         Split, Referenced;
    CopyRuns(w, n, m, backup, script, place, now, id, p.digest, payload);
    CopyRejects(x.core.disk, Referenced(x.core.disk, x.core.files), backup, script, place, now, id, payload);
    ApprovedSplit(Run(w, CopySteps(n, m, backup, script, place, now, id, p.digest, payload)), mission, n, m, id,
                  payload, now);
  }

  lemma StoryTold(init: Step, m: nat, backup: Hash, script: string, place: string, id: Id, payload: Payload, now: int)
    requires init.DoInit? && ValidInit(init) && init.writes.Some? && ValidPayload(payload) && RoutedId(id)
    requires m != init.n && AbsolutePath(script) && AbsolutePath(place)
    ensures Split(Run(EMPTY, Story(init, m, backup, script, place, id, payload, now)), init.n, m, id, payload)
  {
    var s := Opening(init, id, payload, now);
    var mission := NewMission(init.agentId, init.protocol, init.execution, init.cognition, init.retrieval, init.writes,
                              init.now);
    var hash := Proposal(mission, id, payload).digest;
    assert s[3] == DoCommand(init.n, Approve, id, hash, payload, None, now, Saved);
    assert WellFormedId(id) && ValidPolicy(mission.writes.value) && RecoveryReady(mission) && mission.status.Active?
           && mission.writes.Some?;
    hide ValidPayload, RoutedId, WellFormedId, ValidInit, AbsolutePath, NewMission, Run, Apply, Opening, CopySteps,
         Split, Alone, Proposal;
    ProposedAlone(init, id, payload, now);
    DiskLoads(s[..3], init.n);
    var w3 := Run(EMPTY, s[..3]);
    StoryContinues(w3, mission, init.n, m, backup, script, place, id, payload, now);
    var copying := CopySteps(init.n, m, backup, script, place, now, id, hash, payload);
    RunSplits(EMPTY, s[..3] + copying, [s[3]]);
    RunSplits(EMPTY, s[..3], copying);
    RunOne(Run(w3, copying), s[3]);
  }

  lemma DiskLoads(steps: seq<Step>, n: nat)
    requires n in Run(EMPTY, steps).nodes
    ensures Loadable(Run(EMPTY, steps).nodes[n].core.disk)
  {
    hide Run, Loadable, Start, LedgerAgrees;
    Durable(steps, n);
  }

  /** The copy holds the intent as rejected, and its record exists. */
  ghost predicate RejectedThere(w: World, m: nat, id: Id) {
    && m in w.nodes && id in w.remote && 0 < |w.nodes[m].core.disk.actions|
    && w.nodes[m].core.disk.actions[0].id == id && w.nodes[m].core.disk.actions[0].status.Rejected?
  }

  /** For every mission with a write policy, every payload that the service takes and every copy there is
      a run after which the copy holds the intent as rejected, for good, and its record exists. */
  lemma RejectedButWritten(init: Step, m: nat, backup: Hash, script: string, place: string, id: Id, payload: Payload,
                           now: int)
    requires init.DoInit? && ValidInit(init) && init.writes.Some? && RecordPayload(payload) && RoutedId(id)
    requires m != init.n && AbsolutePath(script) && AbsolutePath(place)
    ensures var past := Story(init, m, backup, script, place, id, payload, now);
            && init.n in Run(EMPTY, past).nodes && 0 < |Run(EMPTY, past).nodes[init.n].core.mem.actions|
            && RejectedThere(Run(EMPTY, past + CleanRun(Run(EMPTY, past), init.n, 0, now)), m, id)
  {
    PayloadRulesDiffer();
    var past := Story(init, m, backup, script, place, id, payload, now);
    StoryTold(init, m, backup, script, place, id, payload, now);
    hide Run, Story, RecordPayload, ValidPayload, RoutedId, ValidInit, AbsolutePath, CleanRun;
    CleanRunSucceeds(past, init.n, 0, now);
    var future := CleanRun(Run(EMPTY, past), init.n, 0, now);
    Absorbing(past, future, m);
  }
}
