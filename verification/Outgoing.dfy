/** What leaves an instance: writes that an operator reviewed under their own digest, and requests to
    executors that say what is on disk. */
module Outgoing {
  import opened Foundations
  import opened Kernel
  import opened Intents
  import opened Missions
  import opened Json
  import opened Sections
  import opened Coherence
  import opened Destinations
  import opened World
  import opened Instance
  import opened Safety
  import opened Evolution
  import opened Theorems
  import opened Runs
  import opened Effects

  // ---------------------------------------------------------------- reviewed writes

  /** An operator's approve or retry for `id` that was not refused, with this digest. */
  predicate Grants(w: World, s: Step, n: nat, id: Id, digest: Fingerprint) {
    && s.DoCommand? && s.n == n && Authorizes(s.command) && s.id == id && s.hash == digest
    && n in w.nodes && w.nodes[n].up
    && !ActionControlStep(w.nodes[n].core, s.command, s.id, s.hash, s.payload, s.newId, s.now, s.r).1.Refused?
  }

  /** Only a command authorizes. */
  lemma OnlyCommandAuthorizes(w: World, s: Step, x: Node)
    requires OfInstance(s) && s.n in w.nodes && x == w.nodes[s.n] && !s.DoCommand?
    ensures NodeStep(w, s, x).nodes[s.n].tally.auths == x.tally.auths
  {
    hide ControlStep, BeginStep, RunActionStep, ActivateStep, SettleAction, SettleCycle, Loadable, Referenced,
         Classify, Clears, MayArrive;
  }

  lemma CommandAuthorizes(w: World, s: Step, x: Node)
    requires s.DoCommand? && s.n in w.nodes && x == w.nodes[s.n]
    ensures var y := NodeStep(w, s, x).nodes[s.n];
            y.tally.auths == x.tally.auths
            || (Grants(w, s, s.n, s.id, s.hash) && y.tally.auths == x.tally.auths + multiset{s.id})
  {
    hide ActionControlStep, Bind, FreshId;
  }

  /** A command that is not refused knows the digest that the identifier is bound to. */
  lemma ReviewIsBound(w: World, s: Step, n: nat, id: Id, digest: Fingerprint)
    requires Safe(w) && Grants(w, s, n, id, digest)
    ensures id in w.bound && w.bound[id] == digest
  {
    hide Safe, Holds, ActionControlStep;
    var x := w.nodes[n];
    DecisionMeaning(x.core, s.command, s.id, s.hash, s.payload, s.newId, s.now, s.r);
    var i :| 0 <= i < |x.core.mem.actions| && x.core.mem.actions[i].id == id && x.core.mem.actions[i].digest == digest;
    HoldsOf(w, n);
    Parts(x, w.bound, w.remote);
    hide Shaped, Sound, Books, Accountable, Ran, Gated;
    assert VouchedIntent(x.core.mem.actions[i], w.bound, w.remote);
  }

  /** Every authorization that a step adds was given for that identifier under the digest it is bound to. */
  lemma AuthorizedByDigest(w: World, s: Step, n: nat, id: Id)
    requires Safe(w) && n in w.nodes
    ensures n in Apply(w, s).nodes
    ensures Apply(w, s).nodes[n].tally.auths[id] > w.nodes[n].tally.auths[id] ==>
              id in w.bound && Grants(w, s, n, id, w.bound[id])
  {
    OthersUntouched(w, s, n);
    hide Safe, NodeStep, Grants;
    if OfInstance(s) && s.n == n {
      if s.DoCommand? {
        CommandAuthorizes(w, s, w.nodes[n]);
        if Grants(w, s, n, s.id, s.hash) {
          ReviewIsBound(w, s, n, s.id, s.hash);
        }
      } else {
        OnlyCommandAuthorizes(w, s, w.nodes[n]);
      }
    }
  }

  /** A new instance starts without authorizations. */
  lemma NewcomerUnauthorized(w: World, s: Step, n: nat)
    requires n !in w.nodes && n in Apply(w, s).nodes
    ensures Apply(w, s).nodes[n].tally.auths == multiset{}
  {
    if OfInstance(s) && s.n in w.nodes {
      SameInstances(w, s);
    }
    hide NewMission, RestoredState, NodeStep, PutEffect, GetReply, ValidInit;
  }

  lemma SameInstances(w: World, s: Step)
    requires OfInstance(s) && s.n in w.nodes
    ensures NodeStep(w, s, w.nodes[s.n]).nodes.Keys == w.nodes.Keys
  {
    hide ControlStep, ActionControlStep, BeginStep, RunActionStep, ActivateStep, SettleAction, SettleCycle, Loadable,
         Referenced, Classify, Clears, MayArrive, FreshId, Bind;
  }

  /** Somewhere in the run there is the review. */
  ghost predicate Reviewed(steps: seq<Step>, n: nat, id: Id, digest: Fingerprint) {
    exists k :: 0 <= k < |steps| && Grants(Run(EMPTY, steps[..k]), steps[k], n, id, digest)
  }

  lemma ReviewedLater(steps: seq<Step>, s: Step, n: nat, id: Id, digest: Fingerprint)
    requires Reviewed(steps, n, id, digest)
    ensures Reviewed(steps + [s], n, id, digest)
  {
    hide Run, Grants;
    var k :| 0 <= k < |steps| && Grants(Run(EMPTY, steps[..k]), steps[k], n, id, digest);
    assert (steps + [s])[..k] == steps[..k] && (steps + [s])[k] == steps[k];
  }

  lemma {:induction false} AuthorizationReviewed(steps: seq<Step>, n: nat, id: Id)
    requires n in Run(EMPTY, steps).nodes && Run(EMPTY, steps).nodes[n].tally.auths[id] > 0
    ensures id in Run(EMPTY, steps).bound && Reviewed(steps, n, id, Run(EMPTY, steps).bound[id])
    decreases |steps|
  {
    assert steps != [];
    var front, s := steps[..|steps| - 1], steps[|steps| - 1];
    assert steps == front + [s];
    RunSplits(EMPTY, front, [s]);
    RunOne(Run(EMPTY, front), s);
    var w := Run(EMPTY, front);
    hide Run, Apply, Grants, Reviewed, Safe;
    AnyRunSafe(front);
    StepGrows(w, s);
    if n !in w.nodes {
      NewcomerUnauthorized(w, s, n);
    } else if w.nodes[n].tally.auths[id] > 0 {
      AuthorizationReviewed(front, n, id);
      ReviewedLater(front, s, n, id, w.bound[id]);
    } else {
      AuthorizedByDigest(w, s, n, id);
      assert steps[..|front|] == front && steps[|front|] == s;
      ReviewedHere(steps, |front|, n, id, w.bound[id]);
    }
  }

  lemma ReviewedHere(steps: seq<Step>, k: nat, n: nat, id: Id, digest: Fingerprint)
    requires k < |steps| && Grants(Run(EMPTY, steps[..k]), steps[k], n, id, digest)
    ensures Reviewed(steps, n, id, digest)
  {
  }

  /** Every PUT was reviewed: an operator approved or retried its identifier, at an instance that has the
      intent on disk, under the very digest that the PUT carries. */
  lemma EveryPutReviewed(steps: seq<Step>, e: Envelope)
    requires e in Run(EMPTY, steps).sent
    ensures exists n :: n in Run(EMPTY, steps).nodes && Reviewed(steps, n, e.actionId, e.digest)
  {
    SentFaithful(steps, e);
    var w := Run(EMPTY, steps);
    assert w.bound[e.actionId] == e.digest;
    hide Run, Reviewed, Faithful;
    SentIsPaid(steps, e);
    var n :| n in w.nodes && w.nodes[n].tally.auths[e.actionId] > 0;
    AuthorizationReviewed(steps, n, e.actionId);
  }

  // ---------------------------------------------------------------- requests to executors

  /** The executor is asked for the next cycle of the mission on disk. */
  predicate AsksForDisk(q: Request, s: State, files: map<Hash, Bytes>) {
    && q.agentId == s.agentId && q.mission == s.protocol.mission && q.workspace == s.protocol.workspace
    && q.cycle == CycleName(s.agentId, s.completed + 1)
    && if s.artifacts == [] then q.memory == []
       else
         var last := s.artifacts[|s.artifacts| - 1];
         last.hash in files && q.memory == Canonical(files[last.hash])
  }

  lemma LaunchRequest(c: Core, now: int, r: SaveResult)
    requires Sound(c) && BeginStep(c, now, r).1.Some? && BeginStep(c, now, r).1.value.CycleJob?
    ensures var (d, job) := BeginStep(c, now, r);
            && d.disk == d.mem && d.files == c.files && job.value.protocol == d.disk.protocol
            && AsksForNext(job.value.request, d.disk) && d.disk.pending.CycleName?
  {
    hide Sound, BeginAction, BeginCycle, Consistent;
    SoundParts(c);
    ActiveHasCyclesLeft(c.mem);
    BeginCycleMeaning(c, now, r);
    hide NextAction;
  }

  /** A cycle's job leaves with the mission, workspace, number and memory that the published snapshot has,
      the memory being what the newest artifact says, and with the protocol of that snapshot. */
  lemma RequestIsOnDisk(past: seq<Step>, n: nat, now: int, r: SaveResult)
    requires n in Run(EMPTY, past).nodes && Run(EMPTY, past).nodes[n].up
    ensures var x, later := Run(EMPTY, past).nodes[n], Run(EMPTY, past + [DoStep(n, now, r)]);
            && n in later.nodes
            && var y := later.nodes[n];
               y.execs != x.execs ==>
                 && |y.flights| == 1 && y.flights[0].job.CycleJob?
                 && AsksForDisk(y.flights[0].job.request, y.core.disk, y.core.files)
                 && y.flights[0].job.protocol == y.core.disk.protocol
  {
    hide Run, Safe, BeginStep, AsksForDisk, Sound, Shaped, LedgerAgrees;
    var w, s := Run(EMPTY, past), DoStep(n, now, r);
    var x := w.nodes[n];
    RunSplits(EMPTY, past, [s]);
    RunOne(w, s);
    AnyNode(past, n);
    var (d, job) := BeginStep(x.core, now, r);
    assert Apply(w, s).nodes[n] == Launch(x, (d, job));
    if Launch(x, (d, job)).execs != x.execs {
      LaunchRequest(x.core, now, r);
      AnyNode(past + [s], n);
      OneFlightAtMost(Apply(w, s).nodes[n], Apply(w, s).remote);
      Durable(past + [s], n);
      PendingIsNext(d.disk);
      MemoryOnDisk(d.disk, d.files);
      RequestFits(job.value.request, d.disk, d.files);
    }
  }

  lemma OneFlightAtMost(x: Node, remote: Records)
    requires Shaped(x, remote)
    ensures |x.flights| <= 1
  {
    hide Sound, FlightFits;
  }

  lemma PendingIsNext(s: State)
    requires LedgerAgrees(s) && s.pending.CycleName?
    ensures s.pending == CycleName(s.agentId, s.completed + 1)
  {
  }

  lemma MemoryOnDisk(s: State, files: map<Hash, Bytes>)
    requires LedgerAgrees(s) && Readable(s, files) && Addressed(files)
    ensures if s.artifacts == [] then s.memory == []
            else
              var last := s.artifacts[|s.artifacts| - 1];
              last.hash in files && s.memory == Canonical(files[last.hash])
  {
    MemoryReads(s, files);
    hide Canonical, CompletedCycles, UpTo, LastCompletion, Readable, Addressed;
  }

  lemma RequestFits(q: Request, s: State, files: map<Hash, Bytes>)
    requires AsksForNext(q, s) && s.pending == CycleName(s.agentId, s.completed + 1)
    requires if s.artifacts == [] then s.memory == []
             else
               var last := s.artifacts[|s.artifacts| - 1];
               last.hash in files && s.memory == Canonical(files[last.hash])
    ensures AsksForDisk(q, s, files)
  {
  }
}
