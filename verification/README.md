# agentos-core: the mission controller, its write protocol, backups and retrieval

This project models three parts of agentos-core and proves what they promise.

**A. The durable mission controller and its write intents.** A mission is a JSON snapshot that one
process owns. Operators pause, resume and cancel it, propose writes, and approve, retry or reject
each write by its digest. The controller does one thing at a time: it *begins* under a mutex and
publishes a snapshot, *works* without the mutex (runs an executor, or asks the destination and then
writes), and *settles* under the mutex again. A save may fail before or after its rename.

- `Foundations`, `Kernel`, `Intents`, `Json`, `Missions`: data, the administrative transitions, load-time
  validation (`Loadable`, `ValidActions`), the cycle ledger (`LedgerAgrees`), the invariant of a snapshot
  (`Consistent`) and the order in which snapshots follow each other (`Evolves`).
- `Sections`: every stretch of code that runs under the mutex, as a function on memory, disk and flags.
- `Controllers`: the same stretches as methods of the objects they belong to; each method is proved
  to be its section, so whatever is proved of the sections holds of the methods.
- `Effects`: what each section does, observed from outside: when it acts, what it changes, and that it
  changes nothing else.
- `Coherence`: every section keeps disk and memory coherent and loadable, and a turn of the sequential
  runner is a turn of the controller that nobody interrupts.
- `Destinations`: the reference ledger and the adapter that asks before it writes.
- `World`: any number of instances (a mission and copies restored from its backups), operators,
  crashes and restarts, backups and restores, one destination, and a network that loses, delays,
  duplicates and reorders. A step is one locked section or one message; a run is any sequence of steps.
- `Instance`, `Safety`, `Evolution`: the invariant of an instance, of the world, and of the passage of
  time. `Theorems`, `Fencing`: what follows for every run from the empty world. `Runs`, `Progress`,
  `Cycles`: undisturbed exchanges and cycles reach their goal, so the theorems are about runs in which
  something happens; and how long an interval may be. `Turns`: the sequential runner's turns are runs.
  `Failures`: what a failed save blocks, exactly when for good, and the run in which the block is lifted.
  `Outgoing`: every write was reviewed under its own digest, and every request says what is on disk.
  `Looks`: a read-only look settles a doubt, and a retry answers an absence. `Copies`: a run that shows
  why rejection is a promise of one instance only.

**B. Backup, verification and restore.** `Workspaces` (the bounded export), `ArchiveFormat` (names,
limits and what an acceptable archive is), `Unpacking` (the reader accepts exactly the acceptable
archives), `Codecs` (what is asked of TAR, JSON and hexadecimal, and codecs that deliver it), `Backups`
(exactly when there is a backup; it is acceptable and comes back as it was), `Restores` (the destination
becomes loadable with its last link only, and then it is whole and fenced).

**C. Retrieval.** `Utf8` (section 4 of RFC 3629), `Chunks` (the overlapping chunks of a document),
`Retrieval`, `Ranking`, `Selections` (counting, scoring and selecting; the answer is a function of the
set of documents).

## Conventions

- SHA-256 and the digest of an intent are constructors (`Sha256`, `Fingerprint`): equal digests have
  equal inputs, and nothing else about them is used.
- Clock readings, random identifiers, results of executors, answers of the network and the fate of every
  durable write (`SaveResult`) are parameters, so a statement about a member is about all of them.
- A proposal's random identifier is new in the world, and other users of the destination keep away from
  identifiers in use (`FreshId`, `DoForeignPut`). The network does not forge receipts (`MayArrive`).
- Codecs (TAR, JSON, hexadecimal digests), the tokenizer, the logarithm and the order of chunk digests
  are parameters; `Lossless`, `Validating` and `Fair` list what is asked of them. `Codecs.LosslessCodec`
  exhibits codecs that meet the first, beside any decoder of states.
- Text that is checked for white space or length is a string of Unicode characters, a file's bytes are
  UTF-8; `Utf8.TextAgrees` connects the two.
- `memory` is the JSON text that `json.Marshal` makes of the executor's result: without white space
  between tokens and with HTML escapes. Indented in the snapshot or not, it is the same text to the
  executor: `Json.SpacingInvisible` and, in every run, `Theorems.Durable`.
- Clock readings and durations are in nanoseconds. Only a duration made from the mission's interval is
  computed in 64 bits there, and here too (`Kernel.Delay`).
- "Instance" is one state directory. Counts of PUTs, GETs and commands belong to an instance: a restored
  copy starts with the counters of its backup and an empty history.

## Where code and documentation differ

- docs/ARCHITECTURE.md:21 says that a persistence error blocks new executions. It does, until an intent
  that was in flight settles: `saveAction` decides anew (internal/core/actions.go:115-120). The input:
  begin an intent, `resume` with a failing save, let the intent settle with a successful one; the next step
  then starts an execution (`Failures.ErrorForgotten`). `Failures.BlockedExactly` has the exact condition: after
  any run that leaves an error pending, everything new is blocked in every continuation without a kill if and
  only if no write intent is in flight at that moment.
- docs/ARCHITECTURE.md:49 lets the interval run from the completion of a cycle. It does up to 9223372036
  seconds; above, `time.Duration(seconds) * time.Second` (internal/core/controller.go:147,
  internal/core/core.go:244) wraps around, which `Validate` does not prevent (internal/kernel/protocol.go:46).
  `Cycles.IntervalKept`: the interval is kept in every run if and only if it is at most that long. At
  10000000000 seconds all cycles may start in the moment the mission is created (`Cycles.AllAtOnce`).
- docs/WRITES.md:121 promises 120 and 8192 byte payloads without more. The service strips payloads with
  Python's rules, which remove U+001C to U+001F beside the white space of Unicode that the agent removes,
  so it answers 400 to some payloads that an operator can propose and approve. `Destinations.PayloadRulesDiffer`
  has the example, U+00A0 U+001C; `Theorems.PutsNeverConflict` and `Progress.CleanRunSucceeds` give the exact
  condition: a field of nothing but such characters. Safety does not depend on it.
- The branches of `Step` and `Tick` that only mark a mission completed (internal/core/controller.go:90-96,
  internal/core/core.go:218-221) are never taken in a run: `Coherence.ActiveHasCyclesLeft`.
- The limit of 12000 chunks (docs/RETRIEVAL.md:31) cannot be met through `retrieveSources`.

## Model

| member | source | states |
|---|---|---|
| `Intents.CheckIntent` | internal/core/actions.go:83-103 | the checks of one intent, in the loader's order, hold if and only if the intent is valid |
| `Intents.ValidateActions` | internal/core/actions.go:73-106 | the one-pass check with its map of seen identifiers accepts exactly the bounded queues of valid intents with pairwise distinct identifiers |
| `Intents.TamperingShows` | internal/core/actions.go:73-106 | a valid intent can be edited in no field that its digest covers, its counters only within 0 to the policy and 0 to 10, and approval and receipt only as its status asks |
| `Intents.QueueAdmits` | internal/core/actions.go:73-106 | exactly a valid intent under a new identifier may join a valid queue of fewer than 32 |
| `Intents.FindNextAction` | internal/core/actions.go:107-114 | finds the first intent that is neither succeeded nor rejected, or none if all are |
| `Intents.NextFrom` | internal/core/actions.go:107-114 | its position is the first unresolved one, and -1 means that every intent is final |
| `Intents.FindAction` | internal/core/actions.go:162-166 | finds the first intent with the identifier, or none |
| `Intents.PositionFrom` | internal/core/actions.go:215-219 | the intent found has the identifier, and -1 means that no intent has it |
| `Kernel.TransitionMeaning` | internal/kernel/protocol.go:51-65 | only resume makes a mission due, only cancel makes it terminal, nothing leaves a terminal status, and any other can be cancelled |
| `Kernel.DelayMeaning` | internal/core/controller.go:147 | the delay that is computed is the interval exactly up to 9223372036 seconds, and shorter above; at 10000000000 seconds it is negative |
| `Missions.CheckState` | internal/core/core.go:71-105 | the loader's checks, in its order, accept exactly the loadable snapshots |
| `Missions.SettingsExact` | internal/core/core.go:71-105 | the exact range of every setting, given that the rest loads |
| `Missions.NewMissionConsistent` | internal/core/core.go:140-149 | a new mission loads and satisfies the ledger and budget invariants |
| `Missions.EvolvesTransitive` | internal/core/core.go:106-139 | the order on snapshots composes: what no single step undoes, no run undoes |
| `Sections.Authorize` | internal/core/actions.go:170-193 | an intent becomes approved exactly by approving a proposal or by retrying a reconciled absence within both budgets, rejected exactly by rejecting before any attempt, and nothing else about it changes but the approved digest, which is its own |
| `Controllers.Mission.Append` | internal/core/controller.go:55 | appends exactly one event |
| `Controllers.Store.Save` | internal/core/core.go:106-139 | reports success only if the snapshot is published; a failure leaves the old or the new one |
| `Controllers.Store.PutArtifact` | internal/core/integrity.go:113-144 | on success the artifact reads back; a failure leaves at most an orphan |
| `Controllers.Store.ReadArtifact` | internal/core/integrity.go:145-160 | returns content if and only if digest and size match |
| `Controllers.ReserveModel` | internal/core/cognition.go:47-61 | takes one attempt from the persistent budget, or pauses and publishes when it is spent |
| `Controllers.Controller.Control` | internal/core/controller.go:36-62 | is the operator's section: refused unless legal, otherwise logged, a new epoch, published |
| `Controllers.Controller.SaveAction` | internal/core/actions.go:115-120 | logs the intent's status, publishes, and overwrites the pending error |
| `Controllers.Controller.Propose` | internal/core/actions.go:144-161 | is the proposal section, with every refusal |
| `Controllers.Controller.Decide` | internal/core/actions.go:170-193 | is the approve, retry and reject section, with every refusal |
| `Controllers.Controller.ActionControl` | internal/core/actions.go:123-195 | is the command section: gate, pending error, running job, terminal mission, policy, queue, digest; `Effects.ProposeMeaning` and `DecisionMeaning` characterise it |
| `Controllers.Controller.BeginActionLocked` | internal/core/actions.go:226-263 | is the begin section of an intent: budgets, reservation, published marker, then the job |
| `Controllers.Controller.Reserve` | internal/core/actions.go:249-263 | takes a check, and an attempt for a write, and lets the job out only if the marker was saved |
| `Controllers.Controller.PauseAndSave` | internal/core/actions.go:237-248 | pauses an active mission if asked and saves the intent as it stands |
| `Controllers.Controller.RunAction` | internal/core/actions.go:198-222 | is the section of `action-run` and of read-only reconciliation |
| `Controllers.Controller.FinishAction` | internal/core/actions.go:264-299 | is the settle section of an intent: the outcome is recorded whatever the mission's status; `Effects.SettleMeaning` characterises it |
| `Controllers.Controller.BeginCycleLocked` | internal/core/controller.go:97-119 | names, pays for and publishes the cycle before its job leaves; `Effects.BeginCycleMeaning` characterises it |
| `Controllers.Controller.Step` | internal/core/controller.go:63-119 | is the begin section of a step: intents before cycles, nothing without gate, status and time; `Effects.StepMeaning` characterises it |
| `Controllers.Controller.FinishCycle` | internal/core/controller.go:120-154 | is the settle section of a cycle, with every way to drop, fail or commit the result |
| `Controllers.CommitResult` | internal/core/controller.go:143-151 | the in-place assignments are one ledger entry: artifact, memory, counter, event, status |
| `Controllers.Tick` | internal/core/core.go:206-250 | leaves memory, disk and artifacts as one turn of the sequential runner does |
| `Controllers.TickCycle` | internal/core/core.go:218-250 | the same for the cycle of a turn |
| `Controllers.ActivateRecovery` | internal/core/recovery.go:61-74 | is the activation section: refused without record, declaration or doctor |
| `Effects.NewMissionMeaning` | internal/core/core.go:140-149 | a new mission has the settings given, is active and due at once, and is otherwise empty |
| `Effects.ControlMeaning` | internal/core/controller.go:36-62 | accepted exactly from active or paused, without a pending error and with an open gate to resume; then the status is what the command says, one event and one epoch more, nothing else |
| `Effects.ProposeMeaning` | internal/core/actions.go:144-161 | accepted exactly if open for commands, payload and count legal and an identifier drawn; then one fresh intent bound to this mission, identifier, endpoint and payload is appended |
| `Effects.DecisionMeaning` | internal/core/actions.go:162-195 | a decision is accepted exactly if open for commands and there is an intent with the identifier and the very digest given that admits it; then that intent alone changes, as the command says |
| `Effects.BeginActionMeaning` | internal/core/actions.go:226-263 | a job leaves exactly if the intent is eligible and funded and its marker published; it carries the marked intent and may write exactly if that was approved; without funds the mission is paused |
| `Effects.RunActionMeaning` | internal/core/actions.go:198-222 | writing needs an open gate and an active mission, looking neither; then it begins the intent with the identifier |
| `Effects.SettleMeaning` | internal/core/actions.go:264-299 | succeeded with the receipt exactly if confirmed, retry required exactly for an unfailed absence, unknown otherwise; an active mission is paused unless confirmed; nothing else changes |
| `Effects.BeginCycleMeaning` | internal/core/controller.go:90-119 | names the cycle, pays one model call and publishes before the job leaves with agent, mission, workspace, cycle and memory; pauses on a spent budget |
| `Effects.StepMeaning` | internal/core/controller.go:63-119 | acts exactly when idle, active and ungated; the first unresolved intent goes before every cycle and keeps it waiting; a cycle waits until due |
| `Effects.SettleCycleMeaning` | internal/core/controller.go:120-154 | a late result leaves nothing, an executor error pauses and keeps the cycle, an unstored result is an error only, a stored one is one more cycle on record |
| `Effects.ActivateMeaning` | internal/core/recovery.go:61-74 | the gate opens exactly with a record, the declaration and the doctor's verdict, and nothing else changes |
| `Effects.PayloadInOctets` | internal/core/actions.go:33-38 | the limits of a payload, on the octets of its fields |
| `Coherence.ControlSound` | internal/core/controller.go:36-62 | operator control keeps everything coherent, loadable and monotone, whatever its save does |
| `Coherence.ActionControlSound` | internal/core/actions.go:123-195 | so do propose, approve, retry and reject |
| `Coherence.BeginActionSound` | internal/core/actions.go:226-263 | so does beginning an intent, and its job will find its own marker on disk |
| `Coherence.SettleActionSound` | internal/core/actions.go:268-289 | so does settling it |
| `Coherence.BeginStepSound` | internal/core/controller.go:63-119 | so does a step; a job leaves only from a published snapshot without pending error |
| `Coherence.RunActionSound` | internal/core/actions.go:198-222 | so does a single action or a reconciliation |
| `Coherence.SettleCycleSound` | internal/core/controller.go:122-153 | so does every end of a cycle |
| `Coherence.ActivateSound` | internal/core/recovery.go:61-74 | so does activation |
| `Coherence.ControlKeepsJob` | internal/core/controller.go:54-61 | a job in flight still fits after any control command: intents keep their marker, cycles become stale |
| `Coherence.ActiveHasCyclesLeft` | internal/core/controller.go:90-96 | an active mission always has a cycle left and an open gate |
| `Coherence.CyclesSpaced` | internal/core/controller.go:86-151 | the step after a commit starts no cycle before the delay has passed, which is the interval up to 9223372036 seconds, and none when the last one is done |
| `Coherence.FatalBlocks` | internal/core/controller.go:39-41 | with a pending error every command and every begin is refused and changes nothing |
| `Coherence.FatalDropsCycle` | internal/core/controller.go:126-128 | with a pending error the result of a cycle in flight is dropped |
| `Coherence.SettleClearsFatal` | internal/core/actions.go:115-120 | settling an intent clears the pending error if and only if its save succeeds, and then disk equals memory |
| `Coherence.TickIsUninterruptedStep` | internal/core/core.go:206-250 | the sequential runner commits exactly what the concurrent begin and settle commit when nobody interrupts; on an executor error it stops where a kill would |
| `Destinations.PayloadRulesDiffer` | examples/write_service.py:79-81 | the service takes only payloads that the agent would propose, and refuses one that it would |
| `Destinations.Ledger.DoGet` | examples/write_service.py:53-59 | answers for the record, or 404 |
| `Destinations.Ledger.DoPut` | examples/write_service.py:61-103 | inserts once, replays the same content, refuses other content, and changes nothing on any error |
| `Destinations.PutMeaning` | examples/write_service.py:61-103 | for every envelope: a receipt is answered exactly if the ledger then holds exactly this content under this identifier, other content is a conflict, and no other record changes |
| `Destinations.ClassifyMeaning` | internal/core/write_http.go:30-71 | an answer confirms exactly with a success code of its request and a receipt for this very intent, reports absence exactly as the 404 of a GET, and fails otherwise |
| `Destinations.ExecuteRecord` | internal/core/write_http.go:19-71 | at most this one record appears, only if permitted and absent; a confirmation is backed by the ledger; without faults a permitted write is confirmed if and only if the record exists or the service takes the payload; an answered look is confirmed if the record exists and reports its absence if not |
| `World.FenceAll` | internal/core/backup.go:415-423 | every open authorization becomes unknown, position by position |
| `Safety.StepSafe` | internal/core/actions.go:198-299 | one step of anything, section or message, keeps the invariant of the whole world |
| `Safety.RunSafe` | internal/core/actions.go:198-299 | so does every run |
| `Safety.RestoredConsistent` | internal/core/backup.go:409-424 | restoring keeps the snapshot invariant |
| `Safety.PutEffectGrows` | examples/write_service.py:86-103 | the ledger only adds records, keeps bound ones as bound, and answers truthfully |
| `Evolution.DiskEvolves` | internal/core/core.go:106-139 | along any run the disk of an instance evolves: bindings stay, counters and ledger grow, final intents and terminal statuses stay |
| `Evolution.RunGrows` | examples/write_service.py:86-103 | bindings and destination records are permanent |
| `Evolution.NothingUnasked` | internal/core/actions.go:232-236 | no PUT leaves an instance for an intent not approved there, in any continuation without an approve or retry command for it there |
| `Theorems.EndToEnd` | internal/core/actions.go:226-299 | for any intent of any instance, at any later time: its identifier is bound to its digest, a record under it carries that digest and payload, and durable success means that the record is there for good |
| `Theorems.RecordsMatch` | examples/write_service.py:86-103 | a record under a bound identifier is the bound one |
| `Theorems.CopiesAgree` | internal/core/actions.go:63-69 | all restored copies mean the same by the same identifier |
| `Theorems.PutsNeverConflict` | internal/core/write_http.go:30-71 | however late or often a PUT arrives it never conflicts; it is accepted or replayed exactly if the service takes its payload |
| `Theorems.WriteAhead` | internal/core/actions.go:236-264 | PUTs never exceed durable attempts, the policy, or the approvals and retries; GETs never exceed durable checks, at most 10; an approved intent still has both; proposed and rejected ones were never sent |
| `Theorems.NothingOffTheBooks` | internal/core/actions.go:249-258 | nothing was ever sent for an identifier without a durable intent |
| `Theorems.SentIsPaid` | internal/core/actions.go:249-264 | every PUT in transit was sent by an instance whose disk holds that intent with that digest, an attempt and an authorization |
| `Theorems.MarkerFirst` | internal/core/actions.go:224-225 | when a PUT may leave, its approved intent is on disk in flight, with an unused attempt and authorization |
| `Theorems.RestartOnlyAsks` | internal/core/actions.go:224-236 | after a stop, intents found in flight are only asked about until a new retry |
| `Theorems.Durable` | internal/core/controller.go:86-153 | whenever the mutex is free: no pending error means disk equals memory; the disk loads, its ledger agrees, its artifacts read back, the memory is the JSON text of the last artifact however the file spaces it, the budget holds |
| `Theorems.BackupsRestore` | internal/core/backup.go:409-427 | every backup taken in any run restores to a loadable mission with its artifacts |
| `Theorems.ExecutionsPaid` | internal/core/controller.go:101-112 | every request that an executor was started with names a cycle of this mission, at most the one after the last confirmed, never going back; with cognition there are at most as many as durable attempts |
| `Theorems.ConfirmedNeverRerun` | internal/core/controller.go:97-151 | whatever an instance executes after any moment names a cycle beyond all that its disk confirms at that moment |
| `Outgoing.AuthorizedByDigest` | internal/core/actions.go:162-193 | every step that adds an authorization is an accepted approve or retry of that identifier under the digest it is bound to |
| `Outgoing.EveryPutReviewed` | internal/core/actions.go:162-193 | for every PUT in any run there is an earlier accepted approve or retry of its identifier under the very digest it carries |
| `Outgoing.RequestIsOnDisk` | internal/core/controller.go:97-119 | in every run, a cycle's job leaves with the agent, mission, workspace, next number and protocol of the snapshot on disk, and as memory the canonical text of its newest artifact |
| `Theorems.StartsSpaced` | internal/core/controller.go:86-151 | however much later and after whatever crashes, pauses and restarts a cycle starts, it starts at least a delay, that is an interval up to 9223372036 seconds, after the newest completion on record |
| `Cycles.IntervalKept` | internal/core/controller.go:86-151 | a mission of two or more payable cycles keeps its interval before every start in every run if and only if the interval is at most 9223372036 seconds |
| `Cycles.AllAtOnce` | internal/core/controller.go:147 | with an interval of 10000000000 seconds there is a run in which all cycles start and are confirmed in the moment of creation |
| `Cycles.RoundsSucceed` | internal/core/controller.go:86-154 | after any run that leaves an instance idle, undisturbed cycles that start when due and are affordable are confirmed in order, with their artifacts, memory, counters and next moment, and the results read back |
| `Cycles.MissionCompletes` | internal/core/core.go:140-149 | every legal mission that can pay for its cycles is completed by `MaxCycles` such cycles, with exactly their results as artifacts 1 to `MaxCycles` and the last as memory |
| `Turns.TurnsAreRuns` | cmd/agentos/main.go:230-244 | any sequence of turns of the sequential runner, in one process or several, whatever happens elsewhere meanwhile, is a run with the same memory, disk and artifacts, so all theorems about runs are about the runner |
| `Failures.BlockedExactly` | internal/core/controller.go:36-41 | with a pending error, nothing is started, authorized or committed in any continuation without a kill, if and only if no write intent is in flight now |
| `Failures.ErrorBlocks` | internal/core/controller.go:36-41 | after a failed save, in every run without a kill or an intent settling with a successful save: the error stays, nothing is started or authorized, and no result is committed |
| `Failures.ErrorForgotten` | internal/core/actions.go:115-120 | for every mission with a write policy there is a run in which the error pends while an intent is in flight and, after that one settles, a cycle starts without a restart |
| `Theorems.OneJobAndBarrier` | internal/core/controller.go:70-85 | at most one job in flight, also after pause and resume; a cycle runs only while every intent is final |
| `Theorems.ControlBumpsEpoch` | internal/core/controller.go:54-56 | a command that changes anything changes the epoch |
| `Theorems.LateResultsDropped` | internal/core/controller.go:113-153 | a result is committed only from active, in the epoch of its job and onto the very snapshot its job left |
| `Theorems.Absorbing` | internal/kernel/protocol.go:52-65 | cancelled and completed missions, final intents, published artifacts and events never change on disk |
| `Theorems.RejectedNeverSent` | internal/core/actions.go:182-186 | a durably rejected intent was never sent by its instance and never will be |
| `Theorems.EffectsElsewhere` | internal/core/actions.go:182-186 | a record for an intent that is rejected or only proposed here was sent by another instance, which was authorized to |
| `Copies.RejectedButWritten` | internal/core/backup.go:415-423 | and that happens: for every mission, payload and copy there is a run after which the copy holds the intent as rejected and its record exists |
| `Fencing.RestoredKeeps` | internal/core/backup.go:409-424 | restore changes the gate, an active status, the two paths, every open intent to unknown, and adds one event; every other field of the snapshot is equal |
| `Fencing.NothingBeforeActivation` | internal/core/recovery.go:16-21 | from restore to activation: never active, nothing authorized, sent or executed, in any run |
| `Fencing.RestoreNeedsNewCommand` | internal/core/backup.go:415-423 | even after activation an intent is sent only upon an approve or retry at the restored instance |
| `Progress.CleanRunSucceeds` | internal/core/actions.go:226-299 | after any run that leaves an approved intent next in line, an uninterrupted exchange ends with success on disk and the record at the destination if and only if the record existed or the service takes the payload; otherwise unknown and paused |
| `Progress.OpeningCanWrite` | internal/core/actions.go:144-176 | creating, starting, proposing and approving leads every legal mission with a write policy to such a state |
| `Looks.LookSettles` | internal/core/actions.go:198-299 | after any run that leaves an idle instance with an intent under way and a check left, an undisturbed read-only exchange ends succeeded if the record exists and retry required if not, on disk, and changes nothing at the destination |
| `Looks.RetryApproves` | internal/core/actions.go:177-181 | after any run that leaves an intent waiting for a retry within its budgets, a retry with its digest approves it on disk |
| `Looks.AbsenceRetried` | internal/core/actions.go:177-299 | so an absence that a look reports leads, by a retry with the digest, to an approved intent |
| `Json.CanonicalStable` | internal/core/core.go:106-139 | the text of a JSON value is a fixed point: saving and loading it any number of times changes nothing |
| `Json.SpacingInvisible` | internal/core/core.go:106-139 | texts that differ only in white space between tokens, as by indentation, have the same canonical text |
| `Utf8.TextAgrees` | internal/core/actions.go:33-38 | the octets of a text are valid UTF-8, as many as `len` counts, and blank if and only if the text is |
| `Utf8.EncodeAgrees` | internal/core/actions.go:33-38 | octets and characters agree on length and on Unicode white space |
| `Utf8.ValidIsText` | internal/core/retrieval.go:64 | every valid octet string is the encoding of some text |
| `Json.PlainKept` | internal/core/core.go:106-139 | compacting touches nothing but spacing, three characters and two separators; without these a text comes out as it went in |
| `Json.LiteralKept` | internal/core/core.go:106-139 | and a string literal keeps its spaces |
| `Utf8.CutValid` | internal/core/retrieval.go:114-116 | a cut of valid UTF-8 is valid exactly at a rune start or the end |
| `Utf8.BoundaryNear` | internal/core/retrieval.go:140-142 | a rune start is at most three bytes away on either side |
| `Chunks.NextChunk` | internal/core/retrieval.go:106-143 | the two inner loops find the last boundary within 2048 bytes and the first one from 256 bytes before it, and the next start is at least 1789 bytes on |
| `Chunks.BackUp` | internal/core/retrieval.go:110-116 | the greatest boundary not after a position, at most three bytes before it |
| `Chunks.Forward` | internal/core/retrieval.go:139-142 | the least boundary not before a position, at most three bytes after it |
| `Chunks.SpansChain` | internal/core/retrieval.go:106-143 | chunks are valid UTF-8 of at most 2048 bytes, overlap by 253 to 256 bytes, and reach from start to end |
| `Chunks.NothingCutInTwo` | internal/core/retrieval.go:106-143 | any window of at most 254 bytes lies wholly in some chunk |
| `Chunks.ChunkCount` | internal/core/retrieval.go:106-143 | n bytes give at most 1 + n/1789 chunks |
| `Chunks.Excerpt` | internal/core/cognition.go:117-122 | the truncation of a valid text is the first chunk of that text |
| `Retrieval.CountTerms` | internal/core/retrieval.go:120-125 | counts exactly the occurrences of the query terms |
| `Retrieval.AddTerms` | internal/core/retrieval.go:126-128 | in whatever order the map is ranged, each term's document frequency grows by one |
| `Retrieval.Collect` | internal/core/retrieval.go:99-144 | the nested loops produce the chunks with tokens in order, with exact frequencies and lengths, and fail exactly beyond 12000 |
| `Ranking.ComputeScore` | internal/core/retrieval.go:156-165 | the accumulating loop computes the BM25 sum over the query terms; `Ranking.RarerFirst`, `WeightMeaning` and `WeightAnchors` say what it prefers |
| `Ranking.PositiveIffMatching` | internal/core/retrieval.go:158-168 | scores are never negative, and positive exactly for chunks with a query term |
| `Ranking.WeightMeaning` | internal/core/retrieval.go:159-164 | more occurrences weigh more but below 2.2 times the rarity, and longer chunks weigh less |
| `Ranking.WeightAnchors` | internal/core/retrieval.go:164 | one occurrence in a chunk of average length weighs exactly the rarity, and seven in one of twice that length weigh what four do there |
| `Ranking.AverageBetween` | internal/core/retrieval.go:148 | the average length lies between the least and the greatest length |
| `Ranking.RarerTerm` | internal/core/retrieval.go:163 | the fewer chunks hold a term, the greater its rarity |
| `Ranking.RarerFirst` | internal/core/retrieval.go:156-178 | of two chunks of equal length and equal counts of one query term each, the one with the rarer term scores more and comes first |
| `Ranking.Select` | internal/core/retrieval.go:179-186 | the selection loop takes the positive ones among the first eight |
| `Ranking.SelectionMeaning` | internal/core/retrieval.go:173-186 | at most eight, all positive, in order, and no chunk left out precedes one taken |
| `Selections.RankSources` | internal/core/retrieval.go:83-188 | answers the top eight with honest counts, or the error for the first thing that is wrong |
| `Selections.DocumentsExact` | internal/core/retrieval.go:49-66 | the documents are exactly the listed, valid, NUL-free, non-blank files, under their names and with their text |
| `Selections.CandidatesExact` | internal/core/retrieval.go:99-144 | the candidates are exactly the chunks with a token of exactly the given documents |
| `Selections.NothingMadeUp` | internal/core/retrieval.go:173-186 | every chunk of an answer is a chunk of a given document with a query term and a positive score, at most eight, by score and then identifier |
| `Selections.NothingMissed` | internal/core/retrieval.go:173-186 | every chunk with a query term is in the answer, unless eight are that stand rightly before it |
| `Selections.CountsHonest` | internal/core/retrieval.go:166-187 | an answer reports the documents given, the chunks with a token, and how many of these hold a query term |
| `Selections.WhyNoRanking` | internal/core/retrieval.go:83-172 | exactly when a query is bad, chunks are too many, nothing has a token or nothing matches |
| `Selections.IdExact` | internal/core/retrieval.go:103-129 | two chunks have the same identifier exactly if they are the same bytes of the same document |
| `Selections.PositiveIffContains` | internal/core/retrieval.go:156-169 | a chunk of the documents scores above zero if and only if its text holds a query term |
| `Selections.IdsDistinct` | internal/core/retrieval.go:104-129 | chunks of distinct documents have pairwise distinct identifiers |
| `Selections.KeyInjective` | internal/core/retrieval.go:189-191 | a document key without NUL in its fields determines them all |
| `Selections.OrderOfDocumentsIrrelevant` | internal/core/retrieval.go:91-188 | permuting the documents changes nothing in the answer |
| `Selections.ChunksWithinBudget` | internal/core/sandbox.go:72-101 | an exported workspace and eight resources of 256 KiB give at most 11558 chunks |
| `Selections.RetrieveSources` | internal/core/retrieval.go:40-77 | filters the documents, answers as the ranking does, and never fails for too many chunks |
| `Workspaces.SnapshotWorkspace` | internal/core/sandbox.go:62-107 | succeeds if and only if no visible entry breaks a limit by its reported size or by its content, and then exports exactly the visible files; a steady directory is refused only if its files break a limit |
| `Workspaces.VisiblesExact` | internal/core/sandbox.go:76-79 | exactly the regular files that are not hidden are exported, with their content |
| `Workspaces.ExportRefused` | internal/core/sandbox.go:72-101 | what keeps a directory from being exported, and how much an export may hold |
| `ArchiveFormat.AllowedNamesStayInside` | internal/core/backup.go:67-95 | an allowed name has at most two components, none empty, hidden or `..`, so staged files stay inside |
| `ArchiveFormat.NamesExact` | internal/core/backup.go:67-95 | the allowed names are exactly the four files, plain workspace files, and artifacts named by a digest |
| `ArchiveFormat.ExactInventory` | internal/core/backup.go:326-336 | an inventory of the right length with distinct, matching paths lists exactly the files that are there |
| `Unpacking.ReadMembers` | internal/core/backup.go:237-300 | the reading loop accepts exactly the orderly member lists |
| `Unpacking.CheckInventory` | internal/core/backup.go:326-336 | the comparison succeeds exactly if every file is listed once with its size and digest |
| `Unpacking.Unpack` | internal/core/backup.go:222-372 | succeeds if and only if the archive is acceptable, with its state, report and files |
| `Unpacking.VerifyBackup` | internal/core/backup.go:374-382 | the same for verification |
| `Unpacking.AcceptedExactly` | internal/core/backup.go:237-370 | accepted names are distinct and precisely the inventory's, with true sizes and digests |
| `Unpacking.NothingExtra` | internal/core/backup.go:326-370 | an accepted archive holds the state, the one executable that the state names, workspace files and the referenced artifacts, and its inventory is of this mission and format |
| `Unpacking.AcceptedBounded` | internal/core/backup.go:237-321 | its exact limits of size, count, workspace and members, and nothing but zeros after its end |
| `Unpacking.ReceiptBinds` | internal/core/backup.go:322-325 | a receipt admits one archive: two accepted under the same digest are equal |
| `Unpacking.InventoryBinds` | internal/core/backup.go:326-336 | an inventory admits one content: two accepted archives with the same list hold the same files |
| `Unpacking.ReportMeaning` | internal/core/backup.go:371 | the report states the digest, the mission's identity and progress, the number of listed files, their bytes and the moment of the backup |
| `Codecs.LosslessCodec` | internal/core/backup.go:118-217 | codecs that lose nothing exist: packing with lengths, marshalling with counts, and their inverses |
| `Backups.Writer.Add` | internal/core/backup.go:139-154 | takes a member exactly within its limits, a new file exactly if the archive may hold it beside the others, and tallies everything but the inventory |
| `Backups.AddWorkspace` | internal/core/backup.go:161-173 | succeeds if and only if one archive may hold all exported files behind the others, and then adds them in order |
| `Backups.AddArtifacts` | internal/core/backup.go:174-193 | succeeds if and only if every artifact is there, intact, and one archive may hold them, and then adds each name once and nothing else |
| `Backups.MembersAre` | internal/core/backup.go:174-193 | the artifact files of an archive are exactly those of the artifacts that the state refers to |
| `Backups.SealedAcceptable` | internal/core/backup.go:194-217 | the writer's limits imply all of the reader's |
| `Backups.Backup` | internal/core/backup.go:99-218 | publishes if and only if the state decodes, its executable is there and unchanged, the workspace can be exported, every artifact is intact and everything fits; what is published is acceptable under the receipt's digest, with the saved state, an equal report and the very bytes of state, executable, workspace and artifacts |
| `Restores.RestoreBackup` | internal/core/backup.go:383-489 | a kill at any step leaves no snapshot or the fenced one with everything it needs, which is the saved one in every other field; nothing existing is touched |
| `Restores.BackupThenRestore` | internal/core/backup.go:99-489 | the round trip: whatever can be backed up restores under its receipt to the original, fenced and otherwise equal in every field, with the same artifacts, workspace files and executable, which lies where the restored mission looks for it |
| `Restores.RestoredLoads` | internal/core/backup.go:409-427 | any loadable snapshot stays loadable through restore |
| `Restores.RestoredComplete` | internal/core/backup.go:409-489 | with a decoder that validates, the restored directory holds a loadable mission, its artifacts, and its executable where the mission looks for it |
| `Restores.LocatedBelow` | internal/core/backup.go:413-414 | the restored paths lie directly below the destination |
| `Restores.ArchiveIsReferenced` | internal/core/backup.go:174-193 | the files of an unpacked archive are the mission's own, restricted to what it refers to |

## Left out

- HTTP, TLS, tokens, time limits, redirects, MCP sessions, Docker, Python and WASI processes: an executor returns any bytes or fails, and an answer of the destination is any reply class.
- Authentication (401) at the destination; its other answers are modelled.
- JSON, TAR and hexadecimal formats, file permissions, temporary files and links as such: parameters and abstract steps.
- The indentation of `memory` in the snapshot file, and that marshalling replaces bytes that are not UTF-8 in it.
- `CreatedAt`, `UpdatedAt`, `LastError` and several clock readings within one section: one reading per section, none stored in an intent.
- Syntax of endpoints, resource URIs and base URLs, and of paths beyond being absolute.
- Power loss and reordering of directory operations: a kill and a save that failed with either outcome are modelled.
- The `attest` command, the manifest checks of `Inspect` and the content of `Doctor`: the verdict of `Doctor` is a parameter.
- Wrap-around of the 64-bit epoch, and of execution timeouts, which are of the same form as intervals: an executor may fail at any moment.
- The cancellation of a job's context by a command: a cancelled executor or request is one that fails, at any moment.
- Output I/O errors of `Backup`: it then publishes nothing. The order in which a directory is listed is the order of the archive.
- TAR framing: at most 4 KiB of headers and padding a member is assumed in `Lossless`, for names of at most 1 KiB and contents within the limits of their names.
- Missions.CheckState: the syntax of the write endpoint, of the model's base URL and of resource URIs is not checked in the model.
- `validateAnalysis`, `Simulate`, snapshots for the API, the command line and the HTTP control surface: easy or foreign.
- Floating-point rounding in scores, Unicode case folding and letter classes: scores are real numbers and the tokenizer is a parameter.
- Selections.RankSources: requires valid UTF-8 texts, as both of its callers check; on other texts the inner loop of the source can run below zero.
- Theorems.RejectedNeverSent: speaks of one instance; for several, `Theorems.EffectsElsewhere` and `Copies.RejectedButWritten` say what is true instead.
- The initial sort of the documents: `Selections.OrderOfDocumentsIrrelevant` shows that their order never matters. The sort of the query terms is a parameter.
- Capture times and the other descriptive fields of a selected source, and cancellation during retrieval.
- That an executor's result is a JSON object of at most 1 MiB.
