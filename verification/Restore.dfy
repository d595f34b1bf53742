/** internal/core/backup.go: `RestoreBackup`. The destination becomes loadable only with its last
    link, so a kill at any moment leaves nothing or a whole, fenced mission. */
module Restores {
  import opened Foundations
  import opened Kernel
  import opened Intents
  import opened Missions
  import opened Coherence
  import opened World
  import opened Safety
  import opened Workspaces
  import opened ArchiveFormat
  import opened Unpacking
  import opened Codecs
  import opened Backups

  /** A directory that may become a mission, at an absolute path: `state.json` apart from everything else. */
  class Directory {
    var path: string
    var taken: bool
    var files: map<Bytes, Bytes>
    var state: Option<State>
  }

  const WORKSPACE_FOLDER := "workspace"

  /** A name of the archive, all of which are plain, as a path below `directory`. */
  function Located(directory: string, name: string): string {
    directory + (if directory == "/" then "" else "/") + name
  }

  function Text(name: Bytes): string {
    seq(|name|, i requires 0 <= i < |name| => name[i] as char)
  }

  /** Where the executable lies in a restored directory. */
  function ScriptPath(directory: string, m: Manifest): string {
    Located(directory, Text(ExecutionName(m)))
  }

  /** The snapshot that a restore of `raw` publishes at `path`. */
  function Published(raw: Bytes, expected: Hash, path: string, now: int, codec: Codec): State
    requires Acceptable(raw, Some(expected), codec)
  {
    var s := StateOf(raw, Some(expected), codec);
    RestoredState(s, Digest(raw), ScriptPath(path, s.execution.value), Located(path, WORKSPACE_FOLDER), now)
  }

  /** Everything staged but the state. */
  function Dependencies(stage: map<Bytes, Bytes>): map<Bytes, Bytes> {
    stage - {STATE_JSON}
  }

  /** `RestoreBackup`; `reach` counts the publication steps that happen before a kill or an error, and
      `expected` is absent when the receipt's digest is not one. */
  method RestoreBackup(raw: Bytes, expected: Option<Hash>, dest: Directory, now: int, reach: nat, codec: Codec)
    returns (r: Option<Report>)
    modifies dest
    ensures dest.path == old(dest.path)
    // an existing destination and an unacceptable archive leave everything alone
    ensures old(dest.taken) || expected.None? || !Acceptable(raw, expected, codec) ==>
              r.None? && dest.taken == old(dest.taken) && dest.files == old(dest.files) && dest.state == old(dest.state)
    // otherwise, whatever the moment of a kill: no snapshot, or the fenced one with all that it needs
    ensures !old(dest.taken) && expected.Some? && Acceptable(raw, expected, codec) ==>
              dest.state == None
              || (dest.state == Some(Published(raw, expected.value, dest.path, now, codec))
                  && dest.files == Dependencies(Stage(codec.parse(raw).members)))
    // the fenced one is the one that was saved, but for the gate, activity, place and open authorizations
    ensures !old(dest.taken) && expected.Some? && Acceptable(raw, expected, codec) && dest.state.Some? ==>
              var s := StateOf(raw, expected, codec);
              RecoveredFrom(s, dest.state.value, Digest(raw), ScriptPath(dest.path, s.execution.value),
                            Located(dest.path, WORKSPACE_FOLDER), now)
    ensures r.Some? ==>
              !old(dest.taken) && Acceptable(raw, expected, codec) && r.value == ReportOf(raw, expected, codec)
                        && dest.state.Some?
    // and with nothing in its way it succeeds
    ensures !old(dest.taken) && expected.Some? && Acceptable(raw, expected, codec) ==>
              (reach >= |Dependencies(Stage(codec.parse(raw).members))| + 2 ==> r.Some?)
  {
    if expected.None? {
      return None;
    }
    if dest.taken {
      return None;
    }
    hide Acceptable, Stage, RestoredState;
    var unpacked, stage := Unpack(raw, expected, codec);
    if unpacked.None? {
      return None;
    }
    var (s, report) := unpacked.value;
    SameDigest(raw, expected.value, codec);
    var restored := RestoredState(s, report.sha256, ScriptPath(dest.path, s.execution.value),
                                  Located(dest.path, WORKSPACE_FOLDER), now);
    dest.taken, dest.files, dest.state := true, map[], None;
    var linked := Link(dest, Dependencies(stage), reach);
    if linked.None? {
      return None;
    }
    if linked.value == 0 {
      return None;
    }
    Placed(s, report.sha256, ScriptPath(dest.path, s.execution.value), Located(dest.path, WORKSPACE_FOLDER), now);
    hide RecoveredFrom;
    dest.state := Some(restored);
    return if linked.value == 1 then None else Some(report);
  }

  lemma SameDigest(raw: Bytes, expected: Hash, codec: Codec)
    requires Acceptable(raw, Some(expected), codec)
    ensures expected == Digest(raw) && ReportOf(raw, Some(expected), codec).sha256 == Digest(raw)
  {
  }

  /** Link every dependency, in any order; the result is what remains of `reach`, if anything does. */
  method Link(dest: Directory, files: map<Bytes, Bytes>, reach: nat) returns (left: Option<nat>)
    modifies dest`files
    requires dest.files == map[]
    ensures left.Some? ==> dest.files == files
    ensures if reach >= |files| then left == Some(reach - |files|) else left == None
  {
    var todo := files.Keys;
    var steps := reach;
    assert |todo| == |files|;
    while todo != {}
      invariant steps as int - |todo| == reach as int - |files|
      invariant Partway(dest.files, files, todo)
    {
      if steps == 0 {
        return None;
      }
      var name :| name in todo;
      LinkedNext(dest.files, files, todo, name);
      dest.files := dest.files[name := files[name]];
      todo := todo - {name};
      steps := steps - 1;
    }
    return Some(steps);
  }

  ghost predicate Partway(some: map<Bytes, Bytes>, files: map<Bytes, Bytes>, todo: set<Bytes>) {
    && (forall name :: name in todo ==> name in files)
    && (forall name :: name in some <==> name in files && name !in todo)
    && (forall name :: name in some ==> some[name] == files[name])
  }

  lemma LinkedNext(some: map<Bytes, Bytes>, files: map<Bytes, Bytes>, todo: set<Bytes>, name: Bytes)
    requires Partway(some, files, todo) && name in todo
    ensures name in files && Partway(some[name := files[name]], files, todo - {name})
    ensures |todo - {name}| == |todo| - 1
  {
  }

  /** The round trip: whatever can be backed up is restored, fenced but otherwise as it was, under the
      receipt that the backup gave, with the very artifacts and workspace files, and the executable
      where the restored mission looks for it. */
  method BackupThenRestore(state: Option<Bytes>, executable: Option<Bytes>, workspace: seq<DirEntry>,
                           store: map<Bytes, Bytes>,
                           dest: Directory, now: int, codec: Codec)
    returns (backed: Option<Report>, restored: Option<Report>)
    requires Lossless(codec) && RealDirectory(workspace) && !dest.taken
    modifies dest
    ensures restored == backed && (backed.Some? <==> Savable(state, executable, workspace, store, now, codec))
    ensures backed.Some? ==>
              var s := codec.decode(state.value).value;
              && dest.state == Some(RestoredState(s, backed.value.sha256, ScriptPath(dest.path, s.execution.value),
                                                  Located(dest.path, WORKSPACE_FOLDER), now))
              && RecoveredFrom(s, dest.state.value, backed.value.sha256, ScriptPath(dest.path, s.execution.value),
                               Located(dest.path, WORKSPACE_FOLDER), now)
              && (forall a <- s.artifacts :: var name := ArtifactName(codec, a.hash);
                    name in store && name in dest.files && dest.files[name] == store[name])
              && (forall f <- Visibles(workspace) ::
                    WORKSPACE_DIR + f.name in dest.files && dest.files[WORKSPACE_DIR + f.name] == f.data)
              && ExecutionName(s.execution.value) in dest.files
              && dest.files[ExecutionName(s.execution.value)] == executable.value
              && dest.state.value.protocol.script == Located(dest.path, Text(ExecutionName(s.execution.value)))
              && dest.state.value.protocol.workspace == Located(dest.path, WORKSPACE_FOLDER)
  {
    hide Acceptable, Stage, RestoredState, RealDirectory, Lossless, Under, Visibles, STATE_JSON, Savable;
    restored := None;
    var b := Backup(state, executable, workspace, store, now, codec);
    if b.None? {
      return None, None;
    }
    var (raw, report) := b.value;
    var files := |Dependencies(Stage(codec.parse(raw).members))|;
    SameDigest(raw, report.sha256, codec);
    NotTheState(codec);
    restored := RestoreBackup(raw, Some(report.sha256), dest, now, files + 2, codec);
    assert restored == Some(report);
    assert dest.state == Some(Published(raw, report.sha256, dest.path, now, codec));
    assert dest.files == Dependencies(Stage(codec.parse(raw).members));
    var s := StateOf(raw, Some(report.sha256), codec);
    Placed(s, report.sha256, ScriptPath(dest.path, s.execution.value), Located(dest.path, WORKSPACE_FOLDER), now);
    backed := Some(report);
  }

  lemma Placed(s: State, backup: Hash, script: string, workspace: string, now: int)
    ensures var t := RestoredState(s, backup, script, workspace, now);
            && RecoveredFrom(s, t, backup, script, workspace, now)
            && t.protocol.script == script && t.protocol.workspace == workspace
  {
  }

  lemma NotTheState(codec: Codec)
    ensures forall h :: ArtifactName(codec, h) != STATE_JSON
    ensures forall m :: ExecutionName(m) != STATE_JSON
    ensures forall f :: Within(WORKSPACE_DIR, f).name != STATE_JSON
  {
    NamesDiffer();
    forall f
      ensures Under(Within(WORKSPACE_DIR, f).name, WORKSPACE_DIR)
    {
    }
  }

  // ---------------------------------------------------------------- what is restored works

  /** Whatever loadable snapshot was backed up, its restored form loads. */
  lemma RestoredLoads(s: State, backup: Hash, script: string, workspace: string, now: int)
    requires Loadable(s) && AbsolutePath(script) && AbsolutePath(workspace)
    ensures Loadable(RestoredState(s, backup, script, workspace, now))
  {
    FencedValid(s.actions, s.agentId, s.writes);
    hide ValidActions, AbsolutePath, Blank, FenceAll;
  }

  lemma LocatedAbsolute(path: string, m: Manifest)
    requires AbsolutePath(path)
    ensures AbsolutePath(ScriptPath(path, m)) && AbsolutePath(Located(path, WORKSPACE_FOLDER))
  {
    assert forall i :: 0 <= i < |Text(MODULE_WASM)| ==> Text(MODULE_WASM)[i] == MODULE_WASM[i] as char;
    assert forall i :: 0 <= i < |Text(SCRIPT_PY)| ==> Text(SCRIPT_PY)[i] == SCRIPT_PY[i] as char;
  }

  /** A located path is that name directly below that directory. */
  lemma LocatedBelow(directory: string, name: string)
    requires directory != ""
    ensures var p := Located(directory, name);
            && directory <= p && |name| < |p| && p[|p| - |name|..] == name && p[|p| - |name| - 1] == '/'
            && |p| <= |directory| + 1 + |name|
  {
  }

  /** The restored mission loads, and finds every artifact and its executable under their names. */
  lemma RestoredComplete(raw: Bytes, expected: Hash, path: string, now: int, codec: Codec)
    requires Validating(codec) && Acceptable(raw, Some(expected), codec) && AbsolutePath(path)
    ensures var t := Published(raw, expected, path, now, codec);
            var files := Dependencies(Stage(codec.parse(raw).members));
            && Loadable(t)
            && (forall a <- t.artifacts :: var name := ArtifactName(codec, a.hash);
                  name in files && Digest(files[name]) == a.hash && |files[name]| == a.bytes)
            && t.execution.Some? && ExecutionName(t.execution.value) in files
            && Digest(files[ExecutionName(t.execution.value)]) == t.execution.value.script
            && t.protocol.script == ScriptPath(path, t.execution.value)
  {
    var s := StateOf(raw, Some(expected), codec);
    LocatedAbsolute(path, s.execution.value);
    NamesDiffer();
    forall h
      ensures Under(ArtifactName(codec, h), ARTIFACTS_DIR)
    {
    }
    assert Loadable(s);
    RestoredLoads(s, Digest(raw), ScriptPath(path, s.execution.value), Located(path, WORKSPACE_FOLDER), now);
    hide Loadable, Orderly, Lists, Stage, AbsolutePath, Validating, Under, ArtifactName, ScriptPath, Located;
  }

  // ---------------------------------------------------------------- the archives of the protocol

  /** The artifacts of an unpacked archive by digest, as a process addresses them. */
  ghost function ArtifactsOf(s: State, stage: map<Bytes, Bytes>, codec: Codec): map<Hash, Bytes>
    requires ArtifactsMatch(s, stage, codec)
  {
    map h | h in HashesOf(s) :: assert Referred(s, h); stage[ArtifactName(codec, h)]
  }

  function HashesOf(s: State): set<Hash> {
    set a <- s.artifacts :: a.hash
  }

  ghost predicate Referred(s: State, h: Hash) {
    exists a :: a in s.artifacts && a.hash == h
  }

  /** The backup step of the protocol is faithful: what comes out of an archive that carries the
      artifacts of a readable mission is the mission's own files, restricted to what it refers to. */
  lemma ArchiveIsReferenced(s: State, files: map<Hash, Bytes>, stage: map<Bytes, Bytes>, codec: Codec)
    requires Readable(s, files) && Addressed(files) && ArtifactsMatch(s, stage, codec)
    ensures ArtifactsOf(s, stage, codec) == Referenced(s, files)
  {
  }
}
