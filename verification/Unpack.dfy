/** internal/core/backup.go: `unpack`, the validating reader. It accepts exactly the acceptable archives. */
module Unpacking {
  import opened Foundations
  import opened Kernel
  import opened Missions
  import opened Utf8
  import opened Workspaces
  import opened ArchiveFormat

  // ---------------------------------------------------------------- one member at a time

  ghost predicate HasMember(members: seq<Member>, name: Bytes) {
    exists m :: m in members && m.name == name
  }

  /** What the reader checks of the next member. */
  ghost predicate Admits(members: seq<Member>, m: Member, codec: Codec) {
    && |members| < MAX_MEMBERS && SafeMember(m) && !HasMember(members, m.name)
    && (m.name == MANIFEST_JSON ==> codec.unmarshal(m.data).Some?)
    && Total(members, Payload) + AmountOf(m, Payload) <= MAX_BACKUP
    && Total(members, WorkspaceFiles) + AmountOf(m, WorkspaceFiles) <= MAX_ENTRIES
    && Total(members, WorkspaceBytes) + AmountOf(m, WorkspaceBytes) <= MAX_WORKSPACE
  }

  lemma OrderlyNext(members: seq<Member>, i: nat, codec: Codec)
    requires i < |members| && Orderly(members[..i], codec)
    ensures Orderly(members[..i + 1], codec) <==> Admits(members[..i], members[i], codec)
    ensures forall what :: Total(members[..i + 1], what) == Total(members[..i], what) + AmountOf(members[i], what)
  {
    hide SafeMember, AmountOf;
    var front, more := members[..i], members[..i + 1];
    assert more == front + [members[i]] && more[..i] == front;
    assert members[i] in more;
    if HasMember(front, members[i].name) {
      var m :| m in front && m.name == members[i].name;
      var k :| 0 <= k < i && front[k] == m;
      assert more[k].name == more[i].name;
    }
    hide Total;
  }

  lemma OrderlyPrefix(members: seq<Member>, i: nat, codec: Codec)
    requires i <= |members| && Orderly(members, codec)
    ensures Orderly(members[..i], codec)
  {
    hide SafeMember, Total;
    TotalPrefix(members, i, Payload);
    TotalPrefix(members, i, WorkspaceFiles);
    TotalPrefix(members, i, WorkspaceBytes);
  }

  lemma {:induction false} StageNames(members: seq<Member>, codec: Codec)
    requires forall m <- members :: m.name == MANIFEST_JSON ==> codec.unmarshal(m.data).Some?
    ensures forall name :: name in Stage(members) <==> name != MANIFEST_JSON && HasMember(members, name)
    ensures InventoryOf(members, codec).Some? <==> HasMember(members, MANIFEST_JSON)
    ensures InventoryOf(members, codec).None? ==> Total(members, Metadata) == 0
    decreases |members|
  {
    if members != [] {
      var front, m := members[..|members| - 1], members[|members| - 1];
      StageNames(front, codec);
      forall name
        ensures HasMember(members, name) <==> HasMember(front, name) || name == m.name
      {
      }
      hide HasMember;
    }
  }

  lemma StageNext(members: seq<Member>, i: nat)
    requires i < |members|
    ensures Stage(members[..i + 1])
         == if members[i].name == MANIFEST_JSON then Stage(members[..i])
           else Stage(members[..i])[members[i].name := members[i].data]
  {
    assert members[..i + 1][..i] == members[..i];
  }

  lemma InventoryNext(members: seq<Member>, i: nat, codec: Codec)
    requires i < |members|
    ensures InventoryOf(members[..i + 1], codec)
         == if members[i].name == MANIFEST_JSON then codec.unmarshal(members[i].data)
           else InventoryOf(members[..i], codec)
  {
    assert members[..i + 1][..i] == members[..i];
  }

  /** What the reader notes of a staged file. */
  datatype Note = Note(bytes: nat, hash: Hash)

  /** `actual` records the size and digest of every staged file. */
  ghost predicate Records(actual: map<Bytes, Note>, stage: map<Bytes, Bytes>) {
    actual.Keys == stage.Keys && forall name :: name in stage ==>
        actual[name] == Note(|stage[name]|, Digest(stage[name]))
  }

  /** What the reader has accumulated. */
  datatype Reading = Reading(stage: map<Bytes, Bytes>, actual: map<Bytes, Note>, inventory: Option<Inventory>,
                             metadata: nat, total: nat, workspaceFiles: nat, workspaceBytes: nat)

  ghost predicate Tracks(g: Reading, members: seq<Member>, codec: Codec) {
    && g.stage == Stage(members) && Records(g.actual, g.stage) && g.inventory == InventoryOf(members, codec)
    && g.metadata == Total(members, Metadata) && g.total == Total(members, Payload)
    && g.workspaceFiles == Total(members, WorkspaceFiles) && g.workspaceBytes == Total(members, WorkspaceBytes)
  }

  predicate FixedName(name: Bytes) {
    name == STATE_JSON || name == SCRIPT_PY || name == MODULE_WASM || name == MANIFEST_JSON
  }

  /** The fixed names lie in neither directory, and no name lies in both. */
  lemma NamesDiffer()
    ensures forall name :: FixedName(name) ==> !Under(name, WORKSPACE_DIR) && !Under(name, ARTIFACTS_DIR)
    ensures forall name :: !(Under(name, WORKSPACE_DIR) && Under(name, ARTIFACTS_DIR))
    ensures |STATE_JSON| == 10 && |SCRIPT_PY| == 9 && |MODULE_WASM| == 11 && |MANIFEST_JSON| == 13
  {
    assert STATE_JSON[0] == 115 && SCRIPT_PY[0] == 115 && MODULE_WASM[0] == 109 && MANIFEST_JSON[0] == 109;
    assert WORKSPACE_DIR[0] == 119 && ARTIFACTS_DIR[0] == 97;
    forall name, dir | Under(name, dir) && dir != []
      ensures name[0] == dir[0]
    {
      assert name[..|dir|][0] == name[0];
    }
  }

  lemma TotalNext(members: seq<Member>, m: Member)
    ensures forall what :: Total(members + [m], what) == Total(members, what) + AmountOf(m, what)
    ensures (members + [m])[..|members|] == members && (members + [m])[..|members| + 1] == members + [m]
  {
  }

  /** A member that is a file: the limits on payload and workspace, then it is staged and recorded. */
  method ReadFile(g: Reading, m: Member, ghost members: seq<Member>, codec: Codec) returns (r: Option<Reading>)
    requires Tracks(g, members, codec) && m.name != MANIFEST_JSON
    requires Total(members, WorkspaceFiles) <= MAX_ENTRIES && Total(members, WorkspaceBytes) <= MAX_WORKSPACE
    ensures r.Some? <==>
              && Total(members, Payload) + AmountOf(m, Payload) <= MAX_BACKUP
              && Total(members, WorkspaceFiles) + AmountOf(m, WorkspaceFiles) <= MAX_ENTRIES
              && Total(members, WorkspaceBytes) + AmountOf(m, WorkspaceBytes) <= MAX_WORKSPACE
    ensures r.Some? ==> Tracks(r.value, members + [m], codec)
  {
    StageNext(members + [m], |members|);
    InventoryNext(members + [m], |members|, codec);
    TotalNext(members, m);
    hide Stage, InventoryOf, Total, Under, MANIFEST_JSON, WORKSPACE_DIR;
    var total := g.total + |m.data|;
    if total > MAX_BACKUP {
      return None;
    }
    var files, bytes := g.workspaceFiles, g.workspaceBytes;
    if Under(m.name, WORKSPACE_DIR) {
      files := files + 1;
      bytes := bytes + |m.data|;
      if files > MAX_ENTRIES || bytes > MAX_WORKSPACE {
        return None;
      }
    }
    return Some(g.(stage := g.stage[m.name := m.data], actual := g.actual[m.name := Note(|m.data|, Digest(m.data))],
                   total := total, workspaceFiles := files, workspaceBytes := bytes));
  }

  /** The inventory, once. */
  method ReadInventory(g: Reading, m: Member, ghost members: seq<Member>, codec: Codec) returns (r: Option<Reading>)
    requires Tracks(g, members, codec) && m.name == MANIFEST_JSON
    requires InventoryOf(members, codec).None? ==> Total(members, Metadata) == 0
    ensures r.Some? <==> InventoryOf(members, codec).None? && codec.unmarshal(m.data).Some?
    ensures r.Some? ==> Tracks(r.value, members + [m], codec)
  {
    StageNext(members + [m], |members|);
    InventoryNext(members + [m], |members|, codec);
    TotalNext(members, m);
    assert !Under(m.name, WORKSPACE_DIR) by {
      NamesDiffer();
    }
    hide Stage, InventoryOf, Total, Under, Records, MANIFEST_JSON, WORKSPACE_DIR;
    var inventory := codec.unmarshal(m.data);
    if g.inventory.Some? || inventory.None? {
      return None;
    }
    return Some(g.(inventory := inventory, metadata := |m.data|));
  }

  /** The body of the reading loop. */
  method ReadMember(g: Reading, m: Member, ghost members: seq<Member>, read: nat, codec: Codec)
    returns (r: Option<Reading>)
    requires Orderly(members, codec) && Tracks(g, members, codec) && read == |members|
    ensures r.Some? <==> Admits(members, m, codec)
    ensures r.Some? ==> Tracks(r.value, members + [m], codec)
  {
    StageNames(members, codec);
    NamesDiffer();
    hide Stage, InventoryOf, Total, Orderly, HasMember, BackupLimit, Under, MANIFEST_JSON, WORKSPACE_DIR;
    if read + 1 > MAX_MEMBERS {
      return None;
    }
    var limit := BackupLimit(m.name);
    if limit == 0 || m.size < 0 || m.size > limit || !m.regular {
      return None;
    }
    if m.name in g.actual {
      return None;
    }
    if |m.data| != m.size {
      return None;
    }
    if m.name == MANIFEST_JSON {
      r := ReadInventory(g, m, members, codec);
    } else {
      r := ReadFile(g, m, members, codec);
    }
  }

  // ---------------------------------------------------------------- the whole archive

  const NOTHING := Reading(map[], map[], None, 0, 0, 0, 0)

  /** The reading loop, up to the first member that is refused. */
  method ReadMembers(members: seq<Member>, codec: Codec) returns (r: Option<Reading>)
    ensures r.Some? <==> Orderly(members, codec)
    ensures r.Some? ==> Tracks(r.value, members, codec)
  {
    var g := NOTHING;
    assert Orderly(members[..0], codec) && Tracks(g, members[..0], codec);
    hide Orderly, Tracks, Admits;
    for i := 0 to |members|
      invariant Orderly(members[..i], codec) && Tracks(g, members[..i], codec)
    {
      OrderlyNext(members, i, codec);
      assert members[..i + 1] == members[..i] + [members[i]];
      var next := ReadMember(g, members[i], members[..i], i, codec);
      if next.None? {
        if Orderly(members, codec) {
          OrderlyPrefix(members, i + 1, codec);
        }
        return None;
      }
      g := next.value;
    }
    assert members[..|members|] == members;
    return Some(g);
  }

  /** The comparison of the inventory with what was read. */
  method CheckInventory(files: seq<BackupEntry>, actual: map<Bytes, Note>, ghost stage: map<Bytes, Bytes>, codec: Codec)
    returns (ok: bool)
    requires Records(actual, stage)
    ensures ok <==> Lists(files, stage, codec)
  {
    assert |actual.Keys| == |stage.Keys|;
    if |files| != |actual| {
      return false;
    }
    var listed: map<Bytes, bool> := map[];
    for i := 0 to |files|
      invariant forall p :: p in listed <==> exists k :: 0 <= k < i && files[k].path == p
      invariant forall k, l :: 0 <= k < l < i ==> files[k].path != files[l].path
      invariant forall k :: 0 <= k < i ==>
                  files[k].path in stage && files[k] == EntryFor(codec, files[k].path, stage[files[k].path])
    {
      var e := files[i];
      if e.path !in actual || e.path in listed
        || e != BackupEntry(e.path, actual[e.path].bytes, codec.spell(actual[e.path].hash)) {
        assert e in files;
        return false;
      }
      listed := listed[e.path := true];
    }
    return true;
  }

  /** The artifacts that the state refers to, and the names they go by. */
  method CheckArtifacts(s: State, actual: map<Bytes, Note>, ghost stage: map<Bytes, Bytes>, codec: Codec)
    returns (ok: bool, referenced: set<Bytes>)
    requires Records(actual, stage)
    ensures ok <==> forall a <- s.artifacts :: var name := ArtifactName(codec, a.hash);
                      name in stage && Digest(stage[name]) == a.hash && |stage[name]| == a.bytes
    ensures ok ==> referenced == set a <- s.artifacts :: ArtifactName(codec, a.hash)
  {
    hide ArtifactName;
    referenced := {};
    for i := 0 to |s.artifacts|
      invariant referenced == set a <- s.artifacts[..i] :: ArtifactName(codec, a.hash)
      invariant forall a <- s.artifacts[..i] :: var name := ArtifactName(codec, a.hash);
                  name in stage && Digest(stage[name]) == a.hash && |stage[name]| == a.bytes
    {
      var a := s.artifacts[i];
      assert s.artifacts[..i + 1] == s.artifacts[..i] + [a];
      var name := ArtifactName(codec, a.hash);
      if name !in actual || actual[name].hash != a.hash || actual[name].bytes != a.bytes {
        assert a in s.artifacts;
        return false, {};
      }
      referenced := referenced + {name};
    }
    assert s.artifacts[..|s.artifacts|] == s.artifacts;
    ok := true;
  }

  /** Not another executable, and not an artifact that the state does not refer to. */
  predicate Welcome(name: Bytes, executable: Bytes, referenced: set<Bytes>) {
    && (name == SCRIPT_PY || name == MODULE_WASM ==> name == executable)
    && (Under(name, ARTIFACTS_DIR) ==> name in referenced)
  }

  method CheckExtras(actual: map<Bytes, Note>, executable: Bytes, referenced: set<Bytes>) returns (ok: bool)
    ensures ok <==> forall name :: name in actual ==> Welcome(name, executable, referenced)
  {
    var left := actual.Keys;
    while left != {}
      invariant left <= actual.Keys
      invariant forall name :: name in actual && name !in left ==> Welcome(name, executable, referenced)
    {
      var name :| name in left;
      if (name == SCRIPT_PY || name == MODULE_WASM) && name != executable {
        assert !Welcome(name, executable, referenced);
        return false;
      }
      if Under(name, ARTIFACTS_DIR) && name !in referenced {
        assert !Welcome(name, executable, referenced);
        return false;
      }
      left := left - {name};
    }
    ok := true;
  }

  /** The checks of the inventory and of the state against the staged files. */
  method CheckContents(inventory: Inventory, g: Reading, codec: Codec) returns (s: Option<State>)
    requires Records(g.actual, g.stage)
    ensures s.Some? <==> Describes(inventory, g.stage, codec)
    ensures s.Some? ==> s == codec.decode(g.stage[STATE_JSON])
  {
    hide Lists, ArtifactName, MODULE_WASM, SCRIPT_PY;
    if inventory.format != V1 && inventory.format != V2 {
      return None;
    }
    var listed := CheckInventory(inventory.files, g.actual, g.stage, codec);
    if !listed || STATE_JSON !in g.stage {
      return None;
    }
    s := codec.decode(g.stage[STATE_JSON]);
    if s.None? {
      return None;
    }
    if s.value.agentId != inventory.agentId || s.value.execution.None? {
      return None;
    }
    var execution := s.value.execution.value;
    if (execution.runtime == "wasi") != (inventory.format == V2) {
      return None;
    }
    var executable := ExecutionName(execution);
    if executable !in g.actual || g.actual[executable].hash != execution.script {
      return None;
    }
    var ok, referenced := CheckArtifacts(s.value, g.actual, g.stage, codec);
    if !ok {
      return None;
    }
    ok := CheckExtras(g.actual, executable, referenced);
    ExtrasMean(s.value, executable, referenced, g.stage, codec);
    if !ok {
      return None;
    }
  }

  lemma ExtrasMean(s: State, executable: Bytes, referenced: set<Bytes>, stage: map<Bytes, Bytes>, codec: Codec)
    requires s.execution.Some? && executable == ExecutionName(s.execution.value)
    requires executable in stage && Digest(stage[executable]) == s.execution.value.script
    requires referenced == set a <- s.artifacts :: ArtifactName(codec, a.hash)
    requires forall a <- s.artifacts :: var name := ArtifactName(codec, a.hash);
               name in stage && Digest(stage[name]) == a.hash && |stage[name]| == a.bytes
    ensures (forall name :: name in stage ==> Welcome(name, executable, referenced))
       <==> ExecutableMatches(s.execution.value, stage) && ArtifactsMatch(s, stage, codec)
  {
  }

  lemma SameSize(actual: map<Bytes, Note>, stage: map<Bytes, Bytes>)
    requires Records(actual, stage)
    ensures |actual| == |stage|
  {
  }

  /** The zero bytes that may follow the end marker. */
  method CheckPadding(after: Bytes) returns (ok: bool)
    ensures ok <==> AllZero(after)
  {
    for i := 0 to |after|
      invariant forall k :: 0 <= k < i ==> after[k] == 0
    {
      if after[i] != 0 {
        assert after[i] in after;
        return false;
      }
    }
    return true;
  }

  /** `unpack`: succeeds exactly on the acceptable archives, with their state and report. The reader
      looks at one byte more than the limit of an archive and refuses if it is there. */
  method Unpack(raw: Bytes, expected: Option<Hash>, codec: Codec)
    returns (r: Option<(State, Report)>, stage: map<Bytes, Bytes>)
    ensures r.Some? <==> Acceptable(raw, expected, codec)
    ensures r.Some? ==> r.value == (StateOf(raw, expected, codec), ReportOf(raw, expected, codec))
    ensures r.Some? ==> stage == Stage(codec.parse(raw).members)
  {
    hide Orderly, Describes, Records, AllZero, Stage, InventoryOf, Total;
    var visible := if |raw| > MAX_ARCHIVE + 1 then raw[..MAX_ARCHIVE + 1] else raw;
    var tar := codec.parse(visible);
    var read := ReadMembers(tar.members, codec);
    if read.None? || !tar.clean {
      return None, map[];
    }
    var g := read.value;
    if g.total + g.metadata > MAX_BACKUP {
      return None, map[];
    }
    var zero := CheckPadding(tar.after);
    if !zero || |visible| == MAX_ARCHIVE + 1 {
      return None, map[];
    }
    if (expected.Some? && expected.value != Digest(visible)) || g.inventory.None? {
      return None, map[];
    }
    var s := CheckContents(g.inventory.value, g, codec);
    if s.None? {
      return None, map[];
    }
    SameSize(g.actual, g.stage);
    r := Some((s.value, Report(Digest(visible), s.value.agentId, s.value.status, s.value.completed, |g.actual|, g.total,
                               g.inventory.value.createdAt)));
    stage := g.stage;
  }

  /** `VerifyBackup` */
  method VerifyBackup(raw: Bytes, expected: Option<Hash>, codec: Codec) returns (r: Option<Report>)
    ensures r.Some? <==> Acceptable(raw, expected, codec)
    ensures r.Some? ==> r.value == ReportOf(raw, expected, codec)
  {
    hide Acceptable;
    var unpacked, _ := Unpack(raw, expected, codec);
    r := if unpacked.Some? then Some(unpacked.value.1) else None;
  }

  /** Only exact inventories pass: the members have distinct names, one of them is the inventory, and
      the inventory lists precisely the others, each once, with its true size and digest. */
  lemma AcceptedExactly(raw: Bytes, expected: Option<Hash>, codec: Codec)
    requires Acceptable(raw, expected, codec)
    ensures var members := codec.parse(raw).members;
            var files := InventoryOf(members, codec).value.files;
            && Distinct(members) && HasMember(members, MANIFEST_JSON)
            && (forall name ::
                  (exists f :: f in files && f.path == name) <==> name != MANIFEST_JSON && HasMember(members, name))
            && (forall i, j :: 0 <= i < j < |files| ==> files[i].path != files[j].path)
            && (forall f <- files :: f.path in Stage(members) && f == EntryFor(codec, f.path, Stage(members)[f.path]))
  {
    var members := codec.parse(raw).members;
    var files := InventoryOf(members, codec).value.files;
    StageNames(members, codec);
    ExactInventory(files, Stage(members), codec);
    hide Stage, HasMember, MANIFEST_JSON, ArtifactsMatch, ExecutableMatches, Distinct, InventoryOf, SafeMember;
    forall name
      ensures (exists f :: f in files && f.path == name) <==> name in Stage(members)
    {
      assert name in (set f <- files :: f.path) <==> name in Stage(members).Keys;
    }
  }

  /** What else an accepted archive holds: the state, the one executable that the state names, workspace
      files, and the artifacts that the state refers to; and its inventory is of this mission and format. */
  lemma NothingExtra(raw: Bytes, expected: Option<Hash>, codec: Codec)
    requires Acceptable(raw, expected, codec)
    ensures var members := codec.parse(raw).members;
            var s := StateOf(raw, expected, codec);
            var inventory := InventoryOf(members, codec).value;
            && inventory.agentId == s.agentId && s.execution.Some?
            && inventory.format == (if s.execution.value.runtime == "wasi" then V2 else V1)
            && forall name <- Stage(members) ::
                 || name == STATE_JSON || Under(name, WORKSPACE_DIR)
                 || (name == (if s.execution.value.runtime == "wasi" then MODULE_WASM else SCRIPT_PY)
                     && Digest(Stage(members)[name]) == s.execution.value.script)
                 || exists a :: a in s.artifacts && name == ArtifactName(codec, a.hash)
                                && Digest(Stage(members)[name]) == a.hash && |Stage(members)[name]| == a.bytes
  {
    var members := codec.parse(raw).members;
    var s := StateOf(raw, expected, codec);
    var stage := Stage(members);
    StageNames(members, codec);
    hide Stage, InventoryOf, Total, Lists, Distinct, Under, ArtifactName, STATE_JSON, SCRIPT_PY, MODULE_WASM, AllZero;
    forall name | name in stage
      ensures || name == STATE_JSON || Under(name, WORKSPACE_DIR) || name == SCRIPT_PY || name == MODULE_WASM
              || Under(name, ARTIFACTS_DIR)
    {
      var m :| m in members && m.name == name;
      AllowedPlaces(name);
    }
    hide Orderly, HasMember;
  }

  /** How large an accepted archive is: at most 512 MiB in all, with 256 MiB of contents in at most 12004
      members, all of them whole regular files; and at most 1000 workspace files of 16 MiB together. Nothing
      but zeros follows. */
  lemma AcceptedBounded(raw: Bytes, expected: Option<Hash>, codec: Codec)
    requires Acceptable(raw, expected, codec)
    ensures var tar := codec.parse(raw);
            && |raw| <= 512 * 0x100000 && |tar.members| <= 12004 && tar.clean && (forall b <- tar.after :: b == 0)
            && (forall m <- tar.members :: m.regular && |m.data| == m.size && |m.data| <= 32 * 0x100000)
            && Total(tar.members, Payload) + Total(tar.members, Metadata) <= 256 * 0x100000
            && Total(tar.members, WorkspaceFiles) <= 1000 && Total(tar.members, WorkspaceBytes) <= 16 * 0x100000
  {
    hide Describes, Total, Distinct, Valid, Below, DigestFile, STATE_JSON, MODULE_WASM, SCRIPT_PY, MANIFEST_JSON;
  }

  lemma AllowedPlaces(name: Bytes)
    requires 0 < BackupLimit(name)
    ensures || name == STATE_JSON || name == SCRIPT_PY || name == MODULE_WASM || name == MANIFEST_JSON
            || Under(name, WORKSPACE_DIR) || Under(name, ARTIFACTS_DIR)
  {
  }

  /** The receipt of a backup admits one archive: two that pass under the same digest are the same. */
  lemma ReceiptBinds(a: Bytes, b: Bytes, expected: Hash, codec: Codec)
    requires Acceptable(a, Some(expected), codec) && Acceptable(b, Some(expected), codec)
    ensures a == b
  {
    hide Orderly, Describes;
  }

  /** The inventory admits one content: two accepted archives with the same list hold the same files. */
  lemma InventoryBinds(a: Bytes, b: Bytes, expected: Option<Hash>, expected': Option<Hash>, codec: Codec)
    requires Acceptable(a, expected, codec) && Acceptable(b, expected', codec)
    requires forall x: Bytes, y: Bytes :: codec.spell(Digest(x)) == codec.spell(Digest(y)) ==> x == y
    requires InventoryOf(codec.parse(a).members, codec).value.files
             == InventoryOf(codec.parse(b).members, codec).value.files
    ensures Stage(codec.parse(a).members) == Stage(codec.parse(b).members)
  {
    var files := InventoryOf(codec.parse(a).members, codec).value.files;
    var s, t := Stage(codec.parse(a).members), Stage(codec.parse(b).members);
    assert Lists(files, s, codec) && Lists(files, t, codec);
    hide Stage, InventoryOf, Acceptable, Lists;
    ExactInventory(files, s, codec);
    ExactInventory(files, t, codec);
    assert s.Keys == t.Keys;
    forall name | name in s
      ensures s[name] == t[name]
    {
      assert name in (set f <- files :: f.path);
      var f :| f in files && f.path == name;
    }
  }

  /** The report speaks of the archive and of the mission in it. */
  lemma ReportMeaning(raw: Bytes, expected: Option<Hash>, codec: Codec)
    requires Acceptable(raw, expected, codec)
    ensures var report, s := ReportOf(raw, expected, codec), StateOf(raw, expected, codec);
            var inventory := InventoryOf(codec.parse(raw).members, codec).value;
            && report.sha256 == Digest(raw) && report.agentId == s.agentId == inventory.agentId
            && report.status == s.status && report.completed == s.completed && report.createdAt == inventory.createdAt
            && report.files == |inventory.files| && report.bytes == Total(codec.parse(raw).members, Payload)
  {
    hide Stage, InventoryOf, Total, ArtifactsMatch, ExecutableMatches, Distinct;
  }
}
