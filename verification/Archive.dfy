/** internal/core/backup.go: names and limits of an archive, what a valid archive is, and the
    validating reader. TAR, JSON and hexadecimal digests are abstract codecs. */
module ArchiveFormat {
  import opened Foundations
  import opened Kernel
  import opened Missions
  import opened Utf8
  import opened Workspaces

  const MAX_BACKUP := 256 * 1024 * 1024
  const MAX_ARCHIVE := 512 * 1024 * 1024
  const MAX_MEMBERS := 12004
  const KIB := 1024
  const MIB := 1024 * 1024

  const STATE_JSON: Bytes := [115, 116, 97, 116, 101, 46, 106, 115, 111, 110]
  const MODULE_WASM: Bytes := [109, 111, 100, 117, 108, 101, 46, 119, 97, 115, 109]
  const SCRIPT_PY: Bytes := [115, 99, 114, 105, 112, 116, 46, 112, 121]
  const MANIFEST_JSON: Bytes := [109, 97, 110, 105, 102, 101, 115, 116, 46, 106, 115, 111, 110]
  const WORKSPACE_DIR: Bytes := [119, 111, 114, 107, 115, 112, 97, 99, 101, 47]
  const ARTIFACTS_DIR: Bytes := [97, 114, 116, 105, 102, 97, 99, 116, 115, 47]
  const DOT_JSON: Bytes := [46, 106, 115, 111, 110]
  const SLASH: byte := 47
  const BACKSLASH: byte := 92

  // ---------------------------------------------------------------- names

  predicate LowerHexDigit(b: byte) {
    48 <= b <= 57 || 97 <= b <= 102
  }

  /** The one file name below the directory `dir`: not empty, not hidden, no further directory. */
  predicate Below(name: Bytes, dir: Bytes) {
    && |dir| < |name| && dir == name[..|dir|]
    && name[|dir|] != DOT && SLASH !in name[|dir|..]
  }

  /** `<64 lower-case hexadecimal digits>.json` */
  predicate DigestFile(base: Bytes) {
    && |base| == 69 && base[64..] == DOT_JSON
    && forall b <- base[..64] :: LowerHexDigit(b)
  }

  /** Greatest size of a member, 0 for a name that is not allowed. */
  function BackupLimit(name: Bytes): nat {
    if name == STATE_JSON then 32 * MIB
    else if name == MODULE_WASM then 16 * MIB
    else if name == SCRIPT_PY then 64 * KIB
    else if name == MANIFEST_JSON then 4 * MIB
    else if !Valid(name) || BACKSLASH in name || 0 in name then 0
    else if Below(name, WORKSPACE_DIR) then 4 * MIB
    else if Below(name, ARTIFACTS_DIR) && DigestFile(name[|ARTIFACTS_DIR|..]) then 1 * MIB
    else 0
  }

  /** Every component is there and not hidden, so none is `..`, and there are at most two. */
  predicate StaysInside(name: Bytes) {
    && name != [] && name[|name| - 1] != SLASH
    && (forall i :: 0 <= i < |name| && (i == 0 || name[i - 1] == SLASH) ==> name[i] != DOT && name[i] != SLASH)
    && (forall i, j :: 0 <= i < j < |name| && name[i] == SLASH ==> name[j] != SLASH)
  }

  lemma BelowStaysInside(name: Bytes, dir: Bytes)
    requires Below(name, dir) && |dir| > 1 && dir[|dir| - 1] == SLASH && dir[0] != DOT
    requires forall i :: 0 <= i < |dir| - 1 ==> dir[i] != SLASH
    ensures StaysInside(name)
  {
    assert forall i :: 0 <= i < |dir| ==> name[i] == dir[i];
    forall i | |dir| <= i < |name|
      ensures name[i] != SLASH
    {
      assert name[|dir|..][i - |dir|] == name[i];
    }
  }

  lemma PlainStaysInside(name: Bytes)
    requires name != [] && name[0] != DOT && forall i :: 0 <= i < |name| ==> name[i] != SLASH
    ensures StaysInside(name)
  {
  }

  /** Files under allowed names stay inside the directory that they are staged in. */
  lemma AllowedNamesStayInside(name: Bytes)
    requires 0 < BackupLimit(name)
    ensures StaysInside(name)
  {
    hide Valid, StaysInside, Below, DigestFile;
    if name == STATE_JSON || name == MODULE_WASM || name == SCRIPT_PY || name == MANIFEST_JSON {
      PlainStaysInside(name);
    } else if Below(name, WORKSPACE_DIR) {
      BelowStaysInside(name, WORKSPACE_DIR);
    } else {
      BelowStaysInside(name, ARTIFACTS_DIR);
    }
  }

  predicate Under(name: Bytes, dir: Bytes) {
    |dir| <= |name| && name[..|dir|] == dir
  }

  /** `executionBackupName` */
  function ExecutionName(m: Manifest): Bytes {
    if m.runtime == "wasi" then MODULE_WASM else SCRIPT_PY
  }

  // ---------------------------------------------------------------- codecs

  /** A line of the inventory: digests are text there. */
  datatype BackupEntry = BackupEntry(path: Bytes, bytes: int, sha256: Bytes)

  datatype Format = V1 | V2 | OtherFormat(text: string)

  datatype Inventory = Inventory(format: Format, agentId: string, createdAt: int, files: seq<BackupEntry>)

  datatype Report = Report(sha256: Hash, agentId: string, status: Status, completed: int, files: nat, bytes: nat,
                           createdAt: int)

  /** A TAR member as its header declares it and as far as it can be read. */
  datatype Member = Member(name: Bytes, regular: bool, size: int, data: Bytes)

  /** A parsed archive: `clean` if it ends with the end marker, and what follows the marker. */
  datatype Tar = Tar(members: seq<Member>, clean: bool, after: Bytes)

  /** TAR, JSON for inventory and state (`decodeState`), hexadecimal spelling of a digest. */
  datatype Codec = Codec(pack: seq<File> -> Bytes, parse: Bytes -> Tar, marshal: Inventory -> Bytes,
                         unmarshal: Bytes -> Option<Inventory>, decode: Bytes -> Option<State>, spell: Hash -> Bytes)

  /** Sixty-four lower-case hexadecimal digits. */
  predicate HexDigest(text: Bytes) {
    |text| == 64 && forall b <- text :: LowerHexDigit(b)
  }

  function ArtifactName(codec: Codec, h: Hash): Bytes {
    ARTIFACTS_DIR + (codec.spell(h) + DOT_JSON)
  }

  predicate AllZero(b: Bytes) {
    forall x <- b :: x == 0
  }

  // ---------------------------------------------------------------- amounts

  /** What the limits of an archive count. */
  datatype Amount = Payload | Metadata | WorkspaceFiles | WorkspaceBytes

  function AmountOf(m: Member, what: Amount): nat {
    match what
    case Payload => if m.name == MANIFEST_JSON then 0 else |m.data|
    case Metadata => if m.name == MANIFEST_JSON then |m.data| else 0
    case WorkspaceFiles => if Under(m.name, WORKSPACE_DIR) then 1 else 0
    case WorkspaceBytes => if Under(m.name, WORKSPACE_DIR) then |m.data| else 0
  }

  function Total(members: seq<Member>, what: Amount): nat {
    if members == [] then 0 else Total(members[..|members| - 1], what) + AmountOf(members[|members| - 1], what)
  }

  lemma {:induction false} TotalPrefix(members: seq<Member>, k: nat, what: Amount)
    requires k <= |members|
    ensures Total(members[..k], what) <= Total(members, what)
    decreases |members|
  {
    if k < |members| {
      assert members[..|members| - 1][..k] == members[..k];
      TotalPrefix(members[..|members| - 1], k, what);
    } else {
      assert members[..k] == members;
    }
  }

  // ---------------------------------------------------------------- valid archives

  /** A regular file under an allowed name, completely present and within its limit. */
  predicate SafeMember(m: Member) {
    m.regular && 0 < BackupLimit(m.name) && 0 <= m.size <= BackupLimit(m.name) && |m.data| == m.size
  }

  predicate Distinct(members: seq<Member>) {
    forall i, j :: 0 <= i < j < |members| ==> members[i].name != members[j].name
  }

  ghost predicate Orderly(members: seq<Member>, codec: Codec) {
    && |members| <= MAX_MEMBERS
    && (forall m <- members :: SafeMember(m))
    && Distinct(members)
    && (forall m <- members :: m.name == MANIFEST_JSON ==> codec.unmarshal(m.data).Some?)
    && Total(members, Payload) <= MAX_BACKUP
    && Total(members, WorkspaceFiles) <= MAX_ENTRIES && Total(members, WorkspaceBytes) <= MAX_WORKSPACE
  }

  /** The files that an archive unpacks to, by name; the inventory is not one of them. */
  function Stage(members: seq<Member>): map<Bytes, Bytes> {
    if members == [] then map[]
    else
      var m := members[|members| - 1];
      var rest := Stage(members[..|members| - 1]);
      if m.name == MANIFEST_JSON then rest else rest[m.name := m.data]
  }

  function InventoryOf(members: seq<Member>, codec: Codec): Option<Inventory> {
    if members == [] then None
    else
      var m := members[|members| - 1];
      if m.name == MANIFEST_JSON then codec.unmarshal(m.data) else InventoryOf(members[..|members| - 1], codec)
  }

  function EntryFor(codec: Codec, name: Bytes, data: Bytes): BackupEntry {
    BackupEntry(name, |data|, codec.spell(Digest(data)))
  }

  /** Every staged file listed exactly once, with its size and digest, and nothing else listed. */
  ghost predicate Lists(files: seq<BackupEntry>, stage: map<Bytes, Bytes>, codec: Codec) {
    && |files| == |stage|
    && (forall f <- files :: f.path in stage && f == EntryFor(codec, f.path, stage[f.path]))
    && forall i, j :: 0 <= i < j < |files| ==> files[i].path != files[j].path
  }

  /** Every artifact that the state refers to is there, and every artifact there is referred to. */
  ghost predicate ArtifactsMatch(s: State, stage: map<Bytes, Bytes>, codec: Codec) {
    && (forall a <- s.artifacts :: var name := ArtifactName(codec, a.hash);
          name in stage && Digest(stage[name]) == a.hash && |stage[name]| == a.bytes)
    && (forall name <- stage :: Under(name, ARTIFACTS_DIR) ==>
          exists a :: a in s.artifacts && name == ArtifactName(codec, a.hash))
  }

  /** Exactly one executable, the one that the state names. */
  ghost predicate ExecutableMatches(m: Manifest, stage: map<Bytes, Bytes>) {
    && ExecutionName(m) in stage && Digest(stage[ExecutionName(m)]) == m.script
    && (forall name <- stage :: name == SCRIPT_PY || name == MODULE_WASM ==> name == ExecutionName(m))
  }

  ghost predicate Describes(inventory: Inventory, stage: map<Bytes, Bytes>, codec: Codec) {
    && !inventory.format.OtherFormat?
    && Lists(inventory.files, stage, codec)
    && STATE_JSON in stage
    && match codec.decode(stage[STATE_JSON])
       case None => false
       case Some(s) =>
         && s.agentId == inventory.agentId && s.execution.Some?
         && (s.execution.value.runtime == "wasi" <==> inventory.format == V2)
         && ExecutableMatches(s.execution.value, stage)
         && ArtifactsMatch(s, stage, codec)
  }

  /** The archives that may be restored. */
  ghost predicate Acceptable(raw: Bytes, expected: Option<Hash>, codec: Codec) {
    var tar := codec.parse(raw);
    && |raw| <= MAX_ARCHIVE && tar.clean && AllZero(tar.after)
    && (expected.Some? ==> expected.value == Digest(raw))
    && Orderly(tar.members, codec)
    && Total(tar.members, Payload) + Total(tar.members, Metadata) <= MAX_BACKUP
    && InventoryOf(tar.members, codec).Some?
    && Describes(InventoryOf(tar.members, codec).value, Stage(tar.members), codec)
  }

  function StateOf(raw: Bytes, expected: Option<Hash>, codec: Codec): State
    requires Acceptable(raw, expected, codec)
  {
    codec.decode(Stage(codec.parse(raw).members)[STATE_JSON]).value
  }

  function ReportOf(raw: Bytes, expected: Option<Hash>, codec: Codec): Report
    requires Acceptable(raw, expected, codec)
  {
    var members := codec.parse(raw).members;
    var s := StateOf(raw, expected, codec);
    Report(Digest(raw), s.agentId, s.status, s.completed, |Stage(members)|, Total(members, Payload),
           InventoryOf(members, codec).value.createdAt)
  }

  /** The inventory of an acceptable archive is exact: listed and staged names are the same set. */
  lemma ExactInventory(files: seq<BackupEntry>, stage: map<Bytes, Bytes>, codec: Codec)
    requires Lists(files, stage, codec)
    ensures (set f <- files :: f.path) == stage.Keys
    ensures forall f <- files :: f.bytes == |stage[f.path]| && f.sha256 == codec.spell(Digest(stage[f.path]))
  {
    var listed := set f <- files :: f.path;
    PathsCounted(files);
    assert listed <= stage.Keys;
    if listed != stage.Keys {
      SmallerSet(listed, stage.Keys);
    }
  }

  lemma SmallerSet<T>(a: set<T>, b: set<T>)
    requires a < b
    ensures |a| < |b|
  {
    var x :| x in b && x !in a;
    assert a + (b - a) == b;
    assert x in b - a && |b - a| > 0;
  }

  lemma {:induction false} PathsCounted(files: seq<BackupEntry>)
    requires forall i, j :: 0 <= i < j < |files| ==> files[i].path != files[j].path
    ensures |set f <- files :: f.path| == |files|
    decreases |files|
  {
    if files != [] {
      var front, last := files[..|files| - 1], files[|files| - 1];
      PathsCounted(front);
      assert (set f <- files :: f.path) == (set f <- front :: f.path) + {last.path};
    }
  }

  /** Not empty, not hidden, and without a directory. */
  predicate PlainName(base: Bytes) {
    base != [] && base[0] != 46 && 47 !in base
  }

  predicate IsIn(name: Bytes, dir: Bytes, base: Bytes) {
    name == dir + base && PlainName(base)
  }

  lemma BelowMeans(name: Bytes, dir: Bytes)
    ensures Below(name, dir) ==> IsIn(name, dir, name[|dir|..])
    ensures forall base :: IsIn(name, dir, base) ==> Below(name, dir) && name[|dir|..] == base
  {
    forall base | IsIn(name, dir, base)
      ensures Below(name, dir) && name[|dir|..] == base
    {
      assert name[..|dir|] == dir && name[|dir|] == base[0];
    }
  }

  /** The names that are allowed: the four files, a plain file of the workspace, and an artifact by its
      digest. */
  lemma NamesExact(name: Bytes)
    ensures 0 < BackupLimit(name) <==>
              || name == STATE_JSON || name == MODULE_WASM || name == SCRIPT_PY || name == MANIFEST_JSON
              || (&& Valid(name) && BACKSLASH !in name && 0 !in name
                  && exists base ::
                       || IsIn(name, WORKSPACE_DIR, base)
                       || (IsIn(name, ARTIFACTS_DIR, base) && DigestFile(base)))
  {
    BelowMeans(name, WORKSPACE_DIR);
    BelowMeans(name, ARTIFACTS_DIR);
    hide Valid, IsIn, Below, DigestFile, WORKSPACE_DIR, ARTIFACTS_DIR, STATE_JSON, MODULE_WASM, SCRIPT_PY,
         MANIFEST_JSON;
  }
}
