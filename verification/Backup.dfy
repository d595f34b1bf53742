/** internal/core/backup.go: `Backup`, the writer. Whatever it publishes, the reader accepts. */
module Backups {
  import opened Foundations
  import opened Kernel
  import opened Missions
  import opened Utf8
  import opened Workspaces
  import opened ArchiveFormat
  import opened Unpacking
  import opened Codecs

  // ---------------------------------------------------------------- the writer

  function Listing(files: seq<File>, codec: Codec): (listed: seq<BackupEntry>)
    ensures |listed| == |files| && forall i :: 0 <= i < |files| ==>
              listed[i] == EntryFor(codec, files[i].name, files[i].data)
  {
    seq(|files|, i requires 0 <= i < |files| => EntryFor(codec, files[i].name, files[i].data))
  }

  ghost predicate HoldsName(files: seq<File>, name: Bytes) {
    exists i :: 0 <= i < |files| && files[i].name == name
  }

  /** Files that may go into one archive, before the inventory. */
  ghost predicate Prepared(files: seq<File>) {
    && |files| <= MAX_MEMBERS
    && (forall m <- Regulars(files) :: SafeMember(m))
    && Distinct(Regulars(files))
    && !HoldsName(files, MANIFEST_JSON)
    && Total(Regulars(files), Payload) <= MAX_BACKUP
  }

  lemma ListingNext(files: seq<File>, f: File, codec: Codec)
    ensures Listing(files + [f], codec) == Listing(files, codec) + [EntryFor(codec, f.name, f.data)]
  {
  }

  /** The limits of `add`, with `total` bytes and `count` files before. */
  predicate Takes(total: nat, count: nat, name: Bytes, data: Bytes) {
    && 0 < BackupLimit(name) && |data| <= BackupLimit(name)
    && total + |data| <= MAX_BACKUP && count < MAX_MEMBERS
  }

  lemma PreparedFront(files: seq<File>, f: File)
    requires Prepared(files + [f])
    ensures Prepared(files) && Takes(Total(Regulars(files), Payload), |files|, f.name, f.data)
  {
    RegularsNext(files, f);
    hide Total, BackupLimit, MANIFEST_JSON;
    var all, members := files + [f], Regulars(files + [f]);
    assert all[|files|] == f && members[|files|] == Regular(f) && Regular(f) in members;
    assert forall k :: 0 <= k < |files| ==> all[k] == files[k] && members[k] == Regulars(files)[k];
    assert forall m <- Regulars(files) :: m in members;
  }

  lemma PreparedNext(files: seq<File>, f: File)
    requires Prepared(files) && f.name != MANIFEST_JSON && !HoldsName(files, f.name)
    requires Takes(Total(Regulars(files), Payload), |files|, f.name, f.data)
    ensures Prepared(files + [f])
  {
    RegularsNext(files, f);
    hide Total, BackupLimit, MANIFEST_JSON;
    var members := Regulars(files + [f]);
    forall m | m in members
      ensures SafeMember(m)
    {
      assert m in Regulars(files) || m == Regular(f);
    }
    forall i, j | 0 <= i < j < |members|
      ensures members[i].name != members[j].name
    {
      assert members[i].name == files[i].name;
      if j < |files| {
        assert Regulars(files)[i].name != Regulars(files)[j].name;
      }
    }
  }

  lemma {:induction false} PreparedPrefix(files: seq<File>, k: nat)
    requires k <= |files| && Prepared(files)
    ensures Prepared(files[..k])
    decreases |files|
  {
    hide Prepared;
    if k == |files| {
      assert files[..k] == files;
    } else {
      var front := files[..|files| - 1];
      assert files == front + [files[|files| - 1]] && front[..k] == files[..k];
      PreparedFront(front, files[|files| - 1]);
      PreparedPrefix(front, k);
    }
  }

  /** The archive under construction: what went into the TAR stream, and the tallies of `add`. */
  class Writer {
    const codec: Codec
    var files: seq<File>
    var total: nat
    var listed: seq<BackupEntry>

    ghost predicate Valid()
      reads this
    {
      Prepared(files) && listed == Listing(files, codec) && total == Total(Regulars(files), Payload)
    }

    constructor (codec: Codec)
      ensures Valid() && files == [] && this.codec == codec
    {
      this.codec := codec;
      files, total, listed := [], 0, [];
    }

    /** Takes a member exactly within its limits; a new file is taken exactly if the archive may hold
        it beside the others. */
    method Add(name: Bytes, data: Bytes) returns (ok: bool)
      requires Valid()
      modifies this
      ensures ok == Takes(old(total), |old(files)|, name, data)
      ensures name != MANIFEST_JSON && !HoldsName(old(files), name) ==>
                (ok <==> Prepared(old(files) + [File(name, data)]))
      ensures files == if ok then old(files) + [File(name, data)] else old(files)
      ensures ok && name != MANIFEST_JSON && !HoldsName(old(files), name) ==> Valid()
      ensures !ok ==> Valid()
      ensures name == MANIFEST_JSON ==> total == old(total) && listed == old(listed)
    {
      ghost var f := File(name, data);
      if Prepared(files + [f]) {
        PreparedFront(files, f);
      }
      assert |listed| == |files|;
      hide Prepared, MANIFEST_JSON, BackupLimit;
      if BackupLimit(name) == 0 || |data| > BackupLimit(name) || total + |data| > MAX_BACKUP
         || |listed| >= MAX_MEMBERS {
        return false;
      }
      RegularsNext(files, f);
      ListingNext(files, f, codec);
      if name != MANIFEST_JSON && !HoldsName(files, name) {
        PreparedNext(files, f);
      }
      files := files + [File(name, data)];
      if name != MANIFEST_JSON {
        total := total + |data|;
        listed := listed + [EntryFor(codec, name, data)];
      }
      ok := true;
    }
  }

  // ---------------------------------------------------------------- what the archive will hold

  function Within(dir: Bytes, f: File): File {
    File(dir + f.name, f.data)
  }

  function WorkspaceMembers(files: seq<File>): (members: seq<File>)
    ensures |members| == |files| && forall i :: 0 <= i < |files| ==> members[i] == Within(WORKSPACE_DIR, files[i])
  {
    seq(|files|, i requires 0 <= i < |files| => Within(WORKSPACE_DIR, files[i]))
  }

  ghost predicate DistinctNames(files: seq<File>) {
    forall i, j :: 0 <= i < j < |files| ==> files[i].name != files[j].name
  }

  ghost predicate Outside(files: seq<File>, dir: Bytes) {
    forall f <- files :: !Under(f.name, dir)
  }

  /** `boundedFile` */
  function Bounded(file: Option<Bytes>, limit: nat): Option<Bytes> {
    if file.Some? && |file.value| <= limit then file else None
  }

  /** The loop over the exported workspace. */
  method AddWorkspace(w: Writer, files: seq<File>) returns (ok: bool)
    requires w.Valid() && DistinctNames(files) && Outside(w.files, WORKSPACE_DIR)
    modifies w
    ensures w.Valid()
    ensures ok <==> Prepared(old(w.files) + WorkspaceMembers(files))
    ensures ok ==> w.files == old(w.files) + WorkspaceMembers(files)
  {
    NamesDiffer();
    WorkspaceLimits(files);
    hide BackupLimit, Prepared, HoldsName, DistinctNames, Outside, WORKSPACE_DIR, MANIFEST_JSON, Under;
    ghost var base := w.files;
    for i := 0 to |files|
      invariant w.Valid() && w.files == base + WorkspaceMembers(files[..i])
    {
      var f := files[i];
      NewWorkspaceName(base, files, i);
      WorkspacePrefix(base, files, i);
      if Bounded(Some(f.data), MAX_FILE).None? {
        ghost var member := Within(WORKSPACE_DIR, f);
        if Prepared(w.files + [member]) {
          PreparedFront(w.files, member);
        }
        return false;
      }
      ok := w.Add(WORKSPACE_DIR + f.name, f.data);
      if !ok {
        return;
      }
    }
    assert files[..|files|] == files;
    ok := true;
  }

  lemma WorkspaceLimits(files: seq<File>)
    ensures forall f <- files :: BackupLimit(Within(WORKSPACE_DIR, f).name) <= MAX_FILE
  {
    NamesDiffer();
    forall f | f in files
      ensures Under(Within(WORKSPACE_DIR, f).name, WORKSPACE_DIR)
    {
    }
    hide Under, STATE_JSON, SCRIPT_PY, MODULE_WASM, MANIFEST_JSON, Valid, Below, DigestFile;
  }

  /** What the loop builds is a prefix of the whole. */
  lemma WorkspacePrefix(base: seq<File>, files: seq<File>, i: nat)
    requires i < |files|
    ensures base + WorkspaceMembers(files[..i + 1])
            == (base + WorkspaceMembers(files[..i])) + [Within(WORKSPACE_DIR, files[i])]
    ensures Prepared(base + WorkspaceMembers(files)) ==> Prepared(base + WorkspaceMembers(files[..i + 1]))
  {
    hide Prepared, WORKSPACE_DIR;
    var all := base + WorkspaceMembers(files);
    assert all[..|base| + i + 1] == base + WorkspaceMembers(files[..i + 1]);
    if Prepared(all) {
      PreparedPrefix(all, |base| + i + 1);
    }
  }

  lemma NewWorkspaceName(base: seq<File>, files: seq<File>, i: nat)
    requires DistinctNames(files) && Outside(base, WORKSPACE_DIR) && i < |files|
    ensures var name := WORKSPACE_DIR + files[i].name;
            name != MANIFEST_JSON && !HoldsName(base + WorkspaceMembers(files[..i]), name)
  {
    var name := WORKSPACE_DIR + files[i].name;
    NamesDiffer();
    assert Under(name, WORKSPACE_DIR);
    hide WORKSPACE_DIR, MANIFEST_JSON, Under;
    var all := base + WorkspaceMembers(files[..i]);
    forall k | 0 <= k < |all|
      ensures all[k].name != name
    {
      if k < |base| {
        assert all[k] in base;
      } else {
        assert all[k].name[|WORKSPACE_DIR|..] == files[k - |base|].name;
        assert name[|WORKSPACE_DIR|..] == files[i].name;
      }
    }
  }

  /** Every artifact can be read from the directory, and is what the state says. */
  ghost predicate Stored(artifacts: seq<Artifact>, store: map<Bytes, Bytes>, codec: Codec) {
    forall a <- artifacts :: Intact(a, store, codec)
  }

  predicate Intact(a: Artifact, store: map<Bytes, Bytes>, codec: Codec) {
    var name := ArtifactName(codec, a.hash);
    name in store && Digest(store[name]) == a.hash && |store[name]| == a.bytes
  }

  /** The files of the artifacts, each name once. */
  ghost function ArtifactMembers(artifacts: seq<Artifact>, store: map<Bytes, Bytes>, codec: Codec): seq<File> {
    if artifacts == [] then []
    else Joined(ArtifactMembers(artifacts[..|artifacts| - 1], store, codec), artifacts[|artifacts| - 1], store, codec)
  }

  ghost function Joined(front: seq<File>, a: Artifact, store: map<Bytes, Bytes>, codec: Codec): seq<File> {
    var name := ArtifactName(codec, a.hash);
    if HoldsName(front, name) || name !in store then front else front + [File(name, store[name])]
  }

  lemma MembersNext(artifacts: seq<Artifact>, i: nat, store: map<Bytes, Bytes>, codec: Codec)
    requires i < |artifacts|
    ensures ArtifactMembers(artifacts[..i + 1], store, codec)
         == Joined(ArtifactMembers(artifacts[..i], store, codec), artifacts[i], store, codec)
  {
    assert artifacts[..i + 1][..i] == artifacts[..i];
  }

  lemma {:induction false} MembersPrefix(artifacts: seq<Artifact>, i: nat, store: map<Bytes, Bytes>, codec: Codec)
    requires i <= |artifacts|
    ensures ArtifactMembers(artifacts[..i], store, codec) <= ArtifactMembers(artifacts, store, codec)
    decreases |artifacts|
  {
    if i == |artifacts| {
      assert artifacts[..i] == artifacts;
    } else {
      var front := artifacts[..|artifacts| - 1];
      assert front[..i] == artifacts[..i];
      MembersPrefix(front, i, store, codec);
    }
  }

  /** Members and artifacts belong together. */
  lemma {:induction false} MembersAre(artifacts: seq<Artifact>, store: map<Bytes, Bytes>, codec: Codec)
    ensures forall m <- ArtifactMembers(artifacts, store, codec) ::
              m.name in store && m.data == store[m.name]
              && exists a :: a in artifacts && m.name == ArtifactName(codec, a.hash)
    ensures forall a <- artifacts :: var name := ArtifactName(codec, a.hash);
              name in store ==> File(name, store[name]) in ArtifactMembers(artifacts, store, codec)
    decreases |artifacts|
  {
    if artifacts != [] {
      hide ArtifactName;
      var front, a := artifacts[..|artifacts| - 1], artifacts[|artifacts| - 1];
      MembersAre(front, store, codec);
      assert artifacts == front + [a];
      assert a in artifacts;
    }
  }

  /** A member that an archive holds is safe. */
  lemma HeldSafe(files: seq<File>, f: File)
    requires Prepared(files) && f in files
    ensures 0 < BackupLimit(f.name) && |f.data| <= BackupLimit(f.name)
  {
    hide BackupLimit, Total, Distinct;
    var k :| 0 <= k < |files| && files[k] == f;
    assert Regulars(files)[k] in Regulars(files);
  }

  /** The artifacts can follow `base` in an archive. */
  ghost predicate Archivable(base: seq<File>, artifacts: seq<Artifact>, store: map<Bytes, Bytes>, codec: Codec) {
    Stored(artifacts, store, codec) && Prepared(base + ArtifactMembers(artifacts, store, codec))
  }

  lemma ArchivablePrefix(base: seq<File>, artifacts: seq<Artifact>, i: nat, store: map<Bytes, Bytes>, codec: Codec)
    requires i <= |artifacts| && Archivable(base, artifacts, store, codec)
    ensures Archivable(base, artifacts[..i], store, codec)
  {
    hide Prepared, ArtifactMembers, Intact;
    MembersPrefix(artifacts, i, store, codec);
    var some, all := ArtifactMembers(artifacts[..i], store, codec), base + ArtifactMembers(artifacts, store, codec);
    assert all[..|base| + |some|] == base + some;
    PreparedPrefix(all, |base| + |some|);
  }

  /** What the loop checks of the next artifact; `front` are the members of the artifacts before it. */
  ghost predicate Follows(base: seq<File>, front: seq<File>, a: Artifact, store: map<Bytes, Bytes>, codec: Codec) {
    var name := ArtifactName(codec, a.hash);
    && 0 < BackupLimit(name) && Intact(a, store, codec) && a.bytes <= MIB
    && (HoldsName(front, name) || Prepared((base + front) + [File(name, store[name])]))
  }

  lemma ArchivableNext(base: seq<File>, artifacts: seq<Artifact>, i: nat, store: map<Bytes, Bytes>, codec: Codec)
    requires i < |artifacts| && Archivable(base, artifacts[..i], store, codec)
    ensures Archivable(base, artifacts[..i + 1], store, codec)
       <==> Follows(base, ArtifactMembers(artifacts[..i], store, codec), artifacts[i], store, codec)
  {
    hide Prepared, BackupLimit, ArtifactMembers, ArtifactName, HoldsName;
    var a := artifacts[i];
    var name := ArtifactName(codec, a.hash);
    var front, more := ArtifactMembers(artifacts[..i], store, codec), ArtifactMembers(artifacts[..i + 1], store, codec);
    MembersNext(artifacts, i, store, codec);
    assert artifacts[..i + 1] == artifacts[..i] + [a];
    if Archivable(base, artifacts[..i + 1], store, codec) {
      assert a in artifacts[..i + 1];
      ArtifactLimit(codec, a.hash);
      NextHeld(artifacts, i, store, codec);
      HeldSafe(base + more, File(name, store[name]));
    }
    assert name in store ==> (base + front) + [File(name, store[name])] == base + (front + [File(name, store[name])]);
  }

  lemma NextHeld(artifacts: seq<Artifact>, i: nat, store: map<Bytes, Bytes>, codec: Codec)
    requires i < |artifacts| && ArtifactName(codec, artifacts[i].hash) in store
    ensures var name := ArtifactName(codec, artifacts[i].hash);
            File(name, store[name]) in ArtifactMembers(artifacts[..i + 1], store, codec)
  {
    hide ArtifactName, ArtifactMembers;
    MembersAre(artifacts[..i + 1], store, codec);
    assert artifacts[..i + 1][i] == artifacts[i];
  }

  lemma ArtifactLimit(codec: Codec, h: Hash)
    ensures BackupLimit(ArtifactName(codec, h)) <= MIB && Under(ArtifactName(codec, h), ARTIFACTS_DIR)
  {
    NamesDiffer();
    var name := ArtifactName(codec, h);
    assert name[..|ARTIFACTS_DIR|] == ARTIFACTS_DIR;
    assert Below(name, WORKSPACE_DIR) ==> Under(name, WORKSPACE_DIR);
    hide ArtifactName, Under, Below, STATE_JSON, SCRIPT_PY, MODULE_WASM, MANIFEST_JSON, Valid, DigestFile;
  }

  /** The loop over the artifacts: `store` maps their file names to what can be read from the directory. */
  method AddArtifacts(w: Writer, artifacts: seq<Artifact>, store: map<Bytes, Bytes>, codec: Codec) returns (ok: bool)
    requires w.Valid() && Outside(w.files, ARTIFACTS_DIR)
    modifies w
    ensures w.Valid()
    ensures ok <==> Archivable(old(w.files), artifacts, store, codec)
    ensures ok ==> w.files == old(w.files) + ArtifactMembers(artifacts, store, codec)
  {
    ghost var base, members := w.files, [];
    var seen: set<Bytes> := {};
    NothingToAdd(base, artifacts, store, codec);
    hide BackupLimit, Prepared, Outside, ArtifactMembers, Joined, HoldsName, ArtifactName, Archivable, Follows;
    for i := 0 to |artifacts|
      invariant w.Valid() && w.files == base + members
      invariant members == ArtifactMembers(artifacts[..i], store, codec)
                && Archivable(base, artifacts[..i], store, codec)
      invariant forall name :: name in seen <==> HoldsName(members, name)
    {
      var a := artifacts[i];
      ArchivableNext(base, artifacts, i, store, codec);
      MembersNext(artifacts, i, store, codec);
      if Archivable(base, artifacts, store, codec) {
        ArchivablePrefix(base, artifacts, i + 1, store, codec);
      }
      ok := AddArtifact(w, a, store, codec, seen, base, members);
      if !ok {
        return;
      }
      JoinedHolds(base, members, a, store, codec);
      members, seen := Joined(members, a, store, codec), seen + {ArtifactName(codec, a.hash)};
    }
    assert artifacts[..|artifacts|] == artifacts;
    ok := true;
  }

  /** The body of that loop. */
  method AddArtifact(w: Writer, a: Artifact, store: map<Bytes, Bytes>, codec: Codec, seen: set<Bytes>,
                     ghost base: seq<File>, ghost members: seq<File>) returns (ok: bool)
    requires w.Valid() && w.files == base + members && Outside(base, ARTIFACTS_DIR)
    requires forall name :: name in seen <==> HoldsName(members, name)
    modifies w
    ensures w.Valid()
    ensures ok <==> Follows(base, members, a, store, codec)
    ensures ok ==> w.files == base + Joined(members, a, store, codec)
  {
    hide BackupLimit, Prepared, Outside, HoldsName, ArtifactName;
    var name := ArtifactName(codec, a.hash);
    if BackupLimit(name) == 0 {
      return false;
    }
    var data := Bounded(if name in store then Some(store[name]) else None, MIB);
    if data.None? || |data.value| != a.bytes || Digest(data.value) != a.hash {
      return false;
    }
    if name in seen {
      return true;
    }
    NewArtifactName(codec, a.hash, base, members);
    assert (base + members) + [File(name, data.value)] == base + (members + [File(name, data.value)]);
    ok := w.Add(name, data.value);
  }

  lemma JoinedHolds(base: seq<File>, front: seq<File>, a: Artifact, store: map<Bytes, Bytes>, codec: Codec)
    requires Follows(base, front, a, store, codec)
    ensures forall name ::
              HoldsName(Joined(front, a, store, codec), name)
              <==> HoldsName(front, name) || name == ArtifactName(codec, a.hash)
  {
    hide ArtifactName;
    HoldsNext(front, File(ArtifactName(codec, a.hash), store[ArtifactName(codec, a.hash)]));
  }

  lemma NothingToAdd(base: seq<File>, artifacts: seq<Artifact>, store: map<Bytes, Bytes>, codec: Codec)
    requires Prepared(base)
    ensures Archivable(base, artifacts[..0], store, codec) && ArtifactMembers(artifacts[..0], store, codec) == []
    ensures forall name :: !HoldsName([], name)
  {
    hide Prepared;
    assert base + [] == base;
  }

  lemma HoldsNext(files: seq<File>, f: File)
    ensures forall name :: HoldsName(files + [f], name) <==> HoldsName(files, name) || name == f.name
  {
    var all := files + [f];
    assert all[|files|] == f && forall k :: 0 <= k < |files| ==> all[k] == files[k];
  }

  lemma NewArtifactName(codec: Codec, h: Hash, base: seq<File>, members: seq<File>)
    requires Outside(base, ARTIFACTS_DIR) && !HoldsName(members, ArtifactName(codec, h))
    ensures ArtifactName(codec, h) != MANIFEST_JSON && !HoldsName(base + members, ArtifactName(codec, h))
  {
    ArtifactLimit(codec, h);
    NamesDiffer();
    hide ArtifactName, Under;
  }

  // ---------------------------------------------------------------- why the reader accepts it

  lemma StageAppend(files: seq<File>, f: File)
    requires f.name != MANIFEST_JSON
    ensures Stage(Regulars(files + [f])) == Stage(Regulars(files))[f.name := f.data]
  {
    hide MANIFEST_JSON;
    RegularsNext(files, f);
    var members := Regulars(files + [f]);
    assert members[..|files|] == Regulars(files) && members[..|files| + 1] == members;
    StageNext(members, |files|);
    hide Stage;
  }

  lemma DistinctFront(files: seq<File>, f: File)
    requires Distinct(Regulars(files + [f])) && !HoldsName(files + [f], MANIFEST_JSON)
    ensures Distinct(Regulars(files)) && !HoldsName(files, MANIFEST_JSON) && !HoldsName(files, f.name)
            && f.name != MANIFEST_JSON
  {
    hide MANIFEST_JSON;
    var all := files + [f];
    assert forall k :: 0 <= k < |files| ==> all[k] == files[k] && Regulars(all)[k] == Regulars(files)[k];
    assert all[|files|] == f && Regulars(all)[|files|] == Regular(f);
  }

  lemma {:induction false} StageOf(files: seq<File>)
    requires Distinct(Regulars(files)) && !HoldsName(files, MANIFEST_JSON)
    ensures var stage := Stage(Regulars(files));
            && (forall f <- files :: f.name in stage && stage[f.name] == f.data)
            && (forall name <- stage :: HoldsName(files, name))
            && |stage| == |files|
    decreases |files|
  {
    if files != [] {
      hide Stage, Regulars, Distinct, MANIFEST_JSON;
      var front, f := files[..|files| - 1], files[|files| - 1];
      assert files == front + [f];
      DistinctFront(front, f);
      StageOf(front);
      StageAppend(front, f);
      assert forall name :: HoldsName(files, name) <==> HoldsName(front, name) || name == f.name;
      hide HoldsName;
      assert f.name !in Stage(Regulars(front));
    }
  }

  lemma ListingComplete(files: seq<File>, codec: Codec)
    requires Distinct(Regulars(files)) && !HoldsName(files, MANIFEST_JSON)
    ensures Lists(Listing(files, codec), Stage(Regulars(files)), codec)
  {
    StageOf(files);
    hide MANIFEST_JSON, Stage;
    forall i, j | 0 <= i < j < |files|
      ensures files[i].name != files[j].name
    {
      assert Regulars(files)[i].name != Regulars(files)[j].name;
    }
    forall e | e in Listing(files, codec)
      ensures e.path in Stage(Regulars(files)) && e == EntryFor(codec, e.path, Stage(Regulars(files))[e.path])
    {
      var k :| 0 <= k < |files| && Listing(files, codec)[k] == e;
      assert files[k] in files;
    }
  }

  /** Members outside the workspace do not count for it. */
  lemma {:induction false} OutsideAmounts(files: seq<File>, from: nat)
    requires from <= |files| && forall k :: from <= k < |files| ==> !Under(files[k].name, WORKSPACE_DIR)
    ensures Total(Regulars(files), WorkspaceFiles) == Total(Regulars(files[..from]), WorkspaceFiles)
    ensures Total(Regulars(files), WorkspaceBytes) == Total(Regulars(files[..from]), WorkspaceBytes)
    decreases |files|
  {
    hide Under;
    if from == |files| {
      assert files[..from] == files;
    } else {
      var front := files[..|files| - 1];
      assert files == front + [files[|files| - 1]] && front[..from] == files[..from];
      RegularsNext(front, files[|files| - 1]);
      OutsideAmounts(front, from);
    }
  }

  lemma {:induction false} WorkspaceAmounts(base: seq<File>, ws: seq<File>)
    requires Outside(base, WORKSPACE_DIR)
    ensures Total(Regulars(base + WorkspaceMembers(ws)), WorkspaceFiles) == |ws|
    ensures Total(Regulars(base + WorkspaceMembers(ws)), WorkspaceBytes) == TotalBytes(ws)
    decreases |ws|
  {
    if ws == [] {
      assert base + WorkspaceMembers(ws) == base;
      assert forall k :: 0 <= k < |base| ==> base[k] in base;
      OutsideAmounts(base, 0);
    } else {
      var front, f := ws[..|ws| - 1], ws[|ws| - 1];
      WorkspaceAmounts(base, front);
      var last := Within(WORKSPACE_DIR, f);
      assert Under(last.name, WORKSPACE_DIR);
      NamesDiffer();
      assert base + WorkspaceMembers(ws) == base + WorkspaceMembers(front) + [last];
      RegularsNext(base + WorkspaceMembers(front), last);
      hide Under, WORKSPACE_DIR, Total;
    }
  }

  /** The inventory goes last: it changes nothing that was staged. */
  lemma Sealed(files: seq<File>, meta: Bytes, codec: Codec)
    ensures var all := Regulars(files + [File(MANIFEST_JSON, meta)]);
            && Stage(all) == Stage(Regulars(files)) && InventoryOf(all, codec) == codec.unmarshal(meta)
            && Total(all, Payload) == Total(Regulars(files), Payload)
            && Total(all, WorkspaceFiles) == Total(Regulars(files), WorkspaceFiles)
            && Total(all, WorkspaceBytes) == Total(Regulars(files), WorkspaceBytes)
            && Total(all, Metadata) == Total(Regulars(files), Metadata) + |meta|
  {
    var f := File(MANIFEST_JSON, meta);
    var all := Regulars(files + [f]);
    RegularsNext(files, f);
    NamesDiffer();
    hide Total, MANIFEST_JSON, Under;
    assert all[..|files|] == Regulars(files) && all[..|files| + 1] == all;
    StageNext(all, |files|);
    InventoryNext(all, |files|, codec);
  }

  lemma {:induction false} NoMetadata(files: seq<File>)
    requires !HoldsName(files, MANIFEST_JSON)
    ensures Total(Regulars(files), Metadata) == 0
    decreases |files|
  {
    hide MANIFEST_JSON;
    if files != [] {
      var front, f := files[..|files| - 1], files[|files| - 1];
      assert files == front + [f] && f.name == files[|files| - 1].name;
      assert !HoldsName(front, MANIFEST_JSON) by {
        assert forall k :: 0 <= k < |front| ==> front[k] == files[k];
      }
      RegularsNext(front, f);
      NoMetadata(front);
    }
  }

  lemma SealedOrderly(files: seq<File>, meta: Bytes, codec: Codec)
    requires Prepared(files) && |files| < MAX_MEMBERS && |meta| <= BackupLimit(MANIFEST_JSON)
             && codec.unmarshal(meta).Some?
    requires Total(Regulars(files), WorkspaceFiles) <= MAX_ENTRIES
             && Total(Regulars(files), WorkspaceBytes) <= MAX_WORKSPACE
    ensures Orderly(Regulars(files + [File(MANIFEST_JSON, meta)]), codec)
  {
    var f := File(MANIFEST_JSON, meta);
    Sealed(files, meta, codec);
    RegularsNext(files, f);
    assert 0 < BackupLimit(MANIFEST_JSON);
    hide Total, MANIFEST_JSON, BackupLimit;
    var all := Regulars(files + [f]);
    forall m | m in all
      ensures SafeMember(m) && (m.name == MANIFEST_JSON ==> codec.unmarshal(m.data).Some?)
    {
      var k :| 0 <= k < |all| && all[k] == m;
      if k < |files| {
        assert m == Regulars(files)[k] && m in Regulars(files) && files[k].name != MANIFEST_JSON;
      }
    }
    forall i, j | 0 <= i < j < |all|
      ensures all[i].name != all[j].name
    {
      assert Regulars(files)[i].name == all[i].name == files[i].name;
      if j < |files| {
        assert Regulars(files)[i].name != Regulars(files)[j].name;
      }
    }
  }

  /** Allowed names are short, except those of the workspace. */
  lemma AllowedName(name: Bytes)
    requires 0 < BackupLimit(name) && !Under(name, WORKSPACE_DIR)
    ensures |name| <= MAX_NAME
  {
  }

  /** Everything that `Backup` puts into the archive, in order, before the inventory. */
  ghost predicate Gathered(files: seq<File>, s: State, b: Bytes, script: Bytes, ws: seq<File>, store: map<Bytes, Bytes>,
                           codec: Codec) {
    && s.execution.Some? && codec.decode(b) == Some(s) && Digest(script) == s.execution.value.script
    && files == Contents(b, ExecutionName(s.execution.value), script, ws, s.artifacts, store, codec)
    && Stored(s.artifacts, store, codec)
  }

  /** State, executable, workspace, artifacts. */
  ghost function Contents(b: Bytes, name: Bytes, script: Bytes, ws: seq<File>, artifacts: seq<Artifact>,
                          store: map<Bytes, Bytes>, codec: Codec): seq<File>
  {
    [File(STATE_JSON, b), File(name, script)] + WorkspaceMembers(ws) + ArtifactMembers(artifacts, store, codec)
  }

  function InventoryFor(s: State, now: int, files: seq<File>, codec: Codec): Inventory
    requires s.execution.Some?
  {
    Inventory(if s.execution.value.runtime == "wasi" then V2 else V1, s.agentId, now, Listing(files, codec))
  }

  /** Where a name of the archive can come from. */
  lemma Origins(files: seq<File>, s: State, b: Bytes, script: Bytes, ws: seq<File>, store: map<Bytes, Bytes>,
                codec: Codec, k: nat)
    requires Gathered(files, s, b, script, ws, store, codec) && k < |files|
    ensures k == 0 ==> files[k] == File(STATE_JSON, b)
    ensures k == 1 ==> files[k] == File(ExecutionName(s.execution.value), script)
    ensures 2 <= k < 2 + |ws| ==> Under(files[k].name, WORKSPACE_DIR) && files[k] == Within(WORKSPACE_DIR, ws[k - 2])
    ensures 2 + |ws| <= k ==> Under(files[k].name, ARTIFACTS_DIR)
                              && exists a :: a in s.artifacts && files[k].name == ArtifactName(codec, a.hash)
  {
    MembersAre(s.artifacts, store, codec);
    var members := ArtifactMembers(s.artifacts, store, codec);
    if 2 + |ws| <= k {
      assert files[k] == members[k - 2 - |ws|] && files[k] in members;
      var a :| a in s.artifacts && files[k].name == ArtifactName(codec, a.hash);
      ArtifactLimit(codec, a.hash);
    }
    hide ArtifactMembers, ArtifactName, STATE_JSON;
  }

  lemma StateStaged(files: seq<File>, s: State, b: Bytes, script: Bytes, ws: seq<File>, store: map<Bytes, Bytes>,
                    codec: Codec)
    requires Gathered(files, s, b, script, ws, store, codec) && Prepared(files)
    ensures s.execution.Some? && codec.decode(b) == Some(s)
    ensures STATE_JSON in Stage(Regulars(files)) && Stage(Regulars(files))[STATE_JSON] == b
  {
    StageOf(files);
    hide Prepared, Stage, STATE_JSON, Regulars;
    assert |files| >= 2;
    Origins(files, s, b, script, ws, store, codec, 0);
    hide Gathered;
    assert files[0] in files;
  }

  lemma DescribesFiles(files: seq<File>, s: State, b: Bytes, script: Bytes, ws: seq<File>, store: map<Bytes, Bytes>,
                       codec: Codec, now: int)
    requires Gathered(files, s, b, script, ws, store, codec) && Prepared(files)
    ensures Describes(InventoryFor(s, now, files, codec), Stage(Regulars(files)), codec)
    ensures Stage(Regulars(files))[STATE_JSON] == b
  {
    hide Gathered, HoldsName, Lists, Stage, ExecutableMatches, ArtifactsMatch, STATE_JSON, Regulars;
    StateStaged(files, s, b, script, ws, store, codec);
    ListingComplete(files, codec);
    ExecutableDescribed(files, s, b, script, ws, store, codec);
    ArtifactsDescribed(files, s, b, script, ws, store, codec);
    hide Prepared, Listing;
  }

  lemma ExecutableDescribed(files: seq<File>, s: State, b: Bytes, script: Bytes, ws: seq<File>,
                            store: map<Bytes, Bytes>, codec: Codec)
    requires Gathered(files, s, b, script, ws, store, codec) && Prepared(files)
    ensures ExecutableMatches(s.execution.value, Stage(Regulars(files)))
  {
    StageOf(files);
    NamesDiffer();
    var stage := Stage(Regulars(files));
    Origins(files, s, b, script, ws, store, codec, 1);
    assert files[1] in files;
    assert |files| >= 2;
    hide Prepared, Stage, Under, Regulars;
    forall name | name in stage && (name == SCRIPT_PY || name == MODULE_WASM)
      ensures name == ExecutionName(s.execution.value)
    {
      assert HoldsName(files, name);
      var k :| 0 <= k < |files| && files[k].name == name;
      Origins(files, s, b, script, ws, store, codec, k);
    }
  }

  lemma ArtifactsDescribed(files: seq<File>, s: State, b: Bytes, script: Bytes, ws: seq<File>, store: map<Bytes, Bytes>,
                           codec: Codec)
    requires Gathered(files, s, b, script, ws, store, codec) && Prepared(files)
    ensures ArtifactsMatch(s, Stage(Regulars(files)), codec)
  {
    StageOf(files);
    NamesDiffer();
    var stage := Stage(Regulars(files));
    hide Prepared, Stage, Under, Regulars, ArtifactName;
    forall name | name in stage && Under(name, ARTIFACTS_DIR)
      ensures exists a :: a in s.artifacts && name == ArtifactName(codec, a.hash)
    {
      assert HoldsName(files, name);
      var k :| 0 <= k < |files| && files[k].name == name;
      Origins(files, s, b, script, ws, store, codec, k);
    }
    MembersAre(s.artifacts, store, codec);
    hide STATE_JSON, SCRIPT_PY, MODULE_WASM, ArtifactMembers;
    assert forall f <- ArtifactMembers(s.artifacts, store, codec) :: f in files;
  }

  // ---------------------------------------------------------------- the operation

  /** What the file system says about a directory: names are distinct and at most 255 bytes. */
  ghost predicate RealDirectory(entries: seq<DirEntry>) {
    DistinctNames(Visibles(entries)) && forall f <- Visibles(entries) :: |f.name| <= 255
  }

  /** A sealed archive that parses to its members and describes them is acceptable. */
  lemma AcceptableFrom(raw: Bytes, files: seq<File>, inventory: Inventory, meta: Bytes, s: State, codec: Codec)
    requires Unpacks(files + [File(MANIFEST_JSON, meta)], codec)
             && raw == codec.pack(files + [File(MANIFEST_JSON, meta)])
    requires Orderly(Regulars(files + [File(MANIFEST_JSON, meta)]), codec) && codec.unmarshal(meta) == Some(inventory)
    requires Describes(inventory, Stage(Regulars(files)), codec)
             && codec.decode(Stage(Regulars(files))[STATE_JSON]) == Some(s)
    requires |files| < MAX_MEMBERS && Total(Regulars(files), Payload) + |meta| <= MAX_BACKUP
             && !HoldsName(files, MANIFEST_JSON)
    ensures Acceptable(raw, Some(Digest(raw)), codec)
    ensures Stage(codec.parse(raw).members) == Stage(Regulars(files))
    ensures StateOf(raw, Some(Digest(raw)), codec) == s
    ensures ReportOf(raw, Some(Digest(raw)), codec)
         == Report(Digest(raw), s.agentId, s.status, s.completed, |Stage(Regulars(files))|,
                   Total(Regulars(files), Payload), inventory.createdAt)
  {
    Sealed(files, meta, codec);
    NoMetadata(files);
    hide Orderly, Describes, Stage, Total, InventoryOf, AllZero, MANIFEST_JSON, STATE_JSON, Regulars;
  }

  /** The archive around `files`: it packs, and the reader takes the whole of it. */
  lemma SealedAcceptable(files: seq<File>, s: State, b: Bytes, script: Bytes, ws: seq<File>, store: map<Bytes, Bytes>,
                         codec: Codec, now: int)
    requires Lossless(codec) && Prepared(files) && Gathered(files, s, b, script, ws, store, codec)
    requires WithinLimits(ws) && forall f <- ws :: |f.name| <= 255
    requires var meta := codec.marshal(InventoryFor(s, now, files, codec));
             && |files| < MAX_MEMBERS && |meta| <= BackupLimit(MANIFEST_JSON)
             && Total(Regulars(files), Payload) + |meta| <= MAX_BACKUP
    ensures var raw := codec.pack(files + [File(MANIFEST_JSON, codec.marshal(InventoryFor(s, now, files, codec)))]);
            && Acceptable(raw, Some(Digest(raw)), codec)
            && Stage(codec.parse(raw).members) == Stage(Regulars(files))
            && StateOf(raw, Some(Digest(raw)), codec) == s
            && ReportOf(raw, Some(Digest(raw)), codec)
               == Report(Digest(raw), s.agentId, s.status, s.completed, |files|, Total(Regulars(files), Payload), now)
  {
    var inventory := InventoryFor(s, now, files, codec);
    var meta := codec.marshal(inventory);
    var all := files + [File(MANIFEST_JSON, meta)];
    ListedAllowed(files, codec);
    assert codec.unmarshal(meta) == Some(inventory);
    PackableAll(files, s, b, script, ws, store, codec, meta);
    assert Unpacks(all, codec);
    StageOf(files);
    assert codec.decode(b) == Some(s);
    hide Lossless, Unpacks, Prepared, Orderly, Describes, Stage, Total, InventoryOf, BackupLimit, Packable,
         WithinLimits,
         MANIFEST_JSON, STATE_JSON, Acceptable, Gathered, Regulars, Listing;
    WorkspaceWithin(files, s, b, script, ws, store, codec);
    SealedOrderly(files, meta, codec);
    DescribesFiles(files, s, b, script, ws, store, codec, now);
    NotHeld(files);
    AcceptableFrom(codec.pack(all), files, inventory, meta, s, codec);
  }

  lemma NotHeld(files: seq<File>)
    requires Prepared(files)
    ensures !HoldsName(files, MANIFEST_JSON)
  {
  }

  lemma ListedAllowed(files: seq<File>, codec: Codec)
    requires Prepared(files) && Lossless(codec)
    ensures forall e <- Listing(files, codec) :: 0 < BackupLimit(e.path) && 0 <= e.bytes && HexDigest(e.sha256)
  {
    hide BackupLimit, Total, Distinct, HexDigest;
    forall e | e in Listing(files, codec)
      ensures 0 < BackupLimit(e.path) && 0 <= e.bytes && HexDigest(e.sha256)
    {
      var k :| 0 <= k < |files| && Listing(files, codec)[k] == e;
      assert Regulars(files)[k] in Regulars(files);
    }
  }

  lemma PackableMember(files: seq<File>, s: State, b: Bytes, script: Bytes, ws: seq<File>, store: map<Bytes, Bytes>,
                       codec: Codec, k: nat)
    requires Prepared(files) && Gathered(files, s, b, script, ws, store, codec) && (forall f <- ws :: |f.name| <= 255)
             && k < |files|
    ensures PackableFile(files[k])
  {
    NamesDiffer();
    assert |WORKSPACE_DIR| == 10;
    hide BackupLimit, Total, Distinct, Gathered, Under, STATE_JSON, SCRIPT_PY, MODULE_WASM, MANIFEST_JSON,
         WORKSPACE_DIR;
    Origins(files, s, b, script, ws, store, codec, k);
    HeldSafe(files, files[k]);
    if 2 <= k < 2 + |ws| {
      assert ws[k - 2] in ws;
    } else {
      AllowedName(files[k].name);
    }
  }

  lemma PackableAll(files: seq<File>, s: State, b: Bytes, script: Bytes, ws: seq<File>, store: map<Bytes, Bytes>,
                    codec: Codec, meta: Bytes)
    requires Prepared(files) && Gathered(files, s, b, script, ws, store, codec) && forall f <- ws :: |f.name| <= 255
    requires |files| < MAX_MEMBERS && |meta| <= BackupLimit(MANIFEST_JSON)
    ensures Packable(files + [File(MANIFEST_JSON, meta)])
  {
    assert PackableFile(File(MANIFEST_JSON, meta)) by {
      assert |MANIFEST_JSON| == 13;
    }
    hide Prepared, PackableFile, Gathered, MANIFEST_JSON;
    var all := files + [File(MANIFEST_JSON, meta)];
    forall f | f in all
      ensures PackableFile(f)
    {
      var k :| 0 <= k < |all| && all[k] == f;
      if k < |files| {
        PackableMember(files, s, b, script, ws, store, codec, k);
      }
    }
  }

  lemma WorkspaceWithin(files: seq<File>, s: State, b: Bytes, script: Bytes, ws: seq<File>, store: map<Bytes, Bytes>,
                        codec: Codec)
    requires Gathered(files, s, b, script, ws, store, codec) && WithinLimits(ws)
    ensures Total(Regulars(files), WorkspaceFiles) <= MAX_ENTRIES
            && Total(Regulars(files), WorkspaceBytes) <= MAX_WORKSPACE
  {
    NamesDiffer();
    var base := [File(STATE_JSON, b), File(ExecutionName(s.execution.value), script)];
    assert Outside(base, WORKSPACE_DIR);
    WorkspaceAmounts(base, ws);
    assert base + WorkspaceMembers(ws) == files[..2 + |ws|];
    hide Gathered, Under, Total, Outside;
    forall k | 2 + |ws| <= k < |files|
      ensures !Under(files[k].name, WORKSPACE_DIR)
    {
      Origins(files, s, b, script, ws, store, codec, k);
    }
    OutsideAmounts(files, 2 + |ws|);
  }

  /** The inventory fits behind the files. */
  ghost predicate Sealable(files: seq<File>, inventory: Inventory, codec: Codec) {
    Takes(Total(Regulars(files), Payload), |files|, MANIFEST_JSON, codec.marshal(inventory))
  }

  /** When there can be a backup: the state decodes and names an executable, which is there and
      unchanged; the workspace can be exported, every artifact is intact, and all of it fits. */
  ghost predicate Savable(state: Option<Bytes>, executable: Option<Bytes>, workspace: seq<DirEntry>,
                          store: map<Bytes, Bytes>,
                          now: int, codec: Codec) {
    && state.Some? && |state.value| <= 32 * MIB && codec.decode(state.value).Some?
    && var s := codec.decode(state.value).value;
       && s.execution.Some? && executable.Some? && Digest(executable.value) == s.execution.value.script
       && Exportable(workspace) && Stored(s.artifacts, store, codec)
       && var files := Contents(state.value, ExecutionName(s.execution.value), executable.value, Visibles(workspace),
                                s.artifacts,
                                store, codec);
          Prepared(files) && Sealable(files, InventoryFor(s, now, files, codec), codec)
  }

  /** `Backup` of a state directory: the state file, the executable and the artifact directory as they
      can be read, and the workspace as it is listed. */
  method Backup(state: Option<Bytes>, executable: Option<Bytes>, workspace: seq<DirEntry>, store: map<Bytes, Bytes>,
                now: int, codec: Codec) returns (r: Option<(Bytes, Report)>)
    requires Lossless(codec) && RealDirectory(workspace)
    ensures r.Some? <==> Savable(state, executable, workspace, store, now, codec)
    // the reader accepts the archive under the digest of the receipt, with the state that was saved
    // and exactly the report that the writer gives
    ensures r.Some? ==>
              var (raw, report) := r.value;
              && Acceptable(raw, Some(report.sha256), codec) && report == ReportOf(raw, Some(report.sha256), codec)
              && report.createdAt == now
              && state.Some? && codec.decode(state.value) == Some(StateOf(raw, Some(report.sha256), codec))
    // and it holds the very bytes of the state, the executable, the workspace and the artifacts
    ensures r.Some? ==>
              var stage := Stage(codec.parse(r.value.0).members);
              var s := StateOf(r.value.0, Some(r.value.1.sha256), codec);
              && File(STATE_JSON, state.value) in Files(stage)
              && s.execution.Some? && executable.Some?
                 && File(ExecutionName(s.execution.value), executable.value) in Files(stage)
              && (forall f <- Visibles(workspace) :: Within(WORKSPACE_DIR, f) in Files(stage))
              && (forall a <- s.artifacts :: var name := ArtifactName(codec, a.hash);
                    name in store && File(name, store[name]) in Files(stage))
  {
    hide Prepared, Lossless, BackupLimit, Visibles, Acceptable, WithinLimits, Exportable, Contents, Stored;
    var b := Bounded(state, 32 * MIB);
    if b.None? {
      return None;
    }
    var s := codec.decode(b.value);
    if s.None? || s.value.execution.None? {
      return None;
    }
    var execution := s.value.execution.value;
    var name := ExecutionName(execution);
    if executable.Some? {
      ContentsGrow(b.value, name, executable.value, Visibles(workspace), s.value.artifacts, store, codec);
    }
    var script := Bounded(executable, BackupLimit(name));
    if script.None? || Digest(script.value) != execution.script {
      return None;
    }
    var ws := SnapshotWorkspace(workspace);
    if ws.None? {
      return None;
    }
    var w := new Writer(codec);
    var ok := Fill(w, b.value, name, script.value, ws.value, s.value.artifacts, store, codec);
    if !ok {
      return None;
    }
    var inventory := Inventory(if execution.runtime == "wasi" then V2 else V1, s.value.agentId, now, w.listed);
    var meta := codec.marshal(inventory);
    ghost var files := w.files;
    var total, count := w.total, |w.listed|;
    ok := w.Add(MANIFEST_JSON, meta);
    if !ok {
      return None;
    }
    assert Gathered(files, s.value, b.value, script.value, ws.value, store, codec);
    SealedAcceptable(files, s.value, b.value, script.value, ws.value, store, codec, now);
    var raw := codec.pack(w.files);
    FilesStaged(files);
    AllGathered(files, s.value, b.value, script.value, ws.value, store, codec);
    return Some((raw, Report(Digest(raw), s.value.agentId, s.value.status, s.value.completed, count, total, now)));
  }

  ghost function Files(stage: map<Bytes, Bytes>): set<File> {
    set name | name in stage :: File(name, stage[name])
  }

  lemma FilesStaged(files: seq<File>)
    requires Prepared(files)
    ensures forall f <- files :: f in Files(Stage(Regulars(files)))
  {
    StageOf(files);
    hide Prepared, Stage, Regulars, Distinct, HoldsName;
  }

  /** Everything is among the files. */
  lemma AllGathered(files: seq<File>, s: State, b: Bytes, script: Bytes, ws: seq<File>, store: map<Bytes, Bytes>,
                    codec: Codec)
    requires Gathered(files, s, b, script, ws, store, codec)
    ensures File(STATE_JSON, b) in files && File(ExecutionName(s.execution.value), script) in files
    ensures forall f <- ws :: Within(WORKSPACE_DIR, f) in files
    ensures forall a <- s.artifacts :: var name := ArtifactName(codec, a.hash);
            name in store && File(name, store[name]) in files
  {
    MembersAre(s.artifacts, store, codec);
    hide ArtifactName, ArtifactMembers, STATE_JSON, WORKSPACE_DIR;
    var first, rest := [File(STATE_JSON, b), File(ExecutionName(s.execution.value), script)],
                       ArtifactMembers(s.artifacts, store, codec);
    assert files == first + WorkspaceMembers(ws) + rest;
    assert first[0] in files && first[1] in files && forall m <- rest :: m in files;
    forall f | f in ws
      ensures Within(WORKSPACE_DIR, f) in files
    {
      var i :| 0 <= i < |ws| && ws[i] == f;
      assert files[i + 2] == WorkspaceMembers(ws)[i];
    }
  }

  /** The first two names are new, and lie outside the directories. */
  lemma FirstNames(b: Bytes, name: Bytes, script: Bytes)
    requires name == SCRIPT_PY || name == MODULE_WASM
    ensures STATE_JSON != MANIFEST_JSON && !HoldsName([], STATE_JSON)
    ensures name != MANIFEST_JSON && !HoldsName([File(STATE_JSON, b)], name)
    ensures Outside([File(STATE_JSON, b), File(name, script)], WORKSPACE_DIR)
  {
    NamesDiffer();
    hide STATE_JSON, SCRIPT_PY, MODULE_WASM, MANIFEST_JSON, Under;
  }

  /** The members in their order: state, executable, workspace, artifacts. */
  method Fill(w: Writer, b: Bytes, name: Bytes, script: Bytes, ws: seq<File>, artifacts: seq<Artifact>,
              store: map<Bytes, Bytes>, codec: Codec) returns (ok: bool)
    requires w.Valid() && w.files == [] && DistinctNames(ws) && (name == SCRIPT_PY || name == MODULE_WASM)
    modifies w
    ensures w.Valid()
    ensures ok <==> Stored(artifacts, store, codec) && Prepared(Contents(b, name, script, ws, artifacts, store, codec))
    ensures ok ==> w.files == Contents(b, name, script, ws, artifacts, store, codec)
  {
    FirstNames(b, name, script);
    WorkspaceOutside(b, name, script, ws);
    ContentsGrow(b, name, script, ws, artifacts, store, codec);
    hide Prepared, BackupLimit, Under, Outside, DistinctNames, HoldsName, ArtifactMembers, Stored,
         STATE_JSON, SCRIPT_PY, MODULE_WASM, MANIFEST_JSON, WORKSPACE_DIR, ARTIFACTS_DIR;
    ok := FillFirst(w, b, name, script);
    if !ok {
      return;
    }
    ok := AddWorkspace(w, ws);
    if !ok {
      return;
    }
    ok := AddArtifacts(w, artifacts, store, codec);
  }

  method FillFirst(w: Writer, b: Bytes, name: Bytes, script: Bytes) returns (ok: bool)
    requires w.Valid() && w.files == [] && (name == SCRIPT_PY || name == MODULE_WASM)
    modifies w
    ensures w.Valid()
    ensures ok <==> Prepared([File(STATE_JSON, b)]) && Prepared([File(STATE_JSON, b), File(name, script)])
    ensures ok ==> w.files == [File(STATE_JSON, b), File(name, script)]
  {
    FirstNames(b, name, script);
    hide Prepared, BackupLimit, HoldsName, Outside, STATE_JSON, SCRIPT_PY, MODULE_WASM, MANIFEST_JSON;
    assert [] + [File(STATE_JSON, b)] == [File(STATE_JSON, b)];
    ok := w.Add(STATE_JSON, b);
    if !ok {
      return;
    }
    assert [File(STATE_JSON, b)] + [File(name, script)] == [File(STATE_JSON, b), File(name, script)];
    ok := w.Add(name, script);
  }

  /** What cannot be archived in part cannot be archived as a whole. */
  lemma ContentsGrow(b: Bytes, name: Bytes, script: Bytes, ws: seq<File>, artifacts: seq<Artifact>,
                     store: map<Bytes, Bytes>, codec: Codec)
    ensures Prepared(Contents(b, name, script, ws, artifacts, store, codec)) ==>
              && Prepared([File(STATE_JSON, b)]) && Prepared([File(STATE_JSON, b), File(name, script)])
              && Prepared([File(STATE_JSON, b), File(name, script)] + WorkspaceMembers(ws))
              && |script| <= BackupLimit(name)
  {
    hide Prepared, BackupLimit, ArtifactMembers, STATE_JSON;
    var all := Contents(b, name, script, ws, artifacts, store, codec);
    assert all[..1] == [File(STATE_JSON, b)];
    assert all[..2] == [File(STATE_JSON, b), File(name, script)];
    assert all[..2 + |ws|] == [File(STATE_JSON, b), File(name, script)] + WorkspaceMembers(ws);
    if Prepared(all) {
      PreparedPrefix(all, 1);
      PreparedPrefix(all, 2);
      PreparedPrefix(all, 2 + |ws|);
      HeldSafe(all[..2], all[1]);
    }
  }

  lemma WorkspaceOutside(b: Bytes, name: Bytes, script: Bytes, ws: seq<File>)
    requires name == SCRIPT_PY || name == MODULE_WASM
    ensures Outside([File(STATE_JSON, b), File(name, script)] + WorkspaceMembers(ws), ARTIFACTS_DIR)
  {
    NamesDiffer();
    forall i | 0 <= i < |ws|
      ensures Under(WorkspaceMembers(ws)[i].name, WORKSPACE_DIR)
    {
    }
    hide Under, STATE_JSON, SCRIPT_PY, MODULE_WASM;
  }
}
