/** internal/core/sandbox.go: `snapshotWorkspace`, whose limits bound every backup and every retrieval. */
module Workspaces {
  import opened Foundations

  const MAX_ENTRIES := 1000
  const MAX_FILE := 4 * 1024 * 1024
  const MAX_WORKSPACE := 16 * 1024 * 1024
  const DOT: byte := 46

  datatype File = File(name: Bytes, data: Bytes)

  /** A directory entry: `readable` says that open, stat and read succeed, `size` is what stat reports
      and `content` what can then be read. */
  datatype DirEntry = DirEntry(name: Bytes, regular: bool, readable: bool, size: nat, content: Bytes)

  function TotalBytes(files: seq<File>): nat {
    if files == [] then 0 else TotalBytes(files[..|files| - 1]) + |files[|files| - 1].data|
  }

  lemma {:induction false} TotalBytesPrefix(files: seq<File>, k: nat)
    requires k <= |files|
    ensures TotalBytes(files[..k]) <= TotalBytes(files)
    decreases |files|
  {
    if k < |files| {
      assert files[..|files| - 1][..k] == files[..k];
      TotalBytesPrefix(files[..|files| - 1], k);
    } else {
      assert files[..k] == files;
    }
  }

  predicate Visible(e: DirEntry) {
    !(e.name != [] && e.name[0] == DOT) && e.regular
  }

  /** The files to export, in the order of the directory. */
  function Visibles(entries: seq<DirEntry>): seq<File> {
    if entries == [] then []
    else
      var e := entries[|entries| - 1];
      Visibles(entries[..|entries| - 1]) + if Visible(e) then [File(e.name, e.content)] else []
  }

  /** What an export never exceeds. */
  ghost predicate WithinLimits(files: seq<File>) {
    |files| <= MAX_ENTRIES && TotalBytes(files) <= MAX_WORKSPACE && forall f <- files :: |f.data| <= MAX_FILE
  }

  /** No file changes between stat and read. */
  ghost predicate Steady(entries: seq<DirEntry>) {
    forall e <- entries :: Visible(e) ==> e.readable && e.size == |e.content|
  }

  lemma {:induction false} VisiblesPrefix(entries: seq<DirEntry>, i: nat)
    requires i <= |entries|
    ensures Visibles(entries[..i]) <= Visibles(entries) && |Visibles(entries)| <= |entries|
    decreases |entries|
  {
    if i < |entries| {
      assert entries[..|entries| - 1][..i] == entries[..i];
      VisiblesPrefix(entries[..|entries| - 1], i);
    } else {
      assert entries[..i] == entries;
      if entries != [] {
        VisiblesPrefix(entries[..|entries| - 1], 0);
      }
    }
  }

  lemma VisiblesNext(entries: seq<DirEntry>, i: nat)
    requires i < |entries|
    ensures Visibles(entries[..i + 1])
         == Visibles(entries[..i]) + if Visible(entries[i]) then [File(entries[i].name, entries[i].content)] else []
  {
    assert entries[..i + 1][..i] == entries[..i];
  }

  /** A file that an export with `total` bytes so far takes: the limits hold of what stat reports and
      of what is then read. */
  predicate Exports(e: DirEntry, total: nat) {
    && e.readable
    && e.size <= MAX_FILE && total + e.size <= MAX_WORKSPACE
    && |e.content| <= MAX_FILE && total + |e.content| <= MAX_WORKSPACE
  }

  /** The directories that can be exported. */
  ghost predicate Exportable(entries: seq<DirEntry>) {
    |entries| <= MAX_ENTRIES && Taken(entries, |entries|)
  }

  /** The export takes every visible one of the first `n` entries. */
  ghost predicate Taken(entries: seq<DirEntry>, n: nat)
    requires n <= |entries|
  {
    forall i :: 0 <= i < n && Visible(entries[i]) ==> Exports(entries[i], TotalBytes(Visibles(entries[..i])))
  }

  /** A steady directory is exported unless its files together break a limit. */
  lemma {:induction false} SteadyExport(entries: seq<DirEntry>)
    requires Steady(entries) && WithinLimits(Visibles(entries)) && |entries| <= MAX_ENTRIES
    ensures Exportable(entries)
  {
    forall i | 0 <= i < |entries| && Visible(entries[i])
      ensures Exports(entries[i], TotalBytes(Visibles(entries[..i])))
    {
      VisiblesNext(entries, i);
      var some := Visibles(entries[..i + 1]);
      assert some[..|some| - 1] == Visibles(entries[..i]);
      VisiblesPrefix(entries, i + 1);
      var all := Visibles(entries);
      assert all[..|some|] == some;
      TotalBytesPrefix(all, |some|);
      assert some[|some| - 1] in all;
    }
  }

  lemma TakenNext(entries: seq<DirEntry>, i: nat)
    requires i < |entries| && Taken(entries, i)
    ensures Taken(entries, i + 1) <==> !Visible(entries[i]) || Exports(entries[i], TotalBytes(Visibles(entries[..i])))
  {
  }

  lemma TakenOnly(entries: seq<DirEntry>, n: nat)
    requires n <= |entries| && !Taken(entries, n)
    ensures !Exportable(entries)
  {
    hide Exports, Visible, Visibles, TotalBytes;
  }

  lemma AppendWithin(files: seq<File>, f: File)
    requires WithinLimits(files) && |files| < MAX_ENTRIES
    ensures WithinLimits(files + [f]) <==> |f.data| <= MAX_FILE && TotalBytes(files) + |f.data| <= MAX_WORKSPACE
    ensures TotalBytes(files + [f]) == TotalBytes(files) + |f.data|
  {
  }

  /** One visible entry: stat, the limits, read, the limits again. */
  method ExportFile(e: DirEntry, total: nat) returns (r: Option<File>)
    ensures r == if Exports(e, total) then Some(File(e.name, e.content)) else None
  {
    if !e.readable {
      return None;
    }
    if e.size > MAX_FILE || total + e.size > MAX_WORKSPACE {
      return None;
    }
    var b := if |e.content| > MAX_FILE + 1 then e.content[..MAX_FILE + 1] else e.content;
    if |b| > MAX_FILE || total + |b| > MAX_WORKSPACE {
      return None;
    }
    return Some(File(e.name, b));
  }

  /** An export holds exactly the visible files and keeps the limits; a steady directory is exported
      exactly if its files keep them. */
  method SnapshotWorkspace(entries: seq<DirEntry>) returns (r: Option<seq<File>>)
    ensures r.Some? <==> Exportable(entries)
    ensures r.Some? ==> r.value == Visibles(entries) && WithinLimits(r.value)
    ensures Steady(entries) ==> (r.Some? <==> |entries| <= MAX_ENTRIES && WithinLimits(Visibles(entries)))
  {
    if |entries| > MAX_ENTRIES {
      return None;
    }
    var total := 0;
    var files := [];
    assert WithinLimits(files);
    if Steady(entries) && WithinLimits(Visibles(entries)) {
      SteadyExport(entries);
    }
    hide WithinLimits, TotalBytes, Visibles, Steady, Exports, Taken;
    for i := 0 to |entries|
      invariant files == Visibles(entries[..i]) && |files| <= i
      invariant total == TotalBytes(files) && WithinLimits(files)
      invariant Taken(entries, i)
    {
      var e := entries[i];
      VisiblesNext(entries, i);
      TakenNext(entries, i);
      if (|e.name| > 0 && e.name[0] == DOT) || !e.regular {
        continue;
      }
      var f := ExportFile(e, total);
      if f.None? {
        TakenOnly(entries, i + 1);
        return None;
      }
      AppendWithin(files, f.value);
      total := total + |f.value.data|;
      files := files + [f.value];
    }
    assert entries[..|entries|] == entries;
    return Some(files);
  }

  /** Exactly the regular files that are not hidden are exported, with what they hold. */
  lemma {:induction false} VisiblesExact(entries: seq<DirEntry>)
    ensures forall f: File :: f in Visibles(entries) <==>
              exists e :: e in entries && e.regular && (e.name == [] || e.name[0] != 46) && f.name == e.name
                && f.data == e.content
    decreases |entries|
  {
    if entries != [] {
      var front, last := entries[..|entries| - 1], entries[|entries| - 1];
      VisiblesExact(front);
      assert entries == front + [last];
    }
  }

  /** What keeps a directory from being exported: too many entries, or a visible one that cannot be read or is
      too large by what stat reports or by what it holds; and never more than 1000 files, of 4 MiB each and
      16 MiB together. */
  lemma ExportRefused(entries: seq<DirEntry>)
    ensures |entries| > 1000 ==> !Exportable(entries)
    ensures forall e <- entries ::
              Visible(e) && (!e.readable || e.size > 4 * 0x100000 || |e.content| > 4 * 0x100000) ==>
                  !Exportable(entries)
    ensures forall files: seq<File> ::
              WithinLimits(files) <==>
                && |files| <= 1000 && TotalBytes(files) <= 16 * 0x100000
                && forall f <- files :: |f.data| <= 4 * 0x100000
  {
    hide TotalBytes, Visibles, Visible;
    forall e | e in entries && Visible(e) && (!e.readable || e.size > 4 * 0x100000 || |e.content| > 4 * 0x100000)
      ensures !Exportable(entries)
    {
      var i :| 0 <= i < |entries| && entries[i] == e;
      assert !Exports(entries[i], TotalBytes(Visibles(entries[..i])));
    }
  }
}
