/** What backups ask of their codecs, and codecs that deliver it. */
module Codecs {
  import opened Foundations
  import opened Missions
  import opened Utf8
  import opened Workspaces
  import opened ArchiveFormat
  import opened Unpacking

  // ---------------------------------------------------------------- what is asked

  function Regular(f: File): Member {
    Member(f.name, true, |f.data|, f.data)
  }

  function Regulars(files: seq<File>): (members: seq<Member>)
    ensures |members| == |files| && forall i :: 0 <= i < |files| ==> members[i] == Regular(files[i])
  {
    seq(|files|, i requires 0 <= i < |files| => Regular(files[i]))
  }

  lemma RegularsNext(files: seq<File>, f: File)
    ensures Regulars(files + [f]) == Regulars(files) + [Regular(f)]
    ensures forall what ::
              Total(Regulars(files + [f]), what) == Total(Regulars(files), what) + AmountOf(Regular(f), what)
  {
    TotalNext(Regulars(files), Regular(f));
    hide Total;
    assert Regulars(files + [f]) == Regulars(files) + [Regular(f)];
  }

  const MAX_NAME := 1024
  const FRAME := 4096

  /** The file lists that the writer packs: allowed names of at most 1 KiB, contents within their limits. */
  predicate Packable(files: seq<File>) {
    |files| <= MAX_MEMBERS && forall f <- files :: PackableFile(f)
  }

  predicate PackableFile(f: File) {
    0 < BackupLimit(f.name) && |f.name| <= MAX_NAME && |f.data| <= BackupLimit(f.name)
  }

  /** Parsing undoes packing, and headers and padding take at most 4 KiB a member. */
  ghost predicate Unpacks(files: seq<File>, codec: Codec) {
    var raw := codec.pack(files);
    var tar := codec.parse(raw);
    && tar.members == Regulars(files) && tar.clean && AllZero(tar.after)
    && |raw| <= Total(Regulars(files), Payload) + Total(Regulars(files), Metadata) + FRAME * (|files| + 1)
  }

  /** The inventories that the writer marshals: of a known format, with allowed names, which are valid
      UTF-8, and digests in hexadecimal. */
  predicate Writable(m: Inventory) {
    && !m.format.OtherFormat? && |m.files| <= MAX_MEMBERS
    && forall f <- m.files :: 0 < BackupLimit(f.path) && 0 <= f.bytes && HexDigest(f.sha256)
  }

  /** TAR and JSON lose nothing that the writer gives them, and digests are spelled in hexadecimal. */
  ghost predicate Lossless(codec: Codec) {
    && (forall files :: Packable(files) ==> Unpacks(files, codec))
    && (forall m :: Writable(m) ==> codec.unmarshal(codec.marshal(m)) == Some(m))
    && (forall b: Bytes :: HexDigest(codec.spell(Digest(b))))
  }

  /** `decodeState` validates. */
  ghost predicate Validating(codec: Codec) {
    forall b :: codec.decode(b).Some? ==> Loadable(codec.decode(b).value)
  }

  // ---------------------------------------------------------------- text that can be read from its end

  lemma SameTail<T>(a: seq<T>, u: seq<T>, b: seq<T>, v: seq<T>)
    requires a + u == b + v && |u| == |v|
    ensures a == b && u == v
  {
    assert a == (a + u)[..|a|] && b == (b + v)[..|b|];
    assert u == (a + u)[|a|..] && v == (b + v)[|b|..];
  }

  /** A natural number of any size: as many ones, after a zero. */
  function Unary(n: nat): Bytes {
    [0] + seq(n, _ => 1)
  }

  lemma {:induction false} UnaryTail(a: Bytes, m: nat, b: Bytes, n: nat)
    requires a + Unary(m) == b + Unary(n)
    ensures a == b && m == n
  {
    if m == 0 || n == 0 {
      var l, r := a + Unary(m), b + Unary(n);
      assert l[|l| - 1] == Unary(m)[m] && r[|r| - 1] == Unary(n)[n];
      SameTail(a, Unary(m), b, Unary(n));
    } else {
      UnaryNext(a, m);
      UnaryNext(b, n);
      SameTail(a + Unary(m - 1), [1], b + Unary(n - 1), [1]);
      UnaryTail(a, m - 1, b, n - 1);
    }
  }

  lemma UnaryNext(a: Bytes, n: nat)
    requires n > 0
    ensures a + Unary(n) == (a + Unary(n - 1)) + [1]
  {
  }

  /** A number in base 256, without leading zeros. */
  function Digits(n: nat): (r: Bytes)
    ensures r == [] <==> n == 0
  {
    if n == 0 then [] else Digits(n / 0x100) + [(n % 0x100) as byte]
  }

  lemma {:induction false} DigitsInjective(m: nat, n: nat)
    requires Digits(m) == Digits(n)
    ensures m == n
  {
    if m > 0 && n > 0 {
      SameTail(Digits(m / 0x100), [(m % 0x100) as byte], Digits(n / 0x100), [(n % 0x100) as byte]);
      assert [(m % 0x100) as byte][0] == [(n % 0x100) as byte][0];
      DigitsInjective(m / 0x100, n / 0x100);
    }
  }

  /** A number that can be read from behind: its digits, and how many they are. */
  function Sized(n: nat): (r: Bytes)
    ensures r != []
  {
    Digits(n) + Unary(|Digits(n)|)
  }

  lemma SizedTail(a: Bytes, m: nat, b: Bytes, n: nat)
    requires a + Sized(m) == b + Sized(n)
    ensures a == b && m == n
  {
    var u, v := Digits(m), Digits(n);
    assert a + Sized(m) == (a + u) + Unary(|u|) && b + Sized(n) == (b + v) + Unary(|v|);
    UnaryTail(a + u, |u|, b + v, |v|);
    SameTail(a, u, b, v);
    DigitsInjective(m, n);
  }

  lemma SizedShort(n: nat)
    requires n < 0x1_0000_0000
    ensures |Sized(n)| <= 9
  {
    var a, b, c := n / 0x100, n / 0x10000, n / 0x1000000;
    assert b == a / 0x100 && c == b / 0x100 && c < 0x100;
    assert |Digits(c)| <= 1;
    assert |Digits(b)| <= 2;
    assert |Digits(a)| <= 3;
  }

  /** Octets with their number behind them. */
  function Counted(t: Bytes): Bytes {
    t + Sized(|t|)
  }

  lemma CountedTail(a: Bytes, t: Bytes, b: Bytes, u: Bytes)
    requires a + Counted(t) == b + Counted(u)
    ensures a == b && t == u
  {
    assert a + Counted(t) == (a + t) + Sized(|t|) && b + Counted(u) == (b + u) + Sized(|u|);
    hide Sized;
    SizedTail(a + t, |t|, b + u, |u|);
    SameTail(a, t, b, u);
  }

  // ---------------------------------------------------------------- packing

  function PackFile(f: File): (r: Bytes)
    ensures r != []
  {
    Counted(f.name) + Counted(f.data)
  }

  function Pack(files: seq<File>): (r: Bytes)
    ensures r == [] <==> files == []
  {
    if files == [] then [] else Pack(files[..|files| - 1]) + PackFile(files[|files| - 1])
  }

  lemma PackFileTail(a: Bytes, f: File, b: Bytes, g: File)
    requires a + PackFile(f) == b + PackFile(g)
    ensures a == b && f == g
  {
    assert a + PackFile(f) == (a + Counted(f.name)) + Counted(f.data);
    assert b + PackFile(g) == (b + Counted(g.name)) + Counted(g.data);
    hide Counted;
    CountedTail(a + Counted(f.name), f.data, b + Counted(g.name), g.data);
    CountedTail(a, f.name, b, g.name);
  }

  lemma {:induction false} PackInjective(files: seq<File>, others: seq<File>)
    requires Pack(files) == Pack(others)
    ensures files == others
    decreases |files|
  {
    hide PackFile;
    if files != [] && others != [] {
      var f, g := files[|files| - 1], others[|others| - 1];
      var front, before := files[..|files| - 1], others[..|others| - 1];
      PackFileTail(Pack(front), f, Pack(before), g);
      PackInjective(front, before);
      assert files == front + [f] && others == before + [g];
    }
  }

  lemma LimitsSmall(name: Bytes)
    ensures BackupLimit(name) < 0x1_0000_0000
  {
    hide Valid, Below, DigestFile;
  }

  lemma {:induction false} PackLength(files: seq<File>)
    requires forall f <- files :: PackableFile(f)
    ensures |Pack(files)| <= Total(Regulars(files), Payload) + Total(Regulars(files), Metadata) + FRAME * (|files| + 1)
    decreases |files|
  {
    if files != [] {
      hide BackupLimit, MANIFEST_JSON, Sized;
      var front, f := files[..|files| - 1], files[|files| - 1];
      assert files == front + [f] && PackableFile(f);
      LimitsSmall(f.name);
      SizedShort(|f.name|);
      SizedShort(|f.data|);
      PackLength(front);
      RegularsNext(front, f);
    }
  }

  /** The packed files, if there are any. */
  ghost function Parse(raw: Bytes): Tar {
    if exists files :: Pack(files) == raw
    then
      var files :| Pack(files) == raw;
      Tar(Regulars(files), true, [])
    else Tar([], false, [])
  }

  lemma ParsePack(files: seq<File>)
    ensures Parse(Pack(files)) == Tar(Regulars(files), true, [])
  {
    hide Pack;
    var others :| Pack(others) == Pack(files) && Parse(Pack(files)) == Tar(Regulars(others), true, []);
    PackInjective(others, files);
  }

  // ---------------------------------------------------------------- marshalling

  function Characters(s: string): (r: Bytes)
    ensures r == [] <==> s == ""
  {
    if s == "" then [] else Characters(s[..|s| - 1]) + Sized(s[|s| - 1] as nat)
  }

  lemma {:induction false} CharactersInjective(s: string, t: string)
    requires Characters(s) == Characters(t)
    ensures s == t
    decreases |s|
  {
    if s != "" && t != "" {
      var front, before := s[..|s| - 1], t[..|t| - 1];
      SizedTail(Characters(front), s[|s| - 1] as nat, Characters(before), t[|t| - 1] as nat);
      CharactersInjective(front, before);
      assert s == front + [s[|s| - 1]] && t == before + [t[|t| - 1]];
    }
  }

  function Line(e: BackupEntry): (r: Bytes)
    ensures r != []
  {
    Counted(e.path) + Sized(if e.bytes < 0 then 0 else e.bytes) + Counted(e.sha256)
  }

  function Lines(files: seq<BackupEntry>): (r: Bytes)
    ensures r == [] <==> files == []
  {
    if files == [] then [] else Lines(files[..|files| - 1]) + Line(files[|files| - 1])
  }

  lemma LineTail(a: Bytes, e: BackupEntry, b: Bytes, f: BackupEntry)
    requires 0 <= e.bytes && 0 <= f.bytes && a + Line(e) == b + Line(f)
    ensures a == b && e == f
  {
    assert a + Line(e) == ((a + Counted(e.path)) + Sized(e.bytes)) + Counted(e.sha256);
    assert b + Line(f) == ((b + Counted(f.path)) + Sized(f.bytes)) + Counted(f.sha256);
    hide Counted, Sized;
    CountedTail((a + Counted(e.path)) + Sized(e.bytes), e.sha256, (b + Counted(f.path)) + Sized(f.bytes), f.sha256);
    SizedTail(a + Counted(e.path), e.bytes, b + Counted(f.path), f.bytes);
    CountedTail(a, e.path, b, f.path);
  }

  lemma {:induction false} LinesInjective(files: seq<BackupEntry>, others: seq<BackupEntry>)
    requires (forall e <- files + others :: 0 <= e.bytes) && Lines(files) == Lines(others)
    ensures files == others
    decreases |files|
  {
    hide Line;
    if files != [] && others != [] {
      var e, f := files[|files| - 1], others[|others| - 1];
      var front, before := files[..|files| - 1], others[..|others| - 1];
      assert e in files + others && f in files + others;
      LineTail(Lines(front), e, Lines(before), f);
      LinesInjective(front, before);
      assert files == front + [e] && others == before + [f];
    }
  }

  /** Lines, agent, moment and whether it lies before the epoch, and format. */
  function Marshal(m: Inventory): Bytes {
    Counted(Lines(m.files)) + Counted(Characters(m.agentId))
    + Sized(if m.createdAt < 0 then -m.createdAt else m.createdAt)
    + [if m.createdAt < 0 then 1 else 0, if m.format == V1 then 1 else 2]
  }

  lemma MarshalInjective(m: Inventory, n: Inventory)
    requires Writable(m) && Writable(n) && Marshal(m) == Marshal(n)
    ensures m == n
  {
    hide Counted, Sized, Lines, Characters, BackupLimit, HexDigest;
    var a, b := Counted(Lines(m.files)), Counted(Lines(n.files));
    var c, d := Counted(Characters(m.agentId)), Counted(Characters(n.agentId));
    var i := if m.createdAt < 0 then -m.createdAt else m.createdAt;
    var j := if n.createdAt < 0 then -n.createdAt else n.createdAt;
    var u: Bytes, v: Bytes := [if m.createdAt < 0 then 1 else 0, if m.format == V1 then 1 else 2],
                              [if n.createdAt < 0 then 1 else 0, if n.format == V1 then 1 else 2];
    SameTail((a + c) + Sized(i), u, (b + d) + Sized(j), v);
    assert u[0] == v[0] && u[1] == v[1];
    SizedTail(a + c, i, b + d, j);
    CountedTail(a, Characters(m.agentId), b, Characters(n.agentId));
    CharactersInjective(m.agentId, n.agentId);
    assert [] + a == a && [] + b == b;
    CountedTail([], Lines(m.files), [], Lines(n.files));
    LinesInjective(m.files, n.files);
  }

  ghost function Unmarshal(raw: Bytes): Option<Inventory> {
    if exists m :: Writable(m) && Marshal(m) == raw
    then
      var m :| Writable(m) && Marshal(m) == raw;
      Some(m)
    else None
  }

  lemma UnmarshalMarshal(m: Inventory)
    requires Writable(m)
    ensures Unmarshal(Marshal(m)) == Some(m)
  {
    hide Writable, Marshal;
    var n :| Writable(n) && Marshal(n) == Marshal(m) && Unmarshal(Marshal(m)) == Some(n);
    MarshalInjective(n, m);
  }

  // ---------------------------------------------------------------- codecs that deliver it

  /** Whatever the decoder of states is, there are codecs beside it that lose nothing. */
  lemma LosslessCodec(decode: Bytes -> Option<State>) returns (codec: Codec)
    ensures Lossless(codec) && codec.decode == decode
  {
    codec := Codec(Pack, raw => Parse(raw), Marshal, raw => Unmarshal(raw), decode, _ => seq(64, _ => 48));
    forall files | Packable(files)
      ensures Unpacks(files, codec)
    {
      ParsePack(files);
      PackLength(files);
      hide Pack, Total, PackableFile;
    }
    forall m | Writable(m)
      ensures codec.unmarshal(codec.marshal(m)) == Some(m)
    {
      UnmarshalMarshal(m);
    }
    hide Packable, Unpacks, Writable;
  }
}
