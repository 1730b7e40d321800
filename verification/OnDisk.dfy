/**
 * The on-disk format in plain numbers (kernel/src/filesys/fat16/boot_sector.rs, fat_entry.rs, dir_entry.rs and
 * constants.rs): which bytes of which sectors the driver reads and writes, and as what. Offsets and marks are
 * written out here, so that these statements do not depend on the names the other modules give them.
 */
module OnDisk {
  import opened Bytes
  import opened Disk
  import opened Volume
  import opened Names
  import opened Directory
  import opened FileSystem
  import opened Namespace
  import opened FatDevice
  import opened Fat16Driver
  import opened Format

  // ---- A directory slot ------------------------------------------------------------------------------

  /** The name of a slot: what stands before the first space of each part, if that is UTF-8. */
  lemma SlotName(b: seq<byte>, n: nat, x: nat)
    requires |b| == 32 && n <= 8 && x <= 3
    requires (forall i :: 0 <= i < n ==> b[i] != 0x20) && (n < 8 ==> b[n] == 0x20)
    requires (forall i :: 8 <= i < 8 + x ==> b[i] != 0x20) && (x < 3 ==> b[8 + x] == 0x20)
    ensures var name := if Utf8(b[0..n]) then b[0..n] else [];
            var ext := if Utf8(b[8..8 + x]) then b[8..8 + x] else [];
            GetName(Decode(b)) == if x == 0 then name else name + [0x2E] + ext
  {
    hide Utf8, Position;
    NameSlices(b, n, x);
    FirstSpace(b[..11][..8], n);
    FirstSpace(b[..11][8..11], x);
  }

  lemma NameSlices(b: seq<byte>, n: nat, x: nat)
    requires |b| == 32 && n <= 8 && x <= 3
    ensures (forall i :: 0 <= i < 8 ==> b[..11][..8][i] == b[i]) && (forall i :: 0 <= i < 3 ==> b[..11][8..11][i] == b[8 + i])
    ensures b[..11][..8][..n] == b[0..n] && b[..11][8..11][..x] == b[8..8 + x]
  {
  }

  lemma FirstSpace(s: seq<byte>, n: nat)
    requires n <= |s| && (forall i :: 0 <= i < n ==> s[i] != 0x20) && (n < |s| ==> s[n] == 0x20)
    ensures Position(s, SPACE) == n
  {
    var k := Position(s, SPACE);
    assert forall i :: 0 <= i < k && i < |s| ==> s[i] == s[..k][i];
  }

  /** name is what stands behind the last slash of path, or all of it. */
  predicate LastPart(path: seq<byte>, name: seq<byte>) {
    && 0x2F !in name && |name| <= |path| && path[|path| - |name|..] == name
    && (|name| < |path| ==> path[|path| - |name| - 1] == 0x2F)
  }

  /** base and ext are what stands before and behind the last dot of name; without a dot ext is empty. */
  predicate LastDot(name: seq<byte>, base: seq<byte>, ext: seq<byte>) {
    || (0x2E !in name && base == name && ext == [])
    || (0x2E !in ext && name == base + [0x2E] + ext)
  }

  lemma LastPartIs(path: seq<byte>, name: seq<byte>)
    requires LastPart(path, name)
    ensures SplitPath(path).1 == name
  {
    var n := RFind(path, SLASH);
    var k := |path| - |name|;
    assert forall i :: k <= i < |path| ==> path[i] == name[i - k];
    assert n == k - 1;
    assert path[n + 1..] == name;
  }

  lemma LastDotIs(name: seq<byte>, base: seq<byte>, ext: seq<byte>)
    requires LastDot(name, base, ext)
    ensures SplitName(name) == (base, ext)
  {
    if 0x2E !in name {
      JoinSplit(name);
    } else {
      SplitJoin(base, ext);
    }
  }

  /** The 11 name bytes: eight of the base and three of the extension, padded with spaces. */
  predicate NameBytes(b: seq<byte>, base: seq<byte>, ext: seq<byte>)
    requires |b| == 32
  {
    && (forall i :: 0 <= i < 8 ==> b[i] == if i < |base| then base[i] else 0x20)
    && (forall i :: 0 <= i < 3 ==> b[8 + i] == if i < |ext| then ext[i] else 0x20)
  }

  /** The rest of a new entry: attributes, zeros, the cluster and size 0. */
  predicate NewBytes(b: seq<byte>, attributes: byte, c: u16)
    requires |b| == 32
  {
    && b[11] == attributes && b[26] == c % 256 && b[27] == c / 256
    && (forall i :: 12 <= i < 26 ==> b[i] == 0) && (forall i :: 28 <= i < 32 ==> b[i] == 0)
  }

  lemma FieldBytes(base: seq<byte>, ext: seq<byte>, b: seq<byte>)
    requires |b| == 32 && b[..11] == Field(base, ext)
    ensures NameBytes(b, base, ext)
  {
    var p, q := Pad(base, 8), Pad(ext, 3);
    assert forall i :: 0 <= i < 11 ==> b[i] == b[..11][i];
    assert forall i :: 0 <= i < 8 ==> (p + q)[i] == p[i];
    assert forall i :: 0 <= i < 3 ==> (p + q)[8 + i] == q[i];
  }

  lemma EncodedNew(e: Entry, base: seq<byte>, ext: seq<byte>)
    requires e.field == Field(base, ext) && e.other == seq(14, i => 0) && e.size == 0
    ensures NameBytes(Encode(e), base, ext) && NewBytes(Encode(e), e.attributes, e.cluster)
  {
    hide Field, Encode;
    EncodedLayout(e);
    FieldBytes(base, ext, Encode(e));
  }

  /** What create_file writes into its slot. */
  lemma FileSlot(path: seq<byte>, name: seq<byte>, base: seq<byte>, ext: seq<byte>, c: u16)
    requires LastPart(path, name) && LastDot(name, base, ext)
    ensures var b := Encode(FileEntry(path, c)); NameBytes(b, base, ext) && NewBytes(b, 0x20, c)
  {
    hide SplitPath, SplitName, Field, Encode, NameBytes, NewBytes, LastPart, LastDot;
    LastPartIs(path, name);
    LastDotIs(name, base, ext);
    EncodedNew(FileEntry(path, c), base, ext);
  }

  /** What create_dir writes: the whole name as base, and the directory bit. */
  lemma DirSlot32(path: seq<byte>, name: seq<byte>, c: u16)
    requires LastPart(path, name)
    ensures var b := Encode(DirEntryFor(path, c)); NameBytes(b, name, []) && NewBytes(b, 0x10, c)
  {
    hide SplitPath, Field, Encode, NameBytes, NewBytes, LastPart;
    LastPartIs(path, name);
    EncodedNew(DirEntryFor(path, c), name, []);
  }

  /** What rename writes: the new name, and all other bytes of the old entry. */
  lemma RenamedSlot(old32: seq<byte>, to: seq<byte>, name: seq<byte>, base: seq<byte>, ext: seq<byte>)
    requires |old32| == 32 && LastPart(to, name) && LastDot(name, base, ext)
    ensures var b := Encode(RenamedEntry(Decode(old32), to)); NameBytes(b, base, ext) && b[11..] == old32[11..]
  {
    hide SplitPath, SplitName, Decode, Encode, Field, NameBytes, LastPart, LastDot;
    LastPartIs(to, name);
    LastDotIs(name, base, ext);
    var e := Decode(old32);
    EncodeDecode(old32);
    EncodedRest(e);
    EncodedRest(RenamedEntry(e, to));
    FieldBytes(base, ext, Encode(RenamedEntry(e, to)));
  }

  lemma EncodedRest(e: Entry)
    ensures Encode(e)[..11] == e.field
    ensures Encode(e)[11..] == [e.attributes] + e.other + [Lo(e.cluster), Hi(e.cluster)] + Bytes32(e.size)
  {
  }

  /** A directory cluster with only "." for itself and ".." for its parent. */
  ghost predicate DirBytes(r: seq<byte>, c: u16, parent: u16, size: nat) {
    && |r| == size && 64 <= size
    && NameBytes(r[0..32], [0x2E], []) && NewBytes(r[0..32], 0x10, c)
    && NameBytes(r[32..64], [0x2E, 0x2E], []) && NewBytes(r[32..64], 0x10, parent)
    && forall i :: 64 <= i < size ==> r[i] == 0
  }

  /** What init_directory writes. */
  lemma DirClusterBytes(c: u16, parent: u16, size: nat)
    requires 64 <= size
    ensures DirBytes(DirImage(c, parent, size), c, parent, size)
  {
    hide Encode, NewDirectory, Field, NameBytes, NewBytes;
    var r := DirImage(c, parent, size);
    assert r[0..32] == Encode(NewDirectory(DOT_NAME, c));
    assert r[32..64] == Encode(NewDirectory(DOTDOT_NAME, parent));
    DotBytes(DOT_NAME, c);
    DotBytes(DOTDOT_NAME, parent);
  }

  lemma DotBytes(name: seq<byte>, c: u16)
    ensures var b := Encode(NewDirectory(name, c)); NameBytes(b, name, []) && NewBytes(b, 0x10, c)
  {
    hide Field, Encode, NameBytes, NewBytes;
    EncodedNew(NewDirectory(name, c), name, []);
  }

  // ---- Sectors ---------------------------------------------------------------------------------------------

  /** Where the link of a cluster stands, and how it is read. */
  lemma FatBytes(d: Disk, g: Geometry, c: nat)
    requires SectorsOk(d) && g.WellFormed(|d|) && c < g.limit
    ensures g.fatStart + c / 256 < |d|
    ensures |d[g.fatStart + c / 256]| == 512
    ensures var s := d[g.fatStart + c / 256];
            VolOf(d, g).fat[c] == s[2 * (c % 256)] as int + 256 * (s[2 * (c % 256) + 1] as int)
  {
    hide Geometry.WellFormed, Region;
    FatEntryAt(d, g, c);
  }

  /** Where the bytes of the root directory stand. */
  lemma RootBytes(d: Disk, g: Geometry, k: nat)
    requires SectorsOk(d) && g.WellFormed(|d|) && k < 16384
    ensures g.rootStart + 32 <= |d| && |VolOf(d, g).Dir(0)| == 16384
    ensures |d[g.rootStart + k / 512]| == 512 && VolOf(d, g).Dir(0)[k] == d[g.rootStart + k / 512][k % 512]
  {
    hide Geometry.WellFormed, Cluster, Fat;
    ClusterRoom(g, |d|);
    DirRegion(d, g, 0);
  }

  /** Where the bytes of a cluster stand. */
  lemma ClusterBytes(d: Disk, g: Geometry, c: nat, k: nat)
    requires SectorsOk(d) && g.WellFormed(|d|) && 2 <= c < g.limit && k < g.spc * 512
    ensures g.dataStart + (c - 2) * g.spc + k / 512 < |d| && k < |VolOf(d, g).data[c]|
    ensures var s := d[g.dataStart + (c - 2) * g.spc + k / 512];
            |s| == 512 && VolOf(d, g).Dir(c)[k] == VolOf(d, g).data[c][k] == s[k % 512]
  {
    hide Geometry.WellFormed, Fat;
    ClusterRoom(g, |d|);
    ClusterFits(g, |d|, c);
    DirRegion(d, g, c);
  }

  /** What Fat16::new reads from the boot sector, and what it computes. */
  lemma BootLayout(b: seq<byte>, blocks: nat)
    requires |b| == 512
    ensures var g := GeometryOf(b, blocks);
            && g.spc == b[13] && g.fatStart == b[14] as int + 256 * (b[15] as int) && g.fatCount == b[16]
            && g.total16 == b[19] as int + 256 * (b[20] as int) && g.fatSectors == b[22] as int + 256 * (b[23] as int)
            && g.rootStart == g.fatStart + g.fatSectors * g.fatCount && g.dataStart == g.rootStart + 32
  {
  }

  // ---- Links --------------------------------------------------------------------------------------------------

  /** A chain follows the links from its first cluster to one that is 0xFFF8 or more. */
  lemma ChainIs(fat: seq<u16>, ch: seq<nat>)
    ensures IsChain(fat, ch) <==>
            && |ch| > 0 && (forall i :: 0 <= i < |ch| ==> 2 <= ch[i] < |fat|)
            && (forall i :: 0 <= i < |ch| - 1 ==> fat[ch[i]] == ch[i + 1])
            && fat[ch[|ch| - 1]] >= 0xFFF8
  {
  }

  /** A freed chain has links 0. */
  lemma ClearedLinks(fat: seq<u16>, ch: seq<nat>, x: nat)
    requires x < |fat|
    ensures |Cleared(fat, ch)| == |fat| && Cleared(fat, ch)[x] == if x in ch then 0x0000 else fat[x]
  {
  }

  // ---- What the calls write ------------------------------------------------------------------------------------

  /** From volume v, the bytes b at offset `at` of the directory in cluster d are all that changed. */
  ghost predicate OnlyBytes(v: Vol, v': Vol, d: nat, at: nat, b: seq<byte>) {
    && v'.fat == v.fat && v'.boot == v.boot && v'.blocks == v.blocks && |v'.data| == |v.data|
    && d < |v.data| && at + |b| <= |v.Dir(d)|
    && (forall e :: 0 <= e < |v.data| ==> |v'.Dir(e)| == |v.Dir(e)|)
    && (forall e, k :: 0 <= e < |v.data| && 0 <= k < |v.Dir(e)| ==>
          v'.Dir(e)[k] == if e == d && at <= k < at + |b| then b[k - at] else v.Dir(e)[k])
  }

  /** Slot i of the directory in cluster d is its first that was never used or is deleted. */
  ghost predicate FirstOpenSlot(v: Vol, d: nat, i: nat) {
    && d < |v.data| && 32 * i + 32 <= |v.Dir(d)| && v.Dir(d)[32 * i] in {0x00, 0xE5}
    && forall j :: 0 <= j < i ==> v.Dir(d)[32 * j] !in {0x00, 0xE5}
  }

  lemma PutOnly(v: Vol, d: nat, i: nat, b: seq<byte>)
    requires d < |v.data| && i < |v.Dir(d)| / 32 && |b| == 32
    ensures OnlyBytes(v, VolPut(v, d, i, b), d, 32 * i, b)
  {
  }

  lemma OpenSlot(v: Vol, d: nat)
    requires d < |v.data| && FirstUsable(DirAt(v, d), 0) < |DirAt(v, d)|
    ensures FirstOpenSlot(v, d, FirstUsable(DirAt(v, d), 0))
  {
    hide FirstUsable, Decode, IsLive;
    var i, dir := FirstUsable(DirAt(v, d), 0), v.Dir(d);
    forall j | 0 <= j <= i
      ensures IsLive(DirAt(v, d)[j]) <==> dir[32 * j] !in {0x00, 0xE5}
    {
      SlotMarks(dir[32 * j..32 * j + 32]);
    }
    forall j | 0 <= j < i
      ensures IsLive(DirAt(v, d)[j])
    {
      FirstUsableIsFirst(DirAt(v, d), 0, j);
    }
  }

  /**
   * A successful create_file takes the lowest free cluster, ends a chain there, and writes 32 bytes over the
   * first open slot of the parent.
   */
  lemma CreatedBytes(was: Fs, before: Vol, after: Vol, path: seq<byte>, name: seq<byte>, base: seq<byte>, ext: seq<byte>)
    returns (c: u16, d: nat, i: nat, b: seq<byte>)
    requires Inv(was) && was.g.ScansFit() && was.fat == before.fat && FileOnDisk(was, before, after, path)
    requires LastPart(path, name) && LastDot(name, base, ext)
    ensures LowestFree(before.fat, was.g, Ok(c)) && CreateOutcome(was, path, 12) == Ok(d) && |b| == 32
    ensures var mid := before.(fat := before.fat[c := 0xFFFF]);
            FirstOpenSlot(mid, d, i) && OnlyBytes(mid, after, d, 32 * i, b)
    ensures NameBytes(b, base, ext) && NewBytes(b, 0x20, c)
  {
    hide Inv, Encode, FileEntry, NameBytes, NewBytes, LastPart, LastDot, OnlyBytes, FirstOpenSlot, FirstUsable, VolPut,
         LowestFree, Entries, Geometry.ScansFit, Geometry.MountScan, Taken, SlotsAt;
    DataSize(was, 0);
    c := NextFree(was);
    d := CreateOutcome(was, path, 12).value;
    MountTakes(was.fat, was.g);
    var mid := Claimed(before, Ok(c));
    i := FirstUsable(DirAt(mid, d), 0);
    b := Encode(FileEntry(path, c));
    OpenSlot(mid, d);
    PutOnly(mid, d, i, b);
    FileSlot(path, name, base, ext, c);
  }

  /** The 32 bytes of a new directory go over the first open slot, once its cluster c is claimed and written. */
  ghost predicate DirWritten(before: Vol, after: Vol, c: u16, d: u16, i: nat, name: seq<byte>, b: seq<byte>, image: seq<byte>)
  {
    && |b| == 32 && c < |before.fat| && c < |before.data| && DirBytes(image, c, d, |image|)
    && var mid := before.(fat := before.fat[c := 0xFFFF], data := before.data[c := image]);
       FirstOpenSlot(mid, d, i) && OnlyBytes(mid, after, d, 32 * i, b) && NameBytes(b, name, []) && NewBytes(b, 0x10, c)
  }

  /** A successful create_dir: the same, with the new cluster's bytes written before. */
  lemma CreatedDirBytes(was: Fs, before: Vol, after: Vol, path: seq<byte>, name: seq<byte>)
    returns (c: u16, d: u16, i: nat, b: seq<byte>, image: seq<byte>)
    requires Inv(was) && was.g.ScansFit() && was.fat == before.fat && DirOnDisk(was, before, after, path)
    requires LastPart(path, name)
    ensures LowestFree(before.fat, was.g, Ok(c)) && CreateOutcome(was, path, 8) == Ok(d)
    ensures |image| == was.g.spc * 512 && DirWritten(before, after, c, d, i, name, b, image)
  {
    hide Inv, Encode, DirEntryFor, NameBytes, NewBytes, LastPart, OnlyBytes, FirstOpenSlot, FirstUsable, VolPut,
         LowestFree, Entries, Geometry.ScansFit, Geometry.MountScan, Taken, SlotsAt, DirImage, DirBytes;
    DataSize(was, 0);
    SpcPositive(was);
    c := NextFree(was);
    d := CreateOutcome(was, path, 8).value;
    MountTakes(was.fat, was.g);
    image := DirImage(c, d, was.g.ClusterSize());
    var mid := Filled(Claimed(before, Ok(c)), c, image);
    i := FirstUsable(DirAt(mid, d), 0);
    b := Encode(DirEntryFor(path, c));
    DirClusterBytes(c, d, was.g.ClusterSize());
    OpenSlot(mid, d);
    PutOnly(mid, d, i, b);
    DirSlot32(path, name, c);
  }

  /** remove_entry: the first byte of the slot is marked, and the links of the chain are 0. */
  lemma RemovedBytes(before: Vol, after: Vol, p: Pos, ch: seq<nat>)
    requires RemovedOnDisk(before, after, p, ch)
    ensures OnlyBytes(before.(fat := after.fat), after, p.0, 32 * p.1, [0xE5])
    ensures |after.fat| == |before.fat|
    ensures forall x :: 0 <= x < |before.fat| ==> after.fat[x] == if x in ch then 0x0000 else before.fat[x]
  {
    hide Cleared;
    MarkOnly(before, p.0, p.1);
    forall x | 0 <= x < |before.fat|
      ensures after.fat[x] == if x in ch then 0x0000 else before.fat[x]
    {
      ClearedLinks(before.fat, ch, x);
    }
    if |before.fat| == 0 {
      assert |Cleared(before.fat, ch)| == 0;
    } else {
      ClearedLinks(before.fat, ch, 0);
    }
  }

  lemma MarkOnly(v: Vol, d: nat, i: nat)
    requires d < |v.data| && i < |v.Dir(d)| / 32
    ensures OnlyBytes(v, VolPut(v, d, i, Splice(SlotBytes(v, d, i), 0, [DELETED])), d, 32 * i, [0xE5])
  {
    var b := Splice(SlotBytes(v, d, i), 0, [DELETED]);
    PutOnly(v, d, i, b);
    assert forall k :: 0 < k < 32 ==> b[k] == v.Dir(d)[32 * i + k];
  }

  /** rename: first the new slot, then the mark on the old one. */
  lemma RenamedBytes(was: Fs, before: Vol, after: Vol, from: seq<byte>, to: seq<byte>,
                     name: seq<byte>, base: seq<byte>, ext: seq<byte>)
    returns (src: Pos, d: nat, i: nat, b: seq<byte>, mid: Vol)
    requires Inv(was) && Rep(was, before) && RenamedOnDisk(was, before, after, from, to)
    requires LastPart(to, name) && LastDot(name, base, ext)
    ensures Resolve(was.tab, 0, Components(from)) == Ok(src) && RenameOutcome(was, from, to) == Ok(d) && |b| == 32
    ensures src.0 < |before.data| && 32 * src.1 + 32 <= |before.Dir(src.0)|
    ensures FirstOpenSlot(before, d, i) && OnlyBytes(before, mid, d, 32 * i, b)
    ensures NameBytes(b, base, ext) && b[11..] == before.Dir(src.0)[32 * src.1 + 11..32 * src.1 + 32]
    ensures OnlyBytes(mid, after, src.0, 32 * src.1, [0xE5])
  {
    hide Inv, Rep, Encode, Decode, RenamedEntry, NameBytes, LastPart, LastDot, OnlyBytes, FirstOpenSlot, FirstUsable, VolPut,
         Resolve, Components, RenameOutcome, SlotsAt, SlotBytes, Entries, DirCluster;
    src := Resolve(was.tab, 0, Components(from)).value;
    d := RenameOutcome(was, from, to).value;
    i := FirstUsable(SlotsAt(was, d), 0);
    SlotsOfParent(was, before, d);
    b := Encode(RenamedEntry(was.At(src), to));
    OpenSlot(before, d);
    PutOnly(before, d, i, b);
    mid := VolPut(before, d, i, b);
    MarkOnly(mid, src.0, src.1);
    SourceSlot(was, before, src);
    RenamedSlot(SlotBytes(before, src.0, src.1), to, name, base, ext);
  }

  lemma SlotsOfParent(was: Fs, before: Vol, d: nat)
    requires Inv(was) && Rep(was, before) && DirCluster(was.g, d) && d < |was.data|
    ensures d < |before.data| && DirAt(before, d) == SlotsAt(was, d) && |DirAt(before, d)| == |before.Dir(d)| / 32
  {
    hide Inv, Rep;
    RootIsDir(was);
    SlotsAtIs(was, before, d);
  }

  lemma SourceSlot(was: Fs, before: Vol, src: Pos)
    requires Rep(was, before) && was.HasSlot(src)
    ensures src.0 < |before.data| && src.1 < |before.Dir(src.0)| / 32
    ensures was.At(src) == Decode(SlotBytes(before, src.0, src.1))
    ensures SlotBytes(before, src.0, src.1)[11..] == before.Dir(src.0)[32 * src.1 + 11..32 * src.1 + 32]
  {
    hide Rep, Decode;
    RepTabIs(was, before, src.0);
  }
}
