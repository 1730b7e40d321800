/**
 * The FAT16 driver (kernel/src/filesys/fat16/mod.rs and file.rs). Its calls work on device sectors;
 * the ghost state `fs` is what those sectors mean, and every call is proved to be a step, or a short
 * run of steps, of that state.
 */
module Fat16Driver {
  import opened Basics
  import opened Bytes
  import opened Disk
  import opened Volume
  import opened Names
  import opened Directory
  import opened FileSystem
  import opened FileIO
  import opened FileRuns
  import opened Namespace
  import opened FatDevice

  /** fs is what the volume v means. The bytes of a directory's cluster are accounted for by its slots. */
  ghost predicate Rep(fs: Fs, v: Vol) {
    && fs.fat == v.fat && |fs.data| == |v.data|
    && (forall d :: d in fs.tab ==> RepDir(fs, v, d))
    && (forall c :: 2 <= c < |fs.data| && c !in fs.tab ==> fs.data[c] == v.data[c])
  }

  ghost predicate RepDir(fs: Fs, v: Vol, d: nat) {
    d in fs.tab && d < |v.data| && (d == 0 || 2 <= d) && fs.tab[d] == DirAt(v, d)
  }

  lemma RepFat(fs: Fs, v: Vol, fat: seq<u16>)
    requires Rep(fs, v)
    ensures Rep(fs.(fat := fat), v.(fat := fat))
  {
    assert forall d :: d in fs.tab ==> RepDir(fs, v, d);
  }

  lemma RepGrow(fs: Fs, v: Vol, p: Pos, c: nat)
    requires Rep(fs, v) && p in fs.own && fs.own[p] != [] && fs.own[p][|fs.own[p]| - 1] < |fs.fat|
    requires c < |fs.fat| && c < 65536
    ensures Grow(fs, p, c).g == fs.g
    ensures Rep(Grow(fs, p, c), v.(fat := v.fat[c := 0xFFFF][fs.own[p][|fs.own[p]| - 1] := c]))
  {
    assert forall d :: d in fs.tab ==> RepDir(fs, v, d);
  }

  lemma RepPut(fs: Fs, v: Vol, p: Pos, b: seq<byte>)
    requires Rep(fs, v) && fs.HasSlot(p) && |b| == 32
    ensures p.0 < |v.data| && p.1 < |v.Dir(p.0)| / 32 && Rep(fs.Put(p, Decode(b)), VolPut(v, p.0, p.1, b))
  {
    assert RepDir(fs, v, p.0);
    EntriesPut(v.Dir(p.0), p.1, b);
    var fs', v' := fs.Put(p, Decode(b)), VolPut(v, p.0, p.1, b);
    forall d | d in fs'.tab
      ensures RepDir(fs', v', d)
    {
      assert RepDir(fs, v, d);
    }
  }

  lemma RepPutEntry(fs: Fs, v: Vol, p: Pos, e: Entry)
    requires Rep(fs, v) && fs.HasSlot(p)
    ensures p.0 < |v.data| && p.1 < |v.Dir(p.0)| / 32 && Rep(fs.Put(p, e), VolPut(v, p.0, p.1, Encode(e)))
  {
    hide Rep, Encode, Decode, VolPut;
    DecodeEncode(e);
    RepPut(fs, v, p, Encode(e));
  }

  lemma RepData(fs: Fs, v: Vol, c: nat, bytes: seq<byte>)
    requires Rep(fs, v) && 2 <= c < |fs.data| && c !in fs.tab
    ensures Rep(SetData(fs, c, bytes), v.(data := v.data[c := bytes]))
  {
    var fs', v' := SetData(fs, c, bytes), v.(data := v.data[c := bytes]);
    forall d | d in fs'.tab
      ensures RepDir(fs', v', d)
    {
      assert RepDir(fs, v, d);
    }
  }

  /** A cluster whose bytes are the slots of a directory can be taken into the tree as one. */
  lemma RepNewDir(fs: Fs, v: Vol, c: nat, data: seq<seq<byte>>)
    requires Rep(fs, v) && 2 <= c < |fs.data| && c !in fs.tab
    requires |data| == |fs.data| && forall x :: 0 <= x < |data| && x != c ==> data[x] == fs.data[x]
    ensures Rep(fs.(tab := fs.tab[c := Entries(v.data[c])], data := data), v)
  {
    var fs' := fs.(tab := fs.tab[c := Entries(v.data[c])], data := data);
    forall d | d in fs'.tab
      ensures RepDir(fs', v, d)
    {
      assert d != c ==> RepDir(fs, v, d);
    }
  }

  lemma RepForget(fs: Fs, v: Vol, c: nat)
    requires Rep(fs, v) && c in fs.tab && c != 0 && |v.data[c]| % 32 == 0
    ensures Rep(fs.(tab := fs.tab - {c}, data := fs.data[c := Flat(fs.tab[c])]), v)
  {
    hide Entries, Flat;
    assert RepDir(fs, v, c);
    FlatEntries(v.data[c]);
    var fs' := fs.(tab := fs.tab - {c}, data := fs.data[c := Flat(fs.tab[c])]);
    forall d | d in fs'.tab
      ensures RepDir(fs', v, d)
    {
      assert RepDir(fs, v, d);
    }
  }

  // ---- What the create calls do ----------------------------------------------------------------------

  /** The slots write_dir_entry sees in cluster d, whether or not a directory lives there. */
  ghost function SlotsAt(fs: Fs, d: nat): Dir
    requires d < |fs.data|
  {
    if d in fs.tab then fs.tab[d] else Entries(fs.data[d])
  }

  /** The cluster allocate_cluster takes, or 0. */
  ghost function NextFree(fs: Fs): u16
    requires fs.g.ScansFit() && fs.g.limit <= |fs.fat|
  {
    var r := Taken(fs.fat, fs.g.MountScan(), NotSupported);
    if r.Ok? then r.value else 0
  }

  /** The checks up to and including the allocation pass: a cluster has been claimed. */
  ghost predicate Claims(fs: Fs, path: seq<byte>, maxName: nat)
    requires fs.g.ScansFit() && fs.g.limit <= |fs.fat|
  {
    && |SplitPath(path).1| <= maxName
    && Resolve(fs.tab, 0, Components(path)).Err?
    && Taken(fs.fat, fs.g.MountScan(), NotSupported).Ok?
  }

  /** The checks of create_file and create_dir, in their order; the parent's cluster when all pass. */
  ghost function CreateOutcome(fs: Fs, path: seq<byte>, maxName: nat): Result<nat>
    requires fs.g.ScansFit() && fs.g.limit <= |fs.fat|
  {
    var (parent, name) := SplitPath(path);
    var cluster := Taken(fs.fat, fs.g.MountScan(), NotSupported);
    var d := ParentCluster(fs.tab, parent);
    if |name| > maxName then Err(InvalidName)
    else if Resolve(fs.tab, 0, Components(path)).Ok? then Err(AlreadyExists)
    else if cluster.Err? then Err(cluster.error)
    else if d.Err? then d
    else if d.value >= |fs.data| then Err(IOError)
    else if FirstUsable(SlotsAt(fs, d.value), 0) == |SlotsAt(fs, d.value)| then Err(NotSupported)
    else d
  }

  /** A failed create leaves the volume alone, or loses the cluster it had claimed. */
  ghost function CreateFailed(fs: Fs, path: seq<byte>, maxName: nat): Fs
    requires fs.g.ScansFit() && fs.g.limit <= |fs.fat|
  {
    if Claims(fs, path, maxName) then Leak(fs, NextFree(fs)) else fs
  }

  function FileEntry(path: seq<byte>, cluster: u16): Entry {
    var (base, ext) := SplitName(SplitPath(path).1);
    NewFile(base, ext, cluster)
  }

  /** The step of a successful create, when the parent cluster d holds a directory. */
  ghost function CreateStep(fs: Fs, d: nat, e: Entry, slots: Dir): Step
    requires d in fs.tab
  {
    Create((d, FirstUsable(fs.tab[d], 0)), e, slots)
  }

  /** The result of a create whose parent is a file: the entry overwrites 32 bytes of that file. */
  ghost function Misplaced(fs: Fs, d: nat, e: Entry): Fs
    requires d < |fs.data| && d !in fs.tab && FirstUsable(SlotsAt(fs, d), 0) < |SlotsAt(fs, d)|
  {
    SetData(fs, d, Splice(fs.data[d], 32 * FirstUsable(SlotsAt(fs, d), 0), Encode(e)))
  }

  /**
   * A successful create that found the volume as was and had made it mid: a step of the run if the
   * parent is a directory; only a lost cluster if the new entry does not read as live; damage to a file
   * if the parent is one.
   */
  ghost predicate Created(was: Fs, mid: Fs, now: Fs, d: nat, e: Entry, slots: Dir)
    requires Inv(was)
  {
    if d in was.tab && IsLive(e) then
      Enabled(was, CreateStep(was, d, e, slots)) && now == Apply(was, CreateStep(was, d, e, slots))
    else if d in was.tab then
      && mid.HasSlot((d, FirstUsable(was.tab[d], 0)))
      && now == mid.Put((d, FirstUsable(was.tab[d], 0)), e)
    else
      && d < |mid.data| && d !in mid.tab
      && FirstUsable(SlotsAt(mid, d), 0) < |SlotsAt(mid, d)|
      && now == Misplaced(mid, d, e)
  }

  /** The new entry does not read as a never-used slot in front of used ones. */
  ghost predicate Tidied(was: Fs, d: nat, e: Entry) {
    d in was.tab ==> StaysTidy(was.tab[d], FirstUsable(was.tab[d], 0), e)
  }

  function DirEntryFor(path: seq<byte>, cluster: u16): Entry {
    NewDirectory(SplitPath(path).1, cluster)
  }

  /** A failed create_dir: as above, and once the parent is known the lost cluster has been initialised. */
  ghost function CreateDirFailed(fs: Fs, path: seq<byte>): Fs
    requires fs.g.ScansFit() && fs.g.limit <= |fs.fat| == |fs.data| && 64 <= fs.g.ClusterSize()
  {
    var d := ParentCluster(fs.tab, SplitPath(path).0);
    if Claims(fs, path, 8) && d.Ok? && d.value < 65536 then Initialised(fs, NextFree(fs), d.value)
    else CreateFailed(fs, path, 8)
  }

  /** All outcomes of create_file. */
  ghost predicate FileCreate(was: Fs, now: Fs, path: seq<byte>, r: Result<()>)
    requires Inv(was) && was.g.ScansFit()
  {
    DataSize(was, 0);
    var d := CreateOutcome(was, path, 12);
    if d.Err? then r == Err(d.error) && now == CreateFailed(was, path, 12)
    else r == Ok(()) && Created(was, Leak(was, NextFree(was)), now, d.value, FileEntry(path, NextFree(was)), [])
  }

  /** Nothing is hidden by the entry that a successful create_file, or create_dir, writes. */
  ghost predicate FileTidy(was: Fs, path: seq<byte>)
    requires Inv(was) && was.g.ScansFit()
  {
    DataSize(was, 0);
    var d := CreateOutcome(was, path, 12);
    d.Ok? ==> Tidied(was, d.value, FileEntry(path, NextFree(was)))
  }

  ghost predicate DirTidy(was: Fs, path: seq<byte>)
    requires Inv(was) && was.g.ScansFit()
  {
    DataSize(was, 0);
    var d := CreateOutcome(was, path, 8);
    d.Ok? ==> Tidied(was, d.value, DirEntryFor(path, NextFree(was)))
  }

  /** All outcomes of create_dir. */
  ghost predicate DirCreate(was: Fs, now: Fs, path: seq<byte>, r: Result<()>)
    requires Inv(was) && was.g.ScansFit()
  {
    DataSize(was, 0);
    SpcPositive(was);
    var d := CreateOutcome(was, path, 8);
    if d.Err? then r == Err(d.error) && now == CreateDirFailed(was, path)
    else
      && r == Ok(()) && d.value < 65536
      && var c := NextFree(was);
         Created(was, Initialised(was, c, d.value), now, d.value, DirEntryFor(path, c),
                 Entries(DirImage(c, d.value, was.g.ClusterSize())))
  }

  ghost function Filled(v: Vol, c: nat, image: seq<byte>): Vol
    requires c < |v.data|
  {
    v.(data := v.data[c := image])
  }

  /** The volume after write_dir_entry found a slot in cluster d. */
  ghost predicate EntryOnDisk(before: Vol, after: Vol, d: nat, e: Entry) {
    && d < |before.data| && FirstUsable(DirAt(before, d), 0) < |DirAt(before, d)|
    && after == VolPut(before, d, FirstUsable(DirAt(before, d), 0), Encode(e))
  }

  /** The sectors of the volume after a successful create_file, whatever its name reads as. */
  ghost predicate FileOnDisk(was: Fs, before: Vol, after: Vol, path: seq<byte>)
    requires Inv(was) && was.g.ScansFit()
  {
    DataSize(was, 0);
    var c := NextFree(was);
    && CreateOutcome(was, path, 12).Ok? && c < |before.fat|
    && EntryOnDisk(Claimed(before, Ok(c)), after, CreateOutcome(was, path, 12).value, FileEntry(path, c))
  }

  /** The same for create_dir, which has initialised the new cluster before. */
  ghost predicate DirOnDisk(was: Fs, before: Vol, after: Vol, path: seq<byte>)
    requires Inv(was) && was.g.ScansFit()
  {
    DataSize(was, 0);
    SpcPositive(was);
    var c := NextFree(was);
    var d := CreateOutcome(was, path, 8);
    && d.Ok? && d.value < 65536 && c < |before.fat| && c < |before.data|
    && var image := DirImage(c, d.value, was.g.ClusterSize());
       EntryOnDisk(Filled(Claimed(before, Ok(c)), c, image), after, d.value, DirEntryFor(path, c))
  }

  function RenamedEntry(e: Entry, to: seq<byte>): Entry {
    var (base, ext) := SplitName(SplitPath(to).1);
    Renamed(e, base, ext)
  }

  /** The checks of rename, in their order; the destination directory when all pass. */
  ghost function RenameOutcome(fs: Fs, from: seq<byte>, to: seq<byte>): Result<nat> {
    var src := Resolve(fs.tab, 0, Components(from));
    var d := ParentCluster(fs.tab, SplitPath(to).0);
    if src.Err? then Err(src.error)
    else if Resolve(fs.tab, 0, Components(to)).Ok? then Err(AlreadyExists)
    else if d.Err? then d
    else if d.value >= |fs.data| then Err(IOError)
    else if FirstUsable(SlotsAt(fs, d.value), 0) == |SlotsAt(fs, d.value)| then Err(NotSupported)
    else d
  }

  /** The path leads to an entry with a chain of its own, not to a dot entry. */
  ghost predicate OwnedBy(fs: Fs, path: seq<byte>) {
    var p := Resolve(fs.tab, 0, Components(path));
    p.Ok? && p.value in fs.own
  }

  /** What a rename that passes its checks writes, wherever its destination is. */
  ghost predicate RenamedOnDisk(was: Fs, before: Vol, after: Vol, from: seq<byte>, to: seq<byte>) {
    var src := Resolve(was.tab, 0, Components(from));
    var d := RenameOutcome(was, from, to);
    && src.Ok? && was.HasSlot(src.value) && d.Ok? && d.value < |was.data| && DirCluster(was.g, d.value)
    && MovedOnDisk(before, after, src.value, d.value, FirstUsable(SlotsAt(was, d.value), 0),
                   RenamedEntry(was.At(src.value), to))
  }

  /**
   * All outcomes of rename on the tree; nothing is promised when the destination's parent is a file, or the
   * source is a dot entry.
   */
  ghost predicate RenameDone(was: Fs, now: Fs, from: seq<byte>, to: seq<byte>, r: Result<()>)
    requires Inv(was)
  {
    var src := Resolve(was.tab, 0, Components(from));
    var d := RenameOutcome(was, from, to);
    if d.Err? then r == Err(d.error) && now == was
    else
      && r == Ok(())
      && (d.value in was.tab && src.value in was.own ==>
            var s := Rename(src.value, (d.value, FirstUsable(was.tab[d.value], 0)), RenamedEntry(was.At(src.value), to));
            Enabled(was, s) && now == Apply(was, s))
  }

  /** The chain that cluster c belongs to. */
  ghost function ChainAt(fs: Fs, c: nat): seq<nat> {
    if c in fs.who && fs.who[c].0 in fs.own then fs.own[fs.who[c].0] else []
  }

  /** The sectors of the volume after remove_entry, whatever becomes of the tree. */
  ghost predicate RemovedOnDisk(before: Vol, after: Vol, p: Pos, ch: seq<nat>) {
    p.0 < |before.data| && p.1 < |before.Dir(p.0)| / 32 && after == Removed(before, p, ch)
  }

  /** The sectors of the volume after rename: the new entry in its slot, then the mark on the old one. */
  ghost predicate MovedOnDisk(before: Vol, after: Vol, src: Pos, d: nat, i: nat, entry: Entry) {
    && d < |before.data| && i < |before.Dir(d)| / 32
    && var mid := VolPut(before, d, i, Encode(entry));
       && src.0 < |mid.data| && src.1 < |mid.Dir(src.0)| / 32
       && after == VolPut(mid, src.0, src.1, Splice(SlotBytes(mid, src.0, src.1), 0, [DELETED]))
  }

  /** The FAT and the slot after remove_entry. */
  ghost function Removed(v: Vol, p: Pos, ch: seq<nat>): Vol
    requires p.0 < |v.data| && p.1 < |v.Dir(p.0)| / 32
  {
    VolPut(v, p.0, p.1, Splice(SlotBytes(v, p.0, p.1), 0, [DELETED])).(fat := Cleared(v.fat, ch))
  }

  /** After init_directory and before write_dir_entry: cluster c is claimed and holds slots. */
  ghost function Initialised(fs: Fs, c: u16, parent: nat): Fs
    requires c < |fs.fat| && c < |fs.data| && parent < 65536 && 64 <= fs.g.ClusterSize()
  {
    SetData(Leak(fs, c), c, DirImage(c, parent, fs.g.ClusterSize()))
  }

  class Fat16 {
    const device: BlockDevice
    const g: Geometry
    ghost var fs: Fs
    // The boot sector and the size of the device, which no call changes.
    ghost const boot: seq<byte>
    ghost const blocks: nat

    ghost predicate Valid()
      reads this, device
    {
      && Mounted(device, g) && g.ScansFit()
      && View(device, g).boot == boot && View(device, g).blocks == blocks
      && fs.g == g && Rep(fs, View(device, g)) && Inv(fs)
    }

    /** A driver for a mounted device whose volume means fs. */
    constructor (device: BlockDevice, g: Geometry, ghost fs: Fs)
      requires Mounted(device, g) && g.ScansFit() && fs.g == g && Rep(fs, View(device, g)) && Inv(fs)
      ensures Valid() && this.device == device && this.g == g && this.fs == fs
    {
      this.device := device;
      this.g := g;
      this.fs := fs;
      this.boot, this.blocks := View(device, g).boot, View(device, g).blocks;
    }

    /** find_entry. */
    method FindEntry(path: seq<byte>) returns (r: Result<(Entry, nat)>, ghost p: Pos)
      requires Valid() && Walks(fs, Components(path))
      ensures var found := Resolve(fs.tab, 0, Components(path));
              if found.Err? then r == Err(found.error)
              else
                && Settled(fs, found.value) && (LastPlain(Components(path)) ==> found.value in fs.own)
                && fs.HasSlot(found.value) && DirCluster(g, found.value.0)
                && r == Ok((fs.At(found.value), SlotPos(g, found.value.0, found.value.1))) && p == found.value
    {
      hide Inv, Rep, View, Geometry.WellFormed, Geometry.ScansFit, Lookup, GetName, SlotPos, Components, Settled, LastPlain,
           DotsLeadOn, Mounted, IsDirectory, Named;
      var names := Components(path);
      p := (0, 0);
      if names == [] {
        r := Err(InvalidName);
        return;
      }
      RootIsDir(fs);
      ResolveOwner(fs, 0, names);
      var dir, i := 0, 0;
      while i < |names| - 1
        invariant 0 <= i < |names| && dir in fs.tab
        invariant Resolve(fs.tab, 0, names) == Resolve(fs.tab, dir, names[i..])
      {
        var found := Find(dir, names[i]);
        if found.Err? {
          r := Err(found.error);
          return;
        }
        if !IsDirectory(found.value.0) {
          r := Err(NotFound);
          return;
        }
        assert Plain(names) ==> !IsDotName(names[i]);
        SubdirIsDir(fs, dir, names[i]);
        dir := found.value.0.cluster;
        assert names[i..][1..] == names[i + 1..];
        i := i + 1;
      }
      r := Find(dir, names[i]);
      p := (dir, Lookup(fs.tab[dir], names[i], 0));
      DirInRange(fs, dir);
    }

    /** find_entry_in_dir on a directory of the tree: the early break finds what a full scan finds. */
    method Find(d: nat, name: seq<byte>) returns (r: Result<(Entry, nat)>)
      requires Valid() && d in fs.tab
      ensures d == 0 || 2 <= d
      ensures var i := Lookup(fs.tab[d], name, 0);
              r == if i < |fs.tab[d]| then Ok((fs.tab[d][i], SlotPos(g, d, i))) else Err(NotFound)
    {
      hide View, Geometry.WellFormed, Geometry.ScansFit, SlotPos, EarlyFind, Lookup, Named, Apart, Owners, EntriesOk;
      assert DirOk(fs, d) && RepDir(fs, View(device, g), d);
      r := FindEntryInDir(device, g, d, name);
      EarlyFindIsLookup(fs.tab[d], name, 0);
    }

    /** The cluster of the parent directory of a new entry. */
    method FindParent(parent: seq<byte>) returns (r: Result<nat>)
      requires Valid() && Walks(fs, Components(parent))
      ensures r == ParentCluster(fs.tab, parent)
      ensures r.Ok? ==> DirCluster(g, r.value) && (r.value in fs.tab || r.value in fs.who)
    {
      hide Inv, Rep, View, Geometry.WellFormed, Geometry.ScansFit, SlotPos;
      if parent == [] || parent == [SLASH] {
        RootIsDir(fs);
        DirInRange(fs, 0);
        return Ok(0);
      }
      var found, p := FindEntry(parent);
      if found.Err? {
        return Err(found.error);
      }
      SettledInRange(fs, p);
      return Ok(found.value.0.cluster);
    }

    /** allocate_cluster on the mounted volume: until an entry names it, the cluster is lost. */
    method Claim() returns (r: Result<u16>)
      requires Valid()
      modifies this, device
      ensures Valid() && r == Taken(old(fs).fat, g.MountScan(), NotSupported)
      ensures LowestFree(old(fs).fat, g, r)
      ensures r.Ok? ==> 2 <= r.value < |old(fs).fat| && old(fs).fat[r.value] == 0
      ensures fs == if r.Ok? then Leak(old(fs), r.value) else old(fs)
      ensures View(device, g) == Claimed(old(View(device, g)), r)
      ensures old(Synced()) ==> Synced()
    {
      hide Inv, View, Geometry.WellFormed, RepDir, Mirrored, Taken, Geometry.MountScan, LowestFree;
      ghost var v := View(device, g);
      r := AllocateCluster(device, g);
      if r.Ok? {
        TakenFree(fs, g.MountScan());
        LeakInv(fs, r.value);
        RepFat(fs, v, fs.fat[r.value := 0xFFFF]);
        fs := Leak(fs, r.value);
      }
    }

    /**
     * The write_dir_entry at the end of a create. The volume was `was` before cluster e.cluster was
     * claimed; a new directory's cluster already holds its slots.
     */
    method Place(ghost was: Fs, ghost slots: Dir, d: nat, e: Entry) returns (r: Result<()>)
      requires Valid() && DirCluster(g, d) && Inv(was)
      requires 2 <= e.cluster < |was.fat| && was.fat[e.cluster] == 0 && e.cluster != d
      requires fs == Leak(was, e.cluster).(data := fs.data)
      requires |fs.data| == |was.data| && forall x :: 0 <= x < |fs.data| && x != e.cluster ==> fs.data[x] == was.data[x]
      requires if IsDirectory(e) then e.cluster < |fs.data| && slots == Entries(fs.data[e.cluster]) && FreshDir(slots, g.spc)
               else e.size == 0 && fs.data == was.data
      modifies this, device
      ensures Mounted(device, g) && d < |was.data|
      ensures if FirstUsable(SlotsAt(was, d), 0) == |SlotsAt(was, d)| then r == Err(NotSupported) && fs == old(fs) && Valid()
              else
                && r == Ok(()) && EntryOnDisk(old(View(device, g)), View(device, g), d, e)
                && (Tidied(was, d, e) ==> Valid() && Created(was, old(fs), fs, d, e, slots))
      ensures old(Synced()) ==> Synced()
    {
      hide Inv, View, Geometry.WellFormed, Rep, FirstUsable, Encode, Entries, VolPut, Mirrored, FreshDir;
      ghost var v := View(device, g);
      RootIsDir(fs);
      DataSize(fs, d);
      SlotsAtIs(fs, v, d);
      ghost var before := device.blocks;
      r := WriteDirEntry(device, g, d, e);
      SyncedSame(before);
      if r.Ok? && Tidied(was, d, e) {
        ghost var i := FirstUsable(SlotsAt(was, d), 0);
        if d in was.tab && IsLive(e) {
          FreeNotDir(was, e.cluster);
          AddInv(was, (d, i), e, slots);
          RepAdd(was, fs, v, (d, i), e, slots);
          fs := Add(was, (d, i), e, slots);
        } else if d in was.tab {
          PutDeadInv(fs, (d, i), e);
          RepPutEntry(fs, v, (d, i), e);
          fs := fs.Put((d, i), e);
        } else {
          MisplacedOk(fs, v, d, e);
          fs := Misplaced(fs, d, e);
        }
      }
    }

    /** The two FAT copies agree, if there are two. */
    ghost predicate Synced()
      reads this, device
    {
      g.fatCount > 1 ==> Mirrored(device.blocks, g)
    }

    lemma SyncedSame(before: Disk)
      requires Mounted(device, g) && SameFats(before, device.blocks, g)
      ensures (g.fatCount > 1 ==> Mirrored(before, g)) ==> Synced()
    {
      if g.fatCount > 1 {
        MirroredSame(before, device.blocks, g);
      }
    }

    /** The common front of create_file and create_dir: all checks but the one for a free slot. */
    method ClaimFor(path: seq<byte>, maxName: nat) returns (r: Result<(u16, nat)>)
      requires Valid() && Walks(fs, Components(path))
      modifies this, device
      ensures Valid() && |old(fs).fat| == g.limit
      ensures if r.Err? then
                && CreateOutcome(old(fs), path, maxName) == Err(r.error) && fs == CreateFailed(old(fs), path, maxName)
                && !(Claims(old(fs), path, maxName) && ParentCluster(old(fs).tab, SplitPath(path).0).Ok?)
              else
                && Claims(old(fs), path, maxName) && ParentCluster(old(fs).tab, SplitPath(path).0) == Ok(r.value.1)
                && r.value.0 == NextFree(old(fs)) && fs == Leak(old(fs), r.value.0)
                && DirCluster(g, r.value.1) && r.value.0 != r.value.1
                && View(device, g) == Claimed(old(View(device, g)), Ok(r.value.0))
      ensures old(Synced()) ==> Synced()
    {
      hide Synced, Inv, Rep, View, Geometry.WellFormed, Geometry.ScansFit, SlotPos, Geometry.MountScan, Taken,
           FirstUsable, Resolve, Components, RFind, SlotsAt;
      DataSize(fs, 0);
      var (parent, name) := SplitPath(path);
      if |name| > maxName {
        return Err(InvalidName);
      }
      PathComponents(path);
      var found, p := FindEntry(path);
      if found.Ok? {
        return Err(AlreadyExists);
      }
      ghost var was := fs;
      var cluster :- Claim();
      FreeNotDir(was, cluster);
      var d :- FindParent(parent);
      return Ok((cluster, d));
    }

    /**
     * create_file. A name that is stored with the first byte of a free or deleted slot is written like any
     * other, and is not there afterwards; it may even hide the slots behind it.
     */
    method CreateFile(path: seq<byte>) returns (r: Result<()>)
      requires Valid() && Walks(fs, Components(path))
      modifies this, device
      ensures FileTidy(old(fs), path) ==> Valid() && FileCreate(old(fs), fs, path, r)
      ensures !FileTidy(old(fs), path) ==> r.Ok?
      ensures r.Ok? ==> Mounted(device, g) && FileOnDisk(old(fs), old(View(device, g)), View(device, g), path)
      ensures old(Synced()) ==> Synced()
    {
      hide Inv, Rep, View, Geometry.WellFormed, Geometry.ScansFit, Geometry.MountScan, Taken, FirstUsable, Resolve,
           Components, FileEntry, Created, SlotsAt, NextFree, Synced, EntryOnDisk, Claimed, IsLive, SplitPath,
           ParentCluster;
      DataSize(fs, 0);
      ghost var was := fs;
      ClaimedIsFree(fs, path, 12);
      var claimed :- ClaimFor(path, 12);
      FileEntryIs(path, claimed.0);
      r := Place(was, [], claimed.1, FileEntry(path, claimed.0));
    }

    /** init_directory: the new cluster gets its dot entries before anything names it. */
    method InitDirectory(c: u16, parent: u16)
      requires Valid() && 2 <= c < g.limit && c !in fs.tab
      modifies this, device
      ensures Valid() && 64 <= g.ClusterSize() && |old(fs).data| == g.limit
      ensures fs == SetData(old(fs), c, DirImage(c, parent, g.ClusterSize()))
      ensures c < |old(View(device, g)).data|
      ensures View(device, g) == Filled(old(View(device, g)), c, DirImage(c, parent, g.ClusterSize()))
      ensures old(Synced()) ==> Synced()
    {
      hide Inv, View, Geometry.WellFormed, Rep, DirImage, Mirrored;
      DataSize(fs, c);
      SpcPositive(fs);
      ghost var v, before := View(device, g), device.blocks;
      var image := DirImage(c, parent, g.ClusterSize());
      var r := WriteCluster(device, g, c, image);
      SyncedSame(before);
      SetDataInv(fs, c, image);
      RepData(fs, v, c, image);
      fs := SetData(fs, c, image);
    }

    /** The end of create_dir: cluster c is claimed, and d is the parent's cluster. */
    method PlaceDir(ghost was: Fs, path: seq<byte>, c: u16, d: u16) returns (r: Result<()>)
      requires Valid() && Inv(was) && DirCluster(g, d) && c != d
      requires 2 <= c < |was.fat| == g.limit && was.fat[c] == 0 && fs == Leak(was, c)
      modifies this, device
      ensures Mounted(device, g) && 64 <= g.ClusterSize() && |was.data| == g.limit && d < |was.data|
      ensures if FirstUsable(SlotsAt(was, d), 0) == |SlotsAt(was, d)| then
                r == Err(NotSupported) && fs == Initialised(was, c, d) && Valid()
              else
                && r == Ok(()) && c < |old(View(device, g)).data|
                && EntryOnDisk(Filled(old(View(device, g)), c, DirImage(c, d, g.ClusterSize())), View(device, g),
                               d, DirEntryFor(path, c))
                && (Tidied(was, d, DirEntryFor(path, c)) ==>
                      && Valid()
                      && Created(was, Initialised(was, c, d), fs, d, DirEntryFor(path, c),
                                 Entries(DirImage(c, d, g.ClusterSize()))))
      ensures old(Synced()) ==> Synced()
    {
      hide Inv, Rep, View, Geometry.WellFormed, Geometry.ScansFit, FirstUsable, DirEntryFor, Created, SlotsAt, Synced,
           DirImage, Entries, FreshDir;
      DataSize(was, 0);
      SpcPositive(was);
      FreeNotDir(was, c);
      InitDirectory(c, d);
      DirEntryIs(path, c);
      DirImageFresh(c, d, g.spc);
      ghost var slots := Entries(DirImage(c, d, g.ClusterSize()));
      r := Place(was, slots, d, DirEntryFor(path, c));
    }

    method CreateDir(path: seq<byte>) returns (r: Result<()>)
      requires Valid() && Walks(fs, Components(path))
      modifies this, device
      ensures DirTidy(old(fs), path) ==> Valid() && DirCreate(old(fs), fs, path, r)
      ensures !DirTidy(old(fs), path) ==> r.Ok?
      ensures r.Ok? ==> Mounted(device, g) && DirOnDisk(old(fs), old(View(device, g)), View(device, g), path)
      ensures old(Synced()) ==> Synced()
    {
      hide Inv, Rep, View, Geometry.WellFormed, Geometry.ScansFit, Geometry.MountScan, Taken, FirstUsable, Resolve,
           Components, DirEntryFor, Created, SlotsAt, NextFree, Synced, DirImage, Entries, Initialised, EntryOnDisk,
           Claimed, Filled, IsLive, SplitPath;
      DataSize(fs, 0);
      SpcPositive(fs);
      ghost var was := fs;
      ClaimedIsFree(fs, path, 8);
      var claimed :- ClaimFor(path, 8);
      r := PlaceDir(was, path, claimed.0, claimed.1);
    }

    /** The loop of remove_entry: follows the chain to its end and frees every cluster on the way. */
    method FreeChain(start: u16, ghost ch: seq<nat>)
      requires Mounted(device, g) && g.limit <= END_OF_CHAIN
      requires ch != [] && IsChain(View(device, g).fat, ch) && NoDup(ch) && ch[0] == start
      modifies device
      ensures Mounted(device, g)
      ensures View(device, g) == old(View(device, g)).(fat := Cleared(old(View(device, g)).fat, ch))
      ensures old(Synced()) ==> Synced()
    {
      hide View, Geometry.WellFormed, Cleared, Mirrored, IsChain;
      ghost var v := View(device, g);
      ghost var k := 0;
      assert Cleared(v.fat, ch[..0]) == v.fat;
      ChainNext(v.fat, ch, 0);
      var cluster := start;
      var read := ReadFatEntry(device, g, cluster);
      while read.value < END_OF_CHAIN
        invariant Mounted(device, g) && 0 <= k < |ch| && cluster == ch[k] && ch[k] < g.limit
        invariant View(device, g) == v.(fat := Cleared(v.fat, ch[..k]))
        invariant read == Ok(v.fat[cluster])
        invariant old(Synced()) ==> Synced()
        decreases |ch| - k
      {
        ChainNext(v.fat, ch, k);
        ClearedNext(v.fat, ch, k);
        var next := read.value;
        var _ := WriteFatEntry(device, g, cluster, 0);
        cluster, k := next, k + 1;
        ChainNext(v.fat, ch, k);
        ClearedNext(v.fat, ch, k);
        read := ReadFatEntry(device, g, cluster);
      }
      ChainNext(v.fat, ch, k);
      ClearedNext(v.fat, ch, k);
      assert ch[..k + 1] == ch;
      var _ := WriteFatEntry(device, g, cluster, 0);
    }

    /**
     * remove_entry. Removing a directory that still has entries would orphan their chains; removing a dot
     * entry frees the cluster of a directory that is still there.
     */
    method RemoveEntry(path: seq<byte>, isDir: bool) returns (r: Result<()>)
      requires Valid() && Walks(fs, Components(path))
      requires var p := Resolve(fs.tab, 0, Components(path)); isDir && p.Ok? ==> fs.At(p.value).cluster != 0
      modifies this, device
      ensures var p := Resolve(old(fs).tab, 0, Components(path));
              if p.Err? then r == Err(p.error) && fs == old(fs) && Valid()
              else if IsDirectory(old(fs).At(p.value)) != isDir then r == Err(NotSupported) && fs == old(fs) && Valid()
              else
                && r == Ok(()) && (CanDrop(old(fs), p.value) ==> Valid() && fs == Drop(old(fs), p.value))
                && Mounted(device, g)
                && RemovedOnDisk(old(View(device, g)), View(device, g), p.value, ChainAt(old(fs), old(fs).At(p.value).cluster))
      ensures old(Synced()) ==> Synced()
    {
      hide Inv, Rep, View, Geometry.WellFormed, Geometry.ScansFit, Resolve, Components, SlotPos, Mirrored, Drop,
           CanDrop;
      var found, p := FindEntry(path);
      if found.Err? {
        return Err(found.error);
      }
      var (entry, pos) := found.value;
      if IsDirectory(entry) != isDir {
        return Err(NotSupported);
      }
      SettledChain(fs, p);
      DropOnDisk(p, entry, pos);
      return Ok(());
    }

    /** The writes of remove_entry: the entry is marked deleted, then the chain it names is freed. */
    method EraseOnDisk(ghost p: Pos, entry: Entry, pos: nat)
      requires Valid() && Settled(fs, p) && fs.HasSlot(p) && DirCluster(g, p.0) && fs.At(p).cluster in fs.who
      requires entry == fs.At(p) && pos == SlotPos(g, p.0, p.1)
      modifies device
      ensures Mounted(device, g)
      ensures RemovedOnDisk(old(View(device, g)), View(device, g), p, ChainAt(fs, fs.At(p).cluster))
      ensures old(Synced()) ==> Synced()
    {
      hide Inv, Rep, View, Geometry.WellFormed, Geometry.ScansFit, SlotPos, Mirrored, VolPut, Cleared, IsChain, ChainAt;
      ghost var v, before := View(device, g), device.blocks;
      SlotInRange(fs, p);
      var _ := PatchSlot(device, g, p.0, p.1, pos, 0, [DELETED]);
      SyncedSame(before);
      ChainToFree(fs, v, p);
      FreeChain(entry.cluster, ChainAt(fs, entry.cluster));
    }

    /** For a file or an empty directory those writes take the entry out of the tree. */
    method DropOnDisk(ghost p: Pos, entry: Entry, pos: nat)
      requires Valid() && Settled(fs, p) && fs.HasSlot(p) && DirCluster(g, p.0) && fs.At(p).cluster in fs.who
      requires entry == fs.At(p) && pos == SlotPos(g, p.0, p.1)
      modifies this, device
      ensures CanDrop(old(fs), p) ==> Valid() && fs == Drop(old(fs), p)
      ensures Mounted(device, g)
      ensures RemovedOnDisk(old(View(device, g)), View(device, g), p, ChainAt(old(fs), old(fs).At(p).cluster))
      ensures old(Synced()) ==> Synced()
    {
      hide Inv, Rep, View, Geometry.WellFormed, Geometry.ScansFit, SlotPos, Mirrored, RemovedOnDisk, Drop, CanDrop,
           EntryOk, ChainAt, Settled;
      ghost var v := View(device, g);
      if CanDrop(fs, p) {
        DropOwned(fs, p);
        HeadInRange(fs, p);
        SettledChain(fs, p);
        ViewSize(device, g, entry.cluster);
      }
      EraseOnDisk(p, entry, pos);
      if CanDrop(fs, p) {
        DropMeans(fs, v, View(device, g), p);
        fs := Drop(fs, p);
      }
    }

    method RemoveFile(path: seq<byte>) returns (r: Result<()>)
      requires Valid() && Walks(fs, Components(path))
      modifies this, device
      ensures Valid()
      ensures var p := Resolve(old(fs).tab, 0, Components(path));
              if p.Err? then r == Err(p.error) && fs == old(fs)
              else if IsDirectory(old(fs).At(p.value)) then r == Err(NotSupported) && fs == old(fs)
              else r == Ok(()) && CanDrop(old(fs), p.value) && fs == Drop(old(fs), p.value)
      ensures old(Synced()) ==> Synced()
    {
      hide Inv, Rep, View, Geometry.WellFormed, Geometry.ScansFit, Resolve, Components, Mirrored, IsChain, Drop;
      RootIsDir(fs);
      ResolveOwner(fs, 0, Components(path));
      ghost var p := Resolve(fs.tab, 0, Components(path));
      if p.Ok? && p.value in fs.own {
        DropReady(fs, p.value);
      }
      r := RemoveEntry(path, false);
    }

    /**
     * remove_dir. The emptiness test looks at one sector, so it may pass for a directory that has
     * entries in later sectors; only an empty directory is removed cleanly, and not by a path that ends in
     * a dot component. The test subtracts 2 from the cluster, which panics for the ".." of a directory in
     * the root: that entry names cluster 0.
     */
    method RemoveDir(path: seq<byte>) returns (r: Result<()>, panics: bool)
      requires Valid() && Walks(fs, Components(path))
      modifies this, device
      ensures var p := Resolve(old(fs).tab, 0, Components(path));
              panics <==> p.Ok? && IsDirectory(old(fs).At(p.value)) && old(fs).At(p.value).cluster == 0
      ensures panics ==> fs == old(fs) && Valid() && View(device, g) == old(View(device, g))
      ensures var p := Resolve(old(fs).tab, 0, Components(path));
              if p.Err? then r == Err(p.error) && fs == old(fs) && Valid()
              else if !IsDirectory(old(fs).At(p.value)) then r == Err(NotSupported) && fs == old(fs) && Valid()
              else if panics then true
              else
                var d := old(fs).At(p.value).cluster;
                && d in old(fs).tab && ENTRIES_PER_SECTOR <= |old(fs).tab[d]|
                && if !NoEntries(old(fs).tab[d][..ENTRIES_PER_SECTOR], 0) then
                     r == Err(DirectoryNotEmpty) && fs == old(fs) && Valid()
                   else
                     && r == Ok(())
                     && (EmptyDir(old(fs), d) && !IsDotSlot(p.value) ==>
                           Valid() && CanDrop(old(fs), p.value) && fs == Drop(old(fs), p.value))
                     && Mounted(device, g)
                     && RemovedOnDisk(old(View(device, g)), View(device, g), p.value, ChainAt(old(fs), d))
      ensures old(Synced()) ==> Synced()
    {
      hide Inv, Rep, View, Geometry.WellFormed, Geometry.ScansFit, Resolve, Components, Mirrored, IsChain, Drop, EmptyDir,
           NoEntries, SlotPos, ChainAt;
      panics := false;
      var found, p := FindEntry(path);
      if found.Err? {
        r := Err(found.error);
        return;
      }
      if !IsDirectory(found.value.0) {
        r := Err(NotSupported);
        return;
      }
      var d := found.value.0.cluster;
      if d == 0 {
        r, panics := Err(IOError), true;
        return;
      }
      SettledDir(fs, p);
      RepTabIs(fs, View(device, g), d);
      var empty := IsDirectoryEmpty(device, g, d);
      if !empty.value {
        r := Err(DirectoryNotEmpty);
        return;
      }
      r := RemoveEntry(path, true);
    }

    /** The checks of rename: the source entry, its position, and the destination directory and slot. */
    method RenameCheck(from: seq<byte>, to: seq<byte>) returns (r: Result<(Entry, nat, nat, nat)>, ghost src: Pos)
      requires Valid() && Walks(fs, Components(from)) && Walks(fs, Components(to))
      ensures if r.Err? then RenameOutcome(fs, from, to) == Err(r.error)
              else
                && Resolve(fs.tab, 0, Components(from)) == Ok(src) && Settled(fs, src) && fs.HasSlot(src)
                && DirCluster(g, src.0)
                && r.value.0 == fs.At(src) && r.value.1 == SlotPos(g, src.0, src.1)
                && RenameOutcome(fs, from, to) == Ok(r.value.2) && DirCluster(g, r.value.2) && r.value.2 < |fs.data|
                && |SlotsAt(fs, r.value.2)| == g.DirSectors(r.value.2) * ENTRIES_PER_SECTOR
                && r.value.3 == FirstUsable(SlotsAt(fs, r.value.2), 0) < |SlotsAt(fs, r.value.2)|
    {
      hide Inv, Rep, View, Geometry.WellFormed, Geometry.ScansFit, Resolve, Components, SlotPos, FirstUsable, SlotsAt,
           ParentCluster, SplitPath, Geometry.DirStart;
      DataSize(fs, 0);
      RootIsDir(fs);
      PathComponents(to);
      var found;
      found, src := FindEntry(from);
      if found.Err? {
        r := Err(found.error);
        return;
      }
      var target, _ := FindEntry(to);
      if target.Ok? {
        r := Err(AlreadyExists);
        return;
      }
      var d := FindParent(SplitPath(to).0);
      if d.Err? {
        r := Err(d.error);
        return;
      }
      var i := FreeSlot(d.value);
      if i == g.DirSectors(d.value) * ENTRIES_PER_SECTOR {
        r := Err(NotSupported);
        return;
      }
      r := Ok((found.value.0, found.value.1, d.value, i));
    }

    method FreeSlot(d: nat) returns (i: nat)
      requires Valid() && DirCluster(g, d)
      ensures d < |fs.data| && |SlotsAt(fs, d)| == g.DirSectors(d) * ENTRIES_PER_SECTOR
      ensures i == FirstUsable(SlotsAt(fs, d), 0)
    {
      hide Inv, Rep, View, Geometry.WellFormed, Geometry.ScansFit, FirstUsable, SlotsAt;
      DataSize(fs, 0);
      RootIsDir(fs);
      SlotsAtIs(fs, View(device, g), d);
      DirLength(device, g, d);
      var r := FindUsableSlot(device, g, d);
      i := r.value;
    }

    /** rename: the new entry is written first, then the old one is marked deleted. */
    method RenameEntry(from: seq<byte>, to: seq<byte>) returns (r: Result<()>)
      requires Valid() && Walks(fs, Components(from)) && Walks(fs, Components(to))
      modifies this, device
      ensures r.Err? || IsLive(FileEntry(to, 0)) ==> RenameDone(old(fs), fs, from, to, r)
      ensures var d := RenameOutcome(old(fs), from, to);
              d.Err? || (d.value in old(fs).tab && IsLive(FileEntry(to, 0)) && OwnedBy(old(fs), from)) ==> Valid()
      ensures r.Ok? ==> Mounted(device, g) && RenamedOnDisk(old(fs), old(View(device, g)), View(device, g), from, to)
      ensures old(Synced()) ==> Synced()
    {
      hide Inv, Rep, View, Geometry.WellFormed, Geometry.ScansFit, Resolve, Components, Mirrored, SlotPos,
           FirstUsable, RenamedEntry, FileEntry, RenameOutcome;
      var check, src := RenameCheck(from, to);
      if check.Err? {
        return Err(check.error);
      }
      var (entry, pos, d, i) := check.value;
      MoveOnDisk(src, pos, d, i, RenamedEntry(entry, to), to);
      return Ok(());
    }

    /** The two sector writes of rename. */
    method MoveOnDisk(ghost src: Pos, srcPos: nat, d: nat, i: nat, entry: Entry, ghost to: seq<byte>)
      requires Valid() && Settled(fs, src) && fs.HasSlot(src) && srcPos == SlotPos(g, src.0, src.1) && DirCluster(g, src.0)
      requires DirCluster(g, d) && d < |fs.data| && i == FirstUsable(SlotsAt(fs, d), 0) < g.DirSectors(d) * ENTRIES_PER_SECTOR
      requires |SlotsAt(fs, d)| == g.DirSectors(d) * ENTRIES_PER_SECTOR
      requires entry == RenamedEntry(fs.At(src), to)
      modifies this, device
      ensures d in old(fs).tab && src in old(fs).own && IsLive(FileEntry(to, 0)) ==>
                Valid() && CanMove(old(fs), src, (d, i), entry) && fs == Move(old(fs), src, (d, i), entry)
      ensures Mounted(device, g) && MovedOnDisk(old(View(device, g)), View(device, g), src, d, i, entry)
      ensures old(Synced()) ==> Synced()
    {
      hide Inv, Rep, View, Geometry.WellFormed, Mirrored, SlotPos, FirstUsable, RenamedEntry, FileEntry, Encode,
           VolPut, Move, Entries;
      SlotInRange(fs, src);
      ghost var v, before := View(device, g), device.blocks;
      DirLength(device, g, d);
      SpliceWhole(SlotBytes(v, d, i), Encode(entry));
      var _ := PatchSlot(device, g, d, i, SlotPos(g, d, i), 0, Encode(entry));
      SyncedSame(before);
      before := device.blocks;
      ghost var v1 := View(device, g);
      var _ := PatchSlot(device, g, src.0, src.1, srcPos, 0, [DELETED]);
      SyncedSame(before);
      if d in fs.tab && src in fs.own && IsLive(FileEntry(to, 0)) {
        MoveReady(fs, src, (d, i), entry, to);
        RepMove(fs, v, src, (d, i), entry);
        MoveInv(fs, src, (d, i), entry);
        fs := Move(fs, src, (d, i), entry);
      }
    }
  }

  lemma DirInRange(fs: Fs, d: nat)
    requires Inv(fs) && d in fs.tab
    ensures DirCluster(fs.g, d)
  {
    assert DirOk(fs, d);
    if d != 0 {
      assert EntryOk(fs, fs.who[d].0);
    }
  }

  lemma SubdirIsDir(fs: Fs, d: nat, name: seq<byte>)
    requires Inv(fs) && d in fs.tab && (IsDotName(name) ==> DotsLeadOn(fs))
    ensures var i := Lookup(fs.tab[d], name, 0);
            i < |fs.tab[d]| && IsDirectory(fs.tab[d][i]) ==> fs.tab[d][i].cluster in fs.tab
  {
    hide Inv, Lookup, DotsLeadOn, Settled;
    Found(fs, d, name);
    var i := Lookup(fs.tab[d], name, 0);
    if i < |fs.tab[d]| {
      ParentIsDir(fs, (d, i));
    }
  }

  lemma SettledInRange(fs: Fs, p: Pos)
    requires Inv(fs) && Settled(fs, p)
    ensures fs.HasSlot(p) && DirCluster(fs.g, fs.At(p).cluster)
    ensures fs.At(p).cluster in fs.tab || fs.At(p).cluster in fs.who
  {
    hide Inv;
    if p in fs.own {
      HeadInRange(fs, p);
    } else {
      DirInRange(fs, fs.At(p).cluster);
    }
  }

  lemma HeadInRange(fs: Fs, p: Pos)
    requires Inv(fs) && p in fs.own
    ensures fs.HasSlot(p) && 2 <= fs.At(p).cluster < fs.g.limit && fs.At(p).cluster in fs.who
  {
    assert EntryOk(fs, p);
    assert fs.who[fs.own[p][0]] == (p, 0);
  }

  lemma TakenFree(fs: Fs, end: u16)
    requires Inv(fs) && end <= fs.g.limit
    ensures |fs.fat| == fs.g.limit
    ensures var r := Taken(fs.fat, end, NotSupported); r.Ok? ==> 2 <= r.value < |fs.fat| && fs.fat[r.value] == 0
  {
  }

  /** What write_dir_entry sees of the volume. */
  lemma SlotsAtIs(fs: Fs, v: Vol, d: nat)
    requires Rep(fs, v) && d < |fs.data| && (d == 0 ==> 0 in fs.tab) && d != 1
    ensures d < |v.data| && DirAt(v, d) == SlotsAt(fs, d)
    ensures d !in fs.tab ==> v.data[d] == fs.data[d]
  {
    assert d in fs.tab ==> RepDir(fs, v, d);
  }

  lemma RepSame(fs: Fs, fs': Fs, v: Vol)
    requires Rep(fs, v) && fs'.fat == fs.fat && fs'.data == fs.data && fs'.tab == fs.tab
    ensures Rep(fs', v)
  {
    assert forall d :: d in fs.tab ==> RepDir(fs, v, d);
  }

  lemma DataSize(fs: Fs, c: nat)
    requires Inv(fs)
    ensures |fs.fat| == |fs.data| == fs.g.limit
    ensures 2 <= c < |fs.data| ==> |fs.data[c]| == fs.g.ClusterSize()
  {
  }

  lemma ClaimedIsFree(fs: Fs, path: seq<byte>, maxName: nat)
    requires fs.g.ScansFit() && fs.g.limit <= |fs.fat|
    ensures Claims(fs, path, maxName) ==> 2 <= NextFree(fs) < |fs.fat| && fs.fat[NextFree(fs)] == 0
    ensures CreateOutcome(fs, path, maxName).Ok? ==> Claims(fs, path, maxName)
  {
  }

  lemma FileEntryIs(path: seq<byte>, c: u16)
    ensures FileEntry(path, c) == FileEntry(path, 0).(cluster := c)
    ensures FileEntry(path, c).size == 0 && !IsDirectory(FileEntry(path, c))
    ensures IsLive(FileEntry(path, c)) == IsLive(FileEntry(path, 0))
  {
  }

  lemma RepAdd(was: Fs, fs: Fs, v: Vol, p: Pos, e: Entry, slots: Dir)
    requires Rep(fs, v) && was.HasSlot(p) && 2 <= e.cluster < |was.fat| && e.cluster !in was.tab && |was.fat| == |fs.data|
    requires fs == Leak(was, e.cluster).(data := fs.data)
    requires |fs.data| == |was.data| && forall x :: 0 <= x < |fs.data| && x != e.cluster ==> fs.data[x] == was.data[x]
    requires if IsDirectory(e) then slots == Entries(fs.data[e.cluster]) else fs.data == was.data
    ensures p.0 < |v.data| && p.1 < |v.Dir(p.0)| / 32
    ensures Rep(Add(was, p, e, slots), VolPut(v, p.0, p.1, Encode(e)))
  {
    hide Encode, Entries, Rep, VolPut;
    DecodeEncode(e);
    RepBytes(fs, v, e.cluster);
    var fs1 := fs;
    if IsDirectory(e) {
      RepNewDir(fs, v, e.cluster, was.data);
      fs1 := fs.(tab := fs.tab[e.cluster := slots], data := was.data);
    }
    RepPut(fs1, v, p, Encode(e));
    var fs2 := fs1.Put(p, e);
    assert fs2.tab == Add(was, p, e, slots).tab;
    RepSame(fs2, Add(was, p, e, slots), VolPut(v, p.0, p.1, Encode(e)));
  }

  lemma RepBytes(fs: Fs, v: Vol, c: nat)
    requires Rep(fs, v) && 2 <= c < |fs.data| && c !in fs.tab
    ensures c < |v.data| && v.data[c] == fs.data[c]
  {
  }

  lemma MisplacedOk(fs: Fs, v: Vol, d: nat, e: Entry)
    requires Inv(fs) && Rep(fs, v) && 2 <= d < |fs.data| && d !in fs.tab && FirstUsable(SlotsAt(fs, d), 0) < |SlotsAt(fs, d)|
    requires DirAt(v, d) == SlotsAt(fs, d)
    ensures Inv(Misplaced(fs, d, e)) && Rep(Misplaced(fs, d, e), VolPut(v, d, FirstUsable(SlotsAt(fs, d), 0), Encode(e)))
  {
    hide Inv, Encode, Entries, Rep, FirstUsable;
    DataSize(fs, d);
    RepBytes(fs, v, d);
    var bytes := Splice(fs.data[d], 32 * FirstUsable(SlotsAt(fs, d), 0), Encode(e));
    SetDataInv(fs, d, bytes);
    RepData(fs, v, d, bytes);
  }

  lemma SpcPositive(fs: Fs)
    requires Inv(fs)
    ensures 1 <= fs.g.spc && 512 <= fs.g.ClusterSize()
  {
  }

  lemma DirEntryIs(path: seq<byte>, c: u16)
    ensures DirEntryFor(path, c) == DirEntryFor(path, 0).(cluster := c)
    ensures IsDirectory(DirEntryFor(path, c))
  {
  }

  lemma ClearedNext(fat: seq<u16>, ch: seq<nat>, k: nat)
    requires NoDup(ch) && k < |ch| && ch[k] < |fat|
    ensures Cleared(fat, ch[..k])[ch[k]] == fat[ch[k]]
    ensures Cleared(fat, ch[..k])[ch[k] := 0] == Cleared(fat, ch[..k + 1])
  {
    assert ch[..k + 1] == ch[..k] + [ch[k]];
  }

  lemma SlotInRange(fs: Fs, p: Pos)
    requires Inv(fs) && Settled(fs, p)
    ensures fs.HasSlot(p) && DirCluster(fs.g, p.0) && p.1 < fs.g.DirSectors(p.0) * ENTRIES_PER_SECTOR
  {
    hide Tidy, DotsFormed;
    if p in fs.own {
      OwnerPlaced(fs, p);
    }
    assert DirOk(fs, p.0);
    DirInRange(fs, p.0);
  }

  /** A settled entry that does not name the root names the first cluster of a chain; its own, if it has one. */
  lemma SettledChain(fs: Fs, p: Pos)
    requires Inv(fs) && Settled(fs, p)
    ensures fs.HasSlot(p)
    ensures fs.At(p).cluster != 0 ==>
              var c := fs.At(p).cluster;
              && c in fs.who && fs.who[c].0 in fs.own && fs.who[c].1 == 0
              && (p in fs.own ==> fs.who[c].0 == p && ChainAt(fs, c) == fs.own[p])
    ensures p in fs.own ==> fs.At(p).cluster != 0
  {
    hide Owners, Shape, IsChain, Tidy, DotsFormed;
    if p in fs.own {
      HeadInRange(fs, p);
      assert EntryOk(fs, p);
      assert fs.who[fs.own[p][0]] == (p, 0);
    } else {
      var c := fs.At(p).cluster;
      assert DirOk(fs, c);
      if c != 0 {
        assert EntryOk(fs, fs.who[c].0);
      }
    }
  }

  lemma ChainToFree(fs: Fs, v: Vol, p: Pos)
    requires Inv(fs) && Rep(fs, v) && Settled(fs, p) && fs.HasSlot(p) && fs.At(p).cluster in fs.who
    ensures var ch := ChainAt(fs, fs.At(p).cluster);
            ch != [] && IsChain(v.fat, ch) && NoDup(ch) && ch[0] == fs.At(p).cluster
    ensures fs.g.limit <= END_OF_CHAIN
  {
    hide Owners, DirsOk, IsChain;
    var c := fs.At(p).cluster;
    assert c != 0 by { WhoInRange(fs, c); }
    SettledChain(fs, p);
    OwnerInData(fs, fs.who[c].0);
    assert EntryOk(fs, fs.who[c].0);
    RepFatIs(fs, v);
  }

  lemma WhoInRange(fs: Fs, c: nat)
    requires Inv(fs) && c in fs.who
    ensures 2 <= c
  {
    var (p, i) := fs.who[c];
    assert EntryOk(fs, p);
    assert fs.own[p][i] == c;
  }

  lemma DropOwned(fs: Fs, p: Pos)
    requires CanDrop(fs, p)
    ensures p in fs.own && fs.HasSlot(p) && Settled(fs, p)
  {
  }

  /** A settled directory entry that does not name the root names a directory. */
  lemma SettledDir(fs: Fs, p: Pos)
    requires Inv(fs) && Settled(fs, p) && fs.HasSlot(p) && IsDirectory(fs.At(p)) && fs.At(p).cluster != 0
    ensures fs.At(p).cluster in fs.tab && 2 <= fs.At(p).cluster < fs.g.limit
    ensures p in fs.own <==> !IsDotSlot(p)
    ensures p in fs.own ==> EntryOk(fs, p) && IsOwner(fs, p) && |fs.fat| == |fs.data|
  {
    hide EntriesOk, DirsOk;
    ParentIsDir(fs, p);
    DirInRange(fs, fs.At(p).cluster);
    if p in fs.own {
      DropReady(fs, p);
    }
  }

  /** The bytes of a live slot are its entry. */
  lemma SlotDecodes(fs: Fs, v: Vol, p: Pos)
    requires Rep(fs, v) && fs.HasSlot(p)
    ensures p.0 < |v.data| && p.1 < |v.Dir(p.0)| / 32 && Decode(SlotBytes(v, p.0, p.1)) == fs.At(p)
  {
    assert RepDir(fs, v, p.0);
  }

  lemma RepMark(fs: Fs, v: Vol, p: Pos)
    requires Rep(fs, v) && fs.HasSlot(p)
    ensures p.0 < |v.data| && p.1 < |v.Dir(p.0)| / 32
    ensures Rep(fs.Put(p, MarkDeleted(fs.At(p))), VolPut(v, p.0, p.1, Splice(SlotBytes(v, p.0, p.1), 0, [DELETED])))
  {
    hide Rep, Decode, VolPut;
    SlotDecodes(fs, v, p);
    var b := SlotBytes(v, p.0, p.1);
    assert Splice(b, 0, [DELETED]) == b[0 := DELETED];
    DecodeMark(b);
    RepPut(fs, v, p, Splice(b, 0, [DELETED]));
  }

  lemma DropMeans(fs: Fs, v: Vol, v': Vol, p: Pos)
    requires Inv(fs) && Rep(fs, v) && CanDrop(fs, p) && RemovedOnDisk(v, v', p, fs.own[p])
    requires fs.At(p).cluster < |v.data| && |v.data[fs.At(p).cluster]| == fs.g.ClusterSize()
    ensures EntryOk(fs, p) && |fs.fat| == |fs.data|
    ensures Drop(fs, p).g == fs.g && Inv(Drop(fs, p)) && Rep(Drop(fs, p), v') && v'.boot == v.boot && v'.blocks == v.blocks
  {
    hide Inv, Rep, Drop, VolPut, Cleared, IsChain, EmptyDir, Geometry.ClusterSize, SlotBytes, IsLive, NoDup;
    ClusterAligned(fs.g);
    DropInv(fs, p);
    RepDrop(fs, v, p);
  }

  lemma ClusterAligned(g: Geometry)
    ensures g.ClusterSize() % 32 == 0
  {
    assert g.ClusterSize() == g.spc * 16 * 32;
  }

  lemma RepDrop(fs: Fs, v: Vol, p: Pos)
    requires Inv(fs) && Rep(fs, v) && CanDrop(fs, p)
    requires fs.At(p).cluster < |v.data| && |v.data[fs.At(p).cluster]| % 32 == 0
    ensures p.0 < |v.data| && p.1 < |v.Dir(p.0)| / 32
    ensures Drop(fs, p).g == fs.g && Rep(Drop(fs, p), Removed(v, p, fs.own[p]))
  {
    hide Inv, Rep, VolPut, Cleared, SlotBytes, Flat, IsChain;
    RepMark(fs, v, p);
    var v1 := VolPut(v, p.0, p.1, Splice(SlotBytes(v, p.0, p.1), 0, [DELETED]));
    var fs1 := fs.Put(p, MarkDeleted(fs.At(p)));
    RepFat(fs1, v1, Cleared(fs.fat, fs.own[p]));
    var v2 := v1.(fat := Cleared(fs.fat, fs.own[p]));
    var fs2 := fs1.(fat := Cleared(fs.fat, fs.own[p]));
    RepFatIs(fs, v);
    if IsDirectory(fs.At(p)) {
      var c := fs.At(p).cluster;
      DropSlots(fs, p);
      PutSize(v, p.0, p.1, Splice(SlotBytes(v, p.0, p.1), 0, [DELETED]), c);
      RepTab(fs2, v2, c);
      RepForget(fs2, v2, c);
      RepSame(fs2.(tab := fs2.tab - {c}, data := fs2.data[c := Flat(fs2.tab[c])]), Drop(fs, p), v2);
    } else {
      RepSame(fs2, Drop(fs, p), v2);
    }
  }

  lemma RepFatIs(fs: Fs, v: Vol)
    requires Rep(fs, v)
    ensures fs.fat == v.fat
  {
  }

  /** The slot of an empty directory lies outside that directory. */
  lemma DropSlots(fs: Fs, p: Pos)
    requires CanDrop(fs, p) && IsDirectory(fs.At(p))
    ensures p.0 != fs.At(p).cluster && fs.At(p).cluster in fs.tab && fs.At(p).cluster != 0
  {
    assert fs.own[p][0] == fs.At(p).cluster;
    assert p == (p.0, p.1);
  }

  lemma PutSize(v: Vol, d: nat, i: nat, b: seq<byte>, c: nat)
    requires d < |v.data| && i < |v.Dir(d)| / 32 && |b| == 32 && c < |v.data|
    ensures |VolPut(v, d, i, b).data[c]| == |v.data[c]|
  {
  }

  lemma RepTab(fs: Fs, v: Vol, c: nat)
    requires Rep(fs, v) && c in fs.tab
    ensures c < |fs.data| == |v.data|
  {
    assert RepDir(fs, v, c);
  }

  lemma DropReady(fs: Fs, p: Pos)
    requires Inv(fs) && p in fs.own
    ensures EntryOk(fs, p) && IsOwner(fs, p) && |fs.fat| == |fs.data| && 2 <= fs.At(p).cluster < fs.g.limit
  {
    assert EntryOk(fs, p);
  }

  lemma RepTabIs(fs: Fs, v: Vol, d: nat)
    requires Rep(fs, v) && d in fs.tab
    ensures d < |v.data| && fs.tab[d] == DirAt(v, d)
  {
    assert RepDir(fs, v, d);
  }

  lemma EmptyDirIs(fs: Fs, d: nat)
    requires d in fs.tab && d != 0
    ensures EmptyDir(fs, d) <==> forall i :: 2 <= i < |fs.tab[d]| ==> !IsLive(fs.tab[d][i])
  {
    hide IsLive;
    if EmptyDir(fs, d) {
      forall i | 2 <= i < |fs.tab[d]|
        ensures !IsLive(fs.tab[d][i])
      {
        assert !IsOwner(fs, (d, i));
      }
    }
  }

  /** A live entry, beside the two dot entries, that reads as one of them. */
  predicate Disguised(dir: Dir, i: nat)
    requires i < |dir|
  {
    2 <= i && IsLive(dir[i]) && GetName(dir[i]) in {DOT_NAME, DOTDOT_NAME}
  }

  /** The test looks at the first sector only, and skips what reads as a dot entry. */
  lemma FirstSectorTest(dir: Dir)
    requires ENTRIES_PER_SECTOR <= |dir| && Tidy(dir) && DotsFormed(dir)
    ensures NoEntries(dir[..ENTRIES_PER_SECTOR], 0) <==>
            forall i :: 2 <= i < ENTRIES_PER_SECTOR && IsLive(dir[i]) ==> Disguised(dir, i)
  {
    hide GetName, Tidy, NoEntries;
    var first := dir[..ENTRIES_PER_SECTOR];
    TidyPrefix(dir, ENTRIES_PER_SECTOR);
    NoEntriesMeans(first, 0);
    assert Named(dir, 0, DOT_NAME) && Named(dir, 1, DOTDOT_NAME);
    assert forall i :: 0 <= i < ENTRIES_PER_SECTOR ==> first[i] == dir[i];
    if forall i :: 2 <= i < ENTRIES_PER_SECTOR && IsLive(dir[i]) ==> Disguised(dir, i) {
      forall j | 0 <= j < |first| && IsLive(first[j])
        ensures GetName(first[j]) in {DOT_NAME, DOTDOT_NAME}
      {
        assert j < 2 || Disguised(dir, j);
      }
    }
  }

  /**
   * When remove_dir's test is right. An empty directory passes it; one that passes is empty exactly when
   * no live entry lies beyond its first sector and none in the first sector reads as "." or "..".
   */
  lemma EmptinessTest(fs: Fs, d: nat)
    requires Inv(fs) && d in fs.tab && d != 0
    ensures ENTRIES_PER_SECTOR <= |fs.tab[d]|
    ensures var dir := fs.tab[d];
            var passes := NoEntries(dir[..ENTRIES_PER_SECTOR], 0);
            var later := exists i :: ENTRIES_PER_SECTOR <= i < |dir| && IsLive(dir[i]);
            var disguised := exists i :: 2 <= i < ENTRIES_PER_SECTOR && Disguised(dir, i);
            && (EmptyDir(fs, d) ==> passes)
            && (passes ==> (EmptyDir(fs, d) <==> !later && !disguised))
  {
    hide IsLive, GetName, Apart, Owners, EntriesOk, Tidy, NoEntries, EmptyDir, DotsFormed;
    assert DirOk(fs, d);
    EmptyDirIs(fs, d);
    FirstSectorTest(fs.tab[d]);
    var dir := fs.tab[d];
    assert forall i :: 2 <= i < ENTRIES_PER_SECTOR && Disguised(dir, i) ==> IsLive(dir[i]);
  }

  lemma TidyPrefix(dir: Dir, n: nat)
    requires Tidy(dir) && n <= |dir|
    ensures Tidy(dir[..n])
  {
  }

  lemma RenamedIs(e: Entry, to: seq<byte>)
    ensures RenamedEntry(e, to) == e.(field := FileEntry(to, 0).field)
  {
  }

  lemma MoveReady(fs: Fs, src: Pos, dst: Pos, e: Entry, to: seq<byte>)
    requires Inv(fs) && src in fs.own && fs.HasSlot(src) && e == RenamedEntry(fs.At(src), to) && IsLive(FileEntry(to, 0))
    requires fs.HasSlot(dst) && dst.1 == FirstUsable(fs.tab[dst.0], 0)
    ensures CanMove(fs, src, dst, e)
  {
    hide Inv, RenamedEntry, FileEntry, FirstUsable, IsChain;
    RenamedIs(fs.At(src), to);
    DropReady(fs, src);
    UsableIsNew(fs, dst);
  }

  lemma RepMove(fs: Fs, v: Vol, src: Pos, dst: Pos, e: Entry)
    requires Rep(fs, v) && CanMove(fs, src, dst, e)
    ensures dst.0 < |v.data| && dst.1 < |v.Dir(dst.0)| / 32
    ensures var v1 := VolPut(v, dst.0, dst.1, Encode(e));
            && src.0 < |v1.data| && src.1 < |v1.Dir(src.0)| / 32
            && Rep(Move(fs, src, dst, e), VolPut(v1, src.0, src.1, Splice(SlotBytes(v1, src.0, src.1), 0, [DELETED])))
    ensures Move(fs, src, dst, e).g == fs.g
  {
    hide Rep, VolPut, Encode, IsChain, SlotBytes;
    DecodeEncode(e);
    RepPut(fs, v, dst, Encode(e));
    var v1, fs1 := VolPut(v, dst.0, dst.1, Encode(e)), fs.Put(dst, e);
    RepMark(fs1, v1, src);
    var v2 := VolPut(v1, src.0, src.1, Splice(SlotBytes(v1, src.0, src.1), 0, [DELETED]));
    RepSame(fs1.Put(src, MarkDeleted(fs1.At(src))), Move(fs, src, dst, e), v2);
  }
}
