/**
 * The sector-level operations of the driver: FAT entries, cluster allocation, directory slots and
 * whole clusters. Each is proved to be one update of the volume the disk denotes.
 */
module FatDevice {
  import opened Basics
  import opened Bytes
  import opened Disk
  import opened Volume
  import opened Names
  import opened Directory

  /** A device with a well-formed FAT16 layout on it. */
  ghost predicate Mounted(dev: BlockDevice, g: Geometry)
    reads dev
  {
    dev.Valid() && dev.blockSize == SECTOR_SIZE && g.WellFormed(|dev.blocks|)
  }

  ghost function View(dev: BlockDevice, g: Geometry): (v: Vol)
    requires Mounted(dev, g)
    reads dev
    ensures |v.fat| == |v.data| == g.limit
  {
    VolOf(dev.blocks, g)
  }

  /** Both read_fat_entry functions. */
  method ReadFatEntry(dev: BlockDevice, g: Geometry, c: u16) returns (r: Result<u16>)
    requires Mounted(dev, g) && c < g.limit
    ensures r == Ok(View(dev, g).fat[c])
  {
    hide Geometry.WellFormed, Region, Links, VolOf;
    FatEntryAt(dev.blocks, g, c);
    var offset := 2 * (c % FAT_PER_SECTOR);
    var data :- dev.ReadBlock(FatSector(g, c), SECTOR_SIZE);
    return Ok(Le16(data[offset], data[offset + 1]));
  }

  /** Fat16File::write_fat_entry, which writes only the first FAT copy; r is the sector it wrote. */
  method WriteFirstFat(dev: BlockDevice, g: Geometry, c: u16, v: u16) returns (r: Result<seq<byte>>)
    requires Mounted(dev, g) && c < g.limit
    modifies dev
    ensures Mounted(dev, g) && dev.blocks == FatWrite(old(dev.blocks), g, c, v)
    ensures FatSector(g, c) < |dev.blocks| && r == Ok(dev.blocks[FatSector(g, c)])
    ensures View(dev, g) == old(View(dev, g)).(fat := old(View(dev, g)).fat[c := v])
  {
    hide Geometry.WellFormed, Region, Links, VolOf;
    WriteFat(dev.blocks, g, c, v);
    FatEntryAt(dev.blocks, g, c);
    var offset := 2 * (c % FAT_PER_SECTOR);
    var data :- dev.ReadBlock(FatSector(g, c), SECTOR_SIZE);
    data := data[offset := Lo(v)][offset + 1 := Hi(v)];
    var _ :- dev.WriteBlock(FatSector(g, c), data);
    return Ok(data);
  }

  function FatSector(g: Geometry, c: u16): nat {
    g.fatStart + c / FAT_PER_SECTOR
  }

  /** Sector s holds the same bytes in both FAT copies. */
  ghost predicate SectorMirrored(d: Disk, g: Geometry, s: nat) {
    s + g.fatSectors < |d| && d[s] == d[s + g.fatSectors]
  }

  /** The second FAT copy equals the first. */
  ghost predicate Mirrored(d: Disk, g: Geometry) {
    forall s :: g.fatStart <= s < g.fatStart + g.fatSectors ==> SectorMirrored(d, g, s)
  }

  /** Fat16::write_fat_entry, which copies the sector it changed to the second FAT. */
  method WriteFatEntry(dev: BlockDevice, g: Geometry, c: u16, v: u16) returns (r: Result<()>)
    requires Mounted(dev, g) && c < g.limit
    modifies dev
    ensures Mounted(dev, g) && |dev.blocks| == |old(dev.blocks)| && r == Ok(())
    ensures View(dev, g) == old(View(dev, g)).(fat := old(View(dev, g)).fat[c := v])
    ensures g.fatCount > 1 ==> SectorMirrored(dev.blocks, g, FatSector(g, c))
    ensures g.fatCount > 1 && old(Mirrored(dev.blocks, g)) ==> Mirrored(dev.blocks, g)
  {
    hide Geometry.WellFormed, Region, Links, VolOf;
    MirrorRoom(g, |dev.blocks|, c);
    var data :- WriteFirstFat(dev, g, c, v);
    if g.fatCount > 1 {
      var second := FatSector(g, c) + g.fatSectors;
      WriteMirror(dev.blocks, g, second, data);
      MirrorKept(old(dev.blocks), g, FatSector(g, c), data);
      var _ :- dev.WriteBlock(second, data);
    }
    return Ok(());
  }

  lemma MirrorKept(d: Disk, g: Geometry, s: nat, buf: seq<byte>)
    requires g.fatStart <= s < g.fatStart + g.fatSectors && s + g.fatSectors < |d|
    ensures Mirrored(d, g) ==> Mirrored(d[s := buf][s + g.fatSectors := buf], g)
  {
    var d' := d[s := buf][s + g.fatSectors := buf];
    if Mirrored(d, g) {
      forall t | g.fatStart <= t < g.fatStart + g.fatSectors
        ensures SectorMirrored(d', g, t)
      {
        assert SectorMirrored(d, g, t);
      }
    }
  }

  lemma MirrorRoom(g: Geometry, total: nat, c: u16)
    requires g.WellFormed(total) && c < g.limit
    ensures FatSector(g, c) < g.fatStart + g.fatSectors <= g.rootStart <= total
    ensures g.fatCount > 1 ==> FatSector(g, c) + g.fatSectors < g.rootStart
  {
    ClusterRoom(g, total);
    EntryPlace(c, g.fatSectors);
  }

  /** The first free cluster in [c, end), or end. */
  function FirstFree(fat: seq<u16>, c: nat, end: nat): (r: nat)
    requires c <= end <= |fat|
    ensures c <= r <= end
    ensures r < end ==> fat[r] == 0
    ensures forall i :: c <= i < r ==> fat[i] != 0
    decreases end - c
  {
    if c == end || fat[c] == 0 then c else FirstFree(fat, c + 1, end)
  }

  /** The scan of both allocators: the lowest free cluster from 2 on, or the end of the range. */
  method FindFreeCluster(dev: BlockDevice, g: Geometry, end: u16) returns (r: Result<u16>)
    requires Mounted(dev, g) && end <= g.limit
    ensures r == Ok(if end < 2 then end else FirstFree(View(dev, g).fat, 2, end))
  {
    hide Geometry.WellFormed, VolOf;
    if end < 2 {
      return Ok(end);
    }
    for cluster := 2 to end
      invariant FirstFree(View(dev, g).fat, 2, end) == FirstFree(View(dev, g).fat, cluster, end)
    {
      var entry :- ReadFatEntry(dev, g, cluster);
      if entry == 0 {
        return Ok(cluster);
      }
    }
    return Ok(end);
  }

  /** Fat16::allocate_cluster: takes the lowest free cluster of its range and ends a chain there. */
  method AllocateCluster(dev: BlockDevice, g: Geometry) returns (r: Result<u16>)
    requires Mounted(dev, g) && g.ScansFit()
    modifies dev
    ensures Mounted(dev, g) && |dev.blocks| == |old(dev.blocks)|
    ensures r == Taken(old(View(dev, g)).fat, g.MountScan(), NotSupported)
    ensures LowestFree(old(View(dev, g)).fat, g, r)
    ensures View(dev, g) == Claimed(old(View(dev, g)), r)
    ensures g.fatCount > 1 && old(Mirrored(dev.blocks, g)) ==> Mirrored(dev.blocks, g)
  {
    hide Geometry.WellFormed, VolOf, Geometry.MountScan, Mirrored, Geometry.GrowScan, SectorMirrored, LowestFree;
    MountTakes(View(dev, g).fat, g);
    var cluster :- FindFreeCluster(dev, g, g.MountScan());
    if cluster < g.MountScan() {
      var _ :- WriteFatEntry(dev, g, cluster, 0xFFFF);
      return Ok(cluster);
    }
    return Err(NotSupported);
  }

  /** Fat16File::allocate_cluster: another range, another error, and only the first FAT copy. */
  method GrowCluster(dev: BlockDevice, g: Geometry) returns (r: Result<u16>)
    requires Mounted(dev, g) && g.ScansFit()
    modifies dev
    ensures Mounted(dev, g) && |dev.blocks| == |old(dev.blocks)|
    ensures r == Taken(old(View(dev, g)).fat, g.GrowScan(), NoSpace)
    ensures g.dataStart < 65536 * g.ClusterSize() ==> LowestSpare(old(View(dev, g)).fat, g, r)
    ensures r.Ok? ==> 2 <= r.value < g.limit && old(View(dev, g)).fat[r.value] == 0
    ensures View(dev, g) == Claimed(old(View(dev, g)), r)
    ensures r.Err? ==> dev.blocks == old(dev.blocks)
    ensures SameMirror(old(dev.blocks), dev.blocks, g)
  {
    hide Geometry.WellFormed, VolOf, Geometry.MountScan, Mirrored, Geometry.GrowScan, SectorMirrored, LowestSpare;
    if g.dataStart < 65536 * g.ClusterSize() {
      GrowTakes(View(dev, g).fat, g);
    }
    var cluster :- FindFreeCluster(dev, g, g.GrowScan());
    if cluster < g.GrowScan() {
      FatWriteMirror(dev.blocks, g, cluster, 0xFFFF);
      var _ :- WriteFirstFat(dev, g, cluster, 0xFFFF);
      return Ok(cluster);
    }
    return Err(NoSpace);
  }

  /** What an allocator with scan range [2, end) returns. */
  function Taken(fat: seq<u16>, end: nat, full: FsError): (r: Result<u16>)
    requires end <= |fat| && end <= 65536
    ensures r.Ok? ==> 2 <= r.value < end && fat[r.value] == 0
    ensures r.Err? ==> r.error == full && forall c :: 2 <= c < end ==> fat[c] != 0
  {
    if 2 <= end && FirstFree(fat, 2, end) < end then Ok(FirstFree(fat, 2, end)) else Err(full)
  }

  /** r is the lowest free one of the clusters from 2 on that Fat16 looks at, or NotSupported if there is none. */
  ghost predicate LowestFree(fat: seq<u16>, g: Geometry, r: Result<u16>) {
    match r
    case Ok(c) => 2 <= c < |fat| && Scanned(g, c) && fat[c] == 0 && forall b :: 2 <= b < c ==> fat[b] != 0
    case Err(e) => e == NotSupported && forall c: nat :: 2 <= c && Scanned(g, c) ==> c < |fat| && fat[c] != 0
  }

  /** The same for Fat16File, with its own range and NoSpace. */
  ghost predicate LowestSpare(fat: seq<u16>, g: Geometry, r: Result<u16>) {
    match r
    case Ok(c) => 2 <= c < |fat| && GrowScanned(g, c) && fat[c] == 0 && forall b :: 2 <= b < c ==> fat[b] != 0
    case Err(e) => e == NoSpace && forall c: nat :: 2 <= c && GrowScanned(g, c) ==> c < |fat| && fat[c] != 0
  }

  lemma MountTakes(fat: seq<u16>, g: Geometry)
    requires g.ScansFit() && |fat| == g.limit
    ensures LowestFree(fat, g, Taken(fat, g.MountScan(), NotSupported))
  {
    hide Geometry.MountScan, Geometry.GrowScan, Scanned;
    forall c: nat
      ensures c < g.MountScan() <==> Scanned(g, c)
    {
      MountRange(g, c);
    }
  }

  lemma GrowTakes(fat: seq<u16>, g: Geometry)
    requires g.ScansFit() && |fat| == g.limit && g.dataStart < 65536 * g.ClusterSize()
    ensures LowestSpare(fat, g, Taken(fat, g.GrowScan(), NoSpace))
  {
    hide Geometry.MountScan, Geometry.GrowScan, GrowScanned;
    forall c: nat
      ensures c < g.GrowScan() <==> GrowScanned(g, c)
    {
      GrowRange(g, c);
    }
  }

  function Claimed(v: Vol, r: Result<u16>): Vol
    requires r.Ok? ==> r.value < |v.fat|
  {
    if r.Ok? then v.(fat := v.fat[r.value := 0xFFFF]) else v
  }

  // ---- Directory slots ---------------------------------------------------------------------------

  predicate DirCluster(g: Geometry, d: nat) {
    d < g.limit && (d == 0 || 2 <= d)
  }

  ghost function DirAt(v: Vol, d: nat): Dir
    requires d < |v.data|
  {
    Entries(v.Dir(d))
  }

  /** The volume after 32 bytes are written over slot i of directory d. */
  ghost function VolPut(v: Vol, d: nat, i: nat, b: seq<byte>): (r: Vol)
    requires d < |v.data| && i < |v.Dir(d)| / 32 && |b| == 32
    ensures r.fat == v.fat && |r.data| == |v.data| && r.boot == v.boot && r.blocks == v.blocks
  {
    v.SetDir(d, Splice(v.Dir(d), 32 * i, b))
  }

  /** The byte offset of a slot on the device. */
  function SlotPos(g: Geometry, d: nat, i: nat): nat
    requires d == 0 || 2 <= d
  {
    (g.DirStart(d) + i / ENTRIES_PER_SECTOR) * SECTOR_SIZE + 32 * (i % ENTRIES_PER_SECTOR)
  }

  lemma SlotPosParts(g: Geometry, d: nat, i: nat)
    requires d == 0 || 2 <= d
    ensures SlotPos(g, d, i) / SECTOR_SIZE == g.DirStart(d) + i / ENTRIES_PER_SECTOR
    ensures SlotPos(g, d, i) % SECTOR_SIZE == 32 * (i % ENTRIES_PER_SECTOR)
  {
  }

  lemma SlotPosAt(g: Geometry, d: nat, s: nat, i: nat)
    requires (d == 0 || 2 <= d) && i < ENTRIES_PER_SECTOR
    ensures SlotPos(g, d, ENTRIES_PER_SECTOR * s + i) == (g.DirStart(d) + s) * SECTOR_SIZE + 32 * i
  {
  }

  lemma DirLength(dev: BlockDevice, g: Geometry, d: nat)
    requires Mounted(dev, g) && DirCluster(g, d)
    ensures g.DirStart(d) + g.DirSectors(d) <= |dev.blocks|
    ensures |View(dev, g).Dir(d)| == g.DirSectors(d) * SECTOR_SIZE
    ensures |DirAt(View(dev, g), d)| == g.DirSectors(d) * ENTRIES_PER_SECTOR
  {
    DirRegion(dev.blocks, g, d);
  }

  /** Slot 16 s + i of a directory is bytes [32 i, 32 i + 32) of its sector s. */
  lemma DirSlot(dev: BlockDevice, g: Geometry, d: nat, s: nat, i: nat)
    requires Mounted(dev, g) && DirCluster(g, d) && s < g.DirSectors(d) && i < ENTRIES_PER_SECTOR
    ensures g.DirStart(d) + s < |dev.blocks|
    ensures ENTRIES_PER_SECTOR * s + i < |DirAt(View(dev, g), d)|
    ensures DirAt(View(dev, g), d)[ENTRIES_PER_SECTOR * s + i]
         == Decode(dev.blocks[g.DirStart(d) + s][32 * i..32 * i + 32])
  {
    hide Geometry.WellFormed, Region, VolOf, Decode, Entries;
    DirLength(dev, g, d);
    DirRegion(dev.blocks, g, d);
    RegionSector(dev.blocks, s, g.DirStart(d), g.DirSectors(d));
    EntryInSector(View(dev, g).Dir(d), g.DirSectors(d), s, i);
  }

  lemma EntryInSector(r: seq<byte>, n: nat, s: nat, i: nat)
    requires |r| == n * SECTOR_SIZE && s < n && i < ENTRIES_PER_SECTOR
    ensures SECTOR_SIZE * s + SECTOR_SIZE <= |r| && ENTRIES_PER_SECTOR * s + i < |Entries(r)|
    ensures Entries(r)[ENTRIES_PER_SECTOR * s + i]
         == Decode(r[SECTOR_SIZE * s..SECTOR_SIZE * s + SECTOR_SIZE][32 * i..32 * i + 32])
  {
    hide Decode;
    SliceOfSlice(r, SECTOR_SIZE * s, SECTOR_SIZE, 32 * i, 32);
  }

  /** Rewriting the 32 bytes of a slot inside its sector is VolPut. */
  lemma SlotWritten(dev: BlockDevice, g: Geometry, d: nat, i: nat, b: seq<byte>)
    requires Mounted(dev, g) && DirCluster(g, d) && i < g.DirSectors(d) * ENTRIES_PER_SECTOR && |b| == 32
    ensures var s := g.DirStart(d) + i / ENTRIES_PER_SECTOR;
            && s < |dev.blocks| && i < |View(dev, g).Dir(d)| / 32
            && var d' := dev.blocks[s := Splice(dev.blocks[s], 32 * (i % ENTRIES_PER_SECTOR), b)];
               SectorsOk(d') && VolOf(d', g) == VolPut(View(dev, g), d, i, b)
  {
    hide Geometry.WellFormed, Region, VolOf, Splice, Vol.SetDir;
    var j, o := i / ENTRIES_PER_SECTOR, 32 * (i % ENTRIES_PER_SECTOR);
    DirLength(dev, g, d);
    DirRegion(dev.blocks, g, d);
    RegionSector(dev.blocks, j, g.DirStart(d), g.DirSectors(d));
    var sector := dev.blocks[g.DirStart(d) + j];
    WriteDirSector(dev.blocks, g, d, j, Splice(sector, o, b));
    SpliceSector(View(dev, g).Dir(d), j, sector, o, b);
  }

  lemma SpliceSector(r: seq<byte>, j: nat, sector: seq<byte>, o: nat, b: seq<byte>)
    requires SECTOR_SIZE * j + SECTOR_SIZE <= |r| && o + |b| <= SECTOR_SIZE
    requires r[SECTOR_SIZE * j..SECTOR_SIZE * j + SECTOR_SIZE] == sector
    ensures Splice(r, SECTOR_SIZE * j, Splice(sector, o, b)) == Splice(r, SECTOR_SIZE * j + o, b)
  {
  }

  /** The slots of sector s of a directory. */
  lemma DirSector(dev: BlockDevice, g: Geometry, d: nat, s: nat)
    requires Mounted(dev, g) && DirCluster(g, d) && s < g.DirSectors(d)
    ensures g.DirStart(d) + s < |dev.blocks| && |dev.blocks[g.DirStart(d) + s]| == SECTOR_SIZE
    ensures ENTRIES_PER_SECTOR * s + ENTRIES_PER_SECTOR <= |DirAt(View(dev, g), d)|
    ensures Entries(dev.blocks[g.DirStart(d) + s])
         == DirAt(View(dev, g), d)[ENTRIES_PER_SECTOR * s..ENTRIES_PER_SECTOR * s + ENTRIES_PER_SECTOR]
  {
    hide View, Decode, Geometry.WellFormed, DirAt;
    DirLength(dev, g, d);
    DirSlot(dev, g, d, s, 0);
    var es := Entries(dev.blocks[g.DirStart(d) + s]);
    var dir := DirAt(View(dev, g), d);
    forall i | 0 <= i < |es|
      ensures es[i] == dir[ENTRIES_PER_SECTOR * s + i]
    {
      DirSlot(dev, g, d, s, i);
    }
  }

  /** The inner loop of find_entry_in_dir. */
  method FindInSector(sector: seq<byte>, name: seq<byte>) returns (i: nat)
    requires |sector| == SECTOR_SIZE
    ensures i == SectorFind(Entries(sector), name, 0)
  {
    hide Decode, GetName;
    i := 0;
    while i < ENTRIES_PER_SECTOR
      invariant 0 <= i <= ENTRIES_PER_SECTOR
      invariant SectorFind(Entries(sector), name, 0) == SectorFind(Entries(sector), name, i)
    {
      var e := Decode(sector[32 * i..32 * i + 32]);
      assert e == Entries(sector)[i];
      if IsFree(e) {
        return ENTRIES_PER_SECTOR;
      }
      if !IsDeleted(e) && GetName(e) == name {
        return;
      }
      i := i + 1;
    }
  }

  /** What the scan of sector s says about the scan of the directory. */
  lemma SectorScanned(dev: BlockDevice, g: Geometry, d: nat, name: seq<byte>, s: nat)
    requires Mounted(dev, g) && DirCluster(g, d) && s < g.DirSectors(d)
    ensures g.DirStart(d) + s < |dev.blocks| && |dev.blocks[g.DirStart(d) + s]| == SECTOR_SIZE
    ensures var dir := DirAt(View(dev, g), d);
            && |dir| == g.DirSectors(d) * ENTRIES_PER_SECTOR && |dir| % ENTRIES_PER_SECTOR == 0
            && var found := EarlyFind(dir, name, ENTRIES_PER_SECTOR * s);
               var es := Entries(dev.blocks[g.DirStart(d) + s]);
               var k := SectorFind(es, name, 0);
               if k < ENTRIES_PER_SECTOR then found == ENTRIES_PER_SECTOR * s + k && found < |dir| && dir[found] == es[k]
               else found == EarlyFind(dir, name, ENTRIES_PER_SECTOR * (s + 1))
  {
    hide View, DirAt, Decode, Named, Geometry.WellFormed, EarlyFind, SectorFind, Entries;
    DirLength(dev, g, d);
    DirSector(dev, g, d, s);
    EarlyFindSector(DirAt(View(dev, g), d), name, s, 0);
  }

  /** find_entry_in_dir: the entry and where it lies on the device. */
  method FindEntryInDir(dev: BlockDevice, g: Geometry, d: nat, name: seq<byte>) returns (r: Result<(Entry, nat)>)
    requires Mounted(dev, g) && DirCluster(g, d)
    ensures var dir := DirAt(View(dev, g), d);
            && |dir| % ENTRIES_PER_SECTOR == 0
            && var i := EarlyFind(dir, name, 0);
               r == if i < |dir| then Ok((dir[i], SlotPos(g, d, i))) else Err(NotFound)
  {
    hide View, DirAt, Geometry.WellFormed, SlotPos, EarlyFind, SectorFind, Entries, Geometry.DirStart;
    DirLength(dev, g, d);
    ghost var dir := DirAt(View(dev, g), d);
    var start, sectors := g.DirStart(d), g.DirSectors(d);
    for s := 0 to sectors
      invariant EarlyFind(dir, name, 0) == EarlyFind(dir, name, ENTRIES_PER_SECTOR * s)
    {
      SectorScanned(dev, g, d, name, s);
      var sector :- dev.ReadBlock(start + s, SECTOR_SIZE);
      var i := FindInSector(sector, name);
      if i < ENTRIES_PER_SECTOR {
        SlotPosAt(g, d, s, i);
        return Ok((Entries(sector)[i], (start + s) * SECTOR_SIZE + 32 * i));
      }
    }
    return Err(NotFound);
  }

  /** The slot search of write_dir_entry and rename: the first free or deleted slot, or the number of slots. */
  method FindUsableSlot(dev: BlockDevice, g: Geometry, d: nat) returns (r: Result<nat>)
    requires Mounted(dev, g) && DirCluster(g, d)
    ensures r == Ok(FirstUsable(DirAt(View(dev, g), d), 0))
  {
    hide View, DirAt, Decode, Geometry.WellFormed, FirstUsable;
    DirLength(dev, g, d);
    ghost var dir := DirAt(View(dev, g), d);
    var start, sectors := g.DirStart(d), g.DirSectors(d);
    for s := 0 to sectors
      invariant FirstUsable(dir, 0) == FirstUsable(dir, ENTRIES_PER_SECTOR * s)
    {
      DirSector(dev, g, d, s);
      FirstUsableSector(dir, ENTRIES_PER_SECTOR * s, 0, ENTRIES_PER_SECTOR);
      var sector :- dev.ReadBlock(start + s, SECTOR_SIZE);
      var i := FindUsableInSector(sector);
      if i < ENTRIES_PER_SECTOR {
        return Ok(ENTRIES_PER_SECTOR * s + i);
      }
    }
    return Ok(ENTRIES_PER_SECTOR * sectors);
  }

  method FindUsableInSector(sector: seq<byte>) returns (i: nat)
    requires |sector| == SECTOR_SIZE
    ensures i == FirstUsable(Entries(sector), 0)
  {
    hide Decode;
    i := 0;
    while i < ENTRIES_PER_SECTOR
      invariant 0 <= i <= ENTRIES_PER_SECTOR
      invariant FirstUsable(Entries(sector), 0) == FirstUsable(Entries(sector), i)
    {
      var e := Decode(sector[32 * i..32 * i + 32]);
      assert e == Entries(sector)[i];
      if IsFree(e) || IsDeleted(e) {
        return;
      }
      i := i + 1;
    }
  }

  /** is_directory_empty: only the first sector of the directory is looked at. */
  method IsDirectoryEmpty(dev: BlockDevice, g: Geometry, d: nat) returns (r: Result<bool>)
    requires Mounted(dev, g) && 2 <= d < g.limit
    ensures ENTRIES_PER_SECTOR <= |DirAt(View(dev, g), d)|
    ensures r == Ok(NoEntries(DirAt(View(dev, g), d)[..ENTRIES_PER_SECTOR], 0))
  {
    hide View, DirAt, Decode, GetName, FirstUsable;
    SectorsPositive(dev, g);
    DirSector(dev, g, d, 0);
    var sector :- dev.ReadBlock(g.ClusterSector(d), SECTOR_SIZE);
    ghost var dir := DirAt(View(dev, g), d)[..ENTRIES_PER_SECTOR];
    for i := 0 to ENTRIES_PER_SECTOR
      invariant NoEntries(dir, 0) == NoEntries(dir, i)
    {
      var e := Decode(sector[32 * i..32 * i + 32]);
      assert e == Entries(sector)[i] == dir[i];
      if IsFree(e) {
        return Ok(true);
      }
      if !IsDeleted(e) {
        var name := GetName(e);
        if name != DOT_NAME && name != DOTDOT_NAME {
          return Ok(false);
        }
      }
    }
    return Ok(true);
  }

  lemma SectorsPositive(dev: BlockDevice, g: Geometry)
    requires Mounted(dev, g)
    ensures 1 <= g.spc
  {
  }

  ghost function SlotBytes(v: Vol, d: nat, i: nat): (b: seq<byte>)
    requires d < |v.data| && i < |v.Dir(d)| / 32
    ensures |b| == 32
  {
    v.Dir(d)[32 * i..32 * i + 32]
  }

  /** Sectors in front of the directories: the boot sector and the FATs. */
  ghost predicate SameFats(d: Disk, d': Disk, g: Geometry) {
    |d| == |d'| && forall s :: 0 <= s < g.rootStart && s < |d| ==> d'[s] == d[s]
  }

  /** The sectors of the second FAT, and any up to the root directory. */
  ghost predicate SameMirror(d: Disk, d': Disk, g: Geometry) {
    |d| == |d'| && forall s :: g.fatStart + g.fatSectors <= s < g.rootStart && s < |d| ==> d'[s] == d[s]
  }

  lemma MirrorTwice(d: Disk, d1: Disk, d2: Disk, g: Geometry)
    requires SameMirror(d, d1, g) && SameMirror(d1, d2, g)
    ensures SameMirror(d, d2, g)
  {
  }

  lemma MirrorUntouched(d: Disk, d': Disk, g: Geometry)
    requires SameFats(d, d', g)
    ensures SameMirror(d, d', g)
  {
  }

  lemma FatWriteMirror(d: Disk, g: Geometry, c: nat, v: u16)
    requires SectorsOk(d) && g.WellFormed(|d|) && c < g.limit
    ensures SameMirror(d, FatWrite(d, g, c, v), g)
  {
    hide PutEntry;
    ClusterRoom(g, |d|);
    EntryPlace(c, g.fatSectors);
  }

  /** If the second FAT has not changed, the copies are equal again only if the first has not changed either. */
  lemma MirroredAgain(d: Disk, d': Disk, g: Geometry)
    requires SectorsOk(d) && SectorsOk(d') && g.WellFormed(|d|) && g.fatCount > 1
    requires SameMirror(d, d', g) && Mirrored(d, g) && Mirrored(d', g)
    ensures VolOf(d', g).fat == VolOf(d, g).fat
  {
    hide Links;
    ClusterRoom(g, |d|);
    forall s | g.fatStart <= s < g.fatStart + g.fatSectors
      ensures d'[s] == d[s]
    {
      assert SectorMirrored(d, g, s) && SectorMirrored(d', g, s);
    }
    RegionSame(d, d', g.fatStart, g.fatSectors);
  }

  lemma MirroredSame(d: Disk, d': Disk, g: Geometry)
    requires SameFats(d, d', g) && g.fatStart + 2 * g.fatSectors <= g.rootStart
    ensures Mirrored(d, g) ==> Mirrored(d', g)
  {
    forall s | Mirrored(d, g) && g.fatStart <= s < g.fatStart + g.fatSectors
      ensures SectorMirrored(d', g, s)
    {
      assert SectorMirrored(d, g, s);
    }
  }

  /**
   * Reads the sector of a slot, replaces some of the slot's bytes and writes the sector back: the
   * tail of write_dir_entry, remove_entry, rename and update_directory_entry.
   */
  method PatchSlot(dev: BlockDevice, g: Geometry, ghost d: nat, ghost i: nat, pos: nat, off: nat, t: seq<byte>)
    returns (r: Result<()>)
    requires Mounted(dev, g) && DirCluster(g, d) && i < g.DirSectors(d) * ENTRIES_PER_SECTOR
    requires pos == SlotPos(g, d, i) && off + |t| <= 32
    modifies dev
    ensures Mounted(dev, g) && SameFats(old(dev.blocks), dev.blocks, g) && r == Ok(())
    ensures i < |old(View(dev, g)).Dir(d)| / 32
    ensures View(dev, g) == VolPut(old(View(dev, g)), d, i, Splice(SlotBytes(old(View(dev, g)), d, i), off, t))
  {
    hide View, Decode, Geometry.WellFormed, VolPut, SlotPos;
    DirLength(dev, g, d);
    ghost var v := View(dev, g);
    SlotPosParts(g, d, i);
    SlotRoom(dev, g, d, i);
    SlotInSector(dev, g, d, i);
    SlotWritten(dev, g, d, i, Splice(SlotBytes(v, d, i), off, t));
    var sector :- dev.ReadBlock(pos / SECTOR_SIZE, SECTOR_SIZE);
    var at := pos % SECTOR_SIZE;
    SpliceInner(sector, at, SlotBytes(v, d, i), off, t);
    var _ :- dev.WriteBlock(pos / SECTOR_SIZE, Splice(sector, at + off, t));
    ViewIs(dev, g);
    return Ok(());
  }

  lemma ViewSize(dev: BlockDevice, g: Geometry, c: nat)
    requires Mounted(dev, g) && 2 <= c < g.limit
    ensures |View(dev, g).data[c]| == g.ClusterSize()
  {
  }

  lemma ViewIs(dev: BlockDevice, g: Geometry)
    requires Mounted(dev, g)
    ensures View(dev, g) == VolOf(dev.blocks, g)
  {
  }

  lemma SlotRoom(dev: BlockDevice, g: Geometry, d: nat, i: nat)
    requires Mounted(dev, g) && DirCluster(g, d) && i < g.DirSectors(d) * ENTRIES_PER_SECTOR
    ensures g.rootStart <= g.DirStart(d) <= g.DirStart(d) + i / ENTRIES_PER_SECTOR < |dev.blocks|
    ensures |dev.blocks[g.DirStart(d) + i / ENTRIES_PER_SECTOR]| == SECTOR_SIZE
  {
    DirRegion(dev.blocks, g, d);
    ClusterRoom(g, |dev.blocks|);
  }

  lemma SlotInSector(dev: BlockDevice, g: Geometry, d: nat, i: nat)
    requires Mounted(dev, g) && DirCluster(g, d) && i < g.DirSectors(d) * ENTRIES_PER_SECTOR
    ensures var s := g.DirStart(d) + i / ENTRIES_PER_SECTOR; var o := 32 * (i % ENTRIES_PER_SECTOR);
            && s < |dev.blocks| && |dev.blocks[s]| == SECTOR_SIZE
            && i < |View(dev, g).Dir(d)| / 32
            && dev.blocks[s][o..o + 32] == SlotBytes(View(dev, g), d, i)
  {
    hide Geometry.WellFormed, Region, VolOf, Decode;
    DirLength(dev, g, d);
    DirRegion(dev.blocks, g, d);
    RegionSector(dev.blocks, i / ENTRIES_PER_SECTOR, g.DirStart(d), g.DirSectors(d));
    SlotSlice(View(dev, g).Dir(d), i);
  }

  lemma SlotSlice(r: seq<byte>, i: nat)
    requires SECTOR_SIZE * (i / ENTRIES_PER_SECTOR) + SECTOR_SIZE <= |r|
    ensures var at := SECTOR_SIZE * (i / ENTRIES_PER_SECTOR); var o := 32 * (i % ENTRIES_PER_SECTOR);
            && 32 * i + 32 <= |r| && r[at..at + SECTOR_SIZE][o..o + 32] == r[32 * i..32 * i + 32]
  {
    var at, o := SECTOR_SIZE * (i / ENTRIES_PER_SECTOR), 32 * (i % ENTRIES_PER_SECTOR);
    assert 32 * i == at + o;
    SliceOfSlice(r, at, SECTOR_SIZE, o, 32);
  }

  lemma SpliceInner(s: seq<byte>, at: nat, b: seq<byte>, off: nat, t: seq<byte>)
    requires at + |b| <= |s| && s[at..at + |b|] == b && off + |t| <= |b|
    ensures Splice(s, at, Splice(b, off, t)) == Splice(s, at + off, t)
  {
  }

  lemma SpliceWhole(b: seq<byte>, t: seq<byte>)
    requires |b| == |t|
    ensures Splice(b, 0, t) == t
  {
  }

  /** write_dir_entry: the first free or deleted slot takes the entry. */
  method WriteDirEntry(dev: BlockDevice, g: Geometry, d: nat, entry: Entry) returns (r: Result<()>)
    requires Mounted(dev, g) && DirCluster(g, d)
    modifies dev
    ensures Mounted(dev, g) && SameFats(old(dev.blocks), dev.blocks, g)
    ensures var v := old(View(dev, g));
            var dir := DirAt(v, d);
            var i := FirstUsable(dir, 0);
            if i < |dir| then r == Ok(()) && View(dev, g) == VolPut(v, d, i, Encode(entry))
            else r == Err(NotSupported) && View(dev, g) == v
  {
    hide View, Encode, Decode, Geometry.WellFormed, FirstUsable, VolPut, SlotPos;
    DirLength(dev, g, d);
    ghost var v := View(dev, g);
    var i :- FindUsableSlot(dev, g, d);
    if i == g.DirSectors(d) * ENTRIES_PER_SECTOR {
      return Err(NotSupported);
    }
    SpliceWhole(SlotBytes(v, d, i), Encode(entry));
    r := PatchSlot(dev, g, d, i, SlotPos(g, d, i), 0, Encode(entry));
  }

  // ---- Whole clusters ----------------------------------------------------------------------------

  /** The read loop of read_file and write_file: the sectors of a cluster, one after another. */
  method ReadCluster(dev: BlockDevice, g: Geometry, c: nat) returns (r: Result<seq<byte>>)
    requires Mounted(dev, g) && 2 <= c < g.limit
    ensures r == Ok(View(dev, g).data[c])
  {
    hide Geometry.WellFormed, Region, VolOf;
    ViewIs(dev, g);
    DirRegion(dev.blocks, g, c);
    ghost var whole := View(dev, g).data[c];
    var start := g.ClusterSector(c);
    var data: seq<byte> := [];
    for i := 0 to g.spc
      invariant |data| == SECTOR_SIZE * i && data == whole[..SECTOR_SIZE * i]
    {
      RegionSector(dev.blocks, i, start, g.spc);
      var sector :- dev.ReadBlock(start + i, SECTOR_SIZE);
      data := data + sector;
    }
    assert whole[..SECTOR_SIZE * g.spc] == whole;
    return Ok(data);
  }

  /** The write loop of write_file, and the writes of init_directory. */
  method WriteCluster(dev: BlockDevice, g: Geometry, c: nat, data: seq<byte>) returns (r: Result<()>)
    requires Mounted(dev, g) && 2 <= c < g.limit && |data| == g.ClusterSize()
    modifies dev
    ensures Mounted(dev, g) && SameFats(old(dev.blocks), dev.blocks, g) && r == Ok(())
    ensures View(dev, g) == old(View(dev, g)).(data := old(View(dev, g)).data[c := data])
  {
    hide Geometry.WellFormed, Region, VolOf;
    ViewIs(dev, g);
    DirRegion(dev.blocks, g, c);
    ClusterRoom(g, |dev.blocks|);
    ghost var v := View(dev, g);
    assert PartWritten(v.data[c], data, 0) == v.data[c];
    assert v.data[c := v.data[c]] == v.data;
    var start := g.ClusterSector(c);
    for i := 0 to g.spc
      invariant Mounted(dev, g) && SameFats(old(dev.blocks), dev.blocks, g)
      invariant View(dev, g) == v.(data := v.data[c := PartWritten(v.data[c], data, i)])
    {
      var part := data[SECTOR_SIZE * i..SECTOR_SIZE * i + SECTOR_SIZE];
      WriteDirSector(dev.blocks, g, c, i, part);
      PartWrittenNext(v.data[c], data, i);
      ViewIs(dev, g);
      var _ :- dev.WriteBlock(start + i, part);
      ViewIs(dev, g);
    }
    assert PartWritten(v.data[c], data, g.spc) == data;
    return Ok(());
  }

  /** s after its first i sectors are overwritten with those of t. */
  ghost function PartWritten(s: seq<byte>, t: seq<byte>, i: nat): seq<byte>
    requires |s| == |t| && SECTOR_SIZE * i <= |t|
  {
    t[..SECTOR_SIZE * i] + s[SECTOR_SIZE * i..]
  }

  lemma PartWrittenNext(s: seq<byte>, t: seq<byte>, i: nat)
    requires |s| == |t| && SECTOR_SIZE * i + SECTOR_SIZE <= |t|
    ensures Splice(PartWritten(s, t, i), SECTOR_SIZE * i, t[SECTOR_SIZE * i..SECTOR_SIZE * i + SECTOR_SIZE])
         == PartWritten(s, t, i + 1)
  {
  }
}
