/**
 * Formatting and mounting (Fat16::format and Fat16::new): the boot sector round trip, the layout it
 * describes, and the empty volume that a formatted device denotes.
 */
module Format {
  import opened Bytes
  import opened Disk
  import opened Volume
  import opened Names
  import opened Directory
  import opened FileSystem
  import opened FatDevice
  import opened Fat16Driver

  const RESERVED := 1
  const SECTORS_PER_CLUSTER := 4
  const FAT_COUNT := 2

  function DivCeil(a: nat, b: nat): nat
    requires 1 <= b
  {
    (a + b - 1) / b
  }

  /** sectors_per_fat, as format computes it from the number of blocks. */
  function FatSectors(total: nat): nat
    requires RESERVED + ROOT_DIR_SECTORS <= total
  {
    DivCeil((total - RESERVED - ROOT_DIR_SECTORS) / SECTORS_PER_CLUSTER * 2, SECTOR_SIZE)
  }

  /** total_sectors_16: the number of blocks, or 0 if 16 bits do not hold it. */
  function Total16(total: nat): u16 {
    if total < 65536 then total else 0
  }

  /**
   * The boot sector. `rest` supplies the bytes that no code reads back: jump, names, disk geometry,
   * total_sectors_32, label and signature.
   */
  function BootSector(total: u16, fatSectors: u16, rest: seq<byte>): (b: seq<byte>)
    requires |rest| == SECTOR_SIZE
    ensures |b| == SECTOR_SIZE
  {
    seq(SECTOR_SIZE, i requires 0 <= i < SECTOR_SIZE => BootByte(total, fatSectors, rest, i))
  }

  function BootByte(total: u16, fatSectors: u16, rest: seq<byte>, i: nat): byte
    requires |rest| == SECTOR_SIZE && i < SECTOR_SIZE
  {
    if i == 13 then SECTORS_PER_CLUSTER
    else if i == 14 then Lo(RESERVED) else if i == 15 then Hi(RESERVED)
    else if i == 16 then FAT_COUNT
    else if i == 19 then Lo(total) else if i == 20 then Hi(total)
    else if i == 22 then Lo(fatSectors) else if i == 23 then Hi(fatSectors)
    else rest[i]
  }

  /** How Fat16::new reads a boot sector on a device with `blocks` blocks. */
  function GeometryOf(b: seq<byte>, blocks: nat): Geometry
    requires |b| == SECTOR_SIZE
  {
    var fatStart, fatCount, fatSectors, spc := Le16(b[14], b[15]), b[16], Le16(b[22], b[23]), b[13];
    var rootStart := fatStart + fatSectors * fatCount;
    var dataStart := rootStart + ROOT_DIR_SECTORS;
    var fits := if spc == 0 || blocks < dataStart then 0 else 2 + (blocks - dataStart) / spc;
    Geometry(fatStart, fatSectors, fatCount, rootStart, dataStart, spc, Le16(b[19], b[20]),
             Min(Min(fatSectors * FAT_PER_SECTOR, fits), END_OF_CHAIN))
  }

  /** The geometry format lays a device out with. */
  function Planned(total: nat): Geometry
    requires RESERVED + ROOT_DIR_SECTORS <= total
  {
    var f := FatSectors(total);
    var dataStart := RESERVED + 2 * f + ROOT_DIR_SECTORS;
    var fits := if total < dataStart then 0 else 2 + (total - dataStart) / SECTORS_PER_CLUSTER;
    Geometry(RESERVED, f, FAT_COUNT, RESERVED + 2 * f, dataStart, SECTORS_PER_CLUSTER, Total16(total),
             Min(Min(f * FAT_PER_SECTOR, fits), END_OF_CHAIN))
  }

  /** Format then mount: the boot sector gives back the geometry it was written with. */
  lemma MountReadsFormat(total: nat, rest: seq<byte>)
    requires RESERVED + ROOT_DIR_SECTORS <= total && FatSectors(total) < 65536 && |rest| == SECTOR_SIZE
    ensures GeometryOf(BootSector(Total16(total), FatSectors(total), rest), total) == Planned(total)
  {
    hide FatSectors, BootSector, Total16;
    BootFields(Total16(total), FatSectors(total), rest);
  }

  lemma BootFields(total: u16, f: u16, rest: seq<byte>)
    requires |rest| == SECTOR_SIZE
    ensures var b := BootSector(total, f, rest);
            && b[13] == SECTORS_PER_CLUSTER && Le16(b[14], b[15]) == RESERVED && b[16] == FAT_COUNT
            && Le16(b[19], b[20]) == total && Le16(b[22], b[23]) == f
  {
    hide Lo, Hi;
    LoHi(RESERVED);
    LoHi(total);
    LoHi(f);
  }

  lemma FatSectorsBound(total: nat)
    requires RESERVED + ROOT_DIR_SECTORS <= total
    ensures (FatSectors(total) - 1) * 256 < (total - 33) / 4 || total < 37
    ensures (total - 33) / 4 <= FatSectors(total) * FAT_PER_SECTOR
    ensures 37 <= total ==> 1 <= FatSectors(total) && 33 + 2 * FatSectors(total) + 2 <= total
    ensures total < 65536 ==> FatSectors(total) <= 64
  {
    var n := (total - 33) / 4;
    assert FatSectors(total) == (2 * n + 511) / 512;
  }

  /**
   * The layout of a formatted device: the boot sector, both FATs, the root directory and the data
   * area follow one another. Below 65536 blocks, and only there, allocate_cluster can compute its range:
   * every cluster it can return has its FAT entry in one FAT copy and its sectors on the device. From that
   * size on total_sectors_16 is 0, and it subtracts the start of the data area from that.
   */
  lemma PlannedWellFormed(total: nat)
    requires 37 <= total
    ensures Planned(total).WellFormed(total)
    ensures Planned(total).dataStart <= Planned(total).total16 <==> total < 65536
    ensures Planned(total).ScansFit() <==> total < 65536
    ensures total < 65536 ==> Planned(total).GrowScan() == 0
  {
    hide FatSectors, Geometry.ScansFit;
    FatSectorsBound(total);
    if total < 65536 {
      PlannedScans(total);
    } else {
      NoScan(Planned(total));
    }
  }

  lemma NoScan(g: Geometry)
    requires g.total16 < g.dataStart
    ensures !g.ScansFit()
  {
  }

  lemma PlannedScans(total: nat)
    requires 37 <= total < 65536
    ensures Planned(total).ScansFit() && Planned(total).GrowScan() == 0
  {
    hide FatSectors;
    FatSectorsBound(total);
    var g := Planned(total);
    assert g.ClusterSize() == 2048 && g.dataStart < 2048;
    assert g.MountScan() == (total - g.dataStart) / 4;
  }

  /** Clusters of a well-formed volume never share a sector, with each other or with the areas in front. */
  lemma ClusterSectorsDisjoint(g: Geometry, total: nat, c: nat, e: nat, i: nat, j: nat)
    requires g.WellFormed(total) && 2 <= c < g.limit && 2 <= e < g.limit && i < g.spc && j < g.spc && c != e
    ensures g.ClusterSector(c) + i != g.ClusterSector(e) + j
    ensures g.rootStart + ROOT_DIR_SECTORS <= g.ClusterSector(c) + i < total
  {
    if c < e {
      ClustersApart(g, c, e);
    } else {
      ClustersApart(g, e, c);
    }
    ClusterFits(g, total, c);
  }

  // ---- Formatting a device -------------------------------------------------------------------------

  function ZeroSector(): (b: seq<byte>)
    ensures |b| == SECTOR_SIZE
  {
    seq(SECTOR_SIZE, i => 0)
  }

  /** The first FAT sector: the two reserved entries, then free clusters. */
  function FatHead(): (b: seq<byte>)
    ensures |b| == SECTOR_SIZE
  {
    seq(SECTOR_SIZE, i => if i == 0 then 0xF8 else if i < 4 then 0xFF else 0)
  }

  method ZeroSectors(dev: BlockDevice, start: nat, n: nat) returns (r: Result<()>)
    requires dev.Valid() && dev.blockSize == SECTOR_SIZE && start + n <= |dev.blocks|
    modifies dev
    ensures dev.Valid() && r == Ok(()) && |dev.blocks| == |old(dev.blocks)|
    ensures forall s :: 0 <= s < |dev.blocks| ==>
              dev.blocks[s] == if start <= s < start + n then ZeroSector() else old(dev.blocks)[s]
  {
    for i := 0 to n
      invariant dev.Valid() && |dev.blocks| == |old(dev.blocks)|
      invariant forall s :: 0 <= s < |dev.blocks| ==>
                  dev.blocks[s] == if start <= s < start + i then ZeroSector() else old(dev.blocks)[s]
    {
      var _ :- dev.WriteBlock(start + i, ZeroSector());
    }
    return Ok(());
  }

  ghost predicate Formatted(d: Disk, f: nat) {
    && 1 <= f && RESERVED + 2 * f + ROOT_DIR_SECTORS <= |d|
    && d[1] == FatHead() && d[1 + f] == FatHead()
    && forall s :: 1 < s < RESERVED + 2 * f + ROOT_DIR_SECTORS && s != 1 + f ==> d[s] == ZeroSector()
  }

  /** The boot sector in plain numbers: its FAT is the smallest that has a link for every four sectors. */
  ghost predicate BootPlan(b: seq<byte>, total: nat, rest: seq<byte>)
    requires |b| == |rest| == 512
  {
    var f := b[22] as int + 256 * (b[23] as int);
    && b[13] == 4 && b[14] == 1 && b[15] == 0 && b[16] == 2
    && b[19] as int + 256 * (b[20] as int) == (if total < 65536 then total else 0)
    && (f - 1) * 256 < (total - 33) / 4 <= f * 256
    && forall i :: 0 <= i < 512 && i !in {13, 14, 15, 16, 19, 20, 22, 23} ==> b[i] == rest[i]
  }

  /** The sectors behind it: two FATs with the media byte in front, and a root directory of zeros. */
  ghost predicate LaidOut(d: Disk)
    requires SectorsOk(d) && 1 <= |d|
  {
    var f := d[0][22] as int + 256 * (d[0][23] as int);
    && 1 <= f && 33 + 2 * f <= |d|
    && (forall k :: 0 <= k < 512 ==> d[1][k] == d[1 + f][k] == if k == 0 then 0xF8 else if k < 4 then 0xFF else 0)
    && forall s, k :: 1 < s < 33 + 2 * f && s != 1 + f && 0 <= k < 512 ==> d[s][k] == 0
  }

  lemma BootBytes(total: u16, f: u16, rest: seq<byte>)
    requires |rest| == SECTOR_SIZE
    ensures var b := BootSector(total, f, rest);
            && b[13] == 4 && b[14] == 1 && b[15] == 0 && b[16] == 2
            && b[19] == total % 256 && b[20] == total / 256 && b[22] == f % 256 && b[23] == f / 256
            && forall i :: 0 <= i < 512 && i !in {13, 14, 15, 16, 19, 20, 22, 23} ==> b[i] == rest[i]
  {
  }

  lemma BootPlanned(total: nat, rest: seq<byte>)
    requires 37 <= total && FatSectors(total) < 65536 && |rest| == SECTOR_SIZE
    ensures var b := BootSector(Total16(total), FatSectors(total), rest);
            BootPlan(b, total, rest) && b[22] as int + 256 * (b[23] as int) == FatSectors(total)
  {
    hide FatSectors, BootSector;
    FatSectorsBound(total);
    BootBytes(Total16(total), FatSectors(total), rest);
  }

  lemma LayoutIs(d: Disk, f: nat)
    requires SectorsOk(d) && Formatted(d, f) && d[0][22] as int + 256 * (d[0][23] as int) == f
    ensures LaidOut(d)
  {
  }

  lemma HeadEntry(c: nat)
    requires c < FAT_PER_SECTOR
    ensures var h := FatHead(); Le16(h[2 * c], h[2 * c + 1]) == if c == 0 then 0xFFF8 else if c == 1 then 0xFFFF else 0
  {
  }

  lemma FormattedFat(d: Disk, g: Geometry, c: nat)
    requires SectorsOk(d) && g.WellFormed(|d|) && c < g.limit && g.fatStart == 1 && Formatted(d, g.fatSectors)
    ensures 2 <= c ==> Fat(d, g)[c] == 0
  {
    hide Geometry.WellFormed, FatHead, Fat, ZeroSector, Le16;
    FatEntryAt(d, g, c);
    ClusterRoom(g, |d|);
    EntryPlace(c, g.fatSectors);
    if c < FAT_PER_SECTOR {
      HeadEntry(c);
    } else {
      ZeroEntry(c % FAT_PER_SECTOR);
    }
  }

  lemma ZeroEntry(c: nat)
    requires c < FAT_PER_SECTOR
    ensures var z := ZeroSector(); Le16(z[2 * c], z[2 * c + 1]) == 0
  {
  }

  lemma FormattedRoot(d: Disk, g: Geometry, i: nat)
    requires SectorsOk(d) && g.WellFormed(|d|) && Formatted(d, g.fatSectors) && g.rootStart == RESERVED + 2 * g.fatSectors
    requires i < |DirAt(VolOf(d, g), 0)|
    ensures IsFree(DirAt(VolOf(d, g), 0)[i])
  {
    hide Geometry.WellFormed, VolOf, Region, FatHead;
    ClusterRoom(g, |d|);
    DirRegion(d, g, 0);
    var r := VolOf(d, g).Dir(0);
    RegionByte(d, i / ENTRIES_PER_SECTOR, 32 * (i % ENTRIES_PER_SECTOR), g.rootStart, ROOT_DIR_SECTORS);
    assert SECTOR_SIZE * (i / ENTRIES_PER_SECTOR) + 32 * (i % ENTRIES_PER_SECTOR) == 32 * i;
    assert r[32 * i..32 * i + 32][..11][0] == r[32 * i];
  }

  /** The filesystem on a freshly formatted volume. */
  ghost function EmptyFs(v: Vol, g: Geometry): Fs
    requires 0 < |v.data|
  {
    Fs(g, v.fat, v.data, map[0 := DirAt(v, 0)], map[], map[])
  }

  lemma VolClusters(d: Disk, g: Geometry)
    requires SectorsOk(d) && g.WellFormed(|d|)
    ensures 0 < |VolOf(d, g).data|
  {
  }

  lemma EmptyInv(d: Disk, g: Geometry)
    requires SectorsOk(d) && g.WellFormed(|d|) && Formatted(d, g.fatSectors) && g.rootStart == RESERVED + 2 * g.fatSectors
    ensures Inv(EmptyFs(VolOf(d, g), g)) && Rep(EmptyFs(VolOf(d, g), g), VolOf(d, g))
  {
    hide FatHead, Region, Fat, GetName, Cluster;
    var v := VolOf(d, g);
    var fs := EmptyFs(v, g);
    forall i | 0 <= i < |fs.tab[0]|
      ensures IsFree(fs.tab[0][i])
    {
      FormattedRoot(d, g, i);
    }
    assert Tidy(fs.tab[0]);
    assert forall p :: !IsOwner(fs, p);
  }

  /**
   * The writes of format, for 512-byte blocks and any device whose FAT size fits its 16-bit field: the sectors
   * mean an empty tree with the planned geometry, two equal FATs and every cluster free.
   */
  method FormatSectors(dev: BlockDevice, rest: seq<byte>) returns (r: Result<()>, ghost fs: Fs)
    requires dev.Valid() && dev.blockSize == SECTOR_SIZE && 37 <= |dev.blocks| && |rest| == SECTOR_SIZE
    requires FatSectors(|dev.blocks|) < 65536
    modifies dev
    ensures dev.Valid() && r == Ok(()) && |dev.blocks| == |old(dev.blocks)|
    ensures var g := Planned(|dev.blocks|);
            && GeometryOf(dev.blocks[0], |dev.blocks|) == g && g.WellFormed(|dev.blocks|)
            && fs.g == g && Inv(fs) && Rep(fs, VolOf(dev.blocks, g)) && fs.own == map[] && Mirrored(dev.blocks, g)
            && |fs.fat| == g.limit && forall c :: 2 <= c < g.limit ==> fs.fat[c] == 0
    ensures BootPlan(dev.blocks[0], |dev.blocks|, rest) && LaidOut(dev.blocks)
    ensures var f := dev.blocks[0][22] as int + 256 * (dev.blocks[0][23] as int);
            forall s :: 33 + 2 * f <= s < |dev.blocks| ==> dev.blocks[s] == old(dev.blocks)[s]
  {
    hide FatSectors, BootSector, FatHead, Planned, Geometry.WellFormed, Geometry.ScansFit, GeometryOf, Formatted,
         VolOf, Inv, Rep, Total16, BootPlan, LaidOut;
    var total := |dev.blocks|;
    FatSectorsBound(total);
    MountReadsFormat(total, rest);
    PlannedWellFormed(total);
    PlannedFields(total);
    var f := FatSectors(total);
    BootPlanned(total, rest);
    r := WriteLayout(dev, BootSector(Total16(total), f, rest), f);
    LayoutIs(dev.blocks, f);
    ghost var g := Planned(total);
    VolClusters(dev.blocks, g);
    fs := EmptyFs(VolOf(dev.blocks, g), g);
    EmptyInv(dev.blocks, g);
    forall c | 2 <= c < g.limit
      ensures fs.fat[c] == 0
    {
      FormattedFat(dev.blocks, g, c);
    }
    FormattedSynced(dev.blocks, g);
  }

  /**
   * format, for a device below 65536 blocks: a valid, empty volume. On a larger one the sectors are as above,
   * and the first allocation fails on its subtraction.
   */
  method FormatDevice(dev: BlockDevice, rest: seq<byte>) returns (r: Result<Fat16>)
    requires dev.Valid() && dev.blockSize == SECTOR_SIZE && 37 <= |dev.blocks| < 65536 && |rest| == SECTOR_SIZE
    modifies dev
    ensures r.Ok? && fresh(r.value) && r.value.device == dev && r.value.Valid() && r.value.Synced()
    ensures r.value.g == Planned(|old(dev.blocks)|) && r.value.fs.own == map[] && |r.value.fs.fat| == r.value.g.limit
    ensures Bootable(r.value) && BootPlan(r.value.boot, |old(dev.blocks)|, rest)
    ensures forall c :: 2 <= c < r.value.g.limit ==> r.value.fs.fat[c] == 0
  {
    hide FatSectors, Planned, Geometry.WellFormed, Geometry.ScansFit, GeometryOf, VolOf, Inv, Rep, Mirrored, BootPlan, LaidOut;
    FatSectorsBound(|dev.blocks|);
    PlannedWellFormed(|dev.blocks|);
    var _, fs := FormatSectors(dev, rest);
    r := Mount(dev, fs);
  }

  lemma PlannedFields(total: nat)
    requires RESERVED + ROOT_DIR_SECTORS <= total
    ensures var g := Planned(total); var f := FatSectors(total);
            g.fatSectors == f && g.fatStart == RESERVED && g.rootStart == RESERVED + 2 * f
  {
  }

  /** The writes of format, in its order. */
  method WriteLayout(dev: BlockDevice, boot: seq<byte>, f: nat) returns (r: Result<()>)
    requires dev.Valid() && dev.blockSize == SECTOR_SIZE && |boot| == SECTOR_SIZE
    requires 1 <= f && RESERVED + 2 * f + ROOT_DIR_SECTORS <= |dev.blocks|
    modifies dev
    ensures dev.Valid() && |dev.blocks| == |old(dev.blocks)| && r == Ok(())
    ensures dev.blocks[0] == boot && Formatted(dev.blocks, f)
    ensures forall s :: RESERVED + 2 * f + ROOT_DIR_SECTORS <= s < |dev.blocks| ==> dev.blocks[s] == old(dev.blocks)[s]
  {
    hide FatHead, ZeroSector;
    var _ :- dev.WriteBlock(0, boot);
    var _ :- dev.WriteBlock(RESERVED, FatHead());
    var _ :- dev.WriteBlock(RESERVED + f, FatHead());
    var _ :- ZeroSectors(dev, RESERVED + 1, f - 1);
    var _ :- ZeroSectors(dev, RESERVED + f + 1, f - 1);
    var _ :- ZeroSectors(dev, RESERVED + 2 * f, ROOT_DIR_SECTORS);
    return Ok(());
  }

  /** The boot sector of the driver's device describes its geometry; neither ever changes. */
  ghost predicate Bootable(vol: Fat16) {
    |vol.boot| == SECTOR_SIZE && GeometryOf(vol.boot, vol.blocks) == vol.g
  }

  /** Fat16::new: the geometry comes from the boot sector, and the volume means what it meant. */
  method Mount(dev: BlockDevice, ghost fs: Fs) returns (r: Result<Fat16>)
    requires dev.Valid() && dev.blockSize == SECTOR_SIZE && 0 < |dev.blocks|
    requires var g := GeometryOf(dev.blocks[0], |dev.blocks|);
             g.WellFormed(|dev.blocks|) && g.ScansFit() && fs.g == g && Inv(fs) && Rep(fs, VolOf(dev.blocks, g))
    ensures r.Ok? && fresh(r.value) && r.value.device == dev && r.value.Valid() && r.value.fs == fs
    ensures r.value.g == GeometryOf(dev.blocks[0], |dev.blocks|) && Bootable(r.value)
  {
    hide Geometry.WellFormed, Geometry.ScansFit, Inv, Rep, GeometryOf;
    var sector :- dev.ReadBlock(0, SECTOR_SIZE);
    var g := GeometryOf(sector, |dev.blocks|);
    var fat := new Fat16(dev, g, fs);
    return Ok(fat);
  }

  /**
   * Mounting again: whatever a driver that was mounted has done to its device since, a new mount of that
   * device gives back the same geometry, the same files and directories, and equal FATs if they were equal.
   */
  method Remount(vol: Fat16) returns (r: Result<Fat16>)
    requires vol.Valid() && Bootable(vol)
    ensures r.Ok? && fresh(r.value) && r.value.device == vol.device && r.value.Valid() && Bootable(r.value)
    ensures r.value.g == vol.g && r.value.fs == vol.fs
    ensures vol.Synced() ==> r.value.Synced()
  {
    hide Geometry.WellFormed, Geometry.ScansFit, Inv, Rep, GeometryOf;
    r := Mount(vol.device, vol.fs);
  }

  lemma FormattedSynced(d: Disk, g: Geometry)
    requires Formatted(d, g.fatSectors) && g.fatStart == RESERVED
    ensures Mirrored(d, g)
  {
    hide FatHead, ZeroSector;
  }
}
