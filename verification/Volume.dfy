/**
 * The volume a mounted disk denotes: its FAT as a sequence of links, its root directory and its
 * clusters as byte strings. Each lemma says what one sector write does to that view.
 */
module Volume {
  import opened Bytes
  import opened Disk

  const ROOT_DIR_SECTORS := 32
  const FAT_PER_SECTOR := 256
  const END_OF_CHAIN: u16 := 0xFFF8

  /**
   * What Fat16::new computes from the boot sector. `limit` bounds the cluster numbers whose FAT entry
   * lies in one FAT copy and whose sectors lie on the device.
   */
  datatype Geometry = Geometry(
    fatStart: nat, fatSectors: nat, fatCount: nat, rootStart: nat, dataStart: nat,
    spc: nat, total16: u16, limit: nat)
  {
    function ClusterSize(): nat {
      spc * SECTOR_SIZE
    }

    /** Both cluster_to_sector functions. */
    function ClusterSector(c: nat): (s: nat)
      requires 2 <= c
      ensures dataStart <= s
    {
      dataStart + (c - 2) * spc
    }

    /** One past the last cluster Fat16::allocate_cluster looks at. */
    function MountScan(): u16
      requires 1 <= spc && dataStart <= total16
    {
      (total16 - dataStart) / spc % 65536
    }

    /** One past the last cluster Fat16File::allocate_cluster looks at. */
    function GrowScan(): u16
      requires 1 <= spc
    {
      dataStart / ClusterSize() % 65536
    }

    ghost predicate WellFormed(total: nat) {
      && 1 <= fatStart && 1 <= fatCount
      && fatStart + fatSectors <= rootStart
      && (fatCount > 1 ==> fatStart + 2 * fatSectors <= rootStart)
      && dataStart == rootStart + ROOT_DIR_SECTORS
      && 1 <= spc <= 128
      && 2 <= limit <= fatSectors * FAT_PER_SECTOR
      && limit <= END_OF_CHAIN
      && dataStart + (limit - 2) * spc <= total
    }

    /** Neither allocator looks past the clusters of the volume. */
    ghost predicate ScansFit() {
      && 1 <= spc && dataStart <= total16
      && MountScan() <= limit
      && GrowScan() <= limit
    }

    /** First sector and number of sectors of the directory in cluster d (0 is the root). */
    function DirStart(d: nat): nat
      requires d == 0 || 2 <= d
    {
      if d == 0 then rootStart else ClusterSector(d)
    }

    function DirSectors(d: nat): nat {
      if d == 0 then ROOT_DIR_SECTORS else spc
    }
  }

  /** Fat16::allocate_cluster looks at cluster c: so many sectors behind the front areas are on the volume. */
  ghost predicate Scanned(g: Geometry, c: nat) {
    g.dataStart + (c + 1) * g.spc <= g.total16
  }

  lemma MountRange(g: Geometry, c: nat)
    requires 1 <= g.spc && g.dataStart <= g.total16
    ensures c < g.MountScan() <==> Scanned(g, c)
  {
    var n := g.total16 - g.dataStart;
    var q := n / g.spc;
    DivRange(n, g.spc, c);
    DivBelow(n, g.spc);
    assert g.MountScan() == q;
  }

  /** Fat16File::allocate_cluster looks at cluster c: so many bytes, counted as sectors, lie before the data. */
  ghost predicate GrowScanned(g: Geometry, c: nat) {
    (c + 1) * (g.spc * 512) <= g.dataStart
  }

  /** As long as the quotient is one that the cast to u16 keeps. */
  lemma GrowRange(g: Geometry, c: nat)
    requires 1 <= g.spc && g.dataStart < 65536 * g.ClusterSize()
    ensures c < g.GrowScan() <==> GrowScanned(g, c)
  {
    var k := g.ClusterSize();
    DivRange(g.dataStart, k, c);
    DivRange(g.dataStart, k, 65535);
  }

  lemma DivRange(n: nat, k: nat, c: nat)
    requires 1 <= k
    ensures c < n / k <==> (c + 1) * k <= n
  {
    var q := n / k;
    assert n == q * k + n % k;
    if c < q {
      Stride(c, q, k);
    } else {
      assert (c + 1) * k >= q * k + k by {
        Stride(q, c + 1, k);
      }
    }
  }

  lemma DivBelow(n: nat, k: nat)
    requires 1 <= k
    ensures n / k <= n
  {
    DivRange(n, k, n);
    Stride(0, n + 1, k);
  }

  /** boot is the sector that mounting reads, and blocks the number of sectors of the device. */
  datatype Vol = Vol(fat: seq<u16>, root: seq<byte>, data: seq<seq<byte>>, boot: seq<byte>, blocks: nat) {
    /** The bytes of the directory in cluster d. */
    function Dir(d: nat): seq<byte>
      requires d < |data|
    {
      if d == 0 then root else data[d]
    }

    function SetDir(d: nat, s: seq<byte>): Vol
      requires d < |data|
    {
      if d == 0 then this.(root := s) else this.(data := data[d := s])
    }
  }

  lemma Stride(a: int, b: int, k: nat)
    requires -1 <= a < b
    ensures a * k + k <= b * k && 0 <= b * k
    decreases b - a
  {
    assert b * k == (b - 1) * k + k;
    if a + 1 < b {
      Stride(a, b - 1, k);
    }
  }

  lemma ClusterFits(g: Geometry, total: nat, c: nat)
    requires g.WellFormed(total) && 2 <= c < g.limit
    ensures g.ClusterSector(c) + g.spc <= total
  {
    Stride(c - 2, g.limit - 2, g.spc);
  }

  lemma ClustersApart(g: Geometry, c: nat, e: nat)
    requires 2 <= c < e
    ensures g.ClusterSector(c) + g.spc <= g.ClusterSector(e)
  {
    Stride(c - 2, e - 2, g.spc);
  }

  /** The layout, without the size of the data area. */
  lemma ClusterRoom(g: Geometry, total: nat)
    requires g.WellFormed(total)
    ensures 1 <= g.fatStart && g.fatStart + g.fatSectors <= g.rootStart && g.dataStart == g.rootStart + ROOT_DIR_SECTORS
    ensures g.dataStart <= total && 2 <= g.limit <= g.fatSectors * FAT_PER_SECTOR
  {
    Stride(-1, g.limit - 2, g.spc);
  }

  /** The first n links of a FAT region. */
  function Links(r: seq<byte>, n: nat): (l: seq<u16>)
    requires 2 * n <= |r|
    ensures |l| == n
  {
    seq(n, c requires 0 <= c < n => Le16(r[2 * c], r[2 * c + 1]))
  }

  ghost function Fat(d: Disk, g: Geometry): (r: seq<u16>)
    requires SectorsOk(d) && g.WellFormed(|d|)
    ensures |r| == g.limit
  {
    ClusterRoom(g, |d|);
    Links(Region(d, g.fatStart, g.fatSectors), g.limit)
  }

  ghost function Cluster(d: Disk, g: Geometry, c: nat): (r: seq<byte>)
    requires SectorsOk(d) && g.WellFormed(|d|) && c < g.limit
    ensures 2 <= c ==> |r| == g.ClusterSize()
  {
    if c < 2 then [] else
      ClusterFits(g, |d|, c);
      Region(d, g.ClusterSector(c), g.spc)
  }

  ghost function VolOf(d: Disk, g: Geometry): (v: Vol)
    requires SectorsOk(d) && g.WellFormed(|d|)
    ensures |v.fat| == |v.data| == g.limit && v.fat == Fat(d, g)
    ensures |v.root| == ROOT_DIR_SECTORS * SECTOR_SIZE && 0 < |d| && v.boot == d[0] && v.blocks == |d|
    ensures forall c :: 2 <= c < g.limit ==> |v.data[c]| == g.ClusterSize()
  {
    ClusterRoom(g, |d|);
    Vol(Fat(d, g),
        Region(d, g.rootStart, ROOT_DIR_SECTORS),
        seq(g.limit, c requires 0 <= c < g.limit => Cluster(d, g, c)),
        d[0], |d|)
  }

  /** The region of a directory is what VolOf says its bytes are. */
  lemma DirRegion(d: Disk, g: Geometry, c: nat)
    requires SectorsOk(d) && g.WellFormed(|d|) && c < g.limit && (c == 0 || 2 <= c)
    ensures g.DirStart(c) + g.DirSectors(c) <= |d|
    ensures VolOf(d, g).Dir(c) == Region(d, g.DirStart(c), g.DirSectors(c))
  {
    ClusterRoom(g, |d|);
    if c != 0 {
      ClusterFits(g, |d|, c);
    }
  }

  /** A FAT sector with the entry of cluster c replaced. */
  function PutEntry(sector: seq<byte>, c: nat, v: u16): (r: seq<byte>)
    requires |sector| == SECTOR_SIZE
    ensures |r| == SECTOR_SIZE
  {
    sector[2 * (c % FAT_PER_SECTOR) := Lo(v)][2 * (c % FAT_PER_SECTOR) + 1 := Hi(v)]
  }

  lemma FatEntryAt(d: Disk, g: Geometry, c: nat)
    requires SectorsOk(d) && g.WellFormed(|d|) && c < g.limit
    ensures g.fatStart + c / FAT_PER_SECTOR < |d|
    ensures var s := d[g.fatStart + c / FAT_PER_SECTOR]; var o := 2 * (c % FAT_PER_SECTOR);
            Fat(d, g)[c] == Le16(s[o], s[o + 1])
  {
    hide Geometry.WellFormed, Region;
    ClusterRoom(g, |d|);
    EntryPlace(c, g.fatSectors);
    RegionByte(d, c / FAT_PER_SECTOR, 2 * (c % FAT_PER_SECTOR), g.fatStart, g.fatSectors);
    RegionByte(d, c / FAT_PER_SECTOR, 2 * (c % FAT_PER_SECTOR) + 1, g.fatStart, g.fatSectors);
  }

  /** The FAT entry of cluster c is 2 bytes of sector c / 256 of the FAT. */
  lemma EntryPlace(c: nat, sectors: nat)
    requires c < sectors * FAT_PER_SECTOR
    ensures c / FAT_PER_SECTOR < sectors
    ensures 2 * c == SECTOR_SIZE * (c / FAT_PER_SECTOR) + 2 * (c % FAT_PER_SECTOR)
  {
  }

  /** Writing a sector outside the boot sector, the first FAT, the root directory and the clusters is invisible. */
  lemma WriteMirror(d: Disk, g: Geometry, s: nat, buf: seq<byte>)
    requires SectorsOk(d) && g.WellFormed(|d|) && |buf| == SECTOR_SIZE && s < |d|
    requires 0 < s < g.fatStart || g.fatStart + g.fatSectors <= s < g.rootStart
    ensures VolOf(d[s := buf], g) == VolOf(d, g)
  {
    ClusterRoom(g, |d|);
    RegionFrame(d, s, buf, g.fatStart, g.fatSectors);
    RegionFrame(d, s, buf, g.rootStart, ROOT_DIR_SECTORS);
    ClustersFrame(d, g, s, buf, g.limit);
  }

  lemma ClustersFrame(d: Disk, g: Geometry, s: nat, buf: seq<byte>, e: nat)
    requires SectorsOk(d) && g.WellFormed(|d|) && |buf| == SECTOR_SIZE && s < |d|
    requires 2 <= e <= g.limit
    requires forall c :: 2 <= c < g.limit && c != e ==> s < g.ClusterSector(c) || g.ClusterSector(c) + g.spc <= s
    ensures forall c :: 0 <= c < g.limit && c != e ==> Cluster(d[s := buf], g, c) == Cluster(d, g, c)
  {
    forall c | 0 <= c < g.limit && c != e
      ensures Cluster(d[s := buf], g, c) == Cluster(d, g, c)
    {
      if 2 <= c {
        ClusterFits(g, |d|, c);
        RegionFrame(d, s, buf, g.ClusterSector(c), g.spc);
      }
    }
  }

  ghost function FatWrite(d: Disk, g: Geometry, c: nat, v: u16): (d': Disk)
    requires SectorsOk(d) && g.WellFormed(|d|) && c < g.limit
    ensures SectorsOk(d') && |d'| == |d|
  {
    ClusterRoom(g, |d|);
    EntryPlace(c, g.fatSectors);
    var s := g.fatStart + c / FAT_PER_SECTOR;
    d[s := PutEntry(d[s], c, v)]
  }

  lemma LinksPut(r: seq<byte>, sector: seq<byte>, n: nat, c: nat, v: u16)
    requires |r| % SECTOR_SIZE == 0 && 2 * n <= |r| && c < n && |sector| == SECTOR_SIZE
    requires SECTOR_SIZE * (c / FAT_PER_SECTOR) + SECTOR_SIZE <= |r|
    requires r[SECTOR_SIZE * (c / FAT_PER_SECTOR)..SECTOR_SIZE * (c / FAT_PER_SECTOR) + SECTOR_SIZE] == sector
    ensures Links(Splice(r, SECTOR_SIZE * (c / FAT_PER_SECTOR), PutEntry(sector, c, v)), n) == Links(r, n)[c := v]
  {
    var at := SECTOR_SIZE * (c / FAT_PER_SECTOR);
    var t := Splice(r, at, PutEntry(sector, c, v));
    forall k | 0 <= k < |r|
      ensures t[k] == if k == 2 * c then Lo(v) else if k == 2 * c + 1 then Hi(v) else r[k]
    {
      if at <= k < at + SECTOR_SIZE {
        assert r[k] == sector[k - at];
      }
    }
  }

  lemma FatWritten(d: Disk, g: Geometry, c: nat, v: u16)
    requires SectorsOk(d) && g.WellFormed(|d|) && c < g.limit
    ensures Fat(FatWrite(d, g, c, v), g) == Fat(d, g)[c := v]
  {
    hide Geometry.WellFormed, Region, Links, PutEntry;
    ClusterRoom(g, |d|);
    EntryPlace(c, g.fatSectors);
    var j := c / FAT_PER_SECTOR;
    var sector := d[g.fatStart + j];
    RegionHit(d, j, PutEntry(sector, c, v), g.fatStart, g.fatSectors);
    RegionSector(d, j, g.fatStart, g.fatSectors);
    LinksPut(Region(d, g.fatStart, g.fatSectors), sector, g.limit, c, v);
  }

  /** Writing a FAT entry changes that link and nothing else of the volume. */
  lemma WriteFat(d: Disk, g: Geometry, c: nat, v: u16)
    requires SectorsOk(d) && g.WellFormed(|d|) && c < g.limit
    ensures VolOf(FatWrite(d, g, c, v), g) == VolOf(d, g).(fat := Fat(d, g)[c := v])
  {
    hide Geometry.WellFormed, Region, Links, PutEntry;
    ClusterRoom(g, |d|);
    FatWritten(d, g, c, v);
    var s := g.fatStart + c / FAT_PER_SECTOR;
    EntryPlace(c, g.fatSectors);
    var buf := PutEntry(d[s], c, v);
    ClustersFrame(d, g, s, buf, g.limit);
    RegionFrame(d, s, buf, g.rootStart, ROOT_DIR_SECTORS);
    assert VolOf(FatWrite(d, g, c, v), g).data == VolOf(d, g).data;
  }

  /** Writing one sector of a directory replaces that sector of its bytes. */
  lemma WriteDirSector(d: Disk, g: Geometry, c: nat, j: nat, buf: seq<byte>)
    requires SectorsOk(d) && g.WellFormed(|d|) && c < g.limit && (c == 0 || 2 <= c)
    requires j < g.DirSectors(c) && |buf| == SECTOR_SIZE
    ensures g.DirStart(c) + j < |d|
    ensures var d' := d[g.DirStart(c) + j := buf];
            SectorsOk(d') &&
            SECTOR_SIZE * j + SECTOR_SIZE <= |VolOf(d, g).Dir(c)| &&
            VolOf(d', g) == VolOf(d, g).SetDir(c, Splice(VolOf(d, g).Dir(c), SECTOR_SIZE * j, buf))
  {
    hide Geometry.WellFormed, Region, Links;
    DirRegion(d, g, c);
    ClusterRoom(g, |d|);
    var s := g.DirStart(c) + j;
    var d' := d[s := buf];
    RegionHit(d, j, buf, g.DirStart(c), g.DirSectors(c));
    RegionFrame(d, s, buf, g.fatStart, g.fatSectors);
    if c == 0 {
      ClustersFrame(d, g, s, buf, g.limit);
    } else {
      RegionFrame(d, s, buf, g.rootStart, ROOT_DIR_SECTORS);
      forall e | 2 <= e < g.limit && e != c
        ensures s < g.ClusterSector(e) || g.ClusterSector(e) + g.spc <= s
      {
        if e < c { ClustersApart(g, e, c); } else { ClustersApart(g, c, e); }
      }
      ClustersFrame(d, g, s, buf, c);
      DirRegion(d', g, c);
      assert VolOf(d', g).data == VolOf(d, g).data[c := Splice(VolOf(d, g).Dir(c), SECTOR_SIZE * j, buf)];
    }
  }
}
