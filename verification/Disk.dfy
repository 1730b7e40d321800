/**
 * The block device and the on-disk layout of a FAT16 volume: where the FATs, the root directory and
 * the clusters lie, and what a volume looks like once its sectors are read as a whole.
 */
module Disk {
  import opened Bytes

  type Disk = seq<seq<byte>>

  ghost predicate SectorsOk(d: Disk) {
    forall i :: 0 <= i < |d| ==> |d[i]| == SECTOR_SIZE
  }

  /** The bytes of n consecutive sectors. */
  ghost function Region(d: Disk, start: nat, n: nat): (r: seq<byte>)
    requires SectorsOk(d) && start + n <= |d|
    ensures |r| == n * SECTOR_SIZE
  {
    seq(n * SECTOR_SIZE, k requires 0 <= k < n * SECTOR_SIZE => d[start + k / SECTOR_SIZE][k % SECTOR_SIZE])
  }

  lemma RegionFrame(d: Disk, s: nat, buf: seq<byte>, start: nat, n: nat)
    requires SectorsOk(d) && start + n <= |d| && s < |d| && |buf| == SECTOR_SIZE
    requires s < start || start + n <= s
    ensures Region(d[s := buf], start, n) == Region(d, start, n)
  {
  }

  lemma RegionSame(d: Disk, d': Disk, start: nat, n: nat)
    requires SectorsOk(d) && SectorsOk(d') && start + n <= |d| == |d'|
    requires forall s :: start <= s < start + n ==> d'[s] == d[s]
    ensures Region(d', start, n) == Region(d, start, n)
  {
  }

  lemma RegionHit(d: Disk, j: nat, buf: seq<byte>, start: nat, n: nat)
    requires SectorsOk(d) && start + n <= |d| && j < n && |buf| == SECTOR_SIZE
    ensures Region(d[start + j := buf], start, n) == Splice(Region(d, start, n), SECTOR_SIZE * j, buf)
  {
    var r := Region(d[start + j := buf], start, n);
    var t := Splice(Region(d, start, n), SECTOR_SIZE * j, buf);
    forall k | 0 <= k < |r|
      ensures r[k] == t[k]
    {
      if k / SECTOR_SIZE == j {
        assert k - SECTOR_SIZE * j == k % SECTOR_SIZE;
      }
    }
  }

  lemma RegionSector(d: Disk, j: nat, start: nat, n: nat)
    requires SectorsOk(d) && start + n <= |d| && j < n
    ensures Region(d, start, n)[SECTOR_SIZE * j..SECTOR_SIZE * j + SECTOR_SIZE] == d[start + j]
  {
    var r := Region(d, start, n)[SECTOR_SIZE * j..SECTOR_SIZE * j + SECTOR_SIZE];
    forall k | 0 <= k < SECTOR_SIZE
      ensures r[k] == d[start + j][k]
    {
      assert (SECTOR_SIZE * j + k) / SECTOR_SIZE == j;
    }
  }

  lemma RegionByte(d: Disk, j: nat, o: nat, start: nat, n: nat)
    requires SectorsOk(d) && start + n <= |d| && j < n && o < SECTOR_SIZE
    ensures SECTOR_SIZE * j + o < n * SECTOR_SIZE && Region(d, start, n)[SECTOR_SIZE * j + o] == d[start + j][o]
  {
    assert (SECTOR_SIZE * j + o) / SECTOR_SIZE == j && (SECTOR_SIZE * j + o) % SECTOR_SIZE == o;
  }

  /** An in-memory block device (kernel/src/filesys/block/memory.rs). */
  class BlockDevice {
    var blocks: Disk
    const blockSize: nat

    ghost predicate Valid()
      reads this
    {
      forall i :: 0 <= i < |blocks| ==> |blocks[i]| == blockSize
    }

    constructor (totalBlocks: nat, blockSize: nat)
      ensures Valid() && this.blockSize == blockSize && |blocks| == totalBlocks
      ensures forall i, k :: 0 <= i < totalBlocks && 0 <= k < blockSize ==> blocks[i][k] == 0
    {
      blocks := seq(totalBlocks, i => seq(blockSize, k => 0));
      this.blockSize := blockSize;
    }

    method ReadBlock(n: nat, len: nat) returns (r: Result<seq<byte>>)
      requires Valid()
      ensures n < |blocks| && len == blockSize ==> r == Ok(blocks[n])
      ensures !(n < |blocks| && len == blockSize) ==> r == Err(IOError)
    {
      if n >= |blocks| || len != blockSize {
        return Err(IOError);
      }
      return Ok(blocks[n]);
    }

    method WriteBlock(n: nat, buf: seq<byte>) returns (r: Result<()>)
      requires Valid()
      modifies this
      ensures Valid()
      ensures n < |old(blocks)| && |buf| == blockSize ==> r == Ok(()) && blocks == old(blocks)[n := buf]
      ensures !(n < |old(blocks)| && |buf| == blockSize) ==> r == Err(IOError) && blocks == old(blocks)
    {
      if n >= |blocks| || |buf| != blockSize {
        return Err(IOError);
      }
      blocks := blocks[n := buf];
      return Ok(());
    }
  }
}
