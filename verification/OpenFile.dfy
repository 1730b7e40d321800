/**
 * Open files (kernel/src/filesys/fat16/file.rs): the read, write and seek loops. A file is the byte
 * string its chain spells up to its size; a write replaces exactly the bytes it is given, and a read
 * returns exactly the bytes that are there.
 */
module OpenFile {
  import opened Basics
  import opened Bytes
  import opened Disk
  import opened Volume
  import opened Names
  import opened Directory
  import opened FileSystem
  import opened FileIO
  import opened FileRuns
  import Namespace
  import opened FatDevice
  import opened Fat16Driver

  class Fat16File {
    var currentCluster: u16
    var position: nat
    var size: nat
    const clusterSize: nat
    const entryPosition: nat
    ghost const slot: Pos

    constructor (currentCluster: u16, size: nat, clusterSize: nat, entryPosition: nat, ghost slot: Pos)
      ensures this.currentCluster == currentCluster && this.position == 0 && this.size == size
      ensures this.clusterSize == clusterSize && this.entryPosition == entryPosition && this.slot == slot
    {
      this.currentCluster, this.position, this.size := currentCluster, 0, size;
      this.clusterSize, this.entryPosition, this.slot := clusterSize, entryPosition, slot;
    }

    ghost function H(): Handle
      reads this
    {
      Handle(slot, currentCluster, position, size)
    }

    /** The file is open on vol and its cursor is right; the size on disk may lag behind. */
    ghost predicate Open(vol: Fat16)
      reads this, vol, vol.device
    {
      && vol.Valid() && Cursor(vol.fs, H()) && clusterSize == vol.g.ClusterSize()
      && DirCluster(vol.g, slot.0) && entryPosition == SlotPos(vol.g, slot.0, slot.1)
    }

    /** The first half of a round of write_file: the chunk goes into the current cluster. */
    method PutChunk(vol: Fat16, t: seq<byte>)
      requires Open(vol) && 1 <= clusterSize && Offset(H(), clusterSize) + |t| <= clusterSize
      modifies this, vol, vol.device
      ensures vol.Valid() && 1 <= clusterSize && Chunkable(old(vol.fs), old(H()), t)
      ensures vol.fs == Chunk(old(vol.fs), old(H()), t) && H() == Advanced(old(H()), |t|)
      ensures old(vol.Synced()) ==> vol.Synced()
      ensures SameMirror(old(vol.device.blocks), vol.device.blocks, vol.g)
    {
      hide Inv, Rep, View, Geometry.WellFormed, Cursor;
      ghost var fs, h, v := vol.fs, H(), View(vol.device, vol.g);
      ChunkReady(fs, h);
      DataSize(fs, h.cluster);
      QuotIsDiv(position, clusterSize);
      var offset := position % clusterSize;
      var data := ReadCluster(vol.device, vol.g, currentCluster);
      RepBytes(fs, v, h.cluster);
      var bytes := Splice(data.value, offset, t);
      var _ := WriteCluster(vol.device, vol.g, currentCluster, bytes);
      vol.SyncedSame(old(vol.device.blocks));
      SetDataInv(fs, h.cluster, bytes);
      RepData(fs, v, h.cluster, bytes);
      vol.fs := SetData(fs, h.cluster, bytes);
      position := position + |t|;
      size := Max(size, position);
    }

    /**
     * The second half of a round that filled its cluster: on to the next cluster of the chain, or to a
     * new one. fs0, h0 and t are the volume, the cursor and the chunk at the start of the round.
     */
    method Advance(vol: Fat16, ghost fs0: Fs, ghost h0: Handle, ghost t: seq<byte>) returns (r: Result<()>)
      requires vol.Valid() && Inv(fs0) && Cursor(fs0, h0) && Chunkable(fs0, h0, t)
      requires Offset(h0, fs0.g.ClusterSize()) + |t| == fs0.g.ClusterSize()
      requires fs0.own[h0.p] != [] && fs0.own[h0.p][|fs0.own[h0.p]| - 1] < |fs0.fat|
      requires vol.fs == Chunk(fs0, h0, t) && H() == Advanced(h0, |t|)
      modifies this`currentCluster, vol, vol.device
      ensures vol.Valid()
      ensures if r.Ok? then Round(fs0, h0, t, vol.fs, H())
              else r.error == NoSpace && vol.fs == Chunk(fs0, h0, t) && H() == Advanced(h0, |t|)
                   && Quot(h0.position, fs0.g.ClusterSize()) + 1 == |fs0.own[h0.p]| && Spare(fs0.fat, vol.g.GrowScan()) == {}
      ensures SameReach(fs0, vol.fs, slot, vol.g.GrowScan())
      ensures old(vol.Synced()) && vol.fs == old(vol.fs) ==> vol.Synced()
      ensures SameMirror(old(vol.device.blocks), vol.device.blocks, vol.g)
    {
      hide Inv, Rep, View, Geometry.WellFormed, Cursor, Geometry.GrowScan, Chunk, AtCluster, Geometry.ScansFit, Grow,
           EntryOk, SameMirror, Mirrored, SameReach, Reach, Spare;
      ghost var d0 := vol.device.blocks;
      MirrorUntouched(d0, d0, vol.g);
      NextCluster(fs0, h0);
      ChunkOwn(fs0, h0, t);
      ChunkReach(fs0, h0, t, vol.g.GrowScan());
      CursorIndex(fs0, h0);
      RepFatIs(vol.fs, View(vol.device, vol.g));
      var entry := ReadFatEntry(vol.device, vol.g, currentCluster);
      if entry.value < END_OF_CHAIN {
        currentCluster := entry.value;
        return Ok(());
      }
      LastUsed(fs0, h0);
      ghost var fs1 := vol.fs;
      r := Extend(vol);
      ReachTwice(fs0, fs1, vol.fs, slot, vol.g.GrowScan());
    }

    /** A free cluster is taken and linked behind the last one of the chain, in the first FAT only. */
    method Extend(vol: Fat16) returns (r: Result<()>)
      requires vol.Valid() && slot in vol.fs.own && vol.fs.HasSlot(slot) && !IsDirectory(vol.fs.At(slot))
      requires var ch := vol.fs.own[slot];
               && ch != [] && ch[|ch| - 1] == currentCluster < |vol.fs.fat| && vol.fs.fat[currentCluster] != 0
      modifies this`currentCluster, vol, vol.device
      ensures vol.Valid() && SameMirror(old(vol.device.blocks), vol.device.blocks, vol.g)
      ensures SameReach(old(vol.fs), vol.fs, slot, vol.g.GrowScan())
      ensures if r.Ok? then
                && 2 <= currentCluster < |old(vol.fs).fat| && old(vol.fs).fat[currentCluster] == 0
                && vol.fs == Grow(old(vol.fs), slot, currentCluster) != old(vol.fs)
              else
                && r.error == NoSpace && Spare(old(vol.fs).fat, vol.g.GrowScan()) == {} && vol.fs == old(vol.fs)
                && currentCluster == old(currentCluster) && vol.device.blocks == old(vol.device.blocks)
      ensures vol.g.dataStart < 65536 * vol.g.ClusterSize() ==>
                LowestSpare(old(vol.fs).fat, vol.g, if r.Ok? then Ok(currentCluster) else Err(NoSpace))
    {
      hide Inv, Rep, View, Geometry.WellFormed, Taken, Geometry.GrowScan, Geometry.MountScan, Grow, EntryOk, SameMirror,
           Mirrored, LowestSpare, SameReach, Reach, Spare;
      ghost var fs, v, d0 := vol.fs, View(vol.device, vol.g), vol.device.blocks;
      RepFatIs(fs, v);
      DataSize(fs, 0);
      NoneSpare(fs.fat, vol.g.GrowScan());
      ReachStart(fs, slot, vol.g.GrowScan());
      var cluster :- GrowCluster(vol.device, vol.g);
      GrowReach(fs, slot, cluster, vol.g.GrowScan());
      ReachTwice(fs, fs, Grow(fs, slot, cluster), slot, vol.g.GrowScan());
      RepGrow(fs, v, slot, cluster);
      ghost var d1 := vol.device.blocks;
      FatWriteMirror(d1, vol.g, currentCluster, cluster);
      var _ := WriteFirstFat(vol.device, vol.g, currentCluster, cluster);
      MirrorTwice(d0, d1, vol.device.blocks, vol.g);
      GrowInv(fs, slot, cluster);
      GrowDiffers(fs, slot, cluster);
      vol.fs := Grow(fs, slot, cluster);
      currentCluster := cluster;
      return Ok(());
    }

    /** One round of write_file. */
    method WriteRound(vol: Fat16, t: seq<byte>) returns (r: Result<()>, ghost steps: seq<Step>)
      requires Open(vol) && 1 <= clusterSize && Offset(H(), clusterSize) + |t| <= clusterSize
      modifies this, vol, vol.device
      ensures vol.Valid() && Run(old(vol.fs), steps, vol.fs) && forall s :: s in steps ==> IsWrite(s, slot)
      ensures H() == Advanced(old(H()), |t|).(cluster := currentCluster) && vol.fs.tab == old(vol.fs).tab
      ensures Wrote(old(vol.fs), old(H()), t, vol.fs, H())
      ensures SameReach(old(vol.fs), vol.fs, slot, vol.g.GrowScan())
      ensures r.Ok? ==> Open(vol)
      ensures r.Err? ==> r.error == NoSpace && Spent(vol.fs, H(), vol.g.GrowScan())
      ensures old(vol.Synced()) && NoExtend(steps) ==> vol.Synced()
      ensures SameMirror(old(vol.device.blocks), vol.device.blocks, vol.g)
      ensures AsNeeded(old(vol.fs), vol.fs, H())
    {
      hide Inv, Rep, View, Geometry.WellFormed, Cursor, Chunk, Geometry.ScansFit, Run, FileText, SlotPos, Round,
           Spare, SameReach, Spent, IsWrite, Wrote, AsNeeded, SameMirror;
      ghost var fs0, h0, d0 := vol.fs, H(), vol.device.blocks;
      RoundReady(fs0, h0);
      ChunkReach(fs0, h0, t, vol.g.GrowScan());
      QuotIsDiv(position, clusterSize);
      var full := position % clusterSize + |t| == clusterSize;
      PutChunk(vol, t);
      ghost var d1 := vol.device.blocks;
      r := Ok(());
      if full {
        r := Advance(vol, fs0, h0, t);
        MirrorTwice(d0, d1, vol.device.blocks, vol.g);
      }
      if r.Ok? {
        RoundInside(fs0, h0, t, vol.fs, H());
        RoundCursor(fs0, h0, t, vol.fs, H());
        RoundWrote(fs0, h0, t, vol.fs, H());
        steps := RoundRun(fs0, h0, t, vol.fs, H());
        RoundShape(fs0, h0, t, vol.fs, H());
        RoundNeeds(fs0, h0, t, vol.fs, H());
      } else {
        ChunkNeeds(fs0, h0, t);
        ChunkRun(fs0, h0, t);
        steps := [ChunkStep(fs0, h0, t)];
        ChunkText(fs0, h0, t);
        FilledUp(fs0, h0, t, vol.g.GrowScan());
      }
    }

    /** update_directory_entry. */
    method UpdateEntry(vol: Fat16)
      requires Open(vol)
      modifies vol, vol.device
      ensures Open(vol) && size <= 0xFFFF_FFFF && Enabled(old(vol.fs), SetSize(slot, size))
      ensures vol.fs == Apply(old(vol.fs), SetSize(slot, size))
      ensures FileText(vol.fs, H()) == FileText(old(vol.fs), H())
      ensures old(vol.Synced()) ==> vol.Synced()
      ensures SameMirror(old(vol.device.blocks), vol.device.blocks, vol.g)
    {
      hide Inv, Rep, View, Geometry.WellFormed, Geometry.ScansFit, SlotPos, VolPut, FileText, Cursor, Resize, Apply,
           Enabled, Bytes32;
      ghost var fs, v := vol.fs, View(vol.device, vol.g);
      CursorIndex(fs, H());
      SlotInRange(fs, slot);
      SizeStep(fs, H());
      var _ := PatchSlot(vol.device, vol.g, slot.0, slot.1, entryPosition, 28, Bytes32(size % 0x1_0000_0000));
      vol.SyncedSame(old(vol.device.blocks));
      RepResize(fs, v, slot, size);
      ResizeText(fs, H(), size);
      vol.fs := Resize(fs, slot, size);
    }

    /** The loop of write_file: all of buf is written, or all that fits within reach. */
    method WriteLoop(vol: Fat16, buf: seq<byte>) returns (r: Result<()>, ghost steps: seq<Step>)
      requires Open(vol)
      modifies this, vol, vol.device
      ensures vol.Valid() && Run(old(vol.fs), steps, vol.fs) && forall s :: s in steps ==> IsWrite(s, slot)
      ensures old(position) <= position <= old(position) + |buf| && size == Max(old(size), position)
      ensures Wrote(old(vol.fs), old(H()), buf[..position - old(position)], vol.fs, H())
      ensures vol.fs.tab == old(vol.fs).tab && SameReach(old(vol.fs), vol.fs, slot, vol.g.GrowScan())
      ensures r.Ok? ==> Open(vol) && position == old(position) + |buf|
      ensures r.Err? ==> r.error == NoSpace && Spent(vol.fs, H(), vol.g.GrowScan())
      ensures old(vol.Synced()) && NoExtend(steps) ==> vol.Synced()
      ensures SameMirror(old(vol.device.blocks), vol.device.blocks, vol.g)
      ensures AsNeeded(old(vol.fs), vol.fs, H())
    {
      hide Inv, Rep, View, Geometry.WellFormed, Cursor, Geometry.ScansFit, Run, FileText, SlotPos, SameReach, Spent,
           IsWrite, Wrote, AsNeeded, SameMirror, Mirrored, NoExtend;
      ghost var fs0, h0, d0 := vol.fs, H(), vol.device.blocks;
      MirrorUntouched(d0, d0, vol.g);
      RoundReady(fs0, h0);
      steps := [];
      NoExtendJoin([], []);
      var done := 0;
      RunNothing(fs0);
      CursorIndex(fs0, h0);
      WroteNothing(fs0, h0);
      ReachStart(fs0, slot, vol.g.GrowScan());
      NeedsNothing(fs0, h0);
      while done < |buf|
        invariant 0 <= done <= |buf| && Open(vol) && 1 <= clusterSize
        invariant Run(fs0, steps, vol.fs) && forall s :: s in steps ==> IsWrite(s, slot)
        invariant Wrote(fs0, h0, buf[..done], vol.fs, H())
        invariant position == h0.position + done && size == Max(h0.size, position)
        invariant vol.fs.tab == fs0.tab && SameReach(fs0, vol.fs, slot, vol.g.GrowScan())
        invariant old(vol.Synced()) && NoExtend(steps) ==> vol.Synced()
        invariant SameMirror(d0, vol.device.blocks, vol.g) && AsNeeded(fs0, vol.fs, H())
      {
        QuotIsDiv(position, clusterSize);
        var chunk := Min(clusterSize - position % clusterSize, |buf| - done);
        ghost var fs1, h1, d1 := vol.fs, H(), vol.device.blocks;
        var round, more := WriteRound(vol, buf[done..done + chunk]);
        RunConcat(fs0, steps, fs1, more, vol.fs);
        NoExtendJoin(steps, more);
        steps := steps + more;
        WroteMore(fs0, h0, buf, done, chunk, fs1, h1, vol.fs, H());
        ReachTwice(fs0, fs1, vol.fs, slot, vol.g.GrowScan());
        NeedsTwice(fs0, fs1, h1, vol.fs, H());
        MirrorTwice(d0, d1, vol.device.blocks, vol.g);
        if round.Err? {
          r := Err(round.error);
          return;
        }
        done := done + chunk;
      }
      r := Ok(());
    }

    /**
     * write_file. It succeeds exactly when the clusters of the file and the free ones its allocator
     * looks at hold the bytes and one more. A successful write replaces exactly the bytes
     * [position, position + |buf|) of the file, extending it if need be, and leaves the cursor valid. A
     * failed one is NoSpace: it has written the bytes up to the end of the last cluster within reach,
     * position and size are there, the entry on disk still has the old size, and the volume is still
     * sound. Equal FAT copies stay equal exactly if the write does not come to a cluster behind the chain: a
     * new link is written to the first copy only.
     */
    method Write(vol: Fat16, buf: seq<byte>) returns (r: Result<nat>, ghost steps: seq<Step>)
      requires Open(vol)
      modifies this, vol, vol.device
      ensures vol.Valid() && Run(old(vol.fs), steps, vol.fs) && forall s :: s in steps ==> IsWrite(s, slot)
      ensures r.Ok? <==> CanWrite(old(vol.fs), old(H()), |buf|, vol.g.GrowScan())
      ensures if r.Ok? then
                && r.value == |buf| && Open(vol) && Wrote(old(vol.fs), old(H()), buf, vol.fs, H())
                && position == old(position) + |buf| && size == Max(old(size), position) && vol.fs.At(slot).size == size
              else
                && r.error == NoSpace && vol.fs.tab == old(vol.fs).tab && slot in old(vol.fs).own
                && position == size == Reach(old(vol.fs), slot, vol.g.GrowScan()) * clusterSize
                && old(position) <= position <= old(position) + |buf|
                && Wrote(old(vol.fs), old(H()), buf[..position - old(position)], vol.fs, H())
                && Spent(vol.fs, H(), vol.g.GrowScan())
      ensures NoExtend(steps) <==> !Grows(old(vol.fs), old(H()), |buf|, vol.g.GrowScan())
      ensures old(vol.Synced()) ==>
                (vol.Synced() <==> vol.g.fatCount <= 1 || !Grows(old(vol.fs), old(H()), |buf|, vol.g.GrowScan()))
    {
      hide Inv, Rep, VolOf, Geometry.WellFormed, Cursor, Geometry.ScansFit, Run, FileText, SlotPos, SameReach, Spent,
           IsWrite, Wrote, Apply, Enabled, CanWrite, Grows, AsNeeded, Mirrored, SameMirror;
      ghost var fs0, h0, d0 := vol.fs, H(), vol.device.blocks;
      CursorIndex(fs0, h0);
      var written;
      written, steps := WriteLoop(vol, buf);
      if written.Err? {
        WriteFails(fs0, h0, |buf|, vol.fs, H(), vol.g.GrowScan());
        FailedGrows(fs0, h0, |buf|, steps, vol.fs, H(), vol.g.GrowScan());
        if vol.g.fatCount > 1 && Mirrored(d0, vol.g) {
          Diverged(vol, d0, fs0, steps, slot);
        }
        r := Err(written.error);
        return;
      }
      assert buf[..|buf|] == buf;
      WriteFits(fs0, h0, |buf|, vol.fs, H(), vol.g.GrowScan());
      FitGrows(fs0, h0, |buf|, steps, vol.fs, H(), vol.g.GrowScan());
      ghost var fs1, loop := vol.fs, steps;
      ghost var d1 := vol.device.blocks;
      UpdateEntry(vol);
      MirrorTwice(d0, d1, vol.device.blocks, vol.g);
      WroteSame(fs0, h0, buf, fs1, vol.fs, H());
      RunAppend(fs0, steps, fs1, SetSize(slot, size));
      steps := steps + [SetSize(slot, size)];
      assert NoExtend(steps) <==> NoExtend(loop);
      WriteSteps(fs1, slot, size);
      if vol.g.fatCount > 1 && Mirrored(d0, vol.g) {
        Diverged(vol, d0, fs0, steps, slot);
      }
      r := Ok(|buf|);
    }

    /**
     * read_file into a buffer of n bytes: exactly the next bytes of the file, as many as fit or are
     * left, and a valid cursor behind them.
     */
    method Read(vol: Fat16, n: nat) returns (r: Result<seq<byte>>)
      requires Open(vol)
      modifies this
      ensures Open(vol) && |FileText(vol.fs, old(H()))| == old(size) && old(position) <= position <= old(size)
      ensures position == Min(old(position) + n, old(size)) && size == old(size)
      ensures r == Ok(FileText(vol.fs, old(H()))[old(position)..position])
      ensures FileText(vol.fs, H()) == FileText(vol.fs, old(H()))
    {
      hide Inv, Rep, View, Geometry.WellFormed, Cursor, Geometry.ScansFit, FileText, SlotPos;
      ghost var fs, h0 := vol.fs, H();
      RoundReady(fs, h0);
      CursorIndex(fs, h0);
      var out: seq<byte> := [];
      assert FileText(fs, h0)[position..position] == out;
      if position >= size {
        return Ok(out);
      }
      var total := Min(n, size - position);
      while |out| < total
        invariant |out| <= total && position == h0.position + |out| && size == h0.size && Open(vol)
        invariant out == FileText(fs, h0)[h0.position..position]
        invariant FileText(fs, H()) == FileText(fs, h0)
        decreases total - |out|
      {
        var chunk, ended := ReadRound(vol, total - |out|);
        out := out + chunk;
        if ended {
          break;
        }
      }
      return Ok(out);
    }

    /** One round of read_file; it never finds the end of the chain. */
    method ReadRound(vol: Fat16, want: nat) returns (bytes: seq<byte>, ended: bool)
      requires Open(vol) && 1 <= want && position + want <= size
      modifies this
      ensures Open(vol) && 1 <= |bytes| <= want && position == old(position) + |bytes| && size == old(size) && !ended
      ensures position <= |FileText(vol.fs, old(H()))| && bytes == FileText(vol.fs, old(H()))[old(position)..position]
      ensures FileText(vol.fs, H()) == FileText(vol.fs, old(H()))
    {
      hide Inv, Rep, View, Geometry.WellFormed, Cursor, Geometry.ScansFit, FileText, SlotPos;
      ghost var fs, h := vol.fs, H();
      RoundReady(fs, h);
      CursorIndex(fs, h);
      ChunkReady(fs, h);
      NextCluster(fs, h);
      QuotIsDiv(position, clusterSize);
      RepBytes(fs, View(vol.device, vol.g), h.cluster);
      RepFatIs(fs, View(vol.device, vol.g));
      var offset := position % clusterSize;
      var chunk := Min(clusterSize - offset, want);
      var data := ReadCluster(vol.device, vol.g, currentCluster);
      bytes := data.value[offset..offset + chunk];
      ReadBytes(fs, h, chunk);
      position := position + chunk;
      ended := false;
      if offset + chunk == clusterSize {
        ReadMoves(fs, h, chunk);
        var next := ReadFatEntry(vol.device, vol.g, currentCluster);
        ended := next.value >= END_OF_CHAIN;
        if !ended {
          currentCluster := next.value;
        }
      } else {
        ReadStays(fs, h, chunk);
      }
      SameFile(fs, h, H());
    }

    /** seek: the position moves within the file; the current cluster does not move. */
    method Seek(from: SeekFrom) returns (r: Result<nat>)
      modifies this`position
      ensures match from
              case Start(offset) => if offset <= size then Moved(r, offset) else Refused(r, old(position))
              case Current(delta) =>
                if 0 <= old(position) + delta <= size then Moved(r, old(position) + delta) else Refused(r, old(position))
              case End(delta) => if 0 <= size + delta <= size then Moved(r, size + delta) else Refused(r, old(position))
    {
      var target;
      match from {
        case Start(offset) => target := offset;
        case Current(delta) => target := position + delta;
        case End(delta) => target := size + delta;
      }
      if target < 0 || target > size {
        return Err(InvalidOffset);
      }
      position := target;
      return Ok(target);
    }

    predicate Moved(r: Result<nat>, target: int)
      reads this`position
    {
      r == Ok(target) && position == target
    }

    predicate Refused(r: Result<nat>, before: nat)
      reads this`position
    {
      r == Err(InvalidOffset) && position == before
    }
  }

  datatype SeekFrom = Start(offset: nat) | Current(delta: int) | End(delta: int)

  lemma GrowDiffers(fs: Fs, p: Pos, c: nat)
    requires p in fs.own && fs.own[p] != [] && fs.own[p][|fs.own[p]| - 1] < |fs.fat| && c < |fs.fat| && c < 65536
    ensures Grow(fs, p, c) != fs
  {
    assert |Grow(fs, p, c).own[p]| == |fs.own[p]| + 1;
  }

  /** open_file: the cursor starts at the head of the chain. */
  method OpenFileAt(vol: Fat16, path: seq<byte>) returns (r: Result<Fat16File>)
    requires vol.Valid() && Namespace.Walks(vol.fs, Components(path))
    ensures var p := Namespace.Resolve(vol.fs.tab, 0, Components(path));
            if p.Err? then r == Err(p.error)
            else if IsDirectory(vol.fs.tab[p.value.0][p.value.1]) then r == Err(NotSupported)
            else r.Ok? && fresh(r.value) && r.value.Open(vol) && r.value.slot == p.value
                 && r.value.position == 0 && r.value.size == vol.fs.At(p.value).size
  {
    hide Inv, Rep, View, Geometry.WellFormed, Geometry.ScansFit, SlotPos, Components;
    var found, p := vol.FindEntry(path);
    if found.Err? {
      return Err(found.error);
    }
    var (entry, pos) := found.value;
    if IsDirectory(entry) {
      return Err(NotSupported);
    }
    StartCursor(vol.fs, p);
    var file := new Fat16File(entry.cluster, entry.size, vol.g.ClusterSize(), pos, p);
    return Ok(file);
  }

  lemma StartCursor(fs: Fs, p: Pos)
    requires Inv(fs) && p in fs.own && fs.HasSlot(p) && !IsDirectory(fs.At(p))
    ensures Cursor(fs, Handle(p, fs.At(p).cluster, 0, fs.At(p).size))
  {
    hide IsChain;
    assert EntryOk(fs, p);
    QuotUnique(0, fs.g.ClusterSize(), 0);
  }

  lemma SameFile(fs: Fs, h: Handle, h': Handle)
    requires h'.p == h.p && h'.size == h.size
    ensures FileText(fs, h') == FileText(fs, h)
  {
  }

  /** t has been written at the position of h, and nothing else in the file has changed. */
  ghost predicate Wrote(fs: Fs, h: Handle, t: seq<byte>, fs': Fs, h': Handle) {
    h.position <= |FileText(fs, h)| && FileText(fs', h') == Overwrite(FileText(fs, h), h.position, t)
  }

  lemma RoundInside(fs: Fs, h: Handle, t: seq<byte>, fs': Fs, h': Handle)
    requires Chunkable(fs, h, t) && h.p in fs.own && fs.own[h.p] != [] && fs.own[h.p][|fs.own[h.p]| - 1] < |fs.fat|
    requires Offset(h, fs.g.ClusterSize()) + |t| < fs.g.ClusterSize() ==> fs' == Chunk(fs, h, t) && h' == Advanced(h, |t|)
    requires Offset(h, fs.g.ClusterSize()) + |t| == fs.g.ClusterSize() ==> Round(fs, h, t, fs', h')
    ensures Round(fs, h, t, fs', h')
  {
  }

  /** The chain has no more clusters than before, or than the position needs. */
  ghost predicate AsNeeded(fs: Fs, fs': Fs, h': Handle) {
    && h'.p in fs.own && h'.p in fs'.own && 1 <= fs.g.ClusterSize() && fs'.g == fs.g
    && (|fs'.own[h'.p]| == |fs.own[h'.p]| || |fs'.own[h'.p]| <= h'.position / fs.g.ClusterSize() + 1)
  }

  lemma NoneSpare(fat: seq<u16>, end: u16)
    ensures end <= |fat| && Taken(fat, end, NoSpace).Err? ==> Spare(fat, end) == {}
  {
    hide Taken;
  }

  lemma NoExtendJoin(a: seq<Step>, b: seq<Step>)
    ensures NoExtend(a + b) <==> NoExtend(a) && NoExtend(b)
    ensures NoExtend([])
  {
  }

  lemma NeedsNothing(fs: Fs, h: Handle)
    requires Cursor(fs, h)
    ensures AsNeeded(fs, fs, h)
  {
    hide AtCluster;
    CursorIndex(fs, h);
  }

  lemma ChunkNeeds(fs: Fs, h: Handle, t: seq<byte>)
    requires Cursor(fs, h) && Chunkable(fs, h, t)
    ensures AsNeeded(fs, Chunk(fs, h, t), Advanced(h, |t|))
  {
    hide AtCluster, Cursor;
    CursorIndex(fs, h);
    ChunkOwn(fs, h, t);
  }

  /** A round that takes a cluster has come to the end of the chain. */
  lemma RoundNeeds(fs: Fs, h: Handle, t: seq<byte>, fs': Fs, h': Handle)
    requires Cursor(fs, h) && Chunkable(fs, h, t) && fs.own[h.p] != [] && fs.own[h.p][|fs.own[h.p]| - 1] < |fs.fat|
    requires Offset(h, fs.g.ClusterSize()) + |t| <= fs.g.ClusterSize() && Round(fs, h, t, fs', h')
    ensures AsNeeded(fs, fs', h')
  {
    hide AtCluster, Cursor, Chunk;
    CursorIndex(fs, h);
    ChunkOwn(fs, h, t);
    var k := fs.g.ClusterSize();
    var i := Quot(h.position, k);
    if Offset(h, k) + |t| == k && i + 1 == |fs.own[h.p]| {
      assert h'.position == i * k + k;
      MoreRoom(i, k);
      QuotUnique(h'.position, k, i + 1);
      QuotIsDiv(h'.position, k);
    }
  }

  lemma NeedsTwice(fs: Fs, fs1: Fs, h1: Handle, fs2: Fs, h2: Handle)
    requires AsNeeded(fs, fs1, h1) && AsNeeded(fs1, fs2, h2) && h1.p == h2.p && h1.position <= h2.position
    ensures AsNeeded(fs, fs2, h2)
  {
    var k := fs.g.ClusterSize();
    QuotIsDiv(h1.position, k);
    QuotIsDiv(h2.position, k);
    QuotGrows(h1.position, h2.position, k);
  }

  lemma QuotGrows(a: nat, b: nat, k: nat)
    requires a <= b && 1 <= k
    ensures a / k <= b / k
  {
    DivRange(a, k, b / k);
    DivRange(b, k, b / k);
  }

  /** A successful write takes a cluster exactly when it comes behind the chain. */
  lemma FitGrows(fs: Fs, h: Handle, n: nat, steps: seq<Step>, fs': Fs, h': Handle, end: nat)
    requires Inv(fs) && Cursor(fs', h') && h'.p == h.p && SameReach(fs, fs', h.p, end) && h'.position == h.position + n
    requires Run(fs, steps, fs') && (forall s :: s in steps ==> IsWrite(s, h.p)) && AsNeeded(fs, fs', h')
    ensures NoExtend(steps) <==> !Grows(fs, h, n, end)
  {
    hide Inv, Cursor, Run, IsWrite;
    WritesTake(fs, steps, fs', h.p);
    CursorIndex(fs', h');
    QuotIsDiv(h'.position, fs.g.ClusterSize());
  }

  /** A failed one takes all there are. */
  lemma FailedGrows(fs: Fs, h: Handle, n: nat, steps: seq<Step>, fs': Fs, h': Handle, end: nat)
    requires Inv(fs) && Cursor(fs, h) && h'.p == h.p && SameReach(fs, fs', h.p, end) && Spent(fs', h', end)
    requires Run(fs, steps, fs') && (forall s :: s in steps ==> IsWrite(s, h.p)) && !CanWrite(fs, h, n, end)
    ensures NoExtend(steps) <==> !Grows(fs, h, n, end)
  {
    hide Inv, Cursor, Run, IsWrite;
    CursorIndex(fs, h);
    WritesTake(fs, steps, fs', h.p);
  }

  /** The second FAT is as it was, so equal copies stay equal only if the first is as it was, too. */
  lemma Diverged(vol: Fat16, before: Disk, fs: Fs, steps: seq<Step>, p: Pos)
    requires vol.Valid() && SectorsOk(before) && vol.g.WellFormed(|before|) && Rep(fs, VolOf(before, vol.g))
    requires Inv(fs) && Run(fs, steps, vol.fs) && p in fs.own && (forall s :: s in steps ==> IsWrite(s, p))
    requires SameMirror(before, vol.device.blocks, vol.g) && vol.g.fatCount > 1 && Mirrored(before, vol.g)
    ensures vol.Synced() ==> NoExtend(steps)
  {
    hide Inv, Run, IsWrite, Geometry.WellFormed, Rep, VolOf, Geometry.ScansFit;
    if vol.Synced() {
      MirroredAgain(before, vol.device.blocks, vol.g);
      RepFatIs(fs, VolOf(before, vol.g));
      RepFatIs(vol.fs, View(vol.device, vol.g));
      WritesTake(fs, steps, vol.fs, p);
    }
  }

  lemma RoundShape(fs: Fs, h: Handle, t: seq<byte>, fs': Fs, h': Handle)
    requires Chunkable(fs, h, t) && h.p in fs.own && fs.own[h.p] != [] && fs.own[h.p][|fs.own[h.p]| - 1] < |fs.fat|
    requires Round(fs, h, t, fs', h')
    ensures h' == Advanced(h, |t|).(cluster := h'.cluster) && fs'.tab == fs.tab && fs'.g == fs.g
  {
    ChunkOwn(fs, h, t);
  }

  /** What is within reach of the file has not changed. */
  ghost predicate SameReach(fs: Fs, fs': Fs, p: Pos, end: nat) {
    p in fs.own && p in fs'.own && fs'.g == fs.g && Reach(fs', p, end) == Reach(fs, p, end)
  }

  /** Everything within reach is in the chain, and written up to its end. */
  ghost predicate Spent(fs: Fs, h: Handle, end: nat) {
    h.p in fs.own && Spare(fs.fat, end) == {} && h.position == |fs.own[h.p]| * fs.g.ClusterSize()
  }

  lemma LastUsed(fs: Fs, h: Handle)
    requires Inv(fs) && Cursor(fs, h)
    ensures fs.own[h.p] != [] && fs.own[h.p][|fs.own[h.p]| - 1] < |fs.fat|
    ensures fs.fat[fs.own[h.p][|fs.own[h.p]| - 1]] != 0
  {
    assert EntryOk(fs, h.p);
  }

  lemma RoundWrote(fs: Fs, h: Handle, t: seq<byte>, fs': Fs, h': Handle)
    requires Inv(fs) && Cursor(fs, h) && Chunkable(fs, h, t)
    requires fs.own[h.p] != [] && fs.own[h.p][|fs.own[h.p]| - 1] < |fs.fat| && Round(fs, h, t, fs', h')
    ensures Wrote(fs, h, t, fs', h')
  {
    hide Inv, Cursor, Chunk, Round, FileText;
    RoundText(fs, h, t, fs', h');
  }

  lemma ChunkReach(fs: Fs, h: Handle, t: seq<byte>, end: nat)
    requires Cursor(fs, h) && Chunkable(fs, h, t)
    ensures SameReach(fs, Chunk(fs, h, t), h.p, end) && Chunk(fs, h, t).tab == fs.tab
  {
    hide Chunk;
    ChunkOwn(fs, h, t);
  }

  lemma ReachStart(fs: Fs, p: Pos, end: nat)
    requires p in fs.own
    ensures SameReach(fs, fs, p, end)
  {
  }

  lemma ReachTwice(fs: Fs, fs1: Fs, fs2: Fs, p: Pos, end: nat)
    requires SameReach(fs, fs1, p, end) && SameReach(fs1, fs2, p, end)
    ensures SameReach(fs, fs2, p, end)
  {
  }

  /** A chunk writes its bytes, also when no next cluster can be found. */
  lemma ChunkText(fs: Fs, h: Handle, t: seq<byte>)
    requires Inv(fs) && Cursor(fs, h) && Chunkable(fs, h, t)
    ensures Wrote(fs, h, t, Chunk(fs, h, t), Advanced(h, |t|))
  {
    hide Inv, Chunk, Overwrite, AtCluster;
    ChunkReady(fs, h);
    ChunkContents(fs, h, t);
    ChunkOwn(fs, h, t);
  }

  lemma FilledUp(fs: Fs, h: Handle, t: seq<byte>, end: nat)
    requires Cursor(fs, h) && Chunkable(fs, h, t) && Spare(fs.fat, end) == {}
    requires Offset(h, fs.g.ClusterSize()) + |t| == fs.g.ClusterSize()
    requires Quot(h.position, fs.g.ClusterSize()) + 1 == |fs.own[h.p]|
    ensures Spent(Chunk(fs, h, t), Advanced(h, |t|), end)
  {
    ChunkOwn(fs, h, t);
    MoreRoom(Quot(h.position, fs.g.ClusterSize()), fs.g.ClusterSize());
  }

  /** A write that went through has a cursor at its end, so it did fit. */
  lemma WriteFits(fs: Fs, h: Handle, n: nat, fs': Fs, h': Handle, end: nat)
    requires Cursor(fs', h') && h'.p == h.p && SameReach(fs, fs', h.p, end) && h'.position == h.position + n
    ensures CanWrite(fs, h, n, end)
  {
    CursorFits(fs', h', end);
  }

  /** A write that has spent what is within reach, with bytes left or none, did not fit. */
  lemma WriteFails(fs: Fs, h: Handle, n: nat, fs': Fs, h': Handle, end: nat)
    requires Cursor(fs, h) && h'.p == h.p && SameReach(fs, fs', h.p, end) && Spent(fs', h', end)
    requires h'.position <= h.position + n && h'.size == Max(h.size, h'.position)
    ensures !CanWrite(fs, h, n, end)
    ensures h'.position == h'.size == Reach(fs, h.p, end) * fs.g.ClusterSize()
  {
    hide AtCluster;
    var k := fs.g.ClusterSize();
    BeyondReach(Reach(fs, h.p, end), h.position, n, k);
    if |fs.own[h.p]| < Reach(fs, h.p, end) {
      BelowEnd(|fs.own[h.p]|, Reach(fs, h.p, end), k);
    }
  }

  lemma RepResize(fs: Fs, v: Vol, p: Pos, size: u32)
    requires Rep(fs, v) && fs.HasSlot(p)
    ensures p.0 < |v.data| && p.1 < |v.Dir(p.0)| / 32 && Resize(fs, p, size).g == fs.g
    ensures Rep(Resize(fs, p, size), VolPut(v, p.0, p.1, Splice(SlotBytes(v, p.0, p.1), 28, Bytes32(size))))
  {
    hide Rep, Decode, VolPut;
    SlotDecodes(fs, v, p);
    DecodeSize(SlotBytes(v, p.0, p.1), size);
    RepPut(fs, v, p, Splice(SlotBytes(v, p.0, p.1), 28, Bytes32(size)));
  }

  /** Writing the size of an open file to its entry is a step, and keeps the cursor. */
  lemma SizeStep(fs: Fs, h: Handle)
    requires Inv(fs) && Cursor(fs, h)
    ensures h.size <= 0xFFFF_FFFF && Enabled(fs, SetSize(h.p, h.size))
    ensures Apply(fs, SetSize(h.p, h.size)) == Resize(fs, h.p, h.size)
    ensures Inv(Resize(fs, h.p, h.size)) && Cursor(Resize(fs, h.p, h.size), h)
  {
    hide Inv, AtCluster;
    SizeFits(fs, h.p);
    ResizeInv(fs, h.p, h.size);
  }

  lemma ResizeText(fs: Fs, h: Handle, size: u32)
    requires fs.HasSlot(h.p)
    ensures FileText(Resize(fs, h.p, size), h) == FileText(fs, h)
  {
  }

  lemma RunNothing(fs: Fs)
    requires Inv(fs)
    ensures Run(fs, [], fs)
  {
  }

  lemma WroteNothing(fs: Fs, h: Handle)
    requires h.position <= |FileText(fs, h)|
    ensures Wrote(fs, h, [], fs, h)
  {
  }

  lemma WroteSame(fs: Fs, h: Handle, t: seq<byte>, fs1: Fs, fs2: Fs, h': Handle)
    requires Wrote(fs, h, t, fs1, h') && FileText(fs2, h') == FileText(fs1, h')
    ensures Wrote(fs, h, t, fs2, h')
  {
  }

  lemma WroteMore(fs0: Fs, h0: Handle, buf: seq<byte>, done: nat, chunk: nat, fs1: Fs, h1: Handle, fs2: Fs, h2: Handle)
    requires done + chunk <= |buf| && h1.position == h0.position + done
    requires Wrote(fs0, h0, buf[..done], fs1, h1) && Wrote(fs1, h1, buf[done..done + chunk], fs2, h2)
    ensures Wrote(fs0, h0, buf[..done + chunk], fs2, h2)
  {
    hide FileText;
    OverwriteTwice(FileText(fs0, h0), h0.position, buf[..done], buf[done..done + chunk]);
    assert buf[..done] + buf[done..done + chunk] == buf[..done + chunk];
  }

  lemma WriteSteps(fs: Fs, p: Pos, size: u32)
    requires Inv(fs) && Enabled(fs, SetSize(p, size))
    ensures IsWrite(SetSize(p, size), p)
    ensures var fs' := Apply(fs, SetSize(p, size)); fs'.HasSlot(p) && fs'.At(p).size == size
  {
  }
}
