/**
 * Volumes that lose an entry: when the entry of a file or directory is marked deleted, what is left is a sound
 * volume without that file or without the whole subtree of that directory, whatever becomes of the chains.
 */
module Pruning {
  import opened Basics
  import opened Bytes
  import opened Volume
  import opened Names
  import opened Directory
  import opened FileSystem
  import opened FileRuns
  import opened Namespace
  import opened Tree
  import opened FatDevice
  import opened Fat16Driver
  import opened Meaning

  /** The directories that go with an entry: its own and all below it. */
  ghost function Gone(fs: Fs, p: Pos): set<nat>
    requires fs.HasSlot(p)
  {
    if IsDirectory(fs.At(p)) then set d | d in fs.tab && Below(fs, d, fs.At(p).cluster) else {}
  }

  /** The entries that stay. */
  ghost predicate Stays(fs: Fs, p: Pos, q: Pos)
    requires fs.HasSlot(p)
  {
    q != p && q.0 !in Gone(fs, p)
  }

  /** What is left, with the FAT and the clusters of the volume. */
  ghost function Pruned(fs: Fs, p: Pos, v: Vol): Fs
    requires fs.HasSlot(p)
  {
    Fs(fs.g, v.fat, v.data, fs.Put(p, MarkDeleted(fs.At(p))).tab - Gone(fs, p),
       map q | q in fs.own && Stays(fs, p, q) :: fs.own[q],
       map c | c in fs.who && Stays(fs, p, fs.who[c].0) :: fs.who[c])
  }

  /** Every cluster has its size. */
  predicate Sized(v: Vol, g: Geometry) {
    forall c :: 2 <= c < |v.data| ==> |v.data[c]| == g.ClusterSize()
  }

  /** The volume v' differs from what fs means in the mark on entry p, in that entry's links, and in file data. */
  ghost predicate Marked(fs: Fs, p: Pos, v': Vol) {
    && fs.HasSlot(p) && p in fs.own && |v'.fat| == |fs.fat| && |v'.data| == |fs.data| && Sized(v', fs.g)
    && (forall c :: 0 <= c < |fs.fat| && c !in fs.own[p] ==> v'.fat[c] == fs.fat[c])
    && (forall d :: d in fs.tab && d < |v'.data| && d !in Gone(fs, p) ==>
          DirAt(v', d) == fs.Put(p, MarkDeleted(fs.At(p))).tab[d])
  }

  // ---- Who stays ----------------------------------------------------------------------------------------

  lemma {:induction false} AboveRank(fs: Fs, rank: map<nat, nat>, d: nat, n: nat)
    requires Ranked(fs, rank) && d in fs.tab
    ensures Above(fs, d, n) in fs.tab && rank[Above(fs, d, n)] <= rank[d]
    decreases n
  {
    if n > 0 && d != 0 {
      AboveRank(fs, rank, Home(fs, d), n - 1);
    }
  }

  /** The directory that holds the entry does not go with it. */
  lemma HolderStays(fs: Fs, p: Pos)
    requires Inv(fs) && Rooted(fs) && p in fs.own
    ensures fs.HasSlot(p) && p.0 !in Gone(fs, p) && 0 !in Gone(fs, p)
  {
    hide Inv, Ranked;
    HeadThere(fs, p);
    if IsDirectory(fs.At(p)) {
      var m := fs.At(p).cluster;
      var rank :| Ranked(fs, rank);
      HeadOwned(fs, p);
      HomeRanked(fs, rank, m);
      if Below(fs, p.0, m) {
        var n: nat :| Above(fs, p.0, n) == m;
        AboveRank(fs, rank, p.0, n);
        assert false;
      }
      RootAbove(fs, m);
    }
  }

  lemma RootAbove(fs: Fs, m: nat)
    requires m != 0
    ensures !Below(fs, 0, m)
  {
  }

  lemma HeadThere(fs: Fs, p: Pos)
    requires Inv(fs) && p in fs.own
    ensures fs.HasSlot(p) && p.0 in fs.tab
  {
    OwnerPlaced(fs, p);
  }

  /** A directory goes exactly when it is the one of the entry, or the directory that holds it goes. */
  lemma DirGoes(fs: Fs, p: Pos, d: nat)
    requires Inv(fs) && p in fs.own && fs.HasSlot(p) && d in fs.tab && d != 0
    ensures d in Gone(fs, p) <==>
            IsDirectory(fs.At(p)) && (d == fs.At(p).cluster || Home(fs, d) in Gone(fs, p))
  {
    hide Inv;
    HomeIsDir(fs, d);
    if IsDirectory(fs.At(p)) {
      if d == fs.At(p).cluster {
        SelfBelow(fs, d);
      } else {
        BelowHome(fs, d, fs.At(p).cluster);
      }
    }
  }

  /** So the entry of a directory stays exactly when the directory does. */
  lemma OwnerStays(fs: Fs, p: Pos, d: nat)
    requires Inv(fs) && p in fs.own && fs.HasSlot(p) && d in fs.tab && d != 0
    ensures d in fs.who && (d !in Gone(fs, p) <==> Stays(fs, p, fs.who[d].0))
  {
    hide Inv, Gone;
    HomeEntry(fs, d);
    HeadOwned(fs, p);
    DirGoes(fs, p, d);
    if !IsDirectory(fs.At(p)) {
      NotDirGone(fs, p);
    }
  }

  lemma NotDirGone(fs: Fs, p: Pos)
    requires fs.HasSlot(p) && !IsDirectory(fs.At(p))
    ensures Gone(fs, p) == {}
  {
  }

  // ---- What is left is sound ----------------------------------------------------------------------------------

  lemma PrunedOwners(fs: Fs, p: Pos, v: Vol)
    requires Owners(fs) && p in fs.own && fs.HasSlot(p)
    ensures Owners(Pruned(fs, p, v))
  {
    hide Gone;
    var fs' := Pruned(fs, p, v);
    forall q
      ensures IsOwner(fs', q) <==> IsOwner(fs, q) && Stays(fs, p, q)
    {
    }
  }

  lemma PrunedApart(fs: Fs, p: Pos, v: Vol)
    requires Apart(fs.own, fs.who) && fs.HasSlot(p)
    ensures Apart(Pruned(fs, p, v).own, Pruned(fs, p, v).who)
  {
    hide Gone, Stays;
  }

  lemma PrunedEntry(fs: Fs, p: Pos, v: Vol, q: Pos)
    requires Inv(fs) && Marked(fs, p, v) && q in fs.own && Stays(fs, p, q)
    ensures EntryOk(Pruned(fs, p, v), q)
  {
    hide Inv, Gone, IsChain, EntryOk;
    EntryThere(fs, q);
    var fs' := Pruned(fs, p, v);
    ChainKept(fs, p, v.fat, q);
    PrunedAt(fs, p, v, q);
    if IsDirectory(fs.At(q)) {
      HeadOwned(fs, q);
      OwnerStays(fs, p, fs.At(q).cluster);
      PrunedDir(fs, p, v, fs.At(q).cluster);
    }
    EntryCarried(fs, fs', q);
  }

  lemma EntryThere(fs: Fs, q: Pos)
    requires Inv(fs) && q in fs.own
    ensures EntryOk(fs, q)
  {
  }

  lemma PrunedAt(fs: Fs, p: Pos, v: Vol, q: Pos)
    requires fs.HasSlot(p) && fs.HasSlot(q) && Stays(fs, p, q) && q in fs.own
    ensures var fs' := Pruned(fs, p, v); fs'.HasSlot(q) && fs'.At(q) == fs.At(q) && q in fs'.own && fs'.own[q] == fs.own[q]
  {
    hide Gone;
  }

  lemma PrunedDir(fs: Fs, p: Pos, v: Vol, d: nat)
    requires fs.HasSlot(p)
    ensures d in Pruned(fs, p, v).tab <==> d in fs.tab && d !in Gone(fs, p)
  {
    hide Gone;
  }

  lemma EntryCarried(fs: Fs, fs': Fs, q: Pos)
    requires EntryOk(fs, q) && fs'.HasSlot(q) && fs'.At(q) == fs.At(q) && q in fs'.own && fs'.own[q] == fs.own[q]
    requires fs'.g == fs.g && IsChain(fs'.fat, fs.own[q])
    requires IsDirectory(fs.At(q)) ==> fs.At(q).cluster in fs'.tab
    ensures EntryOk(fs', q)
  {
    hide IsChain;
  }

  /** The links of other chains are as they were. */
  lemma ChainKept(fs: Fs, p: Pos, fat: seq<u16>, q: Pos)
    requires Inv(fs) && p in fs.own && q in fs.own && q != p && |fat| == |fs.fat|
    requires forall c :: 0 <= c < |fs.fat| && c !in fs.own[p] ==> fat[c] == fs.fat[c]
    ensures IsChain(fat, fs.own[q])
  {
    hide Owners, DirsOk, Shape;
    assert EntryOk(fs, q);
    forall i | 0 <= i < |fs.own[q]|
      ensures fs.own[q][i] !in fs.own[p]
    {
      assert fs.who[fs.own[q][i]] == (q, i);
    }
  }

  lemma PrunedDirOk(fs: Fs, p: Pos, v: Vol, d: nat)
    requires Inv(fs) && Rooted(fs) && p in fs.own && fs.HasSlot(p) && d in Pruned(fs, p, v).tab
    ensures DirOk(Pruned(fs, p, v), d)
  {
    hide Inv, Gone, IsLive, Rooted, FirstUsable;
    var fs' := Pruned(fs, p, v);
    PrunedDir(fs, p, v, d);
    DirThere(fs, d);
    LiveMark(fs, p);
    if d != 0 {
      HomeEntry(fs, d);
      OwnerStays(fs, p, d);
      PrunedAt(fs, p, v, fs.who[d].0);
    }
    DirAfterPut(fs, p, MarkDeleted(fs.At(p)), fs', d);
  }

  lemma DirThere(fs: Fs, d: nat)
    requires Inv(fs) && d in fs.tab
    ensures DirOk(fs, d)
  {
  }

  lemma LiveMark(fs: Fs, p: Pos)
    requires Inv(fs) && p in fs.own && fs.HasSlot(p)
    ensures !IsDotSlot(p) && !IsFree(MarkDeleted(fs.At(p))) && !IsFree(fs.At(p))
  {
    OwnerPlaced(fs, p);
  }

  /** With an entry marked deleted, whatever becomes of its own links, the volume means what is left. */
  lemma PrunedMeans(fs: Fs, p: Pos, v': Vol)
    requires Inv(fs) && Rooted(fs) && Marked(fs, p, v') && (forall d :: d in fs.tab ==> d < |v'.data| && (d == 0 || 2 <= d))
    ensures Means(v', fs.g, Pruned(fs, p, v'))
  {
    hide Gone, IsChain, DirOk, EntryOk, Rooted;
    var fs' := Pruned(fs, p, v');
    HolderStays(fs, p);
    PrunedOwners(fs, p, v');
    PrunedApart(fs, p, v');
    forall q | q in fs'.own
      ensures EntryOk(fs', q)
    {
      PrunedEntry(fs, p, v', q);
    }
    forall d | d in fs'.tab
      ensures DirOk(fs', d) && RepDir(fs', v', d)
    {
      PrunedDirOk(fs, p, v', d);
      PrunedDir(fs, p, v', d);
    }
    PrunedDir(fs, p, v', 0);
  }

  // ---- The calls -----------------------------------------------------------------------------------------------

  lemma DirsInRange(fs: Fs, v: Vol, d: nat)
    requires Means(v, fs.g, fs) && d in fs.tab
    ensures d < |v.data| && (d == 0 || 2 <= d) && fs.tab[d] == DirAt(v, d)
  {
    hide Inv;
    assert RepDir(fs, v, d);
  }

  /** The mark on an entry, in the bytes of the volume. */
  lemma MarkedOnDisk(fs: Fs, v: Vol, p: Pos)
    requires Means(v, fs.g, fs) && Sized(v, fs.g) && p in fs.own && fs.HasSlot(p)
    ensures p.0 < |v.data| && p.1 < |v.Dir(p.0)| / 32
    ensures Marked(fs, p, VolPut(v, p.0, p.1, Splice(SlotBytes(v, p.0, p.1), 0, [DELETED])))
  {
    hide Inv, VolPut, Gone, Entries, SlotBytes;
    DirsInRange(fs, v, p.0);
    var v' := VolPut(v, p.0, p.1, Splice(SlotBytes(v, p.0, p.1), 0, [DELETED]));
    PutSized(v, fs.g, p.0, p.1, Splice(SlotBytes(v, p.0, p.1), 0, [DELETED]));
    forall d | d in fs.tab
      ensures DirAt(v', d) == fs.Put(p, MarkDeleted(fs.At(p))).tab[d]
    {
      DirsInRange(fs, v, d);
      MarkedDir(v, p, d);
    }
  }

  lemma PutSized(v: Vol, g: Geometry, d: nat, i: nat, b: seq<byte>)
    requires Sized(v, g) && d < |v.data| && i < |v.Dir(d)| / 32 && |b| == 32
    ensures Sized(VolPut(v, d, i, b), g)
  {
  }

  lemma MarkedLinks(fs: Fs, p: Pos, v: Vol, fat: seq<u16>)
    requires Marked(fs, p, v) && v.fat == fs.fat && |fat| == |fs.fat|
    requires forall c :: 0 <= c < |fs.fat| && c !in fs.own[p] ==> fat[c] == fs.fat[c]
    ensures Marked(fs, p, v.(fat := fat))
  {
    hide Gone, Entries;
  }

  /**
   * remove_dir, of any directory that its test lets pass, leaves a sound volume exactly when the path does not
   * lead to a dot entry; what is left lacks the directory and everything below it.
   */
  lemma RemoveDirExactly(fs: Fs, v: Vol, v': Vol, p: Pos)
    requires Means(v, fs.g, fs) && Sized(v, fs.g) && Rooted(fs) && Settled(fs, p) && fs.HasSlot(p) && IsDirectory(fs.At(p))
    requires fs.At(p).cluster != 0 && RemovedOnDisk(v, v', p, ChainAt(fs, fs.At(p).cluster))
    ensures Sound(v', fs.g) <==> !IsDotSlot(p)
    ensures !IsDotSlot(p) ==> Means(v', fs.g, Pruned(fs, p, v'))
  {
    hide Inv, Rep, VolPut, Cleared, SlotBytes, ChainAt, Rooted, DirAt, Pruned, Marked;
    SettledChain(fs, p);
    if IsDotSlot(p) {
      DotRemoved(fs, v, v', p);
    } else {
      NotDotOwned(fs, p);
      MarkedOnDisk(fs, v, p);
      RepFatIs(fs, v);
      var v1 := VolPut(v, p.0, p.1, Splice(SlotBytes(v, p.0, p.1), 0, [DELETED]));
      MarkedLinks(fs, p, v1, v'.fat);
      AllInRange(fs, v, v');
      PrunedMeans(fs, p, v');
    }
  }

  lemma AllInRange(fs: Fs, v: Vol, v': Vol)
    requires Means(v, fs.g, fs) && |v'.data| == |v.data|
    ensures forall d :: d in fs.tab ==> d < |v'.data| && (d == 0 || 2 <= d)
  {
    hide Inv;
    forall d | d in fs.tab
      ensures d < |v'.data| && (d == 0 || 2 <= d)
    {
      DirsInRange(fs, v, d);
    }
  }

  lemma SameRoot(fs: Fs, fs': Fs)
    requires Rooted(fs) && fs'.tab == fs.tab && fs'.who == fs.who
    ensures Rooted(fs')
  {
    var rank :| Ranked(fs, rank);
    assert Ranked(fs', rank);
  }

  /**
   * A rename whose destination's parent is a file overwrites 32 bytes of that file, and what was renamed is lost:
   * the volume is sound, and lacks the file, or the directory and everything below it.
   */
  lemma RenameIntoFile(fs: Fs, v: Vol, v': Vol, src: Pos, d: nat, e: Entry)
    requires Means(v, fs.g, fs) && Sized(v, fs.g) && Rooted(fs) && src in fs.own && fs.HasSlot(src)
    requires 2 <= d < |v.data| && d < |fs.data| && d !in fs.tab && FirstUsable(SlotsAt(fs, d), 0) < |SlotsAt(fs, d)|
    requires MovedOnDisk(v, v', src, d, FirstUsable(SlotsAt(fs, d), 0), e)
    ensures Misplaced(fs, d, e).HasSlot(src) && Means(v', fs.g, Pruned(Misplaced(fs, d, e), src, v'))
  {
    hide Inv, Rep, VolPut, SlotBytes, Rooted, FirstUsable, Encode, Pruned, Marked, Entries;
    RootIsDir(fs);
    SlotsAtIs(fs, v, d);
    MisplacedOk(fs, v, d, e);
    var i := FirstUsable(SlotsAt(fs, d), 0);
    var fs1, v1 := Misplaced(fs, d, e), VolPut(v, d, i, Encode(e));
    SameRoot(fs, fs1);
    PutSized(v, fs.g, d, i, Encode(e));
    MarkedOnDisk(fs1, v1, src);
    AllInRange(fs1, v1, v');
    PrunedMeans(fs1, src, v');
  }
}
