/**
 * What the sectors of a volume mean: at most one tree of files and directories, and after which calls they
 * mean none.
 */
module Meaning {
  import opened Basics
  import opened Bytes
  import opened Volume
  import opened Names
  import opened Directory
  import opened FileSystem
  import opened FileRuns
  import opened Namespace
  import opened Tree
  import opened FatDevice
  import opened Fat16Driver

  /** The volume v with geometry g is sound, and fs is what it means. */
  ghost predicate Means(v: Vol, g: Geometry, fs: Fs) {
    fs.g == g && Inv(fs) && Rep(fs, v)
  }

  ghost predicate Sound(v: Vol, g: Geometry) {
    exists fs :: Means(v, g, fs)
  }

  // ---- The sectors determine the tree ----------------------------------------------------------------

  /** Every directory of fs still has its entry on the volume. */
  ghost predicate KeepsDirs(fs: Fs, v: Vol) {
    forall d :: d in fs.tab && d != 0 && d in fs.who ==> KeepsEntry(fs, v, fs.who[d].0)
  }

  ghost predicate KeepsEntry(fs: Fs, v: Vol, p: Pos) {
    fs.HasSlot(p) && p.0 < |v.data| && p.1 < |DirAt(v, p.0)| && DirAt(v, p.0)[p.1] == fs.At(p)
  }

  /** An entry that is on the volume and is not a dot entry is an entry of whatever the volume means. */
  lemma EntryInherited(fs: Fs, v: Vol, fs': Fs, p: Pos)
    requires Means(v, fs.g, fs') && KeepsEntry(fs, v, p) && p in fs.own && p.0 in fs'.tab && Inv(fs)
    ensures fs'.HasSlot(p) && fs'.At(p) == fs.At(p) && p in fs'.own && EntryOk(fs', p)
  {
    hide IsLive, EntryOk, DirOk, Apart, Shape;
    assert IsOwner(fs, p);
    assert RepDir(fs', v, p.0);
    assert IsOwner(fs', p);
  }

  /** So every directory of fs is a directory of whatever the volume means. */
  lemma {:induction false} DirInherited(fs: Fs, rank: map<nat, nat>, v: Vol, fs': Fs, d: nat)
    requires Inv(fs) && Ranked(fs, rank) && KeepsDirs(fs, v) && Means(v, fs.g, fs') && d in fs.tab
    ensures d in fs'.tab
    decreases rank[d]
  {
    hide Inv, Means, KeepsEntry, Ranked;
    if d == 0 {
      RootThere(v, fs.g, fs');
    } else {
      HomeRanked(fs, rank, d);
      HomeEntry(fs, d);
      DirInherited(fs, rank, v, fs', Home(fs, d));
      EntryInherited(fs, v, fs', fs.who[d].0);
      EntryLeads(fs', fs.who[d].0);
    }
  }

  lemma RootThere(v: Vol, g: Geometry, fs: Fs)
    requires Means(v, g, fs)
    ensures 0 in fs.tab
  {
    RootIsDir(fs);
  }

  lemma HomeRanked(fs: Fs, rank: map<nat, nat>, d: nat)
    requires Ranked(fs, rank) && d in fs.tab && d != 0
    ensures Home(fs, d) in fs.tab && Home(fs, d) in rank && d in rank && rank[Home(fs, d)] < rank[d]
  {
  }

  lemma EntryLeads(fs: Fs, p: Pos)
    requires EntryOk(fs, p)
    ensures IsDirectory(fs.At(p)) ==> fs.At(p).cluster in fs.tab
  {
  }

  lemma OwnVolume(fs: Fs, v: Vol)
    requires Means(v, fs.g, fs)
    ensures KeepsDirs(fs, v)
  {
    hide Inv;
    forall d | d in fs.tab && d != 0 && d in fs.who
      ensures KeepsEntry(fs, v, fs.who[d].0)
    {
      HomeEntry(fs, d);
      assert RepDir(fs, v, Home(fs, d));
    }
  }

  lemma LinkOut(fat: seq<u16>, ch: seq<nat>)
    requires IsChain(fat, ch) && |fat| <= END_OF_CHAIN
    ensures |ch| == 1 <==> fat[ch[0]] >= END_OF_CHAIN
  {
    if |ch| > 1 {
      assert fat[ch[0]] == ch[1];
    }
  }

  /** A chain is determined by its first cluster and the FAT. */
  lemma {:induction false} ChainDetermined(fat: seq<u16>, a: seq<nat>, b: seq<nat>)
    requires IsChain(fat, a) && IsChain(fat, b) && a[0] == b[0] && |fat| <= END_OF_CHAIN
    ensures a == b
    decreases |a|
  {
    LinkOut(fat, a);
    LinkOut(fat, b);
    if |a| == 1 {
      assert a == [a[0]] && b == [b[0]];
    } else {
      assert a[1] == fat[a[0]] == b[1];
      ChainDetermined(fat, a[1..], b[1..]);
      assert a == [a[0]] + a[1..] && b == [b[0]] + b[1..];
    }
  }

  lemma SameDirs(v: Vol, g: Geometry, fs: Fs, fs': Fs)
    requires Means(v, g, fs) && Means(v, g, fs') && Rooted(fs) && Rooted(fs')
    ensures fs.tab == fs'.tab
  {
    hide Inv, Ranked;
    OwnVolume(fs, v);
    OwnVolume(fs', v);
    var rank, rank' :| Ranked(fs, rank) && Ranked(fs', rank');
    forall d
      ensures d in fs.tab <==> d in fs'.tab
    {
      if d in fs.tab {
        DirInherited(fs, rank, v, fs', d);
      } else if d in fs'.tab {
        DirInherited(fs', rank', v, fs, d);
      }
    }
    forall d | d in fs.tab
      ensures fs.tab[d] == fs'.tab[d]
    {
      assert RepDir(fs, v, d) && RepDir(fs', v, d);
    }
  }

  lemma SameChain(v: Vol, g: Geometry, fs: Fs, fs': Fs, p: Pos)
    requires Means(v, g, fs) && Means(v, g, fs') && fs.tab == fs'.tab && p in fs.own
    ensures p in fs'.own && fs'.own[p] == fs.own[p]
  {
    hide IsChain, Apart, DirsOk, IsLive;
    assert IsOwner(fs, p) && IsOwner(fs', p);
    assert EntryOk(fs, p) && EntryOk(fs', p);
    ChainDetermined(fs.fat, fs.own[p], fs'.own[p]);
  }

  lemma SamePlace(fs: Fs, fs': Fs, c: nat)
    requires Apart(fs.own, fs.who) && Apart(fs'.own, fs'.who) && fs.own == fs'.own && c in fs.who
    ensures c in fs'.who && fs'.who[c] == fs.who[c]
  {
    var (p, i) := fs.who[c];
    assert fs'.own[p][i] == c;
  }

  /**
   * The sectors determine the tree: two states that a volume can mean, and whose directories hang together from
   * the root, have the same directories, the same chains and the same owners.
   */
  lemma MeansOne(v: Vol, g: Geometry, fs: Fs, fs': Fs)
    requires Means(v, g, fs) && Means(v, g, fs') && Rooted(fs) && Rooted(fs')
    ensures fs.tab == fs'.tab && fs.own == fs'.own && fs.who == fs'.who && fs.fat == fs'.fat
  {
    SameDirs(v, g, fs, fs');
    SameMaps(v, g, fs, fs');
  }

  lemma SameMaps(v: Vol, g: Geometry, fs: Fs, fs': Fs)
    requires Means(v, g, fs) && Means(v, g, fs') && fs.tab == fs'.tab
    ensures fs.own == fs'.own && fs.who == fs'.who
  {
    hide Shape, Owners, EntriesOk, DirsOk, Rep, Apart;
    forall p
      ensures p in fs.own ==> p in fs'.own && fs'.own[p] == fs.own[p]
      ensures p in fs'.own ==> p in fs.own
    {
      if p in fs.own {
        SameChain(v, g, fs, fs', p);
      } else if p in fs'.own {
        SameChain(v, g, fs', fs, p);
      }
    }
    assert fs.own == fs'.own;
    forall c
      ensures c in fs.who ==> c in fs'.who && fs'.who[c] == fs.who[c]
      ensures c in fs'.who ==> c in fs.who
    {
      if c in fs.who {
        SamePlace(fs, fs', c);
      } else if c in fs'.who {
        SamePlace(fs', fs, c);
      }
    }
  }

  // ---- Calls after which the sectors mean nothing ----------------------------------------------------

  /** With a dot entry of a directory gone and every directory's entry still there, the volume means nothing. */
  lemma DotGone(fs: Fs, v: Vol, p: Pos)
    requires Inv(fs) && Rooted(fs) && KeepsDirs(fs, v) && p.0 in fs.tab && IsDotSlot(p)
    requires p.0 < |v.data| && p.1 < |DirAt(v, p.0)| && !IsLive(DirAt(v, p.0)[p.1])
    ensures !Sound(v, fs.g)
  {
    hide Inv, Ranked, KeepsDirs, Rep;
    var rank :| Ranked(fs, rank);
    if fs' :| Means(v, fs.g, fs') {
      DirInherited(fs, rank, v, fs', p.0);
      DotsLive(v, fs.g, fs', p);
      assert false;
    }
  }

  lemma DotsLive(v: Vol, g: Geometry, fs: Fs, p: Pos)
    requires Means(v, g, fs) && p.0 in fs.tab && IsDotSlot(p)
    ensures p.0 < |v.data| && p.1 < |DirAt(v, p.0)| && IsLive(DirAt(v, p.0)[p.1])
  {
    hide Inv, GetName, IsLive, Entries;
    HomeIsDir(fs, p.0);
    RepTabIs(fs, v, p.0);
  }

  /** What the deletion mark of remove_entry and rename does to a directory. */
  lemma MarkedDir(v: Vol, p: Pos, d: nat)
    requires p.0 < |v.data| && p.1 < |v.Dir(p.0)| / 32 && d < |v.data|
    ensures var v' := VolPut(v, p.0, p.1, Splice(SlotBytes(v, p.0, p.1), 0, [DELETED]));
            DirAt(v', d) == if d == p.0 then DirAt(v, d)[p.1 := MarkDeleted(DirAt(v, d)[p.1])] else DirAt(v, d)
  {
    hide Decode, Entries;
    var b := SlotBytes(v, p.0, p.1);
    assert Splice(b, 0, [DELETED]) == b[0 := DELETED];
    DecodeMark(b);
    EntriesPut(v.Dir(p.0), p.1, b[0 := DELETED]);
    SlotReads(v, p);
  }

  lemma SlotReads(v: Vol, p: Pos)
    requires p.0 < |v.data| && p.1 < |v.Dir(p.0)| / 32
    ensures DirAt(v, p.0)[p.1] == Decode(SlotBytes(v, p.0, p.1))
  {
    hide Decode;
  }

  lemma MarkNotLive(e: Entry)
    ensures !IsLive(MarkDeleted(e))
  {
  }

  /** A volume that differs in FAT and file data only keeps the directories' entries. */
  lemma KeepsAlong(fs: Fs, v: Vol, v': Vol)
    requires Inv(fs) && KeepsDirs(fs, v) && |v'.data| == |v.data|
    requires forall p :: p in fs.own && KeepsEntry(fs, v, p) ==> KeepsEntry(fs, v', p)
    ensures KeepsDirs(fs, v')
  {
    hide Inv, KeepsEntry;
    forall d | d in fs.tab && d != 0 && d in fs.who
      ensures KeepsEntry(fs, v', fs.who[d].0)
    {
      HomeEntry(fs, d);
    }
  }

  /** Marking a dot slot deleted leaves the entries that own chains. */
  lemma DotMarked(fs: Fs, v: Vol, p: Pos)
    requires Inv(fs) && KeepsDirs(fs, v) && IsDotSlot(p) && p.0 < |v.data| && p.1 < |v.Dir(p.0)| / 32
    ensures var v' := VolPut(v, p.0, p.1, Splice(SlotBytes(v, p.0, p.1), 0, [DELETED]));
            KeepsDirs(fs, v') && p.1 < |DirAt(v', p.0)| && !IsLive(DirAt(v', p.0)[p.1])
  {
    hide Inv, VolPut, KeepsDirs, IsLive, Entries;
    var v' := VolPut(v, p.0, p.1, Splice(SlotBytes(v, p.0, p.1), 0, [DELETED]));
    MarkedDir(v, p, p.0);
    MarkNotLive(DirAt(v, p.0)[p.1]);
    forall q | q in fs.own && KeepsEntry(fs, v, q)
      ensures KeepsEntry(fs, v', q)
    {
      MarkedDir(v, p, q.0);
      OwnerPlaced(fs, q);
    }
    KeepsAlong(fs, v, v');
  }

  /** Another FAT does not touch the directories. */
  lemma FatKeeps(fs: Fs, v: Vol, fat: seq<u16>)
    requires KeepsDirs(fs, v)
    ensures KeepsDirs(fs, v.(fat := fat))
  {
    forall d | d in fs.tab && d != 0 && d in fs.who
      ensures KeepsEntry(fs, v.(fat := fat), fs.who[d].0)
    {
      assert KeepsEntry(fs, v, fs.who[d].0);
    }
  }

  /** Removing a dot entry leaves a volume that means nothing: the cluster of a directory that is still there is free. */
  lemma DotRemoved(fs: Fs, v: Vol, v': Vol, p: Pos)
    requires Means(v, fs.g, fs) && Rooted(fs) && Settled(fs, p) && fs.HasSlot(p) && IsDotSlot(p) && IsDirectory(fs.At(p))
    requires fs.At(p).cluster != 0 && RemovedOnDisk(v, v', p, ChainAt(fs, fs.At(p).cluster))
    ensures !Sound(v', fs.g)
    ensures var d := fs.At(p).cluster;
            d < |v'.fat| && v'.fat[d] == 0 && d in fs.who && KeepsEntry(fs, v', fs.who[d].0)
  {
    hide Inv, Rep, VolPut, Cleared, SlotBytes, ChainAt, KeepsEntry, Rooted, DirAt;
    SettledDir(fs, p);
    SettledChain(fs, p);
    OwnVolume(fs, v);
    DotMarked(fs, v, p);
    var v1 := VolPut(v, p.0, p.1, Splice(SlotBytes(v, p.0, p.1), 0, [DELETED]));
    FatKeeps(fs, v1, v'.fat);
    assert KeepsDirs(fs, v');
    SameDirBytes(v1, v'.fat, p.0);
    DotGone(fs, v', p);
    HomeEntry(fs, fs.At(p).cluster);
    ChainFreed(fs, v, fs.At(p).cluster);
  }

  lemma SameDirBytes(v: Vol, fat: seq<u16>, d: nat)
    requires d < |v.data|
    ensures DirAt(v.(fat := fat), d) == DirAt(v, d)
  {
  }

  lemma ChainFreed(fs: Fs, v: Vol, c: nat)
    requires Inv(fs) && Rep(fs, v) && c in fs.who && fs.who[c].0 in fs.own
    ensures c < |v.fat| && Cleared(v.fat, ChainAt(fs, c))[c] == 0
  {
    hide Owners, DirsOk;
    assert EntryOk(fs, fs.who[c].0);
    assert c in ChainAt(fs, c);
    RepFatIs(fs, v);
  }

  /**
   * A rename under a directory, to a name that reads as live, leaves a sound volume exactly when its source is
   * not a dot entry. If it is, two live entries name one directory, or one names the root.
   */
  lemma RenameExactly(fs: Fs, v: Vol, v': Vol, src: Pos, d: nat, e: Entry, to: seq<byte>)
    requires Means(v, fs.g, fs) && Rooted(fs) && Settled(fs, src) && fs.HasSlot(src) && d in fs.tab
    requires FirstUsable(fs.tab[d], 0) < |fs.tab[d]| && e == RenamedEntry(fs.At(src), to) && IsLive(FileEntry(to, 0))
    requires MovedOnDisk(v, v', src, d, FirstUsable(fs.tab[d], 0), e)
    ensures Sound(v', fs.g) <==> !IsDotSlot(src)
    ensures IsDotSlot(src) ==>
              && d < |v'.data| && FirstUsable(fs.tab[d], 0) < |DirAt(v', d)|
              && DirAt(v', d)[FirstUsable(fs.tab[d], 0)] == e && e.cluster == fs.At(src).cluster
              && (e.cluster != 0 ==> e.cluster in fs.who && KeepsEntry(fs, v', fs.who[e.cluster].0))
  {
    hide Inv, Rep, VolPut, SlotBytes, Move, KeepsEntry, Rooted, FirstUsable, RenamedEntry, FileEntry, Encode, DirAt;
    var i := FirstUsable(fs.tab[d], 0);
    if IsDotSlot(src) {
      DotRenamed(fs, v, src, d, e, to);
    } else {
      NotDotOwned(fs, src);
      MoveReady(fs, src, (d, i), e, to);
      RepMove(fs, v, src, (d, i), e);
      MoveInv(fs, src, (d, i), e);
      assert Means(v', fs.g, Move(fs, src, (d, i), e));
    }
  }

  /** Writing an entry over the first usable slot of a directory leaves the entries that own chains. */
  lemma EntryWritten(fs: Fs, v: Vol, d: nat, e: Entry)
    requires Means(v, fs.g, fs) && d in fs.tab && FirstUsable(fs.tab[d], 0) < |fs.tab[d]|
    ensures d < |v.data| && FirstUsable(fs.tab[d], 0) < |v.Dir(d)| / 32
    ensures var v' := VolPut(v, d, FirstUsable(fs.tab[d], 0), Encode(e));
            KeepsDirs(fs, v') && DirAt(v', d) == fs.tab[d][FirstUsable(fs.tab[d], 0) := e]
  {
    hide Inv, VolPut, KeepsDirs, IsLive, Entries, FirstUsable, Rep, Encode, Decode;
    RepTabIs(fs, v, d);
    var i := FirstUsable(fs.tab[d], 0);
    var v' := VolPut(v, d, i, Encode(e));
    OwnVolume(fs, v);
    UsableIsNew(fs, (d, i));
    WrittenDir(v, d, i, e, d);
    forall q | q in fs.own && KeepsEntry(fs, v, q)
      ensures KeepsEntry(fs, v', q)
    {
      WrittenDir(v, d, i, e, q.0);
    }
    KeepsAlong(fs, v, v');
  }

  lemma WrittenDir(v: Vol, d: nat, i: nat, e: Entry, x: nat)
    requires d < |v.data| && i < |v.Dir(d)| / 32 && x < |v.data|
    ensures var v' := VolPut(v, d, i, Encode(e));
            DirAt(v', x) == if x == d then DirAt(v, x)[i := e] else DirAt(v, x)
  {
    hide Decode, Encode, Entries;
    DecodeEncode(e);
    EntriesPut(v.Dir(d), i, Encode(e));
  }

  lemma DotRenamed(fs: Fs, v: Vol, src: Pos, d: nat, e: Entry, to: seq<byte>)
    requires Means(v, fs.g, fs) && Rooted(fs) && Settled(fs, src) && fs.HasSlot(src) && IsDotSlot(src) && d in fs.tab
    requires FirstUsable(fs.tab[d], 0) < |fs.tab[d]| && e == RenamedEntry(fs.At(src), to)
    ensures d < |v.data| && FirstUsable(fs.tab[d], 0) < |v.Dir(d)| / 32
    ensures var i := FirstUsable(fs.tab[d], 0);
            var v1 := VolPut(v, d, i, Encode(e));
            && src.0 < |v1.data| && src.1 < |v1.Dir(src.0)| / 32
            && var v' := VolPut(v1, src.0, src.1, Splice(SlotBytes(v1, src.0, src.1), 0, [DELETED]));
               && !Sound(v', fs.g) && i < |DirAt(v', d)| && DirAt(v', d)[i] == e && e.cluster == fs.At(src).cluster
               && (e.cluster != 0 ==> e.cluster in fs.who && KeepsEntry(fs, v', fs.who[e.cluster].0))
  {
    hide Inv, Rep, VolPut, SlotBytes, KeepsEntry, Rooted, FirstUsable, RenamedEntry, Encode, Entries;
    var i := FirstUsable(fs.tab[d], 0);
    EntryWritten(fs, v, d, e);
    RenamedIs(fs.At(src), to);
    UsableIsNew(fs, (d, i));
    var v1 := VolPut(v, d, i, Encode(e));
    SlotStays(fs, v, d, i, e, src);
    DotMarked(fs, v1, src);
    MarkedDir(v1, src, d);
    var v' := VolPut(v1, src.0, src.1, Splice(SlotBytes(v1, src.0, src.1), 0, [DELETED]));
    DotGone(fs, v', src);
    DotNames(fs, src);
    if e.cluster != 0 {
      HomeEntry(fs, e.cluster);
    }
  }

  lemma SlotStays(fs: Fs, v: Vol, d: nat, i: nat, e: Entry, src: Pos)
    requires Means(v, fs.g, fs) && d < |v.data| && i < |v.Dir(d)| / 32 && fs.HasSlot(src)
    ensures var v1 := VolPut(v, d, i, Encode(e)); src.0 < |v1.data| && src.1 < |v1.Dir(src.0)| / 32
  {
    hide Inv, Encode;
    assert RepDir(fs, v, src.0);
  }

  lemma DotNames(fs: Fs, p: Pos)
    requires Inv(fs) && Settled(fs, p) && fs.HasSlot(p) && IsDotSlot(p)
    ensures fs.At(p).cluster in fs.tab
  {
    assert p in fs.own ==> IsOwner(fs, p);
  }

  /** An entry stored so that it does not read as live leaves a sound volume exactly when its directory stays tidy. */
  lemma StoreExactly(fs: Fs, v: Vol, v': Vol, d: nat, e: Entry)
    requires Means(v, fs.g, fs) && Rooted(fs) && d in fs.tab && !IsLive(e) && EntryOnDisk(v, v', d, e)
    ensures FirstUsable(fs.tab[d], 0) < |fs.tab[d]|
    ensures Sound(v', fs.g) <==> StaysTidy(fs.tab[d], FirstUsable(fs.tab[d], 0), e)
  {
    hide Inv, Rep, VolPut, Encode, FirstUsable, StaysTidy, Entries, Ranked, IsLive, Tidy;
    RepTabIs(fs, v, d);
    var i := FirstUsable(fs.tab[d], 0);
    PutDeadInv(fs, (d, i), e);
    if StaysTidy(fs.tab[d], i, e) {
      RepPutEntry(fs, v, (d, i), e);
      assert Means(v', fs.g, fs.Put((d, i), e));
    }
    if fs' :| Means(v', fs.g, fs') {
      EntryWritten(fs, v, d, e);
      var rank :| Ranked(fs, rank);
      DirInherited(fs, rank, v', fs', d);
      RepTabIs(fs', v', d);
      TidyDirs(fs', d);
      TidyDirs(fs, d);
      StaysTidyExactly(fs.tab[d], i, e);
    }
  }

  lemma TidyDirs(fs: Fs, d: nat)
    requires Inv(fs) && d in fs.tab
    ensures Tidy(fs.tab[d])
  {
    assert DirOk(fs, d);
  }

  lemma NotDotOwned(fs: Fs, p: Pos)
    requires Settled(fs, p) && !IsDotSlot(p)
    ensures p in fs.own
  {
  }
}
