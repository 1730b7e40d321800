/**
 * The state of a FAT16 volume above its bytes: the FAT, the file clusters, the directories, and
 * which directory slots own which cluster chains. `Inv` is what every successful call keeps; each
 * primitive below is one kind of update the calls are made of.
 */
module FileSystem {
  import opened Basics
  import opened Bytes
  import opened Volume
  import opened Names
  import opened Directory

  /** A directory slot: the cluster of the directory (0 is the root) and the slot in it. */
  type Pos = (nat, nat)

  /**
   * tab: the slots of each directory; own: the chain of every live entry; who: the entry and the
   * place in its chain of every chained cluster.
   */
  datatype Fs = Fs(
    g: Geometry, fat: seq<u16>, data: seq<seq<byte>>, tab: map<nat, Dir>,
    own: map<Pos, seq<nat>>, who: map<nat, (Pos, nat)>)
  {
    ghost predicate HasSlot(p: Pos) {
      p.0 in tab && p.1 < |tab[p.0]|
    }

    ghost function At(p: Pos): Entry
      requires HasSlot(p)
    {
      tab[p.0][p.1]
    }

    ghost function Put(p: Pos, e: Entry): Fs
      requires HasSlot(p)
    {
      var dir: Dir := tab[p.0][p.1 := e];
      this.(tab := tab[p.0 := dir])
    }
  }

  predicate IsDotSlot(p: Pos) {
    p.0 != 0 && p.1 < 2
  }

  /** A live entry other than "." and "..". */
  ghost predicate IsOwner(fs: Fs, p: Pos) {
    fs.HasSlot(p) && !IsDotSlot(p) && IsLive(fs.At(p))
  }

  /** The clusters ch are linked in this order and the last one ends the chain. */
  ghost predicate IsChain(fat: seq<u16>, ch: seq<nat>) {
    && ch != []
    && (forall i :: 0 <= i < |ch| ==> 2 <= ch[i] < |fat|)
    && (forall i :: 0 <= i < |ch| - 1 ==> fat[ch[i]] == ch[i + 1])
    && fat[ch[|ch| - 1]] >= END_OF_CHAIN
  }

  ghost predicate Shape(fs: Fs) {
    && |fs.fat| == |fs.data| == fs.g.limit && 2 <= fs.g.limit <= END_OF_CHAIN
    && 1 <= fs.g.spc <= 128
    && 0 in fs.tab
    && (forall c :: 2 <= c < |fs.data| ==> |fs.data[c]| == fs.g.ClusterSize())
  }

  /** own has a chain for exactly the live entries. */
  ghost predicate Owners(fs: Fs) {
    && (forall p :: p in fs.own ==> IsOwner(fs, p))
    && (forall p :: IsOwner(fs, p) ==> p in fs.own)
  }

  /** own and who are inverse: no cluster occurs twice, in one chain or in two. */
  ghost predicate Apart(own: map<Pos, seq<nat>>, who: map<nat, (Pos, nat)>) {
    && (forall p, i :: p in own && 0 <= i < |own[p]| ==> own[p][i] in who && who[own[p][i]] == (p, i))
    && (forall c :: c in who ==> who[c].0 in own && who[c].1 < |own[who[c].0]| && own[who[c].0][who[c].1] == c)
  }

  /**
   * The entry names the head of its chain. A directory has one cluster; a file's chain has room for
   * one byte more than its size.
   */
  ghost predicate EntryOk(fs: Fs, p: Pos) {
    && fs.HasSlot(p) && p in fs.own
    && IsChain(fs.fat, fs.own[p])
    && fs.own[p][0] == fs.At(p).cluster
    && (IsDirectory(fs.At(p)) ==> |fs.own[p]| == 1 && fs.own[p][0] in fs.tab)
    && (!IsDirectory(fs.At(p)) ==> fs.At(p).size < |fs.own[p]| * fs.g.ClusterSize())
  }

  /**
   * A directory is tidy; unless it is the root it starts with "." and ".." and its cluster belongs
   * to a directory entry.
   */
  ghost predicate DirOk(fs: Fs, d: nat) {
    && d in fs.tab
    && |fs.tab[d]| == fs.g.DirSectors(d) * ENTRIES_PER_SECTOR
    && Tidy(fs.tab[d])
    && (d != 0 ==> DotsFormed(fs.tab[d]) && d in fs.who && DirOwner(fs, fs.who[d].0))
  }

  ghost predicate DirOwner(fs: Fs, p: Pos) {
    fs.HasSlot(p) && IsDirectory(fs.At(p))
  }

  predicate DotsFormed(dir: Dir) {
    2 <= |dir| && Named(dir, 0, DOT_NAME) && Named(dir, 1, DOTDOT_NAME)
  }

  ghost predicate EntriesOk(fs: Fs) {
    forall p :: p in fs.own ==> EntryOk(fs, p)
  }

  ghost predicate DirsOk(fs: Fs) {
    forall d :: d in fs.tab ==> DirOk(fs, d)
  }

  ghost predicate Inv(fs: Fs) {
    Shape(fs) && Owners(fs) && Apart(fs.own, fs.who) && EntriesOk(fs) && DirsOk(fs)
  }

  /** Live chains never meet: the statement Apart stands for. */
  lemma ChainsDisjoint(fs: Fs, p: Pos, q: Pos, i: nat, j: nat)
    requires Inv(fs) && p in fs.own && q in fs.own && i < |fs.own[p]| && j < |fs.own[q]|
    requires p != q || i != j
    ensures fs.own[p][i] != fs.own[q][j]
  {
    assert fs.who[fs.own[p][i]] == (p, i);
  }

  ghost function FreeSet(fat: seq<u16>): set<nat> {
    set c | 2 <= c < |fat| && fat[c] == 0
  }

  lemma ChainUsed(fat: seq<u16>, ch: seq<nat>, i: nat)
    requires IsChain(fat, ch) && i < |ch|
    ensures fat[ch[i]] != 0
  {
    assert i < |ch| - 1 ==> fat[ch[i]] == ch[i + 1];
  }

  lemma FreeNotOwned(fs: Fs, c: nat)
    requires Inv(fs) && c < |fs.fat| && fs.fat[c] == 0
    ensures c !in fs.who
  {
    if c in fs.who {
      assert EntryOk(fs, fs.who[c].0);
      ChainUsed(fs.fat, fs.own[fs.who[c].0], fs.who[c].1);
    }
  }

  lemma FileNotDir(fs: Fs, p: Pos, i: nat)
    requires Inv(fs) && p in fs.own && !IsDirectory(fs.At(p)) && i < |fs.own[p]|
    ensures 2 <= fs.own[p][i] < |fs.fat| && fs.own[p][i] !in fs.tab
  {
    assert EntryOk(fs, p);
    var c := fs.own[p][i];
    assert fs.who[c] == (p, i);
    assert c in fs.tab ==> DirOk(fs, c);
  }

  lemma ChainFrame(fat: seq<u16>, fat': seq<u16>, ch: seq<nat>)
    requires IsChain(fat, ch) && |fat'| == |fat|
    requires forall i :: 0 <= i < |ch| ==> fat'[ch[i]] == fat[ch[i]]
    ensures IsChain(fat', ch)
  {
  }

  lemma ShapeKept(fs: Fs, fs': Fs)
    requires Shape(fs) && fs'.g == fs.g && |fs'.fat| == |fs.fat| && fs'.data == fs.data && 0 in fs'.tab
    ensures Shape(fs')
  {
  }

  /** What an update must leave alone for an entry, or a directory, to stay as it was. */
  lemma EntryKept(fs: Fs, fs': Fs, q: Pos)
    requires EntryOk(fs, q) && fs'.g == fs.g && |fs'.fat| == |fs.fat|
    requires fs'.HasSlot(q) && fs'.At(q) == fs.At(q) && q in fs'.own && fs'.own[q] == fs.own[q]
    requires forall i :: 0 <= i < |fs.own[q]| ==> fs'.fat[fs.own[q][i]] == fs.fat[fs.own[q][i]]
    requires IsDirectory(fs.At(q)) ==> fs.own[q][0] in fs'.tab
    ensures EntryOk(fs', q)
  {
    ChainFrame(fs.fat, fs'.fat, fs.own[q]);
  }

  lemma DirKept(fs: Fs, fs': Fs, d: nat)
    requires DirOk(fs, d) && fs'.g == fs.g && d in fs'.tab && fs'.tab[d] == fs.tab[d]
    requires d != 0 ==> d in fs'.who && DirOwner(fs', fs'.who[d].0)
    ensures DirOk(fs', d)
  {
  }

  // ---- Writing into a file's cluster ----------------------------------------------------------

  ghost function SetData(fs: Fs, c: nat, bytes: seq<byte>): Fs
    requires c < |fs.data|
  {
    fs.(data := fs.data[c := bytes])
  }

  lemma SetDataInv(fs: Fs, c: nat, bytes: seq<byte>)
    requires Inv(fs) && c < |fs.data| && |bytes| == fs.g.ClusterSize()
    ensures Inv(SetData(fs, c, bytes))
  {
    hide Tidy, DotsFormed, IsChain, Apart, IsLive;
    var fs' := SetData(fs, c, bytes);
    assert forall q :: IsOwner(fs', q) <==> IsOwner(fs, q);
    assert forall q :: EntryOk(fs', q) <==> EntryOk(fs, q);
    assert forall d :: DirOk(fs', d) <==> DirOk(fs, d);
  }

  // ---- Growing a chain -------------------------------------------------------------------------

  ghost function Grow(fs: Fs, p: Pos, c: nat): Fs
    requires p in fs.own && fs.own[p] != [] && fs.own[p][|fs.own[p]| - 1] < |fs.fat|
    requires c < |fs.fat| && c < 65536
  {
    fs.(fat := fs.fat[c := 0xFFFF][fs.own[p][|fs.own[p]| - 1] := c],
        own := fs.own[p := fs.own[p] + [c]],
        who := fs.who[c := (p, |fs.own[p]|)])
  }

  lemma GrowChain(fat: seq<u16>, ch: seq<nat>, c: nat)
    requires IsChain(fat, ch) && 2 <= c < |fat| && c < 65536 && c !in ch && NoDup(ch)
    ensures IsChain(fat[c := 0xFFFF][ch[|ch| - 1] := c], ch + [c])
  {
  }

  lemma MoreRoom(n: nat, k: nat)
    ensures (n + 1) * k == n * k + k >= n * k
  {
  }

  lemma GrowEntry(fs: Fs, p: Pos, c: nat, q: Pos)
    requires Apart(fs.own, fs.who) && EntryOk(fs, p) && EntryOk(fs, q) && !IsDirectory(fs.At(p))
    requires 2 <= c < |fs.fat| && c < 65536 && c !in fs.who
    ensures EntryOk(Grow(fs, p, c), q)
  {
    var ch := fs.own[q];
    assert forall i :: 0 <= i < |ch| ==> fs.who[ch[i]] == (q, i);
    var last := fs.own[p][|fs.own[p]| - 1];
    assert fs.who[last] == (p, |fs.own[p]| - 1);
    if q == p {
      GrowChain(fs.fat, ch, c);
      MoreRoom(|ch|, fs.g.ClusterSize());
    } else {
      ChainFrame(fs.fat, Grow(fs, p, c).fat, ch);
    }
  }

  lemma ApartGrow(own: map<Pos, seq<nat>>, who: map<nat, (Pos, nat)>, p: Pos, c: nat)
    requires Apart(own, who) && p in own && c !in who
    ensures Apart(own[p := own[p] + [c]], who[c := (p, |own[p]|)])
  {
    var own' := own[p := own[p] + [c]];
    var who' := who[c := (p, |own[p]|)];
    forall q, i | q in own' && 0 <= i < |own'[q]|
      ensures own'[q][i] in who' && who'[own'[q][i]] == (q, i)
    {
      assert q != p || i < |own[p]| ==> own'[q][i] == own[q][i];
    }
  }

  lemma GrowEntries(fs: Fs, p: Pos, c: nat)
    requires EntriesOk(fs) && Apart(fs.own, fs.who) && p in fs.own && EntryOk(fs, p) && !IsDirectory(fs.At(p))
    requires 2 <= c < |fs.fat| && c < 65536 && c !in fs.who
    ensures EntriesOk(Grow(fs, p, c))
  {
    forall q | q in fs.own
      ensures EntryOk(Grow(fs, p, c), q)
    {
      GrowEntry(fs, p, c, q);
    }
  }

  lemma GrowDirs(fs: Fs, p: Pos, c: nat)
    requires DirsOk(fs) && EntryOk(fs, p) && c < |fs.fat| && c < 65536 && c !in fs.who
    ensures DirsOk(Grow(fs, p, c))
  {
    forall d | d in fs.tab
      ensures DirOk(Grow(fs, p, c), d)
    {
      DirKept(fs, Grow(fs, p, c), d);
    }
  }

  lemma GrowOwners(fs: Fs, p: Pos, c: nat)
    requires Owners(fs) && EntryOk(fs, p) && c < |fs.fat| && c < 65536
    ensures Owners(Grow(fs, p, c))
  {
    assert forall q :: IsOwner(Grow(fs, p, c), q) <==> IsOwner(fs, q);
  }

  lemma GrowInv(fs: Fs, p: Pos, c: nat)
    requires Inv(fs) && p in fs.own && !IsDirectory(fs.At(p))
    requires 2 <= c < |fs.fat| && fs.fat[c] == 0
    ensures EntryOk(fs, p) && Inv(Grow(fs, p, c))
  {
    hide Tidy, Apart, Owners, DirsOk;
    FreeNotOwned(fs, c);
    ShapeKept(fs, Grow(fs, p, c));
    ApartGrow(fs.own, fs.who, p, c);
    GrowOwners(fs, p, c);
    GrowEntries(fs, p, c);
    GrowDirs(fs, p, c);
  }

  // ---- Rewriting a live entry -------------------------------------------------------------------

  lemma DirAfterPut(fs: Fs, p: Pos, e: Entry, fs': Fs, d: nat)
    requires DirOk(fs, d) && fs.HasSlot(p) && !IsDotSlot(p) && !IsFree(e)
    requires !IsFree(fs.At(p)) || p.1 == FirstUsable(fs.tab[p.0], 0)
    requires fs'.g == fs.g && d in fs'.tab && fs'.tab[d] == fs.Put(p, e).tab[d]
    requires d != 0 ==> d in fs'.who && DirOwner(fs', fs'.who[d].0)
    ensures DirOk(fs', d)
  {
    if d == p.0 {
      PutTidy(fs.tab[d], p.1, e);
    }
  }

  /** update_directory_entry: a new size. */
  ghost function Resize(fs: Fs, p: Pos, size: u32): Fs
    requires fs.HasSlot(p)
  {
    fs.Put(p, fs.At(p).(size := size))
  }

  lemma ResizeEntries(fs: Fs, p: Pos, size: u32)
    requires EntriesOk(fs) && EntryOk(fs, p) && !IsDirectory(fs.At(p))
    requires size < |fs.own[p]| * fs.g.ClusterSize()
    ensures EntriesOk(Resize(fs, p, size))
  {
    forall q | q in fs.own
      ensures EntryOk(Resize(fs, p, size), q)
    {
      if q != p {
        EntryKept(fs, Resize(fs, p, size), q);
      }
    }
  }

  lemma ResizeDirs(fs: Fs, p: Pos, size: u32)
    requires DirsOk(fs) && IsOwner(fs, p)
    ensures DirsOk(Resize(fs, p, size))
  {
    hide Tidy, DotsFormed, FirstUsable;
    var fs' := Resize(fs, p, size);
    forall d | d in fs'.tab
      ensures DirOk(fs', d)
    {
      assert DirOk(fs, d);
      DirAfterPut(fs, p, fs'.At(p), fs', d);
    }
  }

  lemma ResizeOwners(fs: Fs, p: Pos, size: u32)
    requires Owners(fs) && fs.HasSlot(p)
    ensures Owners(Resize(fs, p, size))
  {
    assert forall q :: IsOwner(Resize(fs, p, size), q) <==> IsOwner(fs, q);
  }

  lemma ResizeInv(fs: Fs, p: Pos, size: u32)
    requires Inv(fs) && p in fs.own && !IsDirectory(fs.At(p))
    requires size < |fs.own[p]| * fs.g.ClusterSize()
    ensures fs.HasSlot(p) && Inv(Resize(fs, p, size))
  {
    var fs' := Resize(fs, p, size);
    ShapeKept(fs, fs');
    ResizeEntries(fs, p, size);
    ResizeDirs(fs, p, size);
    ResizeOwners(fs, p, size);
  }

  // ---- Creating an entry -------------------------------------------------------------------------

  /** Cluster e.cluster is taken for the new entry e in slot p; a new directory brings its slots. */
  ghost function Add(fs: Fs, p: Pos, e: Entry, slots: Dir): Fs
    requires fs.HasSlot(p) && e.cluster < |fs.fat|
  {
    var fs1 := fs.Put(p, e);
    fs1.(fat := fs.fat[e.cluster := 0xFFFF],
         tab := if IsDirectory(e) then fs1.tab[e.cluster := slots] else fs1.tab,
         own := fs.own[p := [e.cluster]],
         who := fs.who[e.cluster := (p, 0)])
  }

  /** Slot p can take entry e. */
  ghost predicate CanAdd(fs: Fs, p: Pos, e: Entry, slots: Dir) {
    && fs.HasSlot(p) && p.1 == FirstUsable(fs.tab[p.0], 0)
    && 2 <= e.cluster < |fs.fat| && fs.fat[e.cluster] == 0
    && IsLive(e)
    && (if IsDirectory(e) then FreshDir(slots, fs.g.spc) else e.size == 0)
  }

  /** A directory with "." and ".." and nothing else. */
  ghost predicate FreshDir(slots: Dir, spc: nat) {
    && |slots| == spc * ENTRIES_PER_SECTOR && DotsFormed(slots) && Tidy(slots)
    && (forall i :: 2 <= i < |slots| ==> !IsLive(slots[i]))
  }

  lemma UsableIsNew(fs: Fs, p: Pos)
    requires Inv(fs) && fs.HasSlot(p) && p.1 == FirstUsable(fs.tab[p.0], 0)
    ensures !IsDotSlot(p) && p !in fs.own
  {
    assert DirOk(fs, p.0);
    assert p in fs.own ==> IsOwner(fs, p);
  }

  lemma FreeNotDir(fs: Fs, c: nat)
    requires Inv(fs) && 2 <= c < |fs.fat| && fs.fat[c] == 0
    ensures c !in fs.who && c !in fs.tab
  {
    FreeNotOwned(fs, c);
    assert c in fs.tab ==> DirOk(fs, c);
  }

  lemma AddOwners(fs: Fs, p: Pos, e: Entry, slots: Dir)
    requires Owners(fs) && CanAdd(fs, p, e, slots) && !IsDotSlot(p) && p !in fs.own && e.cluster !in fs.tab
    ensures Owners(Add(fs, p, e, slots))
  {
    var fs' := Add(fs, p, e, slots);
    forall q
      ensures IsOwner(fs', q) <==> q == p || IsOwner(fs, q)
    {
    }
  }

  lemma AddOldEntry(fs: Fs, p: Pos, e: Entry, slots: Dir, q: Pos)
    requires CanAdd(fs, p, e, slots) && Apart(fs.own, fs.who) && e.cluster !in fs.who && e.cluster !in fs.tab
    requires q != p && q in fs.own && IsOwner(fs, q) && EntryOk(fs, q)
    ensures EntryOk(Add(fs, p, e, slots), q)
  {
    hide Tidy, DotsFormed, IsLive;
    EntryKept(fs, Add(fs, p, e, slots), q);
  }

  lemma AddEntries(fs: Fs, p: Pos, e: Entry, slots: Dir)
    requires Owners(fs) && EntriesOk(fs) && Apart(fs.own, fs.who) && 1 <= fs.g.spc
    requires CanAdd(fs, p, e, slots) && p !in fs.own && e.cluster !in fs.who && e.cluster !in fs.tab
    ensures EntriesOk(Add(fs, p, e, slots))
  {
    hide Tidy, DotsFormed, Apart;
    var fs' := Add(fs, p, e, slots);
    forall q | q in fs'.own
      ensures EntryOk(fs', q)
    {
      if q != p {
        assert IsOwner(fs, q);
        AddOldEntry(fs, p, e, slots, q);
      }
    }
  }

  lemma AddOldDir(fs: Fs, p: Pos, e: Entry, slots: Dir, d: nat)
    requires DirOk(fs, d) && fs.HasSlot(p) && p.1 == FirstUsable(fs.tab[p.0], 0) && IsLive(e) && !IsDotSlot(p)
    requires e.cluster < |fs.fat| && e.cluster !in fs.who && e.cluster !in fs.tab
    requires d != 0 ==> fs.who[d].0 != p
    ensures DirOk(Add(fs, p, e, slots), d)
  {
    var fs' := Add(fs, p, e, slots);
    assert d != 0 ==> DirOwner(fs', fs'.who[d].0);
    DirAfterPut(fs, p, e, fs', d);
  }

  lemma AddDirs(fs: Fs, p: Pos, e: Entry, slots: Dir)
    requires DirsOk(fs) && Apart(fs.own, fs.who) && CanAdd(fs, p, e, slots) && !IsDotSlot(p) && p !in fs.own
    requires e.cluster !in fs.who && e.cluster !in fs.tab
    ensures DirsOk(Add(fs, p, e, slots))
  {
    var fs' := Add(fs, p, e, slots);
    forall d | d in fs'.tab
      ensures DirOk(fs', d)
    {
      if d in fs.tab {
        assert DirOk(fs, d);
        AddOldDir(fs, p, e, slots, d);
      }
    }
  }

  lemma ApartAdd(own: map<Pos, seq<nat>>, who: map<nat, (Pos, nat)>, p: Pos, c: nat)
    requires Apart(own, who) && p !in own && c !in who
    ensures Apart(own[p := [c]], who[c := (p, 0)])
  {
  }

  lemma AddInv(fs: Fs, p: Pos, e: Entry, slots: Dir)
    requires Inv(fs) && CanAdd(fs, p, e, slots)
    ensures Inv(Add(fs, p, e, slots))
  {
    UsableIsNew(fs, p);
    FreeNotDir(fs, e.cluster);
    ShapeKept(fs, Add(fs, p, e, slots));
    ApartAdd(fs.own, fs.who, p, e.cluster);
    AddOwners(fs, p, e, slots);
    AddEntries(fs, p, e, slots);
    AddDirs(fs, p, e, slots);
  }

  // ---- Removing an entry -------------------------------------------------------------------------

  /** The FAT with every cluster of ch marked free. */
  ghost function Cleared(fat: seq<u16>, ch: seq<nat>): (r: seq<u16>)
    ensures |r| == |fat|
    ensures forall c :: 0 <= c < |fat| ==> r[c] == if c in ch then 0 else fat[c]
  {
    seq(|fat|, c requires 0 <= c < |fat| => if c in ch then 0 else fat[c])
  }

  /** A removed directory leaves its slots behind as the bytes of a free cluster. */
  ghost function Drop(fs: Fs, p: Pos): Fs
    requires EntryOk(fs, p) && |fs.fat| == |fs.data|
  {
    fs.(fat := Cleared(fs.fat, fs.own[p]),
        data := if IsDirectory(fs.At(p)) then fs.data[fs.At(p).cluster := Flat(fs.tab[fs.At(p).cluster])] else fs.data,
        tab := fs.Put(p, MarkDeleted(fs.At(p))).tab - (if IsDirectory(fs.At(p)) then {fs.At(p).cluster} else {}),
        own := fs.own - {p},
        who := fs.who - set c | c in fs.own[p])
  }

  /** The directory in cluster d holds no entry besides "." and "..". */
  ghost predicate EmptyDir(fs: Fs, d: nat) {
    forall i :: !IsOwner(fs, (d, i))
  }

  ghost predicate CanDrop(fs: Fs, p: Pos) {
    && EntryOk(fs, p) && IsOwner(fs, p) && |fs.fat| == |fs.data|
    && (IsDirectory(fs.At(p)) ==> EmptyDir(fs, fs.At(p).cluster))
  }

  lemma DropOwners(fs: Fs, p: Pos)
    requires Owners(fs) && CanDrop(fs, p)
    ensures Owners(Drop(fs, p))
  {
    forall q
      ensures IsOwner(Drop(fs, p), q) <==> q != p && IsOwner(fs, q)
    {
      if IsDirectory(fs.At(p)) && q.0 == fs.At(p).cluster {
        assert !IsOwner(fs, (q.0, q.1));
      }
    }
  }

  lemma ApartDrop(own: map<Pos, seq<nat>>, who: map<nat, (Pos, nat)>, p: Pos)
    requires Apart(own, who) && p in own
    ensures Apart(own - {p}, who - set c | c in own[p])
  {
    forall q, i | q in own && q != p && 0 <= i < |own[q]|
      ensures own[q][i] !in own[p]
    {
      assert who[own[q][i]] == (q, i);
    }
  }

  lemma DropEntries(fs: Fs, p: Pos)
    requires Owners(fs) && EntriesOk(fs) && Apart(fs.own, fs.who) && CanDrop(fs, p)
    ensures EntriesOk(Drop(fs, p))
  {
    forall q | q in fs.own && q != p
      ensures EntryOk(Drop(fs, p), q)
    {
      DropEntry(fs, p, q);
    }
  }

  lemma DropEntry(fs: Fs, p: Pos, q: Pos)
    requires Apart(fs.own, fs.who) && CanDrop(fs, p) && EntryOk(fs, q) && IsOwner(fs, q) && q != p
    ensures EntryOk(Drop(fs, p), q)
  {
    forall i | 0 <= i < |fs.own[q]|
      ensures fs.own[q][i] !in fs.own[p]
    {
      assert fs.who[fs.own[q][i]] == (q, i);
    }
    assert fs.own[p][0] in fs.own[p];
    assert !IsDirectory(fs.At(p)) || !IsOwner(fs, (fs.At(p).cluster, q.1));
    EntryKept(fs, Drop(fs, p), q);
  }

  /** The owner of a directory that stays is another entry, in a directory that stays. */
  lemma DropDirOwner(fs: Fs, p: Pos, d: nat)
    requires Owners(fs) && Apart(fs.own, fs.who) && CanDrop(fs, p) && DirOk(fs, d) && d in Drop(fs, p).tab && d != 0
    ensures d in Drop(fs, p).who && DirOwner(Drop(fs, p), Drop(fs, p).who[d].0)
  {
    hide Tidy, DotsFormed, IsChain;
    var q := fs.who[d].0;
    assert IsOwner(fs, q);
    assert !IsDirectory(fs.At(p)) || !IsOwner(fs, (fs.At(p).cluster, q.1));
  }

  lemma DropDirs(fs: Fs, p: Pos)
    requires Owners(fs) && Apart(fs.own, fs.who) && CanDrop(fs, p) && DirsOk(fs)
    ensures DirsOk(Drop(fs, p))
  {
    forall d | d in Drop(fs, p).tab
      ensures DirOk(Drop(fs, p), d)
    {
      assert DirOk(fs, d);
      if d != 0 {
        DropDirOwner(fs, p, d);
      }
      DirAfterPut(fs, p, MarkDeleted(fs.At(p)), Drop(fs, p), d);
    }
  }

  lemma DropShape(fs: Fs, p: Pos)
    requires Shape(fs) && CanDrop(fs, p) && (IsDirectory(fs.At(p)) ==> DirOk(fs, fs.At(p).cluster))
    ensures Shape(Drop(fs, p))
  {
    assert fs.own[p][0] != 0;
  }

  lemma DropInv(fs: Fs, p: Pos)
    requires Inv(fs) && CanDrop(fs, p)
    ensures Inv(Drop(fs, p))
  {
    DropShape(fs, p);
    DropOwners(fs, p);
    ApartDrop(fs.own, fs.who, p);
    DropEntries(fs, p);
    DropDirs(fs, p);
  }

  // ---- Renaming an entry -------------------------------------------------------------------------

  /** Entry e takes over the chain of src in slot dst, and src is marked deleted. */
  ghost function Move(fs: Fs, src: Pos, dst: Pos, e: Entry): Fs
    requires fs.HasSlot(src) && fs.HasSlot(dst) && src in fs.own
  {
    var fs1 := fs.Put(dst, e);
    fs1.Put(src, MarkDeleted(fs1.At(src))).(
      own := (fs.own - {src})[dst := fs.own[src]],
      who := map c | c in fs.who :: if fs.who[c].0 == src then (dst, fs.who[c].1) else fs.who[c])
  }

  ghost predicate CanMove(fs: Fs, src: Pos, dst: Pos, e: Entry) {
    && EntryOk(fs, src) && IsOwner(fs, src)
    && fs.HasSlot(dst) && dst.1 == FirstUsable(fs.tab[dst.0], 0) && !IsDotSlot(dst)
    && IsLive(e) && e.cluster == fs.At(src).cluster && e.size == fs.At(src).size
    && (IsDirectory(e) <==> IsDirectory(fs.At(src)))
  }

  lemma MoveOwners(fs: Fs, src: Pos, dst: Pos, e: Entry)
    requires Owners(fs) && CanMove(fs, src, dst, e)
    ensures Owners(Move(fs, src, dst, e))
  {
    hide Tidy, IsChain, EntryOk, FirstUsable;
    forall q
      ensures IsOwner(Move(fs, src, dst, e), q) <==> q != src && (q == dst || IsOwner(fs, q))
    {
    }
  }

  lemma ApartRenamed(own: map<Pos, seq<nat>>, who: map<nat, (Pos, nat)>, src: Pos, dst: Pos)
    requires Apart(own, who) && src in own && dst !in own
    ensures Apart((own - {src})[dst := own[src]],
                  map c | c in who :: if who[c].0 == src then (dst, who[c].1) else who[c])
  {
  }

  lemma ApartMove(fs: Fs, src: Pos, dst: Pos, e: Entry)
    requires Owners(fs) && CanMove(fs, src, dst, e) && Apart(fs.own, fs.who)
    ensures Apart(Move(fs, src, dst, e).own, Move(fs, src, dst, e).who)
  {
    hide Tidy, IsChain, Apart;
    assert dst in fs.own ==> IsOwner(fs, dst);
    ApartRenamed(fs.own, fs.who, src, dst);
  }

  lemma MoveEntries(fs: Fs, src: Pos, dst: Pos, e: Entry)
    requires Owners(fs) && EntriesOk(fs) && CanMove(fs, src, dst, e)
    ensures EntriesOk(Move(fs, src, dst, e))
  {
    hide Tidy, DotsFormed, IsChain;
    var fs' := Move(fs, src, dst, e);
    forall q | q in fs'.own
      ensures EntryOk(fs', q)
    {
      if q != dst {
        assert IsOwner(fs, q);
        EntryKept(fs, fs', q);
      }
    }
  }

  lemma MoveDirs(fs: Fs, src: Pos, dst: Pos, e: Entry)
    requires Owners(fs) && DirsOk(fs) && Apart(fs.own, fs.who) && CanMove(fs, src, dst, e)
    ensures DirsOk(Move(fs, src, dst, e))
  {
    var fs' := Move(fs, src, dst, e);
    forall d | d in fs'.tab
      ensures DirOk(fs', d)
    {
      assert DirOk(fs, d);
      MoveDir(fs, src, dst, e, d);
    }
  }

  lemma MoveDirOwner(fs: Fs, src: Pos, dst: Pos, e: Entry, d: nat)
    requires Owners(fs) && Apart(fs.own, fs.who) && CanMove(fs, src, dst, e) && DirOk(fs, d) && d != 0
    ensures d in Move(fs, src, dst, e).who && DirOwner(Move(fs, src, dst, e), Move(fs, src, dst, e).who[d].0)
  {
    hide Tidy, DotsFormed, IsChain, EntryOk;
    assert IsOwner(fs, fs.who[d].0);
  }

  lemma MoveDir(fs: Fs, src: Pos, dst: Pos, e: Entry, d: nat)
    requires Owners(fs) && Apart(fs.own, fs.who) && CanMove(fs, src, dst, e) && DirOk(fs, d)
    ensures DirOk(Move(fs, src, dst, e), d)
  {
    hide Tidy, DotsFormed, IsChain;
    var fs' := Move(fs, src, dst, e);
    if d != 0 {
      MoveDirOwner(fs, src, dst, e, d);
    }
    var fs1 := fs.Put(dst, e).(who := fs'.who, own := fs'.own);
    assert d != 0 ==> DirOwner(fs1, fs1.who[d].0);
    DirAfterPut(fs, dst, e, fs1, d);
    DirAfterPut(fs1, src, MarkDeleted(fs1.At(src)), fs', d);
  }

  lemma MoveInv(fs: Fs, src: Pos, dst: Pos, e: Entry)
    requires Inv(fs) && CanMove(fs, src, dst, e)
    ensures Inv(Move(fs, src, dst, e))
  {
    ShapeKept(fs, Move(fs, src, dst, e));
    MoveOwners(fs, src, dst, e);
    ApartMove(fs, src, dst, e);
    MoveEntries(fs, src, dst, e);
    MoveDirs(fs, src, dst, e);
  }

  // ---- Failed calls --------------------------------------------------------------------------------

  /** A cluster that is claimed but ends up in no chain. */
  ghost function Leak(fs: Fs, c: nat): Fs
    requires c < |fs.fat|
  {
    fs.(fat := fs.fat[c := 0xFFFF])
  }

  lemma LeakInv(fs: Fs, c: nat)
    requires Inv(fs) && 2 <= c < |fs.fat| && fs.fat[c] == 0
    ensures Inv(Leak(fs, c))
  {
    hide Tidy, DotsFormed, IsChain;
    FreeNotOwned(fs, c);
    ShapeKept(fs, Leak(fs, c));
    assert forall q :: IsOwner(Leak(fs, c), q) <==> IsOwner(fs, q);
    forall q | q in fs.own
      ensures EntryOk(Leak(fs, c), q)
    {
      assert EntryOk(fs, q);
      assert forall i :: 0 <= i < |fs.own[q]| ==> fs.own[q][i] in fs.who;
      LeakEntry(fs, c, q);
    }
    forall d | d in fs.tab
      ensures DirOk(Leak(fs, c), d)
    {
      assert DirOk(fs, d);
      DirKept(fs, Leak(fs, c), d);
    }
  }

  lemma LeakEntry(fs: Fs, c: nat, q: Pos)
    requires EntryOk(fs, q) && c < |fs.fat| && c !in fs.own[q]
    ensures EntryOk(Leak(fs, c), q)
  {
    EntryKept(fs, Leak(fs, c), q);
  }

  // ---- An entry that does not read as live -----------------------------------------------------------

  /** Storing one in the first usable slot of a directory keeps the volume sound exactly when the directory stays tidy. */
  lemma PutDeadInv(fs: Fs, p: Pos, e: Entry)
    requires Inv(fs) && fs.HasSlot(p) && p.1 == FirstUsable(fs.tab[p.0], 0) && !IsLive(e)
    ensures Inv(fs.Put(p, e)) <==> StaysTidy(fs.tab[p.0], p.1, e)
  {
    hide FirstUsable, Tidy, DotsFormed, StaysTidy, IsChain;
    UsableIsNew(fs, p);
    assert DirOk(fs, p.0);
    StaysTidyExactly(fs.tab[p.0], p.1, e);
    var fs' := fs.Put(p, e);
    assert Inv(fs') ==> DirOk(fs', p.0);
    if StaysTidy(fs.tab[p.0], p.1, e) {
      PutDeadOwners(fs, p, e);
      PutDeadDirs(fs, p, e);
      PutDeadEntries(fs, p, e);
    }
  }

  lemma PutDeadOwners(fs: Fs, p: Pos, e: Entry)
    requires Owners(fs) && fs.HasSlot(p) && !IsLive(fs.At(p)) && !IsLive(e)
    ensures Owners(fs.Put(p, e))
  {
    forall q
      ensures IsOwner(fs.Put(p, e), q) <==> IsOwner(fs, q)
    {
    }
  }

  lemma PutDeadEntries(fs: Fs, p: Pos, e: Entry)
    requires EntriesOk(fs) && fs.HasSlot(p) && p !in fs.own
    ensures EntriesOk(fs.Put(p, e))
  {
    hide IsChain;
    forall q | q in fs.own
      ensures EntryOk(fs.Put(p, e), q)
    {
      assert EntryOk(fs, q);
    }
  }

  lemma PutDeadDirs(fs: Fs, p: Pos, e: Entry)
    requires DirsOk(fs) && Apart(fs.own, fs.who) && fs.HasSlot(p) && !IsDotSlot(p) && p !in fs.own
    requires Tidy(fs.tab[p.0][p.1 := e])
    ensures DirsOk(fs.Put(p, e))
  {
    hide Tidy, DotsFormed, IsLive;
    var fs' := fs.Put(p, e);
    forall d | d in fs'.tab
      ensures DirOk(fs', d)
    {
      assert DirOk(fs, d);
      if d != 0 {
        DotsFormedSame(fs.tab[d], fs'.tab[d]);
      }
    }
  }

  lemma DotsFormedSame(dir: Dir, dir': Dir)
    requires DotsFormed(dir) && |dir'| == |dir|
    requires 2 <= |dir| ==> dir'[0] == dir[0] && dir'[1] == dir[1]
    ensures DotsFormed(dir')
  {
    hide GetName;
  }

  // ---- A new directory -----------------------------------------------------------------------------

  /** The cluster init_directory writes: "." and "..", then zeros. */
  function DirImage(c: u16, parent: u16, size: nat): (r: seq<byte>)
    requires 64 <= size
    ensures |r| == size
  {
    Encode(NewDirectory(DOT_NAME, c)) + Encode(NewDirectory(DOTDOT_NAME, parent)) + seq(size - 64, i => 0)
  }

  lemma DotEntry(name: seq<byte>, c: u16)
    requires name == DOT_NAME || name == DOTDOT_NAME
    ensures IsLive(NewDirectory(name, c)) && GetName(NewDirectory(name, c)) == name
  {
    assert Utf8(name[1..]);
    assert Utf8(name);
    DirNameRoundTrip(name, c);
  }

  lemma DirImageSlots(c: u16, parent: u16, size: nat, i: nat)
    requires 64 <= size && i < size / 32
    ensures i == 0 ==> Entries(DirImage(c, parent, size))[i] == NewDirectory(DOT_NAME, c)
    ensures i == 1 ==> Entries(DirImage(c, parent, size))[i] == NewDirectory(DOTDOT_NAME, parent)
    ensures 2 <= i ==> IsFree(Entries(DirImage(c, parent, size))[i])
  {
    hide Encode, NewDirectory;
    var image := DirImage(c, parent, size);
    if i == 0 {
      assert image[0..32] == Encode(NewDirectory(DOT_NAME, c));
      DecodeEncode(NewDirectory(DOT_NAME, c));
    } else if i == 1 {
      assert image[32..64] == Encode(NewDirectory(DOTDOT_NAME, parent));
      DecodeEncode(NewDirectory(DOTDOT_NAME, parent));
    } else {
      assert image[32 * i..32 * i + 32][..11][0] == image[32 * i] == 0;
    }
  }

  /** A directory starts out tidy, with its two dot entries and nothing else. */
  lemma DirImageFresh(c: u16, parent: u16, spc: nat)
    requires 1 <= spc
    ensures FreshDir(Entries(DirImage(c, parent, spc * SECTOR_SIZE)), spc)
  {
    hide DirImage, Entries, GetName, NewDirectory;
    var slots := Entries(DirImage(c, parent, spc * SECTOR_SIZE));
    DirImageSlots(c, parent, spc * SECTOR_SIZE, 0);
    DirImageSlots(c, parent, spc * SECTOR_SIZE, 1);
    DotEntry(DOT_NAME, c);
    DotEntry(DOTDOT_NAME, parent);
    forall i | 2 <= i < |slots|
      ensures IsFree(slots[i])
    {
      DirImageSlots(c, parent, spc * SECTOR_SIZE, i);
    }
  }
}
