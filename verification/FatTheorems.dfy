/**
 * What the FAT16 calls add up to: created files are found again, names stay unique, open files do not
 * disturb each other, and exactly where the driver falls short of that.
 */
module FatTheorems {
  import opened Bytes
  import opened Volume
  import opened Names
  import opened Directory
  import opened FileSystem
  import opened FileIO
  import opened FileRuns
  import opened Namespace
  import opened FatDevice
  import opened Fat16Driver
  import opened Format

  // ---- Open files ------------------------------------------------------------------------------------

  /** A run that names only other entries keeps an open file's cursor and its bytes. */
  lemma OtherFilesKeep(fs: Fs, ss: seq<Step>, fs': Fs, h: Handle)
    requires Inv(fs) && Run(fs, ss, fs') && Cursor(fs, h)
    requires forall s :: s in ss ==> h.p !in Touches(s)
    ensures fs'.g == fs.g && Cursor(fs', h) && FileText(fs', h) == FileText(fs, h)
  {
    hide Inv, Run, Touches, AtCluster;
    CursorIndex(fs, h);
    RunIsolates(fs, ss, fs', h.p);
    RunGeometry(fs, ss, fs');
    OwnerInData(fs, h.p);
    UntouchedBytes(fs, fs', h.p);
  }

  lemma {:induction false} RunGeometry(fs: Fs, ss: seq<Step>, fs': Fs)
    requires Inv(fs) && Run(fs, ss, fs')
    ensures fs'.g == fs.g
    decreases |ss|
  {
    hide Inv;
    if ss != [] {
      StepInv(fs, ss[0]);
      RunGeometry(Apply(fs, ss[0]), ss[1..], fs');
    }
  }

  // ---- Names -----------------------------------------------------------------------------------------

  /** A name create_file stores and looks up faithfully. */
  predicate ValidName(name: seq<byte>) {
    && name != [] && Fits83(name)
    && Utf8(SplitName(name).0) && Utf8(SplitName(name).1)
  }

  /** A successful create_file of a valid name is a step that brings a new name. */
  lemma CreateIsNew(was: Fs, path: seq<byte>, c: u16)
    requires Inv(was) && was.g.ScansFit() && Walks(was, Components(path)) && ValidName(SplitPath(path).1)
    requires was.g.limit <= |was.fat|
    requires CreateOutcome(was, path, 12).Ok? && CreateOutcome(was, path, 12).value in was.tab
    ensures GetName(FileEntry(path, c)) == SplitPath(path).1
    ensures NewName(was, CreateStep(was, CreateOutcome(was, path, 12).value, FileEntry(path, c), []))
  {
    hide Inv, Resolve, Components, Lookup, FirstUsable, GetName, ParentCluster, SplitPath, SplitName, NewFile, Fits83,
         Utf8, Taken, Geometry.ScansFit, SlotsAt;
    AbsentInParent(was, path);
    NameRoundTrip(SplitPath(path).1, c);
  }

  /** A directory name create_dir stores and looks up faithfully. */
  predicate ValidDirName(name: seq<byte>) {
    name != [] && Utf8(name) && |name| <= 8 && SPACE !in name
  }

  lemma CreateDirIsNew(was: Fs, path: seq<byte>, c: u16, slots: Dir)
    requires Inv(was) && was.g.ScansFit() && Walks(was, Components(path)) && ValidDirName(SplitPath(path).1)
    requires was.g.limit <= |was.fat|
    requires CreateOutcome(was, path, 8).Ok? && CreateOutcome(was, path, 8).value in was.tab
    ensures GetName(DirEntryFor(path, c)) == SplitPath(path).1
    ensures NewName(was, CreateStep(was, CreateOutcome(was, path, 8).value, DirEntryFor(path, c), slots))
  {
    hide Inv, Resolve, Components, Lookup, FirstUsable, GetName, ParentCluster, SplitPath, NewDirectory, Utf8, Taken,
         Geometry.ScansFit, SlotsAt;
    AbsentInParent(was, path);
    DirNameRoundTrip(SplitPath(path).1, c);
  }

  lemma RenamedName(e: Entry, to: seq<byte>)
    requires ValidName(SplitPath(to).1)
    ensures GetName(RenamedEntry(e, to)) == SplitPath(to).1
  {
    hide Fits83, Utf8, SplitPath, FieldName;
    NameRoundTrip(SplitPath(to).1, 0);
  }

  lemma RenameIsNew(was: Fs, from: seq<byte>, to: seq<byte>, e: Entry)
    requires Inv(was) && Walks(was, Components(to)) && ValidName(SplitPath(to).1)
    requires RenameOutcome(was, from, to).Ok? && RenameOutcome(was, from, to).value in was.tab
    requires Resolve(was.tab, 0, Components(from)).Ok?
    ensures var d := RenameOutcome(was, from, to).value;
            NewName(was, Rename(Resolve(was.tab, 0, Components(from)).value, (d, FirstUsable(was.tab[d], 0)),
                                RenamedEntry(e, to)))
  {
    hide Inv, Resolve, Components, Lookup, FirstUsable, GetName, ParentCluster, SplitPath, RenamedEntry, ValidName,
         SlotsAt;
    AbsentInParent(was, to) by { ValidNonempty(to); }
    RenamedName(e, to);
  }

  lemma ValidNonempty(path: seq<byte>)
    requires ValidName(SplitPath(path).1)
    ensures SplitPath(path).1 != []
  {
  }

  /** Whatever comes of a create_file with a valid name, names stay unique in every directory. */
  lemma CreateFileUnique(was: Fs, now: Fs, path: seq<byte>, r: Result<()>)
    requires Inv(was) && was.g.ScansFit() && Unique(was) && Walks(was, Components(path)) && ValidName(SplitPath(path).1)
    requires FileCreate(was, now, path, r)
    ensures Unique(now)
  {
    hide Inv, Geometry.ScansFit, Unique, ValidName, Components, SplitPath, CreateOutcome, NextFree, FileEntry, Claims,
         FirstUsable, SlotsAt, NewName, Enabled, Apply;
    DataSize(was, 0);
    ClaimedIsFree(was, path, 12);
    var d := CreateOutcome(was, path, 12);
    if d.Ok? && d.value in was.tab && !IsLive(FileEntry(path, NextFree(was))) {
      DeadUnique(was, Leak(was, NextFree(was)), now, d.value, FileEntry(path, NextFree(was)));
    } else if d.Ok? && d.value in was.tab {
      CreateIsNew(was, path, NextFree(was));
      StepUnique(was, CreateStep(was, d.value, FileEntry(path, NextFree(was)), []));
    } else {
      assert now.tab == was.tab;
      SameTabUnique(was, now);
    }
  }

  lemma SameTabUnique(fs: Fs, fs': Fs)
    requires Unique(fs) && fs'.tab == fs.tab
    ensures Unique(fs')
  {
  }

  lemma DeadUnique(was: Fs, mid: Fs, now: Fs, d: nat, e: Entry)
    requires Unique(was) && mid.tab == was.tab && d in was.tab && !IsLive(e)
    requires mid.HasSlot((d, FirstUsable(was.tab[d], 0))) && now == mid.Put((d, FirstUsable(was.tab[d], 0)), e)
    ensures Unique(now)
  {
    hide UniqueNames, FirstUsable, GetName;
    SameTabUnique(was, mid);
    PutUniqueAll(mid, (d, FirstUsable(was.tab[d], 0)), e);
  }

  lemma CreateDirUnique(was: Fs, now: Fs, path: seq<byte>, r: Result<()>)
    requires Inv(was) && was.g.ScansFit() && Unique(was) && Walks(was, Components(path)) && ValidDirName(SplitPath(path).1)
    requires DirCreate(was, now, path, r)
    ensures Unique(now)
  {
    hide Inv, Geometry.ScansFit, Unique, ValidDirName, Components, SplitPath, CreateOutcome, NextFree, DirEntryFor,
         Claims, FirstUsable, SlotsAt, NewName, Enabled, Apply, DirImage, Entries;
    DataSize(was, 0);
    SpcPositive(was);
    ClaimedIsFree(was, path, 8);
    var d := CreateOutcome(was, path, 8);
    if d.Ok? && d.value in was.tab && !IsLive(DirEntryFor(path, NextFree(was))) {
      DeadUnique(was, Initialised(was, NextFree(was), d.value), now, d.value, DirEntryFor(path, NextFree(was)));
    } else if d.Ok? && d.value in was.tab {
      var c := NextFree(was);
      var slots := Entries(DirImage(c, d.value, was.g.ClusterSize()));
      CreateDirIsNew(was, path, c, slots);
      StepUnique(was, CreateStep(was, d.value, DirEntryFor(path, c), slots));
    } else {
      assert now.tab == was.tab;
      SameTabUnique(was, now);
    }
  }

  /** A rename to a valid name that fails, or moves an entry to a directory, keeps names unique as well. */
  lemma RenameUnique(was: Fs, now: Fs, from: seq<byte>, to: seq<byte>, r: Result<()>)
    requires Inv(was) && Unique(was) && Walks(was, Components(from)) && Walks(was, Components(to)) && ValidName(SplitPath(to).1)
    requires RenameDone(was, now, from, to, r)
    requires var d := RenameOutcome(was, from, to); d.Err? || (d.value in was.tab && OwnedBy(was, from))
    ensures Unique(now)
  {
    hide Inv, Unique, ValidName, Components, SplitPath, RenamedEntry, FirstUsable, NewName, Enabled, Apply;
    var d := RenameOutcome(was, from, to);
    if d.Ok? {
      var src := Resolve(was.tab, 0, Components(from)).value;
      RenameIsNew(was, from, to, was.At(src));
      StepUnique(was, Rename(src, (d.value, FirstUsable(was.tab[d.value], 0)), RenamedEntry(was.At(src), to)));
    }
  }

  /** For any other name: a create keeps names unique exactly when the name as stored is not in the directory. */
  lemma AddUniqueExactly(fs: Fs, p: Pos, e: Entry, slots: Dir)
    requires Inv(fs) && Unique(fs) && Enabled(fs, Create(p, e, slots))
    ensures Unique(Apply(fs, Create(p, e, slots))) <==> NewName(fs, Create(p, e, slots))
  {
    hide Inv, GetName, FreshDir, IsChain, Tidy;
    var s := Create(p, e, slots);
    var dir := fs.tab[p.0];
    var j := Lookup(dir, GetName(e), 0);
    FirstUsableFree(dir);
    if j == |dir| {
      StepUnique(fs, s);
    } else {
      FreeNotDir(fs, e.cluster);
      var dir' := Apply(fs, s).tab[p.0];
      assert dir' == dir[p.1 := e];
      assert Named(dir, j, GetName(e));
      assert IsLive(dir'[j]) && IsLive(dir'[p.1]) && GetName(dir'[j]) == GetName(dir'[p.1]);
    }
  }

  /** A rename keeps names unique exactly when the name as stored is new in the directory, or was the entry's own. */
  lemma RenameUniqueExactly(fs: Fs, src: Pos, dst: Pos, e: Entry)
    requires Inv(fs) && Unique(fs) && Enabled(fs, Rename(src, dst, e))
    ensures Unique(Apply(fs, Rename(src, dst, e))) <==>
            var j := Lookup(fs.tab[dst.0], GetName(e), 0);
            j == |fs.tab[dst.0]| || (dst.0, j) == src
  {
    hide Inv, GetName, IsChain, Tidy, UniqueNames, FirstUsable;
    var s := Rename(src, dst, e);
    var dir, dir' := fs.tab[dst.0], Apply(fs, s).tab[dst.0];
    var j := Lookup(dir, GetName(e), 0);
    FirstUsableFree(dir);
    RenamedDir(fs, s);
    if j == |dir| {
      StepUnique(fs, s);
    } else if (dst.0, j) == src {
      OwnNameUnique(fs, s, j);
    } else {
      assert Named(dir, j, GetName(e));
      assert IsLive(dir'[j]) && IsLive(dir'[dst.1]) && GetName(dir'[j]) == GetName(dir'[dst.1]);
      NotUnique(dir', j, dst.1);
    }
  }

  lemma NotUnique(dir: Dir, i: nat, j: nat)
    requires i < |dir| && j < |dir| && i != j && IsLive(dir[i]) && IsLive(dir[j]) && GetName(dir[i]) == GetName(dir[j])
    ensures !UniqueNames(dir)
  {
    hide GetName;
  }

  lemma RenamedDir(fs: Fs, s: Step)
    requires Inv(fs) && s.Rename? && Enabled(fs, s)
    ensures fs.HasSlot(s.src) && fs.HasSlot(s.dst) && IsLive(s.e) && IsLive(fs.At(s.src)) && s.src != s.dst
    ensures Apply(fs, s).tab == fs.Put(s.dst, s.e).Put(s.src, MarkDeleted(fs.At(s.src))).tab
  {
    hide Inv, IsChain, FirstUsable;
    FirstUsableFree(fs.tab[s.dst.0]);
  }

  lemma OwnNameUnique(fs: Fs, s: Step, j: nat)
    requires Inv(fs) && Unique(fs) && s.Rename? && Enabled(fs, s) && s.src == (s.dst.0, j)
    requires j < |fs.tab[s.dst.0]| && Named(fs.tab[s.dst.0], j, GetName(s.e))
    ensures Unique(Apply(fs, s))
  {
    hide Inv, GetName, IsChain, UniqueNames, FirstUsable, Apply, Enabled;
    RenamedDir(fs, s);
    var dir := fs.tab[s.dst.0];
    var marked := dir[j := MarkDeleted(dir[j])];
    MarkUnique(dir, j, GetName(s.e));
    PutUnique(marked, s.dst.1, s.e);
    assert dir[s.dst.1 := s.e][j := MarkDeleted(dir[j])] == marked[s.dst.1 := s.e];
  }

  /** With its only bearer marked deleted, a name is gone from the directory. */
  lemma MarkUnique(dir: Dir, j: nat, name: seq<byte>)
    requires UniqueNames(dir) && j < |dir| && Named(dir, j, name)
    ensures var marked := dir[j := MarkDeleted(dir[j])];
            UniqueNames(marked) && Lookup(marked, name, 0) == |marked|
  {
    hide GetName;
    var marked := dir[j := MarkDeleted(dir[j])];
    var k := Lookup(marked, name, 0);
    assert !IsLive(MarkDeleted(dir[j]));
    assert k < |marked| ==> Named(marked, k, name);
    assert forall i :: 0 <= i < |dir| && i != j ==> marked[i] == dir[i];
  }

  /** Adding a name a directory does not have changes no lookup of another name. */
  lemma {:induction false} LookupOther(dir: Dir, i: nat, e: Entry, name: seq<byte>, k: nat)
    requires i < |dir| && !IsLive(dir[i]) && k <= |dir| && GetName(e) != name
    ensures Lookup(dir[i := e], name, k) == Lookup(dir, name, k)
    decreases |dir| - k
  {
    hide GetName;
    if k < |dir| {
      assert Named(dir[i := e], k, name) <==> Named(dir, k, name);
      if !Named(dir, k, name) {
        LookupOther(dir, i, e, name, k + 1);
      }
    }
  }

  lemma {:induction false} LookupNew(dir: Dir, i: nat, e: Entry, k: nat)
    requires i < |dir| && IsLive(e) && k <= i && Lookup(dir, GetName(e), k) == |dir|
    ensures Lookup(dir[i := e], GetName(e), k) == i
    decreases i - k
  {
    hide GetName;
    assert !Named(dir, k, GetName(e));
    if k < i {
      assert !Named(dir[i := e], k, GetName(e));
      LookupNew(dir, i, e, k + 1);
    }
  }

  /** A path that led somewhere before a name was added leads there still. */
  lemma {:induction false} ResolveStable(tab: map<nat, Dir>, tab': map<nat, Dir>, p: Pos, e: Entry,
                                         d: nat, names: seq<seq<byte>>)
    requires p.0 in tab && p.1 < |tab[p.0]| && !IsLive(tab[p.0][p.1]) && Lookup(tab[p.0], GetName(e), 0) == |tab[p.0]|
    requires p.0 in tab' && tab'[p.0] == tab[p.0][p.1 := e]
    requires forall x :: x in tab && x != p.0 ==> x in tab' && tab'[x] == tab[x]
    requires Resolve(tab, d, names).Ok?
    ensures Resolve(tab', d, names) == Resolve(tab, d, names)
    ensures var q := Resolve(tab, d, names).value; q.0 in tab' && q.1 < |tab'[q.0]| && tab'[q.0][q.1] == tab[q.0][q.1]
    decreases |names|
  {
    hide GetName, Lookup;
    if d == p.0 {
      LookupOther(tab[d], p.1, e, names[0], 0);
    }
    var i := Lookup(tab[d], names[0], 0);
    assert Named(tab[d], i, names[0]);
    if |names| > 1 {
      ResolveStable(tab, tab', p, e, tab[d][i].cluster, names[1..]);
    }
  }

  /** After a successful create of a valid name in a directory, find_entry finds exactly the new entry. */
  lemma CreateThenFind(was: Fs, path: seq<byte>, e: Entry, slots: Dir)
    requires Inv(was) && Walks(was, Components(path)) && SplitPath(path).1 != [] && GetName(e) == SplitPath(path).1
    requires Resolve(was.tab, 0, Components(path)).Err?
    requires ParentCluster(was.tab, SplitPath(path).0).Ok? && ParentCluster(was.tab, SplitPath(path).0).value in was.tab
    requires var s := CreateStep(was, ParentCluster(was.tab, SplitPath(path).0).value, e, slots); Enabled(was, s)
    ensures var s := CreateStep(was, ParentCluster(was.tab, SplitPath(path).0).value, e, slots);
            Resolve(Apply(was, s).tab, 0, Components(path)) == Ok(s.p)
  {
    hide Inv, Components, GetName, SplitPath, FirstUsable, Resolve, FreshDir, Lookup, ParentCluster;
    var parent, name := SplitPath(path).0, SplitPath(path).1;
    var d := ParentCluster(was.tab, parent).value;
    var s := CreateStep(was, d, e, slots);
    AbsentInParent(was, path);
    FreeNotDir(was, e.cluster);
    FirstUsableFree(was.tab[d]);
    PathComponents(path);
    RootIsDir(was);
    ParentIsDirEntry(was, parent, path);
    FindAdded(was.tab, Apply(was, s).tab, s.p, e, parent);
  }

  lemma ParentIsDirEntry(fs: Fs, parent: seq<byte>, path: seq<byte>)
    requires Inv(fs) && Walks(fs, Components(path)) && Components(parent) <= Components(path)
    requires ParentCluster(fs.tab, parent).Ok? && ParentCluster(fs.tab, parent).value in fs.tab
    ensures parent != [] && parent != [SLASH] ==>
              var q := Resolve(fs.tab, 0, Components(parent)); q.Ok? && IsDirectory(fs.tab[q.value.0][q.value.1])
  {
    hide Inv, Resolve, Components;
    if parent != [] && parent != [SLASH] {
      ParentPath(fs, parent, path);
      ParentIsDir(fs, Resolve(fs.tab, 0, Components(parent)).value);
    }
  }

  /** Looking a new entry up through its parent. */
  lemma FindAdded(tab: map<nat, Dir>, tab': map<nat, Dir>, p: Pos, e: Entry, parent: seq<byte>)
    requires p.0 in tab && p.1 < |tab[p.0]| && !IsLive(tab[p.0][p.1]) && Lookup(tab[p.0], GetName(e), 0) == |tab[p.0]|
    requires IsLive(e) && p.0 in tab' && tab'[p.0] == tab[p.0][p.1 := e]
    requires forall x :: x in tab && x != p.0 ==> x in tab' && tab'[x] == tab[x]
    requires ParentCluster(tab, parent) == Ok(p.0)
    requires parent != [] && parent != [SLASH] ==>
               var q := Resolve(tab, 0, Components(parent)); q.Ok? && IsDirectory(tab[q.value.0][q.value.1])
    ensures Resolve(tab', 0, Components(parent) + [GetName(e)]) == Ok(p)
  {
    hide GetName, Components, Resolve, Lookup;
    var name := GetName(e);
    LookupNew(tab[p.0], p.1, e, 0);
    ResolveOne(tab', p.0, name);
    if parent == [] || parent == [SLASH] {
      RootComponents(parent);
      assert Components(parent) + [name] == [name];
    } else {
      ResolveStable(tab, tab', p, e, 0, Components(parent));
      ResolveNonempty(tab, 0, Components(parent));
      ResolveLast(tab', 0, Components(parent), name);
    }
  }

  lemma ParentPath(fs: Fs, parent: seq<byte>, path: seq<byte>)
    requires Inv(fs) && Walks(fs, Components(path)) && Components(parent) <= Components(path)
    requires Resolve(fs.tab, 0, Components(parent)).Ok?
    ensures Settled(fs, Resolve(fs.tab, 0, Components(parent)).value)
  {
    hide Inv, Resolve, Components;
    RootIsDir(fs);
    ResolveOwner(fs, 0, Components(parent));
  }

  lemma FirstUsableFree(dir: Dir)
    ensures FirstUsable(dir, 0) < |dir| ==> !IsLive(dir[FirstUsable(dir, 0)])
  {
  }

  lemma ResolveNonempty(tab: map<nat, Dir>, d: nat, names: seq<seq<byte>>)
    requires Resolve(tab, d, names).Ok?
    ensures names != []
  {
  }

  lemma ResolveOne(tab: map<nat, Dir>, d: nat, name: seq<byte>)
    requires d in tab && Lookup(tab[d], name, 0) < |tab[d]|
    ensures Resolve(tab, d, [name]) == Ok((d, Lookup(tab[d], name, 0)))
  {
  }

  // ---- Where the driver falls short ------------------------------------------------------------------

  /**
   * An entry stored with the first byte of a free or deleted slot is in the directory, and find_entry_in_dir
   * does not find it. It finds every other name where it was exactly when the entry does not read as a
   * never-used slot in front of a live one of its sector that was found.
   */
  lemma StoredUnseen(before: Vol, after: Vol, d: nat, e: Entry)
    requires EntryOnDisk(before, after, d, e) && !IsLive(e)
    requires |DirAt(before, d)| % ENTRIES_PER_SECTOR == 0 && Tidy(DirAt(before, d))
    ensures d < |after.data| && DirAt(after, d) == DirAt(before, d)[FirstUsable(DirAt(before, d), 0) := e]
    ensures forall name :: EarlyFind(DirAt(before, d), name, 0) == |DirAt(before, d)| ==>
              EarlyFind(DirAt(after, d), name, 0) == |DirAt(after, d)|
    ensures (forall name :: EarlyFind(DirAt(after, d), name, 0) == EarlyFind(DirAt(before, d), name, 0)) <==>
            !(IsFree(e) && Hides(DirAt(before, d), FirstUsable(DirAt(before, d), 0)))
  {
    hide Encode, Decode, Splice, FirstUsable, GetName, Entries, EarlyFind, Tidy, Hides;
    var i := FirstUsable(DirAt(before, d), 0);
    DecodeEncode(e);
    EntriesPut(before.Dir(d), i, Encode(e));
    DeadStore(DirAt(before, d), i, e);
  }

  /**
   * create_file and create_dir do not ask whether the parent is a directory. Exactly when it is one, and the
   * name reads as live, does a successful create add an entry.
   */
  lemma CreateAddsEntry(was: Fs, mid: Fs, now: Fs, d: nat, e: Entry, slots: Dir)
    requires Inv(was) && Created(was, mid, now, d, e, slots) && mid.own == was.own
    ensures now.own != was.own <==> d in was.tab && IsLive(e)
  {
    hide Inv, FirstUsable, Entries;
    if d in was.tab && IsLive(e) {
      UsableIsNew(was, (d, FirstUsable(was.tab[d], 0)));
    }
  }

  /** Otherwise the entry overwrites 32 bytes of the file that was named as the parent. */
  lemma MisplacedOverwrites(fs: Fs, p: Pos, e: Entry)
    requires Inv(fs) && p in fs.own && fs.HasSlot(p) && !IsDirectory(fs.At(p))
    requires var d := fs.At(p).cluster; d < |fs.data| && d !in fs.tab && FirstUsable(SlotsAt(fs, d), 0) < |SlotsAt(fs, d)|
    ensures InData(fs, p) && InData(Misplaced(fs, fs.At(p).cluster, e), p)
    ensures var i := FirstUsable(SlotsAt(fs, fs.At(p).cluster), 0);
            && 32 * i + 32 <= |FileBytes(fs, p)|
            && FileBytes(Misplaced(fs, fs.At(p).cluster, e), p) == Splice(FileBytes(fs, p), 32 * i, Encode(e))
  {
    hide Inv, FirstUsable, Encode, Entries;
    OwnerInData(fs, p);
    DropReady(fs, p);
    var i := FirstUsable(SlotsAt(fs, fs.At(p).cluster), 0);
    DataSize(fs, fs.At(p).cluster);
    SplitChain(fs, p);
    ChainSplice(fs.data, fs.own[p], 0, 32 * i, Encode(e), fs.g.ClusterSize());
  }

  lemma SplitChain(fs: Fs, p: Pos)
    requires EntryOk(fs, p)
    ensures fs.own[p] != [] && fs.own[p][0] == fs.At(p).cluster
  {
  }

  /** A write that ends in the cluster behind its file's chain succeeds exactly when the allocator finds one. */
  lemma GrowthExactly(fs: Fs, h: Handle, n: nat, end: nat)
    requires Cursor(fs, h)
    requires |fs.own[h.p]| * fs.g.ClusterSize() <= h.position + n < |fs.own[h.p]| * fs.g.ClusterSize() + fs.g.ClusterSize()
    ensures CanWrite(fs, h, n, end) <==> exists c :: 2 <= c < end && c < |fs.fat| && fs.fat[c] == 0
  {
    hide AtCluster;
    QuotUnique(h.position + n, fs.g.ClusterSize(), |fs.own[h.p]|);
    QuotIsDiv(h.position + n, fs.g.ClusterSize());
    var free := Spare(fs.fat, end);
    if c :| 2 <= c < end && c < |fs.fat| && fs.fat[c] == 0 {
      assert c in free;
    } else {
      assert free == {};
    }
  }

  /**
   * So a file can grow exactly when some cluster c from 2 on is free and c + 1 clusters, taken as a number of
   * sectors, fit in front of the data area: the range of Fat16File::allocate_cluster is measured from the wrong
   * end. In particular the data area starts at least three clusters in.
   */
  lemma GrowthPossible(fs: Fs, h: Handle, n: nat)
    requires Cursor(fs, h) && 1 <= fs.g.spc && fs.g.dataStart < 65536 * fs.g.ClusterSize()
    requires |fs.own[h.p]| * fs.g.ClusterSize() <= h.position + n < |fs.own[h.p]| * fs.g.ClusterSize() + fs.g.ClusterSize()
    ensures CanWrite(fs, h, n, fs.g.GrowScan())
        <==> exists c: nat :: GrowScanned(fs.g, c) && 2 <= c < |fs.fat| && fs.fat[c] == 0
    ensures CanWrite(fs, h, n, fs.g.GrowScan()) ==> 3 * fs.g.ClusterSize() <= fs.g.dataStart
  {
    hide Cursor, CanWrite, Geometry.GrowScan, GrowScanned;
    GrowthExactly(fs, h, n, fs.g.GrowScan());
    forall c: nat
      ensures c < fs.g.GrowScan() <==> GrowScanned(fs.g, c)
    {
      GrowRange(fs.g, c);
    }
    assert GrowScanned(fs.g, 2) ==> 3 * fs.g.ClusterSize() <= fs.g.dataStart by {
      ThreeClusters(fs.g);
    }
  }

  lemma ThreeClusters(g: Geometry)
    ensures GrowScanned(g, 2) <==> 3 * g.ClusterSize() <= g.dataStart
  {
  }

  /**
   * On every device format lays out, a write succeeds exactly when it ends before the end of its file's chain, and
   * none takes a cluster, so that the FAT copies stay equal.
   */
  lemma FormattedWrites(total: nat, fs: Fs, h: Handle, n: nat)
    requires 37 <= total < 65536 && fs.g == Planned(total) && Cursor(fs, h)
    ensures fs.g.spc >= 1
    ensures CanWrite(fs, h, n, fs.g.GrowScan()) <==> h.position + n < |fs.own[h.p]| * fs.g.ClusterSize()
    ensures !Grows(fs, h, n, fs.g.GrowScan())
  {
    hide Planned, AtCluster;
    PlannedWellFormed(total);
    var k, m, e := fs.g.ClusterSize(), |fs.own[h.p]|, h.position + n;
    assert Spare(fs.fat, 0) == {};
    QuotIsDiv(e, k);
    var q := Quot(e, k);
    MoreRoom(q, k);
    if q < m {
      BelowEnd(q, m, k);
    } else if q > m {
      BelowEnd(m, q, k);
    }
  }
}
