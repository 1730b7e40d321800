/**
 * Inputs on which the FAT16 driver does not do what it is for, one for each exact condition stated
 * elsewhere: a name that disguises itself as "..", a directory that is removed with an entry in it, a seek
 * into another cluster, a create under a file, a directory moved into itself, and a name that is stored as
 * a deleted one.
 */
module FatWitnesses {
  import opened Bytes
  import opened Volume
  import opened Names
  import opened Directory
  import opened FileSystem
  import opened FileIO
  import opened FileRuns
  import opened Namespace
  import opened FatDevice
  import opened Fat16Driver
  import opened FatTheorems
  import opened Tree
  import opened Meaning

  const LETTER_A: byte := 0x41
  const LETTER_B: byte := 0x42

  // ---- A file that reads as ".." -----------------------------------------------------------------------

  /** "/A/..." */
  function Dots(): seq<byte> {
    [SLASH, LETTER_A] + [SLASH] + [DOT, DOT, DOT]
  }

  lemma DotsPath()
    ensures SplitPath(Dots()) == ([SLASH, LETTER_A], [DOT, DOT, DOT])
    ensures Components(Dots()) == [[LETTER_A], [DOT, DOT, DOT]]
  {
    var parent, name := [SLASH, LETTER_A], [DOT, DOT, DOT];
    var path := Dots();
    assert path[2] == SLASH && RFind(path, SLASH) == 2;
    assert path[..2] == parent && path[3..] == name;
    ComponentsPlain([LETTER_A]);
    ComponentsStep([], [LETTER_A]);
    assert [] + [SLASH] + [LETTER_A] == parent;
    ComponentsAppend(parent, name);
  }

  /** create_file accepts the path, and what it stores reads as "..". */
  lemma DotsDisguised(c: u16)
    ensures Plain(Components(Dots())) && |SplitPath(Dots()).1| <= 12
    ensures IsLive(FileEntry(Dots(), c)) && GetName(FileEntry(Dots(), c)) == DOTDOT_NAME
  {
    hide FieldName, Components, SplitPath, Dots;
    DotsPath();
    var name: seq<byte> := [DOT, DOT, DOT];
    SplitJoin([DOT, DOT], []);
    assert [DOT, DOT] + [DOT] + [] == name;
    FieldShows([DOT, DOT], []);
    assert Kept([DOT, DOT], 8) == [DOT, DOT] && Kept([], 3) == [];
    AsciiIsUtf8([DOT, DOT]);
    assert Field([DOT, DOT], [])[0] == DOT;
  }

  /** In a fresh directory it goes to slot 2; the emptiness test then passes with that file in the directory. */
  lemma DisguisedPasses(slots: Dir, spc: nat, c: u16)
    requires 1 <= spc && FreshDir(slots, spc)
    ensures FirstUsable(slots, 0) == 2 && |slots| >= ENTRIES_PER_SECTOR
    ensures var dir := slots[2 := FileEntry(Dots(), c)];
            IsLive(dir[2]) && NoEntries(dir[..ENTRIES_PER_SECTOR], 0) && forall i :: 3 <= i < |dir| ==> !IsLive(dir[i])
  {
    hide GetName, NoEntries, FileEntry, Dots;
    DotsDisguised(c);
    assert Named(slots, 0, DOT_NAME) && Named(slots, 1, DOTDOT_NAME);
    assert FirstUsable(slots, 0) == FirstUsable(slots, 1) == FirstUsable(slots, 2) == 2;
    var dir := slots[2 := FileEntry(Dots(), c)];
    PutTidy(slots, 2, FileEntry(Dots(), c));
    assert Named(dir, 0, DOT_NAME) && Named(dir, 1, DOTDOT_NAME);
    FirstSectorTest(dir);
  }

  // ---- Long names that are stored alike --------------------------------------------------------------

  /** create_file takes names of up to 12 bytes, and keeps 8 of them when there is no dot. */
  lemma LongNamesCollide(a: seq<byte>, b: seq<byte>, c: u16)
    requires DOT !in a && DOT !in b && 8 < |a| <= 12 && 8 < |b| <= 12 && a[..8] == b[..8]
    ensures GetName(NewFile(SplitName(a).0, SplitName(a).1, c)) == GetName(NewFile(SplitName(b).0, SplitName(b).1, c))
  {
    hide FieldName;
    JoinSplit(a);
    JoinSplit(b);
    assert Pad(a, 8) == a[..8] && Pad(b, 8) == b[..8];
  }

  // ---- A directory with an entry in its second sector ---------------------------------------------------

  /** The first sector's slots were used and deleted, and slot 16 holds an entry. */
  function Overflowed(slots: Dir, e: Entry): Dir
    requires |slots| >= 2 * ENTRIES_PER_SECTOR
  {
    slots[..2] + seq(14, i => MarkDeleted(e)) + [e] + slots[17..]
  }

  lemma LaterPasses(slots: Dir, spc: nat, e: Entry)
    requires 2 <= spc && FreshDir(slots, spc) && IsLive(e)
    ensures |slots| >= 2 * ENTRIES_PER_SECTOR
    ensures var dir := Overflowed(slots, e);
            Tidy(dir) && IsLive(dir[ENTRIES_PER_SECTOR]) && NoEntries(dir[..ENTRIES_PER_SECTOR], 0)
  {
    hide GetName, NoEntries;
    var dir := Overflowed(slots, e);
    assert Named(slots, 0, DOT_NAME) && Named(slots, 1, DOTDOT_NAME);
    assert Named(dir, 0, DOT_NAME) && Named(dir, 1, DOTDOT_NAME);
    forall i, j | 0 <= i < j < |dir| && i / ENTRIES_PER_SECTOR == j / ENTRIES_PER_SECTOR && IsFree(dir[i])
      ensures IsFree(dir[j])
    {
      assert i >= 17;
      assert dir[i] == slots[i] && dir[j] == slots[j];
    }
    FirstSectorTest(dir);
  }

  // ---- A volume with one file of two clusters -------------------------------------------------------------

  const SLOT: Pos := (0, 0)

  /** A volume with two FATs on which files can grow: its data area starts five clusters in. */
  function Small(): Geometry {
    Geometry(1, 1264, 2, 2529, 2561, 1, 2567, 6)
  }

  function FileA(): Entry {
    NewFile([LETTER_A], [], 2).(size := 600)
  }

  function Root(): Dir {
    seq(ROOT_DIR_SECTORS * ENTRIES_PER_SECTOR, (i: nat) => RootSlot(i))
  }

  function RootSlot(i: nat): Entry {
    if i == 0 then FileA() else Blank()
  }

  function Blank(): Entry {
    DirEntry(seq(11, i => 0), 0, seq(14, i => 0), 0, 0)
  }

  function Sector(b: byte): seq<byte> {
    seq(SECTOR_SIZE, i => b)
  }

  /** File "A" has clusters 2 and 3: the first holds zeros, the second ones. */
  ghost function Volume1(): Fs {
    Fs(Small(), [0xFFF8, 0xFFFF, 3, 0xFFFF, 0, 0], [[], [], Sector(0), Sector(1), Sector(0), Sector(0)],
       map[0 := Root()], map[SLOT := [2, 3]], map[2 := (SLOT, 0), 3 := (SLOT, 1)])
  }

  lemma FileAName()
    ensures GetName(FileA()) == [LETTER_A] && IsLive(FileA()) && !IsDirectory(FileA())
  {
    hide FieldName;
    var name: seq<byte> := [LETTER_A];
    assert SplitName(name) == (name, []);
    AsciiIsUtf8(name);
    NameRoundTrip(name, 2);
  }

  lemma VolumeOwners()
    ensures Owners(Volume1()) && DirsOk(Volume1())
  {
    hide GetName, FileA;
    FileAName();
    var fs := Volume1();
    assert IsFree(Blank());
    forall p: Pos
      ensures IsOwner(fs, p) <==> p == SLOT
    {
    }
    assert Tidy(fs.tab[0]);
  }

  lemma VolumeShape()
    ensures Shape(Volume1()) && Volume1().g.ScansFit() && Apart(Volume1().own, Volume1().who)
  {
    hide Root;
    var fs := Volume1();
    forall c | 2 <= c < |fs.data|
      ensures |fs.data[c]| == fs.g.ClusterSize()
    {
    }
  }

  lemma VolumeInv()
    ensures Inv(Volume1()) && Volume1().g.ScansFit()
  {
    hide Owners, DirsOk, Shape, Apart, EntryOk, Root;
    VolumeOwners();
    VolumeShape();
    VolumeEntry();
  }

  lemma VolumeEntry()
    ensures EntryOk(Volume1(), SLOT)
  {
    hide GetName, Blank;
    FileAName();
    var fs := Volume1();
    assert fs.At(SLOT) == FileA();
    assert IsChain(fs.fat, [2, 3]);
  }

  // ---- A seek into another cluster --------------------------------------------------------------------------

  /**
   * The file is opened at position 0 and sought to 512, which is within it. The current cluster is still
   * the first, so the byte a read would return next is 0, and the file's byte there is 1.
   */
  lemma SeekReadsWrong()
    ensures var fs := Volume1();
            var h := Handle(SLOT, 2, 0, 600);
            && Inv(fs) && Cursor(fs, h) && !Cursor(fs, h.(position := 512))
            && |FileText(fs, h)| == 600 && FileText(fs, h)[512] == 1
            && |fs.data[h.cluster]| == 512 && fs.data[h.cluster][0] == 0
  {
    hide Inv, Root;
    VolumeInv();
    VolumeFile();
    var fs := Volume1();
    var h := Handle(SLOT, 2, 0, 600);
    QuotUnique(0, 512, 0);
    QuotUnique(512, 512, 1);
    SeekCursor(fs, h, 512);
    VolumeText();
  }

  lemma VolumeFile()
    ensures var fs := Volume1(); fs.HasSlot(SLOT) && fs.At(SLOT) == FileA() && !IsDirectory(fs.At(SLOT))
  {
    FileAName();
  }

  lemma VolumeText()
    ensures var fs := Volume1(); InData(fs, SLOT) && FileBytes(fs, SLOT) == Sector(0) + Sector(1)
  {
    hide Root;
    var fs := Volume1();
    assert Blocks(fs.data, [2, 3], 512);
    var ch: seq<nat> := [2, 3];
    assert ch[1..] == [3] && ch[1..][1..] == [];
    assert ChainBytes(fs.data, []) == [];
    assert ChainBytes(fs.data, ch[1..]) == Sector(1) + ChainBytes(fs.data, []);
    assert ChainBytes(fs.data, ch) == Sector(0) + ChainBytes(fs.data, ch[1..]);
  }

  // ---- A write that grows its file ------------------------------------------------------------------------------

  /** 424 bytes at the end of the file fill its second cluster: the write takes cluster 4, in one FAT of the two. */
  lemma WriteGrows()
    ensures var fs := Volume1();
            var h := Handle(SLOT, 3, 600, 600);
            && Inv(fs) && Cursor(fs, h) && fs.g.fatCount == 2 && CanWrite(fs, h, 424, fs.g.GrowScan())
            && Grows(fs, h, 424, fs.g.GrowScan()) && !Grows(fs, h, 423, fs.g.GrowScan())
  {
    hide Inv, Root;
    VolumeInv();
    VolumeFile();
    var fs := Volume1();
    QuotUnique(600, 512, 1);
    assert Spare(fs.fat, fs.g.GrowScan()) == {4};
  }

  // ---- A create under a file -----------------------------------------------------------------------------------

  /** "A/B" */
  function Under(): seq<byte> {
    [LETTER_A] + [SLASH] + [LETTER_B]
  }

  lemma UnderPath()
    ensures SplitPath(Under()) == ([LETTER_A], [LETTER_B])
    ensures Components(Under()) == [[LETTER_A], [LETTER_B]] && Components([LETTER_A]) == [[LETTER_A]]
  {
    var path := Under();
    assert path[1] == SLASH && RFind(path, SLASH) == 1;
    assert path[..1] == [LETTER_A] && path[2..] == [LETTER_B];
    ComponentsPlain([LETTER_A]);
    ComponentsAppend([LETTER_A], [LETTER_B]);
  }

  lemma UnderResolves()
    ensures var tab := Volume1().tab;
            && Resolve(tab, 0, Components(Under())) == Err(NotFound)
            && ParentCluster(tab, SplitPath(Under()).0) == Ok(2)
  {
    hide GetName, FileA, Components, SplitPath;
    UnderPath();
    FileAName();
    assert FileA().cluster == 2 by { FileACluster(); }
    var tab := Volume1().tab;
    assert Named(tab[0], 0, [LETTER_A]) && Lookup(tab[0], [LETTER_A], 0) == 0;
  }

  lemma FileACluster()
    ensures FileA().cluster == 2
  {
  }

  lemma FirstBlank()
    ensures |SlotsAt(Volume1(), 2)| == ENTRIES_PER_SECTOR && FirstUsable(SlotsAt(Volume1(), 2), 0) == 0
  {
    hide Root;
    assert Sector(0)[0..32][..11][0] == 0;
  }

  /** create_file succeeds with the cluster of file "A" as the parent's, and overwrites the start of that file. */
  lemma CreateUnderFile()
    ensures var fs := Volume1();
            && Inv(fs) && fs.g.ScansFit() && Plain(Components(Under())) && IsLive(FileEntry(Under(), 0))
            && CreateOutcome(fs, Under(), 12) == Ok(2) && 2 !in fs.tab && fs.own[SLOT][0] == 2
            && FirstUsable(SlotsAt(fs, 2), 0) == 0
  {
    hide Inv, Resolve, Components, SplitPath, FirstUsable, SlotsAt, Root, Under, ParentCluster;
    VolumeInv();
    UnderPath();
    UnderResolves();
    FirstBlank();
    UnderLive();
    FirstFreeIs();
  }

  ghost predicate FirstByteIs(fs: Fs, p: Pos, b: byte) {
    InData(fs, p) && |FileBytes(fs, p)| > 0 && FileBytes(fs, p)[0] == b
  }

  /** The file's first byte, which was 0, is now the first letter of the new entry's name. */
  lemma CreateUnderFileOverwrites(now: Fs, r: Result<()>)
    requires var fs := Volume1(); Inv(fs) && fs.g.ScansFit() && FileCreate(fs, now, Under(), r)
    ensures r == Ok(()) && now.own == Volume1().own
    ensures FirstByteIs(Volume1(), SLOT, 0) && FirstByteIs(now, SLOT, LETTER_B)
  {
    hide Inv, Resolve, Components, SplitPath, FirstUsable, Root, Under, ParentCluster, FileEntry, CreateOutcome,
         Geometry.ScansFit, Encode;
    CreateUnderFile();
    FirstFreeIs();
    VolumeText();
    VolumeFile();
    var fs := Volume1();
    var mid := Leak(fs, 4);
    LeakInv(fs, 4);
    var e := FileEntry(Under(), 4);
    assert now == Misplaced(mid, 2, e);
    FileACluster();
    MisplacedOverwrites(mid, SLOT, e);
    assert Encode(e)[0] == LETTER_B by { UnderLetter(); }
  }

  lemma UnderLetter()
    ensures Encode(FileEntry(Under(), 4))[0] == LETTER_B
  {
    hide SplitPath, Under;
    UnderPath();
    var name: seq<byte> := [LETTER_B];
    assert SplitName(name) == (name, []);
    assert Field(name, [])[0] == LETTER_B;
  }

  lemma UnderLive()
    ensures IsLive(FileEntry(Under(), 0))
  {
    hide SplitPath, Under;
    UnderPath();
    var name: seq<byte> := [LETTER_B];
    assert SplitName(name) == (name, []);
    assert Field(name, [])[0] == LETTER_B;
  }

  lemma FirstFreeIs()
    ensures Taken(Volume1().fat, Volume1().g.MountScan(), NotSupported) == Ok(4)
  {
    hide Root;
    var fat := Volume1().fat;
    assert FirstFree(fat, 2, 6) == FirstFree(fat, 3, 6) == FirstFree(fat, 4, 6) == 4;
  }

  // ---- Two creates that end in one name --------------------------------------------------------------------------

  /** Eight letters A and one more letter. */
  function LongName(last: byte): seq<byte> {
    seq(8, i => LETTER_A) + [last]
  }

  lemma LongPath(last: byte)
    requires last == LETTER_A || last == LETTER_B
    ensures Components(LongName(last)) == [LongName(last)] && SplitPath(LongName(last)) == ([], LongName(last))
    ensures |LongName(last)| == 9 && DOT !in LongName(last) && LongName(last)[..8] == seq(8, i => LETTER_A)
  {
    assert SLASH !in LongName(last);
    ComponentsPlain(LongName(last));
  }

  /** What create_file stores reads as the eight letters. */
  lemma LongStored(last: byte, c: u16)
    requires last == LETTER_A || last == LETTER_B
    ensures GetName(FileEntry(LongName(last), c)) == seq(8, i => LETTER_A)
    ensures IsLive(FileEntry(LongName(last), c)) && !IsDirectory(FileEntry(LongName(last), c))
    ensures FileEntry(LongName(last), c).cluster == c && FileEntry(LongName(last), c).size == 0
  {
    hide FieldName, LongName, SplitPath;
    LongPath(last);
    var name: seq<byte> := seq(8, i => LETTER_A);
    var long := LongName(last);
    JoinSplit(long);
    assert Pad(long, 8) == name;
    AsciiIsUtf8(name);
    assert SplitName(name) == (name, []);
    NameRoundTrip(name, c);
    assert Pad(name, 8) == name;
  }

  /** A create of a long name in the root of a volume passes its checks if no live entry has that name. */
  lemma LongOutcome(fs: Fs, last: byte)
    requires Inv(fs) && fs.g.ScansFit() && fs.g.limit <= |fs.fat| && (last == LETTER_A || last == LETTER_B)
    requires 0 in fs.tab && 0 < |fs.data| && Lookup(fs.tab[0], LongName(last), 0) == |fs.tab[0]|
    requires Taken(fs.fat, fs.g.MountScan(), NotSupported).Ok? && FirstUsable(fs.tab[0], 0) < |fs.tab[0]|
    ensures CreateOutcome(fs, LongName(last), 12) == Ok(0)
  {
    hide Inv, Components, SplitPath, LongName, FirstUsable, Lookup, Taken, Geometry.MountScan, Geometry.ScansFit;
    LongPath(last);
  }

  lemma {:induction false} LookupLongName(dir: Dir, last: byte, i: nat)
    requires i <= |dir| && forall j :: i <= j < |dir| && IsLive(dir[j]) ==> |GetName(dir[j])| < 9
    ensures Lookup(dir, LongName(last), i) == |dir|
    decreases |dir| - i
  {
    hide GetName;
    if i < |dir| {
      LookupLongName(dir, last, i + 1);
    }
  }

  lemma RootNames()
    ensures var dir := Volume1().tab[0];
            && UniqueNames(dir) && FirstUsable(dir, 0) == 1 && |dir| > 2 && !IsLive(dir[2])
            && (forall j :: 0 <= j < |dir| && IsLive(dir[j]) ==> |GetName(dir[j])| < 9)
  {
    hide GetName, FileA;
    FileAName();
    assert IsFree(Blank());
    var dir := Volume1().tab[0];
    assert dir[0] == FileA() && forall j :: 1 <= j < |dir| ==> dir[j] == Blank();
    assert FirstUsable(dir, 0) == FirstUsable(dir, 1) == 1;
  }

  /** The volume after the first create. */
  ghost function Volume2(): Fs
    requires Inv(Volume1()) && Volume1().HasSlot((0, 1))
  {
    Add(Volume1(), (0, 1), FileEntry(LongName(LETTER_A), 4), [])
  }

  lemma FirstLong(mid: Fs, r: Result<()>)
    requires Inv(Volume1()) && Volume1().g.ScansFit() && FileCreate(Volume1(), mid, LongName(LETTER_A), r)
    ensures r == Ok(()) && Volume1().HasSlot((0, 1)) && mid == Volume2()
  {
    hide Inv, Root, FileEntry, LongName, CreateOutcome, Enabled, GetName, Add, Geometry.ScansFit, FirstUsable, Taken,
         FirstFree, UniqueNames;
    var fs := Volume1();
    DataSize(fs, 0);
    RootNames();
    FirstFreeIs();
    LookupLongName(fs.tab[0], LETTER_A, 0);
    LongOutcome(fs, LETTER_A);
    LongStored(LETTER_A, 4);
  }

  lemma SecondFreeIs(fat: seq<u16>)
    requires fat == [0xFFF8, 0xFFFF, 3, 0xFFFF, 0xFFFF, 0]
    ensures Taken(fat, Small().MountScan(), NotSupported) == Ok(5)
  {
    assert FirstFree(fat, 2, 6) == FirstFree(fat, 3, 6) == FirstFree(fat, 4, 6) == FirstFree(fat, 5, 6) == 5;
  }

  lemma SecondLong(mid: Fs, now: Fs, r: Result<()>)
    requires Inv(Volume1()) && Volume1().HasSlot((0, 1)) && mid == Volume2()
    requires Inv(mid) && mid.g.ScansFit() && FileCreate(mid, now, LongName(LETTER_B), r)
    ensures r == Ok(()) && !Unique(now)
  {
    hide Inv, Root, FileEntry, LongName, CreateOutcome, GetName, Geometry.ScansFit, Taken, FirstFree, UniqueNames;
    DataSize(mid, 0);
    RootNames();
    LongStored(LETTER_A, 4);
    LongStored(LETTER_B, 5);
    assert mid.fat == [0xFFF8, 0xFFFF, 3, 0xFFFF, 0xFFFF, 0];
    SecondFreeIs(mid.fat);
    var dir := mid.tab[0];
    assert dir == Volume1().tab[0][1 := FileEntry(LongName(LETTER_A), 4)];
    LookupLongName(dir, LETTER_B, 0);
    SecondSlot(Volume1().tab[0], FileEntry(LongName(LETTER_A), 4));
    LongOutcome(mid, LETTER_B);
    var dir' := now.tab[0];
    assert dir' == dir[2 := FileEntry(LongName(LETTER_B), 5)];
    NotUnique(dir', 1, 2);
  }

  lemma SecondSlot(dir: Dir, e: Entry)
    requires |dir| > 2 && FirstUsable(dir, 0) == 1 && !IsLive(dir[2]) && IsLive(e)
    ensures FirstUsable(dir[1 := e], 0) == 2
  {
    var dir' := dir[1 := e];
    FirstUsableIsFirst(dir, 0, 0);
    assert FirstUsable(dir', 0) == FirstUsable(dir', 1) == FirstUsable(dir', 2);
  }

  /** Two creates in a row, of names that are both new: both succeed, and then two entries of the root have one name. */
  lemma LongNamesTwice(mid: Fs, now: Fs, r: Result<()>, s: Result<()>)
    requires Inv(Volume1()) && Volume1().g.ScansFit() && FileCreate(Volume1(), mid, LongName(LETTER_A), r)
    requires Inv(mid) && mid.g.ScansFit() && FileCreate(mid, now, LongName(LETTER_B), s)
    ensures Unique(Volume1()) && r == Ok(()) && s == Ok(()) && !Unique(now)
  {
    hide Inv, FileCreate, Root, UniqueNames, GetName, FirstUsable, Geometry.ScansFit;
    RootNames();
    FirstLong(mid, r);
    SecondLong(mid, now, s);
  }

  // ---- A directory that is moved into itself ---------------------------------------------------------------------

  /**
   * On every volume with a directory "A" in the root that has no "B" and a slot left, renaming "A" to "A/B"
   * passes all checks and cuts the directory off from the root.
   */
  lemma RenameIntoItself(fs: Fs, src: Pos, now: Fs, r: Result<()>)
    requires Inv(fs) && Resolve(fs.tab, 0, [[LETTER_A]]) == Ok(src) && fs.HasSlot(src) && IsDirectory(fs.At(src))
    requires var m := fs.At(src).cluster;
             && m in fs.tab && m < |fs.data| && Lookup(fs.tab[m], [LETTER_B], 0) == |fs.tab[m]|
             && FirstUsable(fs.tab[m], 0) < |fs.tab[m]|
    requires RenameDone(fs, now, [LETTER_A], Under(), r)
    ensures RenameOutcome(fs, [LETTER_A], Under()) == Ok(fs.At(src).cluster) && r == Ok(()) && !Rooted(now)
  {
    hide Inv, Components, SplitPath, FirstUsable, Lookup, RenamedEntry, Rooted, Apply, Enabled, Resolve;
    UnderPath();
    IntoItselfPasses(fs, src);
    RootIsDir(fs);
    ResolveOwner(fs, 0, [[LETTER_A]]);
    var m := fs.At(src).cluster;
    var s := Rename(src, (m, FirstUsable(fs.tab[m], 0)), RenamedEntry(fs.At(src), Under()));
    assert MovesDir(fs, s, m);
    SelfBelow(fs, m);
    SelfMoveUproots(fs, s);
  }

  lemma IntoItselfPasses(fs: Fs, src: Pos)
    requires Inv(fs) && Resolve(fs.tab, 0, [[LETTER_A]]) == Ok(src) && fs.HasSlot(src) && IsDirectory(fs.At(src))
    requires var m := fs.At(src).cluster; m in fs.tab && Lookup(fs.tab[m], [LETTER_B], 0) == |fs.tab[m]|
    ensures Resolve(fs.tab, 0, Components(Under())).Err?
    ensures ParentCluster(fs.tab, SplitPath(Under()).0) == Ok(fs.At(src).cluster)
  {
    hide Inv, Components, SplitPath, Lookup;
    UnderPath();
    assert [[LETTER_A], [LETTER_B]] == [[LETTER_A]] + [[LETTER_B]];
    ResolveLast(fs.tab, 0, [[LETTER_A]], [LETTER_B]);
  }

  // ---- A file that is created and not there ----------------------------------------------------------------------

  /** The character U+5000 in UTF-8; its first byte is the mark of a deleted entry. */
  function Ideograph(): seq<byte> {
    [0xE5, 0x80, 0x80]
  }

  /** create_file takes the name, and what it stores reads as deleted. */
  lemma StoredAsDeleted(c: u16)
    ensures Components(Ideograph()) == [Ideograph()] && SplitPath(Ideograph()) == ([], Ideograph())
    ensures Fits83(Ideograph()) && Utf8(Ideograph()) && !IsLive(FileEntry(Ideograph(), c))
  {
    var name := Ideograph();
    ComponentsPlain(name);
    assert SLASH !in name && DOT !in name;
    assert SplitName(name) == (name, []);
    assert name[3..] == [];
    assert Field(name, [])[0] == 0xE5;
  }

  /** A name that starts with byte 0. */
  function Nul(): seq<byte> {
    [0x00, LETTER_A]
  }

  /** create_file takes the name, and what it stores reads as never used. */
  lemma StoredAsFree(c: u16)
    ensures Components(Nul()) == [Nul()] && SplitPath(Nul()) == ([], Nul())
    ensures Fits83(Nul()) && Utf8(Nul()) && IsFree(FileEntry(Nul(), c))
  {
    var name := Nul();
    ComponentsPlain(name);
    assert SLASH !in name && DOT !in name;
    assert SplitName(name) == (name, []);
    AsciiIsUtf8(name);
    assert Field(name, [])[0] == 0;
  }

  /** A sector with a deleted entry, a live one behind it, and nothing else. */
  function DeletedThenLive(x: Entry, y: Entry, blank: Entry): Dir {
    [x, y] + seq(14, i => blank)
  }

  /** Stored over the deleted entry it ends every scan of the sector, and the live one is not found any more. */
  lemma FreeHides(x: Entry, y: Entry, blank: Entry, c: u16)
    requires IsDeleted(x) && IsLive(y) && IsFree(blank)
    ensures var dir := DeletedThenLive(x, y, blank);
            var e := FileEntry(Nul(), c);
            && Tidy(dir) && FirstUsable(dir, 0) == 0 && !StaysTidy(dir, 0, e)
            && EarlyFind(dir, GetName(y), 0) == 1 && EarlyFind(dir[0 := e], GetName(y), 0) == 16
  {
    hide GetName, FileEntry, Nul;
    StoredAsFree(c);
    var dir := DeletedThenLive(x, y, blank);
    var e := FileEntry(Nul(), c);
    DeletedNotFree(x);
    assert dir[0] == x && dir[1] == y && !IsFree(y);
    assert forall i :: 2 <= i < 16 ==> dir[i] == blank;
    assert !Named(dir, 0, GetName(y)) && Named(dir, 1, GetName(y));
    assert Lookup(dir, GetName(y), 0) == 1;
    DeadFind(dir, 0, e, GetName(y));
    assert NextSector(0) == 16;
  }

  lemma DeletedNotFree(x: Entry)
    requires IsDeleted(x)
    ensures !IsFree(x) && !IsLive(x)
  {
  }

  // ---- Paths that end in a dot component ---------------------------------------------------------------------------

  /** "A/" followed by a dot component */
  function DotPath(name: seq<byte>): seq<byte> {
    [LETTER_A] + [SLASH] + name
  }

  lemma DotComponents(name: seq<byte>)
    requires IsDotName(name)
    ensures Components(DotPath(name)) == [[LETTER_A]] + [name] && Components([LETTER_A]) == [[LETTER_A]]
  {
    assert SLASH !in name;
    ComponentsPlain([LETTER_A]);
    ComponentsAppend([LETTER_A], name);
  }

  /** With a directory "A" in the root, "A/." leads to its dot entry, and "A/.." to an entry that names cluster 0. */
  lemma DotResolves(fs: Fs, src: Pos)
    requires Inv(fs) && DotsHome(fs)
    requires Resolve(fs.tab, 0, [[LETTER_A]]) == Ok(src) && fs.HasSlot(src) && IsDirectory(fs.At(src))
    ensures var m := fs.At(src).cluster;
            && m in fs.tab && m != 0 && 2 <= |fs.tab[m]|
            && Resolve(fs.tab, 0, Components(DotPath(DOT_NAME))) == Ok((m, 0))
            && IsDirectory(fs.At((m, 0))) && fs.At((m, 0)).cluster == m
            && Resolve(fs.tab, 0, Components(DotPath(DOTDOT_NAME))) == Ok((m, 1))
            && IsDirectory(fs.At((m, 1))) && fs.At((m, 1)).cluster == 0
  {
    hide Inv, Components, Lookup, DotsLead;
    RootIsDir(fs);
    ResolveOwner(fs, 0, [[LETTER_A]]);
    HeadOwned(fs, src);
    var m := fs.At(src).cluster;
    assert src.0 == 0 by { InRoot(fs.tab, [LETTER_A], src); }
    assert DotsLead(fs.tab[m], m, 0);
    DotSlots(fs, m, 0);
    DotComponents(DOT_NAME);
    DotComponents(DOTDOT_NAME);
    ResolveLast(fs.tab, 0, [[LETTER_A]], DOT_NAME);
    ResolveLast(fs.tab, 0, [[LETTER_A]], DOTDOT_NAME);
  }

  lemma InRoot(tab: map<nat, Dir>, name: seq<byte>, p: Pos)
    requires Resolve(tab, 0, [name]) == Ok(p)
    ensures p.0 == 0
  {
  }

  lemma DotSlots(fs: Fs, m: nat, up: nat)
    requires Inv(fs) && m in fs.tab && m != 0 && DotsLead(fs.tab[m], m, up)
    ensures 2 <= |fs.tab[m]| && Lookup(fs.tab[m], DOT_NAME, 0) == 0 && Lookup(fs.tab[m], DOTDOT_NAME, 0) == 1
    ensures IsDirectory(fs.tab[m][0]) && fs.tab[m][0].cluster == m && IsDirectory(fs.tab[m][1]) && fs.tab[m][1].cluster == up
  {
    hide Inv, GetName;
    HomeIsDir(fs, m);
    assert Named(fs.tab[m], 0, DOT_NAME) && Named(fs.tab[m], 1, DOTDOT_NAME);
  }

  /** remove_dir of "A/." for an empty directory "A" passes its test, and leaves a volume that means nothing. */
  lemma RemoveDotBreaks(fs: Fs, src: Pos, v: Vol, v': Vol)
    requires Means(v, fs.g, fs) && Rooted(fs) && DotsHome(fs)
    requires Resolve(fs.tab, 0, [[LETTER_A]]) == Ok(src) && fs.HasSlot(src) && IsDirectory(fs.At(src))
    requires var m := fs.At(src).cluster;
             && EmptyDir(fs, m) && m < |v.data| && |v.data[m]| == fs.g.ClusterSize()
             && RemovedOnDisk(v, v', (m, 0), ChainAt(fs, m))
    ensures var m := fs.At(src).cluster;
            && m in fs.tab && ENTRIES_PER_SECTOR <= |fs.tab[m]| && NoEntries(fs.tab[m][..ENTRIES_PER_SECTOR], 0)
            && Resolve(fs.tab, 0, Components(DotPath(DOT_NAME))) == Ok((m, 0)) && !Sound(v', fs.g)
  {
    hide Inv, Components, Resolve, EmptyDir, RemovedOnDisk, ChainAt, Rep, NoEntries, Sound, Rooted;
    DotResolves(fs, src);
    var m := fs.At(src).cluster;
    EmptinessTest(fs, m);
    DotRemoved(fs, v, v', (m, 0));
  }

  /** rename of "A/." to a name that reads as live in the root: two live entries then name the cluster of "A". */
  lemma RenameDotBreaks(fs: Fs, src: Pos, to: seq<byte>, v: Vol, v': Vol)
    requires Means(v, fs.g, fs) && Rooted(fs) && DotsHome(fs)
    requires Resolve(fs.tab, 0, [[LETTER_A]]) == Ok(src) && fs.HasSlot(src) && IsDirectory(fs.At(src))
    requires IsLive(FileEntry(to, 0)) && RenameOutcome(fs, DotPath(DOT_NAME), to) == Ok(0)
    requires RenamedOnDisk(fs, v, v', DotPath(DOT_NAME), to)
    ensures !Sound(v', fs.g)
    ensures var i := FirstUsable(fs.tab[0], 0);
            && 0 < |v'.data| && i < |DirAt(v', 0)| && DirAt(v', 0)[i].cluster == fs.At(src).cluster
            && fs.At(src).cluster in fs.who && fs.who[fs.At(src).cluster].0 == src && KeepsEntry(fs, v', src)
  {
    hide Inv, Components, Resolve, MovedOnDisk, Rep, Sound, FirstUsable, RenamedEntry, FileEntry, Rooted, DirAt,
         KeepsEntry;
    RootIsDir(fs);
    DotResolves(fs, src);
    ResolveOwner(fs, 0, [[LETTER_A]]);
    HeadOwned(fs, src);
    var m := fs.At(src).cluster;
    RenameExactly(fs, v, v', (m, 0), 0, RenamedEntry(fs.At((m, 0)), to), to);
  }

  // ---- A file without a name ---------------------------------------------------------------------------------------

  /** The path "" or "/". */
  predicate Nameless(path: seq<byte>) {
    path == [] || path == [SLASH]
  }

  lemma NamelessPath(path: seq<byte>, c: u16)
    requires Nameless(path)
    ensures Components(path) == [] && SplitPath(path) == ([], [])
    ensures IsLive(FileEntry(path, c)) && GetName(FileEntry(path, c)) == [] && FileEntry(path, c).cluster == c
  {
    hide FieldName;
    RootComponents(path);
    assert SplitPath(path) == ([], []);
    var name: seq<byte> := [];
    assert SplitName(name) == ([], []);
    JoinSplit(name);
    assert Utf8(name);
    assert Pad(name, 8)[0] == SPACE && Field(name, [])[0] == SPACE;
    NamelessField(c);
  }

  lemma NamelessField(c: u16)
    ensures GetName(NewFile([], [], c)) == []
  {
  }

  /** create_file("") passes its checks wherever a create in the root can, and no path leads to what it creates. */
  lemma NamelessLost(was: Fs, now: Fs, path: seq<byte>, r: Result<()>)
    requires Inv(was) && was.g.ScansFit() && was.g.limit <= |was.fat| && 0 in was.tab && 0 < |was.data| && Nameless(path)
    requires Taken(was.fat, was.g.MountScan(), NotSupported).Ok? && FirstUsable(was.tab[0], 0) < |was.tab[0]|
    requires FileCreate(was, now, path, r)
    ensures var p := (0, FirstUsable(was.tab[0], 0));
            r == Ok(()) && p in now.own && now.HasSlot(p) && !Reachable(now, p)
  {
    hide Inv, Components, SplitPath, FirstUsable, FileEntry, GetName, Taken, Geometry.MountScan, Geometry.ScansFit, Enabled,
         Reachable, IsLive;
    DataSize(was, 0);
    NamelessPath(path, NextFree(was));
    assert CreateOutcome(was, path, 12) == Ok(0);
    var p := (0, FirstUsable(was.tab[0], 0));
    CreatedThere(was, p, FileEntry(path, NextFree(was)));
    UnspelledLost(now, p);
  }

  lemma CreatedThere(was: Fs, p: Pos, e: Entry)
    requires Inv(was) && Enabled(was, Create(p, e, []))
    ensures var now := Apply(was, Create(p, e, [])); p in now.own && now.HasSlot(p) && now.At(p) == e
  {
    hide Inv, FirstUsable, FreshDir, IsLive;
    FreeNotDir(was, e.cluster);
  }
}
