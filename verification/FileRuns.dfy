/**
 * Runs of the filesystem. Every call is a sequence of the steps below, so what holds after every run
 * of steps holds after every run of calls.
 */
module FileRuns {
  import opened Bytes
  import opened Names
  import opened Directory
  import opened FileSystem
  import opened FileIO

  datatype Step =
    | WriteData(p: Pos, i: nat, bytes: seq<byte>)
    | Extend(p: Pos, c: nat)
    | SetSize(p: Pos, size: u32)
    | Create(p: Pos, e: Entry, slots: Dir)
    | Remove(p: Pos)
    | Rename(src: Pos, dst: Pos, e: Entry)

  ghost predicate IsFile(fs: Fs, p: Pos) {
    p in fs.own && fs.HasSlot(p) && !IsDirectory(fs.At(p))
  }

  ghost predicate Enabled(fs: Fs, s: Step) {
    match s
    case WriteData(p, i, bytes) => IsFile(fs, p) && i < |fs.own[p]| && |bytes| == fs.g.ClusterSize()
    case Extend(p, c) => IsFile(fs, p) && 2 <= c < |fs.fat| && fs.fat[c] == 0
    case SetSize(p, size) => IsFile(fs, p) && size < |fs.own[p]| * fs.g.ClusterSize()
    case Create(p, e, slots) => CanAdd(fs, p, e, slots)
    case Remove(p) => CanDrop(fs, p)
    case Rename(src, dst, e) => CanMove(fs, src, dst, e)
  }

  ghost function Apply(fs: Fs, s: Step): Fs
    requires Inv(fs) && Enabled(fs, s)
  {
    match s
    case WriteData(p, i, bytes) => FileNotDir(fs, p, i); SetData(fs, fs.own[p][i], bytes)
    case Extend(p, c) => GrowInv(fs, p, c); Grow(fs, p, c)
    case SetSize(p, size) => Resize(fs, p, size)
    case Create(p, e, slots) => Add(fs, p, e, slots)
    case Remove(p) => Drop(fs, p)
    case Rename(src, dst, e) => Move(fs, src, dst, e)
  }

  lemma StepInv(fs: Fs, s: Step)
    requires Inv(fs) && Enabled(fs, s)
    ensures Inv(Apply(fs, s))
  {
    match s
    case WriteData(p, i, bytes) => FileNotDir(fs, p, i); SetDataInv(fs, fs.own[p][i], bytes);
    case Extend(p, c) => GrowInv(fs, p, c);
    case SetSize(p, size) => ResizeInv(fs, p, size);
    case Create(p, e, slots) => AddInv(fs, p, e, slots);
    case Remove(p) => DropInv(fs, p);
    case Rename(src, dst, e) => MoveInv(fs, src, dst, e);
  }

  /** ss is a run from fs to fs': each step is enabled where it is taken. */
  ghost predicate Run(fs: Fs, ss: seq<Step>, fs': Fs)
    requires Inv(fs)
    decreases |ss|
  {
    if ss == [] then fs' == fs
    else Enabled(fs, ss[0]) && (StepInv(fs, ss[0]); Run(Apply(fs, ss[0]), ss[1..], fs'))
  }

  /** Every run keeps the invariant: chains stay acyclic, ended, disjoint and clear of free clusters. */
  lemma {:induction false} RunInv(fs: Fs, ss: seq<Step>, fs': Fs)
    requires Inv(fs) && Run(fs, ss, fs')
    ensures Inv(fs')
    decreases |ss|
  {
    if ss != [] {
      StepInv(fs, ss[0]);
      RunInv(Apply(fs, ss[0]), ss[1..], fs');
    }
  }

  lemma {:induction false} RunAppend(fs: Fs, ss: seq<Step>, mid: Fs, s: Step)
    requires Inv(fs) && Run(fs, ss, mid) && Inv(mid) && Enabled(mid, s)
    ensures Run(fs, ss + [s], Apply(mid, s))
    decreases |ss|
  {
    hide Inv, Enabled, Apply;
    var t := ss + [s];
    if ss == [] {
      assert t[0] == s && t[1..] == [];
      StepInv(fs, s);
    } else {
      assert t[0] == ss[0] && t[1..] == ss[1..] + [s];
      StepInv(fs, ss[0]);
      RunAppend(Apply(fs, ss[0]), ss[1..], mid, s);
    }
  }

  // ---- Isolation ---------------------------------------------------------------------------------

  function Touches(s: Step): set<Pos> {
    match s
    case Rename(src, dst, _) => {src, dst}
    case _ => {s.p}
  }

  /** Entry q is as it was: its slot, its chain, the FAT along the chain and the bytes it spells. */
  ghost predicate Untouched(fs: Fs, fs': Fs, q: Pos) {
    && q in fs.own && q in fs'.own && fs'.own[q] == fs.own[q]
    && fs.HasSlot(q) && fs'.HasSlot(q) && fs'.At(q) == fs.At(q)
    && |fs'.fat| == |fs.fat| && |fs'.data| == |fs.data|
    && (forall i :: 0 <= i < |fs.own[q]| ==> fs.own[q][i] < |fs.fat| && fs'.fat[fs.own[q][i]] == fs.fat[fs.own[q][i]])
    && (!IsDirectory(fs.At(q)) ==>
         forall i :: 0 <= i < |fs.own[q]| ==> fs.own[q][i] < |fs.data| && fs'.data[fs.own[q][i]] == fs.data[fs.own[q][i]])
  }

  /** What Untouched needs to know about q: where it is, and that its clusters exist. */
  ghost predicate Placed(fs: Fs, q: Pos) {
    && q in fs.own && fs.HasSlot(q) && |fs.fat| == |fs.data|
    && (forall i :: 0 <= i < |fs.own[q]| ==> fs.own[q][i] < |fs.fat|)
  }

  lemma OwnerPlaced(fs: Fs, q: Pos)
    requires Inv(fs) && q in fs.own
    ensures Placed(fs, q) && IsOwner(fs, q)
  {
    assert EntryOk(fs, q);
  }

  lemma NotShared(fs: Fs, p: Pos, i: nat, q: Pos)
    requires Apart(fs.own, fs.who) && p in fs.own && q in fs.own && p != q && i < |fs.own[p]|
    ensures fs.own[p][i] !in fs.own[q]
  {
    assert fs.who[fs.own[p][i]] == (p, i);
  }

  lemma NotChained(fs: Fs, c: nat, q: Pos)
    requires Apart(fs.own, fs.who) && c !in fs.who && q in fs.own
    ensures c !in fs.own[q]
  {
  }

  lemma SetDataFrame(fs: Fs, c: nat, bytes: seq<byte>, q: Pos)
    requires Placed(fs, q) && c < |fs.data| && c !in fs.own[q]
    ensures Untouched(fs, SetData(fs, c, bytes), q)
  {
  }

  lemma GrowFrame(fs: Fs, p: Pos, c: nat, q: Pos)
    requires Placed(fs, p) && Placed(fs, q) && fs.own[p] != [] && c < |fs.fat| && c < 65536 && p != q
    requires c !in fs.own[q] && fs.own[p][|fs.own[p]| - 1] !in fs.own[q]
    ensures Untouched(fs, Grow(fs, p, c), q)
  {
  }

  lemma ResizeFrame(fs: Fs, p: Pos, size: u32, q: Pos)
    requires fs.HasSlot(p) && Placed(fs, q) && p != q
    ensures Untouched(fs, Resize(fs, p, size), q)
  {
  }

  lemma AddFrame(fs: Fs, p: Pos, e: Entry, slots: Dir, q: Pos)
    requires fs.HasSlot(p) && Placed(fs, q) && p != q
    requires e.cluster < |fs.fat| && e.cluster !in fs.own[q] && e.cluster !in fs.tab
    ensures Untouched(fs, Add(fs, p, e, slots), q)
  {
  }

  lemma DropFrame(fs: Fs, p: Pos, q: Pos)
    requires CanDrop(fs, p) && Placed(fs, q) && IsOwner(fs, q) && p != q
    requires forall i :: 0 <= i < |fs.own[p]| ==> fs.own[p][i] !in fs.own[q]
    ensures Untouched(fs, Drop(fs, p), q)
  {
    assert fs.own[p][0] !in fs.own[q];
    assert !IsDirectory(fs.At(p)) || !IsOwner(fs, (fs.At(p).cluster, q.1));
  }

  lemma MoveFrame(fs: Fs, src: Pos, dst: Pos, e: Entry, q: Pos)
    requires CanMove(fs, src, dst, e) && Placed(fs, q) && q != src && q != dst
    ensures Untouched(fs, Move(fs, src, dst, e), q)
  {
  }

  /** A step leaves every entry it does not name as it was. */
  lemma StepFrame(fs: Fs, s: Step, q: Pos)
    requires Inv(fs) && Enabled(fs, s) && q in fs.own && q !in Touches(s)
    ensures Untouched(fs, Apply(fs, s), q)
  {
    OwnerPlaced(fs, q);
    match s
    case WriteData(p, i, bytes) => WriteDataFrame(fs, p, i, bytes, q);
    case Extend(p, c) => ExtendFrame(fs, p, c, q);
    case SetSize(p, size) => ResizeFrame(fs, p, size, q);
    case Create(p, e, slots) =>
      FreeNotDir(fs, e.cluster);
      NotChained(fs, e.cluster, q);
      AddFrame(fs, p, e, slots, q);
    case Remove(p) => RemoveFrame(fs, p, q);
    case Rename(src, dst, e) => MoveFrame(fs, src, dst, e, q);
  }

  lemma WriteDataFrame(fs: Fs, p: Pos, i: nat, bytes: seq<byte>, q: Pos)
    requires Inv(fs) && p in fs.own && i < |fs.own[p]| && q in fs.own && q != p
    ensures fs.own[p][i] < |fs.data| && Untouched(fs, SetData(fs, fs.own[p][i], bytes), q)
  {
    OwnerPlaced(fs, p);
    OwnerPlaced(fs, q);
    NotShared(fs, p, i, q);
    SetDataFrame(fs, fs.own[p][i], bytes, q);
  }

  lemma ExtendFrame(fs: Fs, p: Pos, c: nat, q: Pos)
    requires Inv(fs) && EntryOk(fs, p) && 2 <= c < |fs.fat| && fs.fat[c] == 0 && q in fs.own && q != p
    ensures Untouched(fs, Grow(fs, p, c), q)
  {
    OwnerPlaced(fs, p);
    OwnerPlaced(fs, q);
    FreeNotOwned(fs, c);
    NotChained(fs, c, q);
    NotShared(fs, p, |fs.own[p]| - 1, q);
    GrowFrame(fs, p, c, q);
  }

  lemma RemoveFrame(fs: Fs, p: Pos, q: Pos)
    requires Inv(fs) && CanDrop(fs, p) && q in fs.own && q != p
    ensures Untouched(fs, Drop(fs, p), q)
  {
    OwnerPlaced(fs, q);
    forall i | 0 <= i < |fs.own[p]|
      ensures fs.own[p][i] !in fs.own[q]
    {
      NotShared(fs, p, i, q);
    }
    DropFrame(fs, p, q);
  }

  /**
   * Isolation: whatever else a run does, an entry none of its steps names keeps its slot, its chain,
   * its FAT entries and its bytes.
   */
  lemma {:induction false} RunIsolates(fs: Fs, ss: seq<Step>, fs': Fs, q: Pos)
    requires Inv(fs) && Run(fs, ss, fs') && q in fs.own
    requires forall s :: s in ss ==> q !in Touches(s)
    ensures Untouched(fs, fs', q)
    decreases |ss|
  {
    if ss == [] {
      OwnerPlaced(fs, q);
    } else {
      StepFrame(fs, ss[0], q);
      StepInv(fs, ss[0]);
      RunIsolates(Apply(fs, ss[0]), ss[1..], fs', q);
      UntouchedTwice(fs, Apply(fs, ss[0]), fs', q);
    }
  }

  lemma UntouchedTwice(fs: Fs, mid: Fs, fs': Fs, q: Pos)
    requires Untouched(fs, mid, q) && Untouched(mid, fs', q)
    ensures Untouched(fs, fs', q)
  {
  }

  /** In particular the bytes of every other file stay the same. */
  lemma UntouchedBytes(fs: Fs, fs': Fs, q: Pos)
    requires Untouched(fs, fs', q) && !IsDirectory(fs.At(q)) && InData(fs, q) && fs'.g == fs.g
    ensures InData(fs', q) && FileBytes(fs', q) == FileBytes(fs, q)
  {
    ChainSame(fs.data, fs'.data, fs.own[q]);
  }

  // ---- Conservation ------------------------------------------------------------------------------

  /** The clusters that are free or in a live chain. */
  ghost function Accounted(fs: Fs): set<nat> {
    FreeSet(fs.fat) + fs.who.Keys
  }

  lemma GrowAccounted(fs: Fs, p: Pos, c: nat)
    requires EntryOk(fs, p) && 2 <= c < |fs.fat| && c < 65536 && fs.fat[c] == 0
    requires fs.own[p][|fs.own[p]| - 1] in fs.who
    ensures Accounted(Grow(fs, p, c)) == Accounted(fs)
  {
    var last := fs.own[p][|fs.own[p]| - 1];
    ChainUsed(fs.fat, fs.own[p], |fs.own[p]| - 1);
    forall x
      ensures x in Accounted(Grow(fs, p, c)) <==> x in Accounted(fs)
    {
    }
  }

  lemma AddAccounted(fs: Fs, p: Pos, e: Entry, slots: Dir)
    requires fs.HasSlot(p) && 2 <= e.cluster < |fs.fat| && fs.fat[e.cluster] == 0
    ensures Accounted(Add(fs, p, e, slots)) == Accounted(fs)
  {
    forall x
      ensures x in Accounted(Add(fs, p, e, slots)) <==> x in Accounted(fs)
    {
    }
  }

  lemma DropAccounted(fs: Fs, p: Pos)
    requires CanDrop(fs, p) && Apart(fs.own, fs.who)
    ensures Accounted(Drop(fs, p)) == Accounted(fs)
  {
    forall x
      ensures x in Accounted(Drop(fs, p)) <==> x in Accounted(fs)
    {
    }
  }

  lemma MoveAccounted(fs: Fs, src: Pos, dst: Pos, e: Entry)
    requires CanMove(fs, src, dst, e)
    ensures Accounted(Move(fs, src, dst, e)) == Accounted(fs)
  {
    assert Move(fs, src, dst, e).who.Keys == fs.who.Keys;
  }

  lemma ExtendAccounted(fs: Fs, p: Pos, c: nat)
    requires Inv(fs) && p in fs.own && 2 <= c < |fs.fat| && fs.fat[c] == 0
    ensures EntryOk(fs, p) && Accounted(Grow(fs, p, c)) == Accounted(fs)
  {
    assert EntryOk(fs, p);
    assert fs.who[fs.own[p][|fs.own[p]| - 1]] == (p, |fs.own[p]| - 1);
    GrowAccounted(fs, p, c);
  }

  lemma RemoveAccounted(fs: Fs, p: Pos)
    requires Inv(fs) && CanDrop(fs, p)
    ensures Accounted(Drop(fs, p)) == Accounted(fs)
  {
    DropAccounted(fs, p);
  }

  lemma StepAccounted(fs: Fs, s: Step)
    requires Inv(fs) && Enabled(fs, s)
    ensures Accounted(Apply(fs, s)) == Accounted(fs)
  {
    hide Inv;
    match s
    case WriteData(p, i, bytes) => FileNotDir(fs, p, i);
    case Extend(p, c) => ExtendAccounted(fs, p, c);
    case SetSize(p, size) =>
    case Create(p, e, slots) => AddAccounted(fs, p, e, slots);
    case Remove(p) => RemoveAccounted(fs, p);
    case Rename(src, dst, e) => MoveAccounted(fs, src, dst, e);
  }

  /** Conservation: every run keeps the set of clusters that are free or in a live chain. */
  lemma {:induction false} RunAccounted(fs: Fs, ss: seq<Step>, fs': Fs)
    requires Inv(fs) && Run(fs, ss, fs')
    ensures Accounted(fs') == Accounted(fs)
    decreases |ss|
  {
    if ss != [] {
      StepAccounted(fs, ss[0]);
      StepInv(fs, ss[0]);
      RunAccounted(Apply(fs, ss[0]), ss[1..], fs');
    }
  }

  lemma FreeApart(fs: Fs)
    requires Inv(fs)
    ensures FreeSet(fs.fat) == Accounted(fs) - fs.who.Keys
  {
    forall c | c in FreeSet(fs.fat)
      ensures c !in fs.who
    {
      FreeNotOwned(fs, c);
    }
  }

  lemma SameOwners(fs: Fs, fs': Fs)
    requires Apart(fs.own, fs.who) && Apart(fs'.own, fs'.who) && fs'.own == fs.own
    ensures fs'.who.Keys == fs.who.Keys
  {
  }

  /** A run that ends with the entries and chains it began with also ends with the same free clusters. */
  lemma FreeSetRestored(fs: Fs, ss: seq<Step>, fs': Fs)
    requires Inv(fs) && Run(fs, ss, fs') && fs'.own == fs.own
    ensures FreeSet(fs'.fat) == FreeSet(fs.fat)
  {
    RunInv(fs, ss, fs');
    RunAccounted(fs, ss, fs');
    FreeApart(fs);
    FreeApart(fs');
    SameOwners(fs, fs');
  }

  /** Steps of write_file on p. */
  predicate IsWrite(s: Step, p: Pos) {
    (s.WriteData? || s.Extend? || s.SetSize?) && s.p == p
  }

  lemma {:induction false} WritesOwn(fs: Fs, ss: seq<Step>, fs': Fs, p: Pos)
    requires Inv(fs) && Run(fs, ss, fs') && p in fs.own
    requires forall s :: s in ss ==> IsWrite(s, p)
    ensures p in fs'.own && fs'.own - {p} == fs.own - {p}
    decreases |ss|
  {
    if ss != [] {
      StepInv(fs, ss[0]);
      WriteOwn(fs, ss[0], p);
      WritesOwn(Apply(fs, ss[0]), ss[1..], fs', p);
    }
  }

  lemma WriteOwn(fs: Fs, s: Step, p: Pos)
    requires Inv(fs) && Enabled(fs, s) && IsWrite(s, p)
    ensures p in Apply(fs, s).own && Apply(fs, s).own - {p} == fs.own - {p}
  {
    hide Inv, IsChain, IsLive, Tidy;
  }

  lemma OwnBack(fs: Fs, p: Pos, ch: seq<nat>, mid: Fs)
    requires p !in fs.own && p in mid.own && mid.own - {p} == fs.own[p := ch] - {p}
    ensures mid.own - {p} == fs.own
  {
    assert fs.own[p := ch] - {p} == fs.own;
  }

  lemma StepRun(fs: Fs, s: Step)
    requires Inv(fs) && Enabled(fs, s)
    ensures Run(fs, [s], Apply(fs, s))
  {
    hide Inv, Enabled, Apply;
    RunAppend(fs, [], fs, s);
    assert [] + [s] == [s];
  }

  lemma {:induction false} RunConcat(fs: Fs, ss: seq<Step>, mid: Fs, ts: seq<Step>, fs': Fs)
    requires Inv(fs) && Run(fs, ss, mid) && Inv(mid) && Run(mid, ts, fs')
    ensures Run(fs, ss + ts, fs')
    decreases |ts|
  {
    hide Inv, Enabled, Apply;
    if ts == [] {
      assert ss + ts == ss;
    } else {
      RunAppend(fs, ss, mid, ts[0]);
      StepInv(mid, ts[0]);
      RunConcat(fs, ss + [ts[0]], Apply(mid, ts[0]), ts[1..], fs');
      assert ss + [ts[0]] + ts[1..] == ss + ts;
    }
  }

  /** Creating a file, writing to it and removing it gives every cluster back. */
  lemma CreateWriteRemove(fs: Fs, p: Pos, e: Entry, slots: Dir, ws: seq<Step>, mid: Fs)
    requires Inv(fs) && Enabled(fs, Create(p, e, slots))
    requires Inv(Apply(fs, Create(p, e, slots))) && Run(Apply(fs, Create(p, e, slots)), ws, mid)
    requires forall s :: s in ws ==> IsWrite(s, p)
    requires Inv(mid) && Enabled(mid, Remove(p))
    ensures FreeSet(Apply(mid, Remove(p)).fat) == FreeSet(fs.fat)
  {
    var fs1 := Apply(fs, Create(p, e, slots));
    StepRun(fs, Create(p, e, slots));
    RunConcat(fs, [Create(p, e, slots)], fs1, ws, mid);
    RunAppend(fs, [Create(p, e, slots)] + ws, mid, Remove(p));
    UsableIsNew(fs, p);
    WritesOwn(fs1, ws, mid, p);
    OwnBack(fs, p, [e.cluster], mid);
    FreeSetRestored(fs, [Create(p, e, slots)] + ws + [Remove(p)], Apply(mid, Remove(p)));
  }

  // ---- Writing is a run ----------------------------------------------------------------------------

  ghost function ChunkStep(fs: Fs, h: Handle, t: seq<byte>): Step
    requires Chunkable(fs, h, t)
  {
    var k := fs.g.ClusterSize();
    WriteData(h.p, Quot(h.position, k), Splice(fs.data[h.cluster], Offset(h, k), t))
  }

  lemma ChunkRun(fs: Fs, h: Handle, t: seq<byte>)
    requires Inv(fs) && Cursor(fs, h) && Chunkable(fs, h, t)
    ensures Run(fs, [ChunkStep(fs, h, t)], Chunk(fs, h, t)) && Inv(Chunk(fs, h, t))
    ensures IsWrite(ChunkStep(fs, h, t), h.p)
  {
    hide Inv, Run;
    StepRun(fs, ChunkStep(fs, h, t));
    StepInv(fs, ChunkStep(fs, h, t));
  }

  /** No cluster is allocated. */
  predicate NoExtend(steps: seq<Step>) {
    forall s :: s in steps ==> !s.Extend?
  }

  /** The steps of a write take clusters exactly when the chain gets longer, and then the FAT is another one. */
  lemma {:induction false} WritesTake(fs: Fs, ss: seq<Step>, fs': Fs, p: Pos)
    requires Inv(fs) && Run(fs, ss, fs') && p in fs.own
    requires forall s :: s in ss ==> IsWrite(s, p)
    ensures p in fs'.own && |fs'.fat| == |fs.fat|
    ensures forall c :: 0 <= c < |fs.fat| && fs.fat[c] != 0 ==> fs'.fat[c] != 0
    ensures NoExtend(ss) ==> fs'.own == fs.own
    ensures !NoExtend(ss) ==> |fs.own[p]| < |fs'.own[p]| && exists c :: 0 <= c < |fs.fat| && fs.fat[c] == 0 && fs'.fat[c] != 0
    decreases |ss|
  {
    hide Inv, Enabled, Apply, Run;
    if ss == [] {
      RunOver(fs, fs');
    } else {
      var s := ss[0];
      RunFirst(fs, ss, fs');
      StepInv(fs, s);
      StepTakes(fs, s, p);
      WritesTake(Apply(fs, s), ss[1..], fs', p);
      assert NoExtend(ss) <==> !s.Extend? && NoExtend(ss[1..]);
    }
  }

  lemma RunOver(fs: Fs, fs': Fs)
    requires Inv(fs) && Run(fs, [], fs')
    ensures fs' == fs
  {
  }

  lemma RunFirst(fs: Fs, ss: seq<Step>, fs': Fs)
    requires Inv(fs) && ss != [] && Run(fs, ss, fs')
    ensures Enabled(fs, ss[0]) && Inv(Apply(fs, ss[0])) && Run(Apply(fs, ss[0]), ss[1..], fs')
  {
    StepInv(fs, ss[0]);
  }

  lemma StepTakes(fs: Fs, s: Step, p: Pos)
    requires Inv(fs) && Enabled(fs, s) && IsWrite(s, p) && p in fs.own
    ensures var fs' := Apply(fs, s);
            && p in fs'.own && |fs'.fat| == |fs.fat|
            && (forall c :: 0 <= c < |fs.fat| && fs.fat[c] != 0 ==> fs'.fat[c] != 0)
            && (if s.Extend? then
                  |fs'.own[p]| == |fs.own[p]| + 1 && exists c :: 0 <= c < |fs.fat| && fs.fat[c] == 0 && fs'.fat[c] != 0
                else fs'.own == fs.own)
  {
    hide Inv;
    match s
    case WriteData(_, i, bytes) => FileNotDir(fs, p, i);
    case Extend(_, c) =>
      GrowInv(fs, p, c);
      assert fs.fat[c] == 0 && Apply(fs, s).fat[c] != 0;
    case SetSize(_, size) =>
  }

  /** A round of the write loop is one step, or two when it extends the chain. */
  lemma RoundRun(fs: Fs, h: Handle, t: seq<byte>, fs': Fs, h': Handle) returns (steps: seq<Step>)
    requires Inv(fs) && Cursor(fs, h) && Chunkable(fs, h, t)
    requires fs.own[h.p] != [] && fs.own[h.p][|fs.own[h.p]| - 1] < |fs.fat| && Round(fs, h, t, fs', h')
    ensures Run(fs, steps, fs') && forall s :: s in steps ==> IsWrite(s, h.p)
    ensures NoExtend(steps) ==> fs' == Chunk(fs, h, t)
  {
    hide Inv, Cursor, Chunk, Run, Enabled, Apply;
    ChunkRun(fs, h, t);
    ChunkOwn(fs, h, t);
    var fs1 := Chunk(fs, h, t);
    steps := [ChunkStep(fs, h, t)];
    if fs' != fs1 {
      CursorIndex(fs, h);
      ExtendEnabled(fs1, h.p, h'.cluster);
      RunAppend(fs, steps, fs1, Extend(h.p, h'.cluster));
      steps := steps + [Extend(h.p, h'.cluster)];
      assert Extend(h.p, h'.cluster) in steps;
    }
  }

  lemma ExtendEnabled(fs: Fs, p: Pos, c: nat)
    requires Inv(fs) && IsFile(fs, p) && 2 <= c < |fs.fat| && c < 65536 && fs.fat[c] == 0
    ensures fs.own[p] != [] && fs.own[p][|fs.own[p]| - 1] < |fs.fat|
    ensures Enabled(fs, Extend(p, c)) && Apply(fs, Extend(p, c)) == Grow(fs, p, c)
  {
    hide Inv;
    GrowInv(fs, p, c);
  }
}
