/**
 * Files as byte strings: what a chain of clusters spells, and what one round of the read and write
 * loops does to an open file.
 */
module FileIO {
  import opened Basics
  import opened Bytes
  import opened Volume
  import opened Names
  import opened FileSystem

  /** n / k and n % k by repeated subtraction, for a cluster size k. */
  function Quot(n: nat, k: nat): (q: nat)
    requires 1 <= k
    ensures q * k <= n < q * k + k
  {
    if n < k then 0 else
      MoreRoom(Quot(n - k, k), k);
      Quot(n - k, k) + 1
  }

  lemma {:induction false} QuotUnique(n: nat, k: nat, q: nat)
    requires 1 <= k && q * k <= n < q * k + k
    ensures Quot(n, k) == q
    decreases n
  {
    if q == 0 {
    } else {
      MoreRoom(q - 1, k);
      QuotUnique(n - k, k, q - 1);
    }
  }

  lemma QuotIsDiv(n: nat, k: nat)
    requires 1 <= k
    ensures Quot(n, k) == n / k && n - Quot(n, k) * k == n % k
  {
    var q := n / k;
    assert n == k * q + n % k;
    QuotUnique(n, k, q);
  }

  lemma MulBelow(a: nat, b: nat, k: nat)
    requires a * k < b * k
    ensures a < b
  {
    if b <= a {
      Stride(b - 1, a, k);
      MoreRoom(b, k);
    }
  }

  /** The bytes of the clusters of a chain, in order. */
  ghost function ChainBytes(data: seq<seq<byte>>, ch: seq<nat>): seq<byte>
    requires forall i :: 0 <= i < |ch| ==> ch[i] < |data|
  {
    if ch == [] then [] else data[ch[0]] + ChainBytes(data, ch[1..])
  }

  ghost predicate Blocks(data: seq<seq<byte>>, ch: seq<nat>, k: nat) {
    forall i :: 0 <= i < |ch| ==> ch[i] < |data| && |data[ch[i]]| == k
  }

  lemma {:induction false} ChainLength(data: seq<seq<byte>>, ch: seq<nat>, k: nat)
    requires Blocks(data, ch, k)
    ensures |ChainBytes(data, ch)| == |ch| * k
  {
    if ch != [] {
      ChainLength(data, ch[1..], k);
      MoreRoom(|ch| - 1, k);
    }
  }

  lemma {:induction false} ChainBlock(data: seq<seq<byte>>, ch: seq<nat>, i: nat, k: nat)
    requires Blocks(data, ch, k) && i < |ch|
    ensures i * k + k <= |ChainBytes(data, ch)|
    ensures ChainBytes(data, ch)[i * k..i * k + k] == data[ch[i]]
  {
    ChainLength(data, ch, k);
    MoreRoom(i, k);
    Stride(i, |ch|, k);
    if i > 0 {
      MoreRoom(i - 1, k);
      ChainBlock(data, ch[1..], i - 1, k);
      var rest := ChainBytes(data, ch[1..]);
      assert ChainBytes(data, ch)[i * k..i * k + k] == rest[(i - 1) * k..(i - 1) * k + k];
    }
  }

  lemma {:induction false} ChainSame(data: seq<seq<byte>>, data': seq<seq<byte>>, ch: seq<nat>)
    requires |data'| == |data|
    requires forall i :: 0 <= i < |ch| ==> ch[i] < |data| && data'[ch[i]] == data[ch[i]]
    ensures ChainBytes(data', ch) == ChainBytes(data, ch)
  {
    if ch != [] {
      ChainSame(data, data', ch[1..]);
    }
  }

  lemma {:induction false} ChainAppend(data: seq<seq<byte>>, ch: seq<nat>, c: nat)
    requires forall i :: 0 <= i < |ch| ==> ch[i] < |data|
    requires c < |data|
    ensures ChainBytes(data, ch + [c]) == ChainBytes(data, ch) + data[c]
  {
    if ch == [] {
      assert ch + [c] == [c];
      assert ChainBytes(data, [c]) == data[c] + ChainBytes(data, []);
    } else {
      assert (ch + [c])[1..] == ch[1..] + [c];
      ChainAppend(data, ch[1..], c);
    }
  }

  lemma SpliceLeft(a: seq<byte>, b: seq<byte>, at: nat, t: seq<byte>)
    requires at + |t| <= |a|
    ensures Splice(a + b, at, t) == Splice(a, at, t) + b
  {
  }

  lemma SpliceRight(a: seq<byte>, b: seq<byte>, at: nat, t: seq<byte>)
    requires at + |t| <= |b|
    ensures Splice(a + b, |a| + at, t) == a + Splice(b, at, t)
  {
  }

  /** Overwriting part of one cluster of a chain overwrites the same bytes of what the chain spells. */
  lemma {:induction false} ChainSplice(data: seq<seq<byte>>, ch: seq<nat>, i: nat, off: nat, t: seq<byte>, k: nat)
    requires Blocks(data, ch, k) && NoDup(ch) && i < |ch| && off + |t| <= k
    ensures i * k + off + |t| <= |ChainBytes(data, ch)|
    ensures ChainBytes(data[ch[i] := Splice(data[ch[i]], off, t)], ch) == Splice(ChainBytes(data, ch), i * k + off, t)
  {
    hide ChainBytes, Splice;
    ChainBlock(data, ch, i, k);
    var data' := data[ch[i] := Splice(data[ch[i]], off, t)];
    if i == 0 {
      SpliceHead(data, ch, off, t);
    } else {
      MoreRoom(i - 1, k);
      ChainSplice(data, ch[1..], i - 1, off, t, k);
      SpliceTail(data, data', ch, (i - 1) * k + off, t);
    }
  }

  lemma SpliceHead(data: seq<seq<byte>>, ch: seq<nat>, off: nat, t: seq<byte>)
    requires ch != [] && NoDup(ch) && (forall i :: 0 <= i < |ch| ==> ch[i] < |data|)
    requires off + |t| <= |data[ch[0]]|
    ensures off + |t| <= |ChainBytes(data, ch)|
    ensures ChainBytes(data[ch[0] := Splice(data[ch[0]], off, t)], ch) == Splice(ChainBytes(data, ch), off, t)
  {
    ChainSame(data, data[ch[0] := Splice(data[ch[0]], off, t)], ch[1..]);
    SpliceLeft(data[ch[0]], ChainBytes(data, ch[1..]), off, t);
  }

  lemma SpliceTail(data: seq<seq<byte>>, data': seq<seq<byte>>, ch: seq<nat>, at: nat, t: seq<byte>)
    requires |data'| == |data| && ch != [] && forall i :: 0 <= i < |ch| ==> ch[i] < |data|
    requires data'[ch[0]] == data[ch[0]] && at + |t| <= |ChainBytes(data, ch[1..])|
    requires ChainBytes(data', ch[1..]) == Splice(ChainBytes(data, ch[1..]), at, t)
    ensures |data[ch[0]]| + at + |t| <= |ChainBytes(data, ch)|
    ensures ChainBytes(data', ch) == Splice(ChainBytes(data, ch), |data[ch[0]]| + at, t)
  {
    SpliceRight(data[ch[0]], ChainBytes(data, ch[1..]), at, t);
  }

  /** s with t written over it from `at` on, extending s where t runs past its end. */
  function Overwrite(s: seq<byte>, at: nat, t: seq<byte>): (r: seq<byte>)
    requires at <= |s|
    ensures |r| == Max(|s|, at + |t|)
  {
    s[..at] + t + s[Min(at + |t|, |s|)..]
  }

  lemma OverwriteTwice(s: seq<byte>, at: nat, t: seq<byte>, u: seq<byte>)
    requires at <= |s|
    ensures Overwrite(Overwrite(s, at, t), at + |t|, u) == Overwrite(s, at, t + u)
  {
  }

  lemma SpliceCut(full: seq<byte>, size: nat, at: nat, t: seq<byte>)
    requires at <= size <= |full| && at + |t| <= |full|
    ensures Splice(full, at, t)[..Max(size, at + |t|)] == Overwrite(full[..size], at, t)
  {
  }

  // ---- Open files --------------------------------------------------------------------------------

  /** An open file: its directory slot, and the fields of Fat16File that the loops use. */
  datatype Handle = Handle(p: Pos, cluster: nat, position: nat, size: nat)

  /**
   * The invariant of an open file: its position is within its size, its chain has at least
   * size / cluster size + 1 clusters, and its current cluster is the one its position lies in.
   */
  ghost predicate Cursor(fs: Fs, h: Handle) {
    && h.p in fs.own && fs.HasSlot(h.p) && !IsDirectory(fs.At(h.p)) && 1 <= fs.g.ClusterSize()
    && h.position <= h.size < |fs.own[h.p]| * fs.g.ClusterSize()
    && AtCluster(fs.own[h.p], fs.g.ClusterSize(), h)
  }

  ghost predicate AtCluster(ch: seq<nat>, k: nat, h: Handle)
    requires 1 <= k
  {
    Quot(h.position, k) < |ch| && h.cluster == ch[Quot(h.position, k)]
  }

  ghost predicate InData(fs: Fs, p: Pos) {
    p in fs.own && Blocks(fs.data, fs.own[p], fs.g.ClusterSize()) && NoDup(fs.own[p])
  }

  lemma OwnerInData(fs: Fs, p: Pos)
    requires Inv(fs) && p in fs.own
    ensures InData(fs, p)
  {
    assert EntryOk(fs, p);
    var ch := fs.own[p];
    assert forall i :: 0 <= i < |ch| ==> fs.who[ch[i]] == (p, i);
  }

  /** Everything the chain of p spells; the file is the first `size` bytes of it. */
  ghost function FileBytes(fs: Fs, p: Pos): (r: seq<byte>)
    requires InData(fs, p)
    ensures |r| == |fs.own[p]| * fs.g.ClusterSize()
  {
    ChainLength(fs.data, fs.own[p], fs.g.ClusterSize());
    ChainBytes(fs.data, fs.own[p])
  }

  ghost function Contents(fs: Fs, h: Handle): (r: seq<byte>)
    requires InData(fs, h.p) && h.size <= |fs.own[h.p]| * fs.g.ClusterSize()
    ensures |r| == h.size
  {
    FileBytes(fs, h.p)[..h.size]
  }

  function Advanced(h: Handle, n: nat): Handle {
    h.(position := h.position + n, size := Max(h.size, h.position + n))
  }

  /** One chunk of write_file: t goes into the current cluster from the position on. */
  ghost function Chunk(fs: Fs, h: Handle, t: seq<byte>): Fs
    requires 1 <= fs.g.ClusterSize() && h.cluster < |fs.data| && |fs.data[h.cluster]| == fs.g.ClusterSize()
    requires h.position - Quot(h.position, fs.g.ClusterSize()) * fs.g.ClusterSize() + |t| <= fs.g.ClusterSize()
  {
    var off := h.position - Quot(h.position, fs.g.ClusterSize()) * fs.g.ClusterSize();
    SetData(fs, h.cluster, Splice(fs.data[h.cluster], off, t))
  }

  lemma ChunkReady(fs: Fs, h: Handle)
    requires Inv(fs) && Cursor(fs, h)
    ensures InData(fs, h.p) && h.cluster < |fs.data| && |fs.data[h.cluster]| == fs.g.ClusterSize()
    ensures 2 <= h.cluster && h.cluster !in fs.tab
  {
    OwnerInData(fs, h.p);
    FileNotDir(fs, h.p, Quot(h.position, fs.g.ClusterSize()));
  }

  /** A chunk overwrites exactly the bytes from the position on. */
  lemma ChunkContents(fs: Fs, h: Handle, t: seq<byte>)
    requires Cursor(fs, h) && InData(fs, h.p) && h.cluster < |fs.data| && |fs.data[h.cluster]| == fs.g.ClusterSize()
    requires h.position - Quot(h.position, fs.g.ClusterSize()) * fs.g.ClusterSize() + |t| <= fs.g.ClusterSize()
    ensures InData(Chunk(fs, h, t), h.p)
    ensures Advanced(h, |t|).size <= |fs.own[h.p]| * fs.g.ClusterSize()
    ensures Contents(Chunk(fs, h, t), Advanced(h, |t|)) == Overwrite(Contents(fs, h), h.position, t)
  {
    var k := fs.g.ClusterSize();
    var i := Quot(h.position, k);
    ChainSplice(fs.data, fs.own[h.p], i, h.position - i * k, t, k);
    SpliceCut(FileBytes(fs, h.p), h.size, h.position, t);
    assert FileBytes(Chunk(fs, h, t), h.p) == Splice(FileBytes(fs, h.p), h.position, t);
  }

  /** A position inside the same cluster keeps the cursor where it is. */
  lemma CursorStays(ch: seq<nat>, k: nat, h: Handle, n: nat)
    requires 1 <= k && AtCluster(ch, k, h)
    requires h.position - Quot(h.position, k) * k + n < k
    ensures AtCluster(ch, k, Advanced(h, n))
  {
    QuotUnique(h.position + n, k, Quot(h.position, k));
  }

  /** A position at the end of the cluster belongs to the next one. */
  lemma CursorMoves(ch: seq<nat>, k: nat, h: Handle, n: nat, next: nat)
    requires 1 <= k && h.position - Quot(h.position, k) * k + n == k
    requires Quot(h.position, k) + 1 < |ch| && ch[Quot(h.position, k) + 1] == next
    ensures AtCluster(ch, k, Advanced(h, n).(cluster := next))
  {
    MoreRoom(Quot(h.position, k), k);
    QuotUnique(h.position + n, k, Quot(h.position, k) + 1);
  }

  /** The FAT entry of the current cluster ends the chain exactly in its last cluster. */
  lemma NextCluster(fs: Fs, h: Handle)
    requires Inv(fs) && Cursor(fs, h)
    ensures var i := Quot(h.position, fs.g.ClusterSize()); var ch := fs.own[h.p];
            && h.cluster < |fs.fat|
            && (fs.fat[h.cluster] >= END_OF_CHAIN <==> i + 1 == |ch|)
            && (i + 1 < |ch| ==> fs.fat[h.cluster] == ch[i + 1])
  {
    assert EntryOk(fs, h.p);
    ChainNext(fs.fat, fs.own[h.p], Quot(h.position, fs.g.ClusterSize()));
  }

  lemma ChainNext(fat: seq<u16>, ch: seq<nat>, i: nat)
    requires IsChain(fat, ch) && i < |ch| && |fat| <= END_OF_CHAIN
    ensures ch[i] < |fat|
    ensures fat[ch[i]] >= END_OF_CHAIN <==> i + 1 == |ch|
    ensures i + 1 < |ch| ==> fat[ch[i]] == ch[i + 1]
  {
    assert i + 1 < |ch| ==> fat[ch[i]] == ch[i + 1];
  }

  /** Linking a fresh cluster at the end changes nothing in the file. */
  lemma GrowContents(fs: Fs, h: Handle, c: nat)
    requires InData(fs, h.p) && fs.own[h.p] != [] && fs.own[h.p][|fs.own[h.p]| - 1] < |fs.fat|
    requires h.size <= |fs.own[h.p]| * fs.g.ClusterSize()
    requires c < |fs.fat| && c < 65536 && c < |fs.data| && |fs.data[c]| == fs.g.ClusterSize() && c !in fs.own[h.p]
    ensures InData(Grow(fs, h.p, c), h.p)
    ensures h.size <= |Grow(fs, h.p, c).own[h.p]| * fs.g.ClusterSize()
    ensures Contents(Grow(fs, h.p, c), h) == Contents(fs, h)
  {
    MoreRoom(|fs.own[h.p]|, fs.g.ClusterSize());
    ChainAppend(fs.data, fs.own[h.p], c);
  }

  // ---- One round of the write loop -----------------------------------------------------------------

  /** Offset of the position in its cluster. */
  function Offset(h: Handle, k: nat): (o: nat)
    requires 1 <= k
    ensures o < k
  {
    h.position - Quot(h.position, k) * k
  }

  lemma BelowEnd(i: nat, n: nat, k: nat)
    requires i < n
    ensures i * k + k <= n * k
  {
    Stride(i, n, k);
  }

  /** A chunk that stops inside the cluster leaves a valid cursor. */
  lemma RoundStays(fs: Fs, h: Handle, t: seq<byte>)
    requires Cursor(fs, h) && h.cluster < |fs.data| && |fs.data[h.cluster]| == fs.g.ClusterSize()
    requires Offset(h, fs.g.ClusterSize()) + |t| < fs.g.ClusterSize()
    ensures Cursor(Chunk(fs, h, t), Advanced(h, |t|))
  {
    var k := fs.g.ClusterSize();
    CursorStays(fs.own[h.p], k, h, |t|);
    BelowEnd(Quot(h.position, k), |fs.own[h.p]|, k);
  }

  /** A chunk that fills a cluster in the middle of the chain moves on to the next one. */
  lemma RoundMoves(fs: Fs, h: Handle, t: seq<byte>, next: nat)
    requires Cursor(fs, h) && h.cluster < |fs.data| && |fs.data[h.cluster]| == fs.g.ClusterSize()
    requires Offset(h, fs.g.ClusterSize()) + |t| == fs.g.ClusterSize()
    requires Quot(h.position, fs.g.ClusterSize()) + 1 < |fs.own[h.p]|
    requires next == fs.own[h.p][Quot(h.position, fs.g.ClusterSize()) + 1]
    ensures Cursor(Chunk(fs, h, t), Advanced(h, |t|).(cluster := next))
  {
    var k := fs.g.ClusterSize();
    var i := Quot(h.position, k);
    CursorMoves(fs.own[h.p], k, h, |t|, next);
    MoreRoom(i, k);
    BelowEnd(i + 1, |fs.own[h.p]|, k);
  }

  /** A chunk that fills the last cluster extends the chain, so there is room for one byte more. */
  lemma RoundGrows(fs: Fs, h: Handle, t: seq<byte>, c: nat)
    requires Cursor(fs, h) && h.cluster < |fs.data| && |fs.data[h.cluster]| == fs.g.ClusterSize()
    requires Offset(h, fs.g.ClusterSize()) + |t| == fs.g.ClusterSize()
    requires Quot(h.position, fs.g.ClusterSize()) + 1 == |fs.own[h.p]|
    requires c < |fs.fat| && c < 65536 && fs.own[h.p][|fs.own[h.p]| - 1] < |fs.fat|
    ensures Cursor(Grow(Chunk(fs, h, t), h.p, c), Advanced(h, |t|).(cluster := c))
  {
    var k := fs.g.ClusterSize();
    var i := Quot(h.position, k);
    CursorMoves(fs.own[h.p] + [c], k, h, |t|, c);
    MoreRoom(i, k);
    MoreRoom(i + 1, k);
  }

  ghost predicate Chunkable(fs: Fs, h: Handle, t: seq<byte>) {
    && 1 <= fs.g.ClusterSize() && h.cluster < |fs.data| && |fs.data[h.cluster]| == fs.g.ClusterSize()
    && Offset(h, fs.g.ClusterSize()) + |t| <= fs.g.ClusterSize()
  }

  /** What the write loop makes of volume fs and cursor h with one chunk t. */
  ghost predicate Round(fs: Fs, h: Handle, t: seq<byte>, fs': Fs, h': Handle)
    requires Chunkable(fs, h, t) && h.p in fs.own && fs.own[h.p] != [] && fs.own[h.p][|fs.own[h.p]| - 1] < |fs.fat|
  {
    var k := fs.g.ClusterSize();
    var i := Quot(h.position, k);
    var fs1, h1 := Chunk(fs, h, t), Advanced(h, |t|);
    if Offset(h, k) + |t| < k then fs' == fs1 && h' == h1
    else if i + 1 < |fs.own[h.p]| then fs' == fs1 && h' == h1.(cluster := fs.own[h.p][i + 1])
    else
      && 2 <= h'.cluster < |fs.fat| && h'.cluster < 65536 && fs.fat[h'.cluster] == 0
      && fs' == Grow(fs1, h.p, h'.cluster) && h' == h1.(cluster := h'.cluster)
  }

  /** The contents of the file, without preconditions. */
  ghost function FileText(fs: Fs, h: Handle): seq<byte> {
    if InData(fs, h.p) && h.size <= |fs.own[h.p]| * fs.g.ClusterSize() then Contents(fs, h) else []
  }

  lemma RoundReady(fs: Fs, h: Handle)
    requires Inv(fs) && Cursor(fs, h)
    ensures fs.own[h.p] != [] && fs.own[h.p][|fs.own[h.p]| - 1] < |fs.fat| && |fs.fat| == |fs.data| <= END_OF_CHAIN
    ensures InData(fs, h.p) && Chunkable(fs, h, []) && |FileText(fs, h)| == h.size
  {
    ChunkReady(fs, h);
    assert EntryOk(fs, h.p);
  }

  lemma RoundCursor(fs: Fs, h: Handle, t: seq<byte>, fs': Fs, h': Handle)
    requires Inv(fs) && Cursor(fs, h) && Chunkable(fs, h, t)
    requires fs.own[h.p] != [] && fs.own[h.p][|fs.own[h.p]| - 1] < |fs.fat| && Round(fs, h, t, fs', h')
    ensures Cursor(fs', h')
  {
    hide Inv, Cursor, Chunk, Grow, AtCluster;
    CursorIndex(fs, h);
    var k := fs.g.ClusterSize();
    if Offset(h, k) + |t| < k {
      RoundStays(fs, h, t);
    } else if Quot(h.position, k) + 1 < |fs.own[h.p]| {
      RoundMoves(fs, h, t, h'.cluster);
    } else {
      RoundGrows(fs, h, t, h'.cluster);
    }
  }

  lemma CursorIndex(fs: Fs, h: Handle)
    requires Cursor(fs, h)
    ensures h.p in fs.own && fs.HasSlot(h.p) && !IsDirectory(fs.At(h.p)) && 1 <= fs.g.ClusterSize()
    ensures Quot(h.position, fs.g.ClusterSize()) < |fs.own[h.p]| && h.position <= h.size
    ensures h.cluster == fs.own[h.p][Quot(h.position, fs.g.ClusterSize())]
  {
  }

  /** A round writes its chunk at the position and changes no other byte of the file. */
  lemma RoundText(fs: Fs, h: Handle, t: seq<byte>, fs': Fs, h': Handle)
    requires Inv(fs) && Cursor(fs, h) && Chunkable(fs, h, t)
    requires fs.own[h.p] != [] && fs.own[h.p][|fs.own[h.p]| - 1] < |fs.fat| && Round(fs, h, t, fs', h')
    ensures h.position <= |FileText(fs, h)| && FileText(fs', h') == Overwrite(FileText(fs, h), h.position, t)
  {
    hide Inv, Chunk, Overwrite, Contents, AtCluster, InData;
    ChunkReady(fs, h);
    ChunkContents(fs, h, t);
    var k := fs.g.ClusterSize();
    var fs1, h1 := Chunk(fs, h, t), Advanced(h, |t|);
    ChunkOwn(fs, h, t);
    SameText(fs1, h1, h'.cluster);
    if Offset(h, k) + |t| == k && Quot(h.position, k) + 1 >= |fs.own[h.p]| {
      FreshNotInChain(fs, h.p, h'.cluster);
      GrowContents(fs1, h1.(cluster := h'.cluster), h'.cluster);
    }
  }

  lemma ChunkOwn(fs: Fs, h: Handle, t: seq<byte>)
    requires Chunkable(fs, h, t)
    ensures var fs1 := Chunk(fs, h, t);
            && fs1.own == fs.own && fs1.fat == fs.fat && fs1.g == fs.g && fs1.tab == fs.tab && |fs1.data| == |fs.data|
            && forall c :: 0 <= c < |fs.data| ==> |fs1.data[c]| == |fs.data[c]|
  {
  }

  lemma SameText(fs: Fs, h: Handle, c: nat)
    requires InData(fs, h.p) && h.size <= |fs.own[h.p]| * fs.g.ClusterSize()
    ensures Contents(fs, h.(cluster := c)) == Contents(fs, h)
  {
  }

  lemma FreshNotInChain(fs: Fs, p: Pos, c: nat)
    requires Inv(fs) && p in fs.own && 2 <= c < |fs.fat| && fs.fat[c] == 0
    ensures c !in fs.own[p] && c < |fs.data| && |fs.data[c]| == fs.g.ClusterSize()
  {
    FreeNotOwned(fs, c);
  }

  // ---- Room to write -------------------------------------------------------------------------------

  /** The free clusters in [2, end). */
  ghost function Spare(fat: seq<u16>, end: nat): set<nat> {
    set c: nat | 2 <= c < end && c < |fat| && fat[c] == 0
  }

  /** The clusters file p can come to: those it has, and those Fat16File::allocate_cluster can find. */
  ghost function Reach(fs: Fs, p: Pos, end: nat): nat
    requires p in fs.own
  {
    |fs.own[p]| + |Spare(fs.fat, end)|
  }

  /** Whether the clusters within reach hold n more bytes from the position on, and one byte besides. */
  ghost predicate CanWrite(fs: Fs, h: Handle, n: nat, end: nat) {
    h.p in fs.own && 1 <= fs.g.ClusterSize() && (h.position + n) / fs.g.ClusterSize() + 1 <= Reach(fs, h.p, end)
  }

  /** A write of n bytes, successful or not, comes to a cluster behind the file's chain. */
  ghost predicate Grows(fs: Fs, h: Handle, n: nat, end: nat) {
    && h.p in fs.own && 1 <= fs.g.ClusterSize()
    && |fs.own[h.p]| < (h.position + n) / fs.g.ClusterSize() + 1 && |fs.own[h.p]| < Reach(fs, h.p, end)
  }

  /** Linking a free cluster of the range into the chain leaves what is within reach as it was. */
  lemma GrowReach(fs: Fs, p: Pos, c: nat, end: nat)
    requires p in fs.own && fs.own[p] != [] && fs.own[p][|fs.own[p]| - 1] < |fs.fat|
    requires 2 <= c < end && c < |fs.fat| && c < 65536 && fs.fat[c] == 0 && fs.fat[fs.own[p][|fs.own[p]| - 1]] != 0
    ensures var fs' := Grow(fs, p, c); p in fs'.own && fs'.g == fs.g && Reach(fs', p, end) == Reach(fs, p, end)
  {
    var a, b := Spare(fs.fat, end), Spare(Grow(fs, p, c).fat, end);
    assert b == a - {c};
    assert a == b + {c};
  }

  /** A cursor lies within the clusters its file has, so what it has come to was within reach. */
  lemma CursorFits(fs: Fs, h: Handle, end: nat)
    requires Cursor(fs, h)
    ensures h.position / fs.g.ClusterSize() + 1 <= Reach(fs, h.p, end)
  {
    QuotIsDiv(h.position, fs.g.ClusterSize());
  }

  /** A position that has used up everything within reach cannot be passed. */
  lemma BeyondReach(n: nat, position: nat, len: nat, k: nat)
    requires 1 <= k && n * k <= position + len
    ensures (position + len) / k + 1 > n
  {
    var q := (position + len) / k;
    QuotIsDiv(position + len, k);
    MoreRoom(q, k);
    if q < n {
      BelowEnd(q, n, k);
    }
  }

  // ---- One round of the read loop ------------------------------------------------------------------

  /** The bytes of the current cluster from the position on are the bytes of the file from there on. */
  lemma ReadBytes(fs: Fs, h: Handle, n: nat)
    requires Cursor(fs, h) && InData(fs, h.p) && Chunkable(fs, h, []) && h.position + n <= h.size
    requires Offset(h, fs.g.ClusterSize()) + n <= fs.g.ClusterSize()
    ensures h.position + n <= |FileText(fs, h)|
    ensures var o := Offset(h, fs.g.ClusterSize());
            FileText(fs, h)[h.position..h.position + n] == fs.data[h.cluster][o..o + n]
  {
    var k := fs.g.ClusterSize();
    var i, o := Quot(h.position, k), Offset(h, k);
    ChainBlock(fs.data, fs.own[h.p], i, k);
    var all := FileBytes(fs, h.p);
    SliceOfSlice(all, i * k, k, o, n);
    assert FileText(fs, h)[h.position..h.position + n] == all[h.position..h.position + n];
  }

  lemma ReadStays(fs: Fs, h: Handle, n: nat)
    requires Cursor(fs, h) && h.position + n <= h.size
    requires Offset(h, fs.g.ClusterSize()) + n < fs.g.ClusterSize()
    ensures Cursor(fs, h.(position := h.position + n))
  {
    CursorStays(fs.own[h.p], fs.g.ClusterSize(), h, n);
  }

  /** A read never runs into the end of the chain: the chain is longer than the file. */
  lemma ReadMoves(fs: Fs, h: Handle, n: nat)
    requires Cursor(fs, h) && h.position + n <= h.size
    requires Offset(h, fs.g.ClusterSize()) + n == fs.g.ClusterSize()
    ensures var i := Quot(h.position, fs.g.ClusterSize());
            && i + 1 < |fs.own[h.p]|
            && Cursor(fs, h.(position := h.position + n, cluster := fs.own[h.p][i + 1]))
  {
    var k := fs.g.ClusterSize();
    var i := Quot(h.position, k);
    MoreRoom(i, k);
    MulBelow(i + 1, |fs.own[h.p]|, k);
    CursorMoves(fs.own[h.p], k, h, n, fs.own[h.p][i + 1]);
  }

  /**
   * seek_file moves the position and not the current cluster, so the cursor stays right exactly when
   * the new position lies in the same cluster.
   */
  lemma SeekCursor(fs: Fs, h: Handle, pos: nat)
    requires Inv(fs) && Cursor(fs, h) && pos <= h.size
    ensures Cursor(fs, h.(position := pos)) <==> Quot(pos, fs.g.ClusterSize()) == Quot(h.position, fs.g.ClusterSize())
  {
    hide Inv;
    OwnerInData(fs, h.p);
    var k := fs.g.ClusterSize();
    assert Quot(pos, k) * k < |fs.own[h.p]| * k;
    MulBelow(Quot(pos, k), |fs.own[h.p]|, k);
  }

  // ---- Sizes fit in 32 bits ------------------------------------------------------------------------

  lemma {:induction false} NoDupBound(ch: seq<nat>, n: nat)
    requires NoDup(ch) && forall i :: 0 <= i < |ch| ==> ch[i] < n
    ensures |ch| <= n
    decreases n
  {
    if ch != [] {
      assert ch[0] < n;
      if n - 1 in ch {
        var i :| 0 <= i < |ch| && ch[i] == n - 1;
        NoDupBound(ch[..i] + ch[i + 1..], n - 1);
      } else {
        NoDupBound(ch, n - 1);
      }
    }
  }

  /** Fat16 volumes are small enough: no file size is cut off by the 32-bit size field. */
  lemma SizeFits(fs: Fs, p: Pos)
    requires Inv(fs) && p in fs.own
    ensures |fs.own[p]| * fs.g.ClusterSize() <= 0xFFFF_FFFF
  {
    hide Apart, Owners, EntriesOk, DirsOk;
    OwnerInData(fs, p);
    NoDupBound(fs.own[p], |fs.data|);
    var n := |fs.own[p]|;
    assert n <= END_OF_CHAIN;
    SizeBound(n, fs.g.spc);
  }

  lemma SizeBound(n: nat, spc: nat)
    requires n <= END_OF_CHAIN && 1 <= spc <= 128
    ensures n * (spc * SECTOR_SIZE) <= 0xFFFF_FFFF
  {
    Stride(spc - 1, 128, n);
    MoreRoom(spc - 1, n);
    assert n * (spc * SECTOR_SIZE) == spc * n * SECTOR_SIZE;
  }
}
