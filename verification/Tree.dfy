/**
 * The directories of a volume form a tree: every live entry is reached from the root, and by no other
 * path than its own. Runs keep that, unless a directory is moved into its own subtree, which rename does
 * not refuse.
 */
module Tree {
  import opened Bytes
  import opened Names
  import opened Directory
  import opened FileSystem
  import opened FileRuns
  import opened Namespace

  /** Every directory but the root lies deeper than the one that holds its entry. */
  ghost predicate Ranked(fs: Fs, rank: map<nat, nat>) {
    && (forall d :: d in fs.tab ==> d in rank)
    && (forall d :: d in fs.tab && d != 0 ==> Home(fs, d) in fs.tab && rank[Home(fs, d)] < rank[d])
  }

  ghost predicate Rooted(fs: Fs) {
    exists rank :: Ranked(fs, rank)
  }

  /** The directory n levels above d, or the root. */
  ghost function Above(fs: Fs, d: nat, n: nat): nat
    decreases n
  {
    if n == 0 || d == 0 then d else Above(fs, Home(fs, d), n - 1)
  }

  /** d lies in the subtree of m. */
  ghost predicate Below(fs: Fs, d: nat, m: nat) {
    exists n: nat :: Above(fs, d, n) == m
  }

  lemma BelowHome(fs: Fs, d: nat, m: nat)
    requires d != 0 && d != m
    ensures Below(fs, d, m) <==> Below(fs, Home(fs, d), m)
  {
    if Below(fs, d, m) {
      var n: nat :| Above(fs, d, n) == m;
      assert n > 0;
      assert Above(fs, Home(fs, d), n - 1) == m;
    }
    if Below(fs, Home(fs, d), m) {
      var n: nat :| Above(fs, Home(fs, d), n) == m;
      assert Above(fs, d, n + 1) == m;
    }
  }

  // ---- Every entry is found by its path ------------------------------------------------------------------

  /** The names on the way from the root to an entry. */
  ghost function PathOf(fs: Fs, rank: map<nat, nat>, p: Pos): seq<seq<byte>>
    requires Inv(fs) && Ranked(fs, rank) && p in fs.own
    decreases rank[p.0]
  {
    OwnerSlot(fs, p);
    var name := GetName(fs.At(p));
    if p.0 == 0 then [name]
    else
      HomeEntry(fs, p.0);
      PathOf(fs, rank, fs.who[p.0].0) + [name]
  }

  lemma OwnerSlot(fs: Fs, p: Pos)
    requires Inv(fs) && p in fs.own
    ensures fs.HasSlot(p) && IsLive(fs.At(p))
  {
    assert IsOwner(fs, p);
  }

  /** The entry of a directory is a live directory entry that names its cluster. */
  lemma HomeEntry(fs: Fs, d: nat)
    requires Inv(fs) && d in fs.tab && d != 0
    ensures d in fs.who && fs.who[d].0 in fs.own && Home(fs, d) == fs.who[d].0.0
    ensures fs.HasSlot(fs.who[d].0) && IsDirectory(fs.At(fs.who[d].0)) && fs.At(fs.who[d].0).cluster == d
  {
    hide EntryOk, DirOk, Owners, Shape, Apart;
    assert DirOk(fs, d);
    HomeOwns(fs, d);
    assert EntryOk(fs, fs.who[d].0);
    HomeNames(fs, d);
  }

  lemma HomeOwns(fs: Fs, d: nat)
    requires DirOk(fs, d) && Apart(fs.own, fs.who) && d != 0
    ensures d in fs.who && fs.who[d].0 in fs.own && fs.HasSlot(fs.who[d].0) && IsDirectory(fs.At(fs.who[d].0))
    ensures fs.who[d].1 < |fs.own[fs.who[d].0]| && fs.own[fs.who[d].0][fs.who[d].1] == d
  {
    hide Tidy, DotsFormed;
  }

  lemma HomeNames(fs: Fs, d: nat)
    requires d in fs.who && fs.who[d].0 in fs.own && EntryOk(fs, fs.who[d].0) && IsDirectory(fs.At(fs.who[d].0))
    requires fs.who[d].1 < |fs.own[fs.who[d].0]| && fs.own[fs.who[d].0][fs.who[d].1] == d
    ensures fs.At(fs.who[d].0).cluster == d
  {
    hide IsChain;
  }

  /** In a directory with unique names the scan for a live slot's name finds that slot. */
  lemma UniqueLookup(dir: Dir, i: nat)
    requires UniqueNames(dir) && i < |dir| && IsLive(dir[i])
    ensures Lookup(dir, GetName(dir[i]), 0) == i
  {
    hide GetName;
    var j := Lookup(dir, GetName(dir[i]), 0);
    assert Named(dir, i, GetName(dir[i]));
    assert j < |dir| ==> Named(dir, j, GetName(dir[i]));
  }

  /** With unique names every live entry is what its path resolves to. */
  lemma {:induction false} Resolvable(fs: Fs, rank: map<nat, nat>, p: Pos)
    requires Inv(fs) && Ranked(fs, rank) && Unique(fs) && p in fs.own
    ensures PathOf(fs, rank, p) != [] && Resolve(fs.tab, 0, PathOf(fs, rank, p)) == Ok(p)
    decreases rank[p.0]
  {
    hide Inv, GetName, UniqueNames, Lookup;
    OwnerSlot(fs, p);
    UniqueLookup(fs.tab[p.0], p.1);
    if p.0 != 0 {
      HomeEntry(fs, p.0);
      var q := fs.who[p.0].0;
      Resolvable(fs, rank, q);
      ResolveLast(fs.tab, 0, PathOf(fs, rank, q), GetName(fs.At(p)));
    }
  }

  // ---- What can be spelled by a path -------------------------------------------------------------------------

  /** A path can name it: not empty, and without a slash. */
  predicate Spelled(name: seq<byte>) {
    name != [] && SLASH !in name
  }

  predicate AllSpelled(names: seq<seq<byte>>) {
    forall i :: 0 <= i < |names| ==> Spelled(names[i])
  }

  function JoinPath(names: seq<seq<byte>>): seq<byte> {
    if names == [] then [] else JoinPath(names[..|names| - 1]) + [SLASH] + names[|names| - 1]
  }

  lemma {:induction false} JoinComponents(names: seq<seq<byte>>)
    requires AllSpelled(names)
    ensures Components(JoinPath(names)) == names
  {
    if names == [] {
      ComponentsPlain([]);
    } else {
      var n := |names| - 1;
      JoinComponents(names[..n]);
      ComponentsAppend(JoinPath(names[..n]), names[n]);
      assert names == names[..n] + [names[n]];
    }
  }

  /** The components of a path can be spelled. */
  lemma {:induction false} ComponentsSpelled(path: seq<byte>)
    ensures AllSpelled(Components(path))
    decreases |path|
  {
    var n := Position(path, SLASH);
    var head := if n == 0 then [] else [path[..n]];
    if n < |path| {
      ComponentsSpelled(path[n + 1..]);
    }
  }

  /** The names on the way to a directory can be spelled. */
  ghost predicate DirSpelled(fs: Fs, rank: map<nat, nat>, d: nat)
    requires Inv(fs) && Ranked(fs, rank) && d in fs.tab
  {
    d != 0 ==> (HomeEntry(fs, d); AllSpelled(PathOf(fs, rank, fs.who[d].0)))
  }

  lemma PathStep(fs: Fs, rank: map<nat, nat>, p: Pos)
    requires Inv(fs) && Ranked(fs, rank) && p in fs.own
    ensures fs.HasSlot(p)
    ensures AllSpelled(PathOf(fs, rank, p)) <==> DirSpelled(fs, rank, p.0) && Spelled(GetName(fs.At(p)))
  {
    hide Inv, Ranked, GetName, Spelled;
    OwnerSlot(fs, p);
    var name := GetName(fs.At(p));
    if p.0 != 0 {
      HomeEntry(fs, p.0);
      var up := PathOf(fs, rank, fs.who[p.0].0);
      assert PathOf(fs, rank, p) == up + [name];
      assert AllSpelled(up + [name]) <==> AllSpelled(up) && Spelled(name) by { SpelledAppend(up, name); }
    } else {
      assert PathOf(fs, rank, p) == [] + [name];
      SpelledAppend([], name);
    }
  }

  lemma SpelledAppend(names: seq<seq<byte>>, name: seq<byte>)
    ensures AllSpelled(names + [name]) <==> AllSpelled(names) && Spelled(name)
  {
    hide Spelled;
    var all := names + [name];
    assert forall i :: 0 <= i < |names| ==> all[i] == names[i];
    assert all[|names|] == name;
  }

  /** A component leads from a directory that can be spelled to an entry that can be, or to a directory that can be. */
  lemma FoundSpelled(fs: Fs, rank: map<nat, nat>, d: nat, name: seq<byte>)
    requires Inv(fs) && Ranked(fs, rank) && DotsHome(fs) && d in fs.tab && DirSpelled(fs, rank, d) && Spelled(name)
    requires Lookup(fs.tab[d], name, 0) < |fs.tab[d]|
    ensures var q := (d, Lookup(fs.tab[d], name, 0));
            && Settled(fs, q) && fs.HasSlot(q) && (q in fs.own ==> AllSpelled(PathOf(fs, rank, q)))
            && (IsDirectory(fs.At(q)) ==> fs.At(q).cluster in fs.tab && DirSpelled(fs, rank, fs.At(q).cluster))
  {
    hide Inv, Ranked, GetName, Spelled, Lookup, DotsHome, AllSpelled, PathOf;
    var q := (d, Lookup(fs.tab[d], name, 0));
    HomeLeadsOn(fs);
    Found(fs, d, name);
    FoundSlot(fs.tab[d], name);
    ParentIsDir(fs, q);
    if q in fs.own {
      PathStep(fs, rank, q);
      HeadOwned(fs, q);
    } else {
      DotSpelled(fs, rank, q);
    }
  }

  /** "." leads back, and ".." one step up the way. */
  lemma DotSpelled(fs: Fs, rank: map<nat, nat>, q: Pos)
    requires Inv(fs) && Ranked(fs, rank) && DotsHome(fs) && fs.HasSlot(q) && IsDotSlot(q) && DirSpelled(fs, rank, q.0)
    ensures fs.At(q).cluster in fs.tab && DirSpelled(fs, rank, fs.At(q).cluster)
  {
    hide Inv, Ranked, AllSpelled, PathOf;
    assert DotsLead(fs.tab[q.0], q.0, Home(fs, q.0));
    HomeEntry(fs, q.0);
    HomeIsDir(fs, q.0);
    PathStep(fs, rank, fs.who[q.0].0);
  }

  lemma {:induction false} WalkSpelled(fs: Fs, rank: map<nat, nat>, d: nat, names: seq<seq<byte>>, p: Pos)
    requires Inv(fs) && Ranked(fs, rank) && DotsHome(fs) && d in fs.tab && DirSpelled(fs, rank, d)
    requires AllSpelled(names) && Resolve(fs.tab, d, names) == Ok(p) && p in fs.own
    ensures AllSpelled(PathOf(fs, rank, p))
    decreases |names|
  {
    hide Inv, Ranked, DotsHome, Lookup, Spelled, DirSpelled;
    FoundSpelled(fs, rank, d, names[0]);
    if |names| > 1 {
      WalkSpelled(fs, rank, fs.tab[d][Lookup(fs.tab[d], names[0], 0)].cluster, names[1..], p);
    }
  }

  /** A path leads to the entry. */
  ghost predicate Reachable(fs: Fs, p: Pos) {
    exists path :: Resolve(fs.tab, 0, Components(path)) == Ok(p)
  }

  /**
   * In a tree with unique names and right dot entries, some path leads to a live entry exactly when no name on
   * the way to it is empty or has a slash.
   */
  lemma ReachableExactly(fs: Fs, rank: map<nat, nat>, p: Pos)
    requires Inv(fs) && Ranked(fs, rank) && Unique(fs) && DotsHome(fs) && p in fs.own
    ensures Reachable(fs, p) <==> AllSpelled(PathOf(fs, rank, p))
  {
    hide Inv, Ranked, Unique, DotsHome, Resolve, AllSpelled, PathOf, Components;
    if AllSpelled(PathOf(fs, rank, p)) {
      SpelledReachable(fs, rank, p);
    }
    if path :| Resolve(fs.tab, 0, Components(path)) == Ok(p) {
      RootIsDir(fs);
      ComponentsSpelled(path);
      WalkSpelled(fs, rank, 0, Components(path), p);
    }
  }

  lemma SpelledReachable(fs: Fs, rank: map<nat, nat>, p: Pos)
    requires Inv(fs) && Ranked(fs, rank) && Unique(fs) && p in fs.own && AllSpelled(PathOf(fs, rank, p))
    ensures Reachable(fs, p)
  {
    hide Inv, Ranked, Unique, Resolve, AllSpelled, PathOf, Components, JoinPath;
    Resolvable(fs, rank, p);
    JoinComponents(PathOf(fs, rank, p));
  }

  /** The last component of a path that resolves is the name of what it leads to. */
  lemma {:induction false} ResolvedName(tab: map<nat, Dir>, d: nat, names: seq<seq<byte>>, p: Pos)
    requires Resolve(tab, d, names) == Ok(p)
    ensures names != [] && p.0 in tab && p.1 < |tab[p.0]| && GetName(tab[p.0][p.1]) == names[|names| - 1]
    decreases |names|
  {
    hide GetName, Lookup;
    FoundSlot(tab[d], names[0]);
    if |names| > 1 {
      ResolvedName(tab, tab[d][Lookup(tab[d], names[0], 0)].cluster, names[1..], p);
    }
  }

  /** An entry whose own name cannot be spelled is reached by no path, whatever the rest of the volume. */
  lemma UnspelledLost(fs: Fs, p: Pos)
    requires fs.HasSlot(p) && !Spelled(GetName(fs.At(p)))
    ensures !Reachable(fs, p)
  {
    hide GetName, Resolve, Components;
    if path :| Resolve(fs.tab, 0, Components(path)) == Ok(p) {
      ResolvedName(fs.tab, 0, Components(path), p);
      ComponentsSpelled(path);
      assert false;
    }
  }

  // ---- Steps keep the tree -------------------------------------------------------------------------------------

  lemma SameTree(fs: Fs, fs': Fs, rank: map<nat, nat>)
    requires Ranked(fs, rank) && (forall d :: d in fs'.tab ==> d in fs.tab)
    requires forall d :: d in fs'.tab && d != 0 ==> Home(fs', d) == Home(fs, d) && Home(fs, d) in fs'.tab
    ensures Ranked(fs', rank)
  {
  }

  lemma ExtendTree(fs: Fs, p: Pos, c: nat, rank: map<nat, nat>)
    requires Inv(fs) && Enabled(fs, Extend(p, c)) && Ranked(fs, rank)
    ensures Ranked(Apply(fs, Extend(p, c)), rank)
  {
    hide Inv;
    GrowInv(fs, p, c);
    FreeNotDir(fs, c);
    SameTree(fs, Apply(fs, Extend(p, c)), rank);
  }

  lemma CreateTree(fs: Fs, p: Pos, e: Entry, slots: Dir, rank: map<nat, nat>)
    requires Inv(fs) && Enabled(fs, Create(p, e, slots)) && Ranked(fs, rank)
    ensures p.0 in rank && Ranked(Apply(fs, Create(p, e, slots)), rank[e.cluster := rank[p.0] + 1])
  {
    hide Inv, Enabled, Apply, Home;
    var s := Create(p, e, slots);
    var fs' := Apply(fs, s);
    CreateTab(fs, s);
    RootIsDir(fs);
    forall d | d in fs'.tab && d != 0
      ensures Home(fs', d) in fs'.tab && Home(fs', d) != e.cluster
      ensures if d == e.cluster then Home(fs', d) == p.0 else d in fs.tab && Home(fs', d) == Home(fs, d)
    {
      if d in fs.tab {
        StepHome(fs, s, d);
      } else {
        NewDir(fs, s, d);
      }
    }
  }

  lemma CreateTab(fs: Fs, s: Step)
    requires Inv(fs) && Enabled(fs, s) && s.Create?
    ensures s.p.0 in fs.tab && s.e.cluster !in fs.tab && forall d :: d in fs.tab ==> d in Apply(fs, s).tab
  {
    hide Inv, FirstUsable, FreshDir, IsLive;
    FreeNotDir(fs, s.e.cluster);
  }

  lemma RemoveTree(fs: Fs, p: Pos, rank: map<nat, nat>)
    requires Inv(fs) && Enabled(fs, Remove(p)) && Ranked(fs, rank)
    ensures Ranked(Apply(fs, Remove(p)), rank)
  {
    hide Inv, CanDrop, Drop;
    var fs' := Apply(fs, Remove(p));
    forall d | d in fs'.tab
      ensures d in fs.tab && (d != 0 ==> Home(fs', d) == Home(fs, d) && Home(fs, d) in fs'.tab)
    {
      RemoveHome(fs, p, d);
    }
    SameTree(fs, fs', rank);
  }

  lemma RemoveHome(fs: Fs, p: Pos, d: nat)
    requires Inv(fs) && CanDrop(fs, p) && d in Drop(fs, p).tab
    ensures d in fs.tab && (d != 0 ==> Home(Drop(fs, p), d) == Home(fs, d) && Home(fs, d) in Drop(fs, p).tab)
  {
    hide Apart, EntriesOk, Shape, Owners, DirOk, IsChain, Cleared, Flat;
    assert DirOk(fs, d);
    if d != 0 {
      DropDirOwner(fs, p, d);
    }
  }

  /** The directory a rename moves, if it moves one. */
  ghost predicate MovesDir(fs: Fs, s: Step, m: nat) {
    s.Rename? && fs.HasSlot(s.src) && IsDirectory(fs.At(s.src)) && fs.At(s.src).cluster == m
  }

  /** Moving a file, or a directory, changes where that directory's entry is and nothing else of the tree. */
  lemma MoveHome(fs: Fs, s: Step, d: nat)
    requires Inv(fs) && Enabled(fs, s) && s.Rename? && d in fs.tab && d != 0
    ensures Home(Apply(fs, s), d) == if MovesDir(fs, s, d) then s.dst.0 else Home(fs, d)
  {
    hide Inv, IsLive, EntryOk, FirstUsable;
    HomeEntry(fs, d);
    MoveTab(fs, s, d);
    if MovesDir(fs, s, d) {
      HeadOwned(fs, s.src);
    }
  }

  lemma HeadOwned(fs: Fs, p: Pos)
    requires Inv(fs) && p in fs.own && fs.HasSlot(p)
    ensures fs.At(p).cluster in fs.who && fs.who[fs.At(p).cluster].0 == p && 2 <= fs.At(p).cluster
    ensures IsDirectory(fs.At(p)) ==> fs.At(p).cluster in fs.tab
  {
    hide Owners, DirsOk, Shape;
    assert EntryOk(fs, p);
    assert fs.who[fs.own[p][0]] == (p, 0);
  }

  lemma MoveTab(fs: Fs, s: Step, d: nat)
    requires Inv(fs) && Enabled(fs, s) && s.Rename?
    ensures d in Apply(fs, s).tab <==> d in fs.tab
    ensures s.src in fs.own && fs.HasSlot(s.src) && s.dst.0 in fs.tab
  {
    hide Inv, FirstUsable, IsChain, IsLive;
  }

  /** New depths after directory m has gone under directory b: its whole subtree goes along. */
  ghost function Moved(fs: Fs, rank: map<nat, nat>, m: nat, b: nat): map<nat, nat>
    requires b in rank
  {
    map d | d in rank :: if Below(fs, d, m) then rank[d] + rank[b] + 1 else rank[d]
  }

  lemma SelfBelow(fs: Fs, m: nat)
    ensures Below(fs, m, m)
  {
    assert Above(fs, m, 0) == m;
  }

  lemma MoveTree(fs: Fs, s: Step, m: nat, rank: map<nat, nat>)
    requires Inv(fs) && Enabled(fs, s) && Ranked(fs, rank) && MovesDir(fs, s, m) && !Below(fs, s.dst.0, m)
    ensures s.dst.0 in rank && Ranked(Apply(fs, s), Moved(fs, rank, m, s.dst.0))
  {
    hide Inv, Enabled, Apply, Below, Home;
    var fs', b := Apply(fs, s), s.dst.0;
    MoveTab(fs, s, b);
    var rank' := Moved(fs, rank, m, b);
    forall d
      ensures d in fs'.tab <==> d in fs.tab
    {
      MoveTab(fs, s, d);
    }
    forall d | d in fs'.tab && d != 0
      ensures Home(fs', d) in fs'.tab && rank'[Home(fs', d)] < rank'[d]
    {
      MoveHome(fs, s, d);
      if d == m {
        SelfBelow(fs, m);
      } else {
        BelowHome(fs, d, m);
      }
    }
  }

  /** A rename that moves no directory leaves the tree as it is. */
  lemma MoveFileTree(fs: Fs, s: Step, rank: map<nat, nat>)
    requires Inv(fs) && Enabled(fs, s) && Ranked(fs, rank) && s.Rename? && forall m: nat :: !MovesDir(fs, s, m)
    ensures Ranked(Apply(fs, s), rank)
  {
    hide Inv, Enabled, Apply, Home, MovesDir;
    var fs' := Apply(fs, s);
    forall d
      ensures d in fs'.tab <==> d in fs.tab
      ensures d in fs.tab && d != 0 ==> Home(fs', d) == Home(fs, d)
    {
      MoveTab(fs, s, d);
      if d in fs.tab && d != 0 {
        MoveHome(fs, s, d);
      }
    }
    SameTree(fs, fs', rank);
  }

  // ---- Moving a directory into its own subtree -------------------------------------------------------------------

  /** The step moves a directory into its own subtree. */
  ghost predicate SelfMove(fs: Fs, s: Step) {
    exists m: nat :: MovesDir(fs, s, m) && Below(fs, s.dst.0, m)
  }

  /** In the new volume no directory on the old way up from d to m lies deeper than d. */
  lemma {:induction false} WayUp(fs: Fs, s: Step, m: nat, d: nat, n: nat, rank: map<nat, nat>)
    requires Inv(fs) && Enabled(fs, s) && MovesDir(fs, s, m) && d in fs.tab && m != 0 && Above(fs, d, n) == m
    requires Ranked(Apply(fs, s), rank)
    ensures m in rank && d in rank && rank[m] <= rank[d]
    decreases n
  {
    hide Inv, Enabled, Apply, Home;
    MoveTab(fs, s, d);
    if d != m {
      MoveHome(fs, s, d);
      MoveTab(fs, s, Home(fs, d));
      WayUp(fs, s, m, Home(fs, d), n - 1, rank);
    }
  }

  /** A directory moved into its own subtree is cut off from the root for good: no depths fit any more. */
  lemma SelfMoveUproots(fs: Fs, s: Step)
    requires Inv(fs) && Enabled(fs, s) && SelfMove(fs, s)
    ensures !Rooted(Apply(fs, s))
  {
    hide Inv, Enabled, Apply, Home;
    var m: nat :| MovesDir(fs, s, m) && Below(fs, s.dst.0, m);
    var n: nat :| Above(fs, s.dst.0, n) == m;
    MoveTab(fs, s, m);
    HeadOwned(fs, s.src);
    if rank :| Ranked(Apply(fs, s), rank) {
      WayUp(fs, s, m, s.dst.0, n, rank);
      MoveHome(fs, s, m);
      assert false;
    }
  }

  /** Exactly the moves into the own subtree destroy the tree; rename does not look for them. */
  lemma StepRooted(fs: Fs, s: Step)
    requires Inv(fs) && Enabled(fs, s) && Rooted(fs)
    ensures Rooted(Apply(fs, s)) <==> !SelfMove(fs, s)
  {
    hide Inv, Enabled, Apply, Ranked, MovesDir, Below;
    var rank :| Ranked(fs, rank);
    if SelfMove(fs, s) {
      SelfMoveUproots(fs, s);
    } else {
      var rank' := StepRanked(fs, s, rank);
    }
  }

  lemma StepRanked(fs: Fs, s: Step, rank: map<nat, nat>) returns (rank': map<nat, nat>)
    requires Inv(fs) && Enabled(fs, s) && Ranked(fs, rank) && !SelfMove(fs, s)
    ensures Ranked(Apply(fs, s), rank')
  {
    hide Inv, Below;
    rank' := rank;
    match s
    case WriteData(p, i, bytes) =>
      FileNotDir(fs, p, i);
      SameTree(fs, Apply(fs, s), rank);
    case SetSize(p, size) =>
      SameTree(fs, Apply(fs, s), rank);
    case Extend(p, c) =>
      ExtendTree(fs, p, c, rank);
    case Create(p, e, slots) =>
      CreateTree(fs, p, e, slots, rank);
      rank' := rank[e.cluster := rank[p.0] + 1];
    case Remove(p) =>
      RemoveTree(fs, p, rank);
    case Rename(src, dst, e) =>
      if m: nat :| MovesDir(fs, s, m) {
        MoveTree(fs, s, m, rank);
        rank' := Moved(fs, rank, m, dst.0);
      } else {
        MoveFileTree(fs, s, rank);
      }
  }

  // ---- Runs ---------------------------------------------------------------------------------------------------------

  /** No step of the run moves a directory into its own subtree. */
  ghost predicate NoSelfMoves(fs: Fs, ss: seq<Step>)
    requires Inv(fs)
    decreases |ss|
  {
    ss == [] || (Enabled(fs, ss[0]) && !SelfMove(fs, ss[0]) && (StepInv(fs, ss[0]); NoSelfMoves(Apply(fs, ss[0]), ss[1..])))
  }

  lemma {:induction false} RunRooted(fs: Fs, ss: seq<Step>, fs': Fs)
    requires Inv(fs) && Run(fs, ss, fs') && Rooted(fs) && NoSelfMoves(fs, ss)
    ensures Rooted(fs')
    decreases |ss|
  {
    hide Inv, Enabled, Apply, Rooted, SelfMove;
    if ss != [] {
      StepInv(fs, ss[0]);
      StepRooted(fs, ss[0]);
      RunRooted(Apply(fs, ss[0]), ss[1..], fs');
    }
  }

  /** Every live entry of the volume has a name that a path can spell. */
  ghost predicate NamesSpelled(fs: Fs) {
    forall p :: p in fs.own && fs.HasSlot(p) ==> Spelled(GetName(fs.At(p)))
  }

  /** The step brings no name that a path cannot spell. */
  predicate StepSpelled(s: Step) {
    match s
    case Create(_, e, _) => Spelled(GetName(e))
    case Rename(_, _, e) => Spelled(GetName(e))
    case _ => true
  }

  lemma StepNamesSpelled(fs: Fs, s: Step)
    requires Inv(fs) && Enabled(fs, s) && NamesSpelled(fs) && StepSpelled(s)
    ensures NamesSpelled(Apply(fs, s))
  {
    hide Inv, GetName, Spelled, FirstUsable, FreshDir, IsChain, Cleared, Flat, IsLive;
    var fs' := Apply(fs, s);
    forall p | p in fs'.own && fs'.HasSlot(p)
      ensures Spelled(GetName(fs'.At(p)))
    {
      StepEntry(fs, s, p);
    }
  }

  /** An entry after a step is one from before, but for its size, or the one the step brings. */
  lemma StepEntry(fs: Fs, s: Step, p: Pos)
    requires Inv(fs) && Enabled(fs, s) && p in Apply(fs, s).own && Apply(fs, s).HasSlot(p)
    ensures || (p in fs.own && fs.HasSlot(p) && GetName(Apply(fs, s).At(p)) == GetName(fs.At(p)))
            || (s.Create? && p == s.p && Apply(fs, s).At(p) == s.e)
            || (s.Rename? && p == s.dst && Apply(fs, s).At(p) == s.e)
  {
    hide Inv, GetName, FirstUsable, FreshDir, IsChain, Cleared, Flat, IsLive;
    match s
    case WriteData(q, i, bytes) => FileNotDir(fs, q, i);
    case Extend(q, c) => GrowInv(fs, q, c);
    case SetSize(q, size) => SameName(fs.At(q), size);
    case Create(q, e, slots) =>
      if p != q {
        CreateEntry(fs, s, p);
      } else {
        CreateTab(fs, s);
      }
    case Remove(q) => RemoveEntryKept(fs, s, p);
    case Rename(src, dst, e) =>
  }

  lemma CreateEntry(fs: Fs, s: Step, p: Pos)
    requires Inv(fs) && Enabled(fs, s) && s.Create? && p in Apply(fs, s).own && Apply(fs, s).HasSlot(p) && p != s.p
    ensures p in fs.own && fs.HasSlot(p) && Apply(fs, s).At(p) == fs.At(p)
  {
    hide Inv, FirstUsable, FreshDir, IsLive;
    CreateTab(fs, s);
    OwnerSlot(fs, p);
  }

  lemma RemoveEntryKept(fs: Fs, s: Step, p: Pos)
    requires Inv(fs) && Enabled(fs, s) && s.Remove? && p in Apply(fs, s).own && Apply(fs, s).HasSlot(p)
    ensures p in fs.own && fs.HasSlot(p) && Apply(fs, s).At(p) == fs.At(p)
  {
    hide Inv, IsChain, Cleared, Flat, IsLive, EmptyDir;
  }

  ghost predicate SpelledRun(ss: seq<Step>) {
    forall i :: 0 <= i < |ss| ==> StepSpelled(ss[i])
  }

  lemma {:induction false} RunNamesSpelled(fs: Fs, ss: seq<Step>, fs': Fs)
    requires Inv(fs) && Run(fs, ss, fs') && NamesSpelled(fs) && SpelledRun(ss)
    ensures NamesSpelled(fs')
    decreases |ss|
  {
    hide Inv, Enabled, Apply, NamesSpelled, StepSpelled;
    if ss != [] {
      StepInv(fs, ss[0]);
      StepNamesSpelled(fs, ss[0]);
      RunNamesSpelled(Apply(fs, ss[0]), ss[1..], fs');
    }
  }

  lemma {:induction false} PathSpelled(fs: Fs, rank: map<nat, nat>, p: Pos)
    requires Inv(fs) && Ranked(fs, rank) && NamesSpelled(fs) && p in fs.own
    ensures AllSpelled(PathOf(fs, rank, p))
    decreases rank[p.0]
  {
    hide Inv, GetName, Spelled;
    OwnerSlot(fs, p);
    PathStep(fs, rank, p);
    if p.0 != 0 {
      HomeEntry(fs, p.0);
      PathSpelled(fs, rank, fs.who[p.0].0);
    }
  }

  /**
   * Every live entry stays reachable: after any run that brings new names only, each of which a path can
   * spell, and moves no directory into its own subtree, some path leads to each file and directory.
   */
  lemma RunResolvable(fs: Fs, ss: seq<Step>, fs': Fs, p: Pos)
    requires Inv(fs) && Run(fs, ss, fs') && Rooted(fs) && Unique(fs) && NoSelfMoves(fs, ss) && NewNames(fs, ss)
    requires NamesSpelled(fs) && SpelledRun(ss) && p in fs'.own
    ensures Reachable(fs', p)
  {
    hide Inv, Run, Ranked, Unique, NoSelfMoves, NewNames, Resolve, NamesSpelled, SpelledRun, Reachable, AllSpelled,
         PathOf;
    RunInv(fs, ss, fs');
    RunRooted(fs, ss, fs');
    RunUnique(fs, ss, fs');
    RunNamesSpelled(fs, ss, fs');
    var rank :| Ranked(fs', rank);
    PathSpelled(fs', rank, p);
    SpelledReachable(fs', rank, p);
  }

  /** A volume with only a root directory, such as a formatted one, is a tree. */
  lemma RootOnly(fs: Fs)
    requires fs.tab.Keys == {0}
    ensures Rooted(fs) && DotsHome(fs)
  {
    assert Ranked(fs, map[0 := 0]);
  }

  // ---- Where the dot entries lead -----------------------------------------------------------------------------------

  /** The step creates no directory, or one whose dot entries are those init_directory writes. */
  ghost predicate DotsWritten(s: Step) {
    s.Create? && IsDirectory(s.e) ==> DotsLead(s.slots, s.e.cluster, s.p.0)
  }

  lemma DirImageDots(c: u16, parent: u16, size: nat)
    requires 64 <= size
    ensures DotsLead(Entries(DirImage(c, parent, size)), c, parent)
  {
    hide DirImage, Entries;
    DirImageSlots(c, parent, size, 0);
    DirImageSlots(c, parent, size, 1);
  }

  /** The step moves a directory to another directory. */
  ghost predicate MovesAway(fs: Fs, s: Step) {
    s.Rename? && s.src.0 != s.dst.0 && fs.HasSlot(s.src) && IsDirectory(fs.At(s.src))
  }

  /** The first two slots of a directory. */
  ghost predicate SameDots(dir: Dir, dir': Dir) {
    2 <= |dir| && 2 <= |dir'| && dir'[0] == dir[0] && dir'[1] == dir[1]
  }

  lemma PutDots(fs: Fs, p: Pos, e: Entry, d: nat)
    requires fs.HasSlot(p) && !IsDotSlot(p) && d in fs.tab && d != 0 && 2 <= |fs.tab[d]|
    ensures d in fs.Put(p, e).tab && SameDots(fs.tab[d], fs.Put(p, e).tab[d])
  {
  }

  lemma DotsThere(fs: Fs, d: nat)
    requires Inv(fs) && d in fs.tab && d != 0
    ensures 2 <= |fs.tab[d]|
  {
    HomeIsDir(fs, d);
  }

  /** Entries change in slots that are not dot slots, whatever the step. */
  lemma StepSlots(fs: Fs, s: Step, d: nat)
    requires Inv(fs) && Enabled(fs, s) && d in Apply(fs, s).tab && d in fs.tab && d != 0
    ensures SameDots(fs.tab[d], Apply(fs, s).tab[d])
  {
    hide Inv, IsLive, EntryOk, FirstUsable, SameDots, IsDotSlot, FreshDir, IsChain, Cleared, Flat;
    DotsThere(fs, d);
    SameDotsSelf(fs.tab[d]);
    match s
    case WriteData(p, i, bytes) => FileNotDir(fs, p, i);
    case Extend(p, c) => GrowInv(fs, p, c);
    case SetSize(p, size) =>
      OwnerPlaced(fs, p);
      PutDots(fs, p, fs.At(p).(size := size), d);
    case Create(p, e, slots) =>
      UsableIsNew(fs, p);
      FreeNotDir(fs, e.cluster);
      PutDots(fs, p, e, d);
    case Remove(p) =>
      DropsOwner(fs, p);
      PutDots(fs, p, MarkDeleted(fs.At(p)), d);
    case Rename(src, dst, e) => MoveSlots(fs, s, d);
  }

  lemma DropsOwner(fs: Fs, p: Pos)
    requires CanDrop(fs, p)
    ensures fs.HasSlot(p) && !IsDotSlot(p)
  {
    hide IsChain, IsLive;
  }

  lemma SameDotsSelf(dir: Dir)
    requires 2 <= |dir|
    ensures SameDots(dir, dir)
  {
  }

  lemma MoveSlots(fs: Fs, s: Step, d: nat)
    requires Inv(fs) && Enabled(fs, s) && s.Rename? && d in fs.tab && d != 0 && 2 <= |fs.tab[d]|
    ensures d in Apply(fs, s).tab && SameDots(fs.tab[d], Apply(fs, s).tab[d])
  {
    hide Inv, IsLive, EntryOk, FirstUsable, IsDotSlot, IsChain;
    MoveTab(fs, s, d);
    OwnerPlaced(fs, s.src);
    PutDots(fs, s.dst, s.e, d);
    var fs1 := fs.Put(s.dst, s.e);
    PutDots(fs1, s.src, MarkDeleted(fs1.At(s.src)), d);
  }

  /** The entry of a directory stays in its directory, unless the step moves it away. */
  lemma StepHome(fs: Fs, s: Step, d: nat)
    requires Inv(fs) && Enabled(fs, s) && d in Apply(fs, s).tab && d in fs.tab && d != 0
    ensures Home(Apply(fs, s), d) == if MovesDir(fs, s, d) then s.dst.0 else Home(fs, d)
  {
    hide Inv, IsLive, EntryOk, FirstUsable, FreshDir, IsChain, Cleared, Flat, CanDrop, Drop;
    match s
    case WriteData(p, i, bytes) => FileNotDir(fs, p, i);
    case Extend(p, c) =>
      GrowInv(fs, p, c);
      FreeNotDir(fs, c);
    case SetSize(p, size) =>
    case Create(p, e, slots) => FreeNotDir(fs, e.cluster);
    case Remove(p) => RemoveHome(fs, p, d);
    case Rename(src, dst, e) => MoveHome(fs, s, d);
  }

  /** A directory that was not there before is the one the step creates. */
  lemma NewDir(fs: Fs, s: Step, d: nat)
    requires Inv(fs) && Enabled(fs, s) && d in Apply(fs, s).tab && d !in fs.tab
    ensures s.Create? && IsDirectory(s.e) && d == s.e.cluster
    ensures Apply(fs, s).tab[d] == s.slots && Home(Apply(fs, s), d) == s.p.0
  {
    hide Inv, IsLive, EntryOk, FirstUsable, FreshDir, IsChain, Cleared, Flat, CanDrop;
    match s
    case WriteData(p, i, bytes) => FileNotDir(fs, p, i);
    case Extend(p, c) => GrowInv(fs, p, c);
    case SetSize(p, size) =>
    case Create(p, e, slots) =>
    case Remove(p) => RemoveHome(fs, p, d);
    case Rename(src, dst, e) => MoveTab(fs, s, d);
  }

  /** rename leaves ".." as it is, so the dot entries stay right exactly until a directory is moved away. */
  lemma StepDots(fs: Fs, s: Step)
    requires Inv(fs) && Enabled(fs, s) && DotsHome(fs) && DotsWritten(s)
    ensures DotsHome(Apply(fs, s)) <==> !MovesAway(fs, s)
  {
    hide Inv, Enabled, Apply, Home;
    var fs' := Apply(fs, s);
    if MovesAway(fs, s) {
      MovedDots(fs, s);
    } else {
      forall d | d in fs'.tab && d != 0
        ensures DotsLead(fs'.tab[d], d, Home(fs', d))
      {
        if d in fs.tab {
          StepSlots(fs, s, d);
          StepHome(fs, s, d);
          HomeOf(fs, s, d);
        } else {
          NewDir(fs, s, d);
        }
      }
    }
  }

  /** The directory a rename moves was held where the rename took it from. */
  lemma HomeOf(fs: Fs, s: Step, d: nat)
    requires Inv(fs) && Enabled(fs, s)
    ensures MovesDir(fs, s, d) ==> Home(fs, d) == s.src.0
  {
    hide Inv, Enabled;
    if MovesDir(fs, s, d) {
      MoveTab(fs, s, d);
      HeadOwned(fs, s.src);
    }
  }

  lemma MovedDots(fs: Fs, s: Step)
    requires Inv(fs) && Enabled(fs, s) && DotsHome(fs) && MovesAway(fs, s)
    ensures !DotsHome(Apply(fs, s))
  {
    hide Inv, Enabled, Apply, Home;
    var m := fs.At(s.src).cluster;
    MoveTab(fs, s, m);
    HeadOwned(fs, s.src);
    StepSlots(fs, s, m);
    StepHome(fs, s, m);
    HomeOf(fs, s, m);
    assert DotsLead(fs.tab[m], m, Home(fs, m));
    assert !DotsLead(Apply(fs, s).tab[m], m, Home(Apply(fs, s), m));
  }

  /** No step of the run moves a directory to another directory. */
  ghost predicate NoMoves(fs: Fs, ss: seq<Step>)
    requires Inv(fs)
    decreases |ss|
  {
    ss == [] || (Enabled(fs, ss[0]) && DotsWritten(ss[0]) && !MovesAway(fs, ss[0])
                 && (StepInv(fs, ss[0]); NoMoves(Apply(fs, ss[0]), ss[1..])))
  }

  lemma {:induction false} RunDots(fs: Fs, ss: seq<Step>, fs': Fs)
    requires Inv(fs) && Run(fs, ss, fs') && DotsHome(fs) && NoMoves(fs, ss)
    ensures DotsHome(fs')
    decreases |ss|
  {
    hide Inv, Enabled, Apply, DotsHome, MovesAway, DotsWritten;
    if ss != [] {
      StepInv(fs, ss[0]);
      StepDots(fs, ss[0]);
      RunDots(Apply(fs, ss[0]), ss[1..], fs');
    }
  }

  /** The step removes a directory that the ".." of another one still names. */
  ghost predicate LeavesDangling(fs: Fs, s: Step) {
    && s.Remove? && fs.HasSlot(s.p) && IsDirectory(fs.At(s.p))
    && exists d :: d in fs.tab && d != 0 && StillNames(fs, d, fs.At(s.p).cluster)
  }

  /** The ".." of directory d, which is not m, names m. */
  ghost predicate StillNames(fs: Fs, d: nat, m: nat) {
    d in fs.tab && d != m && 2 <= |fs.tab[d]| && fs.tab[d][1].cluster == m
  }

  /**
   * Dot entries go on leading to directories, even when they name one that held the directory once, exactly until
   * such a directory is removed.
   */
  lemma StepLeadsOn(fs: Fs, s: Step)
    requires Inv(fs) && Enabled(fs, s) && DotsLeadOn(fs) && DotsWritten(s)
    ensures DotsLeadOn(Apply(fs, s)) <==> !LeavesDangling(fs, s)
  {
    hide Inv, Enabled, Apply;
    var fs' := Apply(fs, s);
    if LeavesDangling(fs, s) {
      var d :| d in fs.tab && d != 0 && StillNames(fs, d, fs.At(s.p).cluster);
      RemovedTab(fs, s, d);
      StepSlots(fs, s, d);
      RemovedTab(fs, s, fs.At(s.p).cluster);
      assert !(fs'.tab[d][1].cluster in fs'.tab);
    } else {
      forall d | d in fs'.tab && d != 0 && 2 <= |fs'.tab[d]|
        ensures DotsLead(fs'.tab[d], d, fs'.tab[d][1].cluster) && fs'.tab[d][1].cluster in fs'.tab
      {
        StepLead(fs, s, d);
      }
    }
  }

  lemma StepLead(fs: Fs, s: Step, d: nat)
    requires Inv(fs) && Enabled(fs, s) && DotsLeadOn(fs) && DotsWritten(s) && !LeavesDangling(fs, s)
    requires d in Apply(fs, s).tab && d != 0 && 2 <= |Apply(fs, s).tab[d]|
    ensures var fs' := Apply(fs, s);
            DotsLead(fs'.tab[d], d, fs'.tab[d][1].cluster) && fs'.tab[d][1].cluster in fs'.tab
  {
    hide Inv, Enabled, Apply;
    if d in fs.tab {
      StepSlots(fs, s, d);
      var up := fs.tab[d][1].cluster;
      assert DotsLead(fs.tab[d], d, up) && up in fs.tab;
      if s.Remove? {
        RemovedTab(fs, s, d);
        RemovedTab(fs, s, up);
        assert IsDirectory(fs.At(s.p)) && up == fs.At(s.p).cluster ==> StillNames(fs, d, up);
      } else {
        TabGrows(fs, s, up);
      }
    } else {
      NewDir(fs, s, d);
      CreateTab(fs, s);
    }
  }

  lemma RemovedTab(fs: Fs, s: Step, d: nat)
    requires Inv(fs) && Enabled(fs, s) && s.Remove?
    ensures fs.HasSlot(s.p)
    ensures d in Apply(fs, s).tab <==> d in fs.tab && !(IsDirectory(fs.At(s.p)) && d == fs.At(s.p).cluster)
  {
    hide Inv, Cleared, Flat, IsLive, IsChain, EmptyDir;
  }

  lemma TabGrows(fs: Fs, s: Step, d: nat)
    requires Inv(fs) && Enabled(fs, s) && !s.Remove? && d in fs.tab
    ensures d in Apply(fs, s).tab
  {
    hide Inv, IsLive, EntryOk, FirstUsable, FreshDir, IsChain, Cleared, Flat;
    match s
    case WriteData(p, i, bytes) => FileNotDir(fs, p, i);
    case Extend(p, c) => GrowInv(fs, p, c);
    case SetSize(p, size) =>
    case Create(p, e, slots) => CreateTab(fs, s);
    case Rename(src, dst, e) => MoveTab(fs, s, d);
  }

  /** It happens: a directory is moved away, and then the one that held it is removed. */
  lemma MoveThenRemove(fs: Fs, s: Step, p: Pos)
    requires Inv(fs) && Enabled(fs, s) && DotsHome(fs) && MovesAway(fs, s) && Inv(Apply(fs, s))
    requires Enabled(Apply(fs, s), Remove(p)) && Apply(fs, s).HasSlot(p) && IsDirectory(Apply(fs, s).At(p))
    requires Apply(fs, s).At(p).cluster == s.src.0 != fs.At(s.src).cluster
    ensures LeavesDangling(Apply(fs, s), Remove(p))
  {
    hide Inv, Enabled, Apply, Home;
    var m := fs.At(s.src).cluster;
    MoveTab(fs, s, m);
    HeadOwned(fs, s.src);
    StepSlots(fs, s, m);
    HomeOf(fs, s, m);
    assert DotsLead(fs.tab[m], m, Home(fs, m));
    assert StillNames(Apply(fs, s), m, s.src.0);
  }

  /** No step of the run removes a directory that a ".." still names. */
  ghost predicate NoDangling(fs: Fs, ss: seq<Step>)
    requires Inv(fs)
    decreases |ss|
  {
    ss == [] || (Enabled(fs, ss[0]) && DotsWritten(ss[0]) && !LeavesDangling(fs, ss[0])
                 && (StepInv(fs, ss[0]); NoDangling(Apply(fs, ss[0]), ss[1..])))
  }

  lemma {:induction false} RunLeadsOn(fs: Fs, ss: seq<Step>, fs': Fs)
    requires Inv(fs) && Run(fs, ss, fs') && DotsLeadOn(fs) && NoDangling(fs, ss)
    ensures DotsLeadOn(fs')
    decreases |ss|
  {
    hide Inv, Enabled, Apply, DotsLeadOn, LeavesDangling, DotsWritten;
    if ss != [] {
      StepInv(fs, ss[0]);
      StepLeadsOn(fs, ss[0]);
      RunLeadsOn(Apply(fs, ss[0]), ss[1..], fs');
    }
  }
}
