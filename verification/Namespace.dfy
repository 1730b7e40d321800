/**
 * Paths and names: how a path leads to a directory slot, why lookup by early break is lookup by full
 * scan, and what keeps names unique.
 */
module Namespace {
  import opened Bytes
  import opened Names
  import opened Directory
  import opened FileSystem
  import opened FileRuns

  /** find_entry from directory d on: every component but the last must name a directory. */
  ghost function Resolve(tab: map<nat, Dir>, d: nat, names: seq<seq<byte>>): (r: Result<Pos>)
    ensures r.Ok? ==> r.value.0 in tab && r.value.1 < |tab[r.value.0]|
    decreases |names|
  {
    if names == [] then Err(InvalidName)
    else if d !in tab then Err(IOError)
    else
      var i := Lookup(tab[d], names[0], 0);
      if i == |tab[d]| then Err(NotFound)
      else if |names| == 1 then Ok((d, i))
      else if !IsDirectory(tab[d][i]) then Err(NotFound)
      else Resolve(tab, tab[d][i].cluster, names[1..])
  }

  predicate IsDotName(name: seq<byte>) {
    name == DOT_NAME || name == DOTDOT_NAME
  }

  /** No component is "." or "..". */
  predicate Plain(names: seq<seq<byte>>) {
    DOT_NAME !in names && DOTDOT_NAME !in names
  }

  lemma FoundSlot(dir: Dir, name: seq<byte>)
    ensures var i := Lookup(dir, name, 0); i < |dir| ==> Named(dir, i, name) && IsLive(dir[i])
  {
    hide GetName;
  }

  lemma FoundNotDot(dir: Dir, name: seq<byte>)
    requires DotsFormed(dir) && !IsDotName(name) && Lookup(dir, name, 0) < |dir|
    ensures Lookup(dir, name, 0) >= 2
  {
    hide GetName;
  }

  lemma FoundIsOwner(fs: Fs, d: nat, name: seq<byte>)
    requires Inv(fs) && d in fs.tab && (d == 0 || !IsDotName(name))
    ensures var i := Lookup(fs.tab[d], name, 0);
            i < |fs.tab[d]| ==> (d, i) in fs.own && EntryOk(fs, (d, i))
  {
    hide Named, Tidy, IsChain, Apart, Shape, EntryOk, Lookup, DotsFormed;
    assert DirOk(fs, d);
    FoundSlot(fs.tab[d], name);
    var i := Lookup(fs.tab[d], name, 0);
    if i < |fs.tab[d]| {
      if d != 0 {
        FoundNotDot(fs.tab[d], name);
      }
      assert IsOwner(fs, (d, i));
    }
  }

  // ---- The dot entries -----------------------------------------------------------------------------

  /** The directory that holds the entry of directory d. */
  ghost function Home(fs: Fs, d: nat): nat {
    if d in fs.who then fs.who[d].0.0 else 0
  }

  /** "." names the directory itself, and ".." the given one. */
  predicate DotsLead(dir: Dir, d: nat, up: nat) {
    && 2 <= |dir| && IsDirectory(dir[0]) && dir[0].cluster == d && IsDirectory(dir[1]) && dir[1].cluster == up
  }

  /** The dot entries of every directory lead where they should. */
  ghost predicate DotsHome(fs: Fs) {
    forall d :: d in fs.tab && d != 0 ==> DotsLead(fs.tab[d], d, Home(fs, d))
  }

  /** "." names the directory itself, and ".." some directory, be it the one that holds it or the one that did once. */
  ghost predicate DotsLeadOn(fs: Fs) {
    forall d :: d in fs.tab && d != 0 && 2 <= |fs.tab[d]| ==>
      DotsLead(fs.tab[d], d, fs.tab[d][1].cluster) && fs.tab[d][1].cluster in fs.tab
  }

  lemma HomeLeadsOn(fs: Fs)
    requires Inv(fs) && DotsHome(fs)
    ensures DotsLeadOn(fs)
  {
    hide Inv;
    forall d | d in fs.tab && d != 0 && 2 <= |fs.tab[d]|
      ensures DotsLead(fs.tab[d], d, fs.tab[d][1].cluster) && fs.tab[d][1].cluster in fs.tab
    {
      HomeIsDir(fs, d);
      assert DotsLead(fs.tab[d], d, Home(fs, d));
    }
  }

  /** The paths the model follows: those without "." and "..", and all others while no dot entry is left dangling. */
  ghost predicate Walks(fs: Fs, names: seq<seq<byte>>) {
    Plain(names) || DotsLeadOn(fs)
  }

  predicate LastPlain(names: seq<seq<byte>>) {
    names != [] ==> !IsDotName(names[|names| - 1])
  }

  /** An entry that owns a chain, or a dot entry that leads to a directory. */
  ghost predicate Settled(fs: Fs, p: Pos) {
    p in fs.own || (fs.HasSlot(p) && IsDotSlot(p) && IsDirectory(fs.At(p)) && fs.At(p).cluster in fs.tab)
  }

  lemma FoundDot(fs: Fs, d: nat, name: seq<byte>)
    requires Inv(fs) && DotsLeadOn(fs) && d in fs.tab && d != 0 && IsDotName(name)
    ensures Settled(fs, (d, Lookup(fs.tab[d], name, 0)))
  {
    hide Inv, GetName;
    HomeIsDir(fs, d);
    assert 2 <= |fs.tab[d]|;
    assert DotsLead(fs.tab[d], d, fs.tab[d][1].cluster);
    assert Named(fs.tab[d], 0, DOT_NAME) && Named(fs.tab[d], 1, DOTDOT_NAME);
  }

  lemma HomeIsDir(fs: Fs, d: nat)
    requires Inv(fs) && d in fs.tab && d != 0
    ensures Home(fs, d) in fs.tab && DotsFormed(fs.tab[d])
  {
    hide Tidy, DotsFormed;
    assert DirOk(fs, d);
  }

  lemma Found(fs: Fs, d: nat, name: seq<byte>)
    requires Inv(fs) && d in fs.tab && (IsDotName(name) ==> DotsLeadOn(fs))
    ensures var i := Lookup(fs.tab[d], name, 0);
            i < |fs.tab[d]| ==> Settled(fs, (d, i)) && (!IsDotName(name) ==> (d, i) in fs.own)
  {
    hide Inv, Lookup, DotsLeadOn, EntryOk;
    if d != 0 && IsDotName(name) {
      FoundDot(fs, d, name);
    } else {
      FoundIsOwner(fs, d, name);
    }
  }

  /** An entry whose first cluster holds a directory is a directory entry. */
  lemma ParentIsDir(fs: Fs, p: Pos)
    requires Inv(fs) && Settled(fs, p)
    ensures fs.HasSlot(p) && (fs.At(p).cluster in fs.tab <==> IsDirectory(fs.At(p)))
  {
    if p in fs.own {
      assert EntryOk(fs, p);
      if !IsDirectory(fs.At(p)) {
        FileNotDir(fs, p, 0);
      }
    }
  }

  /** A resolved path is a live entry that owns a chain, or ends in a dot and leads to a directory. */
  lemma {:induction false} ResolveOwner(fs: Fs, d: nat, names: seq<seq<byte>>)
    requires Inv(fs) && d in fs.tab && Walks(fs, names)
    ensures var r := Resolve(fs.tab, d, names);
            if r.Ok? then Settled(fs, r.value) && (LastPlain(names) ==> r.value in fs.own)
            else r.error in {NotFound, InvalidName}
    decreases |names|
  {
    hide Inv, Lookup, DotsLeadOn;
    if names != [] {
      assert IsDotName(names[0]) ==> DotsLeadOn(fs);
      Found(fs, d, names[0]);
      var i := Lookup(fs.tab[d], names[0], 0);
      if i < |fs.tab[d]| && |names| > 1 && IsDirectory(fs.tab[d][i]) {
        ParentIsDir(fs, (d, i));
        ResolveOwner(fs, fs.tab[d][i].cluster, names[1..]);
      }
    }
  }

  /** Resolving a path is resolving its parent and looking the last name up in that directory. */
  lemma {:induction false} ResolveLast(tab: map<nat, Dir>, d: nat, names: seq<seq<byte>>, last: seq<byte>)
    requires names != []
    ensures Resolve(tab, d, names + [last])
         == var parent := Resolve(tab, d, names);
            if parent.Err? then parent
            else if !IsDirectory(tab[parent.value.0][parent.value.1]) then Err(NotFound)
            else Resolve(tab, tab[parent.value.0][parent.value.1].cluster, [last])
    decreases |names|
  {
    var all := names + [last];
    assert all[0] == names[0] && all[1..] == names[1..] + [last];
    if d in tab {
      var i := Lookup(tab[d], names[0], 0);
      if i < |tab[d]| {
        if |names| == 1 {
          assert all[1..] == [last];
        } else if IsDirectory(tab[d][i]) {
          ResolveLast(tab, tab[d][i].cluster, names[1..], last);
        }
      }
    }
  }

  /** The cluster of the directory that create and rename write the new entry to. */
  ghost function ParentCluster(tab: map<nat, Dir>, parent: seq<byte>): Result<nat> {
    if parent == [] || parent == [SLASH] then Ok(0)
    else
      var p := Resolve(tab, 0, Components(parent));
      if p.Err? then Err(p.error) else Ok(tab[p.value.0][p.value.1].cluster)
  }

  /**
   * If a path does not resolve although its parent is a directory, the name is not in that
   * directory: the check that create and rename rely on is exact.
   */
  lemma AbsentInParent(fs: Fs, path: seq<byte>)
    requires Inv(fs) && Walks(fs, Components(path)) && SplitPath(path).1 != []
    requires Resolve(fs.tab, 0, Components(path)).Err?
    ensures var parent := ParentCluster(fs.tab, SplitPath(path).0);
            parent.Ok? && parent.value in fs.tab ==>
              Lookup(fs.tab[parent.value], SplitPath(path).1, 0) == |fs.tab[parent.value]|
  {
    hide Inv, Components, Lookup, GetName, RFind, IsChain;
    var (parent, name) := SplitPath(path);
    PathComponents(path);
    RootIsDir(fs);
    var d := ParentCluster(fs.tab, parent);
    if d.Ok? && d.value in fs.tab {
      if parent == [] || parent == [SLASH] {
        RootComponents(parent);
        assert Components(path) == [name];
        assert Resolve(fs.tab, 0, [name]).Err?;
      } else {
        var names := Components(parent);
        ResolveOwner(fs, 0, names);
        ResolveLast(fs.tab, 0, names, name);
        ParentIsDir(fs, Resolve(fs.tab, 0, names).value);
      }
    }
  }

  lemma RootIsDir(fs: Fs)
    requires Inv(fs)
    ensures 0 in fs.tab
  {
  }

  lemma RootComponents(parent: seq<byte>)
    requires parent == [] || parent == [SLASH]
    ensures Components(parent) == []
  {
    if parent == [] {
      ComponentsPlain([]);
    } else {
      ComponentsPlain([]);
      ComponentsStep([], []);
      assert [] + [SLASH] + [] == parent;
    }
  }

  // ---- Unique names ------------------------------------------------------------------------------

  ghost predicate Unique(fs: Fs) {
    forall d :: d in fs.tab ==> UniqueNames(fs.tab[d])
  }

  /** The step brings no name that its directory already has. */
  ghost predicate NewName(fs: Fs, s: Step) {
    match s
    case Create(p, e, _) => p.0 in fs.tab && Lookup(fs.tab[p.0], GetName(e), 0) == |fs.tab[p.0]|
    case Rename(_, dst, e) => dst.0 in fs.tab && Lookup(fs.tab[dst.0], GetName(e), 0) == |fs.tab[dst.0]|
    case _ => true
  }

  lemma FreshUnique(slots: Dir, spc: nat)
    requires FreshDir(slots, spc)
    ensures UniqueNames(slots)
  {
    hide GetName, Tidy;
  }

  lemma SameName(e: Entry, size: u32)
    ensures GetName(e.(size := size)) == GetName(e)
  {
  }

  lemma PutUniqueAll(fs: Fs, p: Pos, e: Entry)
    requires Unique(fs) && fs.HasSlot(p)
    requires IsLive(e) ==> Lookup(fs.tab[p.0], GetName(e), 0) == |fs.tab[p.0]| || Named(fs.tab[p.0], p.1, GetName(e))
    ensures Unique(fs.Put(p, e))
  {
    hide UniqueNames, GetName;
    PutUnique(fs.tab[p.0], p.1, e);
  }

  lemma StepUnique(fs: Fs, s: Step)
    requires Inv(fs) && Enabled(fs, s) && Unique(fs) && NewName(fs, s)
    ensures Unique(Apply(fs, s))
  {
    hide Inv, UniqueNames, GetName, Tidy, DotsFormed, IsChain;
    match s
    case WriteData(p, i, bytes) => FileNotDir(fs, p, i);
    case Extend(p, c) => GrowInv(fs, p, c);
    case SetSize(p, size) =>
      OwnerPlaced(fs, p);
      SameName(fs.At(p), size);
      PutUniqueAll(fs, p, fs.At(p).(size := size));
    case Create(p, e, slots) =>
      PutUniqueAll(fs, p, e);
      if IsDirectory(e) {
        FreshUnique(slots, fs.g.spc);
      }
    case Remove(p) =>
      OwnerPlaced(fs, p);
      PutUniqueAll(fs, p, MarkDeleted(fs.At(p)));
    case Rename(src, dst, e) =>
      PutUniqueAll(fs, dst, e);
      var fs1 := fs.Put(dst, e);
      PutUniqueAll(fs1, src, MarkDeleted(fs1.At(src)));
  }

  ghost predicate NewNames(fs: Fs, ss: seq<Step>)
    requires Inv(fs)
    decreases |ss|
  {
    ss == [] || (Enabled(fs, ss[0]) && NewName(fs, ss[0]) && (StepInv(fs, ss[0]); NewNames(Apply(fs, ss[0]), ss[1..])))
  }

  /** Names stay unique in every directory over every run that checks before it creates. */
  lemma {:induction false} RunUnique(fs: Fs, ss: seq<Step>, fs': Fs)
    requires Inv(fs) && Run(fs, ss, fs') && Unique(fs) && NewNames(fs, ss)
    ensures Unique(fs')
    decreases |ss|
  {
    if ss != [] {
      StepInv(fs, ss[0]);
      StepUnique(fs, ss[0]);
      RunUnique(Apply(fs, ss[0]), ss[1..], fs');
    }
  }
}
