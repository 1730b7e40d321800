/**
 * A directory as a byte string of 32-byte slots: lookup with the early break of find_entry_in_dir,
 * the slot write_dir_entry picks, and how writing one slot affects both.
 */
module Directory {
  import opened Bytes
  import opened Names

  const ENTRIES_PER_SECTOR := 16

  type Dir = seq<Entry>

  /** The slots of a directory region. */
  function Entries(bytes: seq<byte>): (r: Dir)
    ensures |r| == |bytes| / 32
  {
    seq(|bytes| / 32, i requires 0 <= i < |bytes| / 32 => Decode(bytes[32 * i..32 * i + 32]))
  }

  /** Writing 32 bytes at a slot boundary changes that slot only. */
  lemma EntriesPut(bytes: seq<byte>, i: nat, b: seq<byte>)
    requires i < |bytes| / 32 && |b| == 32
    ensures Entries(Splice(bytes, 32 * i, b)) == Entries(bytes)[i := Decode(b)]
  {
    var bytes' := Splice(bytes, 32 * i, b);
    forall j | 0 <= j < |bytes| / 32
      ensures bytes'[32 * j..32 * j + 32] == if i == j then b else bytes[32 * j..32 * j + 32]
    {
    }
  }

  /** The bytes of a directory: the inverse of Entries. */
  function Flat(dir: Dir): (r: seq<byte>)
    ensures |r| == 32 * |dir|
  {
    seq(32 * |dir|, k requires 0 <= k < 32 * |dir| => Encode(dir[k / 32])[k % 32])
  }

  lemma FlatEntries(bytes: seq<byte>)
    requires |bytes| % 32 == 0
    ensures Flat(Entries(bytes)) == bytes
  {
    hide Encode, Decode;
    var r := Flat(Entries(bytes));
    forall k | 0 <= k < |bytes|
      ensures r[k] == bytes[k]
    {
      var i, j := k / 32, k % 32;
      var b := bytes[32 * i..32 * i + 32];
      EncodeDecode(b);
      assert r[k] == Encode(Decode(b))[j] == b[j] == bytes[32 * i + j];
    }
  }

  predicate Named(dir: Dir, i: nat, name: seq<byte>)
    requires i < |dir|
  {
    IsLive(dir[i]) && GetName(dir[i]) == name
  }

  /** The first live slot from i on with the given name, or the number of slots: a full scan. */
  function Lookup(dir: Dir, name: seq<byte>, i: nat): (r: nat)
    requires i <= |dir|
    ensures i <= r <= |dir|
    ensures r < |dir| ==> Named(dir, r, name)
    ensures forall j :: i <= j < r ==> !Named(dir, j, name)
    decreases |dir| - i
  {
    if i == |dir| || Named(dir, i, name) then i else Lookup(dir, name, i + 1)
  }

  function NextSector(i: nat): nat {
    (i / ENTRIES_PER_SECTOR + 1) * ENTRIES_PER_SECTOR
  }

  /** What find_entry_in_dir computes: a never-used slot ends the scan of its sector. */
  function EarlyFind(dir: Dir, name: seq<byte>, i: nat): (r: nat)
    requires i <= |dir| && |dir| % ENTRIES_PER_SECTOR == 0
    ensures i <= r <= |dir|
    decreases |dir| - i
  {
    if i == |dir| then i
    else if IsFree(dir[i]) then EarlyFind(dir, name, NextSector(i))
    else if Named(dir, i, name) then i
    else EarlyFind(dir, name, i + 1)
  }

  /** The scan of one sector: the first slot from i on with the name, unless a never-used slot comes first. */
  function SectorFind(dir: Dir, name: seq<byte>, i: nat): (r: nat)
    requires i <= |dir|
    ensures i <= r <= |dir|
    ensures r < |dir| ==> Named(dir, r, name)
    decreases |dir| - i
  {
    if i == |dir| || IsFree(dir[i]) then |dir|
    else if Named(dir, i, name) then i
    else SectorFind(dir, name, i + 1)
  }

  lemma NextSectorIs(s: nat, i: nat)
    requires i < ENTRIES_PER_SECTOR
    ensures NextSector(ENTRIES_PER_SECTOR * s + i) == ENTRIES_PER_SECTOR * s + ENTRIES_PER_SECTOR
  {
  }

  lemma SameNamed(a: Dir, i: nat, b: Dir, j: nat, name: seq<byte>)
    requires i < |a| && j < |b| && a[i] == b[j]
    ensures Named(a, i, name) == Named(b, j, name)
  {
  }

  lemma {:induction false} EarlyFindSector(dir: Dir, name: seq<byte>, s: nat, i: nat)
    requires |dir| % ENTRIES_PER_SECTOR == 0 && ENTRIES_PER_SECTOR * s < |dir| && i <= ENTRIES_PER_SECTOR
    ensures var at := ENTRIES_PER_SECTOR * s;
            var k := SectorFind(dir[at..at + ENTRIES_PER_SECTOR], name, i);
            EarlyFind(dir, name, at + i)
              == if k < ENTRIES_PER_SECTOR then at + k else EarlyFind(dir, name, at + ENTRIES_PER_SECTOR)
    decreases ENTRIES_PER_SECTOR - i
  {
    hide GetName, Named, IsFree, NextSector;
    var at := ENTRIES_PER_SECTOR * s;
    var sector := dir[at..at + ENTRIES_PER_SECTOR];
    if i < ENTRIES_PER_SECTOR {
      assert sector[i] == dir[at + i];
      assert Named(sector, i, name) == Named(dir, at + i, name) by { SameNamed(sector, i, dir, at + i, name); }
      NextSectorIs(s, i);
      if !IsFree(sector[i]) && !Named(sector, i, name) {
        EarlyFindSector(dir, name, s, i + 1);
      }
    }
  }

  /** In each sector the never-used slots come last. */
  ghost predicate Tidy(dir: Dir) {
    forall i, j | 0 <= i < j < |dir| && i / ENTRIES_PER_SECTOR == j / ENTRIES_PER_SECTOR ::
      IsFree(dir[i]) ==> IsFree(dir[j])
  }

  lemma LookupSkips(dir: Dir, name: seq<byte>, i: nat, k: nat)
    requires i <= k <= |dir|
    requires forall j :: i <= j < k ==> IsFree(dir[j])
    ensures Lookup(dir, name, i) == Lookup(dir, name, k)
    decreases k - i
  {
    if i < k {
      LookupSkips(dir, name, i + 1, k);
    }
  }

  /** The early break loses nothing in a tidy directory. */
  lemma {:induction false} EarlyFindIsLookup(dir: Dir, name: seq<byte>, i: nat)
    requires Tidy(dir) && i <= |dir| && |dir| % ENTRIES_PER_SECTOR == 0
    ensures EarlyFind(dir, name, i) == Lookup(dir, name, i)
    decreases |dir| - i
  {
    if i == |dir| {
    } else if IsFree(dir[i]) {
      LookupSkips(dir, name, i, NextSector(i));
      EarlyFindIsLookup(dir, name, NextSector(i));
    } else if !Named(dir, i, name) {
      EarlyFindIsLookup(dir, name, i + 1);
    }
  }

  /** The scan of is_directory_empty over one sector. */
  function NoEntries(dir: Dir, i: nat): bool
    requires i <= |dir|
    decreases |dir| - i
  {
    if i == |dir| || IsFree(dir[i]) then true
    else if !IsDeleted(dir[i]) && GetName(dir[i]) != DOT_NAME && GetName(dir[i]) != DOTDOT_NAME then false
    else NoEntries(dir, i + 1)
  }

  /** In a tidy sector the scan is exact: it passes when every live entry is a dot entry. */
  lemma {:induction false} NoEntriesMeans(dir: Dir, i: nat)
    requires i <= |dir| <= ENTRIES_PER_SECTOR && Tidy(dir)
    ensures NoEntries(dir, i) <==> forall j :: i <= j < |dir| && IsLive(dir[j]) ==> GetName(dir[j]) in {DOT_NAME, DOTDOT_NAME}
    decreases |dir| - i
  {
    hide GetName;
    if i < |dir| && !IsFree(dir[i]) {
      NoEntriesMeans(dir, i + 1);
    }
  }

  /** The first slot from i on that is free or deleted, or the number of slots. */
  function FirstUsable(dir: Dir, i: nat): (r: nat)
    requires i <= |dir|
    ensures i <= r <= |dir|
    ensures r < |dir| ==> !IsLive(dir[r])
    decreases |dir| - i
  {
    if i == |dir| || !IsLive(dir[i]) then i else FirstUsable(dir, i + 1)
  }

  lemma {:induction false} FirstUsableIsFirst(dir: Dir, i: nat, j: nat)
    requires i <= |dir| && i <= j < FirstUsable(dir, i)
    ensures IsLive(dir[j])
    decreases j - i
  {
    if i < j {
      FirstUsableIsFirst(dir, i + 1, j);
    }
  }

  lemma {:induction false} FirstUsableSector(dir: Dir, at: nat, i: nat, n: nat)
    requires at + n <= |dir| && i <= n
    ensures var k := FirstUsable(dir[at..at + n], i);
            FirstUsable(dir, at + i) == if k < n then at + k else FirstUsable(dir, at + n)
    decreases n - i
  {
    if i < n {
      assert dir[at..at + n][i] == dir[at + i];
      if IsLive(dir[at + i]) {
        FirstUsableSector(dir, at, i + 1, n);
      }
    }
  }

  /** Writing a used entry (live or deleted) over a used slot, or over the first usable one, keeps a directory tidy. */
  lemma PutTidy(dir: Dir, i: nat, e: Entry)
    requires Tidy(dir) && i < |dir| && !IsFree(e)
    requires !IsFree(dir[i]) || i == FirstUsable(dir, 0)
    ensures Tidy(dir[i := e])
  {
    var dir' := dir[i := e];
    forall j, k | 0 <= j < k < |dir'| && j / ENTRIES_PER_SECTOR == k / ENTRIES_PER_SECTOR && IsFree(dir'[j])
      ensures IsFree(dir'[k])
    {
      if k == i && IsFree(dir[i]) {
        FirstUsableIsFirst(dir, 0, j);
      }
    }
  }

  // ---- Storing an entry that does not read as live ---------------------------------------------------

  /** A never-used slot at i would end the scan of its sector before a live slot that a full scan finds first. */
  ghost predicate Hides(dir: Dir, i: nat) {
    exists j :: i < j < |dir| && j < NextSector(i) && FoundAt(dir, j)
  }

  /** Slot j is live, and the first one of its name. */
  predicate FoundAt(dir: Dir, j: nat)
    requires j < |dir|
  {
    IsLive(dir[j]) && Lookup(dir, GetName(dir[j]), 0) == j
  }

  lemma {:induction false} LookupFrom(dir: Dir, name: seq<byte>, k: nat)
    requires k <= |dir|
    ensures var r := Lookup(dir, name, 0);
            r < k || r == Lookup(dir, name, k)
    decreases k
  {
    if k > 0 {
      LookupFrom(dir, name, k - 1);
    }
  }

  /** Behind slot i nothing has changed. */
  lemma {:induction false} EarlyFindBehind(dir: Dir, i: nat, e: Entry, name: seq<byte>, k: nat)
    requires |dir| % ENTRIES_PER_SECTOR == 0 && i < k <= |dir|
    ensures EarlyFind(dir[i := e], name, k) == EarlyFind(dir, name, k)
    decreases |dir| - k
  {
    hide GetName;
    if k < |dir| {
      assert dir[i := e][k] == dir[k];
      assert Named(dir[i := e], k, name) == Named(dir, k, name);
      if IsFree(dir[k]) {
        EarlyFindBehind(dir, i, e, name, NextSector(k));
      } else if !Named(dir, k, name) {
        EarlyFindBehind(dir, i, e, name, k + 1);
      }
    }
  }

  /** A scan that meets live slots only, up to a never-used one at i, goes on in the next sector. */
  lemma {:induction false} EarlyFindJumps(dir: Dir, i: nat, name: seq<byte>, k: nat)
    requires |dir| % ENTRIES_PER_SECTOR == 0 && k <= i < |dir| && IsFree(dir[i])
    requires forall j :: k <= j < i ==> IsLive(dir[j])
    ensures EarlyFind(dir, name, k) ==
            if Lookup(dir, name, k) < i then Lookup(dir, name, k) else EarlyFind(dir, name, NextSector(i))
    decreases i - k
  {
    hide GetName, NextSector;
    if k < i && !Named(dir, k, name) {
      EarlyFindJumps(dir, i, name, k + 1);
    }
  }

  /** The first lookup of a name that stands before i does not depend on slot i. */
  lemma {:induction false} LookupBefore(dir: Dir, i: nat, e: Entry, name: seq<byte>, k: nat)
    requires k <= i < |dir| && !IsLive(dir[i]) && !IsLive(e)
    ensures Lookup(dir[i := e], name, k) == Lookup(dir, name, k)
    decreases |dir| - k
  {
    hide GetName;
    assert Named(dir[i := e], k, name) == Named(dir, k, name);
    if !Named(dir, k, name) {
      if k < i {
        LookupBefore(dir, i, e, name, k + 1);
      } else {
        LookupBehind(dir, i, e, name, k + 1);
      }
    }
  }

  lemma {:induction false} LookupBehind(dir: Dir, i: nat, e: Entry, name: seq<byte>, k: nat)
    requires i < k <= |dir|
    ensures Lookup(dir[i := e], name, k) == Lookup(dir, name, k)
    decreases |dir| - k
  {
    hide GetName;
    if k < |dir| {
      assert Named(dir[i := e], k, name) == Named(dir, k, name);
      if !Named(dir, k, name) {
        LookupBehind(dir, i, e, name, k + 1);
      }
    }
  }

  /** Storing e in slot i leaves the never-used slots of its sector last. */
  predicate StaysTidy(dir: Dir, i: nat, e: Entry) {
    IsFree(e) ==> forall j :: i < j < |dir| && j < NextSector(i) ==> IsFree(dir[j])
  }

  lemma StaysTidyExactly(dir: Dir, i: nat, e: Entry)
    requires Tidy(dir) && i == FirstUsable(dir, 0) < |dir|
    ensures Tidy(dir[i := e]) <==> StaysTidy(dir, i, e)
  {
    hide FirstUsable;
    var dir' := dir[i := e];
    if !IsFree(e) {
      PutTidy(dir, i, e);
    } else if StaysTidy(dir, i, e) {
      forall j, k | 0 <= j < k < |dir'| && j / ENTRIES_PER_SECTOR == k / ENTRIES_PER_SECTOR && IsFree(dir'[j])
        ensures IsFree(dir'[k])
      {
        if k != i && j != i {
          assert IsFree(dir[j]);
        }
      }
    } else {
      var j :| i < j < |dir| && j < NextSector(i) && !IsFree(dir[j]);
      assert IsFree(dir'[i]) && !IsFree(dir'[j]) && i / ENTRIES_PER_SECTOR == j / ENTRIES_PER_SECTOR;
    }
  }

  /** What find_entry_in_dir finds for one name after an entry that does not read as live went to the first usable slot. */
  lemma DeadFind(dir: Dir, i: nat, e: Entry, name: seq<byte>)
    requires |dir| % ENTRIES_PER_SECTOR == 0 && Tidy(dir) && i == FirstUsable(dir, 0) < |dir| && !IsLive(e)
    ensures var r := Lookup(dir, name, 0);
            && EarlyFind(dir, name, 0) == r && NextSector(i) <= |dir|
            && EarlyFind(dir[i := e], name, 0)
               == if IsFree(e) && i < r < NextSector(i) then Lookup(dir, name, NextSector(i)) else r
  {
    hide GetName, FirstUsable, Lookup, EarlyFind;
    EarlyFindIsLookup(dir, name, 0);
    LookupBefore(dir, i, e, name, 0);
    var dir' := dir[i := e];
    SectorInside(dir, i);
    if IsFree(e) {
      forall j | 0 <= j < i
        ensures IsLive(dir'[j])
      {
        FirstUsableIsFirst(dir, 0, j);
      }
      EarlyFindJumps(dir', i, name, 0);
      EarlyFindBehind(dir, i, e, name, NextSector(i));
      EarlyFindIsLookup(dir, name, NextSector(i));
      LookupFrom(dir, name, NextSector(i));
      LookupLive(dir, name, i);
    } else {
      PutTidy(dir, i, e);
      EarlyFindIsLookup(dir', name, 0);
    }
  }

  lemma SectorInside(dir: Dir, i: nat)
    requires |dir| % ENTRIES_PER_SECTOR == 0 && i < |dir|
    ensures i < NextSector(i) <= |dir|
  {
  }

  lemma LookupLive(dir: Dir, name: seq<byte>, i: nat)
    requires i < |dir| && !IsLive(dir[i])
    ensures Lookup(dir, name, 0) != i
  {
  }

  /**
   * Such an entry leaves every name where it was found exactly when it does not read as a never-used slot
   * before a live one of its sector that was found; its own name is not found either way.
   */
  lemma DeadStore(dir: Dir, i: nat, e: Entry)
    requires |dir| % ENTRIES_PER_SECTOR == 0 && Tidy(dir) && i == FirstUsable(dir, 0) < |dir| && !IsLive(e)
    ensures (forall name :: EarlyFind(dir[i := e], name, 0) == EarlyFind(dir, name, 0)) <==> !(IsFree(e) && Hides(dir, i))
    ensures forall name :: EarlyFind(dir, name, 0) == |dir| ==> EarlyFind(dir[i := e], name, 0) == |dir|
  {
    hide GetName, Tidy, FirstUsable, EarlyFind, NextSector;
    forall name
      ensures EarlyFind(dir, name, 0) == |dir| ==> EarlyFind(dir[i := e], name, 0) == |dir|
      ensures !(IsFree(e) && Hides(dir, i)) ==> EarlyFind(dir[i := e], name, 0) == EarlyFind(dir, name, 0)
    {
      DeadFind(dir, i, e, name);
      var r := Lookup(dir, name, 0);
      if IsFree(e) && i < r < NextSector(i) {
        assert Named(dir, r, name);
        assert FoundAt(dir, r);
      }
    }
    if IsFree(e) && Hides(dir, i) {
      var j :| i < j < |dir| && j < NextSector(i) && FoundAt(dir, j);
      DeadFind(dir, i, e, GetName(dir[j]));
    }
  }

  ghost predicate UniqueNames(dir: Dir) {
    forall i, j :: 0 <= i < j < |dir| && IsLive(dir[i]) && IsLive(dir[j]) ==>
      GetName(dir[i]) != GetName(dir[j])
  }

  /** Writing a name that the full scan does not find keeps names unique. */
  lemma PutUnique(dir: Dir, i: nat, e: Entry)
    requires UniqueNames(dir) && i < |dir|
    requires IsLive(e) ==> Lookup(dir, GetName(e), 0) == |dir| || Named(dir, i, GetName(e))
    ensures UniqueNames(dir[i := e])
  {
    var dir' := dir[i := e];
    forall j, k | 0 <= j < k < |dir'| && IsLive(dir'[j]) && IsLive(dir'[k])
      ensures GetName(dir'[j]) != GetName(dir'[k])
    {
      assert IsLive(dir'[j]) && IsLive(dir'[k]);
      if j == i {
        assert !Named(dir, k, GetName(e));
      } else if k == i {
        assert !Named(dir, j, GetName(e));
      }
    }
  }

  /** The non-empty parts of a path between slashes. */
  function Components(path: seq<byte>): seq<seq<byte>> {
    var n := Position(path, SLASH);
    var head := if n == 0 then [] else [path[..n]];
    if n == |path| then head else head + Components(path[n + 1..])
  }

  /** Parent path and last name, split at the last slash. */
  function SplitPath(path: seq<byte>): (seq<byte>, seq<byte>) {
    var n := RFind(path, SLASH);
    if n < 0 then ([], path) else (path[..n], path[n + 1..])
  }

  lemma ComponentsPlain(name: seq<byte>)
    requires SLASH !in name
    ensures Components(name) == if name == [] then [] else [name]
  {
    assert Position(name, SLASH) == |name|;
    assert name[..|name|] == name;
  }

  lemma ComponentsStep(head: seq<byte>, rest: seq<byte>)
    requires SLASH !in head
    ensures Components(head + [SLASH] + rest) == (if head == [] then [] else [head]) + Components(rest)
  {
    var path := head + [SLASH] + rest;
    assert path[|head|] == SLASH;
    var n := Position(path, SLASH);
    assert path[n] == SLASH;
    assert path[..|head|] == head && path[|head| + 1..] == rest;
  }

  lemma {:induction false} ComponentsAppend(parent: seq<byte>, name: seq<byte>)
    requires SLASH !in name
    ensures Components(parent + [SLASH] + name) == Components(parent) + (if name == [] then [] else [name])
    decreases |parent|
  {
    var n := Position(parent, SLASH);
    if n == |parent| {
      assert parent[..n] == parent;
      ComponentsStep(parent, name);
      ComponentsPlain(name);
    } else {
      var rest := parent[n + 1..];
      assert parent == parent[..n] + [SLASH] + rest;
      assert parent + [SLASH] + name == parent[..n] + [SLASH] + (rest + [SLASH] + name);
      ComponentsStep(parent[..n], rest + [SLASH] + name);
      ComponentsAppend(rest, name);
    }
  }

  /** The components of a path are those of its parent and, unless empty, its last name. */
  lemma PathComponents(path: seq<byte>)
    ensures Components(path) == Components(SplitPath(path).0)
              + (if SplitPath(path).1 == [] then [] else [SplitPath(path).1])
  {
    var n := RFind(path, SLASH);
    if n < 0 {
      assert path[n + 1..] == path;
      ComponentsPlain(path);
      ComponentsPlain([]);
    } else {
      assert path == path[..n] + [SLASH] + path[n + 1..];
      ComponentsAppend(path[..n], path[n + 1..]);
    }
  }
}
