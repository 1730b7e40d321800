/**
 * Tearing an address space down (kernel/src/processes/process.rs:176-228): free_page_table walks a table of
 * the given level in place, returning every page and every table below it to the frame allocator.
 */
module PageTables {
  const ENTRIES := 512
  const USER_ENTRIES := 256

  datatype Entry = Unused | Mapped(frame: nat)

  /** The tables in physical memory; a frame that was never written holds unused entries only. */
  type Memory = map<nat, seq<Entry>>

  function At(m: Memory, table: nat, i: nat): Entry {
    if table in m && i < |m[table]| then m[table][i] else Unused
  }

  function SetUnused(m: Memory, table: nat, i: nat): Memory {
    if table in m && i < |m[table]| then m[table := m[table][i := Unused]] else m
  }

  /** A frame given back: a page of the process, or a page table. */
  datatype Visit = Page(frame: nat) | Table(frame: nat)

  // ---- What the walk gives back ----------------------------------------------------------------------------------

  ghost function BelowEntry(m: Memory, e: Entry, level: nat): seq<Visit>
    requires level >= 1
    decreases level, 0
  {
    if e.Unused? then [] else if level > 1 then Below(m, e.frame, level - 1) else [Page(e.frame)]
  }

  /** What lies under the first n entries of a table, in order. */
  ghost function UpTo(m: Memory, table: nat, level: nat, n: nat): seq<Visit>
    requires level >= 1
    decreases level, n + 1
  {
    if n == 0 then [] else UpTo(m, table, level, n - 1) + BelowEntry(m, At(m, table, n - 1), level)
  }

  /** Everything under a table, and the table last. */
  ghost function Below(m: Memory, table: nat, level: nat): seq<Visit>
    requires level >= 1
    decreases level, ENTRIES + 2
  {
    UpTo(m, table, level, ENTRIES) + [Table(table)]
  }

  /** The frame is the table itself, or is reached from it by following used entries. */
  ghost predicate Reaches(m: Memory, table: nat, level: nat, f: nat)
    requires level >= 1
    decreases level
  {
    f == table || exists i :: 0 <= i < 512 && ReachesBy(m, At(m, table, i), level, f)
  }

  ghost predicate ReachesBy(m: Memory, e: Entry, level: nat, f: nat)
    requires level >= 1
    decreases level, 0
  {
    e.Mapped? && if level > 1 then Reaches(m, e.frame, level - 1, f) else e.frame == f
  }

  predicate Visits(v: seq<Visit>, f: nat) {
    exists i :: 0 <= i < |v| && v[i].frame == f
  }

  /** Tree shape: no frame is reached in two ways. */
  predicate Once(v: seq<Visit>) {
    forall i, j :: 0 <= i < j < |v| ==> v[i].frame != v[j].frame
  }

  // ---- The walk visits what is reachable -----------------------------------------------------------------------

  lemma VisitsConcat(a: seq<Visit>, b: seq<Visit>, f: nat)
    ensures Visits(a + b, f) <==> Visits(a, f) || Visits(b, f)
  {
    if Visits(a, f) {
      var i :| 0 <= i < |a| && a[i].frame == f;
      assert (a + b)[i].frame == f;
    } else if Visits(b, f) {
      var i :| 0 <= i < |b| && b[i].frame == f;
      assert (a + b)[|a| + i].frame == f;
    }
  }

  lemma {:induction false} EntryReach(m: Memory, e: Entry, level: nat, f: nat)
    requires level >= 1
    ensures Visits(BelowEntry(m, e, level), f) <==> ReachesBy(m, e, level, f)
    decreases level, 0
  {
    hide Visits;
    if e.Mapped? {
      if level > 1 {
        BelowReach(m, e.frame, level - 1, f);
      } else {
        VisitsOne(Page(e.frame), f);
      }
    } else {
      VisitsNone(f);
    }
  }

  lemma VisitsOne(v: Visit, f: nat)
    ensures Visits([v], f) <==> v.frame == f
  {
    assert [v][0] == v;
  }

  lemma VisitsNone(f: nat)
    ensures !Visits([], f)
  {
  }

  lemma {:induction false} UpToReach(m: Memory, table: nat, level: nat, n: nat, f: nat)
    requires level >= 1
    ensures Visits(UpTo(m, table, level, n), f) <==>
            exists i :: 0 <= i < n && ReachesBy(m, At(m, table, i), level, f)
    decreases level, n + 1
  {
    hide Visits, At, ReachesBy, BelowEntry;
    if n > 0 {
      UpToReach(m, table, level, n - 1, f);
      EntryReach(m, At(m, table, n - 1), level, f);
      VisitsConcat(UpTo(m, table, level, n - 1), BelowEntry(m, At(m, table, n - 1), level), f);
    } else {
      VisitsNone(f);
    }
  }

  /** The walk gives back exactly the frames that are reachable from the table. */
  lemma {:induction false} BelowReach(m: Memory, table: nat, level: nat, f: nat)
    requires level >= 1
    ensures Visits(Below(m, table, level), f) <==> Reaches(m, table, level, f)
    decreases level, ENTRIES + 2
  {
    hide Visits, UpTo, ReachesBy, At;
    UpToReach(m, table, level, ENTRIES, f);
    VisitsConcat(UpTo(m, table, level, ENTRIES), [Table(table)], f);
    VisitsOne(Table(table), f);
  }

  // ---- Walking in place ------------------------------------------------------------------------------------------

  lemma OnceConcat(a: seq<Visit>, b: seq<Visit>)
    requires Once(a + b)
    ensures Once(a) && Once(b)
    ensures forall f :: Visits(a, f) ==> !Visits(b, f)
  {
    assert forall i :: 0 <= i < |a| ==> (a + b)[i] == a[i];
    assert forall i :: 0 <= i < |b| ==> (a + b)[|a| + i] == b[i];
    forall f | Visits(a, f)
      ensures !Visits(b, f)
    {
      var i :| 0 <= i < |a| && a[i].frame == f;
      forall j | 0 <= j < |b|
        ensures b[j].frame != f
      {
        assert (a + b)[i] == a[i] && (a + b)[|a| + j] == b[j];
      }
    }
  }

  /** What lies under entry i is a stretch of what lies under the table. */
  lemma {:induction false} Stretch(m: Memory, table: nat, level: nat, i: nat, n: nat) returns (rest: seq<Visit>)
    requires level >= 1 && i < n
    ensures UpTo(m, table, level, n) == UpTo(m, table, level, i) + BelowEntry(m, At(m, table, i), level) + rest
    decreases n
  {
    hide BelowEntry, At;
    if n == i + 1 {
      rest := [];
    } else {
      var before := Stretch(m, table, level, i, n - 1);
      rest := before + BelowEntry(m, At(m, table, n - 1), level);
    }
  }

  ghost predicate Agree(a: Memory, b: Memory, v: seq<Visit>) {
    forall t, j :: 0 <= j < ENTRIES && Visits(v, t) ==> At(a, t, j) == At(b, t, j)
  }

  lemma AgreePart(a: Memory, b: Memory, u: seq<Visit>, v: seq<Visit>)
    requires Agree(a, b, u) && forall f :: Visits(v, f) ==> Visits(u, f)
    ensures Agree(a, b, v)
  {
  }

  /** The walk depends on nothing but the frames it gives back. */
  lemma {:induction false} SameEntry(a: Memory, b: Memory, e: Entry, level: nat)
    requires level >= 1 && Agree(a, b, BelowEntry(a, e, level))
    ensures BelowEntry(b, e, level) == BelowEntry(a, e, level)
    decreases level, 0
  {
    hide Agree;
    if e.Mapped? && level > 1 {
      SameBelow(a, b, e.frame, level - 1);
    }
  }

  lemma {:induction false} SameUpTo(a: Memory, b: Memory, table: nat, level: nat, n: nat)
    requires level >= 1 && n <= ENTRIES && Agree(a, b, UpTo(a, table, level, n))
    requires forall j :: 0 <= j < n ==> At(a, table, j) == At(b, table, j)
    ensures UpTo(b, table, level, n) == UpTo(a, table, level, n)
    decreases level, n + 1
  {
    hide Agree, At, BelowEntry, Visits;
    if n > 0 {
      var u, v := UpTo(a, table, level, n - 1), BelowEntry(a, At(a, table, n - 1), level);
      forall f
        ensures Visits(u, f) || Visits(v, f) ==> Visits(u + v, f)
      {
        VisitsConcat(u, v, f);
      }
      AgreePart(a, b, u + v, u);
      AgreePart(a, b, u + v, v);
      SameUpTo(a, b, table, level, n - 1);
      SameEntry(a, b, At(a, table, n - 1), level);
    }
  }

  lemma {:induction false} SameBelow(a: Memory, b: Memory, table: nat, level: nat)
    requires level >= 1 && Agree(a, b, Below(a, table, level))
    ensures Below(b, table, level) == Below(a, table, level)
    decreases level, ENTRIES + 2
  {
    hide UpTo, At, Visits;
    var u := UpTo(a, table, level, ENTRIES);
    forall f
      ensures Visits(u, f) || f == table ==> Visits(Below(a, table, level), f)
    {
      VisitsConcat(u, [Table(table)], f);
      VisitsOne(Table(table), f);
    }
    AgreePart(a, b, Below(a, table, level), u);
    SameUpTo(a, b, table, level, ENTRIES);
  }

  /** Memory after the walk: the tables it gave back are empty, and nothing else was written. */
  ghost predicate Wiped(before: Memory, after: Memory, v: seq<Visit>) {
    forall t, j :: 0 <= j < ENTRIES ==> At(after, t, j) == if Table(t) in v then Unused else At(before, t, j)
  }

  /** Memory while a table is being walked: its first n entries are done. */
  ghost predicate Walked(before: Memory, after: Memory, v: seq<Visit>, table: nat, n: nat) {
    forall t, j :: 0 <= j < ENTRIES ==>
      At(after, t, j) == if Table(t) in v || (t == table && j < n) then Unused else At(before, t, j)
  }

  /** Once the table's earlier entries are done, entry n and what lies under it are as they were. */
  lemma EntryIntact(before: Memory, after: Memory, table: nat, level: nat, n: nat)
    requires level >= 1 && n < ENTRIES && Once(Below(before, table, level))
    requires Walked(before, after, UpTo(before, table, level, n), table, n)
    ensures At(after, table, n) == At(before, table, n)
    ensures BelowEntry(after, At(before, table, n), level) == BelowEntry(before, At(before, table, n), level)
    ensures Once(BelowEntry(before, At(before, table, n), level))
    ensures Table(table) !in BelowEntry(before, At(before, table, n), level)
  {
    hide BelowEntry, UpTo, Once, At;
    var e := At(before, table, n);
    var done, here := UpTo(before, table, level, n), BelowEntry(before, e, level);
    var rest := Stretch(before, table, level, n, ENTRIES);
    assert Below(before, table, level) == done + here + rest + [Table(table)];
    OnceConcat(done + here + rest, [Table(table)]);
    OnceConcat(done + here, rest);
    OnceConcat(done, here);
    VisitsOne(Table(table), table);
    forall f
      ensures Visits(done, f) || Visits(here, f) ==> Visits(done + here + rest, f)
    {
      VisitsConcat(done + here, rest, f);
      VisitsConcat(done, here, f);
    }
    TableVisited(done, table);
    TableVisited(here, table);
    assert Agree(before, after, here) by {
      forall t, j | 0 <= j < ENTRIES && Visits(here, t)
        ensures At(before, t, j) == At(after, t, j)
      {
        TableVisited(done, t);
      }
    }
    SameEntry(before, after, e, level);
  }

  lemma TableVisited(v: seq<Visit>, t: nat)
    ensures Table(t) in v ==> Visits(v, t)
  {
  }

  class AddressSpaces {
    var memory: Memory
    // The frames handed to the deallocator, in order.
    var given: seq<Visit>

    method FreePageTable(table: nat, level: nat)
      requires level >= 1 && Once(Below(memory, table, level))
      modifies this
      ensures given == old(given) + Below(old(memory), table, level)
      ensures Wiped(old(memory), memory, Below(old(memory), table, level))
      decreases level
    {
      hide Below, BelowEntry, UpTo, Once, At, SetUnused, Walked, Wiped;
      ghost var before, start := memory, given;
      WalkStarts(before, table, level);
      var i := 0;
      while i < ENTRIES
        invariant 0 <= i <= ENTRIES
        invariant given == start + UpTo(before, table, level, i)
        invariant Walked(before, memory, UpTo(before, table, level, i), table, i)
        decreases ENTRIES - i
      {
        EntryIntact(before, memory, table, level, i);
        ghost var middle := memory;
        var e := At(memory, table, i);
        UpToNext(before, table, level, i);
        if e.Mapped? {
          EntryIs(memory, e, level);
          if level > 1 {
            FreePageTable(e.frame, level - 1);
          } else {
            given := given + [Page(e.frame)];
            WipedNone(memory, e.frame);
          }
          EntryDone(before, middle, memory, table, level, i);
          memory := SetUnused(memory, table, i);
        } else {
          EntrySkipped(before, memory, table, level, i);
        }
        i := i + 1;
      }
      given := given + [Table(table)];
      WalkEnds(before, memory, table, level);
    }

    /**
     * clear_process_frames: for a tree-shaped user half, every frame reached from it and the PML4 are given
     * back once each, and only the tables among them are written; the PML4 keeps its entries.
     */
    method ClearProcessFrames(pml4: nat)
      requires Once(UserFrames(memory, pml4))
      modifies this
      ensures given == old(given) + UserFrames(old(memory), pml4)
      ensures Wiped(old(memory), memory, UpTo(old(memory), pml4, 4, USER_ENTRIES))
    {
      hide Below, BelowEntry, UpTo, Once, At, Wiped;
      ghost var before, start := memory, given;
      WalkStarts(before, pml4, 4);
      WipedNothing(before);
      for i := 0 to USER_ENTRIES
        invariant given == start + UpTo(before, pml4, 4, i)
        invariant Wiped(before, memory, UpTo(before, pml4, 4, i))
      {
        UserEntryIntact(before, memory, pml4, i);
        UpToNext(before, pml4, 4, i);
        ghost var middle := memory;
        var e := At(memory, pml4, i);
        if e.Unused? {
          UnusedEntry(before, e, 4);
          assert UpTo(before, pml4, 4, i + 1) == UpTo(before, pml4, 4, i);
          continue;
        }
        EntryIs(memory, e, 4);
        FreePageTable(e.frame, 3);
        WipedBoth(before, middle, memory, UpTo(before, pml4, 4, i), BelowEntry(before, e, 4));
      }
      given := given + [Table(pml4)];
    }
  }

  lemma UnusedEntry(m: Memory, e: Entry, level: nat)
    requires level >= 1 && e.Unused?
    ensures BelowEntry(m, e, level) == []
  {
  }

  lemma WalkStarts(m: Memory, table: nat, level: nat)
    requires level >= 1
    ensures UpTo(m, table, level, 0) == [] && Walked(m, m, [], table, 0)
  {
  }

  lemma UpToNext(m: Memory, table: nat, level: nat, i: nat)
    requires level >= 1
    ensures UpTo(m, table, level, i + 1) == UpTo(m, table, level, i) + BelowEntry(m, At(m, table, i), level)
  {
  }

  lemma EntryIs(m: Memory, e: Entry, level: nat)
    requires level >= 1 && e.Mapped?
    ensures BelowEntry(m, e, level) == if level > 1 then Below(m, e.frame, level - 1) else [Page(e.frame)]
  {
  }

  lemma WipedNone(m: Memory, f: nat)
    ensures Wiped(m, m, [Page(f)])
  {
  }

  /** After the walk below entry i and the write to the entry, i + 1 entries are done. */
  lemma EntryDone(before: Memory, middle: Memory, after: Memory, table: nat, level: nat, i: nat)
    requires level >= 1 && i < ENTRIES
    requires Walked(before, middle, UpTo(before, table, level, i), table, i)
    requires Wiped(middle, after, BelowEntry(before, At(before, table, i), level))
    requires Table(table) !in BelowEntry(before, At(before, table, i), level)
    ensures Walked(before, SetUnused(after, table, i), UpTo(before, table, level, i + 1), table, i + 1)
  {
    hide BelowEntry, UpTo, At, SetUnused;
    UpToNext(before, table, level, i);
    var u, v := UpTo(before, table, level, i), BelowEntry(before, At(before, table, i), level);
    assert forall t :: Table(t) in u + v <==> Table(t) in u || Table(t) in v;
    forall t, j | 0 <= j < ENTRIES
      ensures At(SetUnused(after, table, i), t, j) ==
              if Table(t) in u + v || (t == table && j < i + 1) then Unused else At(before, t, j)
    {
      UnusedAt(after, table, i, t, j);
    }
  }

  lemma UnusedAt(m: Memory, table: nat, i: nat, t: nat, j: nat)
    ensures At(SetUnused(m, table, i), t, j) == if t == table && j == i then Unused else At(m, t, j)
  {
  }

  lemma EntrySkipped(before: Memory, after: Memory, table: nat, level: nat, i: nat)
    requires level >= 1 && i < ENTRIES && At(before, table, i).Unused?
    requires Walked(before, after, UpTo(before, table, level, i), table, i)
    ensures BelowEntry(before, At(before, table, i), level) == []
    ensures UpTo(before, table, level, i + 1) == UpTo(before, table, level, i)
    ensures Walked(before, after, UpTo(before, table, level, i + 1), table, i + 1)
  {
    hide At;
  }

  lemma WalkEnds(before: Memory, after: Memory, table: nat, level: nat)
    requires level >= 1 && Walked(before, after, UpTo(before, table, level, ENTRIES), table, ENTRIES)
    ensures Below(before, table, level) == UpTo(before, table, level, ENTRIES) + [Table(table)]
    ensures Wiped(before, after, Below(before, table, level))
  {
    hide UpTo, At;
    var v := UpTo(before, table, level, ENTRIES);
    assert forall t :: Table(t) in v + [Table(table)] <==> Table(t) in v || t == table;
  }

  // ---- The user half of an address space -------------------------------------------------------------------------

  /** What clear_process_frames gives back: everything under the user entries of the PML4, then the PML4. */
  ghost function UserFrames(m: Memory, pml4: nat): seq<Visit> {
    UpTo(m, pml4, 4, USER_ENTRIES) + [Table(pml4)]
  }

  /** Those are the PML4 and the frames reached from its user half: one only the kernel half reaches is not. */
  lemma UserFramesReached(m: Memory, pml4: nat, f: nat)
    ensures Visits(UserFrames(m, pml4), f) <==>
            f == pml4 || exists i :: 0 <= i < 256 && ReachesBy(m, At(m, pml4, i), 4, f)
  {
    hide Visits, UpTo, ReachesBy, At;
    UpToReach(m, pml4, 4, USER_ENTRIES, f);
    VisitsConcat(UpTo(m, pml4, 4, USER_ENTRIES), [Table(pml4)], f);
    VisitsOne(Table(pml4), f);
  }

  /** While the PML4 is being walked, the entry at hand and what lies under it are as they were. */
  lemma UserEntryIntact(before: Memory, after: Memory, pml4: nat, n: nat)
    requires n < USER_ENTRIES && Once(UserFrames(before, pml4))
    requires Wiped(before, after, UpTo(before, pml4, 4, n))
    ensures At(after, pml4, n) == At(before, pml4, n)
    ensures BelowEntry(after, At(before, pml4, n), 4) == BelowEntry(before, At(before, pml4, n), 4)
    ensures Once(BelowEntry(before, At(before, pml4, n), 4))
  {
    hide BelowEntry, UpTo, Once, At;
    var e := At(before, pml4, n);
    var done, here := UpTo(before, pml4, 4, n), BelowEntry(before, e, 4);
    var rest := Stretch(before, pml4, 4, n, USER_ENTRIES);
    OnceConcat(done + here + rest, [Table(pml4)]);
    OnceConcat(done + here, rest);
    OnceConcat(done, here);
    VisitsOne(Table(pml4), pml4);
    forall f
      ensures Visits(done, f) ==> Visits(done + here + rest, f)
    {
      VisitsConcat(done + here, rest, f);
      VisitsConcat(done, here, f);
    }
    TableVisited(done, pml4);
    assert Agree(before, after, here) by {
      forall t, j | 0 <= j < ENTRIES && Visits(here, t)
        ensures At(before, t, j) == At(after, t, j)
      {
        TableVisited(done, t);
      }
    }
    SameEntry(before, after, e, 4);
  }

  lemma WipedBoth(before: Memory, middle: Memory, after: Memory, u: seq<Visit>, v: seq<Visit>)
    requires Wiped(before, middle, u) && Wiped(middle, after, v)
    ensures Wiped(before, after, u + v)
  {
    hide At;
    assert forall t :: Table(t) in u + v <==> Table(t) in u || Table(t) in v;
  }

  lemma WipedNothing(m: Memory)
    ensures Wiped(m, m, [])
  {
  }
}
