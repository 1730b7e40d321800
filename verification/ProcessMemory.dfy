/**
 * The memory of all processes together (kernel/src/processes/process.rs:106-228, kernel/src/memory/paging.rs:63-88):
 * frames are taken from the bitmap allocator, made a PML4 or linked into a table of some process, and given back
 * when the process exits. Over every run the address spaces stay disjoint trees of frames that are out.
 */
module ProcessMemory {
  import opened Basics
  import opened Frames
  import opened PageTables
  import opened Teardown

  // ---- Linking a frame into a tree -----------------------------------------------------------------------

  /** What lies under the entries k up to n of a table. */
  ghost function Between(m: Memory, table: nat, level: nat, k: nat, n: nat): seq<Visit>
    requires level >= 1
    decreases n
  {
    if n <= k then [] else Between(m, table, level, k, n - 1) + BelowEntry(m, At(m, table, n - 1), level)
  }

  lemma {:induction false} UpToBetween(m: Memory, table: nat, level: nat, k: nat, n: nat)
    requires level >= 1 && k <= n
    ensures UpTo(m, table, level, n) == UpTo(m, table, level, k) + Between(m, table, level, k, n)
    decreases n
  {
    hide BelowEntry, At;
    if k < n {
      UpToBetween(m, table, level, k, n - 1);
    }
  }

  /** What lies before entry k, under it and behind it. */
  lemma UpToParts(m: Memory, table: nat, level: nat, k: nat, n: nat)
    requires level >= 1 && k < n
    ensures UpTo(m, table, level, n)
         == UpTo(m, table, level, k) + BelowEntry(m, At(m, table, k), level) + Between(m, table, level, k + 1, n)
  {
    hide BelowEntry, At, Between, UpTo;
    UpToBetween(m, table, level, k + 1, n);
    UpToNext(m, table, level, k);
  }

  lemma {:induction false} SameBetween(a: Memory, b: Memory, table: nat, level: nat, k: nat, n: nat)
    requires level >= 1 && n <= ENTRIES && Agree(a, b, Between(a, table, level, k, n))
    requires forall j :: k <= j < n ==> At(a, table, j) == At(b, table, j)
    ensures Between(b, table, level, k, n) == Between(a, table, level, k, n)
    decreases n
  {
    hide Agree, At, BelowEntry, Visits;
    if k < n {
      var u, v := Between(a, table, level, k, n - 1), BelowEntry(a, At(a, table, n - 1), level);
      forall f
        ensures Visits(u, f) || Visits(v, f) ==> Visits(u + v, f)
      {
        VisitsConcat(u, v, f);
      }
      AgreePart(a, b, u + v, u);
      AgreePart(a, b, u + v, v);
      SameBetween(a, b, table, level, k, n - 1);
      SameEntry(a, b, At(a, table, n - 1), level);
    }
  }

  /** Linking writes entry i of table t of level tl, and nothing else but the new frame f, which is emptied if a table. */
  ghost predicate Linked(a: Memory, b: Memory, t: nat, tl: nat, i: nat, f: nat) {
    && At(a, t, i).Unused? && At(b, t, i) == Mapped(f) && t != f
    && (forall j :: 0 <= j < ENTRIES ==> At(b, f, j) == if tl > 1 then Unused else At(a, f, j))
    && (forall x, j :: 0 <= j < ENTRIES && x != f && !(x == t && j == i) ==> At(b, x, j) == At(a, x, j))
  }

  /** Frames that are neither the table that is written nor the new frame look the same after. */
  lemma LinkedAgree(a: Memory, b: Memory, t: nat, tl: nat, i: nat, f: nat, v: seq<Visit>)
    requires Linked(a, b, t, tl, i, f) && !Visits(v, t) && !Visits(v, f)
    ensures Agree(a, b, v)
  {
    hide Visits, At;
  }

  /** Table t of level tl lies under an entry of a table of the given level, or is it. */
  ghost predicate Holds(m: Memory, table: nat, level: nat, t: nat, tl: nat)
    requires level >= 1
    decreases level
  {
    (t == table && tl == level) || exists j :: 0 <= j < ENTRIES && HoldsBy(m, At(m, table, j), level, t, tl)
  }

  ghost predicate HoldsBy(m: Memory, e: Entry, level: nat, t: nat, tl: nat)
    requires level >= 1
    decreases level, 0
  {
    e.Mapped? && level > 1 && Holds(m, e.frame, level - 1, t, tl)
  }

  lemma {:induction false} HoldsVisits(m: Memory, table: nat, level: nat, t: nat, tl: nat)
    requires level >= 1 && Holds(m, table, level, t, tl)
    ensures 1 <= tl <= level && Visits(Below(m, table, level), t)
    decreases level
  {
    hide Below, At, Visits;
    if t == table && tl == level {
      BelowReach(m, table, level, t);
    } else {
      var j :| 0 <= j < ENTRIES && HoldsBy(m, At(m, table, j), level, t, tl);
      HoldsVisits(m, At(m, table, j).frame, level - 1, t, tl);
      BelowReach(m, At(m, table, j).frame, level - 1, t);
      assert ReachesBy(m, At(m, table, j), level, t);
      BelowReach(m, table, level, t);
    }
  }

  /** Putting b' where b was, with one frame more that was nowhere. */
  ghost predicate OneMore(v: seq<Visit>, v': seq<Visit>, f: nat) {
    Once(v') && forall x :: Visits(v', x) <==> Visits(v, x) || x == f
  }

  lemma OnceJoin(a: seq<Visit>, b: seq<Visit>)
    requires Once(a) && Once(b) && forall x :: Visits(a, x) ==> !Visits(b, x)
    ensures Once(a + b)
  {
    forall i, j | 0 <= i < j < |a + b|
      ensures (a + b)[i].frame != (a + b)[j].frame
    {
      if i < |a| <= j {
        assert Visits(a, a[i].frame);
        assert b[j - |a|] == (a + b)[j];
        assert Visits(b, b[j - |a|].frame);
      }
    }
  }

  lemma Replaced(a: seq<Visit>, b: seq<Visit>, b': seq<Visit>, c: seq<Visit>, f: nat)
    requires Once(a + b + c) && !Visits(a + b + c, f) && OneMore(b, b', f)
    ensures OneMore(a + b + c, a + b' + c, f)
  {
    hide Visits, Once;
    OnceConcat(a + b, c);
    OnceConcat(a, b);
    forall x
      ensures Visits(a + b + c, x) <==> Visits(a, x) || Visits(b, x) || Visits(c, x)
      ensures Visits(a + b' + c, x) <==> Visits(a, x) || Visits(b', x) || Visits(c, x)
      ensures Visits(a + b', x) <==> Visits(a, x) || Visits(b', x)
      ensures Visits(a + b, x) <==> Visits(a, x) || Visits(b, x)
    {
      VisitsConcat(a + b, c, x);
      VisitsConcat(a, b, x);
      VisitsConcat(a + b', c, x);
      VisitsConcat(a, b', x);
    }
    OnceJoin(a, b');
    OnceJoin(a + b', c);
  }

  /** A table of unused entries is all there is under it. */
  lemma {:induction false} EmptyUpTo(m: Memory, table: nat, level: nat, n: nat)
    requires level >= 1 && forall j :: 0 <= j < n ==> At(m, table, j).Unused?
    ensures UpTo(m, table, level, n) == []
    decreases n
  {
    hide At;
    if n > 0 {
      EmptyUpTo(m, table, level, n - 1);
    }
  }

  /** What the new entry adds: the new frame alone, as a page or as an empty table. */
  lemma NewEntry(a: Memory, b: Memory, t: nat, i: nat, f: nat, level: nat)
    requires Linked(a, b, t, level, i, f) && level >= 1
    ensures BelowEntry(a, At(a, t, i), level) == [] && OneMore([], BelowEntry(b, At(b, t, i), level), f)
  {
    hide At, UpTo;
    if level > 1 {
      EmptyUpTo(b, f, level - 1, ENTRIES);
      assert Below(b, f, level - 1) == [] + [Table(f)];
      assert BelowEntry(b, Mapped(f), level) == [Table(f)];
      OnlyFrame(Table(f));
    } else {
      OnlyFrame(Page(f));
    }
  }

  lemma OnlyFrame(v: Visit)
    ensures OneMore([], [v], v.frame)
  {
    assert [v][0] == v;
  }

  /** Linking at entry k of the table itself, among its first n entries. */
  lemma LinkHere(a: Memory, b: Memory, table: nat, level: nat, k: nat, n: nat, f: nat)
    requires level >= 1 && k < n <= ENTRIES && Linked(a, b, table, level, k, f)
    requires Once(UpTo(a, table, level, n) + [Table(table)]) && !Visits(UpTo(a, table, level, n), f)
    ensures OneMore(UpTo(a, table, level, n), UpTo(b, table, level, n), f)
  {
    hide UpTo, Between, BelowEntry, At, Visits, Once, OneMore;
    var u, c := UpTo(a, table, level, k), Between(a, table, level, k + 1, n);
    UpToParts(a, table, level, k, n);
    UpToParts(b, table, level, k, n);
    NewEntry(a, b, table, k, f, level);
    assert UpTo(a, table, level, n) == u + [] + c;
    TableLast(UpTo(a, table, level, n), table);
    PartsUnvisited(u, [], c, table);
    PartsUnvisited(u, [], c, f);
    LinkedAgree(a, b, table, level, k, f, u);
    LinkedAgree(a, b, table, level, k, f, c);
    SameUpTo(a, b, table, level, k) by { LinkedOthers(a, b, table, level, k, f, 0, k); }
    SameBetween(a, b, table, level, k + 1, n) by { LinkedOthers(a, b, table, level, k, f, k + 1, n); }
    Replaced(u, [], BelowEntry(b, At(b, table, k), level), c, f);
  }

  lemma LinkedOthers(a: Memory, b: Memory, t: nat, tl: nat, i: nat, f: nat, lo: nat, hi: nat)
    requires Linked(a, b, t, tl, i, f) && hi <= ENTRIES && (hi <= i || i < lo)
    ensures forall j :: lo <= j < hi ==> At(a, t, j) == At(b, t, j)
  {
    hide At;
  }

  lemma TableLast(v: seq<Visit>, table: nat)
    requires Once(v + [Table(table)])
    ensures Once(v) && !Visits(v, table)
  {
    OnceConcat(v, [Table(table)]);
    VisitsOne(Table(table), table);
  }

  lemma PartsUnvisited(a: seq<Visit>, b: seq<Visit>, c: seq<Visit>, x: nat)
    requires !Visits(a + b + c, x)
    ensures !Visits(a, x) && !Visits(b, x) && !Visits(c, x)
  {
    hide Visits;
    VisitsConcat(a + b, c, x);
    VisitsConcat(a, b, x);
  }

  /** Linking somewhere under entry k, among the first n entries. */
  lemma {:induction false} LinkUnder(a: Memory, b: Memory, table: nat, level: nat, k: nat, n: nat,
                                     t: nat, tl: nat, i: nat, f: nat)
    requires level >= 1 && k < n <= ENTRIES && i < ENTRIES && Linked(a, b, t, tl, i, f)
    requires Once(UpTo(a, table, level, n) + [Table(table)]) && !Visits(UpTo(a, table, level, n), f) && table != f
    requires HoldsBy(a, At(a, table, k), level, t, tl)
    ensures OneMore(UpTo(a, table, level, n), UpTo(b, table, level, n), f)
    decreases level, 0
  {
    hide UpTo, Between, Below, At, Visits, Once, OneMore;
    var e := At(a, table, k);
    var u, v, c := UpTo(a, table, level, k), BelowEntry(a, e, level), Between(a, table, level, k + 1, n);
    UpToParts(a, table, level, k, n);
    UpToParts(b, table, level, k, n);
    HoldsVisits(a, e.frame, level - 1, t, tl);
    TableLast(UpTo(a, table, level, n), table);
    OnceConcat(u + v, c);
    OnceConcat(u, v);
    VisitsConcat(u, v, t);
    VisitsConcat(u + v, c, t);
    assert t != table;
    PartsUnvisited(u, v, c, f);
    LinkedAgree(a, b, t, tl, i, f, u);
    LinkedAgree(a, b, t, tl, i, f, c);
    assert forall j :: 0 <= j < ENTRIES ==> At(a, table, j) == At(b, table, j);
    SameUpTo(a, b, table, level, k);
    SameBetween(a, b, table, level, k + 1, n);
    LinkBelow(a, b, e.frame, level - 1, t, tl, i, f);
    Replaced(u, v, BelowEntry(b, e, level), c, f);
  }

  /** Linking a new frame somewhere below a table adds that frame to its tree and nothing else. */
  lemma {:induction false} LinkBelow(a: Memory, b: Memory, table: nat, level: nat, t: nat, tl: nat, i: nat, f: nat)
    requires level >= 1 && i < ENTRIES && Linked(a, b, t, tl, i, f) && Holds(a, table, level, t, tl)
    requires Once(Below(a, table, level)) && !Visits(Below(a, table, level), f)
    ensures OneMore(Below(a, table, level), Below(b, table, level), f)
    decreases level, 1
  {
    hide UpTo, At, Visits, Once, OneMore, HoldsBy;
    var v := UpTo(a, table, level, ENTRIES);
    VisitsConcat(v, [Table(table)], f);
    VisitsOne(Table(table), f);
    if t == table && tl == level {
      LinkHere(a, b, table, level, i, ENTRIES, f);
    } else {
      var k :| 0 <= k < ENTRIES && HoldsBy(a, At(a, table, k), level, t, tl);
      LinkUnder(a, b, table, level, k, ENTRIES, t, tl, i, f);
    }
    WithRoot(v, UpTo(b, table, level, ENTRIES), table, f);
  }

  lemma WithRoot(v: seq<Visit>, v': seq<Visit>, table: nat, f: nat)
    requires OneMore(v, v', f) && Once(v + [Table(table)]) && table != f
    ensures OneMore(v + [Table(table)], v' + [Table(table)], f)
  {
    hide Visits, Once;
    OnceConcat(v, [Table(table)]);
    forall x
      ensures Visits(v + [Table(table)], x) <==> Visits(v, x) || x == table
      ensures Visits(v' + [Table(table)], x) <==> Visits(v', x) || x == table
      ensures Visits([Table(table)], x) <==> x == table
    {
      VisitsConcat(v, [Table(table)], x);
      VisitsConcat(v', [Table(table)], x);
      VisitsOne(Table(table), x);
    }
    assert Once([Table(table)]) by { OnceOne(Table(table)); }
    OnceJoin(v', [Table(table)]);
  }

  lemma OnceOne(v: Visit)
    ensures Once([v])
  {
  }

  // ---- The user half -------------------------------------------------------------------------------------

  /** Table t of level tl belongs to the user half of an address space. */
  ghost predicate UserTable(m: Memory, pml4: nat, t: nat, tl: nat, i: nat) {
    || (t == pml4 && tl == 4 && i < USER_ENTRIES)
    || exists k :: 0 <= k < USER_ENTRIES && HoldsBy(m, At(m, pml4, k), 4, t, tl)
  }

  lemma LinkUser(a: Memory, b: Memory, pml4: nat, t: nat, tl: nat, i: nat, f: nat)
    requires i < ENTRIES && Linked(a, b, t, tl, i, f) && UserTable(a, pml4, t, tl, i)
    requires Once(UserFrames(a, pml4)) && !Visits(UserFrames(a, pml4), f)
    ensures Visits(UserFrames(a, pml4), t) && OneMore(UserFrames(a, pml4), UserFrames(b, pml4), f)
  {
    hide UpTo, At, Visits, Once, OneMore, HoldsBy, Linked;
    var v := UpTo(a, pml4, 4, USER_ENTRIES);
    forall x
      ensures Visits(UserFrames(a, pml4), x) <==> Visits(v, x) || x == pml4
    {
      VisitsConcat(v, [Table(pml4)], x);
      VisitsOne(Table(pml4), x);
    }
    if t == pml4 && tl == 4 && i < USER_ENTRIES {
      LinkHere(a, b, pml4, 4, i, USER_ENTRIES, f);
    } else {
      var k :| 0 <= k < USER_ENTRIES && HoldsBy(a, At(a, pml4, k), 4, t, tl);
      LinkUnder(a, b, pml4, 4, k, USER_ENTRIES, t, tl, i, f);
      UnderVisits(a, pml4, k, t, tl);
    }
    WithRoot(v, UpTo(b, pml4, 4, USER_ENTRIES), pml4, f);
  }

  lemma UnderVisits(m: Memory, pml4: nat, k: nat, t: nat, tl: nat)
    requires k < USER_ENTRIES && HoldsBy(m, At(m, pml4, k), 4, t, tl)
    ensures Visits(UserFrames(m, pml4), t)
  {
    hide UpTo, At, Visits, Below;
    HoldsVisits(m, At(m, pml4, k).frame, 3, t, tl);
    BelowReach(m, At(m, pml4, k).frame, 3, t);
    assert ReachesBy(m, At(m, pml4, k), 4, t);
    UserFramesReached(m, pml4, t);
  }

  /** An address space depends on nothing but its own frames. */
  lemma SameUser(a: Memory, b: Memory, pml4: nat)
    requires Agree(a, b, UserFrames(a, pml4))
    ensures UserFrames(b, pml4) == UserFrames(a, pml4)
  {
    hide UpTo, At, Visits;
    var v := UpTo(a, pml4, 4, USER_ENTRIES);
    forall x
      ensures Visits(v, x) || x == pml4 ==> Visits(UserFrames(a, pml4), x)
    {
      VisitsConcat(v, [Table(pml4)], x);
      VisitsOne(Table(pml4), x);
    }
    AgreePart(a, b, UserFrames(a, pml4), v);
    SameUpTo(a, b, pml4, 4, USER_ENTRIES);
  }

  // ---- All processes ---------------------------------------------------------------------------------------

  /** The allocator, physical memory, the PML4 of each process, and the frames taken and not yet put to use. */
  datatype World = World(pool: Pool, memory: Memory, spaces: map<nat, nat>, loose: set<nat>)

  /** The frames of one process. */
  ghost function Space(w: World, pid: nat): set<nat>
    requires pid in w.spaces
  {
    VisitFrames(UserFrames(w.memory, w.spaces[pid]))
  }

  /** The address space is a tree of frames that are out, and none of them waits to be put to use. */
  ghost predicate SpaceOk(w: World, pid: nat)
    requires pid in w.spaces
  {
    Once(UserFrames(w.memory, w.spaces[pid])) && Space(w, pid) <= w.pool.held && Space(w, pid) !! w.loose
  }

  ghost predicate Sound(w: World, usable: set<nat>) {
    && Inv(w.pool, usable) && w.loose <= w.pool.held
    && (forall p :: p in w.spaces ==> SpaceOk(w, p))
    && (forall p, q :: p in w.spaces && q in w.spaces && p != q ==> Space(w, p) !! Space(w, q))
  }

  datatype Act =
    | Take
    | NewSpace(pid: nat, frame: nat, kernel: seq<Entry>)
    | Link(pid: nat, table: nat, level: nat, i: nat, frame: nat)
    | Exit(pid: nat, after: Memory)

  /** create_process_page_table: an empty user half, and the kernel's entries. */
  function Fresh(kernel: seq<Entry>): seq<Entry> {
    seq(ENTRIES, i requires 0 <= i => if USER_ENTRIES <= i < |kernel| then kernel[i] else Unused)
  }

  function Row(m: Memory, t: nat): seq<Entry> {
    seq(ENTRIES, i requires 0 <= i => At(m, t, i))
  }

  /** One write of map_to; a frame that becomes a table is emptied. */
  function LinkedTo(m: Memory, t: nat, level: nat, i: nat, f: nat): Memory
    requires i < ENTRIES
  {
    var m1 := m[t := Row(m, t)[i := Mapped(f)]];
    if level > 1 then m1[f := seq(ENTRIES, j => Unused)] else m1
  }

  /** An exit wipes the tables of the process as clear_process_frames does. */
  ghost predicate Possible(w: World, a: Act) {
    match a
    case Take => Finds(w.pool.s) && !GivesUp(w.pool.s)
    case NewSpace(pid, f, _) => pid !in w.spaces && f in w.loose
    case Link(pid, t, level, i, f) =>
      && pid in w.spaces && f in w.loose && i < ENTRIES && At(w.memory, t, i).Unused?
      && UserTable(w.memory, w.spaces[pid], t, level, i)
    case Exit(pid, after) =>
      pid in w.spaces && Wiped(w.memory, after, UpTo(w.memory, w.spaces[pid], 4, USER_ENTRIES))
  }

  ghost function Next(w: World, a: Act, usable: set<nat>): World
    requires Sound(w, usable) && Possible(w, a)
  {
    match a
    case Take =>
      w.(pool := Apply(w.pool, Alloc), loose := w.loose + {Taken(w.pool.s).value})
    case NewSpace(pid, f, kernel) =>
      w.(memory := w.memory[f := Fresh(kernel)], spaces := w.spaces[pid := f], loose := w.loose - {f})
    case Link(pid, t, level, i, f) =>
      w.(memory := LinkedTo(w.memory, t, level, i, f), loose := w.loose - {f})
    case Exit(pid, after) =>
      assert SpaceOk(w, pid);
      TeardownReturns(w.pool, usable, UserFrames(w.memory, w.spaces[pid]));
      World(Run(w.pool, Frees(UserFrames(w.memory, w.spaces[pid]))), after, w.spaces - {pid}, w.loose)
  }

  // ---- Every run ---------------------------------------------------------------------------------------------

  lemma SpaceHas(w: World, pid: nat, f: nat)
    requires pid in w.spaces
    ensures f in Space(w, pid) <==> Visits(UserFrames(w.memory, w.spaces[pid]), f)
  {
  }

  /** Memory that differs outside a process's frames leaves its address space as it is. */
  lemma SpaceKept(w: World, w': World, pid: nat)
    requires pid in w.spaces && pid in w'.spaces && w'.spaces[pid] == w.spaces[pid]
    requires forall t, j :: 0 <= j < ENTRIES && t in Space(w, pid) ==> At(w.memory, t, j) == At(w'.memory, t, j)
    ensures UserFrames(w'.memory, w'.spaces[pid]) == UserFrames(w.memory, w.spaces[pid])
    ensures Space(w', pid) == Space(w, pid)
  {
    hide At, Visits, UserFrames;
    forall t, j | 0 <= j < ENTRIES && Visits(UserFrames(w.memory, w.spaces[pid]), t)
      ensures At(w.memory, t, j) == At(w'.memory, t, j)
    {
      SpaceHas(w, pid, t);
    }
    SameUser(w.memory, w'.memory, w.spaces[pid]);
  }

  /** The frames of a process after a step. */
  ghost function SpaceAfter(w: World, a: Act, pid: nat): set<nat> {
    if a.NewSpace? && a.pid == pid then {a.frame}
    else if pid !in w.spaces then {}
    else if a.Link? && a.pid == pid then Space(w, pid) + {a.frame}
    else Space(w, pid)
  }

  lemma NewSpaceStep(w: World, a: Act, usable: set<nat>)
    requires Sound(w, usable) && a.NewSpace? && Possible(w, a)
    ensures var w' := Next(w, a, usable);
            Space(w', a.pid) == {a.frame} && Once(UserFrames(w'.memory, w'.spaces[a.pid]))
  {
    hide UpTo, Visits, Sound;
    var m := w.memory[a.frame := Fresh(a.kernel)];
    EmptyUpTo(m, a.frame, 4, USER_ENTRIES);
    assert UserFrames(m, a.frame) == [] + [Table(a.frame)];
    assert UserFrames(m, a.frame) == [Table(a.frame)];
    OnceOne(Table(a.frame));
    forall f
      ensures Visits([Table(a.frame)], f) <==> f == a.frame
    {
      VisitsOne(Table(a.frame), f);
    }
  }

  lemma LinkedToIs(m: Memory, t: nat, level: nat, i: nat, f: nat)
    requires i < ENTRIES && At(m, t, i).Unused? && t != f
    ensures Linked(m, LinkedTo(m, t, level, i, f), t, level, i, f)
  {
  }

  lemma LinkStep(w: World, a: Act, usable: set<nat>)
    requires Sound(w, usable) && a.Link? && Possible(w, a)
    ensures var w' := Next(w, a, usable);
            && Space(w', a.pid) == Space(w, a.pid) + {a.frame} && Once(UserFrames(w'.memory, w'.spaces[a.pid]))
            && a.table in Space(w, a.pid) && a.table != a.frame
  {
    hide UpTo, Visits, Sound, UserFrames, Once, UserTable, LinkedTo, At, Linked;
    SoundAt(w, usable, a.pid);
    var pml4 := w.spaces[a.pid];
    SpaceHas(w, a.pid, a.frame);
    SpaceHas(w, a.pid, a.table);
    assert a.table != a.frame by { UserTableVisited(w.memory, pml4, a.table, a.level, a.i); }
    LinkedToIs(w.memory, a.table, a.level, a.i, a.frame);
    LinkUser(w.memory, LinkedTo(w.memory, a.table, a.level, a.i, a.frame), pml4, a.table, a.level, a.i, a.frame);
  }

  lemma UserTableVisited(m: Memory, pml4: nat, t: nat, tl: nat, i: nat)
    requires UserTable(m, pml4, t, tl, i)
    ensures Visits(UserFrames(m, pml4), t)
  {
    hide UpTo, Visits, HoldsBy, At;
    if t == pml4 && tl == 4 && i < USER_ENTRIES {
      UserFramesReached(m, pml4, t);
    } else {
      var k :| 0 <= k < USER_ENTRIES && HoldsBy(m, At(m, pml4, k), 4, t, tl);
      UnderVisits(m, pml4, k, t, tl);
    }
  }

  lemma SoundAt(w: World, usable: set<nat>, pid: nat)
    requires Sound(w, usable) && pid in w.spaces
    ensures SpaceOk(w, pid) && Inv(w.pool, usable)
    ensures forall q :: q in w.spaces && q != pid ==> Space(w, pid) !! Space(w, q)
  {
    hide Inv;
  }

  /** A step writes only to the frame it puts to use, and to frames of the process it is for. */
  lemma StepWrites(w: World, a: Act, usable: set<nat>, t: nat, j: nat)
    requires Sound(w, usable) && Possible(w, a) && j < ENTRIES
    requires t !in w.loose && !((a.Link? || a.Exit?) && t in Space(w, a.pid))
    ensures At(Next(w, a, usable).memory, t, j) == At(w.memory, t, j)
  {
    hide Sound, UpTo, Visits, Frees, UserFrames, Once;
    match a
    case Take =>
    case NewSpace(pid, f, kernel) =>
    case Link(pid, table, level, i, f) => LinkStep(w, a, usable);
    case Exit(pid, after) =>
      SpaceHas(w, pid, t);
      WipedSpace(w, pid, t);
  }

  lemma WipedSpace(w: World, pid: nat, t: nat)
    requires pid in w.spaces
    ensures t !in Space(w, pid) ==> Table(t) !in UpTo(w.memory, w.spaces[pid], 4, USER_ENTRIES)
  {
    hide UpTo, Visits;
    var v := UpTo(w.memory, w.spaces[pid], 4, USER_ENTRIES);
    SpaceHas(w, pid, t);
    TableVisited(v, t);
    VisitsConcat(v, [Table(w.spaces[pid])], t);
  }

  lemma StepSpace(w: World, a: Act, usable: set<nat>, pid: nat)
    requires Sound(w, usable) && Possible(w, a) && pid in Next(w, a, usable).spaces
    ensures var w' := Next(w, a, usable);
            Space(w', pid) == SpaceAfter(w, a, pid) && Once(UserFrames(w'.memory, w'.spaces[pid]))
  {
    hide Sound, UserFrames, Once, Visits, At, LinkedTo, Fresh, UserTable, Wiped, Frees, VisitFrames;
    var w' := Next(w, a, usable);
    if a.NewSpace? && a.pid == pid {
      NewSpaceStep(w, a, usable);
    } else if a.Link? && a.pid == pid {
      LinkStep(w, a, usable);
    } else {
      SoundAt(w, usable, pid);
      forall t, j | 0 <= j < ENTRIES && t in Space(w, pid)
        ensures At(w.memory, t, j) == At(w'.memory, t, j)
      {
        StepWrites(w, a, usable, t, j);
      }
      SpaceKept(w, w', pid);
    }
  }

  /** The allocator and the frames in hand after a step. */
  lemma StepPool(w: World, a: Act, usable: set<nat>)
    requires Sound(w, usable) && Possible(w, a)
    ensures var w' := Next(w, a, usable);
            && Inv(w'.pool, usable) && w'.loose <= w'.pool.held
            && (a.Take? ==> var f := Taken(w.pool.s).value;
                            f !in w.pool.held && w'.pool.held == w.pool.held + {f} && w'.loose == w.loose + {f})
            && (a.NewSpace? || a.Link? ==> w'.pool == w.pool && w'.loose == w.loose - {a.frame} && a.frame in w.loose)
            && (a.Exit? ==> w'.pool.held == w.pool.held - Space(w, a.pid) && w'.loose == w.loose)
  {
    hide UserFrames, Once, Visits, LinkedTo, Fresh, UserTable, Wiped, Frees, NextClear, Clear;
    match a
    case Take =>
      AllocFresh(w.pool, usable);
      AllocInv(w.pool, usable);
    case NewSpace(pid, f, kernel) =>
    case Link(pid, table, level, i, f) =>
    case Exit(pid, after) =>
      SoundAt(w, usable, pid);
      TeardownReturns(w.pool, usable, UserFrames(w.memory, w.spaces[pid]));
  }

  /** Whatever a step does, address spaces are disjoint trees of frames that are out. */
  lemma StepSound(w: World, a: Act, usable: set<nat>)
    requires Sound(w, usable) && Possible(w, a)
    ensures Sound(Next(w, a, usable), usable)
  {
    hide UserFrames, Once, Visits, LinkedTo, Fresh, UserTable, Wiped, Frees, Inv, Apply, Run, Possible;
    var w' := Next(w, a, usable);
    StepPool(w, a, usable);
    StepKeys(w, a, usable);
    forall p | p in w'.spaces
      ensures SpaceOk(w', p)
    {
      StepSpace(w, a, usable, p);
      SpaceAfterOk(w, a, usable, p);
    }
    forall p, q | p in w'.spaces && q in w'.spaces && p != q
      ensures Space(w', p) !! Space(w', q)
    {
      StepSpace(w, a, usable, p);
      StepSpace(w, a, usable, q);
      SpaceAfterApart(w, a, usable, p, q);
    }
  }

  lemma StepKeys(w: World, a: Act, usable: set<nat>)
    requires Sound(w, usable) && Possible(w, a)
    ensures forall p :: p in Next(w, a, usable).spaces <==>
              (p in w.spaces && !(a.Exit? && a.pid == p)) || (a.NewSpace? && a.pid == p)
  {
    hide Sound, UserFrames, LinkedTo, Fresh, UserTable, Wiped, Frees, Inv;
  }

  lemma SpaceAfterOk(w: World, a: Act, usable: set<nat>, p: nat)
    requires Sound(w, usable) && Possible(w, a) && p in Next(w, a, usable).spaces
    ensures var w' := Next(w, a, usable); SpaceAfter(w, a, p) <= w'.pool.held && SpaceAfter(w, a, p) !! w'.loose
  {
    hide UserFrames, Once, Visits, LinkedTo, Fresh, UserTable, Wiped, Frees, Inv, Apply, Run, Next, Sound, Possible,
         VisitFrames;
    StepPool(w, a, usable);
    StepKeys(w, a, usable);
    LooseHeld(w, usable);
    if p in w.spaces {
      SoundAt(w, usable, p);
    }
    if a.Exit? && p in w.spaces {
      ExitPossible(w, a);
    }
  }

  lemma LooseHeld(w: World, usable: set<nat>)
    requires Sound(w, usable)
    ensures w.loose <= w.pool.held
  {
    hide Inv;
  }

  lemma ExitPossible(w: World, a: Act)
    requires Possible(w, a)
    ensures a.Exit? || a.Link? ==> a.pid in w.spaces
    ensures a.NewSpace? ==> a.pid !in w.spaces
  {
    hide UserTable, Wiped, UpTo;
  }

  lemma SpaceAfterApart(w: World, a: Act, usable: set<nat>, p: nat, q: nat)
    requires Sound(w, usable) && Possible(w, a) && p != q
    requires p in Next(w, a, usable).spaces && q in Next(w, a, usable).spaces
    ensures SpaceAfter(w, a, p) !! SpaceAfter(w, a, q)
  {
    hide UserFrames, Once, Visits, LinkedTo, Fresh, UserTable, Wiped, Frees, Inv, Apply, Run, Next, Sound, Possible,
         VisitFrames;
    StepPool(w, a, usable);
    StepKeys(w, a, usable);
    ExitPossible(w, a);
    if p in w.spaces {
      SoundAt(w, usable, p);
    }
    if q in w.spaces {
      SoundAt(w, usable, q);
    }
  }

  /** The frames of all processes. */
  ghost function Spaces(w: World): set<nat> {
    set p, f | p in w.spaces && f in Space(w, p) :: f
  }

  /** Frames that are out and belong to no process and no step under way: those of the kernel. */
  ghost function Rest(w: World): set<nat> {
    w.pool.held - w.loose - Spaces(w)
  }

  lemma SpacesAfter(w: World, a: Act, usable: set<nat>)
    requires Sound(w, usable) && Possible(w, a)
    ensures var w' := Next(w, a, usable);
            && (a.Take? ==> Spaces(w') == Spaces(w))
            && (a.NewSpace? || a.Link? ==> Spaces(w') == Spaces(w) + {a.frame})
            && (a.Exit? ==> a.pid in w.spaces && Spaces(w') == Spaces(w) - Space(w, a.pid))
  {
    hide Space, Next, Possible, Sound;
    var w' := Next(w, a, usable);
    StepKeys(w, a, usable);
    ExitPossible(w, a);
    forall p | p in w'.spaces
      ensures Space(w', p) == SpaceAfter(w, a, p)
    {
      StepSpace(w, a, usable, p);
    }
    forall f
      ensures f in Spaces(w') <==> exists p :: p in w'.spaces && f in SpaceAfter(w, a, p)
    {
      if f in Spaces(w') {
        var p :| p in w'.spaces && f in Space(w', p);
        assert f in SpaceAfter(w, a, p);
      }
    }
    SpacesSplit(w, a, usable, w');
  }

  lemma SpacesSplit(w: World, a: Act, usable: set<nat>, w': World)
    requires Sound(w, usable)
    requires forall p :: p in w'.spaces <==> (p in w.spaces && !(a.Exit? && a.pid == p)) || (a.NewSpace? && a.pid == p)
    requires (a.Exit? || a.Link? ==> a.pid in w.spaces) && (a.NewSpace? ==> a.pid !in w.spaces)
    requires forall f :: f in Spaces(w') <==> exists p :: p in w'.spaces && f in SpaceAfter(w, a, p)
    ensures a.Take? ==> Spaces(w') == Spaces(w)
    ensures a.NewSpace? || a.Link? ==> Spaces(w') == Spaces(w) + {a.frame}
    ensures a.Exit? ==> Spaces(w') == Spaces(w) - Space(w, a.pid)
  {
    hide Space, Sound;
    forall f
      ensures a.Take? ==> (f in Spaces(w') <==> f in Spaces(w))
      ensures a.NewSpace? || a.Link? ==> (f in Spaces(w') <==> f in Spaces(w) || f == a.frame)
      ensures a.Exit? ==> (f in Spaces(w') <==> f in Spaces(w) && f !in Space(w, a.pid))
    {
      if f in Spaces(w) {
        var p :| p in w.spaces && f in Space(w, p);
        assert f in SpaceAfter(w, a, p);
        if a.Exit? {
          SoundAt(w, usable, a.pid);
        }
      }
      if f in Spaces(w') {
        var p :| p in w'.spaces && f in SpaceAfter(w, a, p);
        if a.Exit? {
          SoundAt(w, usable, a.pid);
        }
      }
      if a.NewSpace? || a.Link? {
        assert a.frame in SpaceAfter(w, a, a.pid);
      }
    }
  }

  /** No step adds to the kernel's frames or takes from them: no frame of a process is lost or given back twice. */
  lemma StepRest(w: World, a: Act, usable: set<nat>)
    requires Sound(w, usable) && Possible(w, a)
    ensures Rest(Next(w, a, usable)) == Rest(w)
  {
    hide Next, Possible, Sound, Spaces, Space, Inv;
    StepPool(w, a, usable);
    SpacesAfter(w, a, usable);
    SpacesHeld(w, usable);
    if a.Exit? {
      ExitApart(w, usable, a.pid);
    }
    var w' := Next(w, a, usable);
    forall f
      ensures f in Rest(w') <==> f in Rest(w)
    {
    }
  }

  lemma SpacesHeld(w: World, usable: set<nat>)
    requires Sound(w, usable)
    ensures Spaces(w) <= w.pool.held && Spaces(w) !! w.loose && w.loose <= w.pool.held
  {
    hide Inv, Space;
    forall f | f in Spaces(w)
      ensures f in w.pool.held && f !in w.loose
    {
      var p :| p in w.spaces && f in Space(w, p);
      assert SpaceOk(w, p);
    }
  }

  lemma ExitApart(w: World, usable: set<nat>, pid: nat)
    requires Sound(w, usable) && pid in w.spaces
    ensures Space(w, pid) <= Spaces(w)
  {
    hide Inv, Space;
  }

  ghost predicate CanGo(w: World, acts: seq<Act>, usable: set<nat>)
    requires Sound(w, usable)
    decreases |acts|
  {
    acts != [] ==> Possible(w, acts[0]) && (StepSound(w, acts[0], usable); CanGo(Next(w, acts[0], usable), acts[1..], usable))
  }

  ghost function Go(w: World, acts: seq<Act>, usable: set<nat>): World
    requires Sound(w, usable) && CanGo(w, acts, usable)
    decreases |acts|
  {
    if acts == [] then w else (StepSound(w, acts[0], usable); Go(Next(w, acts[0], usable), acts[1..], usable))
  }

  /** Over every run, on any number of processes, address spaces stay disjoint trees, and the kernel keeps its frames. */
  lemma {:induction false} RunSound(w: World, acts: seq<Act>, usable: set<nat>)
    requires Sound(w, usable) && CanGo(w, acts, usable)
    ensures Sound(Go(w, acts, usable), usable) && Rest(Go(w, acts, usable)) == Rest(w)
    decreases |acts|
  {
    hide Next, Possible, Sound, Rest;
    if acts != [] {
      StepSound(w, acts[0], usable);
      StepRest(w, acts[0], usable);
      RunSound(Next(w, acts[0], usable), acts[1..], usable);
    }
  }

  /** Entry i of the PML4 of a process. */
  ghost function TopEntry(w: World, pid: nat, i: nat): Entry
    requires pid in w.spaces
  {
    At(w.memory, w.spaces[pid], i)
  }

  /** A new address space: nothing in the user half, and the kernel's entries in the other. */
  lemma NewSpaceEntries(w: World, a: Act, usable: set<nat>, i: nat)
    requires Sound(w, usable) && a.NewSpace? && Possible(w, a) && i < 512
    ensures a.pid in Next(w, a, usable).spaces
    ensures TopEntry(Next(w, a, usable), a.pid, i) == if 256 <= i < |a.kernel| then a.kernel[i] else Unused
  {
    hide Sound;
  }

  /** The PML4 is not among the tables below it. */
  lemma RootNotBelow(m: Memory, pml4: nat, tl: nat, i: nat)
    requires Once(UserFrames(m, pml4)) && UserTable(m, pml4, pml4, tl, i)
    ensures i < USER_ENTRIES
  {
    hide UpTo, At, HoldsBy, Below;
    if !(tl == 4 && i < USER_ENTRIES) {
      var k :| 0 <= k < USER_ENTRIES && HoldsBy(m, At(m, pml4, k), 4, pml4, tl);
      var v := UpTo(m, pml4, 4, USER_ENTRIES);
      HoldsReach(m, pml4, k, pml4, tl);
      UpToReach(m, pml4, 4, USER_ENTRIES, pml4);
      TwoVisits(v, pml4);
      assert false;
    }
  }

  lemma HoldsReach(m: Memory, pml4: nat, k: nat, t: nat, tl: nat)
    requires k < USER_ENTRIES && HoldsBy(m, At(m, pml4, k), 4, t, tl)
    ensures ReachesBy(m, At(m, pml4, k), 4, t)
  {
    hide UpTo, At, Visits, Below;
    HoldsVisits(m, At(m, pml4, k).frame, 3, t, tl);
    BelowReach(m, At(m, pml4, k).frame, 3, t);
  }

  lemma TwoVisits(v: seq<Visit>, t: nat)
    requires Visits(v, t)
    ensures !Once(v + [Table(t)])
  {
    var i :| 0 <= i < |v| && v[i].frame == t;
    assert (v + [Table(t)])[i].frame == (v + [Table(t)])[|v|].frame;
  }

  /** No step on this or any other process changes the kernel half, until the process exits. */
  lemma StepKernelHalf(w: World, a: Act, usable: set<nat>, pid: nat, i: nat)
    requires Sound(w, usable) && Possible(w, a) && pid in w.spaces && !(a.Exit? && a.pid == pid) && 256 <= i < 512
    ensures var w' := Next(w, a, usable); pid in w'.spaces && TopEntry(w', pid, i) == TopEntry(w, pid, i)
  {
    hide Sound, UpTo, Visits, Frees, UserFrames, Once, UserTable, At;
    var pml4 := w.spaces[pid];
    SoundAt(w, usable, pid);
    SpaceHas(w, pid, pml4);
    UserFramesReached(w.memory, pml4, pml4);
    if a.Link? && a.pid == pid {
      LinkStep(w, a, usable);
      LinkedToIs(w.memory, a.table, a.level, a.i, a.frame);
      if a.table == pml4 {
        RootNotBelow(w.memory, pml4, a.level, a.i);
      }
    } else {
      if a.Link? || a.Exit? {
        assert pml4 !in Space(w, a.pid);
      }
      StepWrites(w, a, usable, pml4, i);
    }
  }

  /** Over every run in which the process does not exit, its kernel half is the one it was created with. */
  lemma {:induction false} KernelHalfKept(w: World, acts: seq<Act>, usable: set<nat>, pid: nat, i: nat)
    requires Sound(w, usable) && CanGo(w, acts, usable) && pid in w.spaces && 256 <= i < 512
    requires forall k :: 0 <= k < |acts| ==> !(acts[k].Exit? && acts[k].pid == pid)
    ensures pid in Go(w, acts, usable).spaces && TopEntry(Go(w, acts, usable), pid, i) == TopEntry(w, pid, i)
    decreases |acts|
  {
    hide Next, Possible, Sound, TopEntry;
    if acts != [] {
      StepSound(w, acts[0], usable);
      StepKernelHalf(w, acts[0], usable, pid, i);
      KernelHalfKept(Next(w, acts[0], usable), acts[1..], usable, pid, i);
    }
  }

  /**
   * An exit, at any moment of any run: every deallocation is of a frame that is out, exactly the frames of the
   * process become clear, and every other process keeps its address space.
   */
  lemma ExitReturns(w: World, acts: seq<Act>, usable: set<nat>, pid: nat, after: Memory)
    requires Sound(w, usable) && CanGo(w, acts, usable)
    requires Sound(Go(w, acts, usable), usable) && Possible(Go(w, acts, usable), Exit(pid, after))
    ensures var t := Go(w, acts, usable);
            var u := Next(t, Exit(pid, after), usable);
            && pid in t.spaces && Clear(u.pool.s.used) == Clear(t.pool.s.used) + Space(t, pid)
            && (forall q :: q in t.spaces && q != pid ==>
                  q in u.spaces && UserFrames(u.memory, u.spaces[q]) == UserFrames(t.memory, t.spaces[q]))
  {
    hide CanGo, Go, UserFrames, Sound, Clear, Inv, Possible, Next, VisitFrames, Frees;
    var t := Go(w, acts, usable);
    var a := Exit(pid, after);
    ExitPossible(t, a);
    SoundAt(t, usable, pid);
    StepPool(t, a, usable);
    ClearIs(t.pool, usable);
    ClearIs(Next(t, a, usable).pool, usable);
    HeldUsable(t.pool, usable);
    forall q | q in t.spaces && q != pid
      ensures q in Next(t, a, usable).spaces
      ensures UserFrames(Next(t, a, usable).memory, Next(t, a, usable).spaces[q]) == UserFrames(t.memory, t.spaces[q])
    {
      OthersKept(t, a, usable, q);
    }
  }

  lemma OthersKept(w: World, a: Act, usable: set<nat>, q: nat)
    requires Sound(w, usable) && a.Exit? && Possible(w, a) && q in w.spaces && q != a.pid
    ensures var w' := Next(w, a, usable);
            q in w'.spaces && UserFrames(w'.memory, w'.spaces[q]) == UserFrames(w.memory, w.spaces[q])
  {
    hide Sound, UserFrames, Once, Visits, At, Wiped, Frees, VisitFrames;
    var w' := Next(w, a, usable);
    SoundAt(w, usable, q);
    forall t, j | 0 <= j < ENTRIES && t in Space(w, q)
      ensures At(w.memory, t, j) == At(w'.memory, t, j)
    {
      StepWrites(w, a, usable, t, j);
    }
    SpaceKept(w, w', q);
  }

  /** Nothing leaks: when every process of a run has exited, exactly the frames are out that were out before. */
  lemma AllReturned(pool: Pool, memory: Memory, acts: seq<Act>, usable: set<nat>)
    requires Inv(pool, usable)
    requires var w := World(pool, memory, map[], {}); Sound(w, usable) && CanGo(w, acts, usable)
    ensures var t := Go(World(pool, memory, map[], {}), acts, usable);
            t.spaces == map[] && t.loose == {} ==> t.pool.held == pool.held && Clear(t.pool.s.used) == Clear(pool.s.used)
  {
    hide CanGo, Go, Clear, Inv;
    var w := World(pool, memory, map[], {});
    RunSound(w, acts, usable);
    var t := Go(w, acts, usable);
    assert Spaces(w) == {};
    assert Rest(w) == pool.held;
    if t.spaces == map[] && t.loose == {} {
      assert Spaces(t) == {};
      assert Rest(t) == t.pool.held;
      ClearIs(pool, usable);
      ClearIs(t.pool, usable);
    }
  }
}
