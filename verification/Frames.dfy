/**
 * What the bitmap frame allocator promises (kernel/src/memory/bitmap_frame_allocator.rs), over flags instead
 * of words: the next-fit search, the counter, and every run of allocations and frees.
 */
module Frames {
  import opened Basics

  const FRAME_SIZE := 4096

  /** One flag per frame, free_frames and to_allocate. */
  datatype Frames = Frames(used: seq<bool>, free: nat, next: nat)

  function Clear(used: seq<bool>): set<nat> {
    set f: nat | f < |used| && !used[f]
  }

  lemma ClearSetOne(used: seq<bool>, f: nat)
    requires f < |used|
    ensures Clear(used[f := true]) == Clear(used) - {f}
    ensures Clear(used[f := false]) == Clear(used) + {f}
    ensures !used[f] ==> |Clear(used[f := true])| + 1 == |Clear(used)|
    ensures used[f] ==> |Clear(used[f := false])| == |Clear(used)| + 1
  {
    assert Clear(used[f := true]) == Clear(used) - {f};
    assert Clear(used[f := false]) == Clear(used) + {f};
  }

  // ---- The wrapping search -----------------------------------------------------------------------------------

  function After(f: nat, n: nat): (g: nat)
    requires f < n
    ensures g == if f + 1 == n then 0 else f + 1
  {
    (f + 1) % n
  }

  /** The frame the search looks at after k steps. */
  function Probe(used: seq<bool>, from: nat, k: nat): (f: nat)
    requires from < |used|
    ensures f < |used|
  {
    if k == 0 then from else After(Probe(used, from, k - 1), |used|)
  }

  lemma {:induction false} ProbeIs(used: seq<bool>, from: nat, k: nat)
    requires from < |used| && k < |used|
    ensures Probe(used, from, k) == if from + k < |used| then from + k else from + k - |used|
  {
    if k > 0 {
      ProbeIs(used, from, k - 1);
    }
  }

  /** Steps until the search sees a clear bit, given that it has taken k and will see one. */
  function Steps(used: seq<bool>, from: nat, k: nat): (r: nat)
    requires from < |used|
    requires exists j :: k <= j < |used| && !used[Probe(used, from, j)]
    ensures k <= r < |used| && !used[Probe(used, from, r)]
    ensures forall j :: k <= j < r ==> used[Probe(used, from, j)]
    decreases |used| - k
  {
    if !used[Probe(used, from, k)] then k else Steps(used, from, k + 1)
  }

  /** The search meets a clear bit, within one round, exactly when there is one: otherwise it never ends. */
  lemma SearchEnds(used: seq<bool>, from: nat)
    requires from < |used|
    ensures Clear(used) != {} <==> exists j :: 0 <= j < |used| && !used[Probe(used, from, j)]
    ensures Clear(used) == {} <==> forall j: nat :: used[Probe(used, from, j)]
  {
    if f :| f in Clear(used) {
      var j := if f >= from then f - from else f + |used| - from;
      ProbeIs(used, from, j);
    }
    if j: nat :| !used[Probe(used, from, j)] {
      assert Probe(used, from, j) in Clear(used);
    }
  }

  /** The clear bit that comes first from the given place on, wrapping at the end. */
  function NextClear(used: seq<bool>, from: nat): (f: nat)
    requires from < |used| && Clear(used) != {}
    ensures f in Clear(used)
  {
    SearchEnds(used, from);
    Probe(used, from, Steps(used, from, 0))
  }

  /** No frame between the starting place and the one found was clear. */
  lemma NextClearIsFirst(used: seq<bool>, from: nat, g: nat)
    requires from < |used| && Clear(used) != {} && g in Clear(used)
    ensures var f := NextClear(used, from);
            (if f >= from then f - from else f + |used| - from) <= (if g >= from then g - from else g + |used| - from)
  {
    SearchEnds(used, from);
    var n := |used|;
    var k := Steps(used, from, 0);
    var j := if g >= from then g - from else g + n - from;
    ProbeIs(used, from, j);
    ProbeIs(used, from, k);
  }

  // ---- One allocation and one free -----------------------------------------------------------------------------

  /** allocate_frame gives up on the counter alone; past that check it searches. */
  predicate GivesUp(s: Frames) {
    s.free == |s.used|
  }

  /** The search ends: there is a clear bit to find and a place to start from. */
  predicate Finds(s: Frames) {
    s.next < |s.used| && Clear(s.used) != {} && s.free > 0
  }

  function Taken(s: Frames): Option<nat>
    requires GivesUp(s) || Finds(s)
  {
    if GivesUp(s) then None else Some(NextClear(s.used, s.next))
  }

  function Allocate(s: Frames): Frames
    requires GivesUp(s) || Finds(s)
  {
    if GivesUp(s) then s
    else
      var f := NextClear(s.used, s.next);
      Frames(s.used[f := true], s.free - 1, After(f, |s.used|))
  }

  function Release(s: Frames, f: nat): Frames
    requires f < |s.used|
  {
    Frames(s.used[f := false], s.free + 1, s.next)
  }

  // ---- Runs ----------------------------------------------------------------------------------------------------

  datatype Op = Alloc | Free(frame: nat)

  /** The allocator together with the frames that are out: the initial ones and those handed out since. */
  datatype Pool = Pool(s: Frames, held: set<nat>)

  /** A frame is clear exactly when it is usable and not out, and the counter is ahead by the usable frames. */
  ghost predicate Inv(p: Pool, usable: set<nat>) {
    && (forall f :: f in usable ==> f < |p.s.used|)
    && p.held <= usable
    && Clear(p.s.used) == usable - p.held
    && p.s.free == |Clear(p.s.used)| + |usable|
    && p.s.next < |p.s.used|
  }

  /** A frame is freed by its holder, and an allocation is one that returns. */
  predicate Enabled(p: Pool, op: Op) {
    match op
    case Alloc => GivesUp(p.s) || Finds(p.s)
    case Free(f) => f in p.held && f < |p.s.used|
  }

  function Result(p: Pool, op: Op): Option<nat>
    requires Enabled(p, op)
  {
    if op.Alloc? then Taken(p.s) else None
  }

  function Apply(p: Pool, op: Op): Pool
    requires Enabled(p, op)
  {
    match op
    case Alloc =>
      Pool(Allocate(p.s), match Taken(p.s) case Some(f) => p.held + {f} case None => p.held)
    case Free(f) => Pool(Release(p.s, f), p.held - {f})
  }

  lemma {:induction false} BelowCount(s: set<nat>, n: nat)
    requires forall f :: f in s ==> f < n
    ensures |s| <= n
    decreases n
  {
    if n > 0 {
      BelowCount(s - {n - 1}, n - 1);
      if n - 1 in s {
        assert s == (s - {n - 1}) + {n - 1};
      } else {
        assert s == s - {n - 1};
      }
    }
  }

  /** What an allocation hands out was usable, clear and not out, and nothing else changes. */
  lemma AllocFresh(p: Pool, usable: set<nat>)
    requires Inv(p, usable) && Enabled(p, Alloc)
    ensures match Taken(p.s)
            case None => Apply(p, Alloc) == p
            case Some(f) =>
              && f in usable && f !in p.held && f < |p.s.used|
              && Apply(p, Alloc).s.used == p.s.used[f := true] && Apply(p, Alloc).held == p.held + {f}
  {
    hide NextClear;
  }

  lemma AllocInv(p: Pool, usable: set<nat>)
    requires Inv(p, usable) && Enabled(p, Alloc)
    ensures Inv(Apply(p, Alloc), usable)
  {
    hide NextClear, Clear;
    if !GivesUp(p.s) {
      var f := NextClear(p.s.used, p.s.next);
      ClearMember(p.s.used, f);
      ClearSetOne(p.s.used, f);
      assert usable - (p.held + {f}) == usable - p.held - {f};
    }
  }

  lemma ClearMember(used: seq<bool>, f: nat)
    requires f in Clear(used)
    ensures f < |used| && !used[f]
  {
  }

  lemma NotClear(used: seq<bool>, f: nat)
    requires f < |used| && f !in Clear(used)
    ensures used[f]
  {
  }

  lemma FreeInv(p: Pool, usable: set<nat>, f: nat)
    requires Inv(p, usable) && Enabled(p, Free(f))
    ensures Inv(Apply(p, Free(f)), usable)
  {
    hide Clear;
    ClearSetOne(p.s.used, f);
    assert p.s.used[f] by { NotClear(p.s.used, f); }
    assert usable - (p.held - {f}) == (usable - p.held) + {f};
  }

  /** Releasing a usable frame keeps the allocator sound exactly when the frame is out: a second free does not. */
  lemma FreeSoundExactly(p: Pool, usable: set<nat>, f: nat)
    requires Inv(p, usable) && f in usable
    ensures Inv(Pool(Release(p.s, f), p.held - {f}), usable) <==> f in p.held
  {
    hide Clear;
    if f in p.held {
      FreeInv(p, usable, f);
    } else {
      assert f in Clear(p.s.used);
      ClearMember(p.s.used, f);
      assert p.s.used[f := false] == p.s.used;
    }
  }

  ghost predicate CanRun(p: Pool, ops: seq<Op>)
    decreases |ops|
  {
    ops != [] ==> Enabled(p, ops[0]) && CanRun(Apply(p, ops[0]), ops[1..])
  }

  ghost function Run(p: Pool, ops: seq<Op>): Pool
    requires CanRun(p, ops)
    decreases |ops|
  {
    if ops == [] then p else Run(Apply(p, ops[0]), ops[1..])
  }

  /** The run hands out frame f. */
  ghost predicate HandsOut(p: Pool, ops: seq<Op>, f: nat)
    requires CanRun(p, ops)
    decreases |ops|
  {
    ops != [] && (Result(p, ops[0]) == Some(f) || HandsOut(Apply(p, ops[0]), ops[1..], f))
  }

  lemma {:induction false} RunInv(p: Pool, usable: set<nat>, ops: seq<Op>)
    requires Inv(p, usable) && CanRun(p, ops)
    ensures Inv(Run(p, ops), usable)
    decreases |ops|
  {
    hide Inv, Apply, Enabled;
    if ops != [] {
      StepInv(p, usable, ops[0]);
      RunInv(Apply(p, ops[0]), usable, ops[1..]);
    }
  }

  lemma StepInv(p: Pool, usable: set<nat>, op: Op)
    requires Inv(p, usable) && Enabled(p, op)
    ensures Inv(Apply(p, op), usable)
  {
    match op
    case Alloc => AllocInv(p, usable);
    case Free(f) => FreeInv(p, usable, f);
  }

  /**
   * Over every run: a frame that is out, be it an initial one or one handed out before, is not handed out
   * again until it is freed, and a frame that is not usable never is.
   */
  lemma {:induction false} HeldNotHandedOut(p: Pool, usable: set<nat>, ops: seq<Op>, f: nat)
    requires Inv(p, usable) && CanRun(p, ops)
    requires f !in usable || (f in p.held && Free(f) !in ops)
    ensures !HandsOut(p, ops, f)
    decreases |ops|
  {
    hide Inv, Allocate, Taken, GivesUp, Finds;
    if ops != [] {
      StepInv(p, usable, ops[0]);
      if ops[0].Alloc? {
        AllocFresh(p, usable);
      }
      assert Free(f) !in ops ==> Free(f) !in ops[1..];
      HeldNotHandedOut(Apply(p, ops[0]), usable, ops[1..], f);
    }
  }

  // ---- When None is returned -------------------------------------------------------------------------------------

  /** The counter starts ahead, so None means that as many frames are clear as the map has holes. */
  lemma NoneExactly(p: Pool, usable: set<nat>)
    requires Inv(p, usable)
    ensures |usable| <= |p.s.used|
    ensures GivesUp(p.s) <==> |Clear(p.s.used)| == |p.s.used| - |usable|
  {
    BelowCount(usable, |p.s.used|);
  }

  /**
   * So None means exhaustion exactly when every frame up to the top of memory is usable. With a hole the
   * exhausted allocator does not give up: it passes the check, and then there is no clear bit to find.
   */
  lemma NoneMeansExhausted(p: Pool, usable: set<nat>)
    requires Inv(p, usable)
    ensures |usable| == |p.s.used| ==> (GivesUp(p.s) <==> Clear(p.s.used) == {})
    ensures |usable| < |p.s.used| && Clear(p.s.used) == {} ==> !GivesUp(p.s) && !Finds(p.s)
    ensures |usable| < |p.s.used| && GivesUp(p.s) ==> Clear(p.s.used) != {}
  {
    hide Clear;
    NoneExactly(p, usable);
  }
}
