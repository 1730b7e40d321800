/**
 * The two frame allocators as the kernel runs them, and the switch from one to the other
 * (kernel/src/memory/bitmap_frame_allocator.rs, kernel/src/memory/boot_frame_allocator.rs,
 * kernel/src/memory/heap.rs:48-64). Frames are numbered by physical address / 4096.
 */
module FrameAllocators {
  import opened Basics
  import opened Bitmap
  import opened Frames
  import opened MemoryMap

  const MAX_ALLOCATED_FRAMES := 1024

  /** n frames in a row. */
  function CountedUp(start: nat, n: nat): seq<nat> {
    seq(n, (i: nat) => start + i)
  }

  /** Takes the usable frames in map order, and remembers only the first one and how many. */
  class BootFrameAllocator {
    const regions: seq<Region>
    const kernelStart: nat
    const kernelEnd: nat
    var next: nat
    var first: Option<nat>
    var last: Option<nat>
    var allocatedCount: nat

    ghost function List(): seq<nat>
      reads this
    {
      UsableFrames(regions, kernelStart, kernelEnd)
    }

    /** The frames handed out are the first `next` of the list. */
    ghost predicate Valid()
      reads this
    {
      && allocatedCount == next <= |List()|
      && (next == 0 ==> first.None?)
      && (next > 0 ==> first == Some(List()[0]) && last == Some(List()[next - 1]))
    }

    constructor (regions: seq<Region>, kernelStart: nat, kernelEnd: nat)
      ensures Valid() && next == 0
      ensures this.regions == regions && this.kernelStart == kernelStart && this.kernelEnd == kernelEnd
    {
      this.regions, this.kernelStart, this.kernelEnd := regions, kernelStart, kernelEnd;
      next, first, last, allocatedCount := 0, None, None, 0;
    }

    /** allocate_frame; the assertion on the number of frames fails after that many were handed out. */
    method AllocateFrame() returns (frame: Option<nat>, panics: bool)
      requires Valid()
      modifies this
      ensures panics <==> old(next) < |List()| && old(next) >= 1024
      ensures !panics ==> Valid()
      ensures !panics && old(next) < |List()| ==> frame == Some(List()[old(next)]) && next == old(next) + 1
      ensures old(next) >= |List()| ==> frame.None? && next == old(next)
    {
      var list := UsableFrames(regions, kernelStart, kernelEnd);
      if next >= |list| {
        return None, false;
      }
      frame := Some(list[next]);
      next := next + 1;
      if allocatedCount >= MAX_ALLOCATED_FRAMES {
        return frame, true;
      }
      if first.None? {
        first := frame;
      }
      last := frame;
      allocatedCount := allocatedCount + 1;
      panics := false;
    }

    /** What it says it handed out: as many frames as it did, counted up from the first. */
    function AllocatedFrames(): seq<nat>
      requires first.Some?
      reads this
    {
      CountedUp(first.value, allocatedCount)
    }
  }

  class BitmapFrameAllocator {
    var total: nat
    var free: nat
    var next: nat
    var bitmap: array<bv64>
    var allocateCount: nat
    var freeCount: nat

    ghost predicate Valid()
      reads this, bitmap
    {
      Fits(bitmap[..], total) && Padded(bitmap[..], total)
    }

    ghost function State(): Frames
      requires Valid()
      reads this, bitmap
    {
      Frames(View(bitmap[..], total), free, next)
    }

    method SetBit(f: nat)
      requires Valid() && f < total && free > 0
      modifies this`free, bitmap
      ensures Valid() && State() == old(State()).(used := old(State()).used[f := true], free := old(free) - 1)
    {
      hide View, Mask, With, Padded;
      SetView(bitmap[..], total, f);
      PaddedUpdate(bitmap[..], total, f);
      ghost var words := bitmap[..];
      bitmap[f / WORD] := With(bitmap[f / WORD], Mask(f % WORD));
      assert bitmap[..] == words[f / WORD := With(words[f / WORD], Mask(f % WORD))];
      free := free - 1;
    }

    method ClearBitInit(f: nat)
      requires Valid() && f < total
      modifies this`free, bitmap
      ensures Valid() && State() == Release(old(State()), f)
    {
      hide View, Mask, Without, Padded;
      ClearView(bitmap[..], total, f);
      PaddedUpdate(bitmap[..], total, f);
      ghost var words := bitmap[..];
      bitmap[f / WORD] := Without(bitmap[f / WORD], Mask(f % WORD));
      assert bitmap[..] == words[f / WORD := Without(words[f / WORD], Mask(f % WORD))];
      free := free + 1;
    }

    /** clear_bit takes a call for a double free exactly when all frames of the word are free already. */
    method ClearBit(f: nat) returns (panics: bool)
      requires Valid() && f < total
      modifies this`free, bitmap
      ensures Valid()
      ensures panics <==> WordFree(old(State()).used, f)
      ensures State() == if panics then old(State()) else Release(old(State()), f)
    {
      hide View, WordFree, Padded;
      WordIsZero(bitmap[..], total, f);
      if bitmap[f / WORD] == 0 {
        return true;
      }
      ClearBitInit(f);
      return false;
    }

    method IsBitSet(f: nat) returns (set1: bool)
      requires Valid() && f < total
      ensures set1 == State().used[f]
    {
      return Bit(bitmap[f / WORD], f % WORD);
    }
  
    /** The loop of allocate_frame: to_allocate moves on, wrapping, to the first clear bit. */
    method Search()
      requires Valid() && Finds(State())
      modifies this`next
      ensures Valid() && next == NextClear(old(State()).used, old(next))
    {
      hide View, Padded, Clear, Fits, After, Probe, NextClear;
      ghost var used, from, k := State().used, next, 0;
      ghost var target := Target(used, from);
      var busy := IsBitSet(next);
      while busy
        invariant Valid() && State().used == used
        invariant 0 <= k <= target && next == Probe(used, from, k) && busy == used[next]
        decreases target - k
      {
        ProbeNext(used, from, k);
        next := After(next, total);
        k := k + 1;
        busy := IsBitSet(next);
      }
    }

    /** allocate_frame, when it returns: it gives up on the counter, or takes the next clear bit, wrapping. */
    method AllocateFrame() returns (frame: Option<nat>)
      requires Valid() && (GivesUp(State()) || Finds(State()))
      modifies this, bitmap
      ensures Valid() && State() == Allocate(old(State())) && frame == Taken(old(State()))
      ensures bitmap == old(bitmap) && total == old(total) && freeCount == old(freeCount)
      ensures allocateCount == old(allocateCount) + if frame.Some? then 1 else 0
    {
      hide View, Padded, Clear, Fits, NextClear, After;
      if free == total {
        return None;
      }
      Search();
      assert next < total by { ClearMember(State().used, next); }
      SetBit(next);
      frame := Some(next);
      next := After(next, total);
      allocateCount := allocateCount + 1;
    }

    /** deallocate_frame, which panics as clear_bit does. */
    method DeallocateFrame(f: nat) returns (panics: bool)
      requires Valid() && f < total
      modifies this, bitmap
      ensures Valid() && bitmap == old(bitmap) && total == old(total)
      ensures panics <==> WordFree(old(State()).used, f)
      ensures State() == if panics then old(State()) else Release(old(State()), f)
      ensures freeCount == old(freeCount) + 1 && allocateCount == old(allocateCount)
    {
      freeCount := freeCount + 1;
      panics := ClearBit(f);
    }

    method FreeRegion(r: Region)
      requires Valid() && r.usable && Last(r) <= total
      modifies this`free, bitmap
      ensures Valid() && free == old(free) + (Last(r) - First(r))
      ensures State().used == Opened(old(State().used), FramesOf(r))
    {
      hide View, Padded;
      ghost var start := State().used;
      var f, end := First(r), Last(r);
      OpenedNone(start, First(r));
      while f < end
        invariant First(r) <= f <= end && Valid() && free == old(free) + (f - First(r))
        invariant State().used == Opened(start, Interval(First(r), f))
      {
        ClearBitInit(f);
        OpenedOne(start, First(r), f);
        f := f + 1;
      }
    }

    constructor (regions: seq<Region>, initial: seq<nat>)
      requires |initial| <= Credits(regions) && forall f :: f in initial ==> f < Ceil(Top(regions))
      ensures Valid() && State() == InitFrames(regions, initial)
      ensures fresh(bitmap) && allocateCount == 0 && freeCount == 0
    {
      var trueEnd := 0;
      for i := 0 to |regions|
        invariant trueEnd == Top(regions[..i])
      {
        assert regions[..i + 1][..i] == regions[..i];
        if regions[i].usable && regions[i].base + regions[i].length > trueEnd {
          trueEnd := regions[i].base + regions[i].length;
        }
      }
      assert regions[..|regions|] == regions;
      var totalFrames := Ceil(trueEnd);
      var words := (totalFrames + (WORD - 1)) / WORD;
      total, free, next := totalFrames, 0, |initial|;
      allocateCount, freeCount := 0, 0;
      bitmap := new bv64[words](_ => FULL);
      new;
      StartsFull(bitmap[..], total);
      OpenEntries(regions);
      MarkUsed(regions, initial);
    }

    method OpenEntries(regions: seq<Region>)
      requires Valid() && total == Ceil(Top(regions)) && free == 0
      requires forall f :: 0 <= f < total ==> State().used[f]
      modifies this`free, bitmap
      ensures Valid() && free == Credits(regions)
      ensures State().used == InitFrames(regions, []).used
    {
      hide View, Padded, Ceil, FramesOf;
      ghost var start := State().used;
      assert regions[..0] == [];
      for i := 0 to |regions|
        invariant Valid() && free == Credits(regions[..i])
        invariant State().used == Opened(start, Usable(regions[..i]))
      {
        var r := regions[i];
        assert regions[..i + 1][..i] == regions[..i];
        if r.usable {
          LastBelow(regions, i);
          FreeRegion(r);
          free := free + Ceil(r.length);
        } else {
          NoFrames(r);
        }
        OpenedUnion(start, Usable(regions[..i]), FramesOf(r));
      }
      assert regions[..|regions|] == regions;
      OpenedInit(regions, start);
    }

    method MarkUsed(regions: seq<Region>, initial: seq<nat>)
      requires Valid() && total == Ceil(Top(regions)) && free == Credits(regions) >= |initial| && next == |initial|
      requires State().used == InitFrames(regions, []).used
      requires forall f :: f in initial ==> f < total
      modifies this`free, bitmap
      ensures Valid() && State() == InitFrames(regions, initial)
    {
      hide View, Padded, Ceil, Credits, Usable;
      assert initial[..0] == [];
      for i := 0 to |initial|
        invariant Valid() && free == Credits(regions) - i
        invariant State().used == InitFrames(regions, initial[..i]).used
      {
        assert initial[i] in initial;
        SetBit(initial[i]);
        MarkedOne(regions, initial, i);
      }
      assert initial[..|initial|] == initial;
    }
  }

  /** How far the search goes, and what it passes. */
  lemma Target(used: seq<bool>, from: nat) returns (t: nat)
    requires from < |used| && Clear(used) != {}
    ensures !used[Probe(used, from, t)] && (forall j :: 0 <= j < t ==> used[Probe(used, from, j)])
    ensures Probe(used, from, t) == NextClear(used, from) && Probe(used, from, 0) == from
  {
    hide Clear;
    SearchEnds(used, from);
    t := Steps(used, from, 0);
  }

  lemma ProbeNext(used: seq<bool>, from: nat, k: nat)
    requires from < |used|
    ensures Probe(used, from, k + 1) == After(Probe(used, from, k), |used|)
  {
  }

  // ---- Clearing sets of frames -------------------------------------------------------------------------------------

  /** The flags after every frame of s was cleared. */
  ghost function Opened(used: seq<bool>, s: set<nat>): seq<bool> {
    seq(|used|, f requires 0 <= f < |used| => used[f] && f !in s)
  }

  lemma OpenedNone(used: seq<bool>, a: nat)
    ensures Opened(used, Interval(a, a)) == used && Opened(used, {}) == used
  {
  }

  lemma OpenedOne(used: seq<bool>, a: nat, f: nat)
    requires a <= f < |used|
    ensures Opened(used, Interval(a, f))[f := false] == Opened(used, Interval(a, f + 1))
  {
  }

  lemma OpenedUnion(used: seq<bool>, s: set<nat>, t: set<nat>)
    ensures Opened(Opened(used, s), t) == Opened(used, s + t)
    ensures Opened(used, s + {}) == Opened(used, s)
  {
    assert s + {} == s;
  }

  lemma OpenedInit(regions: seq<Region>, used: seq<bool>)
    requires |used| == Ceil(Top(regions)) && forall f :: 0 <= f < |used| ==> used[f]
    ensures Opened(used, Usable(regions)) == InitFrames(regions, []).used
  {
    hide Ceil, Top, Usable, Credits;
    assert Opened(used, Usable(regions)) == InitFrames(regions, []).used;
  }

  lemma MarkedOne(regions: seq<Region>, initial: seq<nat>, i: nat)
    requires |initial| <= Credits(regions) && i < |initial| && initial[i] < Ceil(Top(regions))
    ensures InitFrames(regions, initial[..i]).used[initial[i] := true] == InitFrames(regions, initial[..i + 1]).used
  {
    hide Ceil, Top, Usable, Credits;
    assert initial[..i + 1] == initial[..i] + [initial[i]];
  }

  lemma StartsFull(words: seq<bv64>, total: nat)
    requires |words| == (total + (WORD - 1)) / WORD && forall i :: 0 <= i < |words| ==> words[i] == FULL
    ensures Fits(words, total) && Padded(words, total)
    ensures forall f :: 0 <= f < total ==> View(words, total)[f]
  {
    hide Bit;
    FullView(words, total);
    forall f | total <= f < |words| * WORD
      ensures Used(words, f)
    {
      FullWord(f % WORD);
    }
  }

  lemma {:induction false} LastBelow(regions: seq<Region>, i: nat)
    requires i < |regions| && regions[i].usable
    ensures Last(regions[i]) <= Ceil(Top(regions))
    decreases |regions|
  {
    var n := |regions| - 1;
    if i < n {
      LastBelow(regions[..n], i);
      CeilMonotone(Top(regions[..n]), Top(regions));
    } else {
      CeilCovers(regions[n].base + regions[n].length, Top(regions));
    }
  }

  // ---- The switch ----------------------------------------------------------------------------------------------------

  /** The first n frames of the list lie in a row. */
  predicate InARow(list: seq<nat>, n: nat)
    requires n <= |list|
  {
    forall i :: 0 <= i < n ==> list[i] == list[0] + i
  }

  /** What the boot allocator reports is what it handed out exactly when those frames lie in a row. */
  lemma ReportsHandedOut(list: seq<nat>, n: nat)
    requires 0 < n <= |list|
    ensures CountedUp(list[0], n) == list[..n] <==> InARow(list, n)
  {
    if CountedUp(list[0], n) == list[..n] {
      forall i | 0 <= i < n
        ensures list[i] == list[0] + i
      {
        assert list[..n][i] == list[0] + i;
      }
    }
  }

  /** switch_allocator: the bitmap allocator starts from the map and the frames the boot allocator reports. */
  method SwitchAllocator(boot: BootFrameAllocator) returns (bitmap: BitmapFrameAllocator)
    requires boot.Valid() && boot.next > 0
    requires boot.next <= Credits(boot.regions)
    requires forall f :: f in boot.AllocatedFrames() ==> f < Ceil(Top(boot.regions))
    ensures bitmap.Valid() && fresh(bitmap)
    ensures bitmap.State() == InitFrames(boot.regions, CountedUp(boot.List()[0], boot.next))
  {
    bitmap := new BitmapFrameAllocator(boot.regions, boot.AllocatedFrames());
  }

  /**
   * The handoff. On a tidy map below the heap's address, if the first n usable frames lie in a row, the
   * bitmap allocator that takes over after n boot allocations holds exactly those frames...
   */
  lemma HandoffHolds(regions: seq<Region>, kernelStart: nat, kernelEnd: nat, n: nat)
    requires Tidy(regions) && Top(regions) <= HEAP_START
    requires 0 < n <= |UsableFrames(regions, kernelStart, kernelEnd)| && n < Ceil(Top(regions))
    requires InARow(UsableFrames(regions, kernelStart, kernelEnd), n)
    ensures var given := UsableFrames(regions, kernelStart, kernelEnd)[..n];
            && n <= Credits(regions) && NoDup(given) && (forall f :: f in given ==> f in Usable(regions))
            && CountedUp(given[0], n) == given
            && Inv(Pool(InitFrames(regions, given), Elements(given)), Usable(regions))
  {
    hide UsableFrames, Usable, Credits, Tidy, Top, Ceil;
    var list := UsableFrames(regions, kernelStart, kernelEnd);
    ListsUsableOnce(regions, kernelStart, kernelEnd);
    ReportsHandedOut(list, n);
    var given := list[..n];
    assert forall f :: f in given ==> f in list;
    InitSound(regions, given);
  }

  /** ... so that in every later run none of them is handed out before it was deallocated. */
  lemma HandoffSafe(regions: seq<Region>, kernelStart: nat, kernelEnd: nat, n: nat, ops: seq<Op>, f: nat)
    requires Tidy(regions) && Top(regions) <= HEAP_START
    requires 0 < n <= |UsableFrames(regions, kernelStart, kernelEnd)| && n < Ceil(Top(regions))
    requires InARow(UsableFrames(regions, kernelStart, kernelEnd), n) && n <= Credits(regions)
    requires f in UsableFrames(regions, kernelStart, kernelEnd)[..n] && Free(f) !in ops
    requires var start := CountedUp(UsableFrames(regions, kernelStart, kernelEnd)[0], n);
             CanRun(Pool(InitFrames(regions, start), Elements(start)), ops)
    ensures var start := CountedUp(UsableFrames(regions, kernelStart, kernelEnd)[0], n);
            !HandsOut(Pool(InitFrames(regions, start), Elements(start)), ops, f)
  {
    hide UsableFrames, Usable, Credits, Tidy, Top, Ceil, Inv, CanRun, HandsOut, InARow;
    HandoffHolds(regions, kernelStart, kernelEnd, n);
    var given := UsableFrames(regions, kernelStart, kernelEnd)[..n];
    HeldNotHandedOut(Pool(InitFrames(regions, given), Elements(given)), Usable(regions), ops, f);
  }

  /**
   * And if they do not: a frame that was handed out starts clear in the bitmap exactly when it is not among
   * the n frames that follow the first one.
   */
  lemma HandoffExactly(regions: seq<Region>, kernelStart: nat, kernelEnd: nat, n: nat, f: nat)
    requires Tidy(regions) && Top(regions) <= HEAP_START && n <= Credits(regions)
    requires 0 < n <= |UsableFrames(regions, kernelStart, kernelEnd)|
    requires f in UsableFrames(regions, kernelStart, kernelEnd)[..n]
    ensures var first := UsableFrames(regions, kernelStart, kernelEnd)[0];
            f in Clear(InitFrames(regions, CountedUp(first, n)).used) <==> !(first <= f < first + n)
  {
    hide UsableFrames, Usable, Credits, Tidy, Top, Ceil, Clear;
    var list := UsableFrames(regions, kernelStart, kernelEnd);
    ListsUsableOnce(regions, kernelStart, kernelEnd);
    var start := CountedUp(list[0], n);
    InitClear(regions, start);
    assert f in list;
    if list[0] <= f < list[0] + n {
      assert start[f - list[0]] == f;
    }
  }

  // ---- Inputs that fail ----------------------------------------------------------------------------------------------

  /** Frames 0 and 1 are usable, and there are no others. */
  function TwoFrames(): seq<Region> {
    [Region(0, 8192, true)]
  }

  lemma TwoFramesMap()
    ensures Tidy(TwoFrames()) && Usable(TwoFrames()) == {0, 1} && Credits(TwoFrames()) == 4 && Top(TwoFrames()) == 8192
  {
    hide Usable, Credits, Top;
    var r := Region(0, 8192, true);
    MapOf(r);
    assert Last(r) == First(r) + 2;
    assert FramesOf(r) == {0, 1};
  }

  /** The allocator as init leaves it when frame 0 was handed out before. */
  lemma TwoFramesStart()
    ensures Credits(TwoFrames()) == 4
    ensures var s := InitFrames(TwoFrames(), [0]); s == Frames([true, false], 3, 1) && Inv(Pool(s, {0}), {0, 1})
  {
    hide Usable, Credits, Top, TwoFrames;
    TwoFramesMap();
    var s := InitFrames(TwoFrames(), [0]);
    assert s.used == [true, false];
    assert Clear(s.used) == {1} && {0, 1} - {0} == {1};
  }

  /** A double free that goes unseen: frame 1 is free, frame 0 of the same word is out, and the counter goes wrong. */
  lemma DoubleFreeUnseen()
    ensures Credits(TwoFrames()) == 4
    ensures var s := InitFrames(TwoFrames(), [0]);
            && Inv(Pool(s, {0}), {0, 1}) && 1 in Clear(s.used) && !WordFree(s.used, 1)
            && !Inv(Pool(Release(s, 1), {0} - {1}), {0, 1})
  {
    hide Inv, TwoFrames;
    TwoFramesStart();
    var s := InitFrames(TwoFrames(), [0]);
    assert s.used[0];
    FreeSoundExactly(Pool(s, {0}), {0, 1}, 1);
  }

  lemma HoleList()
    ensures UsableFrames(WithHole(), 0, 0) == [0, 2]
  {
    hide Stepped;
    var a, b := Region(0, 4096, true), Region(8192, 4096, true);
    SteppedAll(a, 0, 0, 1);
    SteppedAll(b, 0, 0, 1);
    assert WithHole()[..1] == [a] && [a][..0] == [];
    assert Stepped(a, 0, 0, 1) == [0] && Stepped(b, 0, 0, 1) == [2];
    assert UsableFrames([a], 0, 0) == [] + Stepped(a, 0, 0, 1);
    assert UsableFrames(WithHole(), 0, 0) == UsableFrames([a], 0, 0) + Stepped(b, 0, 0, 1);
  }

  /** Boot frames not in a row: of the map with a hole frame 2 is handed out twice, at boot and by the bitmap. */
  lemma HandoffLoses()
    ensures UsableFrames(WithHole(), 0, 0) == [0, 2] && Credits(WithHole()) == 4
    ensures var s := InitFrames(WithHole(), CountedUp(0, 2));
            2 in Clear(s.used) && Finds(s) && !GivesUp(s) && Taken(s) == Some(2)
  {
    hide UsableFrames, Usable, Credits, WithHole, Top;
    HoleMap();
    HoleList();
    var start := CountedUp(0, 2);
    assert start == [0, 1];
    var s := InitFrames(WithHole(), start);
    assert s.used == [true, true, false];
    assert 2 in Clear(s.used) && Clear(s.used) == {2};
  }
}
