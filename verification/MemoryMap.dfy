/**
 * The bootloader's memory map, the frames the boot allocator takes from it
 * (kernel/src/memory/boot_frame_allocator.rs), and what the bitmap allocator starts from
 * (kernel/src/memory/bitmap_frame_allocator.rs:42-95).
 */
module MemoryMap {
  import opened Basics
  import opened Frames

  datatype Region = Region(base: nat, length: nat, usable: bool)

  /** The least number of frames that hold a bytes. */
  function Ceil(a: nat): (n: nat)
    ensures a <= 4096 * n < a + 4096
  {
    (a + (FRAME_SIZE - 1)) / FRAME_SIZE
  }

  // ---- The usable frames ---------------------------------------------------------------------------------------

  function First(r: Region): nat {
    r.base / FRAME_SIZE
  }

  function Last(r: Region): nat {
    (r.base + r.length) / FRAME_SIZE
  }

  function Interval(a: nat, b: nat): (s: set<nat>)
    ensures forall f :: f in s <==> a <= f < b
    ensures a <= b ==> |s| == b - a
  {
    if b <= a then {} else Interval(a, b - 1) + {b - 1}
  }

  /** The whole frames free_region clears for one entry of the map. */
  function FramesOf(r: Region): set<nat> {
    if r.usable then Interval(First(r), Last(r)) else {}
  }

  /** The end of frame f lies in the entry. */
  ghost predicate EndsIn(r: Region, f: nat) {
    r.usable && r.base < 4096 * (f + 1) <= r.base + r.length
  }

  lemma FramesOfIs(r: Region, f: nat)
    ensures f in FramesOf(r) <==> EndsIn(r, f)
  {
  }

  function Usable(regions: seq<Region>): set<nat> {
    if regions == [] then {} else Usable(regions[..|regions| - 1]) + FramesOf(regions[|regions| - 1])
  }

  /** What init adds to the counter for one entry: once bit by bit and once for the whole entry. */
  function Credit(r: Region): nat {
    if r.usable then Last(r) - First(r) + Ceil(r.length) else 0
  }

  function Credits(regions: seq<Region>): nat {
    if regions == [] then 0 else Credits(regions[..|regions| - 1]) + Credit(regions[|regions| - 1])
  }

  /** The top of usable memory. */
  function Top(regions: seq<Region>): nat {
    if regions == [] then 0
    else
      var r := regions[|regions| - 1];
      var t := Top(regions[..|regions| - 1]);
      if r.usable && r.base + r.length > t then r.base + r.length else t
  }

  /** Usable entries are page aligned and do not overlap, as the boot protocol promises. */
  predicate Tidy(regions: seq<Region>) {
    && (forall i :: 0 <= i < |regions| && regions[i].usable ==>
          regions[i].base % FRAME_SIZE == 0 && regions[i].length % FRAME_SIZE == 0)
    && (forall i, j :: 0 <= i < j < |regions| ==> FramesOf(regions[i]) !! FramesOf(regions[j]))
  }

  lemma {:induction false} InUsable(regions: seq<Region>, f: nat)
    ensures f in Usable(regions) <==> exists i :: 0 <= i < |regions| && f in FramesOf(regions[i])
  {
    hide FramesOf;
    if regions != [] {
      var front := regions[..|regions| - 1];
      InUsable(front, f);
      assert forall i :: 0 <= i < |front| ==> front[i] == regions[i];
      if i :| 0 <= i < |regions| && f in FramesOf(regions[i]) {
        if i < |front| {
          assert f in FramesOf(front[i]);
        }
      }
      if i :| 0 <= i < |front| && f in FramesOf(front[i]) {
        assert f in FramesOf(regions[i]);
      }
    }
  }

  lemma FrontTidy(regions: seq<Region>)
    requires regions != [] && Tidy(regions)
    ensures Tidy(regions[..|regions| - 1])
    ensures Usable(regions[..|regions| - 1]) !! FramesOf(regions[|regions| - 1])
  {
    hide FramesOf;
    var n := |regions| - 1;
    var front := regions[..n];
    assert forall i :: 0 <= i < n ==> front[i] == regions[i];
    forall f | f in Usable(front)
      ensures f !in FramesOf(regions[n])
    {
      InUsable(front, f);
      var i :| 0 <= i < n && f in FramesOf(front[i]);
      assert FramesOf(regions[i]) !! FramesOf(regions[n]);
    }
  }

  lemma AlignedCredit(r: Region)
    requires r.usable ==> r.base % FRAME_SIZE == 0 && r.length % FRAME_SIZE == 0
    ensures Credit(r) == 2 * |FramesOf(r)|
  {
  }

  /** The frames that are usable, in addresses. */
  lemma UsableIs(regions: seq<Region>, f: nat)
    ensures f in Usable(regions) <==> exists i :: 0 <= i < |regions| && EndsIn(regions[i], f)
  {
    hide FramesOf, EndsIn;
    InUsable(regions, f);
    forall i | 0 <= i < |regions|
      ensures f in FramesOf(regions[i]) <==> EndsIn(regions[i], f)
    {
      FramesOfIs(regions[i], f);
    }
  }

  /** For a tidy map init counts every usable frame exactly twice. */
  lemma {:induction false} TwiceCounted(regions: seq<Region>)
    requires Tidy(regions)
    ensures Credits(regions) == 2 * |Usable(regions)|
  {
    hide FramesOf, Credit;
    if regions != [] {
      var n := |regions| - 1;
      FrontTidy(regions);
      TwiceCounted(regions[..n]);
      AlignedCredit(regions[n]);
      assert |Usable(regions)| == |Usable(regions[..n])| + |FramesOf(regions[n])|;
    }
  }

  lemma CeilCovers(a: nat, b: nat)
    requires a <= b
    ensures a / FRAME_SIZE <= Ceil(b)
  {
  }

  lemma CeilMonotone(a: nat, b: nat)
    requires a <= b
    ensures Ceil(a) <= Ceil(b)
  {
  }

  lemma {:induction false} BelowTop(regions: seq<Region>, f: nat)
    requires f in Usable(regions)
    ensures f < Ceil(Top(regions))
  {
    if regions != [] {
      var n := |regions| - 1;
      if f in Usable(regions[..n]) {
        BelowTop(regions[..n], f);
        CeilMonotone(Top(regions[..n]), Top(regions));
      } else {
        CeilCovers(regions[n].base + regions[n].length, Top(regions));
      }
    }
  }

  // ---- The start of the bitmap allocator -----------------------------------------------------------------------

  /** The state init builds: usable frames are clear except the initial ones. */
  function InitFrames(regions: seq<Region>, initial: seq<nat>): Frames
    requires |initial| <= Credits(regions)
  {
    Frames(seq(Ceil(Top(regions)), f requires f >= 0 => f !in Usable(regions) || f in initial),
           Credits(regions) - |initial|, |initial|)
  }

  function Elements(s: seq<nat>): (r: set<nat>)
    ensures forall f :: f in r <==> f in s
  {
    if s == [] then {} else Elements(s[..|s| - 1]) + {s[|s| - 1]}
  }

  lemma {:induction false} DistinctCount(s: seq<nat>)
    requires NoDup(s)
    ensures |Elements(s)| == |s|
  {
    if s != [] {
      DistinctCount(s[..|s| - 1]);
    }
  }

  lemma InitClear(regions: seq<Region>, initial: seq<nat>)
    requires |initial| <= Credits(regions)
    ensures Clear(InitFrames(regions, initial).used) == Usable(regions) - Elements(initial)
  {
    hide Ceil, Top, Usable, Credits;
    var used := InitFrames(regions, initial).used;
    forall f: nat
      ensures f in Clear(used) <==> f in Usable(regions) && f !in initial
    {
      if f in Usable(regions) {
        BelowTop(regions, f);
      }
    }
  }

  lemma Difference(a: set<nat>, b: set<nat>)
    requires b <= a
    ensures |a - b| + |b| == |a|
  {
    assert a == b + (a - b);
  }

  /** From a tidy map, and initial frames that are usable and distinct, the allocator starts sound. */
  lemma InitSound(regions: seq<Region>, initial: seq<nat>)
    requires Tidy(regions) && NoDup(initial) && (forall f :: f in initial ==> f in Usable(regions))
    requires |initial| < Ceil(Top(regions))
    ensures |initial| <= Credits(regions)
    ensures Inv(Pool(InitFrames(regions, initial), Elements(initial)), Usable(regions))
  {
    hide Ceil, Top, Usable, Credits, Clear, Tidy;
    TwiceCounted(regions);
    DistinctCount(initial);
    assert Elements(initial) <= Usable(regions);
    Difference(Usable(regions), Elements(initial));
    InitClear(regions, initial);
    forall f | f in Usable(regions)
      ensures f < |InitFrames(regions, initial).used|
    {
      BelowTop(regions, f);
    }
  }

  // ---- Memory maps with a hole -----------------------------------------------------------------------------------

  lemma MapOf(r: Region)
    ensures Usable([r]) == FramesOf(r) && Credits([r]) == Credit(r)
    ensures Top([r]) == if r.usable && r.base + r.length > 0 then r.base + r.length else 0
  {
    assert [r][..0] == [];
  }

  lemma MapAdd(regions: seq<Region>, r: Region)
    ensures Usable(regions + [r]) == Usable(regions) + FramesOf(r) && Credits(regions + [r]) == Credits(regions) + Credit(r)
    ensures Top(regions + [r]) == if r.usable && r.base + r.length > Top(regions) then r.base + r.length else Top(regions)
  {
    assert (regions + [r])[..|regions|] == regions;
  }

  /** Frames 0 and 2 are usable, and frame 1 is not. */
  function WithHole(): seq<Region> {
    [Region(0, 4096, true)] + [Region(8192, 4096, true)]
  }

  lemma OneFrame(r: Region)
    requires r.usable && r.base % FRAME_SIZE == 0 && r.length == FRAME_SIZE
    ensures FramesOf(r) == {r.base / FRAME_SIZE} && Credit(r) == 2
  {
    assert Last(r) == First(r) + 1;
  }

  lemma HoleMap()
    ensures Tidy(WithHole()) && Usable(WithHole()) == {0, 2} && Credits(WithHole()) == 4 && Top(WithHole()) == 12288
  {
    hide FramesOf, Credit, Usable, Credits, Top;
    var a, b := Region(0, 4096, true), Region(8192, 4096, true);
    OneFrame(a);
    OneFrame(b);
    MapOf(a);
    MapAdd([a], b);
  }

  /** On that map one allocation is enough: the second call returns None although frame 2 is clear. */
  lemma HoleGivesUp()
    ensures Credits(WithHole()) == 4
    ensures var s := InitFrames(WithHole(), []);
            && Finds(s) && !GivesUp(s) && Taken(s) == Some(0)
            && GivesUp(Allocate(s)) && 2 in Clear(Allocate(s).used)
  {
    hide Usable, Credits, Top, WithHole;
    HoleMap();
    var s := InitFrames(WithHole(), []);
    assert s == Frames([false, true, false], 4, 0);
    assert 0 in Clear(s.used) && NextClear(s.used, 0) == 0;
  }

  /** Frame 2 is the only usable one: once it is out, the next call passes the check and finds nothing. */
  lemma HoleNeverEnds()
    ensures Credits([Region(8192, 4096, true)]) == 2
    ensures var s := InitFrames([Region(8192, 4096, true)], []);
            && Finds(s) && !GivesUp(s) && Taken(s) == Some(2)
            && Clear(Allocate(s).used) == {} && !GivesUp(Allocate(s))
  {
    hide Usable, Credits, Top;
    var r := Region(8192, 4096, true);
    MapOf(r);
    assert FramesOf(r) == {2};
    var s := InitFrames([r], []);
    assert s == Frames([true, true, false], 2, 0);
    assert 2 in Clear(s.used);
    var f := NextClear(s.used, 0);
    assert f == 2;
  }

  // ---- The boot allocator's list of frames -----------------------------------------------------------------------

  const HEAP_START := 0xFFFF_8100_0000_0000
  const HEAP_SIZE := 1024 * 1024

  /** The filter of usable_frames. */
  predicate Kept(address: nat, kernelStart: nat, kernelEnd: nat) {
    address < kernelStart || address >= kernelEnd || address < HEAP_START || address > HEAP_START + HEAP_SIZE
  }

  /** The frames of one usable entry, a page step at a time from its base, that pass the filter. */
  function Stepped(r: Region, kernelStart: nat, kernelEnd: nat, i: nat): seq<nat> {
    if i == 0 then []
    else
      var address := r.base + (i - 1) * FRAME_SIZE;
      Stepped(r, kernelStart, kernelEnd, i - 1)
        + (if Kept(address, kernelStart, kernelEnd) then [address / FRAME_SIZE] else [])
  }

  /** usable_frames: the frames of the usable entries, in map order. */
  function UsableFrames(regions: seq<Region>, kernelStart: nat, kernelEnd: nat): seq<nat> {
    if regions == [] then []
    else
      var r := regions[|regions| - 1];
      UsableFrames(regions[..|regions| - 1], kernelStart, kernelEnd)
        + (if r.usable then Stepped(r, kernelStart, kernelEnd, Ceil(r.length)) else [])
  }

  /** Step k of the entry comes to frame f, and its address is not both in the kernel and in the heap. */
  ghost predicate StepsTo(r: Region, kernelStart: nat, kernelEnd: nat, k: nat, f: nat) {
    var a := r.base + 4096 * k;
    a / 4096 == f && !(kernelStart <= a < kernelEnd && 0xFFFF_8100_0000_0000 <= a <= 0xFFFF_8100_0010_0000)
  }

  lemma {:induction false} SteppedIs(r: Region, kernelStart: nat, kernelEnd: nat, i: nat, f: nat)
    ensures f in Stepped(r, kernelStart, kernelEnd, i) <==> exists k :: 0 <= k < i && StepsTo(r, kernelStart, kernelEnd, k, f)
  {
    if i > 0 {
      SteppedIs(r, kernelStart, kernelEnd, i - 1, f);
      var a := r.base + 4096 * (i - 1);
      assert Kept(a, kernelStart, kernelEnd) && a / 4096 == f <==> StepsTo(r, kernelStart, kernelEnd, i - 1, f);
    }
  }

  /** What the boot allocator lists: every frame that some usable entry steps to before its end. */
  lemma {:induction false} ListIs(regions: seq<Region>, kernelStart: nat, kernelEnd: nat, f: nat)
    ensures f in UsableFrames(regions, kernelStart, kernelEnd) <==>
            exists i, k: nat :: 0 <= i < |regions| && regions[i].usable && 4096 * k < regions[i].length
                                && StepsTo(regions[i], kernelStart, kernelEnd, k, f)
  {
    hide Stepped, StepsTo;
    if regions != [] {
      var n := |regions| - 1;
      var r := regions[n];
      var front := UsableFrames(regions[..n], kernelStart, kernelEnd);
      ListIs(regions[..n], kernelStart, kernelEnd, f);
      SteppedIs(r, kernelStart, kernelEnd, Ceil(r.length), f);
      forall k: nat
        ensures k < Ceil(r.length) <==> 4096 * k < r.length
      {
      }
      assert forall i :: 0 <= i < n ==> regions[..n][i] == regions[i];
    }
  }

  /** The list is in map order. */
  lemma {:induction false} ListInOrder(a: seq<Region>, b: seq<Region>, kernelStart: nat, kernelEnd: nat)
    ensures UsableFrames(a + b, kernelStart, kernelEnd)
         == UsableFrames(a, kernelStart, kernelEnd) + UsableFrames(b, kernelStart, kernelEnd)
  {
    hide Stepped;
    if b == [] {
      assert a + b == a;
    } else {
      var n := |b| - 1;
      assert (a + b)[..|a| + n] == a + b[..n];
      ListInOrder(a, b[..n], kernelStart, kernelEnd);
    }
  }

  /** Physical memory ends below the heap's virtual address, so the filter lets every usable frame through. */
  lemma {:induction false} SteppedAll(r: Region, kernelStart: nat, kernelEnd: nat, i: nat)
    requires r.base % FRAME_SIZE == 0 && (i > 0 ==> r.base + (i - 1) * FRAME_SIZE < HEAP_START)
    ensures var s := Stepped(r, kernelStart, kernelEnd, i);
            |s| == i && forall k :: 0 <= k < i ==> s[k] == First(r) + k
  {
    if i > 0 {
      SteppedAll(r, kernelStart, kernelEnd, i - 1);
    }
  }

  /** The boot allocator's list holds every usable frame once. */
  lemma {:induction false} ListsUsableOnce(regions: seq<Region>, kernelStart: nat, kernelEnd: nat)
    requires Tidy(regions) && Top(regions) <= HEAP_START
    ensures var list := UsableFrames(regions, kernelStart, kernelEnd);
            NoDup(list) && forall f :: f in list <==> f in Usable(regions)
  {
    hide Stepped, Ceil, FramesOf;
    if regions != [] {
      var n := |regions| - 1;
      var r := regions[n];
      var front := UsableFrames(regions[..n], kernelStart, kernelEnd);
      FrontTidy(regions);
      ListsUsableOnce(regions[..n], kernelStart, kernelEnd);
      if r.usable {
        EntryListed(r, kernelStart, kernelEnd);
        var s := Stepped(r, kernelStart, kernelEnd, Ceil(r.length));
        assert UsableFrames(regions, kernelStart, kernelEnd) == front + s;
        Joined(front, s);
      } else {
        NoFrames(r);
      }
    }
  }

  lemma NoFrames(r: Region)
    requires !r.usable
    ensures FramesOf(r) == {}
  {
  }

  lemma EntryListed(r: Region, kernelStart: nat, kernelEnd: nat)
    requires r.usable && r.base % FRAME_SIZE == 0 && r.length % FRAME_SIZE == 0 && r.base + r.length <= HEAP_START
    ensures var s := Stepped(r, kernelStart, kernelEnd, Ceil(r.length));
            NoDup(s) && forall f :: f in s <==> f in FramesOf(r)
  {
    hide Stepped;
    var i := Ceil(r.length);
    assert r.length == i * FRAME_SIZE && Last(r) == First(r) + i;
    SteppedAll(r, kernelStart, kernelEnd, i);
    var s := Stepped(r, kernelStart, kernelEnd, i);
    forall f | f in FramesOf(r)
      ensures f in s
    {
      assert s[f - First(r)] == f;
    }
  }

  lemma Joined(a: seq<nat>, b: seq<nat>)
    requires NoDup(a) && NoDup(b) && forall f :: f in a ==> f !in b
    ensures NoDup(a + b) && forall f :: f in a + b <==> f in a || f in b
  {
    forall i, j | 0 <= i < j < |a + b|
      ensures (a + b)[i] != (a + b)[j]
    {
      if i < |a| <= j {
        assert a[i] in a && b[j - |a|] in b;
      }
    }
  }
}
