/**
 * Exit gives a process's memory back: tearing down a tree-shaped address space whose frames are all out
 * returns them to the bitmap allocator, each once, and leaves every other frame alone.
 */
module Teardown {
  import opened Frames
  import opened PageTables

  function Frees(v: seq<Visit>): seq<Op> {
    if v == [] then [] else [Free(v[0].frame)] + Frees(v[1..])
  }

  function VisitFrames(v: seq<Visit>): (s: set<nat>)
    ensures forall f :: f in s <==> Visits(v, f)
  {
    if v == [] then {}
    else
      assert v == [v[0]] + v[1..];
      assert forall f :: Visits(v, f) <==> v[0].frame == f || Visits(v[1..], f) by {
        forall f
          ensures Visits(v, f) <==> v[0].frame == f || Visits(v[1..], f)
        {
          VisitsConcat([v[0]], v[1..], f);
          VisitsOne(v[0], f);
        }
      }
      {v[0].frame} + VisitFrames(v[1..])
  }

  /** Every deallocation of the walk is of a frame that is out, so the allocator stays sound and takes them all. */
  lemma {:induction false} TeardownReturns(p: Pool, usable: set<nat>, v: seq<Visit>)
    requires Inv(p, usable) && Once(v) && VisitFrames(v) <= p.held
    ensures CanRun(p, Frees(v))
    ensures Inv(Run(p, Frees(v)), usable)
    ensures Run(p, Frees(v)).held == p.held - VisitFrames(v)
    decreases |v|
  {
    hide Inv, Release, VisitFrames, Visits, Once;
    if v != [] {
      var f := v[0].frame;
      FirstVisit(v);
      HeldBelow(p, usable);
      StepInv(p, usable, Free(f));
      assert Frees(v)[1..] == Frees(v[1..]);
      TeardownReturns(Apply(p, Free(f)), usable, v[1..]);
    } else {
      assert VisitFrames(v) == {} by { NoVisits(); }
    }
  }

  lemma NoVisits()
    ensures VisitFrames([]) == {}
  {
  }

  lemma FirstVisit(v: seq<Visit>)
    requires v != [] && Once(v)
    ensures Once(v[1..])
    ensures VisitFrames(v) == VisitFrames(v[1..]) + {v[0].frame}
    ensures v[0].frame !in VisitFrames(v[1..])
  {
    assert v == [v[0]] + v[1..];
    OnceConcat([v[0]], v[1..]);
    VisitsOne(v[0], v[0].frame);
  }

  /** So afterwards exactly the frames of the address space have become clear. */
  lemma TeardownClears(p: Pool, usable: set<nat>, m: Memory, pml4: nat)
    requires Inv(p, usable) && Once(UserFrames(m, pml4)) && VisitFrames(UserFrames(m, pml4)) <= p.held
    ensures CanRun(p, Frees(UserFrames(m, pml4)))
    ensures Clear(Run(p, Frees(UserFrames(m, pml4))).s.used) == Clear(p.s.used) + VisitFrames(UserFrames(m, pml4))
  {
    hide Inv, Clear, VisitFrames, UserFrames, CanRun, Run;
    var v := UserFrames(m, pml4);
    TeardownReturns(p, usable, v);
    ClearIs(p, usable);
    ClearIs(Run(p, Frees(v)), usable);
    HeldUsable(p, usable);
    assert usable - (p.held - VisitFrames(v)) == (usable - p.held) + VisitFrames(v);
  }

  lemma HeldUsable(p: Pool, usable: set<nat>)
    requires Inv(p, usable)
    ensures p.held <= usable
  {
  }

  lemma HeldBelow(p: Pool, usable: set<nat>)
    requires Inv(p, usable)
    ensures forall f :: f in p.held ==> f < |p.s.used|
  {
  }

  lemma ClearIs(p: Pool, usable: set<nat>)
    requires Inv(p, usable)
    ensures Clear(p.s.used) == usable - p.held
  {
  }
}
