/**
 * TLB shootdown over any number of cores (kernel/src/memory/tlb.rs:16-34, kernel/src/interrupts/idt.rs:348-361):
 * a core that changes a mapping puts the page's address in every other core's mailbox and interrupts it,
 * and the handler invalidates what it finds there. Any number of cores may do so at once; the lock makes only
 * the filling of the mailboxes and the handler exclusive. See section 4.10.5 of the Intel SDM, volume 3A.
 */
module Tlb {
  import opened Basics

  /** A shootdown under way: for which page, and how far its loop has come. */
  datatype Job = Job(page: nat, next: nat)

  /**
   * Pages are named by their start address. Each core has a TLB, a mailbox (0 if clear), a bit for a pending
   * interrupt, whether it is in the handler, and perhaps a shootdown under way. The lock guards the mailboxes.
   */
  datatype Machine = Machine(
    table: map<nat, nat>, tlb: seq<map<nat, nat>>, mailbox: seq<nat>, ipi: seq<bool>,
    handling: seq<bool>, jobs: seq<Option<Job>>, lock: Option<nat>)

  predicate Shaped(s: Machine) {
    && |s.tlb| == |s.mailbox| == |s.ipi| == |s.handling| == |s.jobs|
    && (forall c :: 0 <= c < |s.jobs| && s.jobs[c].Some? ==> s.jobs[c].value.next <= |s.tlb|)
    && (s.lock.Some? ==> s.lock.value < |s.tlb| && s.jobs[s.lock.value].Some?)
  }

  /** The core holds a translation that the page table no longer gives. */
  predicate Stale(s: Machine, k: nat, page: nat)
    requires k < |s.tlb|
  {
    page in s.tlb[k] && !(page in s.table && s.table[page] == s.tlb[k][page])
  }

  // ---- The steps ---------------------------------------------------------------------------------------------------

  datatype Step =
    | Fill(core: nat, page: nat)
    | Evict(core: nat, page: nat)
    | Start(core: nat, page: nat, frame: Option<nat>)
    | Lock(core: nat)
    | Post(core: nat)
    | Unlock(core: nat)
    | Flush(core: nat)
    | Interrupt(core: nat)
    | Handle(core: nat)

  /** The core is in its shootdown and not interrupted. */
  predicate Shooting(s: Machine, c: nat)
    requires Shaped(s)
  {
    c < |s.tlb| && s.jobs[c].Some? && !s.handling[c]
  }

  /** When a step can happen. The handler takes the lock for its whole length. */
  predicate Possible(s: Machine, a: Step)
    requires Shaped(s)
  {
    match a
    case Fill(c, p) => c < |s.tlb| && p in s.table
    case Evict(c, p) => c < |s.tlb|
    case Start(c, p, _) => c < |s.tlb| && s.jobs[c].None? && !s.handling[c]
    case Lock(c) => Shooting(s, c) && s.jobs[c].value.next == 0 && s.lock.None?
    case Post(c) => Shooting(s, c) && s.jobs[c].value.next < |s.tlb| && s.lock == Some(c)
    case Unlock(c) => Shooting(s, c) && s.jobs[c].value.next == |s.tlb| && s.lock == Some(c)
    case Flush(c) => Shooting(s, c) && s.jobs[c].value.next == |s.tlb| && s.lock != Some(c)
    case Interrupt(c) => c < |s.tlb| && s.ipi[c] && !s.handling[c]
    case Handle(c) => c < |s.tlb| && s.handling[c] && s.lock.None?
  }

  function Remember(tlb: map<nat, nat>, page: nat, frame: nat): map<nat, nat> {
    tlb[page := frame]
  }

  /** invlpg. */
  function Invalidate(tlb: map<nat, nat>, page: nat): map<nat, nat> {
    tlb - {page}
  }

  /** One turn of the posting loop; the posting core skips itself. */
  function PostTo(s: Machine, c: nat): Machine
    requires Shaped(s) && c < |s.tlb| && s.jobs[c].Some? && s.jobs[c].value.next < |s.tlb|
  {
    var j := s.jobs[c].value;
    var t := s.(jobs := s.jobs[c := Some(j.(next := j.next + 1))]);
    if j.next == c then t else t.(mailbox := s.mailbox[j.next := j.page], ipi := s.ipi[j.next := true])
  }

  /** The body of the handler: address 0 in the mailbox means there is nothing to do. */
  function HandleOn(s: Machine, c: nat): Machine
    requires Shaped(s) && c < |s.tlb|
  {
    var v := s.mailbox[c];
    var t := s.(handling := s.handling[c := false]);
    if v == 0 then t else t.(tlb := s.tlb[c := Invalidate(s.tlb[c], v)], mailbox := s.mailbox[c := 0])
  }

  function Apply(s: Machine, a: Step): Machine
    requires Shaped(s) && Possible(s, a)
  {
    match a
    case Fill(c, p) => s.(tlb := s.tlb[c := Remember(s.tlb[c], p, s.table[p])])
    case Evict(c, p) => s.(tlb := s.tlb[c := Invalidate(s.tlb[c], p)])
    case Start(c, p, frame) =>
      s.(table := (if frame.Some? then s.table[p := frame.value] else s.table - {p}),
         jobs := s.jobs[c := Some(Job(p, 0))])
    case Lock(c) => s.(lock := Some(c))
    case Post(c) => PostTo(s, c)
    case Unlock(_) => s.(lock := None)
    case Flush(c) => s.(tlb := s.tlb[c := Invalidate(s.tlb[c], s.jobs[c].value.page)], jobs := s.jobs[c := None])
    case Interrupt(c) => s.(ipi := s.ipi[c := false], handling := s.handling[c := true])
    case Handle(c) => HandleOn(s, c)
  }

  // ---- What a step does to one page of one core ----------------------------------------------------------------------

  /** The page has the same translation in both, or none in either. */
  predicate SameFor(m: map<nat, nat>, n: map<nat, nat>, page: nat) {
    (page in m <==> page in n) && (page in m ==> n[page] == m[page])
  }

  /** A translation comes only from the page table, and goes by eviction, by the core's own flush or by its handler. */
  lemma TranslationAfter(s: Machine, a: Step, k: nat, page: nat)
    requires Shaped(s) && Possible(s, a) && k < |s.tlb|
    ensures k < |Apply(s, a).tlb|
    ensures var t := Apply(s, a).tlb[k];
            if a == Fill(k, page) then page in t && page in s.table && t[page] == s.table[page]
            else if a == Evict(k, page) || (a == Flush(k) && s.jobs[k].value.page == page)
                    || (a == Handle(k) && s.mailbox[k] == page && page != 0) then page !in t
            else SameFor(s.tlb[k], t, page)
  {
  }

  /** The page table changes where a shootdown starts, and only for its page. */
  lemma TableAfter(s: Machine, a: Step, page: nat)
    requires Shaped(s) && Possible(s, a)
    ensures var t := Apply(s, a).table;
            if a.Start? && a.page == page then
              match a.frame
              case Some(f) => page in t && t[page] == f
              case None => page !in t
            else SameFor(s.table, t, page)
  {
  }

  /** The mailbox and the interrupt bit of a core: filled by another core's post, emptied by its own handler. */
  lemma MailAfter(s: Machine, a: Step, k: nat)
    requires Shaped(s) && Possible(s, a) && k < |s.tlb|
    ensures k < |Apply(s, a).mailbox| == |Apply(s, a).ipi| == |Apply(s, a).handling|
    ensures var t := Apply(s, a);
            if a.Post? && a.core != k && s.jobs[a.core].value.next == k then
              t.mailbox[k] == s.jobs[a.core].value.page && t.ipi[k] && t.handling[k] == s.handling[k]
            else if a == Interrupt(k) then t.mailbox[k] == s.mailbox[k] && !t.ipi[k] && t.handling[k]
            else if a == Handle(k) then t.mailbox[k] == 0 && t.ipi[k] == s.ipi[k] && !t.handling[k]
            else t.mailbox[k] == s.mailbox[k] && t.ipi[k] == s.ipi[k] && t.handling[k] == s.handling[k]
  {
  }

  // ---- The invariant -----------------------------------------------------------------------------------------------

  /** The shootdown of core c is for the page and has still to reach core k. */
  predicate Heading(s: Machine, c: nat, k: nat, page: nat)
    requires Shaped(s) && c < |s.tlb|
  {
    s.jobs[c].Some? && s.jobs[c].value.page == page && (k == c || k >= s.jobs[c].value.next)
  }

  /** The page is in the core's mailbox, and the core will look there. */
  predicate Noted(s: Machine, k: nat, page: nat)
    requires Shaped(s) && k < |s.tlb|
  {
    s.mailbox[k] == page && page != 0 && (s.ipi[k] || s.handling[k])
  }

  /** A stale translation will be invalidated: the core has been told, or some shootdown has still to reach it. */
  ghost predicate Covered(s: Machine, k: nat, page: nat)
    requires Shaped(s) && k < |s.tlb|
  {
    Stale(s, k, page) ==> Noted(s, k, page) || exists c :: 0 <= c < |s.tlb| && Heading(s, c, k, page)
  }

  /** An address in a mailbox is never forgotten. */
  predicate Signalled(s: Machine, k: nat)
    requires Shaped(s) && k < |s.tlb|
  {
    s.mailbox[k] != 0 ==> s.ipi[k] || s.handling[k]
  }

  ghost predicate Inv(s: Machine) {
    && Shaped(s)
    && (forall k, page: nat :: 0 <= k < |s.tlb| ==> Covered(s, k, page))
    && (forall k :: 0 <= k < |s.tlb| ==> Signalled(s, k))
  }

  /** Another shootdown than that of core c is for the page and has still to reach core k. */
  ghost predicate OtherHeading(s: Machine, c: nat, k: nat, page: nat)
    requires Shaped(s)
  {
    exists d :: 0 <= d < |s.tlb| && d != c && Heading(s, d, k, page)
  }

  /** Core k need not be told of the page, or will be told of it by another core than c. */
  ghost predicate Spared(s: Machine, c: nat, k: nat, page: nat)
    requires Shaped(s) && k < |s.tlb|
  {
    !Stale(s, k, page) || OtherHeading(s, c, k, page)
  }

  /**
   * What a post must not do: write over an address that the core still has to invalidate, or tell the core of
   * page 0, which it ignores. Every other step is safe.
   */
  ghost predicate Safe(s: Machine, a: Step)
    requires Shaped(s) && Possible(s, a)
  {
    a.Post? ==>
      var j := s.jobs[a.core].value;
      var v := s.mailbox[j.next];
      j.next == a.core ||
      (&& (v == 0 || v == j.page || Spared(s, a.core, j.next, v))
       && (j.page != 0 || Spared(s, a.core, j.next, 0)))
  }

  lemma StepShaped(s: Machine, a: Step)
    requires Shaped(s) && Possible(s, a)
    ensures Shaped(Apply(s, a)) && |Apply(s, a).tlb| == |s.tlb|
  {
  }

  /** A shootdown that had still to reach a core has so after the step as well, unless the step reaches it. */
  lemma StepHeading(s: Machine, a: Step, c: nat, k: nat, page: nat)
    requires Shaped(s) && Possible(s, a) && c < |s.tlb| && k < |s.tlb| && Heading(s, c, k, page)
    requires !(a == Post(c) && k == s.jobs[c].value.next && k != c) && !(a == Flush(c) && k == c)
    ensures Shaped(Apply(s, a)) && |Apply(s, a).tlb| == |s.tlb| && Heading(Apply(s, a), c, k, page)
  {
  }

  /** Every step but a post. */
  lemma StepCovered(s: Machine, a: Step, k: nat, page: nat)
    requires Inv(s) && Possible(s, a) && !a.Post? && k < |s.tlb|
    ensures Shaped(Apply(s, a)) && k < |Apply(s, a).tlb| && Covered(Apply(s, a), k, page)
  {
    hide Inv, Heading;
    InvAt(s, k, page);
    StepShaped(s, a);
    var t := Apply(s, a);
    if Stale(t, k, page) {
      if !Stale(s, k, page) {
        assert a.Start?;
        assert Heading(t, a.core, k, page) by { StartHeads(s, a, k); }
      } else if !Noted(t, k, page) {
        if c :| 0 <= c < |s.tlb| && Heading(s, c, k, page) {
          if a == Flush(c) && k == c {
            FlushClears(s, c, page);
          } else {
            StepHeading(s, a, c, k, page);
          }
        }
      }
    }
  }

  lemma InvAt(s: Machine, k: nat, page: nat)
    requires Inv(s) && k < |s.tlb|
    ensures Shaped(s) && Covered(s, k, page) && Signalled(s, k)
  {
  }

  lemma StartHeads(s: Machine, a: Step, k: nat)
    requires Shaped(s) && a.Start? && Possible(s, a) && k < |s.tlb|
    ensures Shaped(Apply(s, a)) && a.core < |Apply(s, a).tlb| && Heading(Apply(s, a), a.core, k, a.page)
  {
  }

  lemma FlushClears(s: Machine, c: nat, page: nat)
    requires Shaped(s) && Possible(s, Flush(c)) && Heading(s, c, c, page)
    ensures !Stale(Apply(s, Flush(c)), c, page)
  {
  }

  /** A post, to the core it reaches and to any other. */
  lemma PostCovered(s: Machine, c: nat, k: nat, page: nat)
    requires Inv(s) && Possible(s, Post(c)) && k < |s.tlb|
    ensures Shaped(PostTo(s, c)) && k < |PostTo(s, c).tlb|
    ensures var j := s.jobs[c].value;
            Covered(PostTo(s, c), k, page) <==>
            || k != j.next || k == c
            || (page == j.page && page != 0) || (page != j.page && page != s.mailbox[k]) || (page == 0 && j.page != 0)
            || Spared(s, c, k, page)
  {
    hide Inv;
    InvAt(s, k, page);
    StepShaped(s, Post(c));
    var j, t := s.jobs[c].value, PostTo(s, c);
    assert Stale(t, k, page) == Stale(s, k, page);
    forall d | 0 <= d < |s.tlb|
      ensures Heading(t, d, k, page) <==> Heading(s, d, k, page) && !(d == c && k == j.next && k != c)
    {
    }
  }

  lemma StepSignalled(s: Machine, a: Step, k: nat)
    requires Inv(s) && Possible(s, a) && k < |s.tlb|
    ensures Shaped(Apply(s, a)) && k < |Apply(s, a).tlb| && Signalled(Apply(s, a), k)
  {
    hide Inv;
    InvAt(s, k, 0);
    StepShaped(s, a);
  }

  /** A step keeps every stale translation covered exactly when it is safe. */
  lemma StepInv(s: Machine, a: Step)
    requires Inv(s) && Possible(s, a)
    ensures Inv(Apply(s, a)) <==> Safe(s, a)
  {
    hide Covered, Signalled, Spared;
    StepShaped(s, a);
    var t := Apply(s, a);
    forall k | 0 <= k < |t.tlb|
      ensures Signalled(t, k)
    {
      StepSignalled(s, a, k);
    }
    if a.Post? {
      var j := s.jobs[a.core].value;
      PostCovered(s, a.core, j.next, s.mailbox[j.next]);
      PostCovered(s, a.core, j.next, 0);
      forall k, page: nat | 0 <= k < |t.tlb| && Safe(s, a)
        ensures Covered(t, k, page)
      {
        PostCovered(s, a.core, k, page);
      }
    } else {
      forall k, page: nat | 0 <= k < |t.tlb|
        ensures Covered(t, k, page)
      {
        StepCovered(s, a, k, page);
      }
    }
  }

  // ---- Every run ---------------------------------------------------------------------------------------------------

  ghost predicate CanRun(s: Machine, steps: seq<Step>)
    decreases |steps|
  {
    steps != [] ==> Shaped(s) && Possible(s, steps[0]) && CanRun(Apply(s, steps[0]), steps[1..])
  }

  ghost function Run(s: Machine, steps: seq<Step>): Machine
    requires CanRun(s, steps)
    decreases |steps|
  {
    if steps == [] then s else Run(Apply(s, steps[0]), steps[1..])
  }

  ghost predicate SafeRun(s: Machine, steps: seq<Step>)
    requires CanRun(s, steps)
    decreases |steps|
  {
    steps != [] ==> Safe(s, steps[0]) && SafeRun(Apply(s, steps[0]), steps[1..])
  }

  function Cold(n: nat, table: map<nat, nat>): Machine {
    Machine(table, seq(n, i => map[]), seq(n, i => 0), seq(n, i => false), seq(n, i => false), seq(n, i => None), None)
  }

  lemma {:induction false} RunInv(s: Machine, steps: seq<Step>)
    requires Inv(s) && CanRun(s, steps) && SafeRun(s, steps)
    ensures Inv(Run(s, steps))
    decreases |steps|
  {
    hide Covered, Signalled, Apply, Possible, Safe;
    if steps != [] {
      StepInv(s, steps[0]);
      RunInv(Apply(s, steps[0]), steps[1..]);
    }
  }

  /** No interrupt is pending or being handled, and no shootdown is under way. */
  predicate Quiet(s: Machine) {
    && (forall k :: 0 <= k < |s.ipi| ==> !s.ipi[k])
    && (forall k :: 0 <= k < |s.handling| ==> !s.handling[k])
    && (forall c :: 0 <= c < |s.jobs| ==> s.jobs[c].None?)
  }

  /**
   * Coherence: on any number of cores and with any number of shootdowns under way at once, after any run of
   * safe steps, whenever nothing is pending every cached translation is the one the page table gives.
   */
  lemma Coherent(n: nat, table: map<nat, nat>, steps: seq<Step>, k: nat, page: nat)
    requires CanRun(Cold(n, table), steps) && SafeRun(Cold(n, table), steps)
    ensures var t := Run(Cold(n, table), steps);
            Quiet(t) && k < |t.tlb| && page in t.tlb[k] ==> page in t.table && t.table[page] == t.tlb[k][page]
  {
    hide CanRun, Run, Signalled, SafeRun;
    assert Inv(Cold(n, table)) by { ColdInv(n, table); }
    RunInv(Cold(n, table), steps);
    var t := Run(Cold(n, table), steps);
    if k < |t.tlb| {
      assert Covered(t, k, page);
    }
  }

  lemma ColdInv(n: nat, table: map<nat, nat>)
    ensures Inv(Cold(n, table))
  {
  }

  // ---- Two ways to be safe -----------------------------------------------------------------------------------------

  /** A post of a page other than 0 to a mailbox that is clear or holds that page is safe, whoever else is at it. */
  lemma GentleSafe(s: Machine, c: nat)
    requires Shaped(s) && Possible(s, Post(c))
    requires var j := s.jobs[c].value; j.page != 0 && s.mailbox[j.next] in {0, j.page}
    ensures Safe(s, Post(c))
  {
  }

  predicate Clear(s: Machine) {
    forall k :: 0 <= k < |s.mailbox| ==> s.mailbox[k] == 0
  }

  predicate Idle(s: Machine) {
    forall c :: 0 <= c < |s.jobs| ==> s.jobs[c].None?
  }

  /** A shootdown starts only when all mailboxes are clear and no other one is under way, and not for page 0. */
  predicate Careful(s: Machine, a: Step) {
    a.Start? ==> Clear(s) && Idle(s) && a.page != 0
  }

  ghost predicate CarefulRun(s: Machine, steps: seq<Step>)
    requires CanRun(s, steps)
    decreases |steps|
  {
    steps != [] ==> Careful(s, steps[0]) && CarefulRun(Apply(s, steps[0]), steps[1..])
  }

  /** The shootdown of core c is the only one, and the mailboxes it has still to reach are clear. */
  predicate Alone(s: Machine, c: nat)
    requires Shaped(s) && c < |s.tlb|
  {
    s.jobs[c].Some? ==>
      && s.jobs[c].value.page != 0
      && (forall d :: 0 <= d < |s.tlb| && d != c ==> s.jobs[d].None?)
      && (forall k :: s.jobs[c].value.next <= k < |s.tlb| ==> s.mailbox[k] == 0)
  }

  ghost predicate OneByOne(s: Machine) {
    Shaped(s) && forall c :: 0 <= c < |s.tlb| ==> Alone(s, c)
  }

  lemma StepAlone(s: Machine, a: Step, c: nat)
    requires OneByOne(s) && Possible(s, a) && Careful(s, a) && c < |s.tlb|
    ensures Shaped(Apply(s, a)) && c < |Apply(s, a).tlb| && Alone(Apply(s, a), c)
  {
    StepShaped(s, a);
    assert Alone(s, c);
    if a.Post? {
      assert Alone(s, a.core);
    }
  }

  lemma CarefulSafe(s: Machine, a: Step)
    requires OneByOne(s) && Possible(s, a) && Careful(s, a)
    ensures OneByOne(Apply(s, a)) && Safe(s, a)
  {
    hide Alone;
    StepShaped(s, a);
    forall c | 0 <= c < |s.tlb|
      ensures Alone(Apply(s, a), c)
    {
      StepAlone(s, a, c);
    }
    if a.Post? {
      assert Alone(s, a.core);
      AloneGentle(s, a.core);
    }
  }

  lemma AloneGentle(s: Machine, c: nat)
    requires Shaped(s) && Possible(s, Post(c)) && Alone(s, c)
    ensures Safe(s, Post(c))
  {
    GentleSafe(s, c);
  }

  lemma {:induction false} CarefulRunSafe(s: Machine, steps: seq<Step>)
    requires OneByOne(s) && CanRun(s, steps) && CarefulRun(s, steps)
    ensures SafeRun(s, steps)
    decreases |steps|
  {
    hide OneByOne, Apply, Possible, Safe, Careful;
    if steps != [] {
      CarefulSafe(s, steps[0]);
      CarefulRunSafe(Apply(s, steps[0]), steps[1..]);
    }
  }

  /** So shootdowns started one by one, each after all mailboxes were cleared, keep the TLBs coherent. */
  lemma CarefulCoherent(n: nat, table: map<nat, nat>, steps: seq<Step>, k: nat, page: nat)
    requires CanRun(Cold(n, table), steps) && CarefulRun(Cold(n, table), steps)
    ensures var t := Run(Cold(n, table), steps);
            Quiet(t) && k < |t.tlb| && page in t.tlb[k] ==> page in t.table && t.table[page] == t.tlb[k][page]
  {
    hide CanRun, Run, SafeRun, CarefulRun, Quiet;
    assert OneByOne(Cold(n, table));
    CarefulRunSafe(Cold(n, table), steps);
    Coherent(n, table, steps, k, page);
  }

  // ---- Whole shootdowns --------------------------------------------------------------------------------------------

  /** The mailboxes and interrupt bits after k turns of core c's loop. */
  function Posted(s: Machine, c: nat, page: nat, k: nat): (t: Machine)
    requires Shaped(s) && c < |s.tlb| && k <= |s.tlb|
    ensures Shaped(t) && |t.tlb| == |s.tlb|
  {
    s.(mailbox := seq(|s.tlb|, i requires 0 <= i < |s.tlb| => if i < k && i != c then page else s.mailbox[i]),
       ipi := seq(|s.tlb|, i requires 0 <= i < |s.tlb| => (i < k && i != c) || s.ipi[i]))
  }

  lemma PostedNone(s: Machine, c: nat, page: nat)
    requires Shaped(s) && c < |s.tlb|
    ensures Posted(s, c, page, 0) == s
  {
    assert Posted(s, c, page, 0).mailbox == s.mailbox && Posted(s, c, page, 0).ipi == s.ipi;
  }

  lemma PostedNext(s: Machine, c: nat, page: nat, k: nat)
    requires Shaped(s) && c < |s.tlb| && k < |s.tlb|
    ensures var t := Posted(s, c, page, k);
            Posted(s, c, page, k + 1) ==
            if k == c then t else t.(mailbox := t.mailbox[k := page], ipi := t.ipi[k := true])
  {
    var t, u := Posted(s, c, page, k), Posted(s, c, page, k + 1);
    assert u.mailbox == if k == c then t.mailbox else t.mailbox[k := page];
    assert u.ipi == if k == c then t.ipi else t.ipi[k := true];
  }

  /** A whole shootdown: the page in every other core's mailbox, an interrupt pending there, and the own entry gone. */
  function Shot(s: Machine, c: nat, page: nat): (t: Machine)
    requires Shaped(s) && c < |s.tlb|
    ensures Shaped(t) && |t.tlb| == |s.tlb|
  {
    Posted(s, c, page, |s.tlb|).(tlb := s.tlb[c := Invalidate(s.tlb[c], page)])
  }

  function Posts(c: nat, k: nat): seq<Step> {
    if k == 0 then [] else [Post(c)] + Posts(c, k - 1)
  }

  /** The steps of core c from the lock on, on n cores. */
  function Shootdown(c: nat, n: nat): seq<Step> {
    [Lock(c)] + (Posts(c, n) + ([Unlock(c)] + [Flush(c)]))
  }

  /** Running a first step and then the rest. */
  ghost predicate Leads(s: Machine, steps: seq<Step>, t: Machine) {
    CanRun(s, steps) && Run(s, steps) == t
  }

  lemma LeadsNowhere(s: Machine)
    ensures Leads(s, [], s)
  {
  }

  lemma LeadsFirst(s: Machine, a: Step, rest: seq<Step>, t: Machine)
    requires Shaped(s) && Possible(s, a) && Leads(Apply(s, a), rest, t)
    ensures Leads(s, [a] + rest, t)
  {
    hide Apply, Possible;
    assert ([a] + rest)[1..] == rest;
  }

  lemma LeadsOne(s: Machine, a: Step, t: Machine)
    requires Shaped(s) && Possible(s, a) && Apply(s, a) == t
    ensures Leads(s, [a], t)
  {
    LeadsNowhere(t);
    LeadsFirst(s, a, [], t);
    assert [a] + [] == [a];
  }

  lemma {:induction false} LeadsOn(s: Machine, first: seq<Step>, t: Machine, rest: seq<Step>, u: Machine)
    requires Leads(s, first, t) && Leads(t, rest, u)
    ensures Leads(s, first + rest, u)
    decreases |first|
  {
    hide Apply, Possible;
    if first == [] {
      assert first + rest == rest;
    } else {
      LeadsOn(Apply(s, first[0]), first[1..], t, rest, u);
      assert (first + rest)[1..] == first[1..] + rest;
    }
  }

  lemma {:induction false} PostsLead(s: Machine, c: nat, page: nat, k: nat)
    requires Shaped(s) && c < |s.tlb| && k <= |s.tlb| && !s.handling[c] && s.lock == Some(c)
    requires s.jobs[c] == Some(Job(page, k))
    ensures var n := |s.tlb|;
            Leads(Posted(s, c, page, k), Posts(c, n - k),
                  Posted(s, c, page, n).(jobs := s.jobs[c := Some(Job(page, n))]))
    decreases |s.tlb| - k
  {
    hide Leads;
    var n := |s.tlb|;
    var u := Posted(s, c, page, k);
    if k == n {
      assert s.jobs[c := Some(Job(page, n))] == s.jobs;
      LeadsNowhere(u);
    } else {
      var s' := s.(jobs := s.jobs[c := Some(Job(page, k + 1))]);
      PostsLead(s', c, page, k + 1);
      assert s'.jobs[c := Some(Job(page, n))] == s.jobs[c := Some(Job(page, n))];
      assert Apply(u, Post(c)) == Posted(s', c, page, k + 1);
      LeadsFirst(u, Post(c), Posts(c, n - k - 1), Posted(s, c, page, n).(jobs := s.jobs[c := Some(Job(page, n))]));
    }
  }

  /** The steps of one core, taken without another core in between, add up to the whole shootdown. */
  lemma ShootdownLeads(s: Machine, c: nat, page: nat)
    requires Shaped(s) && c < |s.tlb| && !s.handling[c] && s.lock.None? && s.jobs[c] == Some(Job(page, 0))
    ensures Leads(s, Shootdown(c, |s.tlb|), Shot(s, c, page).(jobs := s.jobs[c := None]))
  {
    hide Leads, Posts;
    var n := |s.tlb|;
    var s1 := s.(lock := Some(c));
    assert Posted(s1, c, page, 0) == s1;
    PostsLead(s1, c, page, 0);
    var s2 := Posted(s1, c, page, n).(jobs := s.jobs[c := Some(Job(page, n))]);
    var s3 := s2.(lock := None);
    var s4 := Shot(s, c, page).(jobs := s.jobs[c := None]);
    assert Apply(s3, Flush(c)) == s4 by { assert s3.jobs[c := None] == s4.jobs; }
    LeadsOne(s3, Flush(c), s4);
    LeadsFirst(s2, Unlock(c), [Flush(c)], s4);
    LeadsOn(s1, Posts(c, n), s2, [Unlock(c)] + [Flush(c)], s4);
    LeadsFirst(s, Lock(c), Posts(c, n) + ([Unlock(c)] + [Flush(c)]), s4);
  }

  /** The interrupt and the handler. */
  lemma HandledLeads(s: Machine, c: nat)
    requires Shaped(s) && c < |s.tlb| && s.ipi[c] && !s.handling[c] && s.lock.None?
    ensures Leads(s, [Interrupt(c)] + [Handle(c)], HandleOn(s.(ipi := s.ipi[c := false]), c))
  {
    hide Leads;
    var s1 := Apply(s, Interrupt(c));
    var s2 := HandleOn(s.(ipi := s.ipi[c := false]), c);
    assert s1.handling[c := false] == s.handling;
    assert s.handling[c := false] == s.handling;
    assert Apply(s1, Handle(c)) == s2;
    LeadsOne(s1, Handle(c), s2);
    LeadsFirst(s, Interrupt(c), [Handle(c)], s2);
  }

  // ---- Runs that are not safe --------------------------------------------------------------------------------------

  /** Core c takes the page out of the table, and shoots it down without another core in between. */
  function Unmapping(c: nat, page: nat, n: nat): seq<Step> {
    [Start(c, page, None)] + Shootdown(c, n)
  }

  function Handling(c: nat): seq<Step> {
    [Interrupt(c)] + [Handle(c)]
  }

  lemma UnmappingLeads(s: Machine, c: nat, page: nat)
    requires Shaped(s) && c < |s.tlb| && !s.handling[c] && s.lock.None? && s.jobs[c].None?
    ensures Leads(s, Unmapping(c, page, |s.tlb|), Shot(s, c, page).(table := s.table - {page}))
  {
    hide Leads, Shootdown;
    var s1 := Apply(s, Start(c, page, None));
    ShootdownLeads(s1, c, page);
    assert s1.jobs[c := None] == s.jobs;
    LeadsFirst(s, Start(c, page, None), Shootdown(c, |s.tlb|), Shot(s, c, page).(table := s.table - {page}));
  }

  /** Two cores, idle but for what core 1 caches and has been sent. */
  function Pair(table: map<nat, nat>, cached: map<nat, nat>, sent: nat, pending: bool): Machine {
    Machine(table, [map[], cached], [0, sent], [false, pending], [false, false], [None, None], None)
  }

  lemma PairUnmaps(table: map<nat, nat>, cached: map<nat, nat>, sent: nat, pending: bool, page: nat)
    ensures Leads(Pair(table, cached, sent, pending), Unmapping(0, page, 2), Pair(table - {page}, cached, page, true))
  {
    hide Leads, Unmapping;
    var s := Pair(table, cached, sent, pending);
    UnmappingLeads(s, 0, page);
    var t := Shot(s, 0, page);
    assert t.mailbox == [0, page] && t.ipi == [false, true];
    assert s.tlb[0 := Invalidate(s.tlb[0], page)] == s.tlb;
  }

  lemma PairHandles(table: map<nat, nat>, cached: map<nat, nat>, sent: nat)
    requires sent !in cached || sent == 0
    ensures Leads(Pair(table, cached, sent, true), Handling(1), Pair(table, cached, 0, false))
  {
    hide Leads;
    var s := Pair(table, cached, sent, true);
    HandledLeads(s, 1);
    assert s.ipi[1 := false] == [false, false];
    assert s.handling[1 := false] == s.handling;
    assert sent !in cached ==> Invalidate(cached, sent) == cached;
    assert s.tlb[1 := cached] == s.tlb && s.mailbox[1 := 0] == [0, 0];
  }

  lemma PairCold(table: map<nat, nat>)
    ensures Cold(2, table) == Pair(table, map[], 0, false)
  {
    var s, t := Cold(2, table), Pair(table, map[], 0, false);
    assert s.tlb == t.tlb && s.mailbox == t.mailbox && s.ipi == t.ipi && s.handling == t.handling && s.jobs == t.jobs;
  }

  lemma PairFills(table: map<nat, nat>, page: nat)
    requires page in table
    ensures Leads(Cold(2, table), [Fill(1, page)], Pair(table, map[page := table[page]], 0, false))
  {
    hide Leads;
    PairCold(table);
    var s, t := Cold(2, table), Pair(table, map[page := table[page]], 0, false);
    assert s.tlb[1 := Remember(s.tlb[1], page, table[page])] == t.tlb;
    LeadsOne(s, Fill(1, page), t);
  }

  /**
   * Two shootdowns in a row, from a cold start, to a core that has not handled the first: its mailbox is
   * overwritten, and once it has handled the interrupt nothing is pending and its translation is stale.
   */
  lemma OverwriteLoses()
    ensures var s := Cold(2, map[4096 := 7, 8192 := 8]);
            var steps := [Fill(1, 4096)] + (Unmapping(0, 4096, 2) + (Unmapping(0, 8192, 2) + Handling(1)));
            CanRun(s, steps) && var t := Run(s, steps); Quiet(t) && |t.tlb| == 2 && Stale(t, 1, 4096)
  {
    hide CanRun, Run, Unmapping, Handling;
    var table: map<nat, nat> := map[4096 := 7, 8192 := 8];
    var cached: map<nat, nat> := map[4096 := 7];
    var s1 := Pair(table, cached, 0, false);
    var s2 := Pair(table - {4096}, cached, 4096, true);
    var s3 := Pair(table - {4096} - {8192}, cached, 8192, true);
    var s4 := Pair(table - {4096} - {8192}, cached, 0, false);
    PairFills(table, 4096);
    PairUnmaps(table, cached, 0, false, 4096);
    PairUnmaps(table - {4096}, cached, 4096, true, 8192);
    PairHandles(table - {4096} - {8192}, cached, 8192);
    LeadsOn(s2, Unmapping(0, 8192, 2), s3, Handling(1), s4);
    LeadsOn(s1, Unmapping(0, 4096, 2), s2, Unmapping(0, 8192, 2) + Handling(1), s4);
    LeadsOn(Cold(2, table), [Fill(1, 4096)], s1, Unmapping(0, 4096, 2) + (Unmapping(0, 8192, 2) + Handling(1)), s4);
  }

  /** One shootdown of page 0, from a cold start: the other core's translation of page 0 stays stale. */
  lemma PageZeroLoses()
    ensures var s := Cold(2, map[0 := 7]);
            var steps := [Fill(1, 0)] + (Unmapping(0, 0, 2) + Handling(1));
            CanRun(s, steps) && var t := Run(s, steps); Quiet(t) && |t.tlb| == 2 && Stale(t, 1, 0)
  {
    hide CanRun, Run, Unmapping, Handling;
    var table: map<nat, nat> := map[0 := 7];
    var s1 := Pair(table, table, 0, false);
    var s2 := Pair(table - {0}, table, 0, true);
    var s3 := Pair(table - {0}, table, 0, false);
    assert map[0 := table[0]] == table;
    PairFills(table, 0);
    PairUnmaps(table, table, 0, false, 0);
    PairHandles(table - {0}, table, 0);
    LeadsOn(s1, Unmapping(0, 0, 2), s2, Handling(1), s3);
    LeadsOn(Cold(2, table), [Fill(1, 0)], s1, Unmapping(0, 0, 2) + Handling(1), s3);
  }

  /** Three cores: what is in the table and in the mailboxes, and where interrupts are pending; core 2 caches a page. */
  function Trio(table: map<nat, nat>, mailbox: seq<nat>, ipi: seq<bool>, jobs: seq<Option<Job>>): Machine {
    Machine(table, [map[], map[], map[4096 := 7]], mailbox, ipi, [false, false, false], jobs, None)
  }

  lemma TrioFills(table: map<nat, nat>)
    requires 4096 in table && table[4096] == 7
    ensures var s := Cold(3, table);
            && Shaped(s) && Possible(s, Fill(2, 4096))
            && Apply(s, Fill(2, 4096)) == Trio(table, [0, 0, 0], [false, false, false], [None, None, None])
  {
    var s, t := Cold(3, table), Trio(table, [0, 0, 0], [false, false, false], [None, None, None]);
    assert s.tlb[2 := Remember(s.tlb[2], 4096, 7)] == t.tlb;
    assert s.mailbox == t.mailbox && s.ipi == t.ipi && s.handling == t.handling && s.jobs == t.jobs;
  }

  /** Cores 0 and 1 have each changed the table and not yet taken the lock; all mailboxes are clear. */
  lemma BothStart()
    ensures var table: map<nat, nat> := map[4096 := 7, 8192 := 8];
            Leads(Cold(3, table), [Fill(2, 4096)] + ([Start(0, 4096, None)] + [Start(1, 8192, None)]),
                  Trio(table - {4096} - {8192}, [0, 0, 0], [false, false, false],
                       [Some(Job(4096, 0)), Some(Job(8192, 0)), None]))
  {
    hide Leads;
    var table: map<nat, nat> := map[4096 := 7, 8192 := 8];
    var s := Cold(3, table);
    var idle: seq<Option<Job>> := [None, None, None];
    var one: seq<Option<Job>> := [Some(Job(4096, 0)), None, None];
    var both: seq<Option<Job>> := [Some(Job(4096, 0)), Some(Job(8192, 0)), None];
    var s1 := Trio(table, [0, 0, 0], [false, false, false], idle);
    var s2 := Trio(table - {4096}, [0, 0, 0], [false, false, false], one);
    var s3 := Trio(table - {4096} - {8192}, [0, 0, 0], [false, false, false], both);
    TrioFills(table);
    assert idle[0 := Some(Job(4096, 0))] == one && one[1 := Some(Job(8192, 0))] == both;
    LeadsOne(s2, Start(1, 8192, None), s3);
    LeadsFirst(s1, Start(0, 4096, None), [Start(1, 8192, None)], s3);
    LeadsFirst(s, Fill(2, 4096), [Start(0, 4096, None)] + [Start(1, 8192, None)], s3);
  }

  lemma TrioShoots(table: map<nat, nat>, a: nat, b: nat, m: nat, ipi: seq<bool>, jobs: seq<Option<Job>>,
                   c: nat, page: nat)
    requires |ipi| == 3 && |jobs| == 3 && c < 2 && jobs[c] == Some(Job(page, 0))
    requires forall i :: 0 <= i < 3 && jobs[i].Some? ==> jobs[i].value.next <= 3
    ensures Leads(Trio(table, [a, b, m], ipi, jobs), Shootdown(c, 3),
                  Trio(table, if c == 0 then [a, page, page] else [page, b, page],
                       if c == 0 then [ipi[0], true, true] else [true, ipi[1], true], jobs[c := None]))
  {
    hide Leads, Shootdown;
    var s := Trio(table, [a, b, m], ipi, jobs);
    ShootdownLeads(s, c, page);
    var t := Shot(s, c, page);
    assert t.mailbox == if c == 0 then [a, page, page] else [page, b, page];
    assert t.ipi == if c == 0 then [ipi[0], true, true] else [true, ipi[1], true];
    assert s.tlb[c := Invalidate(s.tlb[c], page)] == s.tlb;
  }

  lemma TrioHandles(table: map<nat, nat>, mailbox: seq<nat>, ipi: seq<bool>, c: nat)
    requires |ipi| == 3 && |mailbox| == 3 && c < 3 && ipi[c] && (c == 2 ==> mailbox[c] != 4096)
    ensures Leads(Trio(table, mailbox, ipi, [None, None, None]), Handling(c),
                  Trio(table, mailbox[c := 0], ipi[c := false], [None, None, None]))
  {
    hide Leads;
    var s := Trio(table, mailbox, ipi, [None, None, None]);
    HandledLeads(s, c);
    assert Invalidate(s.tlb[c], mailbox[c]) == s.tlb[c];
    assert s.tlb[c := s.tlb[c]] == s.tlb && s.handling[c := false] == s.handling;
    assert mailbox[c] == 0 ==> mailbox[c := 0] == mailbox;
    assert HandleOn(s.(ipi := ipi[c := false]), c) == Trio(table, mailbox[c := 0], ipi[c := false], [None, None, None]);
  }

  /** Core 0 posts, core 1 posts over it, and each core handles what it finds. */
  lemma OverlapEnds(table: map<nat, nat>)
    ensures Leads(Trio(table, [0, 0, 0], [false, false, false], [Some(Job(4096, 0)), Some(Job(8192, 0)), None]),
                  Shootdown(0, 3) + (Shootdown(1, 3) + (Handling(0) + (Handling(1) + Handling(2)))),
                  Trio(table, [0, 0, 0], [false, false, false], [None, None, None]))
  {
    hide Shootdown, Handling, Leads, Trio;
    var none: seq<Option<Job>> := [None, None, None];
    var first: seq<Option<Job>> := [Some(Job(4096, 0)), Some(Job(8192, 0)), None];
    var second: seq<Option<Job>> := [None, Some(Job(8192, 0)), None];
    var s1 := Trio(table, [0, 0, 0], [false, false, false], first);
    var s2 := Trio(table, [0, 4096, 4096], [false, true, true], second);
    var s3 := Trio(table, [8192, 4096, 8192], [true, true, true], none);
    var s6 := Trio(table, [0, 0, 0], [false, false, false], none);
    assert first[0 := None] == second && second[1 := None] == none;
    TrioShoots(table, 0, 0, 0, [false, false, false], first, 0, 4096);
    TrioShoots(table, 0, 4096, 4096, [false, true, true], second, 1, 8192);
    AllHandle(table);
    LeadsOn(s2, Shootdown(1, 3), s3, Handling(0) + (Handling(1) + Handling(2)), s6);
    LeadsOn(s1, Shootdown(0, 3), s2, Shootdown(1, 3) + (Handling(0) + (Handling(1) + Handling(2))), s6);
  }

  lemma AllHandle(table: map<nat, nat>)
    ensures Leads(Trio(table, [8192, 4096, 8192], [true, true, true], [None, None, None]),
                  Handling(0) + (Handling(1) + Handling(2)),
                  Trio(table, [0, 0, 0], [false, false, false], [None, None, None]))
  {
    hide Handling, Leads, Trio;
    var none: seq<Option<Job>> := [None, None, None];
    var a: seq<nat> := [8192, 4096, 8192];
    var b := [true, true, true];
    TrioHandles(table, a, b, 0);
    TrioHandles(table, a[0 := 0], b[0 := false], 1);
    TrioHandles(table, a[0 := 0][1 := 0], b[0 := false][1 := false], 2);
    assert a[0 := 0][1 := 0][2 := 0] == [0, 0, 0] && b[0 := false][1 := false][2 := false] == [false, false, false];
    var s3, s4 := Trio(table, a, b, none), Trio(table, a[0 := 0], b[0 := false], none);
    var s5 := Trio(table, a[0 := 0][1 := 0], b[0 := false][1 := false], none);
    var s6 := Trio(table, [0, 0, 0], [false, false, false], none);
    LeadsOn(s4, Handling(1), s5, Handling(2), s6);
    LeadsOn(s3, Handling(0), s4, Handling(1) + Handling(2), s6);
  }

  /**
   * Two shootdowns at once, each begun when all mailboxes were clear: the second to get the lock overwrites
   * core 2's mailbox, and at the end nothing is pending and core 2's translation is stale.
   */
  lemma OverlapLoses()
    ensures var s := Cold(3, map[4096 := 7, 8192 := 8]);
            var begin := [Fill(2, 4096)] + ([Start(0, 4096, None)] + [Start(1, 8192, None)]);
            var steps := begin + (Shootdown(0, 3) + (Shootdown(1, 3) + (Handling(0) + (Handling(1) + Handling(2)))));
            && CanRun(s, begin) && Clear(Run(s, begin))
            && CanRun(s, steps) && var t := Run(s, steps); Quiet(t) && |t.tlb| == 3 && Stale(t, 2, 4096)
  {
    hide CanRun, Run, Shootdown, Handling, Leads, Cold;
    var table: map<nat, nat> := map[4096 := 7, 8192 := 8];
    var after := table - {4096} - {8192};
    var begin := [Fill(2, 4096)] + ([Start(0, 4096, None)] + [Start(1, 8192, None)]);
    var rest := Shootdown(0, 3) + (Shootdown(1, 3) + (Handling(0) + (Handling(1) + Handling(2))));
    var s1 := Trio(after, [0, 0, 0], [false, false, false], [Some(Job(4096, 0)), Some(Job(8192, 0)), None]);
    var s6 := Trio(after, [0, 0, 0], [false, false, false], [None, None, None]);
    BothStart();
    OverlapEnds(after);
    LeadsOn(Cold(3, table), begin, s1, rest, s6);
    LeadsTo(Cold(3, table), begin, s1);
    LeadsTo(Cold(3, table), begin + rest, s6);
  }

  // ---- A core that interrupts itself -------------------------------------------------------------------------------

  /** Core c spins in its handler on the lock that it holds itself. */
  predicate Stuck(s: Machine, c: nat)
    requires Shaped(s)
  {
    c < |s.tlb| && s.lock == Some(c) && s.handling[c]
  }

  /** A core gets stuck exactly when its interrupt comes while it holds the lock, and is so from then on. */
  lemma StuckExactly(s: Machine, a: Step, c: nat)
    requires Shaped(s) && Possible(s, a)
    ensures Shaped(Apply(s, a))
    ensures Stuck(Apply(s, a), c) <==> Stuck(s, c) || (a == Interrupt(c) && s.lock == Some(c))
    ensures Stuck(s, c) ==> Apply(s, a).mailbox == s.mailbox
  {
    StepShaped(s, a);
  }

  /** Then no mailbox is read or written again, by any core, in any run. */
  lemma {:induction false} StuckForGood(s: Machine, steps: seq<Step>, c: nat)
    requires Shaped(s) && CanRun(s, steps) && Stuck(s, c)
    ensures Shaped(Run(s, steps)) && Stuck(Run(s, steps), c) && Run(s, steps).mailbox == s.mailbox
    decreases |steps|
  {
    hide Apply, Possible, Stuck;
    if steps != [] {
      StuckExactly(s, steps[0], c);
      StuckForGood(Apply(s, steps[0]), steps[1..], c);
    }
  }

  lemma LockedOut(s: Machine) returns (t: Machine)
    requires Shaped(s) && |s.tlb| == 2 && s.jobs[1].None? && !s.handling[1] && s.lock.None? && s.ipi[1]
    ensures Leads(s, [Start(1, 8192, None)] + ([Lock(1)] + [Interrupt(1)]), t) && Shaped(t) && Stuck(t, 1)
  {
    hide Leads;
    var s1 := Apply(s, Start(1, 8192, None));
    var s2 := Apply(s1, Lock(1));
    t := Apply(s2, Interrupt(1));
    LeadsOne(s2, Interrupt(1), t);
    LeadsFirst(s1, Lock(1), [Interrupt(1)], t);
    LeadsFirst(s, Start(1, 8192, None), [Lock(1)] + [Interrupt(1)], t);
  }

  /** It can happen: core 1 is sent a page, begins a shootdown of its own, and is interrupted with the lock in hand. */
  lemma SelfInterrupt()
    ensures var s := Cold(2, map[4096 := 7, 8192 := 8]);
            var steps := Unmapping(0, 4096, 2) + ([Start(1, 8192, None)] + ([Lock(1)] + [Interrupt(1)]));
            CanRun(s, steps) && Shaped(Run(s, steps)) && Stuck(Run(s, steps), 1)
  {
    hide Leads, Unmapping;
    var table: map<nat, nat> := map[4096 := 7, 8192 := 8];
    var s := Cold(2, table);
    PairCold(table);
    PairUnmaps(table, map[], 0, false, 4096);
    var s2 := Pair(table - {4096}, map[], 4096, true);
    var s5 := LockedOut(s2);
    LeadsOn(s, Unmapping(0, 4096, 2), s2, [Start(1, 8192, None)] + ([Lock(1)] + [Interrupt(1)]), s5);
    LeadsTo(s, Unmapping(0, 4096, 2) + ([Start(1, 8192, None)] + ([Lock(1)] + [Interrupt(1)])), s5);
  }

  lemma LeadsTo(s: Machine, steps: seq<Step>, t: Machine)
    requires Leads(s, steps, t)
    ensures CanRun(s, steps) && Run(s, steps) == t
  {
  }

  // ---- The handler and page 0 --------------------------------------------------------------------------------------

  /** The handler invalidates the page it was sent exactly when that is not page 0. */
  lemma PageZero(s: Machine, c: nat)
    requires Shaped(s) && c < |s.tlb| && Stale(s, c, s.mailbox[c])
    ensures Stale(HandleOn(s, c), c, s.mailbox[c]) <==> s.mailbox[c] == 0
  {
  }

  // ---- The code ----------------------------------------------------------------------------------------------------

  class Cores {
    var table: map<nat, nat>
    var tlb: seq<map<nat, nat>>
    var mailbox: seq<nat>
    var ipi: seq<bool>
    // Which cores are in the handler or in a shootdown, and who has the lock.
    ghost var handling: seq<bool>
    ghost var jobs: seq<Option<Job>>
    ghost var lock: Option<nat>

    ghost function State(): Machine
      reads this
    {
      Machine(table, tlb, mailbox, ipi, handling, jobs, lock)
    }

    /** tlb_shootdown on core c: every other core is told, then the own translation goes. */
    method TlbShootdown(c: nat, page: nat)
      requires Shaped(State()) && c < |tlb|
      modifies this`mailbox, this`ipi, this`tlb
      ensures Shaped(State()) && State() == Shot(old(State()), c, page)
    {
      hide Posted;
      ghost var s := State();
      PostedNone(s, c, page);
      for k := 0 to |tlb|
        invariant Shaped(State()) && tlb == s.tlb
        invariant State() == Posted(s, c, page, k)
      {
        if k != c {
          mailbox := mailbox[k := page];
          ipi := ipi[k := true];
        }
        PostedNext(s, c, page, k);
      }
      tlb := tlb[c := Invalidate(tlb[c], page)];
    }

    /** tlb_shootdown_handler on core c. */
    method TlbShootdownHandler(c: nat)
      requires Shaped(State()) && c < |tlb|
      modifies this`mailbox, this`tlb, this`handling
      ensures State() == HandleOn(old(State()), c)
    {
      var page := mailbox[c];
      if page != 0 {
        tlb := tlb[c := Invalidate(tlb[c], page)];
        mailbox := mailbox[c := 0];
      }
      handling := handling[c := false];
    }
  }
}
