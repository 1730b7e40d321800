/**
 * The event runner as the kernel runs it (kernel/src/events/event_runner.rs): queues, pending set and
 * clock updated in place. Every method is proved to take exactly the step that Events reasons about.
 */
module EventLoop {
  import opened Basics
  import opened Events

  class EventRunner {
    var queues: seq<seq<nat>>
    var rewake: seq<nat>
    var pending: set<nat>
    var current: Option<Current>
    var clock: nat
    // The fields of the shared event objects, and the counter that names events.
    var prio: map<nat, nat>
    var sched: map<nat, nat>
    var nextId: nat
    ghost var extra: map<nat, nat>

    ghost function State(): Runner
      reads this
    {
      Runner(queues, rewake, pending, clock, current, prio, sched, nextId, extra)
    }

    ghost predicate Valid()
      reads this
    {
      Sound(State())
    }

    constructor (firstId: nat)
      ensures Valid() && State() == Init(firstId)
    {
      queues, rewake, pending, current, clock := [[], [], [], []], [], {}, None, 0;
      prio, sched, nextId, extra := map[], map[], firstId, map[];
      new;
      InitSound(firstId);
    }

    method Schedule(level: nat) returns (eid: nat)
      requires Valid() && level < LEVELS
      modifies this
      ensures Valid() && State() == Events.Schedule(old(State()), level)
      ensures eid in pending && eid !in old(pending)
    {
      hide Total, Shaped, Counted;
      ShapedLevels(State());
      ScheduleSound(State(), level);
      FreshNowhere(State());
      eid := nextId;
      nextId := nextId + 1;
      prio, sched, extra := prio[eid := level], sched[eid := clock], extra[eid := 0];
      Enqueue(level, eid);
      pending := pending + {eid};
    }

    method Enqueue(level: nat, eid: nat)
      requires |queues| == LEVELS && level < LEVELS
      modifies this`queues
      ensures queues == old(queues)[level := old(queues)[level] + [eid]]
    {
      queues := queues[level := queues[level] + [eid]];
    }

    method TryPop(level: nat) returns (eid: Option<nat>)
      requires |queues| == LEVELS && level < LEVELS
      modifies this`queues
      ensures old(queues)[level] == [] ==> eid.None? && queues == old(queues)
      ensures old(queues)[level] != [] ==> eid == Some(old(queues)[level][0]) &&
                                           queues == old(queues)[level := old(queues)[level][1..]]
    {
      if queues[level] == [] {
        return None;
      }
      eid := Some(queues[level][0]);
      queues := queues[level := queues[level][1..]];
    }

    /** Wakers of an event push it back, alive or not. */
    method Wake(eid: nat)
      requires Valid() && Known(State(), eid)
      modifies this`rewake
      ensures Valid() && State() == Events.Wake(old(State()), eid)
    {
      WakeSound(State(), eid);
      rewake := rewake + [eid];
    }

    method Reprioritize()
      requires Shaped(State())
      modifies this`queues, this`prio, this`sched
      ensures State() == Events.Reprioritize(old(State()))
    {
      hide Shaped, Promote;
      ghost var s := State();
      ShapedLevels(s);
      for i := 1 to LEVELS
        invariant |queues| == LEVELS && Shaped(State())
        invariant State() == AgedTo(s, i)
      {
        ghost var before := State();
        PromoteShaped(before, i);
        if queues[i] != [] {
          FrontKnown(before, i);
          var scheduledClock := sched[queues[i][0]];
          if scheduledClock + PRIORITY_INC_DELAY <= clock {
            var moved := TryPop(i);
            Enqueue(i - 1, moved.value);
            prio, sched := prio[moved.value := i - 1], sched[moved.value := clock];
          }
        }
        PromoteIs(before, i, State());
        ShapedLevels(State());
      }
      AgedToAll(s);
    }

    method NextEvent() returns (picked: Option<Current>)
      requires Shaped(State())
      modifies this`queues, this`rewake, this`prio, this`sched
      ensures State() == Next(old(State())).0 && picked == Next(old(State())).1
    {
      if rewake != [] {
        picked := Some(Current(rewake[0], true));
        rewake := rewake[1..];
        return;
      }
      ReprioritizeShaped(State());
      Reprioritize();
      ghost var s1 := State();
      picked := None;
      var i := 0;
      while i < LEVELS && picked.None?
        invariant 0 <= i <= LEVELS && |s1.queues| == LEVELS
        invariant picked.None? ==> State() == s1 && FirstLevel(s1.queues, 0) == FirstLevel(s1.queues, i)
        invariant picked.Some? ==>
                    var l := FirstLevel(s1.queues, 0);
                    && l < LEVELS && picked == Some(Current(s1.queues[l][0], false))
                    && State() == s1.(queues := s1.queues[l := s1.queues[l][1..]])
        decreases LEVELS - i, picked.None?
      {
        var eid := TryPop(i);
        if eid.Some? {
          picked := Some(Current(eid.value, false));
        }
        i := i + 1;
      }
    }

    /** The loop body up to the poll. While anything is pending, it finds an event. */
    method BeginTurn()
      requires Valid() && current.None? && pending != {}
      modifies this
      ensures Valid() && State() == Begin(old(State()))
    {
      hide Shaped, Counted, Next;
      ghost var s := State();
      ShapedLevels(s);
      AlwaysPicks(s);
      BeginShaped(s);
      BeginCounted(s);
      NextShaped(s);
      var picked := NextEvent();
      if picked.value.eid in pending {
        clock := clock + 1;
        current := picked;
      }
    }

    /** The loop body after the poll returned. */
    method FinishTurn(ready: bool)
      requires Valid() && current.Some?
      modifies this
      ensures Valid() && State() == Finish(old(State()), ready)
    {
      FinishSound(State(), ready);
      var c := current.value;
      if !ready {
        Enqueue(prio[c.eid], c.eid);
        extra := extra[c.eid := extra[c.eid] + (if c.rewoken then 1 else 0)];
      } else {
        pending := pending - {c.eid};
      }
      current := None;
    }
  }

  /** The levels 1 up to i aged, lowest first. */
  ghost function AgedTo(s: Runner, i: nat): Runner
    requires |s.queues| == LEVELS && 1 <= i <= LEVELS
    ensures |AgedTo(s, i).queues| == LEVELS
  {
    if i == 1 then s else Promote(AgedTo(s, i - 1), i - 1)
  }

  lemma AgedToAll(s: Runner)
    requires |s.queues| == LEVELS
    ensures AgedTo(s, LEVELS) == Reprioritize(s)
  {
    hide Promote;
    assert AgedTo(s, 2) == Promote(s, 1);
    assert AgedTo(s, 3) == Promote(AgedTo(s, 2), 2);
  }

  /** The pop, the push and the two field updates make up one round of aging. */
  lemma PromoteIs(s: Runner, i: nat, t: Runner)
    requires 1 <= i < |s.queues|
    requires !Due(s, i) ==> t == s
    requires Due(s, i) ==>
               var e := s.queues[i][0];
               var popped := s.queues[i := s.queues[i][1..]];
               t == s.(queues := popped[i - 1 := popped[i - 1] + [e]],
                       prio := s.prio[e := i - 1], sched := s.sched[e := s.clock])
    ensures t == Promote(s, i)
  {
    assert t.queues == Promote(s, i).queues;
  }

  // ---- Scheduling in two halves ------------------------------------------------------------------------

  /** The first half of schedule: the event is queued, and not yet in the pending set. */
  function Queued(s: Runner, level: nat): Runner
    requires |s.queues| == LEVELS && level < LEVELS
  {
    Events.Schedule(s, level).(pending := s.pending)
  }

  function Inserted(s: Runner, e: nat): Runner {
    s.(pending := s.pending + {e})
  }

  lemma QueuedSound(s: Runner, level: nat)
    requires Sound(s) && level < LEVELS
    ensures Sound(Queued(s, level)) && Total(Queued(s, level).queues, s.nextId) == 1
  {
    hide Total;
    FreshNowhere(s);
    ScheduleSound(s, level);
    var u := Events.Schedule(s, level);
    var t := Queued(s, level);
    assert forall e :: Known(u, e) ==> Known(t, e);
    TotalPush(s.queues, level, s.nextId, s.nextId);
    forall e | e in t.pending
      ensures e in t.extra && Copies(t, e) == 1 + t.extra[e]
    {
      assert Copies(u, e) == 1 + u.extra[e];
    }
  }

  /** Nothing was rewoken, and nothing waits on the level or on one before it. */
  predicate FirstInLine(s: Runner, level: nat)
    requires |s.queues| == LEVELS && level < LEVELS
  {
    s.rewake == [] && forall j :: 0 <= j <= level ==> s.queues[j] == []
  }

  /** e was just scheduled on the level: nothing before that level holds it, and it is not due. */
  predicate JustQueued(s: Runner, e: nat, level: nat) {
    && |s.queues| == LEVELS && level < LEVELS && e in s.sched && s.sched[e] == s.clock
    && (forall j :: 0 <= j < level ==> e !in s.queues[j])
  }

  /** It is the first event of the first level that has one. */
  predicate Foremost(s: Runner, e: nat, level: nat)
    requires |s.queues| == LEVELS && level < LEVELS
  {
    (forall j :: 0 <= j < level ==> s.queues[j] == []) && s.queues[level] != [] && s.queues[level][0] == e
  }

  /** Aging does not overtake: whether the new event is foremost stays as it is. */
  lemma PromoteForemost(s: Runner, i: nat, e: nat, level: nat)
    requires JustQueued(s, e, level) && e in s.queues[level] && 1 <= i < LEVELS
    ensures var t := Promote(s, i);
            JustQueued(t, e, level) && e in t.queues[level] && (Foremost(t, e, level) <==> Foremost(s, e, level))
  {
    var t := Promote(s, i);
    if Due(s, i) {
      var x := s.queues[i][0];
      assert x != e;
      assert t.queues[i - 1] == s.queues[i - 1] + [x] && t.queues[i] == s.queues[i][1..];
      assert s.queues[i] == [x] + s.queues[i][1..];
      assert forall j :: 0 <= j < LEVELS && j != i && j != i - 1 ==> t.queues[j] == s.queues[j];
    }
  }

  /** The loop picks the new event exactly when it is first in line: a guard on the queues before the call. */
  lemma PicksNew(s: Runner, level: nat)
    requires Shaped(s) && level < LEVELS
    ensures |Queued(s, level).queues| == LEVELS
    ensures Next(Queued(s, level)).1 == Some(Current(s.nextId, false)) <==> FirstInLine(s, level)
  {
    hide Promote, Shaped, Total;
    ShapedLevels(s);
    FreshNowhere(s);
    var e, t := s.nextId, Queued(s, level);
    assert forall j :: 0 <= j < LEVELS ==> e !in s.queues[j] by { FreshQueues(s); }
    assert JustQueued(t, e, level) && e in t.queues[level];
    assert t.queues[level] == s.queues[level] + [e] && forall j :: 0 <= j < level ==> t.queues[j] == s.queues[j];
    if s.queues[level] != [] {
      assert s.queues[level][0] in s.queues[level];
    }
    assert Foremost(t, e, level) <==> forall j :: 0 <= j <= level ==> s.queues[j] == [];
    if s.rewake == [] {
      var t1 := Promote(t, 1);
      PromoteForemost(t, 1, e, level);
      var t2 := Promote(t1, 2);
      PromoteForemost(t1, 2, e, level);
      PromoteForemost(t2, 3, e, level);
      PickedIsForemost(Reprioritize(t), e, level);
    }
  }

  lemma FreshQueues(s: Runner)
    requires Shaped(s)
    ensures forall j :: 0 <= j < LEVELS ==> s.nextId !in s.queues[j]
  {
    assert !Known(s, s.nextId);
    forall j | 0 <= j < LEVELS
      ensures s.nextId !in s.queues[j]
    {
      assert forall x :: x in s.queues[j] ==> Known(s, x);
    }
  }

  lemma PickedIsForemost(s: Runner, e: nat, level: nat)
    requires JustQueued(s, e, level) && e in s.queues[level]
    ensures var i := FirstLevel(s.queues, 0);
            i < LEVELS && (s.queues[i][0] == e <==> Foremost(s, e, level))
  {
    var i := FirstLevel(s.queues, 0);
    assert i <= level;
    assert s.queues[i][0] in s.queues[i];
  }

  /**
   * A turn of the loop between the two halves of schedule leaves the runner sound exactly when the new
   * event is not first in line: otherwise it is dropped, and stays pending without a copy.
   */
  lemma SplitSchedule(s: Runner, level: nat)
    requires Sound(s) && level < LEVELS && s.current.None? && s.pending != {}
    ensures Sound(Inserted(Begin(Queued(s, level)), s.nextId)) <==> !FirstInLine(s, level)
  {
    hide Total, Next, Shaped, FirstInLine;
    ShapedLevels(s);
    PicksNew(s, level);
    var e := s.nextId;
    var t := Queued(s, level);
    QueuedSound(s, level);
    BeginShaped(t);
    BeginCounted(t);
    NextShaped(t);
    NextTotal(t, e);
    FreshNowhere(s);
    var u := Inserted(Begin(t), e);
    ShapedLevels(Begin(t));
    assert Copies(u, e) == Total(u.queues, e);
    assert Known(Begin(t), e) by { BeginKnown(t, e); }
    InsertedShaped(Begin(t), e);
    if Next(t).1 != Some(Current(e, false)) {
      forall x | x in u.pending
        ensures x in u.extra && Copies(u, x) == 1 + u.extra[x]
      {
        if x != e {
          assert Copies(Begin(t), x) == 1 + Begin(t).extra[x];
        }
      }
    } else {
      assert e in u.pending && Copies(u, e) == 0;
    }
  }

  lemma InsertedShaped(s: Runner, e: nat)
    requires Shaped(s) && Known(s, e)
    ensures Shaped(Inserted(s, e))
  {
    var t := Inserted(s, e);
    assert forall x :: Known(s, x) ==> Known(t, x);
  }

  lemma BeginKnown(s: Runner, e: nat)
    requires Shaped(s) && Known(s, e)
    ensures Known(Begin(s), e)
  {
    hide Reprioritize;
    ReprioritizeKnown(s, e);
    ReprioritizeShaped(s);
  }

  /** e is pending, and nothing that could lead to a poll of it is left. */
  ghost predicate Lost(s: Runner, e: nat) {
    Shaped(s) && e in s.pending && Total(s.queues, e) == 0 && e !in s.rewake && (s.current.Some? ==> s.current.value.eid != e)
  }

  /** The dropped event is lost... */
  lemma DroppedIsLost(s: Runner, level: nat)
    requires Sound(s) && level < LEVELS && s.current.None? && s.pending != {}
    requires FirstInLine(s, level)
    ensures Lost(Inserted(Begin(Queued(s, level)), s.nextId), s.nextId)
  {
    hide Total, Next, Shaped, FirstInLine;
    ShapedLevels(s);
    PicksNew(s, level);
    var e := s.nextId;
    var t := Queued(s, level);
    QueuedSound(s, level);
    BeginShaped(t);
    NextShaped(t);
    NextTotal(t, e);
    NextRewake(t);
    FreshNowhere(s);
    BeginKnown(t, e);
    InsertedShaped(Begin(t), e);
    ShapedLevels(Begin(t));
  }

  lemma NextRewake(s: Runner)
    requires Shaped(s)
    ensures forall e :: e in Next(s).0.rewake ==> e in s.rewake
    ensures Next(s).1.Some? && Next(s).1.value.rewoken ==> Next(s).1.value.eid in s.rewake
  {
    hide Reprioritize;
    ReprioritizeShaped(s);
  }

  /** ... and stays so: whatever the loop and the scheduler do, it is pending and never polled. */
  lemma LostStays(s: Runner, a: Step, e: nat)
    requires Lost(s, e) && Enabled(s, a) && a != DoWake(e)
    ensures Polled(s, a) != Some(e)
    ensures Lost(Apply(s, a), e)
  {
    hide Total, Next, Shaped;
    ShapedLevels(s);
    match a
    case DoBegin =>
      BeginShaped(s);
      NextShaped(s);
      NextTotal(s, e);
      NextRewake(s);
    case DoFinish(ready) =>
      CurrentKnown(s);
      FinishShaped(s, ready);
      if !ready {
        TotalPush(s.queues, s.prio[s.current.value.eid], s.current.value.eid, e);
      }
    case DoSchedule(level) =>
      FreshNowhere(s);
      ScheduleShaped(s, level);
      TotalPush(s.queues, level, s.nextId, e);
    case DoWake(x) =>
      WakeShaped(s, x);
  }

  /** A run of a runner that need not be sound. */
  ghost predicate Unguarded(s: Runner, steps: seq<Step>)
    decreases |steps|
  {
    steps != [] ==> Shaped(s) && Enabled(s, steps[0]) && Unguarded(Apply(s, steps[0]), steps[1..])
  }

  ghost function After(s: Runner, steps: seq<Step>): Runner
    requires Unguarded(s, steps)
    decreases |steps|
  {
    if steps == [] then s else After(Apply(s, steps[0]), steps[1..])
  }

  ghost predicate EverPolled(s: Runner, steps: seq<Step>, e: nat)
    requires Unguarded(s, steps)
    decreases |steps|
  {
    steps != [] && (Polled(s, steps[0]) == Some(e) || EverPolled(Apply(s, steps[0]), steps[1..], e))
  }

  /** A lost event is lost for good: in every run that does not wake it, it stays pending and is never polled. */
  lemma {:induction false} LostForGood(s: Runner, steps: seq<Step>, e: nat)
    requires Lost(s, e) && Unguarded(s, steps) && DoWake(e) !in steps
    ensures Lost(After(s, steps), e) && !EverPolled(s, steps, e)
    decreases |steps|
  {
    hide Lost, Shaped, Enabled, Apply, Polled;
    if steps != [] {
      LostStays(s, steps[0], e);
      LostForGood(Apply(s, steps[0]), steps[1..], e);
    }
  }

  /** It can happen: one event waits on the lowest level, and another is being scheduled on the highest. */
  lemma DropHappens()
    ensures var s := Events.Schedule(Init(0), 3);
            Sound(s) && s.current.None? && s.pending != {} && FirstInLine(s, 0)
  {
    hide Sound;
    InitSound(0);
    ScheduleSound(Init(0), 3);
  }
}
