/**
 * The event runner of one core (kernel/src/events/event_runner.rs): four priority queues with aging,
 * a rewake queue that can duplicate events, and the set of pending events that decides what is alive.
 *
 * A turn of the loop is two steps, Begin (pick an event and start polling it) and Finish (the poll
 * returns), so that scheduling and waking may also happen while an event is being polled.
 */
module Events {
  import opened Basics

  const LEVELS := 4
  const PRIORITY_INC_DELAY := 5

  /** The event being polled, and whether it came from the rewake queue. */
  datatype Current = Current(eid: nat, rewoken: bool)

  /**
   * prio and sched are the fields of the shared event objects; extra counts, per event, the polls of
   * rewoken copies that returned Pending, each of which leaves one more copy in the queues.
   */
  datatype Runner = Runner(
    queues: seq<seq<nat>>, rewake: seq<nat>, pending: set<nat>, clock: nat, current: Option<Current>,
    prio: map<nat, nat>, sched: map<nat, nat>, nextId: nat, extra: map<nat, nat>)

  function Init(firstId: nat): Runner {
    Runner([[], [], [], []], [], {}, 0, None, map[], map[], firstId, map[])
  }

  // ---- The steps -----------------------------------------------------------------------------------

  /** Every event mentioned anywhere is known, and its fields make sense. */
  predicate Known(s: Runner, e: nat) {
    e in s.prio && e in s.sched && e in s.extra && s.prio[e] < LEVELS && s.sched[e] <= s.clock && e < s.nextId
  }

  ghost predicate Shaped(s: Runner) {
    && |s.queues| == LEVELS
    && (forall i, e :: 0 <= i < LEVELS && e in s.queues[i] ==> Known(s, e))
    && (forall e :: e in s.rewake ==> Known(s, e))
    && (forall e :: e in s.pending ==> Known(s, e))
    && (s.current.Some? ==> Known(s, s.current.value.eid))
  }

  /** The front of level i has waited PRIORITY_INC_DELAY turns. */
  predicate Due(s: Runner, i: nat)
    requires i < |s.queues|
  {
    s.queues[i] != [] && s.queues[i][0] in s.sched && s.sched[s.queues[i][0]] + PRIORITY_INC_DELAY <= s.clock
  }

  /** One round of reprioritize: a front that has waited long enough moves up one level. */
  function Promote(s: Runner, i: nat): Runner
    requires 1 <= i < |s.queues|
  {
    if Due(s, i) then
      var e := s.queues[i][0];
      s.(queues := s.queues[i - 1 := s.queues[i - 1] + [e]][i := s.queues[i][1..]],
         prio := s.prio[e := i - 1],
         sched := s.sched[e := s.clock])
    else s
  }

  function Reprioritize(s: Runner): Runner
    requires |s.queues| == LEVELS
  {
    Promote(Promote(Promote(s, 1), 2), 3)
  }

  /** The first level from i on that has an event, or the number of levels. */
  function FirstLevel(queues: seq<seq<nat>>, i: nat): (r: nat)
    requires i <= |queues|
    ensures i <= r <= |queues|
    ensures r < |queues| ==> queues[r] != []
    ensures forall j :: i <= j < r ==> queues[j] == []
    decreases |queues| - i
  {
    if i == |queues| || queues[i] != [] then i else FirstLevel(queues, i + 1)
  }

  /** next_event: the oldest rewoken event, or the oldest event of the highest level after aging. */
  function Next(s: Runner): (Runner, Option<Current>)
    requires |s.queues| == LEVELS
  {
    if s.rewake != [] then (s.(rewake := s.rewake[1..]), Some(Current(s.rewake[0], true)))
    else
      var s1 := Reprioritize(s);
      var i := FirstLevel(s1.queues, 0);
      if i == LEVELS then (s1, None)
      else (s1.(queues := s1.queues[i := s1.queues[i][1..]]), Some(Current(s1.queues[i][0], false)))
  }

  /** The top of the loop: pick an event; if it is still pending, the clock ticks and its poll begins. */
  function Begin(s: Runner): Runner
    requires |s.queues| == LEVELS
  {
    var (s1, picked) := Next(s);
    if picked.Some? && picked.value.eid in s1.pending then s1.(clock := s1.clock + 1, current := picked) else s1
  }

  /** The poll returns: a pending event goes back to the queue of its priority, a ready one is done. */
  function Finish(s: Runner, ready: bool): Runner
    requires |s.queues| == LEVELS && s.current.Some? && Known(s, s.current.value.eid)
  {
    var c := s.current.value;
    if ready then s.(pending := s.pending - {c.eid}, current := None)
    else
      var p := s.prio[c.eid];
      s.(queues := s.queues[p := s.queues[p] + [c.eid]],
         extra := s.extra[c.eid := s.extra[c.eid] + (if c.rewoken then 1 else 0)],
         current := None)
  }

  /** schedule, with the enqueue and the insertion into the pending set in one step. */
  function Schedule(s: Runner, level: nat): Runner
    requires |s.queues| == LEVELS && level < LEVELS
  {
    var e := s.nextId;
    s.(queues := s.queues[level := s.queues[level] + [e]],
       pending := s.pending + {e},
       prio := s.prio[e := level], sched := s.sched[e := s.clock], extra := s.extra[e := 0],
       nextId := e + 1)
  }

  /** wake_by_ref. */
  function Wake(s: Runner, e: nat): Runner {
    s.(rewake := s.rewake + [e])
  }

  datatype Step = DoBegin | DoFinish(ready: bool) | DoSchedule(level: nat) | DoWake(eid: nat)

  predicate Enabled(s: Runner, a: Step) {
    match a
    case DoBegin => s.current.None? && s.pending != {}
    case DoFinish(_) => s.current.Some?
    case DoSchedule(level) => level < LEVELS
    case DoWake(e) => Known(s, e)
  }

  ghost function Apply(s: Runner, a: Step): Runner
    requires Shaped(s) && Enabled(s, a)
  {
    match a
    case DoBegin => Begin(s)
    case DoFinish(ready) => Finish(s, ready)
    case DoSchedule(level) => Schedule(s, level)
    case DoWake(e) => Wake(s, e)
  }

  // ---- Aging ----------------------------------------------------------------------------------------------------

  /**
   * The front of level i moves up: it was enqueued or moved at least five turns ago, and has not just moved up
   * from a lower-numbered level, as it can if it is queued twice.
   */
  ghost predicate Ages(s: Runner, i: nat)
    requires |s.queues| == 4
    decreases i
  {
    && 1 <= i < 4 && s.queues[i] != []
    && var e := s.queues[i][0];
       && e in s.sched && s.sched[e] + 5 <= s.clock
       && forall j :: 1 <= j < i && Ages(s, j) ==> s.queues[j][0] != e
  }

  /** Event e is the front of a level that moves up. */
  ghost predicate Aged(s: Runner, e: nat, i: nat)
    requires |s.queues| == 4
  {
    Ages(s, i) && s.queues[i][0] == e
  }

  lemma AgesIs(s: Runner)
    requires |s.queues| == 4
    ensures Ages(s, 1) <==> Due(s, 1)
    ensures Ages(s, 2) <==> Due(Promote(s, 1), 2)
    ensures Ages(s, 3) <==> Due(Promote(Promote(s, 1), 2), 3)
    ensures !Ages(s, 0) && !Ages(s, 4)
  {
    hide Promote;
    assert Ages(s, 1) <==> Due(s, 1);
    PromotedQueues(s, 1);
    if s.queues[2] != [] {
      PromotedFields(s, 1, s.queues[2][0]);
    }
    assert Ages(s, 2) <==> Due(Promote(s, 1), 2);
    PromotedQueues(Promote(s, 1), 2);
    if s.queues[3] != [] {
      PromotedFields(s, 1, s.queues[3][0]);
      PromotedFields(Promote(s, 1), 2, s.queues[3][0]);
    }
  }

  /** reprioritize, for all levels at once: an event moves up at most one level, to the back of the queue there. */
  lemma AgedQueues(s: Runner, i: nat)
    requires |s.queues| == 4 && i < 4
    ensures |Reprioritize(s).queues| == 4
    ensures Reprioritize(s).queues[i] == (if Ages(s, i) then s.queues[i][1..] else s.queues[i])
                                       + (if Ages(s, i + 1) then [s.queues[i + 1][0]] else [])
  {
    hide Ages, Due, Promote;
    AgesIs(s);
    PromotedQueues(s, 1);
    PromotedQueues(Promote(s, 1), 2);
    PromotedQueues(Promote(Promote(s, 1), 2), 3);
  }

  lemma PromotedQueues(s: Runner, i: nat)
    requires 1 <= i < |s.queues|
    ensures |Promote(s, i).queues| == |s.queues|
    ensures forall j :: 0 <= j < |s.queues| && j != i && j != i - 1 ==> Promote(s, i).queues[j] == s.queues[j]
    ensures Due(s, i) ==> s.queues[i] != []
    ensures Promote(s, i).queues[i] == if Due(s, i) then s.queues[i][1..] else s.queues[i]
    ensures Promote(s, i).queues[i - 1] == s.queues[i - 1] + if Due(s, i) then [s.queues[i][0]] else []
  {
  }

  /** The events that moved have their new level and the time of the move; all others keep theirs. */
  lemma AgedFields(s: Runner, e: nat, i: nat)
    requires |s.queues| == 4
    ensures var t := Reprioritize(s);
            && (Aged(s, e, i) ==> e in t.prio && t.prio[e] == i - 1 && e in t.sched && t.sched[e] == s.clock)
            && ((forall j :: 1 <= j < 4 ==> !Aged(s, e, j)) ==>
                  && (e in s.prio <==> e in t.prio) && (e in s.sched <==> e in t.sched)
                  && (e in s.prio ==> t.prio[e] == s.prio[e]) && (e in s.sched ==> t.sched[e] == s.sched[e]))
  {
    hide Due, Promote, Ages;
    AgesIs(s);
    PromotedQueues(s, 1);
    PromotedQueues(Promote(s, 1), 2);
    PromotedFields(s, 1, e);
    PromotedFields(Promote(s, 1), 2, e);
    PromotedFields(Promote(Promote(s, 1), 2), 3, e);
    AgedOnce(s, e);
    var first, second, third := Aged(s, e, 1), Aged(s, e, 2), Aged(s, e, 3);
    assert first ==> !second && !third;
    assert second ==> !third;
  }

  /** An event that is the front of two levels moves once. */
  lemma AgedOnce(s: Runner, e: nat)
    requires |s.queues| == 4
    ensures forall j: nat :: Aged(s, e, j) ==> 1 <= j < 4
    ensures forall i: nat, j: nat :: Aged(s, e, i) && Aged(s, e, j) ==> i == j
  {
  }

  lemma PromotedFields(s: Runner, i: nat, e: nat)
    requires 1 <= i < |s.queues|
    ensures Promote(s, i).clock == s.clock
    ensures var t := Promote(s, i);
            if Due(s, i) && s.queues[i][0] == e then e in t.prio && t.prio[e] == i - 1 && e in t.sched && t.sched[e] == s.clock
            else
              && (e in s.prio <==> e in t.prio) && (e in s.sched <==> e in t.sched)
              && (e in s.prio ==> t.prio[e] == s.prio[e]) && (e in s.sched ==> t.sched[e] == s.sched[e])
  {
  }

  // ---- Counting copies -------------------------------------------------------------------------------

  function Count(q: seq<nat>, e: nat): nat {
    multiset(q)[e]
  }

  /** How often e stands in the priority queues. */
  function Total(queues: seq<seq<nat>>, e: nat): nat
    requires |queues| == LEVELS
  {
    Count(queues[0], e) + Count(queues[1], e) + Count(queues[2], e) + Count(queues[3], e)
  }

  lemma CountPop(q: seq<nat>, e: nat)
    requires q != []
    ensures Count(q, e) == Count(q[1..], e) + (if q[0] == e then 1 else 0)
  {
    assert q == [q[0]] + q[1..];
  }

  lemma TotalUpdate(queues: seq<seq<nat>>, i: nat, q: seq<nat>, e: nat)
    requires |queues| == LEVELS && i < LEVELS
    ensures Total(queues[i := q], e) + Count(queues[i], e) == Total(queues, e) + Count(q, e)
  {
    hide Count;
  }

  lemma TotalMember(queues: seq<seq<nat>>, e: nat)
    requires |queues| == LEVELS
    ensures Total(queues, e) > 0 <==> exists i :: 0 <= i < LEVELS && e in queues[i]
  {
    assert forall i :: 0 <= i < LEVELS ==> (Count(queues[i], e) > 0 <==> e in queues[i]);
  }

  /** Taking the front of one queue away, and putting an event at the back of one. */
  lemma TotalPop(queues: seq<seq<nat>>, i: nat, e: nat)
    requires |queues| == LEVELS && i < LEVELS && queues[i] != []
    ensures Total(queues, e) == Total(queues[i := queues[i][1..]], e) + (if queues[i][0] == e then 1 else 0)
  {
    hide Total, Count;
    TotalUpdate(queues, i, queues[i][1..], e);
    CountPop(queues[i], e);
  }

  lemma TotalPush(queues: seq<seq<nat>>, i: nat, x: nat, e: nat)
    requires |queues| == LEVELS && i < LEVELS
    ensures Total(queues[i := queues[i] + [x]], e) == Total(queues, e) + (if x == e then 1 else 0)
  {
    hide Total;
    TotalUpdate(queues, i, queues[i] + [x], e);
    assert Count(queues[i] + [x], e) == Count(queues[i], e) + (if x == e then 1 else 0);
  }

  /** Aging moves events between queues and loses none. */
  lemma PromoteTotal(s: Runner, i: nat, e: nat)
    requires 1 <= i < |s.queues| == LEVELS
    ensures Total(Promote(s, i).queues, e) == Total(s.queues, e)
  {
    hide Total;
    if Due(s, i) {
      var x := s.queues[i][0];
      var mid := s.queues[i - 1 := s.queues[i - 1] + [x]];
      TotalPush(s.queues, i - 1, x, e);
      TotalPop(mid, i, e);
      assert mid[i] == s.queues[i];
      assert Promote(s, i).queues == mid[i := mid[i][1..]];
    }
  }

  lemma FrontKnown(s: Runner, i: nat)
    requires Shaped(s) && i < LEVELS && s.queues[i] != []
    ensures Known(s, s.queues[i][0])
  {
    assert s.queues[i][0] in s.queues[i];
  }

  lemma PromoteShaped(s: Runner, i: nat)
    requires Shaped(s) && 1 <= i < LEVELS
    ensures Shaped(Promote(s, i))
  {
    if Due(s, i) {
      var t := Promote(s, i);
      assert s.queues[i][0] in s.queues[i];
      forall e | Known(s, e)
        ensures Known(t, e)
      {
      }
      forall j, e | 0 <= j < LEVELS && e in t.queues[j]
        ensures Known(t, e)
      {
        assert e in s.queues[j] || e == s.queues[i][0];
      }
    }
  }

  lemma ReprioritizeShaped(s: Runner)
    requires Shaped(s)
    ensures Shaped(Reprioritize(s))
    ensures var t := Reprioritize(s);
            t == s.(queues := t.queues, prio := t.prio, sched := t.sched)
  {
    hide Shaped;
    ShapedLevels(s);
    var s1 := Promote(s, 1);
    var s2 := Promote(s1, 2);
    PromoteShaped(s, 1);
    PromoteShaped(s1, 2);
    PromoteShaped(s2, 3);
  }

  lemma ReprioritizeTotal(s: Runner, e: nat)
    requires |s.queues| == LEVELS
    ensures |Reprioritize(s).queues| == LEVELS
    ensures Total(Reprioritize(s).queues, e) == Total(s.queues, e)
  {
    hide Total;
    var s1 := Promote(s, 1);
    var s2 := Promote(s1, 2);
    PromoteTotal(s, 1, e);
    PromoteTotal(s1, 2, e);
    PromoteTotal(s2, 3, e);
  }

  lemma ShapedLevels(s: Runner)
    requires Shaped(s)
    ensures |s.queues| == LEVELS
  {
  }

  /** An event once known stays known, queued or not. */
  lemma ReprioritizeKnown(s: Runner, e: nat)
    requires Shaped(s) && Known(s, e)
    ensures Known(Reprioritize(s), e)
  {
    hide Shaped;
    ShapedLevels(s);
    PromoteKnown(s, 1, e);
    PromoteKnown(Promote(s, 1), 2, e);
    PromoteKnown(Promote(Promote(s, 1), 2), 3, e);
  }

  lemma PromoteKnown(s: Runner, i: nat, e: nat)
    requires |s.queues| == LEVELS && 1 <= i < LEVELS && Known(s, e)
    ensures |Promote(s, i).queues| == LEVELS && Known(Promote(s, i), e)
  {
  }

  // ---- What next_event picks -------------------------------------------------------------------------

  lemma PopShaped(s: Runner, i: nat)
    requires Shaped(s) && i < LEVELS && s.queues[i] != []
    ensures Shaped(s.(queues := s.queues[i := s.queues[i][1..]]))
    ensures Known(s, s.queues[i][0])
  {
    assert s.queues[i][0] in s.queues[i];
    var t := s.(queues := s.queues[i := s.queues[i][1..]]);
    forall e | Known(s, e)
      ensures Known(t, e)
    {
    }
    forall j, e | 0 <= j < LEVELS && e in t.queues[j]
      ensures Known(t, e)
    {
      assert e in s.queues[j];
    }
  }

  lemma NextShaped(s: Runner)
    requires Shaped(s)
    ensures var (t, picked) := Next(s);
            && Shaped(t)
            && t == s.(queues := t.queues, rewake := t.rewake, prio := t.prio, sched := t.sched)
            && (picked.Some? ==> Known(t, picked.value.eid))
  {
    hide Reprioritize;
    if s.rewake == [] {
      var s1 := Reprioritize(s);
      ReprioritizeShaped(s);
      var i := FirstLevel(s1.queues, 0);
      if i < LEVELS {
        PopShaped(s1, i);
      }
    } else {
      assert s.rewake[0] in s.rewake;
      var t := s.(rewake := s.rewake[1..]);
      assert forall e :: Known(s, e) ==> Known(t, e);
      assert forall e :: e in t.rewake ==> e in s.rewake;
    }
  }

  /** What next_event takes out of the queues is the event it picks, unless that was rewoken. */
  lemma NextTotal(s: Runner, e: nat)
    requires |s.queues| == LEVELS
    ensures var (t, picked) := Next(s);
            && |t.queues| == LEVELS
            && Total(s.queues, e) == Total(t.queues, e) + (if picked == Some(Current(e, false)) then 1 else 0)
            && (picked.None? ==> Total(s.queues, e) == 0)
  {
    hide Total, Reprioritize;
    if s.rewake == [] {
      var s1 := Reprioritize(s);
      ReprioritizeTotal(s, e);
      var i := FirstLevel(s1.queues, 0);
      if i == LEVELS {
        TotalMember(s1.queues, e);
      } else {
        TotalPop(s1.queues, i, e);
      }
    }
  }

  // ---- Every pending event keeps its copies --------------------------------------------------------

  /** The copies of e that came through the priority queues, counting the one being polled. */
  function Copies(s: Runner, e: nat): nat
    requires |s.queues| == LEVELS
  {
    Total(s.queues, e) + (if s.current == Some(Current(e, false)) then 1 else 0)
  }

  ghost predicate Counted(s: Runner)
    requires |s.queues| == LEVELS
  {
    forall e :: e in s.pending ==> e in s.extra && Copies(s, e) == 1 + s.extra[e]
  }

  ghost predicate Sound(s: Runner) {
    Shaped(s) && Counted(s)
  }

  /** While anything is pending, the loop always finds an event: its expect cannot fail. */
  lemma AlwaysPicks(s: Runner)
    requires Sound(s) && s.current.None? && s.pending != {}
    ensures Next(s).1.Some?
  {
    hide Total, Next;
    var e :| e in s.pending;
    NextTotal(s, e);
  }

  lemma TickShaped(s: Runner)
    requires Shaped(s)
    ensures Shaped(s.(clock := s.clock + 1))
  {
    var t := s.(clock := s.clock + 1);
    assert forall e :: Known(s, e) ==> Known(t, e);
  }

  lemma CurrentShaped(s: Runner, c: Current)
    requires Shaped(s) && Known(s, c.eid)
    ensures Shaped(s.(current := Some(c)))
  {
    var t := s.(current := Some(c));
    assert forall e :: Known(s, e) ==> Known(t, e);
  }

  lemma BeginShaped(s: Runner)
    requires Shaped(s)
    ensures Shaped(Begin(s))
  {
    hide Next, Shaped;
    ShapedLevels(s);
    NextShaped(s);
    var (t, picked) := Next(s);
    if picked.Some? && picked.value.eid in t.pending {
      TickShaped(t);
      var t1 := t.(clock := t.clock + 1);
      assert Known(t1, picked.value.eid);
      CurrentShaped(t1, picked.value);
    }
  }

  lemma BeginCounted(s: Runner)
    requires Sound(s) && s.current.None?
    ensures |Begin(s).queues| == LEVELS && Counted(Begin(s))
  {
    hide Next, Shaped, Total;
    ShapedLevels(s);
    NextShaped(s);
    var u := Begin(s);
    NextTotal(s, 0);
    forall e | e in u.pending
      ensures e in u.extra && Copies(u, e) == 1 + u.extra[e]
    {
      NextTotal(s, e);
      assert Copies(s, e) == 1 + s.extra[e];
    }
  }

  lemma PushShaped(s: Runner, i: nat, x: nat)
    requires Shaped(s) && Known(s, x) && i < LEVELS
    ensures Shaped(s.(queues := s.queues[i := s.queues[i] + [x]]))
  {
    var t := s.(queues := s.queues[i := s.queues[i] + [x]]);
    assert forall e :: Known(s, e) ==> Known(t, e);
    forall j, e | 0 <= j < LEVELS && e in t.queues[j]
      ensures Known(t, e)
    {
      assert e in s.queues[j] || e == x;
    }
  }

  /** Steps that keep what is known of each event keep the shape. */
  lemma ShapedLike(s: Runner, t: Runner)
    requires Shaped(s) && t.queues == s.queues && t.rewake == s.rewake && t.pending <= s.pending
    requires t.current.None? || t.current == s.current
    requires forall e :: Known(s, e) ==> Known(t, e)
    ensures Shaped(t)
  {
  }

  lemma FinishShaped(s: Runner, ready: bool)
    requires Shaped(s) && s.current.Some?
    ensures Shaped(Finish(s, ready))
  {
    hide Shaped;
    ShapedLevels(s);
    assert Known(s, s.current.value.eid) by { CurrentKnown(s); }
    var c := s.current.value;
    var u := Finish(s, ready);
    if ready {
      ShapedLike(s, u);
    } else {
      var p := s.prio[c.eid];
      PushShaped(s, p, c.eid);
      ShapedLike(s.(queues := s.queues[p := s.queues[p] + [c.eid]]), u);
    }
  }

  lemma FinishSound(s: Runner, ready: bool)
    requires Sound(s) && s.current.Some?
    ensures Sound(Finish(s, ready))
  {
    hide Total, Shaped;
    ShapedLevels(s);
    assert Known(s, s.current.value.eid) by { CurrentKnown(s); }
    var c := s.current.value;
    var u := Finish(s, ready);
    FinishShaped(s, ready);
    ShapedLevels(u);
    forall e | e in u.pending
      ensures e in u.extra && Copies(u, e) == 1 + u.extra[e]
    {
      assert Copies(s, e) == 1 + s.extra[e];
      if !ready {
        TotalPush(s.queues, s.prio[c.eid], c.eid, e);
      }
    }
  }

  lemma CurrentKnown(s: Runner)
    requires Shaped(s) && s.current.Some?
    ensures Known(s, s.current.value.eid)
  {
  }

  lemma FreshNowhere(s: Runner)
    requires Shaped(s)
    ensures Total(s.queues, s.nextId) == 0 && s.nextId !in s.pending && s.nextId !in s.rewake
    ensures s.current.Some? ==> s.current.value.eid != s.nextId
  {
    assert !Known(s, s.nextId);
    forall i | 0 <= i < LEVELS
      ensures s.nextId !in s.queues[i]
    {
      assert forall e :: e in s.queues[i] ==> Known(s, e);
    }
    TotalMember(s.queues, s.nextId);
  }

  lemma ScheduleShaped(s: Runner, level: nat)
    requires Shaped(s) && level < LEVELS
    ensures Shaped(Schedule(s, level))
  {
    var x := s.nextId;
    var u := Schedule(s, level);
    forall e | Known(s, e)
      ensures Known(u, e)
    {
    }
    assert Known(u, x);
    forall j, e | 0 <= j < LEVELS && e in u.queues[j]
      ensures Known(u, e)
    {
      assert e in s.queues[j] || e == x;
    }
  }

  lemma ScheduleSound(s: Runner, level: nat)
    requires Sound(s) && level < LEVELS
    ensures Sound(Schedule(s, level))
  {
    hide Total, Shaped;
    ShapedLevels(s);
    var x := s.nextId;
    var u := Schedule(s, level);
    FreshNowhere(s);
    ScheduleShaped(s, level);
    forall e | e in u.pending
      ensures e in u.extra && Copies(u, e) == 1 + u.extra[e]
    {
      TotalPush(s.queues, level, x, e);
      if e != x {
        assert Copies(s, e) == 1 + s.extra[e];
      }
    }
  }

  lemma WakeShaped(s: Runner, x: nat)
    requires Shaped(s) && Known(s, x)
    ensures Shaped(Wake(s, x))
  {
    var u := Wake(s, x);
    assert forall e :: Known(s, e) ==> Known(u, e);
  }

  lemma WakeSound(s: Runner, x: nat)
    requires Sound(s) && Known(s, x)
    ensures Sound(Wake(s, x))
  {
    hide Total, Shaped;
    ShapedLevels(s);
    var u := Wake(s, x);
    WakeShaped(s, x);
    forall e | e in u.pending
      ensures e in u.extra && Copies(u, e) == 1 + u.extra[e]
    {
      assert Copies(s, e) == 1 + s.extra[e];
    }
  }

  /** Whatever the loop, the scheduler and the wakers do, every pending event keeps its copies. */
  lemma StepSound(s: Runner, a: Step)
    requires Sound(s) && Enabled(s, a)
    ensures Sound(Apply(s, a))
  {
    hide Shaped, Counted, Begin, Finish, Schedule, Wake, Known;
    ShapedLevels(s);
    match a
    case DoBegin => BeginShaped(s); BeginCounted(s);
    case DoFinish(ready) => FinishSound(s, ready);
    case DoSchedule(level) => ScheduleSound(s, level);
    case DoWake(e) => WakeSound(s, e);
  }

  // ---- Runs ------------------------------------------------------------------------------------------

  ghost predicate CanRun(s: Runner, steps: seq<Step>)
    requires Sound(s)
    decreases |steps|
  {
    steps != [] ==>
      && Enabled(s, steps[0])
      && (StepSound(s, steps[0]); CanRun(Apply(s, steps[0]), steps[1..]))
  }

  ghost function Run(s: Runner, steps: seq<Step>): Runner
    requires Sound(s) && CanRun(s, steps)
    decreases |steps|
  {
    if steps == [] then s else (StepSound(s, steps[0]); Run(Apply(s, steps[0]), steps[1..]))
  }

  /** The event whose poll a step begins. */
  ghost function Polled(s: Runner, a: Step): Option<nat>
    requires Shaped(s) && Enabled(s, a)
  {
    if a.DoBegin? && Begin(s).current.Some? then Some(Begin(s).current.value.eid) else None
  }

  /** The event e is polled somewhere in the run. */
  ghost predicate Polls(s: Runner, steps: seq<Step>, e: nat)
    requires Sound(s) && CanRun(s, steps)
    decreases |steps|
  {
    steps != [] && (Polled(s, steps[0]) == Some(e) || (StepSound(s, steps[0]); Polls(Apply(s, steps[0]), steps[1..], e)))
  }

  lemma {:induction false} RunSound(s: Runner, steps: seq<Step>)
    requires Sound(s) && CanRun(s, steps)
    ensures Sound(Run(s, steps))
    decreases |steps|
  {
    hide Shaped, Counted, Apply, Enabled;
    if steps != [] {
      StepSound(s, steps[0]);
      RunSound(Apply(s, steps[0]), steps[1..]);
    }
  }

  lemma InitSound(firstId: nat)
    ensures Sound(Init(firstId))
  {
  }

  /** In every run the loop finds an event whenever one is pending, so line 45 never panics. */
  lemma ExpectNeverFails(firstId: nat, steps: seq<Step>)
    requires Sound(Init(firstId)) && CanRun(Init(firstId), steps)
    ensures var t := Run(Init(firstId), steps);
            |t.queues| == LEVELS && (t.current.None? && t.pending != {} ==> Next(t).1.Some?)
  {
    hide CanRun, Run, Next, Counted;
    RunSound(Init(firstId), steps);
    var t := Run(Init(firstId), steps);
    if t.current.None? && t.pending != {} {
      AlwaysPicks(t);
    }
  }

  /** An event that was scheduled and is no longer pending is done. */
  predicate Done(s: Runner, e: nat) {
    e < s.nextId && e !in s.pending
  }

  lemma StepDone(s: Runner, a: Step, e: nat)
    requires Sound(s) && Enabled(s, a) && Done(s, e)
    ensures Done(Apply(s, a), e) && Polled(s, a) != Some(e)
  {
    hide Next, Counted, Shaped;
    ShapedLevels(s);
    if a.DoBegin? {
      NextShaped(s);
    } else if a.DoFinish? {
      CurrentKnown(s);
    }
  }

  /** A completed event is never polled again, however many stale copies of it are still queued. */
  lemma {:induction false} CompletedNeverPolled(s: Runner, steps: seq<Step>, e: nat)
    requires Sound(s) && CanRun(s, steps) && Done(s, e)
    ensures !Polls(s, steps, e) && Done(Run(s, steps), e)
    decreases |steps|
  {
    hide Shaped, Counted, Apply, Enabled, Polled, Done;
    if steps != [] {
      StepSound(s, steps[0]);
      StepDone(s, steps[0], e);
      CompletedNeverPolled(Apply(s, steps[0]), steps[1..], e);
    }
  }
}
