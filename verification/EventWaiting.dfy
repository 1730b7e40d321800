/**
 * How long a scheduled event can wait on one core's runner. With at most w wakes during a run every event
 * is polled within a bound that depends only on its level, on how many events are alive and on w, whatever
 * else is scheduled meanwhile and however the polls turn out; without a bound on the wakes there is none.
 */
module EventWaiting {
  import opened Basics
  import opened Events

  // ---- Sums over events ------------------------------------------------------------------------------

  function Sum(v: seq<nat>): nat {
    if v == [] then 0 else Sum(v[..|v| - 1]) + v[|v| - 1]
  }

  lemma {:induction false} SumSet(v: seq<nat>, y: nat, a: nat)
    requires y < |v|
    ensures Sum(v[y := a]) + v[y] == Sum(v) + a
  {
    var n := |v| - 1;
    if y < n {
      SumSet(v[..n], y, a);
      assert v[y := a][..n] == v[..n][y := a];
    } else {
      assert v[y := a][..n] == v[..n];
    }
  }

  lemma SumPush(v: seq<nat>, a: nat)
    ensures Sum(v + [a]) == Sum(v) + a
  {
    assert (v + [a])[..|v|] == v;
  }

  lemma {:induction false} SumZero(v: seq<nat>)
    requires forall x :: 0 <= x < |v| ==> v[x] == 0
    ensures Sum(v) == 0
  {
    if v != [] {
      SumZero(v[..|v| - 1]);
    }
  }

  lemma {:induction false} SumBelow(v: seq<nat>, a: seq<nat>, b: seq<nat>)
    requires |v| == |a| == |b| && forall x :: 0 <= x < |v| ==> v[x] <= a[x] + b[x]
    ensures Sum(v) <= Sum(a) + Sum(b)
  {
    if v != [] {
      var n := |v| - 1;
      SumBelow(v[..n], a[..n], b[..n]);
    }
  }

  lemma {:induction false} SumAt(v: seq<nat>, y: nat)
    requires y < |v|
    ensures v[y] <= Sum(v)
  {
    if y < |v| - 1 {
      SumAt(v[..|v| - 1], y);
    }
  }

  /** Counting a queue event by event. */
  function Counts(q: seq<nat>, n: nat): seq<nat> {
    seq(n, x requires 0 <= x => Count(q, x))
  }

  lemma {:induction false} CountsSum(q: seq<nat>, n: nat)
    requires forall e :: e in q ==> e < n
    ensures Sum(Counts(q, n)) == |q|
  {
    if q == [] {
      SumZero(Counts(q, n));
    } else {
      var x := q[0];
      assert x in q && forall e :: e in q[1..] ==> e in q;
      CountsSum(q[1..], n);
      forall e
        ensures Count(q, e) == Count(q[1..], e) + (if x == e then 1 else 0)
      {
        CountPop(q, e);
      }
      SumSet(Counts(q[1..], n), x, Count(q, x));
      assert Counts(q, n) == Counts(q[1..], n)[x := Count(q, x)];
    }
  }

  function Marks(p: set<nat>, n: nat): seq<nat> {
    seq(n, x requires 0 <= x => if x in p then 1 else 0)
  }

  lemma {:induction false} MarksSum(p: set<nat>, n: nat)
    requires forall e :: e in p ==> e < n
    ensures Sum(Marks(p, n)) == |p|
    decreases p
  {
    if p == {} {
      SumZero(Marks(p, n));
    } else {
      var x :| x in p;
      MarksSum(p - {x}, n);
      SumSet(Marks(p - {x}, n), x, 1);
      assert Marks(p, n) == Marks(p - {x}, n)[x := 1];
    }
  }

  // ---- What wakes leave behind -------------------------------------------------------------------------

  /** The runner is sound, and what it polls is alive. */
  ghost predicate Alive(s: Runner) {
    Sound(s) && (s.current.Some? ==> s.current.value.eid in s.pending)
  }

  /** The copies of x that wakes left in the queues: those beyond the first, and all of them once x is done. */
  ghost function Surplus(s: Runner, x: nat): nat
    requires Shaped(s)
  {
    if x in s.pending then s.extra[x] else Total(s.queues, x)
  }

  ghost function Surpluses(s: Runner): seq<nat>
    requires Shaped(s)
  {
    seq(s.nextId, x requires 0 <= x => Surplus(s, x))
  }

  /** Wakes whose effects are still to come, and the copies left by the others. */
  ghost function Debt(s: Runner): nat
    requires Shaped(s)
  {
    |s.rewake| + (if Rewoken(s) then 1 else 0) + Sum(Surpluses(s))
  }

  predicate Rewoken(s: Runner) {
    s.current.Some? && s.current.value.rewoken
  }

  /** A queue holds every live event once, and beyond that only what wakes left. */
  lemma QueueBound(s: Runner, i: nat)
    requires Sound(s) && i < LEVELS
    ensures |s.queues[i]| <= |s.pending| + Sum(Surpluses(s))
  {
    var n := s.nextId;
    forall e | e in s.queues[i]
      ensures e < n
    {
      assert Known(s, e);
    }
    forall e | e in s.pending
      ensures e < n
    {
      assert Known(s, e);
    }
    CountsSum(s.queues[i], n);
    MarksSum(s.pending, n);
    forall x | 0 <= x < n
      ensures Counts(s.queues[i], n)[x] <= Marks(s.pending, n)[x] + Surpluses(s)[x]
    {
      assert Count(s.queues[i], x) <= Total(s.queues, x);
      if x in s.pending {
        assert Copies(s, x) == 1 + s.extra[x];
      }
    }
    SumBelow(Counts(s.queues[i], n), Marks(s.pending, n), Surpluses(s));
  }

  // ---- How often copies can be aged --------------------------------------------------------------------

  /** What a copy on level l may still cost: more than w copies on the level below together. */
  function Weight(w: nat, l: nat): nat {
    if l == 0 then 0 else Weight(w, l - 1) * (w + 1) + 1
  }

  lemma {:induction false} WeightGrows(w: nat, k: nat, l: nat)
    requires k <= l
    ensures Weight(w, k) <= Weight(w, l)
  {
    if k < l {
      WeightGrows(w, k, l - 1);
      TimesGrows(Weight(w, l - 1), 1, w + 1);
    }
  }

  lemma TimesGrows(n: nat, a: nat, b: nat)
    requires a <= b
    ensures n * a <= n * b
  {
  }

  /** Copies go back to the level of the last aging, so each counts with that level or its own. */
  function Load(c: seq<nat>, p: nat, w: nat): nat
    requires |c| == LEVELS
  {
    c[0] * Weight(w, Max(0, p)) + c[1] * Weight(w, Max(1, p)) + c[2] * Weight(w, Max(2, p)) + c[3] * Weight(w, Max(3, p))
  }

  lemma LoadFalls(c: seq<nat>, p: nat, q: nat, w: nat)
    requires |c| == LEVELS && q <= p
    ensures Load(c, q, w) <= Load(c, p, w)
  {
    hide Weight;
    LoadTermFalls(c[0], 0, p, q, w);
    LoadTermFalls(c[1], 1, p, q, w);
    LoadTermFalls(c[2], 2, p, q, w);
    LoadTermFalls(c[3], 3, p, q, w);
  }

  lemma LoadTermFalls(n: nat, l: nat, p: nat, q: nat, w: nat)
    requires q <= p
    ensures n * Weight(w, Max(l, q)) <= n * Weight(w, Max(l, p))
  {
    hide Weight;
    WeightGrows(w, Max(l, q), Max(l, p));
    TimesGrows(n, Weight(w, Max(l, q)), Weight(w, Max(l, p)));
  }

  /** Raising the level of the last aging to q costs at most one weight for each copy not above q. */
  lemma LoadRises(c: seq<nat>, p: nat, q: nat, w: nat)
    requires |c| == LEVELS && p <= q < LEVELS
    ensures Load(c, q, w) <= Load(c, p, w) + UpTo(c, q) * Weight(w, q)
  {
    hide Weight;
    LoadTermRises(c[0], 0, p, q, w);
    LoadTermRises(c[1], 1, p, q, w);
    LoadTermRises(c[2], 2, p, q, w);
    LoadTermRises(c[3], 3, p, q, w);
    var v := Weight(w, q);
    assert UpTo(c, q) * v == Below(c, 0, q) * v + Below(c, 1, q) * v + Below(c, 2, q) * v + Below(c, 3, q) * v by {
      TimesSum(Below(c, 0, q), Below(c, 1, q), Below(c, 2, q), Below(c, 3, q), v);
    }
  }

  lemma TimesSum(a: nat, b: nat, c: nat, d: nat, v: nat)
    ensures (a + b + c + d) * v == a * v + b * v + c * v + d * v
  {
  }

  function Below(c: seq<nat>, l: nat, q: nat): nat
    requires |c| == LEVELS && l < LEVELS
  {
    if l <= q then c[l] else 0
  }

  function UpTo(c: seq<nat>, q: nat): nat
    requires |c| == LEVELS
  {
    Below(c, 0, q) + Below(c, 1, q) + Below(c, 2, q) + Below(c, 3, q)
  }

  lemma LoadTermRises(n: nat, l: nat, p: nat, q: nat, w: nat)
    requires p <= q
    ensures n * Weight(w, Max(l, q)) <= n * Weight(w, Max(l, p)) + (if l <= q then n else 0) * Weight(w, q)
  {
    hide Weight;
  }

  /** Moving one copy. */
  lemma LoadMoves(c: seq<nat>, i: nat, w: nat)
    requires |c| == LEVELS && 1 <= i < LEVELS && c[i] > 0
    ensures var d := c[i := c[i] - 1][i - 1 := c[i - 1] + 1];
            Load(d, i - 1, w) + Weight(w, i) == Load(c, i - 1, w) + Weight(w, i - 1)
  {
    hide Weight;
    var d := c[i := c[i] - 1][i - 1 := c[i - 1] + 1];
    assert d[i] * Weight(w, i) + Weight(w, i) == c[i] * Weight(w, i) by { TimesLess(c[i], Weight(w, i)); }
    assert d[i - 1] * Weight(w, i - 1) == c[i - 1] * Weight(w, i - 1) + Weight(w, i - 1) by {
      TimesLess(d[i - 1], Weight(w, i - 1));
    }
  }

  lemma TimesLess(n: nat, a: nat)
    requires n > 0
    ensures (n - 1) * a + a == n * a
  {
  }

  /** Aging one of at most w + 1 copies always costs weight, even where it lifts all the others. */
  lemma LoadAges(c: seq<nat>, i: nat, p: nat, w: nat)
    requires |c| == LEVELS && 1 <= i < LEVELS && c[i] > 0 && p < LEVELS && c[0] + c[1] + c[2] + c[3] <= w + 1
    ensures Load(c[i := c[i] - 1][i - 1 := c[i - 1] + 1], i - 1, w) < Load(c, p, w)
  {
    hide Load, Weight;
    LoadMoves(c, i, w);
    var v := Weight(w, i - 1);
    assert Weight(w, i) == v * (w + 1) + 1 by { WeightStep(w, i); }
    TimesGrows(v, 1, w + 1);
    if p >= i {
      LoadFalls(c, p, i - 1, w);
    } else {
      LoadRises(c, p, i - 1, w);
      TimesGrows(v, UpTo(c, i - 1), w);
      assert v * (w + 1) == v * w + v;
    }
  }

  lemma WeightStep(w: nat, l: nat)
    requires l > 0
    ensures Weight(w, l) == Weight(w, l - 1) * (w + 1) + 1
  {
  }

  lemma LoadAdds(c: seq<nat>, p: nat, w: nat)
    requires |c| == LEVELS && p < LEVELS
    ensures Load(c[p := c[p] + 1], p, w) == Load(c, p, w) + Weight(w, p)
  {
    hide Weight;
    TimesLess(c[p] + 1, Weight(w, p));
  }

  lemma LoadBound(c: seq<nat>, p: nat, w: nat)
    requires |c| == LEVELS && p < LEVELS
    ensures Load(c, p, w) <= (c[0] + c[1] + c[2] + c[3]) * Weight(w, 3)
  {
    hide Weight;
    LoadFalls(c, 3, p, w);
    TimesSum(c[0], c[1], c[2], c[3], Weight(w, 3));
  }

  // ---- The weight of everything wakes left behind --------------------------------------------------------

  function Level(s: Runner, x: nat): nat {
    if x in s.prio then s.prio[x] else 0
  }

  function PerLevel(queues: seq<seq<nat>>, x: nat): (c: seq<nat>)
    requires |queues| == LEVELS
    ensures |c| == LEVELS && c[0] + c[1] + c[2] + c[3] == Total(queues, x)
  {
    [Count(queues[0], x), Count(queues[1], x), Count(queues[2], x), Count(queues[3], x)]
  }

  /** The weight of the copies of x, once wakes have made more than one of it. */
  ghost function Pot(s: Runner, x: nat, w: nat): nat
    requires Shaped(s)
  {
    if Surplus(s, x) == 0 then 0
    else Load(PerLevel(s.queues, x), Level(s, x), w)
         + (if s.current == Some(Current(x, false)) then Weight(w, Level(s, x)) else 0)
  }

  ghost function Pots(s: Runner, w: nat): seq<nat>
    requires Shaped(s)
  {
    seq(s.nextId, x requires 0 <= x => Pot(s, x, w))
  }

  /** A step that touches the copies of one event changes the sums by that event's part. */
  lemma OnlyOf(s: Runner, t: Runner, x: nat, w: nat)
    requires Shaped(s) && Shaped(t) && s.nextId == t.nextId && x < s.nextId
    requires forall y :: y != x ==> Surplus(t, y) == Surplus(s, y) && Pot(t, y, w) == Pot(s, y, w)
    ensures Sum(Surpluses(t)) + Surplus(s, x) == Sum(Surpluses(s)) + Surplus(t, x)
    ensures Sum(Pots(t, w)) + Pot(s, x, w) == Sum(Pots(s, w)) + Pot(t, x, w)
    ensures Surplus(s, x) <= Sum(Surpluses(s))
  {
    hide Shaped, Surplus, Pot;
    SumSet(Surpluses(s), x, Surplus(t, x));
    assert Surpluses(t) == Surpluses(s)[x := Surplus(t, x)];
    SumSet(Pots(s, w), x, Pot(t, x, w));
    assert Pots(t, w) == Pots(s, w)[x := Pot(t, x, w)];
    SumAt(Surpluses(s), x);
  }

  lemma PromoteSound(s: Runner, i: nat)
    requires Sound(s) && 1 <= i < LEVELS
    ensures Sound(Promote(s, i))
  {
    hide Total, Shaped, Promote;
    ShapedLevels(s);
    PromoteShaped(s, i);
    var t := Promote(s, i);
    ShapedLevels(t);
    PromoteFields(s, i);
    forall e | e in t.pending
      ensures e in t.extra && Copies(t, e) == 1 + t.extra[e]
    {
      PromoteTotal(s, i, e);
      assert Copies(s, e) == 1 + s.extra[e];
    }
  }

  lemma PromoteFields(s: Runner, i: nat)
    requires 1 <= i < |s.queues|
    ensures var t := Promote(s, i); t == s.(queues := t.queues, prio := t.prio, sched := t.sched)
  {
  }

  /** Aging moves one copy, of the event at the front. */
  lemma PromoteCounts(s: Runner, i: nat, y: nat)
    requires |s.queues| == LEVELS && 1 <= i < LEVELS && Due(s, i)
    ensures var c := PerLevel(s.queues, y);
            PerLevel(Promote(s, i).queues, y) ==
            if y == s.queues[i][0] && c[i] > 0 then c[i := c[i] - 1][i - 1 := c[i - 1] + 1] else c
    ensures PerLevel(s.queues, s.queues[i][0])[i] > 0
  {
    hide Total, Count;
    var x := s.queues[i][0];
    var t := Promote(s, i);
    CountPop(s.queues[i], y);
    CountPop(s.queues[i], x);
    CountPush(s.queues[i - 1], x, y);
    assert t.queues[i] == s.queues[i][1..] && t.queues[i - 1] == s.queues[i - 1] + [x];
  }

  lemma CountPush(q: seq<nat>, x: nat, e: nat)
    ensures Count(q + [x], e) == Count(q, e) + (if x == e then 1 else 0)
  {
  }

  /** Aging leaves the copies as they are and, where there are several, makes them lighter. */
  lemma PromoteWeighs(s: Runner, i: nat, w: nat)
    requires Sound(s) && s.current.None? && 1 <= i < LEVELS && Sum(Surpluses(s)) <= w
    ensures Sound(Promote(s, i)) && Sum(Surpluses(Promote(s, i))) == Sum(Surpluses(s))
    ensures Sum(Pots(Promote(s, i), w)) + (if Crowded(s, i) then 1 else 0) <= Sum(Pots(s, w))
  {
    hide Shaped, Counted, Load, Total, Known, Promote, PerLevel, Level, Surpluses, Pots;
    ShapedLevels(s);
    PromoteSound(s, i);
    var t := Promote(s, i);
    ShapedLevels(t);
    PromoteFields(s, i);
    if Due(s, i) {
      var x := s.queues[i][0];
      assert x < s.nextId by { FrontBelow(s, i); }
      forall y
        ensures Surplus(t, y) == Surplus(s, y)
        ensures y != x ==> Pot(t, y, w) == Pot(s, y, w)
      {
        PromoteTotal(s, i, y);
        PromoteCounts(s, i, y);
        PromoteLevel(s, i, y);
      }
      OnlyOf(s, t, x, w);
      if Surplus(s, x) > 0 {
        PromoteCounts(s, i, x);
        PromoteLevel(s, i, x);
        SurplusTotal(s, x);
        LoadAges(PerLevel(s.queues, x), i, Level(s, x), w);
      }
    } else {
      assert t == s by { PromoteNot(s, i); }
    }
  }

  lemma PromoteNot(s: Runner, i: nat)
    requires 1 <= i < |s.queues| && !Due(s, i)
    ensures Promote(s, i) == s
  {
  }

  lemma PromoteLevel(s: Runner, i: nat, y: nat)
    requires Shaped(s) && 1 <= i < LEVELS && Due(s, i)
    ensures Level(Promote(s, i), y) == if y == s.queues[i][0] then i - 1 else Level(s, y)
    ensures y == s.queues[i][0] ==> Level(s, y) < LEVELS
  {
    FrontKnown(s, i);
  }

  lemma FrontBelow(s: Runner, i: nat)
    requires Shaped(s) && i < LEVELS && s.queues[i] != []
    ensures s.queues[i][0] < s.nextId
  {
    FrontKnown(s, i);
  }

  lemma SurplusTotal(s: Runner, x: nat)
    requires Sound(s)
    ensures Total(s.queues, x) <= 1 + Surplus(s, x)
  {
    hide Shaped, Total;
    ShapedLevels(s);
    if x in s.pending {
      assert Copies(s, x) == 1 + s.extra[x];
    }
  }

  /** The front of level i is due, and wakes have left more copies of it. */
  ghost predicate Crowded(s: Runner, i: nat)
    requires Shaped(s) && i < LEVELS
  {
    Due(s, i) && Surplus(s, s.queues[i][0]) > 0
  }

  // ---- The rank of a waiting event -------------------------------------------------------------------

  /** Turns an event may wait on level p when a queue holds at most n: p * (n + 5) + n. */
  function Bound(n: nat, p: nat): nat {
    if p == 0 then n else Bound(n, p - 1) + n + PRIORITY_INC_DELAY
  }

  lemma {:induction false} BoundIs(n: nat, p: nat)
    ensures Bound(n, p) == p * (n + PRIORITY_INC_DELAY) + n
  {
    if p > 0 {
      BoundIs(n, p - 1);
    }
  }

  /** Where e waits: place k of level p, and within d ticks everything up to it will be due. */
  datatype Spot = Spot(p: nat, k: nat, d: nat)

  ghost predicate At(s: Runner, e: nat, v: Spot)
    requires |s.queues| == LEVELS
  {
    && v.p < LEVELS && v.k < |s.queues[v.p]| && s.queues[v.p][v.k] == e && v.d <= PRIORITY_INC_DELAY
    && (forall j :: 0 <= j <= v.k ==>
          && s.queues[v.p][j] in s.sched
          && s.sched[s.queues[v.p][j]] + PRIORITY_INC_DELAY <= s.clock + v.d)
  }

  function Rank(n: nat, v: Spot): nat {
    if v.p == 0 then v.k + 1 else v.d + v.k + 1 + Bound(n, v.p - 1)
  }

  /** Where e stands after level i was aged; aging one of several copies makes the others wait again. */
  ghost function Aged(s: Runner, i: nat, v: Spot): Spot
    requires Shaped(s) && 1 <= i < LEVELS
  {
    if !Due(s, i) then v
    else
      var u := if i != v.p then v
               else if v.k > 0 then v.(k := v.k - 1)
               else Spot(v.p - 1, |s.queues[v.p - 1]|, PRIORITY_INC_DELAY);
      if Crowded(s, i) then u.(d := PRIORITY_INC_DELAY) else u
  }

  /** After PRIORITY_INC_DELAY ticks anything queued is due. */
  lemma AtLatest(s: Runner, e: nat, p: nat, k: nat)
    requires Shaped(s) && p < LEVELS && k < |s.queues[p]| && s.queues[p][k] == e
    ensures At(s, e, Spot(p, k, PRIORITY_INC_DELAY))
  {
    forall j | 0 <= j <= k
      ensures s.queues[p][j] in s.sched && s.sched[s.queues[p][j]] <= s.clock
    {
      assert s.queues[p][j] in s.queues[p];
      assert Known(s, s.queues[p][j]);
    }
  }

  lemma AgedAt(s: Runner, i: nat, e: nat, v: Spot)
    requires Sound(s) && 1 <= i < LEVELS && At(s, e, v)
    ensures |Promote(s, i).queues| == LEVELS && At(Promote(s, i), e, Aged(s, i, v))
  {
    hide Shaped, Counted, Copies, Total, Surplus;
    ShapedLevels(s);
    PromoteShaped(s, i);
    var t := Promote(s, i);
    if Due(s, i) {
      var x := s.queues[i][0];
      var u := Aged(s, i, v);
      assert t.queues[i - 1] == s.queues[i - 1] + [x] && t.queues[i] == s.queues[i][1..];
      if u.d == PRIORITY_INC_DELAY {
        AtLatest(t, e, u.p, u.k);
      } else {
        SpotKept(s, i, e, v);
      }
    }
  }

  /** Aging the only copy of an event leaves everything before e as due as it was. */
  lemma SpotKept(s: Runner, i: nat, e: nat, v: Spot)
    requires Sound(s) && 1 <= i < LEVELS && At(s, e, v) && Due(s, i) && !Crowded(s, i) && !(v.p == i && v.k == 0)
    ensures At(Promote(s, i), e, Aged(s, i, v))
  {
    hide Shaped, Counted, Surplus, Total;
    ShapedLevels(s);
    var t := Promote(s, i);
    var u := Aged(s, i, v);
    SurplusTotal(s, s.queues[i][0]);
    forall j | 0 <= j <= u.k
      ensures t.queues[u.p][j] in t.sched
      ensures t.sched[t.queues[u.p][j]] + PRIORITY_INC_DELAY <= t.clock + u.d
    {
      if v.p == i {
        assert t.queues[u.p][j] == s.queues[v.p][j + 1];
        OnlyOnce(s.queues, i, 0, i, j + 1);
      } else {
        assert t.queues[u.p][j] == s.queues[v.p][j];
        OnlyOnce(s.queues, i, 0, v.p, j);
      }
    }
  }

  /** An event counted once stands in one place. */
  lemma OnlyOnce(queues: seq<seq<nat>>, i: nat, j: nat, i2: nat, j2: nat)
    requires |queues| == LEVELS && i < LEVELS && i2 < LEVELS && j < |queues[i]| && j2 < |queues[i2]|
    requires i != i2 || j != j2
    requires Total(queues, queues[i][j]) <= 1
    ensures queues[i][j] != queues[i2][j2]
  {
    var e := queues[i][j];
    assert e in queues[i] && queues[i2][j2] in queues[i2];
    assert Count(queues[i], e) >= 1;
    if i != i2 {
      assert Total(queues, e) >= Count(queues[i], e) + Count(queues[i2], e);
    } else if queues[i2][j2] == e {
      TwiceCounts(queues[i], j, j2);
      assert false;
    }
  }

  lemma TwiceCounts(q: seq<nat>, j: nat, k: nat)
    requires j < |q| && k < |q| && j != k && q[j] == q[k]
    ensures Count(q, q[j]) >= 2
  {
    var (a, b) := if j < k then (j, k) else (k, j);
    assert q == q[..b] + q[b..];
    assert q[a] in q[..b];
    assert q[b] in q[b..];
  }

  /** The rank, and what aging the copies that wakes left can still add to it. */
  ghost function Cost(s: Runner, v: Spot, n: nat, w: nat): nat
    requires Shaped(s)
  {
    Rank(n + w, v) + (PRIORITY_INC_DELAY + 1) * Sum(Pots(s, w))
  }

  /** What a turn knows of the runner before it: who is alive, and how much wakes have left. */
  ghost predicate Bounded(s: Runner, n: nat, w: nat) {
    Sound(s) && s.current.None? && |s.pending| <= n && Sum(Surpluses(s)) <= w
  }

  /** Aging never costs, and with everything up to e due it makes e advance. */
  lemma AgedCost(s: Runner, i: nat, e: nat, v: Spot, n: nat, w: nat)
    requires Bounded(s, n, w) && 1 <= i < LEVELS && At(s, e, v)
    ensures Bounded(Promote(s, i), n, w) && Sum(Surpluses(Promote(s, i))) == Sum(Surpluses(s))
    ensures Cost(Promote(s, i), Aged(s, i, v), n, w) <= Cost(s, v, n, w)
    ensures var u := Aged(s, i, v);
            u.p != v.p || u.d != v.d || (i == v.p && v.d == 0) ==> Cost(Promote(s, i), u, n, w) < Cost(s, v, n, w)
    ensures Aged(s, i, v).p <= v.p
  {
    hide Counted, Shaped, Copies, Promote, Surplus, Surpluses, Pots, Sum;
    ShapedLevels(s);
    PromoteWeighs(s, i, w);
    PromoteFields(s, i);
    var t := Promote(s, i);
    if i == v.p && Due(s, i) && v.k == 0 {
      QueueBound(t, i - 1);
      assert |t.queues[i - 1]| == |s.queues[i - 1]| + 1 by { PromoteLonger(s, i); }
    }
  }

  lemma PromoteLonger(s: Runner, i: nat)
    requires 1 <= i < |s.queues| && Due(s, i)
    ensures |Promote(s, i).queues| == |s.queues| && |Promote(s, i).queues[i - 1]| == |s.queues[i - 1]| + 1
  {
  }

  /** After the whole of reprioritize e stands where the aging of each level in turn leaves it. */
  lemma ReprioritizeCost(s: Runner, e: nat, v: Spot, n: nat, w: nat) returns (u: Spot)
    requires Bounded(s, n, w) && At(s, e, v)
    ensures Bounded(Reprioritize(s), n, w) && At(Reprioritize(s), e, u)
    ensures Sum(Surpluses(Reprioritize(s))) == Sum(Surpluses(s))
    ensures Cost(Reprioritize(s), u, n, w) <= Cost(s, v, n, w)
    ensures v.p > 0 && (v.d == 0 || u.p == 0) ==> Cost(Reprioritize(s), u, n, w) < Cost(s, v, n, w)
    ensures u.d != v.d ==> Cost(Reprioritize(s), u, n, w) < Cost(s, v, n, w)
    ensures u.p <= v.p
  {
    hide Bounded, At, Cost, Promote, Aged, Shaped, Counted;
    BoundedLevels(s, n, w);
    AtLevel(s, e, v);
    var s1 := Promote(s, 1);
    var v1 := Aged(s, 1, v);
    AgedCost(s, 1, e, v, n, w);
    AgedAt(s, 1, e, v);
    BoundedLevels(s1, n, w);
    var s2 := Promote(s1, 2);
    var v2 := Aged(s1, 2, v1);
    AgedCost(s1, 2, e, v1, n, w);
    AgedAt(s1, 2, e, v1);
    BoundedLevels(s2, n, w);
    u := Aged(s2, 3, v2);
    AgedCost(s2, 3, e, v2, n, w);
    AgedAt(s2, 3, e, v2);
  }

  lemma BoundedLevels(s: Runner, n: nat, w: nat)
    requires Bounded(s, n, w)
    ensures Sound(s) && |s.queues| == LEVELS
  {
  }

  lemma AtLevel(s: Runner, e: nat, v: Spot)
    requires |s.queues| == LEVELS && At(s, e, v)
    ensures v.p < LEVELS
  {
  }

  // ---- One turn ------------------------------------------------------------------------------------------

  /** What one wake can cost: the aging of the copies it leaves, its own turn and that of a stale copy. */
  function WakeCost(w: nat): nat {
    2 * (PRIORITY_INC_DELAY + 1) * Weight(w, 3) + 2
  }

  /** What the wakes so far can still cost. */
  ghost function Owed(s: Runner, w: nat): nat
    requires Shaped(s)
  {
    |s.rewake| * WakeCost(w) + (if Rewoken(s) then WakeCost(w) - 1 else 0) + Sum(Surpluses(s))
    + (PRIORITY_INC_DELAY + 1) * Sum(Pots(s, w))
  }

  /** An upper bound on the turns e still waits, apart from those that later wakes add. */
  ghost function Wait(s: Runner, v: Spot, n: nat, w: nat): nat
    requires Shaped(s)
  {
    Rank(n + w, v) + Owed(s, w)
  }

  /** e is alive and waits at v, and the run so far kept to n live events and w wakes. */
  ghost predicate Waits(s: Runner, e: nat, v: Spot, n: nat, w: nat) {
    && Sound(s) && At(s, e, v) && e in s.pending && |s.pending| <= n && Debt(s) <= w
    && (s.current.Some? ==> s.current.value.eid in s.pending && s.current.value.eid != e)
  }

  /** A runner that differs in what no sum looks at. */
  lemma SameSums(s: Runner, t: Runner, w: nat)
    requires Shaped(s) && Shaped(t) && t.queues == s.queues && t.pending == s.pending && t.extra == s.extra
    requires t.prio == s.prio && t.nextId == s.nextId
    requires forall x :: t.current == Some(Current(x, false)) <==> s.current == Some(Current(x, false))
    ensures Surpluses(t) == Surpluses(s) && Pots(t, w) == Pots(s, w)
  {
    hide Shaped, Load, Total, Weight;
    ShapedLevels(s);
    assert forall x :: Surplus(t, x) == Surplus(s, x);
    assert forall x :: Pot(t, x, w) == Pot(s, x, w);
  }

  /** Taking the front of level i out of the queues, to poll it if it is alive. */
  ghost function Taken(s: Runner, i: nat): Runner
    requires |s.queues| == LEVELS && i < LEVELS && s.queues[i] != []
  {
    var x := s.queues[i][0];
    var t := s.(queues := s.queues[i := s.queues[i][1..]]);
    if x in s.pending then t.(clock := s.clock + 1, current := Some(Current(x, false))) else t
  }

  /** The copy that is taken keeps its weight while it is polled; a stale one is gone. */
  lemma TakenWeighs(s: Runner, i: nat, w: nat)
    requires Sound(s) && s.current.None? && i < LEVELS && s.queues[i] != [] && Shaped(Taken(s, i))
    ensures var t := Taken(s, i);
            && Sum(Pots(t, w)) <= Sum(Pots(s, w))
            && Sum(Surpluses(t)) + (if s.queues[i][0] in s.pending then 0 else 1) == Sum(Surpluses(s))
  {
    hide Shaped, Counted, Load, Total, Known, PerLevel, Surpluses, Pots, Weight;
    ShapedLevels(s);
    var x := s.queues[i][0];
    var t := Taken(s, i);
    FrontBelow(s, i);
    forall y | y != x
      ensures Surplus(t, y) == Surplus(s, y) && Pot(t, y, w) == Pot(s, y, w)
    {
      TotalPop(s.queues, i, y);
      TakenCounts(s.queues, i, y);
    }
    OnlyOf(s, t, x, w);
    TotalPop(s.queues, i, x);
    TakenCounts(s.queues, i, x);
    TakenLoad(s, i, w);
  }

  lemma TakenCounts(queues: seq<seq<nat>>, i: nat, y: nat)
    requires |queues| == LEVELS && i < LEVELS && queues[i] != []
    ensures var c := PerLevel(queues, y);
            PerLevel(queues[i := queues[i][1..]], y) == if y == queues[i][0] && c[i] > 0 then c[i := c[i] - 1] else c
    ensures PerLevel(queues, queues[i][0])[i] > 0
  {
    hide Total, Count;
    CountPop(queues[i], y);
    CountPop(queues[i], queues[i][0]);
  }

  lemma TakenLoad(s: Runner, i: nat, w: nat)
    requires Shaped(s) && i < LEVELS && s.queues[i] != []
    ensures var x := s.queues[i][0];
            var c := PerLevel(s.queues, x);
            c[i] > 0 && Load(c[i := c[i] - 1], Level(s, x), w) + Weight(w, Level(s, x)) <= Load(c, Level(s, x), w)
  {
    hide Shaped, Total, Weight;
    ShapedLevels(s);
    var x := s.queues[i][0];
    TakenCounts(s.queues, i, x);
    var c := PerLevel(s.queues, x);
    var p := Level(s, x);
    TimesLess(c[i], Weight(w, Max(i, p)));
    WeightGrows(w, p, Max(i, p));
  }

  /** Between aging and polling, e gets one place or one tick nearer. */
  lemma TakenCost(s: Runner, i: nat, e: nat, v: Spot, n: nat, w: nat) returns (u: Spot)
    requires Bounded(s, n, w) && At(s, e, v) && i < LEVELS && i == FirstLevel(s.queues, 0) && Shaped(Taken(s, i))
    requires s.queues[i][0] != e
    ensures At(Taken(s, i), e, u) && Cost(Taken(s, i), u, n, w) <= Cost(s, v, n, w)
    ensures s.queues[i][0] in s.pending && (v.p == 0 || v.d > 0) ==> Cost(Taken(s, i), u, n, w) < Cost(s, v, n, w)
  {
    hide Shaped, Counted, Sum, Pots, Surpluses, Bound;
    ShapedLevels(s);
    TakenWeighs(s, i, w);
    var x := s.queues[i][0];
    var t := Taken(s, i);
    assert i <= v.p;
    u := Spot(v.p, if i == v.p then v.k - 1 else v.k, if v.d > 0 && x in s.pending then v.d - 1 else v.d);
    assert forall j :: 0 <= j <= u.k ==> t.queues[u.p][j] == s.queues[v.p][if i == v.p then j + 1 else j];
  }

  /** A turn without rewoken events ages the queues and takes the first event in line. */
  lemma BeginIs(s: Runner)
    requires Sound(s) && s.current.None? && s.pending != {} && s.rewake == []
    ensures var r := Reprioritize(s);
            var i := FirstLevel(r.queues, 0);
            |r.queues| == LEVELS && i < LEVELS && Begin(s) == Taken(r, i)
  {
    hide Shaped, Counted, Reprioritize;
    ShapedLevels(s);
    ReprioritizeShaped(s);
    ShapedLevels(Reprioritize(s));
    AlwaysPicks(s);
  }

  lemma RewokenTurn(s: Runner, e: nat, v: Spot, n: nat, w: nat)
    requires Waits(s, e, v, n, w) && s.current.None? && s.rewake != [] && s.rewake[0] != e
    ensures Waits(Begin(s), e, v, n, w) && Wait(Begin(s), v, n, w) < Wait(s, v, n, w) && Debt(Begin(s)) <= Debt(s)
  {
    hide Shaped, Counted, Copies, Reprioritize, Weight, Surpluses, Pots, Sum, Rank;
    ShapedLevels(s);
    BeginShaped(s);
    BeginCounted(s);
    SameSums(s, Begin(s), w);
    TimesLess(|s.rewake|, WakeCost(w));
  }

  lemma QueuedTurn(s: Runner, e: nat, v: Spot, n: nat, w: nat) returns (u: Spot)
    requires Waits(s, e, v, n, w) && s.current.None? && s.rewake == [] && Polled(s, DoBegin) != Some(e)
    ensures Waits(Begin(s), e, u, n, w) && Wait(Begin(s), u, n, w) < Wait(s, v, n, w) && Debt(Begin(s)) <= Debt(s)
  {
    hide Shaped, Counted, Copies, Reprioritize, Weight, Surpluses, Pots, Sum, Rank, At, Begin;
    ShapedLevels(s);
    BeginShaped(s);
    BeginCounted(s);
    BeginIs(s);
    ReprioritizeShaped(s);
    var r := Reprioritize(s);
    var i := FirstLevel(r.queues, 0);
    var m := ReprioritizeCost(s, e, v, n, w);
    u := TakenCost(r, i, e, m, n, w);
    TakenWeighs(r, i, w);
  }

  // ---- The other steps -----------------------------------------------------------------------------------

  /** A poll that returns: a rewoken copy may stay behind and make a single event several. */
  lemma FinishWeighs(s: Runner, ready: bool, w: nat)
    requires Sound(s) && s.current.Some? && s.current.value.eid in s.pending && Sound(Finish(s, ready))
    ensures var t := Finish(s, ready);
            && Sum(Surpluses(t)) == Sum(Surpluses(s)) + (if Rewoken(s) then 1 else 0)
            && Sum(Pots(t, w)) <= Sum(Pots(s, w)) + (if Rewoken(s) then 2 * Weight(w, 3) else 0)
  {
    hide Shaped, Load, Total, PerLevel, Surpluses, Pots, Weight;
    ShapedLevels(s);
    CurrentKnown(s);
    var x := s.current.value.eid;
    var t := Finish(s, ready);
    ShapedLevels(t);
    forall y | y != x
      ensures Surplus(t, y) == Surplus(s, y) && Pot(t, y, w) == Pot(s, y, w)
    {
      TotalPush(s.queues, s.prio[x], x, y);
      PushCounts(s.queues, s.prio[x], x, y);
    }
    OnlyOf(s, t, x, w);
    FinishPot(s, ready, w);
  }

  lemma FinishPot(s: Runner, ready: bool, w: nat)
    requires Sound(s) && s.current.Some? && s.current.value.eid in s.pending && Sound(Finish(s, ready))
    ensures var (t, x) := (Finish(s, ready), s.current.value.eid);
            && Surplus(t, x) == Surplus(s, x) + (if Rewoken(s) then 1 else 0)
            && Pot(t, x, w) <= Pot(s, x, w) + (if Rewoken(s) then 2 * Weight(w, 3) else 0)
  {
    hide Shaped, Load, Total, PerLevel, Weight;
    ShapedLevels(s);
    CurrentKnown(s);
    var x := s.current.value.eid;
    var p := s.prio[x];
    ShapedLevels(Finish(s, ready));
    assert Copies(s, x) == 1 + s.extra[x];
    TotalPush(s.queues, p, x, x);
    PushCounts(s.queues, p, x, x);
    var c := PerLevel(s.queues, x);
    LoadAdds(c, p, w);
    LoadBound(c, p, w);
    WeightGrows(w, p, 3);
  }

  lemma PushCounts(queues: seq<seq<nat>>, i: nat, x: nat, y: nat)
    requires |queues| == LEVELS && i < LEVELS
    ensures var c := PerLevel(queues, y);
            PerLevel(queues[i := queues[i] + [x]], y) == if y == x then c[i := c[i] + 1] else c
  {
    hide Total, Count;
    CountPush(queues[i], x, y);
  }

  lemma FinishWait(s: Runner, ready: bool, e: nat, v: Spot, n: nat, w: nat)
    requires Waits(s, e, v, n, w) && s.current.Some?
    ensures Waits(Finish(s, ready), e, v, n, w) && Debt(Finish(s, ready)) == Debt(s)
    ensures Wait(Finish(s, ready), v, n, w) <= Wait(s, v, n, w)
  {
    hide Shaped, Counted, Copies, Weight, Surpluses, Pots, Sum, Rank;
    ShapedLevels(s);
    CurrentKnown(s);
    FinishSound(s, ready);
    FinishWeighs(s, ready, w);
  }

  lemma ScheduleSums(s: Runner, level: nat, w: nat)
    requires Sound(s) && level < LEVELS && Shaped(Schedule(s, level))
    ensures var t := Schedule(s, level);
            Sum(Surpluses(t)) == Sum(Surpluses(s)) && Sum(Pots(t, w)) == Sum(Pots(s, w))
  {
    hide Shaped, Load, Total, PerLevel, Weight;
    ShapedLevels(s);
    FreshNowhere(s);
    var x := s.nextId;
    var t := Schedule(s, level);
    forall y | y != x
      ensures Surplus(t, y) == Surplus(s, y) && Pot(t, y, w) == Pot(s, y, w)
    {
      TotalPush(s.queues, level, x, y);
      PushCounts(s.queues, level, x, y);
    }
    assert Surpluses(t) == Surpluses(s) + [0];
    assert Pots(t, w) == Pots(s, w) + [0];
    SumPush(Surpluses(s), 0);
    SumPush(Pots(s, w), 0);
  }

  lemma ScheduleWait(s: Runner, level: nat, e: nat, v: Spot, n: nat, w: nat)
    requires Waits(s, e, v, n, w) && level < LEVELS && |Schedule(s, level).pending| <= n
    ensures Waits(Schedule(s, level), e, v, n, w) && Debt(Schedule(s, level)) == Debt(s)
    ensures Wait(Schedule(s, level), v, n, w) == Wait(s, v, n, w)
  {
    hide Shaped, Counted, Copies, Weight, Surpluses, Pots, Sum, Rank;
    ShapedLevels(s);
    ScheduleSound(s, level);
    ScheduleSums(s, level, w);
    assert forall j :: 0 <= j <= v.k ==> s.queues[v.p][j] != s.nextId by { NotFresh(s, v.p); }
  }

  lemma NotFresh(s: Runner, p: nat)
    requires Shaped(s) && p < LEVELS
    ensures forall j :: 0 <= j < |s.queues[p]| ==> s.queues[p][j] != s.nextId
  {
    forall j | 0 <= j < |s.queues[p]|
      ensures s.queues[p][j] != s.nextId
    {
      assert s.queues[p][j] in s.queues[p];
      assert Known(s, s.queues[p][j]);
    }
  }

  lemma WakeWait(s: Runner, x: nat, e: nat, v: Spot, n: nat, w: nat)
    requires Waits(s, e, v, n, w) && Known(s, x) && Debt(s) < w
    ensures Waits(Wake(s, x), e, v, n, w) && Debt(Wake(s, x)) == Debt(s) + 1
    ensures Wait(Wake(s, x), v, n, w) == Wait(s, v, n, w) + WakeCost(w)
  {
    hide Shaped, Counted, Copies, Weight, Surpluses, Pots, Sum, Rank;
    ShapedLevels(s);
    WakeSound(s, x);
    SameSums(s, Wake(s, x), w);
    TimesLess(|s.rewake| + 1, WakeCost(w));
  }

  // ---- Bounded waiting over runs -----------------------------------------------------------------------

  function Turns(steps: seq<Step>): nat {
    if steps == [] then 0 else (if steps[0].DoBegin? then 1 else 0) + Turns(steps[1..])
  }

  function Wakes(steps: seq<Step>): nat {
    if steps == [] then 0 else (if steps[0].DoWake? then 1 else 0) + Wakes(steps[1..])
  }

  /** At no moment of the run are more than n events alive. */
  ghost predicate AtMost(s: Runner, steps: seq<Step>, n: nat)
    requires Sound(s) && CanRun(s, steps)
    decreases |steps|
  {
    |s.pending| <= n && (steps != [] ==> (StepSound(s, steps[0]); AtMost(Apply(s, steps[0]), steps[1..], n)))
  }

  /** Every step brings e's poll nearer, leaves it where it is, or is a wake and adds what a wake costs. */
  lemma StepWait(s: Runner, a: Step, e: nat, v: Spot, n: nat, w: nat) returns (u: Spot)
    requires Waits(s, e, v, n, w) && Enabled(s, a) && Polled(s, a) != Some(e)
    requires |Apply(s, a).pending| <= n && (a.DoWake? ==> Debt(s) < w)
    ensures var t := Apply(s, a);
            && Waits(t, e, u, n, w) && Debt(t) <= Debt(s) + (if a.DoWake? then 1 else 0)
            && Wait(t, u, n, w) + (if a.DoBegin? then 1 else 0)
               <= Wait(s, v, n, w) + (if a.DoWake? then WakeCost(w) else 0)
  {
    hide Shaped, Counted, Begin, Finish, Schedule, Wake, Wait, Debt, WakeCost, At;
    ShapedLevels(s);
    u := v;
    match a
    case DoBegin =>
      if s.rewake == [] {
        u := QueuedTurn(s, e, v, n, w);
      } else {
        FrontRewoken(s);
        RewokenTurn(s, e, v, n, w);
      }
    case DoFinish(ready) => FinishWait(s, ready, e, v, n, w);
    case DoSchedule(level) => ScheduleWait(s, level, e, v, n, w);
    case DoWake(x) => WakeWait(s, x, e, v, n, w);
  }

  lemma FrontRewoken(s: Runner)
    requires Shaped(s) && s.current.None? && s.rewake != []
    ensures s.rewake[0] in s.pending ==> Begin(s).current == Some(Current(s.rewake[0], true))
  {
  }

  lemma {:induction false} UnpolledTurns(s: Runner, steps: seq<Step>, e: nat, v: Spot, n: nat, w: nat)
    requires Waits(s, e, v, n, w) && CanRun(s, steps) && AtMost(s, steps, n) && !Polls(s, steps, e)
    requires Debt(s) + Wakes(steps) <= w
    ensures Turns(steps) < Wait(s, v, n, w) + Wakes(steps) * WakeCost(w)
    decreases |steps|
  {
    hide Shaped, Counted, Copies, Apply, At, Begin, Wait, Debt, WakeCost, Polled;
    if steps == [] {
      WaitPositive(s, v, n, w);
    } else {
      var a := steps[0];
      StepSound(s, a);
      var u := StepWait(s, a, e, v, n, w);
      UnpolledTurns(Apply(s, a), steps[1..], e, u, n, w);
      TimesLess(Wakes(steps[1..]) + 1, WakeCost(w));
    }
  }

  lemma WaitPositive(s: Runner, v: Spot, n: nat, w: nat)
    requires Shaped(s)
    ensures Wait(s, v, n, w) > 0
  {
    hide Shaped, Surpluses, Pots, Sum, Weight, Bound;
  }

  lemma RankBound(n: nat, v: Spot)
    requires v.k < n && v.d <= PRIORITY_INC_DELAY
    ensures Rank(n, v) <= Bound(n, v.p)
  {
  }

  /** The turns that w wakes can add: a polynomial in w alone. */
  lemma WakeCostIs(w: nat)
    ensures WakeCost(w) == 12 * (w * w + 3 * w + 3) + 2
  {
    assert Weight(w, 1) == 1;
    assert Weight(w, 2) == w + 2;
    assert Weight(w, 3) == (w + 2) * (w + 1) + 1;
  }

  // ---- What a run from the start can owe ---------------------------------------------------------------

  lemma ReprioritizeWeighs(s: Runner, w: nat)
    requires Sound(s) && s.current.None? && Sum(Surpluses(s)) <= w
    ensures Sound(Reprioritize(s)) && Sum(Surpluses(Reprioritize(s))) == Sum(Surpluses(s))
    ensures Sum(Pots(Reprioritize(s), w)) <= Sum(Pots(s, w))
  {
    hide Shaped, Counted, Promote, Surpluses, Pots, Sum;
    ShapedLevels(s);
    var s1 := Promote(s, 1);
    PromoteWeighs(s, 1, w);
    ShapedLevels(s1);
    PromoteFields(s, 1);
    var s2 := Promote(s1, 2);
    PromoteWeighs(s1, 2, w);
    ShapedLevels(s2);
    PromoteFields(s1, 2);
    PromoteWeighs(s2, 3, w);
  }

  lemma BeginOwed(s: Runner, w: nat)
    requires Alive(s) && s.current.None? && s.pending != {} && Debt(s) <= w
    ensures Alive(Begin(s)) && Debt(Begin(s)) <= Debt(s) && Owed(Begin(s), w) <= Owed(s, w)
  {
    hide Shaped, Counted, Reprioritize, Weight, Surpluses, Pots, Sum;
    ShapedLevels(s);
    BeginShaped(s);
    BeginCounted(s);
    if s.rewake == [] {
      BeginIs(s);
      ReprioritizeWeighs(s, w);
      ReprioritizeShaped(s);
      var r := Reprioritize(s);
      TakenWeighs(r, FirstLevel(r.queues, 0), w);
    } else {
      SameSums(s, Begin(s), w);
      TimesLess(|s.rewake|, WakeCost(w));
    }
  }

  lemma StepOwed(s: Runner, a: Step, w: nat)
    requires Alive(s) && Enabled(s, a) && Debt(s) + (if a.DoWake? then 1 else 0) <= w
    ensures Alive(Apply(s, a)) && Debt(Apply(s, a)) <= Debt(s) + (if a.DoWake? then 1 else 0)
    ensures Owed(Apply(s, a), w) <= Owed(s, w) + (if a.DoWake? then WakeCost(w) else 0)
  {
    hide Shaped, Counted, Begin, Weight, Surpluses, Pots, Sum;
    ShapedLevels(s);
    StepSound(s, a);
    match a
    case DoBegin => BeginOwed(s, w);
    case DoFinish(ready) =>
      CurrentKnown(s);
      FinishWeighs(s, ready, w);
    case DoSchedule(level) => ScheduleSums(s, level, w);
    case DoWake(x) =>
      SameSums(s, Wake(s, x), w);
      TimesLess(|s.rewake| + 1, WakeCost(w));
  }

  /** Over every run what is owed grows only with the wakes. */
  lemma {:induction false} RunOwed(s: Runner, steps: seq<Step>, w: nat)
    requires Alive(s) && CanRun(s, steps) && Debt(s) + Wakes(steps) <= w
    ensures Alive(Run(s, steps)) && Debt(Run(s, steps)) <= Debt(s) + Wakes(steps)
    ensures Owed(Run(s, steps), w) <= Owed(s, w) + Wakes(steps) * WakeCost(w)
    decreases |steps|
  {
    hide Shaped, Counted, Apply, Owed, Debt, WakeCost;
    if steps != [] {
      StepOwed(s, steps[0], w);
      RunOwed(Apply(s, steps[0]), steps[1..], w);
      TimesLess(Wakes(steps[1..]) + 1, WakeCost(w));
    }
  }

  lemma InitOwed(firstId: nat, w: nat)
    ensures Alive(Init(firstId)) && Debt(Init(firstId)) == 0 && Owed(Init(firstId), w) == 0
  {
    hide Weight, Load;
    InitSound(firstId);
    SumZero(Surpluses(Init(firstId)));
    SumZero(Pots(Init(firstId), w));
  }

  /** s is what the steps lead to from the start. */
  ghost predicate Reached(firstId: nat, before: seq<Step>, s: Runner) {
    Sound(Init(firstId)) && CanRun(Init(firstId), before) && s == Run(Init(firstId), before)
  }

  /** e waits on level p: it is queued there, alive and not being polled. */
  predicate InLine(s: Runner, e: nat, p: nat) {
    && p < |s.queues| && e in s.queues[p] && e in s.pending
    && (s.current.Some? ==> s.current.value.eid != e)
  }

  lemma ReachedWait(firstId: nat, before: seq<Step>, s: Runner, e: nat, p: nat, n: nat, w: nat) returns (v: Spot)
    requires Reached(firstId, before, s) && InLine(s, e, p) && |s.pending| <= n && Wakes(before) <= w
    ensures Waits(s, e, v, n, w) && Debt(s) <= Wakes(before)
    ensures Wait(s, v, n, w) <= Bound(n + w, p) + Wakes(before) * WakeCost(w)
  {
    hide Counted, Bound, Shaped, WakeCost, Surpluses, Pots, At, Sum, Rank, Owed, CanRun, Run;
    InitOwed(firstId, w);
    RunOwed(Init(firstId), before, w);
    ShapedLevels(s);
    var k :| 0 <= k < |s.queues[p]| && s.queues[p][k] == e;
    v := Spot(p, k, PRIORITY_INC_DELAY);
    AtLatest(s, e, p, k);
    QueueBound(s, p);
    RankBound(n + w, v);
  }

  lemma BoundSum(n: nat, p: nat, w: nat, a: nat, b: nat)
    requires a + b <= w
    ensures Bound(n + w, p) + a * WakeCost(w) + b * WakeCost(w)
            <= p * (n + w + PRIORITY_INC_DELAY) + n + w + w * (12 * (w * w + 3 * w + 3) + 2)
  {
    hide WakeCost, Bound;
    BoundIs(n + w, p);
    assert a * WakeCost(w) + b * WakeCost(w) <= w * WakeCost(w) by {
      TimesSum(a, b, 0, 0, WakeCost(w));
      TimesGrows(WakeCost(w), a + b, w);
    }
    WakeCostIs(w);
  }

  /**
   * Bounded waiting, in every run from the start: with at most w wakes in all and, from now on, at most n
   * events alive at any moment, an event that waits on level p is polled within p * (n + w + 5) + n + w turns
   * and what w wakes cost, whatever is scheduled or woken meanwhile and however the polls turn out. Without
   * wakes that is p * (n + 5) + n turns.
   */
  lemma BoundedWaiting(firstId: nat, before: seq<Step>, s: Runner, steps: seq<Step>, e: nat, p: nat, n: nat, w: nat)
    requires Reached(firstId, before, s) && InLine(s, e, p)
    requires Sound(s) && CanRun(s, steps) && AtMost(s, steps, n) && Wakes(before) + Wakes(steps) <= w
    requires Turns(steps) >= p * (n + w + PRIORITY_INC_DELAY) + n + w + w * (12 * (w * w + 3 * w + 3) + 2)
    ensures Polls(s, steps, e)
  {
    hide CanRun, Polls, Shaped, Counted, WakeCost, At, Wait, Reached, InLine, Waits, Bound, Debt, Turns, Wakes;
    assert |s.pending| <= n;
    var v := ReachedWait(firstId, before, s, e, p, n, w);
    BoundSum(n, p, w, Wakes(before), Wakes(steps));
    if !Polls(s, steps, e) {
      UnpolledTurns(s, steps, e, v, n, w);
      assert false;
    }
  }

  // ---- Wakes take the bound away -----------------------------------------------------------------------

  /** f is woken and polled n times, and returns Pending each time. */
  function Spin(f: nat, n: nat): seq<Step> {
    if n == 0 then [] else [DoWake(f), DoBegin, DoFinish(false)] + Spin(f, n - 1)
  }

  /** One round of it: f is polled in place of everything that waits. */
  lemma SpinRound(s: Runner, f: nat)
    requires Sound(s) && s.current.None? && s.rewake == [] && f in s.pending
    ensures Known(s, f) && Sound(Wake(s, f)) && Sound(Begin(Wake(s, f)))
    ensures Begin(Wake(s, f)).current == Some(Current(f, true))
    ensures var t := Finish(Begin(Wake(s, f)), false);
            Sound(t) && t.current.None? && t.rewake == [] && t.pending == s.pending
  {
    hide Counted;
    WakeSound(s, f);
    var s1 := Wake(s, f);
    assert s1.rewake == [f];
    BeginShaped(s1);
    BeginCounted(s1);
    FinishSound(Begin(s1), false);
  }

  /** For every n there is a run of n turns that polls f each time and e never. */
  lemma {:induction false} WakesStarve(s: Runner, e: nat, f: nat, n: nat)
    requires Sound(s) && s.current.None? && s.rewake == [] && f in s.pending && e != f
    ensures CanRun(s, Spin(f, n)) && !Polls(s, Spin(f, n), e) && Turns(Spin(f, n)) == n
    decreases n
  {
    hide Shaped, Counted, Begin, Finish;
    if n > 0 {
      SpinRound(s, f);
      var s1 := Wake(s, f);
      ShapedLevels(s1);
      ShapedLevels(Begin(s1));
      CurrentKnown(Begin(s1));
      var s2 := Begin(s1);
      var s3 := Finish(s2, false);
      var rest := Spin(f, n - 1);
      WakesStarve(s3, e, f, n - 1);
      Consed(s2, DoFinish(false), rest, e);
      Consed(s1, DoBegin, [DoFinish(false)] + rest, e);
      Consed(s, DoWake(f), [DoBegin] + ([DoFinish(false)] + rest), e);
      assert Spin(f, n) == [DoWake(f)] + ([DoBegin] + ([DoFinish(false)] + rest));
    }
  }

  /** A run with one more step in front. */
  lemma Consed(s: Runner, a: Step, rest: seq<Step>, e: nat)
    requires Sound(s) && Enabled(s, a) && Sound(Apply(s, a)) && CanRun(Apply(s, a), rest)
    requires Polled(s, a) != Some(e) && !Polls(Apply(s, a), rest, e)
    ensures CanRun(s, [a] + rest) && !Polls(s, [a] + rest, e)
    ensures Turns([a] + rest) == Turns(rest) + (if a.DoBegin? then 1 else 0)
  {
    hide Shaped, Counted, Apply, Enabled, Polled;
    assert ([a] + rest)[1..] == rest;
  }
}
