/**
 * The life of processes across the event runners, the timer and sys_exit (kernel/src/processes/process.rs,
 * kernel/src/interrupts/idt.rs, kernel/src/syscalls/syscall_handlers.rs), as a transition system over any
 * number of cores. A step that would fail one of the source's process-table lookups is a panic.
 */
module Processes {
  import opened Basics

  datatype ProcessState = New | Running | Blocked

  /** A process control block: its state and the register context saved in it. */
  datatype Pcb = Pcb(state: ProcessState, registers: nat)

  /**
   * What a core is doing. Pid 0 is a kernel event. Loaded: the runner took the event and has not entered
   * the process yet. Leaving: the process was preempted or has exited, and the poll of its event is
   * returning with interrupts off.
   */
  datatype Phase = Idle | Loaded(pid: nat) | InUser(pid: nat, registers: nat) | Leaving(pid: nat)

  /** The pids of the events that wait on the core's runner, and its phase. */
  datatype Core = Core(queue: seq<nat>, phase: Phase)

  /** context is history: the registers each process last had in user mode. */
  datatype System = System(
    cores: seq<Core>, table: map<nat, Pcb>, scheduled: set<nat>, nextPid: nat, context: map<nat, nat>)

  function Boot(cores: nat): System {
    System(seq(cores, i => Core([], Idle)), map[], {}, 1, map[])
  }

  // ---- The steps ---------------------------------------------------------------------------------------

  datatype Step =
    | Create(registers: nat)
    | Schedule(core: nat, pid: nat)
    | ScheduleKernel(core: nat)
    | Pick(core: nat, place: nat)
    | PollKernel(core: nat, ready: bool)
    | Enter(core: nat)
    | User(core: nat, registers: nat)
    | Timer(core: nat)
    | Exit(core: nat)
    | Return(core: nat)

  predicate On(s: System, c: nat) {
    c < |s.cores|
  }

  /** When a step can happen: a process is scheduled by its creator once, and interrupts are off while leaving. */
  predicate Enabled(s: System, a: Step) {
    match a
    case Create(_) => true
    case Schedule(c, pid) => On(s, c) && pid in s.table && pid !in s.scheduled
    case ScheduleKernel(c) => On(s, c)
    case Pick(c, place) => On(s, c) && s.cores[c].phase.Idle? && place < |s.cores[c].queue|
    case PollKernel(c, _) => On(s, c) && s.cores[c].phase == Loaded(0)
    case Enter(c) => On(s, c) && s.cores[c].phase.Loaded? && s.cores[c].phase.pid != 0
    case User(c, _) => On(s, c) && s.cores[c].phase.InUser?
    case Timer(c) => On(s, c) && !s.cores[c].phase.Leaving?
    case Exit(c) => On(s, c) && s.cores[c].phase.InUser?
    case Return(c) => On(s, c) && s.cores[c].phase.Leaving?
  }

  function Put(s: System, c: nat, core: Core): System
    requires On(s, c)
  {
    s.(cores := s.cores[c := core])
  }

  /** The pid of the event the core's runner is polling, 0 if there is none. */
  function CurrentPid(core: Core): nat {
    if core.phase.Loaded? || core.phase.InUser? then core.phase.pid else 0
  }

  /** timer_handler. */
  function TimerStep(s: System, c: nat): Option<System>
    requires On(s, c)
  {
    var core := s.cores[c];
    var pid := CurrentPid(core);
    if pid == 0 then Some(s)
    else if pid !in s.table then None
    else if s.table[pid].state != Running then Some(s)
    else if !core.phase.InUser? then None
    else
      Some(Put(s, c, Core(core.queue + [pid], Leaving(pid)))
             .(table := s.table[pid := Pcb(Blocked, core.phase.registers)]))
  }

  /** One step; None is a panic, or the preemption of a process the core is not running. */
  function Apply(s: System, a: Step): Option<System>
    requires Enabled(s, a)
  {
    match a
    case Create(registers) =>
      Some(s.(table := s.table[s.nextPid := Pcb(New, registers)], context := s.context[s.nextPid := registers],
              nextPid := s.nextPid + 1))
    case Schedule(c, pid) =>
      Some(Put(s, c, s.cores[c].(queue := s.cores[c].queue + [pid])).(scheduled := s.scheduled + {pid}))
    case ScheduleKernel(c) =>
      Some(Put(s, c, s.cores[c].(queue := s.cores[c].queue + [0])))
    case Pick(c, place) =>
      var q := s.cores[c].queue;
      Some(Put(s, c, Core(q[..place] + q[place + 1..], Loaded(q[place]))))
    case PollKernel(c, ready) =>
      var q := s.cores[c].queue;
      Some(Put(s, c, Core(if ready then q else q + [0], Idle)))
    case Enter(c) =>
      var pid := s.cores[c].phase.pid;
      if pid !in s.table then None
      else
        Some(Put(s, c, s.cores[c].(phase := InUser(pid, s.table[pid].registers)))
               .(table := s.table[pid := s.table[pid].(state := Running)]))
    case User(c, registers) =>
      var pid := s.cores[c].phase.pid;
      Some(Put(s, c, s.cores[c].(phase := InUser(pid, registers))).(context := s.context[pid := registers]))
    case Timer(c) => TimerStep(s, c)
    case Exit(c) =>
      var pid := s.cores[c].phase.pid;
      if pid == 0 || pid !in s.table then None
      else Some(Put(s, c, s.cores[c].(phase := Leaving(pid))).(table := s.table - {pid}))
    case Return(c) =>
      Some(Put(s, c, s.cores[c].(phase := Idle)))
  }

  // ---- Live events ---------------------------------------------------------------------------------------

  function Waiting(queue: seq<nat>, pid: nat): nat {
    multiset(queue)[pid]
  }

  /** The events of pid that still have to run: waiting on the core, or being polled by it. */
  function LiveOn(core: Core, pid: nat): nat {
    Waiting(core.queue, pid) + (if CurrentPid(core) == pid then 1 else 0)
  }

  function Live(cores: seq<Core>, pid: nat): nat {
    if cores == [] then 0 else LiveOn(cores[0], pid) + Live(cores[1..], pid)
  }

  lemma {:induction false} LiveUpdate(cores: seq<Core>, c: nat, core: Core, pid: nat)
    requires c < |cores|
    ensures Live(cores[c := core], pid) + LiveOn(cores[c], pid) == Live(cores, pid) + LiveOn(core, pid)
  {
    hide LiveOn;
    if c == 0 {
      assert cores[0 := core][1..] == cores[1..];
    } else {
      assert cores[c := core][1..] == cores[1..][c - 1 := core];
      LiveUpdate(cores[1..], c - 1, core, pid);
    }
  }

  lemma {:induction false} LiveHere(cores: seq<Core>, c: nat, pid: nat)
    requires c < |cores|
    ensures Live(cores, pid) >= LiveOn(cores[c], pid)
  {
    hide LiveOn;
    if c > 0 {
      LiveHere(cores[1..], c - 1, pid);
    }
  }

  /** Two cores hold at least as many live events as either does, together. */
  lemma {:induction false} LiveTwice(cores: seq<Core>, c: nat, d: nat, pid: nat)
    requires c < d < |cores|
    ensures Live(cores, pid) >= LiveOn(cores[c], pid) + LiveOn(cores[d], pid)
  {
    hide LiveOn;
    if c == 0 {
      LiveHere(cores[1..], d - 1, pid);
    } else {
      LiveTwice(cores[1..], c - 1, d - 1, pid);
    }
  }

  // ---- The invariant -------------------------------------------------------------------------------------

  /** A scheduled process in the table has exactly one live event; nothing else has any. */
  predicate OneEvent(s: System, pid: nat) {
    Live(s.cores, pid) == if pid in s.table && pid in s.scheduled then 1 else 0
  }

  /** A core in user mode runs a process of the table that is marked Running, with its own registers. */
  predicate CoreOk(s: System, core: Core) {
    core.phase.InUser? ==>
      var p := core.phase.pid;
      p != 0 && p in s.table && s.table[p].state == Running && p in s.context && s.context[p] == core.phase.registers
  }

  /** A process marked Running is in user mode somewhere; any other has its context saved in the table. */
  predicate EntryOk(s: System, pid: nat)
    requires pid in s.table
  {
    && (s.table[pid].state == Running ==>
          exists c :: 0 <= c < |s.cores| && s.cores[c].phase.InUser? && s.cores[c].phase.pid == pid)
    && (s.table[pid].state != Running ==> pid in s.context && s.context[pid] == s.table[pid].registers)
    && (pid !in s.scheduled ==> s.table[pid].state == New)
  }

  predicate PidsOk(s: System) {
    && s.nextPid > 0
    && (forall p :: p in s.table ==> 0 < p < s.nextPid)
    && (forall p :: p in s.scheduled ==> 0 < p < s.nextPid)
  }

  ghost predicate Inv(s: System) {
    && PidsOk(s)
    && (forall p: nat :: p != 0 ==> OneEvent(s, p))
    && (forall c :: 0 <= c < |s.cores| ==> CoreOk(s, s.cores[c]))
    && (forall p :: p in s.table ==> EntryOk(s, p))
  }

  /** No process is loaded or running on two cores. */
  lemma Alone(s: System, c: nat, d: nat)
    requires Inv(s) && c < |s.cores| && d < |s.cores| && c != d && CurrentPid(s.cores[c]) != 0
    ensures CurrentPid(s.cores[d]) != CurrentPid(s.cores[c])
  {
    hide EntryOk, CoreOk, PidsOk;
    var p := CurrentPid(s.cores[c]);
    assert OneEvent(s, p);
    if c < d {
      LiveTwice(s.cores, c, d, p);
    } else {
      LiveTwice(s.cores, d, c, p);
    }
  }

  /** A pid that a core is concerned with, other than 0, belongs to a scheduled process of the table. */
  lemma LiveKnown(s: System, c: nat, p: nat)
    requires Inv(s) && c < |s.cores| && p != 0 && LiveOn(s.cores[c], p) > 0
    ensures p in s.table && p in s.scheduled
  {
    hide EntryOk, CoreOk, PidsOk;
    LiveHere(s.cores, c, p);
    assert OneEvent(s, p);
  }

  // ---- No step panics ------------------------------------------------------------------------------------

  /** In every state that satisfies the invariant the lookups of timer, run and exit succeed. */
  lemma NoPanic(s: System, a: Step)
    requires Inv(s) && Enabled(s, a)
    ensures Apply(s, a).Some?
  {
    hide EntryOk, OneEvent, PidsOk;
    match a
    case Enter(c) =>
      LiveKnown(s, c, s.cores[c].phase.pid);
    case Exit(c) =>
      assert CoreOk(s, s.cores[c]);
    case Timer(c) =>
      TimerNoPanic(s, c);
    case _ =>
  }

  lemma TimerNoPanic(s: System, c: nat)
    requires Inv(s) && On(s, c)
    ensures TimerStep(s, c).Some?
  {
    hide OneEvent, PidsOk;
    var p := CurrentPid(s.cores[c]);
    if p != 0 {
      LiveKnown(s, c, p);
      if s.table[p].state == Running {
        assert EntryOk(s, p);
        var d :| 0 <= d < |s.cores| && s.cores[d].phase.InUser? && s.cores[d].phase.pid == p;
        if d != c {
          Alone(s, c, d);
        }
      }
    }
  }

  // ---- Every step keeps the invariant ----------------------------------------------------------------------

  lemma StepPids(s: System, a: Step)
    requires Inv(s) && Enabled(s, a) && Apply(s, a).Some?
    ensures PidsOk(Apply(s, a).value)
  {
    hide OneEvent, EntryOk;
    match a
    case Enter(c) =>
      LiveKnown(s, c, s.cores[c].phase.pid);
    case _ =>
  }

  lemma RemoveCount(q: seq<nat>, i: nat, p: nat)
    requires i < |q|
    ensures Waiting(q, p) == Waiting(q[..i] + q[i + 1..], p) + (if q[i] == p then 1 else 0)
  {
    assert q == q[..i] + [q[i]] + q[i + 1..];
  }

  lemma AppendCount(q: seq<nat>, x: nat, p: nat)
    ensures Waiting(q + [x], p) == Waiting(q, p) + (if x == p then 1 else 0)
  {
  }

  /** Scheduling a process adds its live event, exit takes it away, and every other step moves events about. */
  lemma StepLive(s: System, a: Step, p: nat)
    requires Enabled(s, a) && Apply(s, a).Some? && p != 0 && !a.Create?
    ensures var t := Apply(s, a).value;
            LiveOn(t.cores[a.core], p) == LiveOn(s.cores[a.core], p)
              + (if a.Schedule? && a.pid == p then 1 else 0)
              - (if a.Exit? && s.cores[a.core].phase.pid == p then 1 else 0)
  {
    hide Waiting;
    var q := s.cores[a.core].queue;
    match a
    case Schedule(_, pid) => AppendCount(q, pid, p);
    case ScheduleKernel(_) => AppendCount(q, 0, p);
    case Pick(_, place) => RemoveCount(q, place, p);
    case PollKernel(_, _) => AppendCount(q, 0, p);
    case Timer(c) => AppendCount(q, CurrentPid(s.cores[c]), p);
    case _ =>
  }

  lemma StepOneEvent(s: System, a: Step, p: nat)
    requires Inv(s) && Enabled(s, a) && Apply(s, a).Some? && p != 0
    ensures OneEvent(Apply(s, a).value, p)
  {
    hide EntryOk, Live, LiveOn, CoreOk;
    assert OneEvent(s, p);
    var t := Apply(s, a).value;
    if !a.Create? {
      var c := a.core;
      StepLive(s, a, p);
      LiveUpdate(s.cores, c, t.cores[c], p);
      assert s.cores[c := t.cores[c]] == t.cores;
      if s.cores[c].phase.InUser? {
        InUserKnown(s, c);
      }
    }
  }

  lemma InUserKnown(s: System, c: nat)
    requires Inv(s) && c < |s.cores| && s.cores[c].phase.InUser?
    ensures s.cores[c].phase.pid in s.table && s.cores[c].phase.pid in s.scheduled && s.cores[c].phase.pid != 0
  {
    hide EntryOk, OneEvent;
    assert CoreOk(s, s.cores[c]);
    LiveKnown(s, c, s.cores[c].phase.pid);
  }

  lemma StepCores(s: System, a: Step, d: nat)
    requires Inv(s) && Enabled(s, a) && Apply(s, a).Some? && d < |s.cores|
    ensures d < |Apply(s, a).value.cores| && CoreOk(Apply(s, a).value, Apply(s, a).value.cores[d])
  {
    hide OneEvent, Live;
    var t := Apply(s, a).value;
    assert CoreOk(s, s.cores[d]);
    if !a.Create? && d != a.core && CurrentPid(s.cores[a.core]) != 0 {
      Alone(s, a.core, d);
    }
    if a.Enter? {
      LiveKnown(s, a.core, s.cores[a.core].phase.pid);
      assert EntryOk(s, s.cores[a.core].phase.pid);
      if s.table[s.cores[a.core].phase.pid].state == Running {
        LoadedNotRunning(s, a.core);
      }
    }
  }

  /** A process that is about to be entered is not running anywhere. */
  lemma LoadedNotRunning(s: System, c: nat)
    requires Inv(s) && c < |s.cores| && s.cores[c].phase.Loaded? && s.cores[c].phase.pid != 0
    ensures s.cores[c].phase.pid in s.table && s.table[s.cores[c].phase.pid].state != Running
  {
    hide OneEvent, PidsOk;
    var p := s.cores[c].phase.pid;
    LiveKnown(s, c, p);
    assert EntryOk(s, p);
    if s.table[p].state == Running {
      var d :| 0 <= d < |s.cores| && s.cores[d].phase.InUser? && s.cores[d].phase.pid == p;
      Alone(s, c, d);
      assert false;
    }
  }

  /** The process a step is about: the one it creates, or the one its core is concerned with. */
  function Subject(s: System, a: Step): nat
    requires Enabled(s, a)
  {
    match a
    case Create(_) => s.nextPid
    case Schedule(_, pid) => pid
    case Enter(c) => CurrentPid(s.cores[c])
    case User(c, _) => CurrentPid(s.cores[c])
    case Timer(c) => CurrentPid(s.cores[c])
    case Exit(c) => CurrentPid(s.cores[c])
    case _ => 0
  }

  /** The table entry of any other process stays, and a core that runs it goes on running it. */
  lemma OtherEntries(s: System, a: Step, p: nat)
    requires Inv(s) && Enabled(s, a) && Apply(s, a).Some? && p in s.table && p != Subject(s, a)
    ensures p in Apply(s, a).value.table && EntryOk(Apply(s, a).value, p)
  {
    hide OneEvent, Live, CoreOk, PidsOk;
    var t := Apply(s, a).value;
    assert EntryOk(s, p);
    assert p in t.table && t.table[p] == s.table[p];
    if s.table[p].state == Running {
      var d :| 0 <= d < |s.cores| && s.cores[d].phase.InUser? && s.cores[d].phase.pid == p;
      assert t.cores[d].phase.InUser? && t.cores[d].phase.pid == p;
    }
  }

  lemma SubjectEntry(s: System, a: Step)
    requires Inv(s) && Enabled(s, a) && Apply(s, a).Some?
    requires Subject(s, a) in Apply(s, a).value.table && Subject(s, a) != 0
    ensures EntryOk(Apply(s, a).value, Subject(s, a))
  {
    hide OneEvent, Live;
    var t := Apply(s, a).value;
    var p := Subject(s, a);
    if p in s.table {
      assert EntryOk(s, p);
    }
    match a
    case Create(_) =>
    case Schedule(c, _) =>
    case Enter(c) =>
      LiveKnown(s, c, p);
      assert t.cores[c].phase.InUser? && t.cores[c].phase.pid == p;
    case User(c, _) =>
      InUserKnown(s, c);
      assert CoreOk(s, s.cores[c]);
      assert t.cores[c].phase.InUser? && t.cores[c].phase.pid == p;
    case Timer(c) =>
      LiveKnown(s, c, p);
      assert CoreOk(s, s.cores[c]);
    case Exit(c) =>
  }

  lemma StepInv(s: System, a: Step)
    requires Inv(s) && Enabled(s, a)
    ensures Apply(s, a).Some? && Inv(Apply(s, a).value)
  {
    hide Apply, OneEvent, CoreOk, EntryOk, PidsOk, Subject;
    NoPanic(s, a);
    var t := Apply(s, a).value;
    StepPids(s, a);
    forall p: nat | p != 0
      ensures OneEvent(t, p)
    {
      StepOneEvent(s, a, p);
    }
    StepCoreCount(s, a);
    forall c | 0 <= c < |t.cores|
      ensures CoreOk(t, t.cores[c])
    {
      StepCores(s, a, c);
    }
    forall p | p in t.table
      ensures EntryOk(t, p)
    {
      TableGrows(s, a, p);
      if p == Subject(s, a) {
        SubjectEntry(s, a);
      } else {
        OtherEntries(s, a, p);
      }
    }
  }

  lemma StepCoreCount(s: System, a: Step)
    requires Enabled(s, a) && Apply(s, a).Some?
    ensures |Apply(s, a).value.cores| == |s.cores|
  {
  }

  lemma TableGrows(s: System, a: Step, p: nat)
    requires Inv(s) && Enabled(s, a) && Apply(s, a).Some? && p in Apply(s, a).value.table
    ensures p != 0 && (p in s.table || p == Subject(s, a))
  {
    hide OneEvent, CoreOk, EntryOk, Live;
    StepPids(s, a);
  }

  // ---- What a step does to one process and to one core ------------------------------------------------------

  /**
   * What becomes of process p: it is new when created, Running when its core enters it, and Blocked with the
   * registers of the moment exactly when the timer finds it in user mode; an exit removes it.
   */
  lemma EntryAfter(s: System, a: Step, p: nat)
    requires Inv(s) && Enabled(s, a)
    ensures Apply(s, a).Some?
    ensures var t := Apply(s, a).value.table;
            if a.Create? && p == s.nextPid then p in t && t[p] == Pcb(New, a.registers)
            else if a.Exit? && s.cores[a.core].phase.pid == p then p !in t
            else if a.Enter? && s.cores[a.core].phase == Loaded(p) then
              p in s.table && p in t && t[p] == Pcb(Running, s.table[p].registers)
            else if a.Timer? && s.cores[a.core].phase.InUser? && s.cores[a.core].phase.pid == p then
              p in t && t[p] == Pcb(Blocked, s.cores[a.core].phase.registers)
            else (p in t <==> p in s.table) && (p in t ==> t[p] == s.table[p])
  {
    hide Live, OneEvent, PidsOk, EntryOk;
    NoPanic(s, a);
    if a.Timer? {
      TimerPreempts(s, a.core);
    }
  }

  /** The timer finds a process marked Running exactly when its core is in user mode, and that is the one. */
  lemma TimerPreempts(s: System, c: nat)
    requires Inv(s) && c < |s.cores| && !s.cores[c].phase.Leaving?
    ensures var p := CurrentPid(s.cores[c]);
            p != 0 ==> p in s.table && (s.table[p].state == Running <==> s.cores[c].phase.InUser?)
    ensures s.cores[c].phase.InUser? ==> s.cores[c].phase.pid != 0
  {
    hide OneEvent, PidsOk, EntryOk, Live;
    if s.cores[c].phase.Loaded? && s.cores[c].phase.pid != 0 {
      LoadedNotRunning(s, c);
    } else if s.cores[c].phase.InUser? {
      InUserKnown(s, c);
      assert CoreOk(s, s.cores[c]);
    }
  }

  /** What becomes of core c. An event joins its queue at the back; the one that is picked leaves its place. */
  lemma CoreAfter(s: System, a: Step, c: nat)
    requires Inv(s) && Enabled(s, a) && c < |s.cores|
    ensures Apply(s, a).Some? && c < |Apply(s, a).value.cores|
    ensures var core, after := s.cores[c], Apply(s, a).value.cores[c];
            var (q, phase) := (core.queue, core.phase);
            match a
            case Schedule(d, pid) => after == if d == c then Core(q + [pid], phase) else core
            case ScheduleKernel(d) => after == if d == c then Core(q + [0], phase) else core
            case Pick(d, i) => after == if d == c then Core(q[..i] + q[i + 1..], Loaded(q[i])) else core
            case PollKernel(d, ready) =>
              after == if d != c then core else if ready then Core(q, Idle) else Core(q + [0], Idle)
            case Enter(d) =>
              if d != c then after == core
              else phase.pid in s.table && after == Core(q, InUser(phase.pid, s.table[phase.pid].registers))
            case User(d, r) => after == if d == c then Core(q, InUser(phase.pid, r)) else core
            case Timer(d) => after == if d == c && phase.InUser? then Core(q + [phase.pid], Leaving(phase.pid)) else core
            case Exit(d) => after == if d == c then Core(q, Leaving(phase.pid)) else core
            case Return(d) => after == if d == c then Core(q, Idle) else core
            case Create(_) => after == core
  {
    hide Live, OneEvent, PidsOk, EntryOk;
    NoPanic(s, a);
    if a.Timer? {
      TimerPreempts(s, a.core);
    }
  }

  // ---- Every run -------------------------------------------------------------------------------------------

  ghost predicate CanRun(s: System, steps: seq<Step>)
    decreases |steps|
  {
    steps != [] ==> Enabled(s, steps[0]) && (Apply(s, steps[0]).Some? ==> CanRun(Apply(s, steps[0]).value, steps[1..]))
  }

  /** The state after the steps; None if one of them panics. */
  ghost function Run(s: System, steps: seq<Step>): Option<System>
    requires CanRun(s, steps)
    decreases |steps|
  {
    if steps == [] then Some(s)
    else if Apply(s, steps[0]).None? then None
    else Run(Apply(s, steps[0]).value, steps[1..])
  }

  lemma {:induction false} RunInv(s: System, steps: seq<Step>)
    requires Inv(s) && CanRun(s, steps)
    ensures Run(s, steps).Some? && Inv(Run(s, steps).value)
    decreases |steps|
  {
    hide Apply, Inv, Enabled;
    if steps != [] {
      StepInv(s, steps[0]);
      RunInv(Apply(s, steps[0]).value, steps[1..]);
    }
  }

  lemma {:induction false} IdleCores(n: nat, p: nat)
    ensures p != 0 ==> Live(seq(n, i => Core([], Idle)), p) == 0
  {
    if n > 0 && p != 0 {
      IdleCores(n - 1, p);
      assert seq(n, i => Core([], Idle))[1..] == seq(n - 1, i => Core([], Idle));
    }
  }

  lemma BootInv(n: nat)
    ensures Inv(Boot(n))
  {
    forall p: nat | p != 0
      ensures OneEvent(Boot(n), p)
    {
      IdleCores(n, p);
    }
  }

  lemma {:induction false} LiveSomewhere(cores: seq<Core>, pid: nat) returns (c: nat)
    requires Live(cores, pid) > 0
    ensures c < |cores| && LiveOn(cores[c], pid) > 0
  {
    hide LiveOn;
    if LiveOn(cores[0], pid) > 0 {
      c := 0;
    } else {
      var d := LiveSomewhere(cores[1..], pid);
      c := d + 1;
    }
  }

  /** Where a process is: on a core if Running, else waiting on one or about to be entered, or not scheduled yet. */
  ghost predicate InItsPlace(s: System, pid: nat)
    requires pid in s.table
  {
    if s.table[pid].state == Running then
      exists c :: 0 <= c < |s.cores| && s.cores[c].phase.InUser? && s.cores[c].phase.pid == pid
    else if pid in s.scheduled then
      exists c :: 0 <= c < |s.cores| && (pid in s.cores[c].queue || s.cores[c].phase == Loaded(pid))
    else s.table[pid].state == New
  }

  lemma EveryProcessPlaced(s: System, pid: nat)
    requires Inv(s) && pid in s.table
    ensures InItsPlace(s, pid)
  {
    hide Live;
    assert EntryOk(s, pid);
    if s.table[pid].state != Running && pid in s.scheduled {
      assert OneEvent(s, pid);
      var c := LiveSomewhere(s.cores, pid);
      assert CoreOk(s, s.cores[c]);
      assert pid in s.cores[c].queue || s.cores[c].phase == Loaded(pid);
    }
  }

  /**
   * From boot, on any number of cores, no run ever fails a process-table lookup, and at its end: a
   * scheduled process that has not exited has exactly one live event, any other has none; a process that
   * is marked Running is on exactly one core, with the registers it last had; any other that was scheduled
   * has its event waiting or loaded; and no process is on two cores.
   */
  lemma ProcessSafety(n: nat, steps: seq<Step>)
    requires CanRun(Boot(n), steps)
    ensures Run(Boot(n), steps).Some?
    ensures var t := Run(Boot(n), steps).value;
            && (forall p: nat :: p != 0 ==> Live(t.cores, p) == if p in t.table && p in t.scheduled then 1 else 0)
            && (forall c, d :: 0 <= c < d < |t.cores| && CurrentPid(t.cores[c]) != 0 ==>
                  CurrentPid(t.cores[c]) != CurrentPid(t.cores[d]))
            && (forall c :: 0 <= c < |t.cores| && t.cores[c].phase.InUser? ==>
                  var p := t.cores[c].phase.pid;
                  p in t.table && t.table[p].state == Running && p in t.context && t.context[p] == t.cores[c].phase.registers)
            && (forall p :: p in t.table ==> InItsPlace(t, p))
  {
    hide EntryOk, PidsOk, Live, CanRun, Run, CurrentPid, InItsPlace;
    BootInv(n);
    RunInv(Boot(n), steps);
    var t := Run(Boot(n), steps).value;
    forall p: nat | p != 0
      ensures Live(t.cores, p) == if p in t.table && p in t.scheduled then 1 else 0
    {
      assert OneEvent(t, p);
    }
    forall c, d | 0 <= c < d < |t.cores| && CurrentPid(t.cores[c]) != 0
      ensures CurrentPid(t.cores[c]) != CurrentPid(t.cores[d])
    {
      Alone(t, c, d);
    }
    forall c | 0 <= c < |t.cores| && t.cores[c].phase.InUser?
      ensures CoreOk(t, t.cores[c])
    {
    }
    forall p | p in t.table
      ensures InItsPlace(t, p)
    {
      EveryProcessPlaced(t, p);
    }
  }
}
