/**
 * The handlers that move processes along, as the kernel runs them: create_process, run_process_ring3,
 * timer_handler and sys_exit update the process table and their core in place. Each takes exactly the
 * step that Processes reasons about, and each table lookup is proved to succeed.
 */
module ProcessHandlers {
  import opened Basics
  import opened Processes

  class Kernel {
    var cores: seq<Core>
    var table: map<nat, Pcb>
    var nextPid: nat
    ghost var scheduled: set<nat>
    ghost var context: map<nat, nat>

    ghost function State(): System
      reads this
    {
      System(cores, table, scheduled, nextPid, context)
    }

    ghost predicate Valid()
      reads this
    {
      Inv(State())
    }

    constructor (n: nat)
      ensures Valid() && State() == Boot(n)
    {
      cores := seq(n, i => Core([], Idle));
      table, nextPid, scheduled, context := map[], 1, {}, map[];
      new;
      BootInv(n);
    }

    method CreateProcess(registers: nat) returns (pid: nat)
      requires Valid()
      modifies this
      ensures Valid() && Apply(old(State()), Create(registers)) == Some(State())
      ensures pid !in old(table) && pid in table && pid > 0
    {
      StepInv(State(), Create(registers));
      assert PidsOk(State());
      pid := nextPid;
      nextPid := nextPid + 1;
      table, context := table[pid := Pcb(New, registers)], context[pid := registers];
    }

    method ScheduleProcess(c: nat, pid: nat)
      requires Valid() && c < |cores| && pid in table && pid !in scheduled
      modifies this
      ensures Valid() && Apply(old(State()), Schedule(c, pid)) == Some(State())
    {
      StepInv(State(), Schedule(c, pid));
      cores := cores[c := Core(cores[c].queue + [pid], cores[c].phase)];
      scheduled := scheduled + {pid};
    }

    /** run_process_ring3 up to the entry into user mode, when the runner polls the event of a process. */
    method RunProcess(c: nat)
      requires Valid() && c < |cores| && cores[c].phase.Loaded? && cores[c].phase.pid != 0
      modifies this
      ensures Valid() && Apply(old(State()), Enter(c)) == Some(State())
    {
      hide OneEvent, PidsOk, CoreOk, EntryOk;
      StepInv(State(), Enter(c));
      LiveKnown(State(), c, cores[c].phase.pid);
      var pid := cores[c].phase.pid;
      var pcb := table[pid];
      cores := cores[c := Core(cores[c].queue, InUser(pid, pcb.registers))];
      table := table[pid := Pcb(Running, pcb.registers)];
    }

    /** timer_handler; saved is the register frame on the interrupt stack. */
    method TimerHandler(c: nat, saved: nat)
      requires Valid() && c < |cores| && !cores[c].phase.Leaving?
      requires cores[c].phase.InUser? ==> saved == cores[c].phase.registers
      modifies this
      ensures Valid() && Apply(old(State()), Timer(c)) == Some(State())
    {
      hide OneEvent, PidsOk, CoreOk, EntryOk;
      StepInv(State(), Timer(c));
      var pid := CurrentPid(cores[c]);
      if pid == 0 {
        return;
      }
      LiveKnown(State(), c, pid);
      var pcb := table[pid];
      if pcb.state != Running {
        return;
      }
      table := table[pid := Pcb(Blocked, saved)];
      cores := cores[c := Core(cores[c].queue + [pid], Leaving(pid))];
    }

    /** sys_exit, called from a process. */
    method SysExit(c: nat)
      requires Valid() && c < |cores| && cores[c].phase.InUser?
      modifies this
      ensures Valid() && Apply(old(State()), Exit(c)) == Some(State())
      ensures CurrentPid(old(cores)[c]) !in table && Live(cores, CurrentPid(old(cores)[c])) == 0
    {
      hide PidsOk, CoreOk, EntryOk, Live;
      StepInv(State(), Exit(c));
      InUserKnown(State(), c);
      var pid := CurrentPid(cores[c]);
      table := table - {pid};
      cores := cores[c := Core(cores[c].queue, Leaving(pid))];
      assert OneEvent(State(), pid);
    }
  }
}
