// The process table as the kernel keeps it: proc_table and schedule_flag,
// filled once by the boot loop of kernel_main and then changed in place by
// printProcess and the process-management commands (kernel/main.c).

module Kernel {
  import opened Process
  import opened Scheduler

  /** How many times the "pause all" command calls printProcess. */
  const PauseRounds: nat := 100

  class ProcTable {
    var procs: array<Pcb>   // proc_table
    var mode: Mode          // schedule_flag

    /** The scheduled slots exist and keep the scheduling invariant. */
    ghost predicate Valid()
      reads this, procs
    {
      EndSlot <= procs.Length && SchedInv(procs[..])
    }

    /** kernel_main's table-building loop over NR_TASKS + NR_PROCS slots of a
        zero-filled table, walking the stack arena pointer down from its top,
        after schedule_flag has been set to round robin. The scheduled slots
        6..8 are assumed to be populated. */
    constructor Boot(cfg: Config, env: BootEnv, tasks: seq<Template>, users: seq<Template>)
      requires BootOk(cfg, tasks, users) && StacksFit(cfg, tasks, users)
      requires EndSlot <= cfg.nrTasks + cfg.nrNativeProcs
      ensures Valid() && fresh(procs)
      ensures procs.Length == cfg.nrTasks + cfg.nrProcs
      ensures forall k :: 0 <= k < procs.Length ==>
                procs[k] == BootSlot(cfg, env, tasks, users, ZeroPcb(cfg.nrFiles), k)
      ensures mode == RoundRobin
    {
      var zero := ZeroPcb(cfg.nrFiles);
      var table := BuildTable(cfg, env, tasks, users);
      forall j | FirstSlot <= j < EndSlot
        ensures OnLadder(table[j].priority) && 0 <= table[j].ticks <= table[j].priority
      {
        BootSlotFacts(cfg, env, tasks, users, zero, j);
      }
      procs := table;
      mode := RoundRobin;
    }

    /** The loop itself: slot i of a zero-filled table becomes BootSlot i. */
    static method BuildTable(cfg: Config, env: BootEnv, tasks: seq<Template>, users: seq<Template>)
      returns (table: array<Pcb>)
      requires BootOk(cfg, tasks, users)
      ensures fresh(table) && table.Length == cfg.nrTasks + cfg.nrProcs
      ensures forall k :: 0 <= k < table.Length ==>
                table[k] == BootSlot(cfg, env, tasks, users, ZeroPcb(cfg.nrFiles), k)
    {
      var n := cfg.nrTasks + cfg.nrProcs;
      var zero := ZeroPcb(cfg.nrFiles);
      table := new Pcb[n](_ => zero);
      var stk := env.stackTop;
      for i := 0 to n
        invariant stk == env.stackTop - StackUsed(cfg, tasks, users, i)
        invariant forall k :: 0 <= k < i ==> table[k] == BootSlot(cfg, env, tasks, users, zero, k)
        invariant forall k :: i <= k < n ==> table[k] == zero
      {
        table[i], stk := FillSlot(cfg, env, tasks, users, i, stk, table[i]);
      }
    }

    /** One turn of the boot loop at slot i: a free slot only gets FREE_SLOT;
        a populated one is filled from its template, and the arena pointer
        comes down by the template's stack size. */
    static method FillSlot(cfg: Config, env: BootEnv, tasks: seq<Template>, users: seq<Template>,
                           i: nat, stk: int, prev: Pcb) returns (p: Pcb, next: int)
      requires BootOk(cfg, tasks, users) && stk == env.stackTop - StackUsed(cfg, tasks, users, i)
      ensures p == BootSlot(cfg, env, tasks, users, prev, i)
      ensures next == env.stackTop - StackUsed(cfg, tasks, users, i + 1)
    {
      if i >= cfg.nrTasks + cfg.nrNativeProcs {
        return prev.(flags := cfg.freeSlot), stk;
      }
      var isTask := i < cfg.nrTasks;
      var t := if isTask then tasks[i] else users[i - cfg.nrTasks];
      assert t == TemplateAt(cfg, tasks, users, i);
      p := Populate(cfg, env, t, isTask, stk, prev);
      next := stk - t.stacksize;
    }

    /** printProcess: one arbitration. Round robin emits every runnable
        scheduled slot in ascending order and changes nothing; priority
        picks one slot, resetting the epoch first if no runnable slot has
        ticks left, and consumes one of its ticks. The priority loop as
        written only terminates when CanSchedule holds (SpinExits,
        SpinForever); here it is entered only then, and otherwise nothing is
        emitted and nothing changes. */
    method PrintProcess() returns (emitted: seq<nat>)
      requires Valid()
      modifies procs
      ensures Valid()
      ensures Arbitrate(old(procs[..]), mode) == Round(emitted, procs[..])
    {
      if mode == RoundRobin {
        emitted := RoundRobinPass();
      } else if CanSchedule(procs[..]) {
        emitted := PriorityPass();
      } else {
        emitted := [];
      }
    }

    /** The round-robin branch: every runnable slot among 6..8, in ascending order. */
    method RoundRobinPass() returns (emitted: seq<nat>)
      requires EndSlot <= procs.Length
      ensures emitted == RoundRobinOrder(procs[..])
    {
      emitted := [];
      for i := FirstSlot to EndSlot
        invariant emitted == RunnableUpTo(procs[..], i)
      {
        if procs[i].runnable {
          emitted := emitted + [i];
        }
      }
    }

    /** The priority branch: scans until some runnable slot has ticks left,
        resetting the epoch after a fruitless scan, then takes one tick from
        the chosen slot. */
    method PriorityPass() returns (emitted: seq<nat>)
      requires Valid() && CanSchedule(procs[..])
      modifies procs
      ensures Valid()
      ensures Arbitrate(old(procs[..]), Priority) == Round(emitted, procs[..])
    {
      ghost var s := procs[..];
      var greatest, ready := Settle();
      ghost var e := procs[..];
      PickFromBest(s, e, Choice(greatest, ready));
      // greatest > 0 puts the chosen slot among 6..8, so the switch's
      // default arm is never taken
      TakeTick(ready, e);
      emitted := [ready];
      ArbitrateKeepsInv(s, Priority);
    }

    /** One tick is charged to the slot that was chosen to run. */
    method TakeTick(ready: nat, ghost e: seq<Pcb>)
      requires EndSlot <= procs.Length && procs[..] == e && FirstSlot <= ready < EndSlot
      modifies procs
      ensures procs[..] == e[ready := e[ready].(ticks := e[ready].ticks - 1)]
    {
      procs[ready] := procs[ready].(ticks := procs[ready].ticks - 1);
    }

    /** The scanning loop of the priority branch: scans until some runnable
        slot has ticks left, resetting the epoch after a fruitless scan. */
    method Settle() returns (greatest: int, ready: nat)
      requires Valid() && CanSchedule(procs[..])
      modifies procs
      ensures Valid() && procs[..] == Epoch(old(procs[..]))
      ensures greatest > 0 && Choice(greatest, ready) == Best(procs[..], EndSlot)
    {
      ghost var s := procs[..];
      greatest, ready := 0, 0;
      while greatest == 0
        invariant Valid()
        invariant greatest >= 0
        invariant greatest == 0 ==> ready == 0
        invariant greatest == 0 ==> procs[..] == s || (!TicksLeft(s) && procs[..] == Replenish(s))
        invariant greatest > 0 ==> procs[..] == Epoch(s) && Choice(greatest, ready) == Best(procs[..], EndSlot)
        decreases (if greatest > 0 then 0 else 1) + (if TicksLeft(procs[..]) then 0 else 1)
      {
        ghost var before := procs[..];
        greatest, ready := ScanGreatest();
        if greatest == 0 {
          ResetEpoch();
          if !TicksLeft(s) {
            ReplenishRefills(s);
          }
          assert before == s;
        }
      }
    }

    /** One pass of printProcess's priority scan over slots 6..8: the
        greatest positive ticks of a runnable slot and the first slot that
        has them, or (0, 0) when no runnable slot has ticks left. */
    method ScanGreatest() returns (greatest: int, ready: nat)
      requires EndSlot <= procs.Length
      ensures Choice(greatest, ready) == Best(procs[..], EndSlot)
      ensures greatest > 0 <==> TicksLeft(procs[..])
    {
      greatest, ready := 0, 0;
      for i := FirstSlot to EndSlot
        invariant Choice(greatest, ready) == Best(procs[..], i)
      {
        if procs[i].runnable {
          if procs[i].ticks > greatest {
            greatest := procs[i].ticks;
            ready := i;
          }
        }
      }
      if greatest > 0 {
        assert procs[ready].runnable && procs[ready].ticks > 0;
      }
    }

    /** The epoch reset of printProcess: every runnable slot among 6..8 gets
        its priority back as ticks. */
    method ResetEpoch()
      requires Valid()
      modifies procs
      ensures Valid()
      ensures procs[..] == Replenish(old(procs[..]))
    {
      ghost var before := procs[..];
      for i := FirstSlot to EndSlot
        invariant forall j :: 0 <= j < procs.Length ==>
                    procs[j] == if FirstSlot <= j < i && before[j].runnable
                                then before[j].(ticks := before[j].priority) else before[j]
      {
        if procs[i].runnable {
          procs[i] := procs[i].(ticks := procs[i].priority);
        }
      }
      assert procs[..] == Replenish(before);
      ReplenishKeepsInv(before);
    }

    /** ResumeProcess: the slot becomes runnable; nothing else changes. */
    method Resume(slot: nat)
      requires Valid() && slot < procs.Length
      modifies procs
      ensures Valid()
      ensures procs[..] == old(procs[..])[slot := old(procs[slot]).(runnable := true)]
    {
      procs[slot] := procs[slot].(runnable := true);
    }

    /** pauseProcess: the slot stops being runnable; nothing else changes. */
    method Pause(slot: nat)
      requires Valid() && slot < procs.Length
      modifies procs
      ensures Valid()
      ensures procs[..] == old(procs[..])[slot := old(procs[slot]).(runnable := false)]
    {
      procs[slot] := procs[slot].(runnable := false);
    }

    /** UpPriority: refused (accepted false) at or above the ceiling,
        otherwise one step up with the ticks restarted from the new priority. */
    method UpPriority(slot: nat) returns (accepted: bool)
      requires Valid() && slot < procs.Length
      modifies procs
      ensures Valid()
      ensures accepted <==> old(procs[slot].priority) < PriorityCeiling
      ensures procs[..] == old(procs[..])[slot := Raise(old(procs[slot]))]
    {
      if procs[slot].priority >= PriorityCeiling {
        accepted := false;
      } else {
        procs[slot] := procs[slot].(priority := procs[slot].priority + PriorityStep);
        procs[slot] := procs[slot].(ticks := procs[slot].priority);
        accepted := true;
      }
      if FirstSlot <= slot < EndSlot {
        LadderClosed(old(procs[slot]));
      }
    }

    /** DownPriority: refused (accepted false) at or below the floor,
        otherwise one step down with the ticks restarted from the new priority. */
    method DownPriority(slot: nat) returns (accepted: bool)
      requires Valid() && slot < procs.Length
      modifies procs
      ensures Valid()
      ensures accepted <==> old(procs[slot].priority) > PriorityFloor
      ensures procs[..] == old(procs[..])[slot := Lower(old(procs[slot]))]
    {
      if procs[slot].priority <= PriorityFloor {
        accepted := false;
      } else {
        procs[slot] := procs[slot].(priority := procs[slot].priority - PriorityStep);
        procs[slot] := procs[slot].(ticks := procs[slot].priority);
        accepted := true;
      }
      if FirstSlot <= slot < EndSlot {
        LadderClosed(old(procs[slot]));
      }
    }

    /** The "run" command: slots 6, 7 and 8 all become runnable. */
    method RunAll()
      requires Valid()
      modifies procs
      ensures Valid()
      ensures procs[..] == old(procs[..])[6 := old(procs[6]).(runnable := true)]
                                         [7 := old(procs[7]).(runnable := true)]
                                         [8 := old(procs[8]).(runnable := true)]
    {
      procs[6] := procs[6].(runnable := true);
      procs[7] := procs[7].(runnable := true);
      procs[8] := procs[8].(runnable := true);
    }

    /** The "pause all" command: one hundred arbitrations in the current
        mode, whose emitted slots are returned, then slots 6, 7 and 8 all
        stop being runnable. In priority mode without a runnable slot the
        arbitrations emit nothing, where as written the first one never
        returns. */
    method PauseAll() returns (emitted: seq<nat>)
      requires Valid()
      modifies procs
      ensures Valid()
      ensures var r := Arbitrations(old(procs[..]), mode, PauseRounds);
              && emitted == r.emitted
              && procs[..] == r.table[6 := r.table[6].(runnable := false)]
                                     [7 := r.table[7].(runnable := false)]
                                     [8 := r.table[8].(runnable := false)]
    {
      emitted := RunRounds(PauseRounds);
      StopAll();
    }

    /** printProcess called n times in a row, collecting what it emits. */
    method RunRounds(n: nat) returns (emitted: seq<nat>)
      requires Valid()
      modifies procs
      ensures Valid()
      ensures Arbitrations(old(procs[..]), mode, n) == Round(emitted, procs[..])
    {
      ghost var s := procs[..];
      emitted := [];
      for k := 0 to n
        invariant Valid()
        invariant Arbitrations(s, mode, k).emitted == emitted
        invariant Arbitrations(s, mode, k).table == procs[..]
      {
        ghost var before := procs[..];
        var e := PrintProcess();
        ArbitrationsStep(s, mode, k, emitted, before, Round(e, procs[..]));
        emitted := emitted + e;
      }
    }

    /** The closing step of "pause all": slots 6, 7 and 8 all stop being runnable. */
    method StopAll()
      requires Valid()
      modifies procs
      ensures Valid()
      ensures procs[..] == old(procs[..])[6 := old(procs[6]).(runnable := false)]
                                         [7 := old(procs[7]).(runnable := false)]
                                         [8 := old(procs[8]).(runnable := false)]
    {
      procs[6] := procs[6].(runnable := false);
      procs[7] := procs[7].(runnable := false);
      procs[8] := procs[8].(runnable := false);
    }

    /** The "RR schedule" and "PRIO schedule" commands: only the mode changes. */
    method SetMode(m: Mode)
      requires Valid()
      modifies this
      ensures Valid()
      ensures mode == m && procs == old(procs) && procs[..] == old(procs[..])
    {
      mode := m;
    }

    /** On entry TestA zeroes the ticks of slots 6, 7 and 8. */
    method EnterTestA()
      requires Valid()
      modifies procs
      ensures Valid()
      ensures forall j :: 0 <= j < procs.Length ==>
                procs[j] == if FirstSlot <= j < EndSlot then old(procs[j]).(ticks := 0) else old(procs[j])
    {
      for k := FirstSlot to EndSlot
        invariant forall j :: 0 <= j < procs.Length ==>
                    procs[j] == if FirstSlot <= j < k then old(procs[j]).(ticks := 0) else old(procs[j])
      {
        procs[k] := procs[k].(ticks := 0);
      }
    }
  }
}
