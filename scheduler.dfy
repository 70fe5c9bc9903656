// The scheduling arbitration of printProcess and the administrative
// priority operations (kernel/main.c), as functions over the process table.

module Scheduler {
  import opened Process

  /** schedule_flag: RR_SCHEDULE or PRIO_SCHEDULE. */
  datatype Mode = RoundRobin | Priority

  /** The slots the scheduler arbitrates: 6, 7 and 8 (processes A, B, C). */
  const FirstSlot: nat := 6
  const EndSlot: nat := 9

  /** UpPriority refuses at or above this priority. */
  const PriorityCeiling := 800
  /** DownPriority refuses at or below this priority. */
  const PriorityFloor := 5
  /** The amount UpPriority and DownPriority move a priority by. */
  const PriorityStep := 10

  // ---------------------------------------------------------------------
  // Round robin: every runnable slot once, in ascending order.

  /** The runnable slots among FirstSlot .. hi - 1, in ascending order. */
  function RunnableUpTo(s: seq<Pcb>, hi: nat): (r: seq<nat>)
    requires FirstSlot <= hi <= EndSlot <= |s|
    ensures forall a, b :: 0 <= a < b < |r| ==> r[a] < r[b]
    ensures forall x :: x in r <==> FirstSlot <= x < hi && s[x].runnable
    decreases hi
  {
    if hi == FirstSlot then []
    else
      var prev := RunnableUpTo(s, hi - 1);
      assert forall a :: 0 <= a < |prev| ==> prev[a] in prev;
      prev + (if s[hi - 1].runnable then [hi - 1] else [])
  }

  /** What one round-robin arbitration emits. */
  function RoundRobinOrder(s: seq<Pcb>): (r: seq<nat>)
    requires EndSlot <= |s|
    ensures forall a, b :: 0 <= a < b < |r| ==> r[a] < r[b]
    ensures forall x :: x in r <==> FirstSlot <= x < EndSlot && s[x].runnable
  {
    RunnableUpTo(s, EndSlot)
  }

  // ---------------------------------------------------------------------
  // Priority: the first runnable slot with the strictly greatest positive ticks.

  /** The state of one scan: greatest_ticks and p_proc_ready. */
  datatype Choice = Choice(ticks: int, slot: nat)

  /** The scan of slots FirstSlot .. hi - 1: it keeps the first runnable
      slot whose ticks exceed everything seen so far, starting from 0. */
  function Best(s: seq<Pcb>, hi: nat): (c: Choice)
    requires FirstSlot <= hi <= EndSlot <= |s|
    ensures c.ticks >= 0
    ensures c.ticks == 0 ==> c.slot == 0
    ensures c.ticks > 0 ==> FirstSlot <= c.slot < hi && s[c.slot].runnable && s[c.slot].ticks == c.ticks
    ensures forall j :: FirstSlot <= j < hi && s[j].runnable ==> s[j].ticks <= c.ticks
    ensures forall j :: FirstSlot <= j < c.slot && s[j].runnable ==> s[j].ticks < c.ticks
    decreases hi
  {
    if hi == FirstSlot then Choice(0, 0)
    else
      var c := Best(s, hi - 1);
      if s[hi - 1].runnable && s[hi - 1].ticks > c.ticks then Choice(s[hi - 1].ticks, hi - 1) else c
  }

  /** Some runnable slot still has ticks left. */
  predicate TicksLeft(s: seq<Pcb>)
    requires EndSlot <= |s|
  {
    exists j :: FirstSlot <= j < EndSlot && s[j].runnable && s[j].ticks > 0
  }

  /** The epoch reset: every runnable slot's ticks back to its priority. */
  function Replenish(s: seq<Pcb>): (r: seq<Pcb>)
    requires EndSlot <= |s|
    ensures |r| == |s|
    ensures forall j :: 0 <= j < |s| ==> r[j] == s[j].(ticks := r[j].ticks)
    ensures forall j :: 0 <= j < |s| && r[j] != s[j] ==>
              FirstSlot <= j < EndSlot && s[j].runnable && r[j].ticks == s[j].priority
    ensures forall j :: FirstSlot <= j < EndSlot && s[j].runnable ==> r[j].ticks == s[j].priority
  {
    seq(|s|, j requires 0 <= j < |s| =>
      if FirstSlot <= j < EndSlot && s[j].runnable then s[j].(ticks := s[j].priority) else s[j])
  }

  /** The table the selection is made from: unchanged while some runnable
      slot has ticks left, replenished otherwise. */
  function Epoch(s: seq<Pcb>): (r: seq<Pcb>)
    requires EndSlot <= |s|
    ensures |r| == |s| && forall j :: 0 <= j < |s| ==> r[j] == s[j].(ticks := r[j].ticks)
    ensures CanSchedule(s) ==> TicksLeft(r)
  {
    if TicksLeft(s) then s else Replenish(s)
  }

  /** There is a slot for the priority loop of printProcess to find: some
      runnable slot has ticks left, or will have once the epoch reset has
      run. */
  predicate CanSchedule(s: seq<Pcb>): (b: bool)
    requires EndSlot <= |s|
    ensures b <==> TicksLeft(s) || TicksLeft(Replenish(s))
  {
    exists j :: FirstSlot <= j < EndSlot && s[j].runnable && (s[j].ticks > 0 || s[j].priority > 0)
  }

  /** A slot chosen to run and the table after the choice. */
  datatype Pick = Pick(slot: nat, table: seq<Pcb>)

  /** One priority arbitration: the lowest-numbered runnable slot among
      those with the greatest positive ticks of the epoch table is chosen
      and its ticks go down by one; nothing else changes. */
  function PrioritySchedule(s: seq<Pcb>): (p: Pick)
    requires EndSlot <= |s| && CanSchedule(s)
    ensures FirstSlot <= p.slot < EndSlot && s[p.slot].runnable
    ensures var e := Epoch(s);
            && e[p.slot].ticks > 0
            && (forall j :: FirstSlot <= j < EndSlot && e[j].runnable ==> e[j].ticks <= e[p.slot].ticks)
            && (forall j :: FirstSlot <= j < p.slot && e[j].runnable ==> e[j].ticks < e[p.slot].ticks)
            && p.table == e[p.slot := e[p.slot].(ticks := e[p.slot].ticks - 1)]
  {
    var e := Epoch(s);
    assert TicksLeft(e) by {
      if !TicksLeft(s) {
        var j :| FirstSlot <= j < EndSlot && s[j].runnable && (s[j].ticks > 0 || s[j].priority > 0);
        assert e[j].ticks > 0;
      }
    }
    var c := Best(e, EndSlot);
    assert c.ticks > 0 by {
      var j :| FirstSlot <= j < EndSlot && e[j].runnable && e[j].ticks > 0;
    }
    Pick(c.slot, e[c.slot := e[c.slot].(ticks := c.ticks - 1)])
  }

  /** A priority arbitration is the scan of the epoch table followed by
      one tick taken from the slot it found. */
  lemma PickFromBest(s: seq<Pcb>, e: seq<Pcb>, c: Choice)
    requires EndSlot <= |s| && CanSchedule(s) && e == Epoch(s) && c == Best(e, EndSlot)
    ensures c.ticks > 0 && FirstSlot <= c.slot < EndSlot
    ensures Arbitrate(s, Priority) == Round([c.slot], e[c.slot := e[c.slot].(ticks := c.ticks - 1)])
  {
    var p := PrioritySchedule(s);
    assert p.slot == c.slot;
  }

  /** Emitted slots and the resulting table of one or more arbitrations. */
  datatype Round = Round(emitted: seq<nat>, table: seq<Pcb>)

  /** One call of printProcess under the given mode. Round robin emits the
      runnable slots and changes nothing; priority emits one slot when there
      is one to find, and otherwise emits nothing and changes nothing, where
      the loop as written never ends (SpinForever). */
  function Arbitrate(s: seq<Pcb>, mode: Mode): (r: Round)
    requires EndSlot <= |s|
    ensures |r.table| == |s|
    ensures mode == RoundRobin ==> r.table == s
    ensures mode == Priority ==> |r.emitted| == (if CanSchedule(s) then 1 else 0)
    ensures mode == Priority && !CanSchedule(s) ==> r.table == s
    ensures forall x :: x in r.emitted ==> FirstSlot <= x < EndSlot && s[x].runnable
    ensures forall j :: 0 <= j < |s| ==> r.table[j] == s[j].(ticks := r.table[j].ticks)
  {
    if mode == RoundRobin then Round(RoundRobinOrder(s), s)
    else if !CanSchedule(s) then Round([], s)
    else
      var p := PrioritySchedule(s);
      Round([p.slot], p.table)
  }

  // ---------------------------------------------------------------------
  // The invariant the scheduled slots keep.

  /** Priorities reachable from 5 or 15 by steps of 10 within the bounds. */
  predicate OnLadder(prio: int) {
    PriorityFloor <= prio <= PriorityCeiling + 5 && prio % PriorityStep == 5
  }

  /** Every scheduled slot has a priority on the ladder and ticks between
      0 and its priority. */
  predicate SchedInv(s: seq<Pcb>)
    requires EndSlot <= |s|
  {
    forall j :: FirstSlot <= j < EndSlot ==> OnLadder(s[j].priority) && 0 <= s[j].ticks <= s[j].priority
  }

  predicate AnyRunnable(s: seq<Pcb>)
    requires EndSlot <= |s|
  {
    exists j :: FirstSlot <= j < EndSlot && s[j].runnable
  }

  /** Under the invariant the priority loop terminates exactly when some
      scheduled slot is runnable. */
  lemma CanScheduleIffRunnable(s: seq<Pcb>)
    requires EndSlot <= |s| && SchedInv(s)
    ensures CanSchedule(s) <==> AnyRunnable(s)
  {
    if AnyRunnable(s) {
      var j :| FirstSlot <= j < EndSlot && s[j].runnable;
      assert s[j].priority > 0;
    }
  }

  /** Without a candidate the scan finds nothing, the reset leaves a table
      in which the scan again finds nothing, and a second reset changes
      nothing more: printProcess would loop for ever. */
  lemma NoCandidateNoProgress(s: seq<Pcb>)
    requires EndSlot <= |s| && !CanSchedule(s)
    ensures Best(s, EndSlot).ticks == 0
    ensures Best(Replenish(s), EndSlot).ticks == 0
    ensures Replenish(Replenish(s)) == Replenish(s)
  {
  }

  /** The tables the priority loop of printProcess goes through: each turn
      scans slots 6..8 and, when no runnable slot has ticks left, resets
      their ticks; Spin(s, n) is the table the (n + 1)-th turn scans. */
  function Spin(s: seq<Pcb>, n: nat): (r: seq<Pcb>)
    requires EndSlot <= |s|
    ensures |r| == |s|
    decreases n
  {
    if n == 0 then s
    else
      var t := Spin(s, n - 1);
      if Best(t, EndSlot).ticks > 0 then t else Replenish(t)
  }

  /** With a slot to find, the loop finds it by its second turn, on the
      epoch table. */
  lemma SpinExits(s: seq<Pcb>)
    requires EndSlot <= |s| && CanSchedule(s)
    ensures Spin(s, 1) == Epoch(s) && Best(Spin(s, 1), EndSlot).ticks > 0
  {
    if !TicksLeft(s) {
      var j :| FirstSlot <= j < EndSlot && Replenish(s)[j].runnable && Replenish(s)[j].ticks > 0;
    }
  }

  /** Without a slot to find, no turn of the loop ever finds one: the scan
      sees no positive ticks on any table the loop reaches. This is the
      state "pause all" leaves (slots 6..8 paused): a "pause all" in
      priority mode after it never returns. */
  lemma {:induction false} SpinForever(s: seq<Pcb>, n: nat)
    requires EndSlot <= |s| && !CanSchedule(s)
    ensures !CanSchedule(Spin(s, n)) && Best(Spin(s, n), EndSlot).ticks == 0
    decreases n
  {
    if n > 0 {
      SpinForever(s, n - 1);
      NoCandidateAfterReset(Spin(s, n - 1));
    }
  }

  /** The epoch reset of a table without a candidate leaves none. */
  lemma NoCandidateAfterReset(t: seq<Pcb>)
    requires EndSlot <= |t| && !CanSchedule(t)
    ensures !CanSchedule(Replenish(t)) && Best(Replenish(t), EndSlot).ticks == 0
  {
    var r := Replenish(t);
    forall j | FirstSlot <= j < EndSlot && r[j].runnable
      ensures r[j].ticks <= 0 && r[j].priority <= 0
    {
      assert t[j].runnable && t[j].priority <= 0;
    }
  }

  /** When a schedulable table has no ticks left, the epoch reset gives it some. */
  lemma ReplenishRefills(s: seq<Pcb>)
    requires EndSlot <= |s| && CanSchedule(s) && !TicksLeft(s)
    ensures TicksLeft(Replenish(s))
  {
    var j :| FirstSlot <= j < EndSlot && s[j].runnable && (s[j].ticks > 0 || s[j].priority > 0);
    assert Replenish(s)[j].ticks > 0;
  }

  lemma {:induction false} ReplenishKeepsInv(s: seq<Pcb>)
    requires EndSlot <= |s| && SchedInv(s)
    ensures SchedInv(Replenish(s))
  {
    var r := Replenish(s);
    forall j | FirstSlot <= j < EndSlot
      ensures OnLadder(r[j].priority) && 0 <= r[j].ticks <= r[j].priority
    {
      assert r[j].priority == s[j].priority;
    }
  }

  /** A priority arbitration keeps the invariant: the chosen slot had
      positive ticks, so it is left with ticks between 0 and its priority. */
  lemma PriorityKeepsInv(s: seq<Pcb>)
    requires EndSlot <= |s| && SchedInv(s) && CanSchedule(s)
    ensures SchedInv(PrioritySchedule(s).table)
  {
    ReplenishKeepsInv(s);
  }

  /** Both disciplines keep the invariant, and no runnable flag or
      priority changes. */
  lemma ArbitrateKeepsInv(s: seq<Pcb>, mode: Mode)
    requires EndSlot <= |s| && SchedInv(s)
    ensures SchedInv(Arbitrate(s, mode).table)
    ensures forall j :: 0 <= j < |s| ==> Arbitrate(s, mode).table[j].runnable == s[j].runnable
    ensures forall j :: 0 <= j < |s| ==> Arbitrate(s, mode).table[j].priority == s[j].priority
  {
    if mode == Priority && CanSchedule(s) {
      PriorityKeepsInv(s);
    }
  }

  /** A paused slot is never chosen, under either discipline. */
  lemma PausedNeverChosen(s: seq<Pcb>, x: nat, mode: Mode)
    requires EndSlot <= |s| && x < |s| && !s[x].runnable
    ensures x !in Arbitrate(s, mode).emitted
  {
  }

  // ---------------------------------------------------------------------
  // Repeated arbitration.

  /** xs repeated n times. */
  function Repeat(xs: seq<nat>, n: nat): (r: seq<nat>)
    ensures |r| == n * |xs|
  {
    if n == 0 then [] else Repeat(xs, n - 1) + xs
  }

  /** n successive calls of printProcess in one mode, as the "pause all"
      command makes them, from a table that keeps the invariant. In priority
      mode each call emits one slot while some slot is runnable, and none at
      all when no slot is. */
  function Arbitrations(s: seq<Pcb>, mode: Mode, n: nat): (r: Round)
    requires EndSlot <= |s| && SchedInv(s)
    ensures |r.table| == |s| && SchedInv(r.table)
    ensures forall j :: 0 <= j < |s| ==> r.table[j].runnable == s[j].runnable
    ensures forall j :: 0 <= j < |s| ==> r.table[j].priority == s[j].priority
    ensures mode == Priority && AnyRunnable(s) ==> |r.emitted| == n
    ensures mode == Priority && !AnyRunnable(s) ==> r == Round([], s)
    decreases n
  {
    if n == 0 then Round([], s)
    else
      var prev := Arbitrations(s, mode, n - 1);
      assert AnyRunnable(s) ==> AnyRunnable(prev.table) by {
        if AnyRunnable(s) {
          var j :| FirstSlot <= j < EndSlot && s[j].runnable;
          assert prev.table[j].runnable;
        }
      }
      CanScheduleIffRunnable(prev.table);
      var step := Arbitrate(prev.table, mode);
      ArbitrateKeepsInv(prev.table, mode);
      Round(prev.emitted + step.emitted, step.table)
  }

  /** Arbitrations unfolded once: round n + 1 is one more arbitration on
      the table the first n rounds left. */
  lemma ArbitrationsStep(s: seq<Pcb>, mode: Mode, n: nat, emitted: seq<nat>, before: seq<Pcb>, step: Round)
    requires EndSlot <= |s| && SchedInv(s) && Arbitrations(s, mode, n) == Round(emitted, before)
    requires step == Arbitrate(before, mode)
    ensures Arbitrations(s, mode, n + 1) == Round(emitted + step.emitted, step.table)
  {
  }

  /** Round robin cycles: n arbitrations emit the runnable slots in order,
      n times over (A, B, C, A, B, C, ...), and change nothing. */
  lemma {:induction false} RoundRobinCycles(s: seq<Pcb>, n: nat)
    requires EndSlot <= |s| && SchedInv(s)
    ensures Arbitrations(s, RoundRobin, n) == Round(Repeat(RoundRobinOrder(s), n), s)
  {
    if n > 0 {
      RoundRobinCycles(s, n - 1);
    }
  }

  /** The epoch example: ticks A:5, B:8, C:0, all runnable; B is chosen and
      left with 7 ticks. */
  lemma PriorityExample(s: seq<Pcb>)
    requires EndSlot <= |s|
    requires s[6].runnable && s[7].runnable && s[8].runnable
    requires s[6].ticks == 5 && s[7].ticks == 8 && s[8].ticks == 0
    ensures CanSchedule(s)
    ensures PrioritySchedule(s).slot == 7
    ensures PrioritySchedule(s).table == s[7 := s[7].(ticks := 7)]
  {
    assert s[7].ticks > 0;
    assert TicksLeft(s);
  }

  /** When every runnable slot has run out of ticks, the next arbitration
      first resets them to their priorities and then picks the runnable
      slot of greatest priority. */
  lemma EpochResetPicksHighestPriority(s: seq<Pcb>)
    requires EndSlot <= |s| && CanSchedule(s) && !TicksLeft(s)
    ensures var p := PrioritySchedule(s);
            && (forall j :: FirstSlot <= j < EndSlot && s[j].runnable ==> s[j].priority <= s[p.slot].priority)
            && p.table[p.slot].ticks == s[p.slot].priority - 1
            && (forall j :: FirstSlot <= j < EndSlot && j != p.slot && s[j].runnable
                  ==> p.table[j].ticks == s[j].priority)
  {
    var p := PrioritySchedule(s);
    var e := Replenish(s);
    forall j | FirstSlot <= j < EndSlot && s[j].runnable
      ensures s[j].priority <= s[p.slot].priority
    {
      assert e[j].ticks == s[j].priority;
    }
  }

  // ---------------------------------------------------------------------
  // Administrative priority changes.

  /** UpPriority on one slot: refused at or above the ceiling; otherwise
      the priority goes up one step and the ticks restart from it. */
  function Raise(p: Pcb): (r: Pcb)
    ensures r == p.(priority := r.priority, ticks := r.ticks)
    ensures r == p || (r.priority > p.priority && r.ticks == r.priority)
  {
    if p.priority >= PriorityCeiling then p
    else p.(priority := p.priority + PriorityStep, ticks := p.priority + PriorityStep)
  }

  /** DownPriority on one slot: refused at or below the floor; otherwise
      the priority goes down one step and the ticks restart from it. */
  function Lower(p: Pcb): (r: Pcb)
    ensures r == p.(priority := r.priority, ticks := r.ticks)
    ensures r == p || (r.priority < p.priority && r.ticks == r.priority)
  {
    if p.priority <= PriorityFloor then p
    else p.(priority := p.priority - PriorityStep, ticks := p.priority - PriorityStep)
  }

  /** Raising and lowering keep a priority on the ladder 5, 15, ..., 805,
      and leave the ticks between 0 and the priority. */
  lemma LadderClosed(p: Pcb)
    requires OnLadder(p.priority) && 0 <= p.ticks <= p.priority
    ensures OnLadder(Raise(p).priority) && 0 <= Raise(p).ticks <= Raise(p).priority
    ensures OnLadder(Lower(p).priority) && 0 <= Lower(p).ticks <= Lower(p).priority
  {
  }

  /** A raise that is not refused is undone by a lower, and the other way
      round, up to the ticks, which restart from the priority. */
  lemma RaiseLowerInverse(p: Pcb)
    requires OnLadder(p.priority)
    ensures p.priority < PriorityCeiling ==> Lower(Raise(p)) == p.(ticks := p.priority)
    ensures p.priority > PriorityFloor ==> Raise(Lower(p)) == p.(ticks := p.priority)
  {
  }

  /** Refused changes leave the slot as it was. */
  lemma RefusedChangesNothing(p: Pcb)
    ensures p.priority >= PriorityCeiling ==> Raise(p) == p
    ensures p.priority <= PriorityFloor ==> Lower(p) == p
  {
  }
}
