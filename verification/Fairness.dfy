/** No ready process waits for more than 16 scheduling decisions, or 160 timer ticks. */
module Fairness {
  import opened Scheduler

  /** Places between the search start and slot `r`, going round. */
  function Dist(s: Sched, r: nat): (d: nat)
    requires Shape(s) && r < SLOTS
    ensures d < SLOTS
  {
    Around(SearchStart(s), r)
  }

  predicate Waiting(s: Sched, r: nat)
    requires Shape(s) && r < SLOTS
  {
    s.table[r].status == Ready
  }

  predicate Runs(s: Sched, r: nat)
    requires Shape(s) && r < SLOTS
  {
    s.table[r].status == Running
  }

  /** The slot no longer holds a process that can run. */
  predicate Gone(s: Sched, r: nat)
    requires Shape(s) && r < SLOTS
  {
    !Waiting(s, r) && !Runs(s, r)
  }

  /** Scheduling decisions an event takes. */
  function Calls(s: Sched, e: Event): nat
    requires Shape(s)
  {
    match e
    case CreateE => 0
    case KillE(pid) => if s.current >= 0 && FindPid(s.table, pid, 0) == s.current then 1 else 0
    case ExitE(code) => if s.current >= 0 then 1 else 0
    case YieldE => 1
    case TickE => if s.enabled && s.current >= 0 && s.table[s.current].slice <= 1 then 1 else 0
    case EnableE => 0
  }

  function TotalCalls(s: Sched, es: seq<Event>): nat
    requires Shape(s)
    decreases |es|
  {
    if es == [] then 0 else Calls(s, es[0]) + TotalCalls(Step(s, es[0]), es[1..])
  }

  /** Searching on from a nearer slot, a slot is nearer by what was passed. */
  lemma CloserAround(start: nat, o: nat, r: nat)
    requires start <= SLOTS && o < SLOTS && r < SLOTS && o < Around(start, r)
    ensures Around(Slot(start, o) + 1, r) == Around(start, r) - o - 1
  {
    hide Around, Slot;
    AroundCases(start, r);
    SlotCases(start, o);
    AroundCases(Slot(start, o) + 1, r);
  }

  /** One scheduling decision: a waiting slot runs, or is at least one place nearer. */
  lemma ScheduleCloser(s: Sched, r: nat)
    requires Inv(s) && s.enabled && r < SLOTS && Waiting(s, r)
    ensures var q := Schedule(s);
      && q.current >= 0 && q.table[q.current].status == Running && Inv(q) && q.enabled
      && (Runs(q, r) || (Waiting(q, r) && Dist(q, r) < Dist(s, r)))
  {
    hide Schedule, Slot, Chosen, Around, FirstReady;
    ScheduleInv(s);
    ScheduleSpec(s);
    ScheduledSlot(s, r);
    var o, start := Chosen(s), SearchStart(s);
    Covers(start, r);
    assert o <= Dist(s, r);
    if o == Dist(s, r) {
      ScheduledSlot(s, r);
    } else {
      CloserAround(start, o, r);
    }
  }

  /** One event: a waiting slot runs, is gone, or waits on with its distance paid down. */
  lemma StepCloser(s: Sched, e: Event, r: nat)
    requires Inv(s) && s.enabled && r < SLOTS && Waiting(s, r)
    ensures var q := Step(s, e);
      && Inv(q) && q.enabled
      && (Waiting(q, r) ==> Dist(q, r) + Calls(s, e) <= Dist(s, r))
  {
    hide Schedule, Slot, Around, SlotInv;
    StepInv(s, e);
    match e
    case CreateE =>
    case KillE(pid) =>
      var k := FindPid(s.table, pid, 0);
      if k < SLOTS {
        AfterTermination(s, k, -1, r);
      }
    case ExitE(code) =>
      if s.current >= 0 {
        AfterTermination(s, s.current, code, r);
      }
    case YieldE => ScheduleCloser(s, r);
    case TickE =>
      if s.current >= 0 {
        SliceBounds(s);
        TickIs(s);
        if s.table[s.current].slice == 1 {
          ScheduleCloser(Ticked(s), r);
        }
      }
    case EnableE =>
  }

  lemma SliceBounds(s: Sched)
    requires Inv(s) && s.current >= 0
    ensures 1 <= s.table[s.current].slice <= SLICE
  {
    assert SlotInv(s, s.current);
  }

  /** Terminating another process and rescheduling never sets a waiting one back. */
  lemma AfterTermination(s: Sched, k: nat, code: int, r: nat)
    requires Inv(s) && s.enabled && r < SLOTS && Waiting(s, r) && k < SLOTS && (Live(s.table[k]) || k == s.current)
    ensures var m := Terminate(s, k, code);
      && (k != r ==> Waiting(m, r) && Dist(m, r) == Dist(s, r))
      && (k != r ==> Runs(Schedule(m), r) || (Waiting(Schedule(m), r) && Dist(Schedule(m), r) < Dist(s, r)))
      && (k == r ==> Gone(m, r) && Gone(Schedule(m), r))
      && Schedule(m).enabled && Inv(Schedule(m))
      && (k != r ==> Schedule(m).current >= 0 && Schedule(m).table[Schedule(m).current].status == Running)
  {
    hide Schedule, Slot, Around;
    var m := Terminate(s, k, code);
    TerminateInv(s, k, code);
    ScheduleInv(m);
    if k != r {
      ScheduleCloser(m, r);
    } else {
      ScheduledSlot(m, r);
      if Chosen(m) < SLOTS {
        ChosenIsReady(m);
      }
    }
  }

  /** The event ends the process in slot `r` before it ran: a kill of its PID, or an exit issued while its slot is current. */
  predicate Ends(s: Sched, e: Event, r: nat)
    requires Shape(s) && r < SLOTS
  {
    || (e.KillE? && e.pid == s.table[r].pid)
    || (e.ExitE? && s.current == r)
  }

  /** Unless the event ends it, a waiting process stays in its slot, waiting or running. */
  lemma StaysOrEnds(s: Sched, e: Event, r: nat)
    requires Inv(s) && s.enabled && r < SLOTS && Waiting(s, r) && !Ends(s, e, r)
    ensures var q := Step(s, e);
      q.table[r].pid == s.table[r].pid && (Waiting(q, r) || Runs(q, r))
  {
    hide Schedule, Slot, Around, SlotInv;
    match e
    case CreateE =>
    case KillE(pid) =>
      var k := FindPid(s.table, pid, 0);
      if k < SLOTS {
        AfterTermination(s, k, -1, r);
        ScheduledSlot(Terminate(s, k, -1), r);
      }
    case ExitE(code) =>
      if s.current >= 0 {
        AfterTermination(s, s.current, code, r);
        ScheduledSlot(Terminate(s, s.current, code), r);
      }
    case YieldE =>
      ScheduleCloser(s, r);
      ScheduledSlot(s, r);
    case TickE =>
      if s.current >= 0 {
        TickIs(s);
        if s.table[s.current].slice == 1 {
          ScheduleCloser(Ticked(s), r);
          ScheduledSlot(Ticked(s), r);
        }
      }
    case EnableE =>
  }

  /** After `k` events the process `pid` of slot `r` runs, or the next event ends it. */
  ghost predicate ServedAt(s: Sched, es: seq<Event>, k: nat, r: nat, pid: nat)
    requires Shape(s) && r < SLOTS && k <= |es|
  {
    var q := Run(s, es[..k]);
    q.table[r].pid == pid && (Runs(q, r) || (k < |es| && Waiting(q, r) && Ends(q, es[k], r)))
  }

  /** In the course of the run, the process waiting in slot `r` gets to run, or is ended first. */
  ghost predicate Served(s: Sched, es: seq<Event>, r: nat)
    requires Shape(s) && r < SLOTS
  {
    exists k :: 0 <= k <= |es| && ServedAt(s, es, k, r, s.table[r].pid)
  }

  lemma ServedLater(s: Sched, es: seq<Event>, r: nat)
    requires Shape(s) && r < SLOTS && es != []
    requires Served(Step(s, es[0]), es[1..], r) && Step(s, es[0]).table[r].pid == s.table[r].pid
    ensures Served(s, es, r)
  {
    hide Step, Waiting, Runs, Ends;
    var pid := s.table[r].pid;
    var k :| 0 <= k <= |es[1..]| && ServedAt(Step(s, es[0]), es[1..], k, r, pid);
    assert es[..k + 1][1..] == es[1..][..k];
    assert Run(s, es[..k + 1]) == Run(Step(s, es[0]), es[1..][..k]);
    assert ServedAt(s, es, k + 1, r, pid);
  }

  lemma ServedNow(s: Sched, es: seq<Event>, r: nat)
    requires Shape(s) && r < SLOTS
    requires Runs(s, r) || (es != [] && Waiting(s, r) && Ends(s, es[0], r))
    ensures Served(s, es, r)
  {
    hide Step, Waiting, Runs, Ends;
    assert es[..0] == [];
    assert ServedAt(s, es, 0, r, s.table[r].pid);
  }

  /** From any reachable state with the scheduler enabled, a ready process gets to run before more decisions are
      taken than there are slots up to its own, whatever is created, killed or exits in between. */
  lemma {:induction false} NoStarvation(s: Sched, es: seq<Event>, r: nat)
    requires Inv(s) && s.enabled && r < SLOTS && (Waiting(s, r) || Runs(s, r))
    requires Waiting(s, r) ==> TotalCalls(s, es) > Dist(s, r)
    ensures Served(s, es, r)
    decreases |es|
  {
    hide Step, Calls, Dist, SlotInv, Ends, Served;
    if Runs(s, r) || Ends(s, es[0], r) {
      ServedNow(s, es, r);
    } else {
      StepCloser(s, es[0], r);
      StaysOrEnds(s, es[0], r);
      NoStarvation(Step(s, es[0]), es[1..], r);
      ServedLater(s, es, r);
    }
  }

  /** Sixteen decisions are enough for every ready process. */
  lemma SixteenDecisions(s: Sched, es: seq<Event>, r: nat)
    requires Inv(s) && s.enabled && r < SLOTS && Waiting(s, r) && TotalCalls(s, es) >= SLOTS
    ensures Served(s, es, r)
  {
    hide Served, TotalCalls;
    NoStarvation(s, es, r);
  }

  // ---------- timer ticks ----------

  predicate Idle(s: Sched)
    requires Shape(s) && s.current >= 0
  {
    s.table[s.current].status == Unused
  }

  /** Ticks a waiting slot can still see; an idle current slot may be refilled with a fresh slice once. */
  function Budget(s: Sched, r: nat): nat
    requires Shape(s) && s.current >= 0 && r < SLOTS
  {
    SLICE * Dist(s, r) + s.table[s.current].slice + if Idle(s) then SLICE else 0
  }

  lemma BudgetBound(s: Sched, r: nat)
    requires Inv(s) && s.current >= 0 && r < SLOTS && Waiting(s, r)
    ensures Budget(s, r) <= 160
  {
    hide Around;
    SliceBounds(s);
    if Idle(s) && Dist(s, r) == SLOTS - 1 {
      OnlySelfIsLast(s, r);
    }
  }

  lemma OnlySelfIsLast(s: Sched, r: nat)
    requires Shape(s) && s.current >= 0 && r < SLOTS && Dist(s, r) == SLOTS - 1
    ensures r == s.current
  {
  }

  function Ticks(es: seq<Event>): nat
  {
    if es == [] then 0 else (if es[0].TickE? then 1 else 0) + Ticks(es[1..])
  }

  lemma Rescheduled(s: Sched, q: Sched, r: nat)
    requires Inv(s) && s.current >= 0 && r < SLOTS && Inv(q) && q.current >= 0
    requires q.table[q.current].status == Running && Dist(q, r) < Dist(s, r)
    ensures Budget(q, r) < Budget(s, r)
  {
    hide Dist;
    SliceBounds(s);
    SliceBounds(q);
  }

  /** A tick spends budget; no other event adds any. */
  lemma StepBudget(s: Sched, e: Event, r: nat)
    requires Inv(s) && s.enabled && s.current >= 0 && r < SLOTS && Waiting(s, r)
    ensures var q := Step(s, e);
      && Inv(q) && q.enabled && q.current >= 0
      && (Waiting(q, r) ==> Budget(q, r) + (if e.TickE? then 1 else 0) <= Budget(s, r))
  {
    hide Schedule, Slot, Around, SlotInv, Budget;
    StepInv(s, e);
    SliceBounds(s);
    var q := Step(s, e);
    match e
    case CreateE => CreateBudget(s, r);
    case KillE(pid) =>
      var k := FindPid(s.table, pid, 0);
      if k < SLOTS {
        AfterTermination(s, k, -1, r);
        CurrentStays(Terminate(s, k, -1));
        if k != r {
          KillBudget(s, k, r);
        }
      }
    case ExitE(code) =>
      AfterTermination(s, s.current, code, r);
      CurrentStays(Terminate(s, s.current, code));
      if Waiting(q, r) {
        Rescheduled(s, q, r);
      }
    case YieldE =>
      ScheduleCloser(s, r);
      if Waiting(q, r) {
        Rescheduled(s, q, r);
      }
    case TickE => TickBudget(s, r);
    case EnableE =>
  }

  lemma CurrentStays(s: Sched)
    requires Shape(s) && s.current >= 0
    ensures Schedule(s).current >= 0
  {
    hide Slot, FirstReady;
  }

  lemma CreateBudget(s: Sched, r: nat)
    requires Inv(s) && s.current >= 0 && r < SLOTS && Waiting(s, r)
    ensures Waiting(Create(s), r) && Budget(Create(s), r) <= Budget(s, r)
  {
    hide Around;
    SliceBounds(s);
  }

  lemma KillBudget(s: Sched, k: nat, r: nat)
    requires Inv(s) && s.enabled && s.current >= 0 && r < SLOTS && Waiting(s, r) && k < SLOTS && Live(s.table[k]) && k != r
    ensures k != s.current ==> Budget(Terminate(s, k, -1), r) == Budget(s, r)
    ensures var q := Schedule(Terminate(s, k, -1));
      q.current >= 0 && (Waiting(q, r) ==> Budget(q, r) <= Budget(s, r))
  {
    hide Schedule, Around;
    AfterTermination(s, k, -1, r);
    var q := Schedule(Terminate(s, k, -1));
    if Waiting(q, r) {
      Rescheduled(s, q, r);
    }
  }

  lemma TickBudget(s: Sched, r: nat)
    requires Inv(s) && s.enabled && s.current >= 0 && r < SLOTS && Waiting(s, r)
    ensures var q := Tick(s);
      q.current >= 0 && (Waiting(q, r) ==> Budget(q, r) + 1 <= Budget(s, r))
  {
    hide Schedule, Around, SlotInv;
    TickIs(s);
    SliceBounds(s);
    var q := Tick(s);
    if s.table[s.current].slice == 1 {
      ScheduleCloser(Ticked(s), r);
      if Waiting(q, r) {
        Rescheduled(s, q, r);
      }
    }
  }

  lemma {:induction false} NoStarvationTicks(s: Sched, es: seq<Event>, r: nat)
    requires Inv(s) && s.enabled && s.current >= 0 && r < SLOTS && (Waiting(s, r) || Runs(s, r))
    requires Waiting(s, r) ==> Ticks(es) >= Budget(s, r)
    ensures Served(s, es, r)
    decreases |es|
  {
    hide Step, Dist, SlotInv, Ends, Served;
    SliceBounds(s);
    if Runs(s, r) || Ends(s, es[0], r) {
      ServedNow(s, es, r);
    } else {
      hide Budget;
      StepBudget(s, es[0], r);
      StaysOrEnds(s, es[0], r);
      NoStarvationTicks(Step(s, es[0]), es[1..], r);
      ServedLater(s, es, r);
    }
  }

  /** Once a process has been current, 160 ticks are enough for every ready process. */
  lemma BoundedTicks(s: Sched, es: seq<Event>, r: nat)
    requires Inv(s) && s.enabled && s.current >= 0 && r < SLOTS && Waiting(s, r) && Ticks(es) >= SLOTS * SLICE
    ensures Served(s, es, r)
  {
    hide Served, Ticks;
    BudgetBound(s, r);
    NoStarvationTicks(s, es, r);
  }

  // ---------- exits of processes that already lost their slot ----------

  /** A waiting process is gone after an exit exactly when its slot is the current one, that is, when the process that
      exits no longer owns the slot it runs in. */
  lemma ExitGone(s: Sched, code: int, r: nat)
    requires Inv(s) && s.enabled && r < SLOTS && Waiting(s, r)
    ensures Gone(Step(s, ExitE(code)), r) <==> s.current == r
  {
    hide Schedule, SlotInv;
    if s.current >= 0 {
      AfterTermination(s, s.current, code, r);
    }
  }

  /** Created, scheduled and killed, process 1 runs on in its slot; process 2 is created there, and 1 exits. */
  const STALE: seq<Event> := [CreateE, EnableE, YieldE, KillE(1), CreateE]

  /** So process 2, neither killed nor exiting, is gone without having run. */
  lemma StaleExit(code: int)
    ensures var s := Run(Init(), STALE);
      && Inv(s) && s.enabled && Waiting(s, 0) && s.table[0].pid == 2 && s.current == 0
      && Gone(Step(s, ExitE(code)), 0)
  {
    hide SlotInv;
    var s := StaleStates();
    InitInv();
    RunInv(Init(), STALE);
    ExitGone(s, code, 0);
  }

  /** The five states of that run. */
  lemma StaleStates() returns (s: Sched)
    ensures s == Run(Init(), STALE)
    ensures s.enabled && s.current == 0 && s.table[0] == Proc(2, Ready, SLICE, 0) && Shape(s)
  {
    hide Step, FirstReady, FreeSlot, FindPid, Slot, Cleanup, Schedule;
    var s0 := Init();
    var s1 := Step(s0, CreateE);
    FirstCreate();
    var s2 := Step(s1, EnableE);
    EnableIs(s1);
    var s3 := Step(s2, YieldE);
    FirstSwitch(s2);
    var s4 := Step(s3, KillE(1));
    SelfKill(s3);
    s := Step(s4, CreateE);
    SecondCreate(s4);
    assert STALE[1..] == [EnableE, YieldE, KillE(1), CreateE];
    assert STALE[1..][1..] == [YieldE, KillE(1), CreateE];
    assert STALE[1..][1..][1..] == [KillE(1), CreateE];
    assert STALE[1..][1..][1..][1..] == [CreateE];
    assert STALE[1..][1..][1..][1..][1..] == [];
    assert Run(s4, [CreateE]) == Run(s, []);
    assert Run(s3, [KillE(1), CreateE]) == s;
    assert Run(s2, [YieldE, KillE(1), CreateE]) == s;
    assert Run(s1, [EnableE, YieldE, KillE(1), CreateE]) == s;
  }

  /** One process in slot 0, the other slots unused. */
  ghost predicate Lone(s: Sched, p: Proc, current: int, next: nat)
  {
    && Shape(s) && s.table[0] == p && s.current == current && s.nextPid == next
    && forall i :: 1 <= i < SLOTS ==> s.table[i] == EMPTY
  }

  lemma FirstCreate()
    ensures Lone(Step(Init(), CreateE), Proc(1, Ready, SLICE, 0), -1, 2) && !Step(Init(), CreateE).enabled
  {
  }

  lemma EnableIs(s: Sched)
    requires Shape(s)
    ensures Step(s, EnableE) == s.(enabled := true)
  {
  }

  lemma FirstSwitch(s: Sched)
    requires Lone(s, Proc(1, Ready, SLICE, 0), -1, 2) && s.enabled
    ensures Lone(Step(s, YieldE), Proc(1, Running, SLICE, 0), 0, 2) && Step(s, YieldE).enabled
  {
    hide Schedule, FirstReady;
    assert CleanProc(s.table[0]).status == Ready && Slot(0, 0) == 0;
    assert Chosen(s) == 0 by { NearestReady(s, 0); }
    forall i | 0 <= i < SLOTS ensures Schedule(s).table[i] == if i == 0 then s.table[0].(status := Running) else s.table[i] {
      ScheduledSlot(s, i);
    }
    ScheduledSlot(s, 0);
  }

  /** With a ready slot right at the search start, that one is chosen. */
  lemma NearestReady(s: Sched, i: nat)
    requires Shape(s) && i < SLOTS && Slot(SearchStart(s), 0) == i && s.table[i].status == Ready
    ensures Chosen(s) == 0
  {
  }

  lemma NobodyReady(s: Sched)
    requires Shape(s) && forall i :: 0 <= i < SLOTS ==> s.table[i].status != Ready
    ensures Chosen(s) == SLOTS
  {
    hide FirstReady;
    assert forall i :: 0 <= i < SLOTS ==> CleanProc(s.table[i]).status != Ready;
  }

  /** The running process kills itself, and there is no other to switch to. */
  lemma SelfKill(s: Sched)
    requires Lone(s, Proc(1, Running, SLICE, 0), 0, 2) && s.enabled
    ensures Lone(Step(s, KillE(1)), Proc(0, Unused, SLICE, -1), 0, 2) && Step(s, KillE(1)).enabled
  {
    hide Schedule, FirstReady, Slot;
    assert FindPid(s.table, 1, 0) == 0;
    var m := Terminate(s, 0, -1);
    NobodyReady(m);
    forall i | 0 <= i < SLOTS ensures Schedule(m).table[i] == if i == 0 then Proc(0, Unused, SLICE, -1) else EMPTY {
      ScheduledSlot(m, i);
    }
    ScheduledSlot(m, 0);
  }

  lemma SecondCreate(s: Sched)
    requires Lone(s, Proc(0, Unused, SLICE, -1), 0, 2) && s.enabled
    ensures var q := Step(s, CreateE);
      Shape(q) && q.enabled && q.current == 0 && q.table[0] == Proc(2, Ready, SLICE, 0)
  {
    assert FreeSlot(s.table, 0) == 0;
  }

  // ---------- without such exits ----------

  /** Every exit of the run is by the process that runs, and no kill names `pid`. */
  ghost predicate Honest(s: Sched, es: seq<Event>, pid: nat)
    requires Shape(s)
  {
    forall k :: 0 <= k < |es| ==> HonestAt(s, es, k, pid)
  }

  ghost predicate HonestAt(s: Sched, es: seq<Event>, k: nat, pid: nat)
    requires Shape(s) && k < |es|
  {
    var q := Run(s, es[..k]);
    && (es[k].ExitE? && q.current >= 0 ==> q.table[q.current].status == Running)
    && es[k] != KillE(pid)
  }

  /** The process that waited in slot `r` runs at some point of the run. */
  ghost predicate RunsInTime(s: Sched, es: seq<Event>, r: nat)
    requires Shape(s) && r < SLOTS
  {
    exists k :: 0 <= k <= |es| && Run(s, es[..k]).table[r].pid == s.table[r].pid && Runs(Run(s, es[..k]), r)
  }

  lemma HonestRuns(s: Sched, es: seq<Event>, r: nat)
    requires Shape(s) && r < SLOTS && Honest(s, es, s.table[r].pid) && Served(s, es, r)
    ensures RunsInTime(s, es, r)
  {
    hide Run;
    var k :| 0 <= k <= |es| && ServedAt(s, es, k, r, s.table[r].pid);
    if k < |es| {
      assert HonestAt(s, es, k, s.table[r].pid);
    }
  }

  /** A ready process that nobody kills runs within 16 decisions, whatever is created or killed, and whichever running
      processes exit, in between. */
  lemma RunsWithinSixteen(s: Sched, es: seq<Event>, r: nat)
    requires Inv(s) && s.enabled && r < SLOTS && Waiting(s, r) && TotalCalls(s, es) >= SLOTS && Honest(s, es, s.table[r].pid)
    ensures RunsInTime(s, es, r)
  {
    hide Served, TotalCalls, Honest, RunsInTime;
    SixteenDecisions(s, es, r);
    HonestRuns(s, es, r);
  }

  /** And within 160 timer ticks once a process has been current. */
  lemma RunsWithinTicks(s: Sched, es: seq<Event>, r: nat)
    requires Inv(s) && s.enabled && s.current >= 0 && r < SLOTS && Waiting(s, r) && Ticks(es) >= SLOTS * SLICE
    requires Honest(s, es, s.table[r].pid)
    ensures RunsInTime(s, es, r)
  {
    hide Served, Ticks, Honest, RunsInTime;
    BoundedTicks(s, es, r);
    HonestRuns(s, es, r);
  }
}
