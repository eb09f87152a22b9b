/** What each event does to the processes it concerns, and to no others. */
module SchedulerLaws {
  import opened Scheduler
  import opened Fairness

  /** PIDs tell live processes apart, so the scan finds the slot that holds one. */
  lemma FoundByPid(s: Sched, pid: nat, i: nat)
    requires Shape(s) && PidInv(s) && i < SLOTS && Live(s.table[i]) && s.table[i].pid == pid
    ensures FindPid(s.table, pid, 0) == i
  {
    var k := FindPid(s.table, pid, 0);
    assert k <= i;
  }

  // ---------- kill ----------

  /** A kill ends its target. Unless the target is current and a decision follows, it is a zombie with exit code -1 and nothing
      else changes; otherwise its slot is free. */
  lemma KillEnds(s: Sched, pid: nat, i: nat)
    requires Inv(s) && PidInv(s) && i < SLOTS && Live(s.table[i]) && s.table[i].pid == pid
    ensures var q := Step(s, KillE(pid));
      && Gone(q, i)
      && (i == s.current && s.enabled ==> q.table[i].status == Unused && q.table[i].pid == 0 && q.table[i].exitCode == -1)
      && (i != s.current || !s.enabled ==> q == s.(table := s.table[i := s.table[i].(status := Zombie, exitCode := -1)]))
  {
    hide Schedule, Slot, SlotInv;
    FoundByPid(s, pid, i);
    var m := Terminate(s, i, -1);
    if i == s.current && s.enabled {
      ScheduledSlot(m, i);
      if Chosen(m) < SLOTS {
        ChosenIsReady(m);
      }
    } else {
      ScheduleOff(m);
    }
  }

  lemma ScheduleOff(s: Sched)
    requires Shape(s)
    ensures !s.enabled ==> Schedule(s) == s
  {
  }

  /** A process that waits or runs is ended by a kill if and only if the kill names it. */
  lemma KillGone(s: Sched, pid: nat, i: nat)
    requires Inv(s) && PidInv(s) && i < SLOTS && !Gone(s, i)
    ensures Gone(Step(s, KillE(pid)), i) <==> s.table[i].pid == pid
  {
    hide Schedule, Slot, SlotInv, Gone;
    assert Live(s.table[i]) by { NotGoneLives(s, i); }
    if s.table[i].pid == pid {
      KillEnds(s, pid, i);
    } else {
      OthersSurviveKill(s, pid, i);
    }
  }

  lemma NotGoneLives(s: Sched, i: nat)
    requires Shape(s) && i < SLOTS && !Gone(s, i)
    ensures Live(s.table[i])
  {
  }

  lemma OthersSurviveKill(s: Sched, pid: nat, i: nat)
    requires Inv(s) && i < SLOTS && !Gone(s, i) && s.table[i].pid != pid
    ensures !Gone(Step(s, KillE(pid)), i) && Step(s, KillE(pid)).table[i].pid == s.table[i].pid
  {
    hide Schedule, Slot;
    assert SlotInv(s, i);
    var k := FindPid(s.table, pid, 0);
    if k < SLOTS {
      var m := Terminate(s, k, -1);
      if k == s.current && s.enabled {
        ScheduledSlot(m, i);
      } else {
        ScheduleOff(m);
      }
    }
  }

  /** A PID nobody has changes nothing. */
  lemma KillNobody(s: Sched, pid: nat)
    requires Shape(s) && forall i :: 0 <= i < SLOTS && Live(s.table[i]) ==> s.table[i].pid != pid
    ensures Step(s, KillE(pid)) == s
  {
  }

  // ---------- exit ----------

  /** An exit frees the current slot, keeping the code, and every other process that waited waits on or runs. */
  lemma ExitEnds(s: Sched, code: int, i: nat)
    requires Inv(s) && s.current >= 0 && i < SLOTS
    ensures var q := Step(s, ExitE(code));
      && q.table[s.current].status == Unused && q.table[s.current].pid == 0 && q.table[s.current].exitCode == code
      && (i != s.current && Waiting(s, i) ==> !Gone(q, i) && q.table[i].pid == s.table[i].pid)
  {
    hide Schedule, Slot, SlotInv;
    var m := Terminate(s, s.current, code);
    ScheduledSlot(m, s.current);
    ScheduledSlot(m, i);
    if Chosen(m) < SLOTS {
      ChosenIsReady(m);
    }
  }

  // ---------- create ----------

  /** A creation puts a ready process with the next PID and ten ticks into the first unused slot, and touches no other; when every
      slot is in use it changes nothing. */
  lemma CreateLaw(s: Sched, k: nat)
    requires Shape(s) && k <= SLOTS
    requires (forall j :: 0 <= j < k ==> s.table[j].status != Unused) && (k < SLOTS ==> s.table[k].status == Unused)
    ensures var q := Step(s, CreateE);
      if k == SLOTS then q == s
      else
        && q.table[k] == Proc(s.nextPid, Ready, 10, 0) && q.current == s.current && q.enabled == s.enabled
        && q.nextPid == (s.nextPid + 1) % 0x1_0000_0000
        && forall j :: 0 <= j < SLOTS && j != k ==> q.table[j] == s.table[j]
  {
    assert FreeSlot(s.table, 0) == k;
  }

  // ---------- tick ----------

  function TickTimes(n: nat): (es: seq<Event>)
    ensures |es| == n
  {
    seq(n, _ => TickE)
  }

  /** Ticks below the slice only count it down. */
  lemma {:induction false} CountingTicks(s: Sched, n: nat)
    requires Inv(s) && s.enabled && s.current >= 0 && n < s.table[s.current].slice
    ensures Run(s, TickTimes(n)) == s.(table := s.table[s.current := s.table[s.current].(slice := s.table[s.current].slice - n)])
    decreases n
  {
    hide Schedule, SlotInv;
    var p := s.table[s.current];
    if n == 0 {
      assert TickTimes(0) == [];
      assert s.table[s.current := p] == s.table;
    } else {
      var q := Step(s, TickE);
      TickIs(s);
      assert q == s.(table := s.table[s.current := p.(slice := p.slice - 1)]);
      assert TickTimes(n)[1..] == TickTimes(n - 1);
      CountingTicks(q, n - 1);
      assert q.table[s.current := p.(slice := p.slice - n)] == s.table[s.current := p.(slice := p.slice - n)];
    }
  }

  /** With a fresh slice, nine ticks change nothing but the slice, and the tenth is a scheduling decision with the slice at ten again. */
  lemma TenTicks(s: Sched)
    requires Inv(s) && s.enabled && s.current >= 0 && s.table[s.current].slice == 10
    ensures Run(s, TickTimes(9)) == s.(table := s.table[s.current := s.table[s.current].(slice := 1)])
    ensures Step(Run(s, TickTimes(9)), TickE) == Schedule(s)
  {
    hide Schedule, SlotInv;
    var p := s.table[s.current];
    CountingTicks(s, 9);
    var q := Run(s, TickTimes(9));
    TickedInv(s, 1);
    TickIs(q);
    assert q.table[s.current := p.(slice := 10)] == s.table;
  }

  lemma TickedInv(s: Sched, n: nat)
    requires Inv(s) && s.current >= 0 && 1 <= n <= 10
    ensures Inv(s.(table := s.table[s.current := s.table[s.current].(slice := n)]))
  {
    var q := s.(table := s.table[s.current := s.table[s.current].(slice := n)]);
    forall i | 0 <= i < SLOTS ensures SlotInv(q, i) {
      assert SlotInv(s, i);
    }
  }

  /** Before the first switch, and while the scheduler is off, ticks do nothing. */
  lemma IdleTick(s: Sched)
    requires Shape(s) && (!s.enabled || s.current < 0)
    ensures Step(s, TickE) == s
  {
  }
}
