/** The process table as the kernel keeps it: an array of slots changed in place, refining the state machine. */
module Kernel {
  import opened Scheduler
  import Int32

  class ProcessTable {
    const table: array<Proc>
    var current: int
    var nextPid: nat
    var enabled: bool

    ghost predicate Valid()
      reads this, table
    {
      table.Length == SLOTS && -1 <= current < SLOTS
    }

    /** The table as a state of the scheduler's state machine. */
    ghost function State(): Sched
      reads this, table
    {
      Sched(table[..], current, nextPid, enabled)
    }

    constructor ()
      ensures Valid() && State() == Init() && fresh(table)
    {
      table := new Proc[SLOTS](_ => EMPTY);
      current, nextPid, enabled := -1, 1, false;
    }

    method FindFreeSlot() returns (k: nat)
      requires Valid()
      ensures k == FreeSlot(table[..], 0)
    {
      k := 0;
      while k < SLOTS && table[k].status != Unused
        invariant 0 <= k <= SLOTS
        invariant FreeSlot(table[..], 0) == FreeSlot(table[..], k)
      {
        k := k + 1;
      }
    }

    method FindProcess(pid: nat) returns (k: nat)
      requires Valid()
      ensures k == FindPid(table[..], pid, 0)
    {
      k := 0;
      while k < SLOTS && !(table[k].pid == pid && table[k].status != Unused)
        invariant 0 <= k <= SLOTS
        invariant FindPid(table[..], pid, 0) == FindPid(table[..], pid, k)
      {
        k := k + 1;
      }
    }

    /** Returns the new PID as a C int, or -1 when every slot is taken. */
    method Create() returns (result: int)
      requires Valid()
      modifies this`nextPid, table
      ensures Valid() && State() == Scheduler.Create(old(State()))
      ensures result == if exists i :: 0 <= i < SLOTS && old(table[i].status) == Unused then Int32.Wrap(old(nextPid)) else -1
    {
      var k := FindFreeSlot();
      if k == SLOTS {
        return -1;
      }
      ghost var was := table[..];
      assert was[k].status == Unused;
      table[k] := Proc(nextPid, Ready, SLICE, 0);
      result := Int32.Wrap(nextPid);
      nextPid := (nextPid + 1) % PID_LIMIT;
      assert table[..] == was[k := Proc(old(nextPid), Ready, SLICE, 0)];
    }

    method End(k: nat, code: int)
      requires Valid() && k < SLOTS
      modifies table
      ensures Valid() && State() == Terminate(old(State()), k, code)
    {
      ghost var was := table[..];
      table[k] := table[k].(status := Zombie, exitCode := code);
      assert table[..] == was[k := was[k].(status := Zombie, exitCode := code)];
    }

    method Exit(code: int)
      requires Valid()
      modifies this`current, table
      ensures Valid() && State() == Scheduler.Exit(old(State()), code)
    {
      if current >= 0 {
        End(current, code);
        RunNext();
      }
    }

    method Kill(pid: nat) returns (result: int)
      requires Valid()
      modifies this`current, table
      ensures Valid() && State() == Scheduler.Kill(old(State()), pid)
      ensures result == if exists i :: 0 <= i < SLOTS && old(table[i].pid) == pid && old(table[i].status) != Unused then 0 else -1
    {
      var k := FindProcess(pid);
      if k == SLOTS {
        return -1;
      }
      assert old(table[k].pid) == pid;
      End(k, -1);
      if k == current {
        RunNext();
      }
      result := 0;
    }

    method CleanupZombies()
      requires Valid()
      modifies table
      ensures table[..] == Cleanup(old(table[..]))
    {
      ghost var was := table[..];
      var i := 0;
      while i < SLOTS
        invariant 0 <= i <= SLOTS
        invariant forall j :: 0 <= j < SLOTS ==> table[j] == if j < i then CleanProc(was[j]) else was[j]
      {
        if table[i].status == Zombie {
          table[i] := table[i].(status := Unused, pid := 0);
        }
        i := i + 1;
      }
    }

    /** The offset of the first ready slot from `start` on, going round; 16 when there is none. */
    method SearchReady(start: nat) returns (o: nat)
      requires Valid()
      ensures o == FirstReady(table[..], start, 0)
    {
      o := 0;
      while o < SLOTS && table[(start + o) % SLOTS].status != Ready
        invariant 0 <= o <= SLOTS
        invariant FirstReady(table[..], start, 0) == FirstReady(table[..], start, o)
      {
        o := o + 1;
      }
    }

    /** One scheduling decision (`schedule`). */
    method RunNext()
      requires Valid()
      modifies this`current, table
      ensures Valid() && State() == Schedule(old(State()))
    {
      hide FirstReady, Switch, Cleanup, Slot;
      if !enabled {
        return;
      }
      CleanupZombies();
      var start := current + 1;
      var o := SearchReady(start);
      if o == SLOTS {
        return;
      }
      var next := (start + o) % SLOTS;
      SlotIs(start, o);
      SwitchIgnores(old(State()), table[..], next);
      SwitchTo(next);
    }

    static lemma SwitchIgnores(s: Sched, t: seq<Proc>, next: nat)
      requires |t| == SLOTS && next < SLOTS && -1 <= s.current < SLOTS
      ensures Switch(s.(table := t), t, next) == Switch(s, t, next)
    {
    }

    static lemma SlotIs(start: nat, o: nat)
      ensures Slot(start, o) == (start + o) % SLOTS
    {
    }

    method SwitchTo(next: nat)
      requires Valid() && next < SLOTS
      modifies this`current, table
      ensures Valid() && State() == Switch(old(State()), old(table[..]), next)
    {
      ghost var was := table[..];
      if current >= 0 && table[current].status == Running {
        table[current] := table[current].(status := Ready);
        assert table[..] == was[current := was[current].(status := Ready)];
      }
      ghost var mid := table[..];
      table[next] := table[next].(status := Running);
      assert table[..] == mid[next := mid[next].(status := Running)];
      current := next;
    }

    method Enable()
      requires Valid()
      modifies this`enabled
      ensures Valid() && State() == old(State()).(enabled := true)
    {
      enabled := true;
    }

    /** The timer interrupt's part. */
    method TimerTick()
      requires Valid()
      modifies this`current, table
      ensures Valid() && State() == Tick(old(State()))
    {
      if !enabled || current < 0 {
        return;
      }
      ghost var was := table[..];
      if table[current].slice > 0 {
        table[current] := table[current].(slice := table[current].slice - 1);
      }
      if table[current].slice == 0 {
        table[current] := table[current].(slice := SLICE);
        assert table[..] == was[current := was[current].(slice := SLICE)];
        RunNext();
      } else {
        assert table[..] == was[current := was[current].(slice := was[current].slice - 1)];
      }
    }
  }
}
