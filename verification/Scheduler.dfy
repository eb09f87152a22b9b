/** The round-robin scheduler: process table state machine, invariants and freedom from starvation. */
module Scheduler {

  const SLOTS := 16
  const SLICE := 10
  const PID_LIMIT := 0x1_0000_0000

  datatype Status = Unused | Ready | Running | Blocked | Zombie

  datatype Proc = Proc(pid: nat, status: Status, slice: nat, exitCode: int)

  /** The process table, the current slot (-1 before the first switch), the PID counter and the enable flag. */
  datatype Sched = Sched(table: seq<Proc>, current: int, nextPid: nat, enabled: bool)

  const EMPTY := Proc(0, Unused, 0, 0)

  function Init(): Sched { Sched(seq(SLOTS, _ => EMPTY), -1, 1, false) }

  // ---------- scans ----------

  /** First unused slot from `i` on, or the table's length. */
  function FreeSlot(t: seq<Proc>, i: nat): (k: nat)
    requires i <= |t|
    ensures i <= k <= |t| && (k < |t| ==> t[k].status == Unused) && forall j :: i <= j < k ==> t[j].status != Unused
    decreases |t| - i
  {
    if i == |t| || t[i].status == Unused then i else FreeSlot(t, i + 1)
  }

  /** First live slot with the given PID from `i` on, or the table's length. */
  function FindPid(t: seq<Proc>, pid: nat, i: nat): (k: nat)
    requires i <= |t|
    ensures i <= k <= |t| && (k < |t| ==> t[k].pid == pid && t[k].status != Unused)
    ensures forall j :: i <= j < k ==> !(t[j].pid == pid && t[j].status != Unused)
    decreases |t| - i
  {
    if i == |t| || (t[i].pid == pid && t[i].status != Unused) then i else FindPid(t, pid, i + 1)
  }

  /** Slot reached `o` places after `start`, going round. */
  function Slot(start: nat, o: nat): (k: nat)
    ensures k < SLOTS
  {
    (start + o) % SLOTS
  }

  /** Distance to the first ready slot from offset `o` on, or 16. */
  function FirstReady(t: seq<Proc>, start: nat, o: nat): (k: nat)
    requires |t| == SLOTS && o <= SLOTS
    ensures o <= k <= SLOTS && (k < SLOTS ==> t[Slot(start, k)].status == Ready)
    ensures forall j :: o <= j < k ==> t[Slot(start, j)].status != Ready
    decreases SLOTS - o
  {
    if o == SLOTS || t[Slot(start, o)].status == Ready then o else FirstReady(t, start, o + 1)
  }

  // ---------- operations ----------

  function CleanProc(p: Proc): Proc
  {
    if p.status == Zombie then p.(status := Unused, pid := 0) else p
  }

  function Cleanup(t: seq<Proc>): (r: seq<Proc>)
    ensures |r| == |t| && forall i :: 0 <= i < |t| ==> r[i] == CleanProc(t[i])
  {
    seq(|t|, i requires 0 <= i < |t| => CleanProc(t[i]))
  }

  /** Where the search for the next process starts. */
  function SearchStart(s: Sched): nat
    requires s.current >= -1
  {
    s.current + 1
  }

  /** Switch from the current slot to `next`. */
  function Switch(s: Sched, t: seq<Proc>, next: nat): Sched
    requires |t| == SLOTS && next < SLOTS && -1 <= s.current < SLOTS
  {
    var t1 := if s.current >= 0 && t[s.current].status == Running then t[s.current := t[s.current].(status := Ready)] else t;
    s.(table := t1[next := t1[next].(status := Running)], current := next)
  }

  predicate Shape(s: Sched) { |s.table| == SLOTS && -1 <= s.current < SLOTS }

  function Schedule(s: Sched): (r: Sched)
    requires Shape(s)
    ensures Shape(r)
  {
    if !s.enabled then s
    else
      var t := Cleanup(s.table);
      var o := FirstReady(t, SearchStart(s), 0);
      if o == SLOTS then s.(table := t) else Switch(s, t, Slot(SearchStart(s), o))
  }

  function Create(s: Sched): (r: Sched)
    requires Shape(s)
    ensures Shape(r)
  {
    var k := FreeSlot(s.table, 0);
    if k == SLOTS then s
    else s.(table := s.table[k := Proc(s.nextPid, Ready, SLICE, 0)], nextPid := (s.nextPid + 1) % PID_LIMIT)
  }

  function Terminate(s: Sched, k: nat, code: int): (r: Sched)
    requires Shape(s) && k < SLOTS
    ensures Shape(r)
  {
    s.(table := s.table[k := s.table[k].(status := Zombie, exitCode := code)])
  }

  function Kill(s: Sched, pid: nat): (r: Sched)
    requires Shape(s)
    ensures Shape(r)
  {
    var k := FindPid(s.table, pid, 0);
    if k == SLOTS then s
    else if k == s.current then Schedule(Terminate(s, k, -1))
    else Terminate(s, k, -1)
  }

  function Exit(s: Sched, code: int): (r: Sched)
    requires Shape(s)
    ensures Shape(r)
  {
    if s.current < 0 then s else Schedule(Terminate(s, s.current, code))
  }

  function Tick(s: Sched): (r: Sched)
    requires Shape(s)
    ensures Shape(r)
  {
    if !s.enabled || s.current < 0 then s
    else
      var p := s.table[s.current];
      var left := if p.slice > 0 then p.slice - 1 else 0;
      if left == 0 then Schedule(s.(table := s.table[s.current := p.(slice := SLICE)]))
      else s.(table := s.table[s.current := p.(slice := left)])
  }

  datatype Event = CreateE | KillE(pid: nat) | ExitE(code: int) | YieldE | TickE | EnableE

  function Step(s: Sched, e: Event): (r: Sched)
    requires Shape(s)
    ensures Shape(r)
  {
    match e
    case CreateE => Create(s)
    case KillE(pid) => Kill(s, pid)
    case ExitE(code) => Exit(s, code)
    case YieldE => Schedule(s)
    case TickE => Tick(s)
    case EnableE => s.(enabled := true)
  }

  function Run(s: Sched, es: seq<Event>): (r: Sched)
    requires Shape(s)
    ensures Shape(r)
    decreases |es|
  {
    if es == [] then s else Run(Step(s, es[0]), es[1..])
  }

  // ---------- invariant ----------

  ghost predicate SlotInv(s: Sched, i: nat)
    requires Shape(s) && i < SLOTS
  {
    var p := s.table[i];
    && (p.status == Running ==> i == s.current)
    && (p.status != Unused || i == s.current ==> 1 <= p.slice <= SLICE)
  }

  /** At most one process runs and it is the current one; every live slice is 1 to 10. */
  ghost predicate Inv(s: Sched)
  {
    && Shape(s)
    && (!s.enabled ==> s.current == -1)
    && forall i :: 0 <= i < SLOTS ==> SlotInv(s, i)
  }

  ghost predicate Live(p: Proc) { p.status != Unused }

  /** PIDs of live processes are distinct, positive and below the counter. */
  ghost predicate PidInv(s: Sched)
    requires Shape(s)
  {
    && 1 <= s.nextPid < PID_LIMIT
    && (forall i :: 0 <= i < SLOTS && Live(s.table[i]) ==> 1 <= s.table[i].pid < s.nextPid)
    && (forall i, j :: 0 <= i < j < SLOTS && Live(s.table[i]) && Live(s.table[j]) ==> s.table[i].pid != s.table[j].pid)
  }

  lemma InitInv()
    ensures Inv(Init()) && PidInv(Init())
  {
  }

  /** How far from the search start the chosen slot is; 16 when nothing is ready. */
  function Chosen(s: Sched): (o: nat)
    requires Shape(s)
    ensures o <= SLOTS
  {
    FirstReady(Cleanup(s.table), SearchStart(s), 0)
  }

  /** What an enabled schedule leaves in each slot. */
  lemma ScheduledSlot(s: Sched, i: nat)
    requires Shape(s) && s.enabled && i < SLOTS
    ensures var r, o, p := Schedule(s), Chosen(s), CleanProc(s.table[i]);
      && r.current == (if o == SLOTS then s.current else Slot(SearchStart(s), o))
      && r.nextPid == s.nextPid && r.enabled
      && r.table[i] ==
         if o == SLOTS then p
         else if i == r.current then p.(status := Running)
         else if i == s.current && p.status == Running then p.(status := Ready)
         else p
  {
    hide Slot, FirstReady;
  }

  /** A scheduling decision: no zombie is left, and the first ready slot in cyclic order after the old one runs. */
  lemma ScheduleSpec(s: Sched)
    requires Inv(s) && s.enabled
    ensures var r, o := Schedule(s), Chosen(s);
      && (forall i :: 0 <= i < SLOTS ==> r.table[i].status != Zombie)
      && (o == SLOTS ==> r.current == s.current && forall i :: 0 <= i < SLOTS ==> s.table[i].status != Ready)
      && (o < SLOTS ==>
            && r.current == Slot(SearchStart(s), o) && s.table[r.current].status == Ready && r.table[r.current].status == Running
            && forall j :: 0 <= j < o ==> s.table[Slot(SearchStart(s), j)].status != Ready)
  {
    hide Schedule, Slot;
    var t := Cleanup(s.table);
    var start := SearchStart(s);
    var o := Chosen(s);
    forall i | 0 <= i < SLOTS ensures Schedule(s).table[i].status != Zombie {
      ScheduledSlot(s, i);
    }
    forall j | 0 <= j < o ensures s.table[Slot(start, j)].status != Ready {
      assert t[Slot(start, j)] == CleanProc(s.table[Slot(start, j)]);
    }
    if o == SLOTS {
      ScheduledSlot(s, 0);
      forall i | 0 <= i < SLOTS ensures s.table[i].status != Ready {
        Covers(start, i);
        assert t[Slot(start, Around(start, i))] == CleanProc(s.table[i]);
      }
    } else {
      ScheduledSlot(s, Slot(start, o));
    }
  }

  /** How far round from `start` slot `i` is. */
  function Around(start: nat, i: nat): (o: nat)
    requires i < SLOTS
    ensures o < SLOTS
  {
    (i + SLOTS - start % SLOTS) % SLOTS
  }

  /** Going round without division. */
  lemma AroundCases(start: nat, r: nat)
    requires start <= SLOTS && r < SLOTS
    ensures Around(start, r) == if start == SLOTS then r else if start <= r then r - start else r + SLOTS - start
  {
  }

  lemma SlotCases(start: nat, o: nat)
    requires start <= SLOTS && o < SLOTS
    ensures Slot(start, o) == if start + o < SLOTS then start + o else start + o - SLOTS
  {
  }

  lemma Covers(start: nat, i: nat)
    requires start <= SLOTS && i < SLOTS
    ensures Slot(start, Around(start, i)) == i
  {
    hide Around, Slot;
    AroundCases(start, i);
    SlotCases(start, Around(start, i));
  }

  lemma ScheduleInv(s: Sched)
    requires Inv(s)
    ensures Inv(Schedule(s)) && Schedule(s).nextPid == s.nextPid && Schedule(s).enabled == s.enabled
  {
    if s.enabled {
      hide Schedule, Slot, Chosen;
      var r := Schedule(s);
      forall i | 0 <= i < SLOTS ensures SlotInv(r, i) {
        assert SlotInv(s, i);
        ScheduledSlot(s, i);
      }
      ScheduledSlot(s, 0);
    }
  }

  lemma SchedulePids(s: Sched)
    requires Inv(s) && PidInv(s)
    ensures PidInv(Schedule(s))
  {
    if s.enabled {
      hide Schedule, Slot, Chosen, Inv;
      var r := Schedule(s);
      forall i | 0 <= i < SLOTS ensures Live(r.table[i]) ==> Live(s.table[i]) && r.table[i].pid == s.table[i].pid {
        ScheduledSlot(s, i);
        if Live(r.table[i]) && !Live(s.table[i]) {
          ChosenIsReady(s);
        }
      }
      ScheduledSlot(s, 0);
    }
  }

  /** After a process is ended and another scheduled, what is live was live, with the same PID. */
  lemma EndedSlot(s: Sched, k: nat, code: int, i: nat)
    requires Shape(s) && s.enabled && k < SLOTS && i < SLOTS
    ensures var p := Schedule(Terminate(s, k, code)).table[i];
      Live(p) ==> Live(s.table[i]) && p.pid == s.table[i].pid
  {
    hide Schedule, Slot, Chosen;
    var m := Terminate(s, k, code);
    ScheduledSlot(m, i);
    if Chosen(m) < SLOTS {
      ChosenIsReady(m);
    }
  }

  /** Ending a process and rescheduling keeps PIDs apart, even when the slot's process was already cleaned away. */
  lemma EndPids(s: Sched, k: nat, code: int)
    requires Shape(s) && s.enabled && PidInv(s) && k < SLOTS
    ensures PidInv(Schedule(Terminate(s, k, code))) && Schedule(Terminate(s, k, code)).nextPid == s.nextPid
  {
    hide Schedule, Slot, Chosen;
    var m := Terminate(s, k, code);
    var r := Schedule(m);
    forall i | 0 <= i < SLOTS ensures Live(r.table[i]) ==> Live(s.table[i]) && r.table[i].pid == s.table[i].pid {
      EndedSlot(s, k, code, i);
    }
    ScheduledSlot(m, 0);
  }

  lemma ChosenIsReady(s: Sched)
    requires Shape(s) && s.enabled && Chosen(s) < SLOTS
    ensures s.table[Slot(SearchStart(s), Chosen(s))].status == Ready
  {
    hide Slot;
  }

  lemma TerminateInv(s: Sched, k: nat, code: int)
    requires Inv(s) && k < SLOTS && (Live(s.table[k]) || k == s.current)
    ensures Inv(Terminate(s, k, code)) && (PidInv(s) && Live(s.table[k]) ==> PidInv(Terminate(s, k, code)))
  {
    var r := Terminate(s, k, code);
    forall i | 0 <= i < SLOTS ensures SlotInv(r, i) {
      assert SlotInv(s, i);
    }
  }

  /** Every event keeps the invariant. */
  lemma StepInv(s: Sched, e: Event)
    requires Inv(s)
    ensures Inv(Step(s, e))
  {
    hide Schedule;
    var r := Step(s, e);
    match e
    case CreateE =>
      forall i | 0 <= i < SLOTS ensures SlotInv(r, i) {
        assert SlotInv(s, i);
      }
    case KillE(pid) =>
      var k := FindPid(s.table, pid, 0);
      if k < SLOTS {
        TerminateInv(s, k, -1);
        ScheduleInv(Terminate(s, k, -1));
      }
    case ExitE(code) =>
      if s.current >= 0 {
        TerminateInv(s, s.current, code);
        ScheduleInv(Terminate(s, s.current, code));
      }
    case YieldE => ScheduleInv(s);
    case TickE => TickInv(s);
    case EnableE =>
      forall i | 0 <= i < SLOTS ensures SlotInv(r, i) {
        assert SlotInv(s, i);
      }
  }

  /** The slice update of a tick, before any rescheduling. */
  function Ticked(s: Sched): Sched
    requires Shape(s) && s.current >= 0
  {
    var p := s.table[s.current];
    s.(table := s.table[s.current := p.(slice := if p.slice > 1 then p.slice - 1 else SLICE)])
  }

  lemma TickIs(s: Sched)
    requires Inv(s) && s.enabled && s.current >= 0
    ensures Inv(Ticked(s)) && (PidInv(s) ==> PidInv(Ticked(s)))
    ensures Tick(s) == if s.table[s.current].slice == 1 then Schedule(Ticked(s)) else Ticked(s)
  {
    hide Schedule;
    assert SlotInv(s, s.current);
    var r := Ticked(s);
    forall i | 0 <= i < SLOTS ensures SlotInv(r, i) {
      assert SlotInv(s, i);
    }
  }

  lemma TickInv(s: Sched)
    requires Inv(s)
    ensures Inv(Tick(s))
  {
    hide Schedule;
    if s.enabled && s.current >= 0 {
      TickIs(s);
      ScheduleInv(Ticked(s));
    }
  }

  /** PIDs stay distinct and are issued in increasing order, short of the 32-bit wrap. */
  lemma StepPids(s: Sched, e: Event)
    requires Inv(s) && PidInv(s) && (e.CreateE? ==> s.nextPid + 1 < PID_LIMIT)
    ensures PidInv(Step(s, e)) && s.nextPid <= Step(s, e).nextPid <= s.nextPid + 1
    ensures e.CreateE? && FreeSlot(s.table, 0) < SLOTS ==>
      Step(s, e).table[FreeSlot(s.table, 0)].pid == s.nextPid && Step(s, e).nextPid == s.nextPid + 1
  {
    hide Schedule;
    match e
    case CreateE =>
    case KillE(pid) =>
      var k := FindPid(s.table, pid, 0);
      if k < SLOTS {
        TerminateInv(s, k, -1);
        if s.enabled {
          EndPids(s, k, -1);
        }
      }
    case ExitE(code) =>
      if s.current >= 0 {
        TerminateInv(s, s.current, code);
        EndPids(s, s.current, code);
      }
    case YieldE =>
      ScheduleInv(s);
      SchedulePids(s);
    case TickE =>
      if s.enabled && s.current >= 0 {
        TickIs(s);
        ScheduleInv(Ticked(s));
        SchedulePids(Ticked(s));
      }
    case EnableE =>
  }

  lemma {:induction false} RunInv(s: Sched, es: seq<Event>)
    requires Inv(s)
    ensures Inv(Run(s, es))
    decreases |es|
  {
    hide Step;
    if es != [] {
      StepInv(s, es[0]);
      RunInv(Step(s, es[0]), es[1..]);
    }
  }

  function Creates(es: seq<Event>): nat
  {
    if es == [] then 0 else (if es[0].CreateE? then 1 else 0) + Creates(es[1..])
  }

  /** Only creation issues PIDs. */
  lemma NextPidKept(s: Sched, e: Event)
    requires Inv(s) && !e.CreateE?
    ensures Step(s, e).nextPid == s.nextPid
  {
    hide Schedule, SlotInv;
    match e
    case KillE(pid) =>
      var k := FindPid(s.table, pid, 0);
      if k < SLOTS {
        TerminateInv(s, k, -1);
        ScheduleInv(Terminate(s, k, -1));
      }
    case ExitE(code) =>
      if s.current >= 0 {
        TerminateInv(s, s.current, code);
        ScheduleInv(Terminate(s, s.current, code));
      }
    case YieldE => ScheduleInv(s);
    case TickE =>
      if s.enabled && s.current >= 0 {
        TickIs(s);
        ScheduleInv(Ticked(s));
      }
    case EnableE =>
  }

  /** Over a whole run with fewer creations than PIDs left, live PIDs stay distinct and the counter never goes back. */
  lemma {:induction false} RunPids(s: Sched, es: seq<Event>)
    requires Inv(s) && PidInv(s) && s.nextPid + Creates(es) < PID_LIMIT
    ensures Inv(Run(s, es)) && PidInv(Run(s, es))
    ensures s.nextPid <= Run(s, es).nextPid <= s.nextPid + Creates(es)
    decreases |es|
  {
    hide SlotInv, Step, PidInv;
    if es != [] {
      StepInv(s, es[0]);
      StepPids(s, es[0]);
      if !es[0].CreateE? {
        NextPidKept(s, es[0]);
      }
      RunPids(Step(s, es[0]), es[1..]);
    }
  }

  // ---------- no PID is issued twice ----------

  /** The PID event `k` of a run issues; 0 when it is no creation, or one that finds no slot. */
  function Issued(s: Sched, es: seq<Event>, k: nat): nat
    requires Shape(s) && k < |es|
  {
    var q := Run(s, es[..k]);
    if es[k].CreateE? && FreeSlot(q.table, 0) < SLOTS then q.nextPid else 0
  }

  lemma {:induction false} RunSplit(s: Sched, es: seq<Event>, k: nat)
    requires Shape(s) && k <= |es|
    ensures Run(s, es) == Run(Run(s, es[..k]), es[k..])
    ensures Creates(es) == Creates(es[..k]) + Creates(es[k..])
    decreases |es|
  {
    hide Step;
    if k == 0 {
      assert es[..0] == [] && es[0..] == es;
    } else {
      assert es[..k][1..] == es[1..][..k - 1] && es[k..] == es[1..][k - 1..];
      RunSplit(Step(s, es[0]), es[1..], k - 1);
    }
  }

  lemma CounterAt(s: Sched, es: seq<Event>, k: nat)
    requires Inv(s) && PidInv(s) && s.nextPid + Creates(es) < PID_LIMIT && k <= |es|
    ensures Inv(Run(s, es[..k])) && PidInv(Run(s, es[..k]))
    ensures Run(s, es[..k]).nextPid + Creates(es[k..]) <= s.nextPid + Creates(es)
  {
    hide SlotInv, PidInv, Run, Creates;
    RunSplit(s, es, k);
    RunPids(s, es[..k]);
  }

  /** The process a creation makes holds the issued PID, and the counter moves past it. */
  lemma IssuedIs(s: Sched, es: seq<Event>, k: nat)
    requires Inv(s) && PidInv(s) && s.nextPid + Creates(es) < PID_LIMIT && k < |es| && Issued(s, es, k) != 0
    ensures var q, r := Run(s, es[..k]), Run(s, es[..k + 1]);
      r.table[FreeSlot(q.table, 0)].pid == Issued(s, es, k) && r.nextPid == Issued(s, es, k) + 1
  {
    hide SlotInv, PidInv, Step;
    var q := Run(s, es[..k]);
    CounterAt(s, es, k);
    assert es[k..][0] == es[k];
    RunSplit(s, es[..k + 1], k);
    assert es[..k + 1][..k] == es[..k] && es[..k + 1][k..] == [es[k]];
    assert [es[k]][1..] == [];
    assert Run(q, [es[k]]) == Step(q, es[k]);
    StepPids(q, es[k]);
  }

  /** Two creations of one run that succeed never give the same PID, however many processes died in between. */
  lemma NeverReissued(s: Sched, es: seq<Event>, j: nat, k: nat)
    requires Inv(s) && PidInv(s) && s.nextPid + Creates(es) < PID_LIMIT && j < k < |es|
    requires Issued(s, es, j) != 0 && Issued(s, es, k) != 0
    ensures Issued(s, es, j) < Issued(s, es, k)
  {
    hide SlotInv, PidInv, Step, Run, Creates, FreeSlot;
    IssuedIs(s, es, j);
    CounterGrows(s, es, j + 1, k);
  }

  lemma CounterGrows(s: Sched, es: seq<Event>, j: nat, k: nat)
    requires Inv(s) && PidInv(s) && s.nextPid + Creates(es) < PID_LIMIT && j <= k <= |es|
    ensures Run(s, es[..j]).nextPid <= Run(s, es[..k]).nextPid
  {
    hide SlotInv, PidInv, Step, Run, Creates;
    var q, between := Run(s, es[..j]), es[j..k];
    CounterAt(s, es, j);
    SliceTwice(es, j, k);
    RunSplit(s, es[..k], j);
    RunSplit(q, es[j..], k - j);
    RunPids(q, between);
  }

  lemma SliceTwice(es: seq<Event>, j: nat, k: nat)
    requires j <= k <= |es|
    ensures es[..k][..j] == es[..j] && es[..k][j..] == es[j..k] && es[j..][..k - j] == es[j..k]
  {
  }
}
