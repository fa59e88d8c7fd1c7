/** The kernel's global state and the calls that change it, each proved equal to a step of Kernel. */
module KernelObject {
  import opened Bits
  import opened FirstBit
  import opened Lists
  import opened Kernel

  class Rtos {
    var threads: map<int, Thread>
    var ready: seq<seq<int>>
    var group: bv32
    var current: int
    var locks: nat
    var lists: map<int, seq<int>>

    function View(): (s: Sys)
      reads this
    {
      Sys(threads, ready, group, current, locks, lists)
    }

    ghost predicate Valid()
      reads this
    {
      Inv(View())
    }

    /** `rt_system_scheduler_init`, the startup of some threads, and `rt_system_scheduler_start`;
        `nobody` stands for RT_NULL. */
    constructor (created: map<int, Thread>, started: seq<int>, listIds: set<int>, nobody: int)
      requires forall t | t in created :: Created(created[t])
      requires started != [] && Distinct(started) && (forall t | t in started :: t in created) && nobody !in created
      ensures Valid() && threads.Keys == created.Keys && lists.Keys == listIds
              && forall l | l in lists :: lists[l] == []
      ensures current in started && locks == 0
      ensures forall t | t in created ::
                && threads[t].stat == (if t == current then Running else if t in started then Ready else Init)
                && (t in started ==> threads[t].prio == created[t].base >= threads[current].prio)
    {
      hide Insert, Booting, Run, Core, Ffs, Mask, Or, And, Has;
      threads, ready, group, current, locks := created, seq(PRIORITY_MAX, _ => []), 0, nobody, 0;
      lists := map l | l in listIds :: [];
      new;
      BootStart(View(), created);
      var i := 0;
      assert started[..0] == [];
      while i < |started|
        invariant i <= |started| && Booting(View(), created, started[..i]) && current == nobody && locks == 0
        invariant lists == map l | l in listIds :: []
      {
        var t := started[i];
        assert t in started;
        BootStep(View(), created, started, i);
        threads := threads[t := threads[t].(prio := threads[t].base, mask := Mask(threads[t].base), stat := Suspended)];
        InsertThread(t);
        i := i + 1;
      }
      BootDone(View(), created, started);
      var to := ready[Ffs(group) - 1][0];
      current := to;
      RunKeeps(View(), to);
      RunThread(to);
    }

    /** `rt_list_remove(&thread->tlist)`. */
    method UnlinkNode(t: int)
      modifies `ready, `lists
      ensures View() == Unlist(old(View()), t)
    {
      ready := seq(|ready|, p requires 0 <= p < |ready| reads this => Without(ready[p], t));
      lists := map l | l in lists :: Without(lists[l], t);
    }

    /** `rt_schedule_remove_thread`. */
    method RemoveThread(t: int)
      requires t in threads && threads[t].prio < |ready|
      modifies this
      ensures View() == Remove(old(View()), t) && threads == old(threads) && current == old(current)
      ensures |ready| == |old(ready)|
    {
      UnlinkNode(t);
      if ready[threads[t].prio] == [] {
        group := AndNot(group, threads[t].mask);
      }
    }

    /** `rt_schedule_insert_thread`. */
    method InsertThread(t: int)
      requires t in threads && threads[t].prio < |ready|
      modifies this
      ensures View() == Insert(old(View()), t)
    {
      if t == current {
        threads := threads[t := threads[t].(stat := Running)];
        return;
      }
      threads := threads[t := threads[t].(stat := Ready)];
      var p := threads[t].prio;
      ready := ready[p := ready[p] + [t]];
      group := Or(group, threads[t].mask);
    }

    /** The end of a switch: the thread leaves its queue and is marked as running. */
    method RunThread(t: int)
      requires t in threads && threads[t].prio < |ready|
      modifies this
      ensures View() == Run(old(View()), t)
    {
      RemoveThread(t);
      threads := threads[t := threads[t].(stat := Running)];
    }

    /** `rt_schedule`. */
    method DoSchedule()
      requires Valid()
      modifies this
      ensures Valid() && View() == Schedule(old(View()))
    {
      hide Core, Run, Insert, Ffs, Unlist;
      ScheduleKeeps(View());
      if locks == 0 && group != 0 {
        assert Highest(View()) == Ffs(group) - 1;
        HeadReady(View(), Highest(View()));
        var highest := Ffs(group) - 1;
        var to := ready[highest][0];
        var needInsert := false;
        var from := current;
        if threads[from].stat == Running {
          if threads[from].prio < highest {
            to := from;
          } else if threads[from].prio == highest && !threads[from].yielded {
            to := from;
          } else {
            needInsert := true;
          }
          threads := threads[from := threads[from].(yielded := false)];
        }
        if to != from {
          current := to;
          if needInsert {
            InsertShape(View(), from);
            InsertThread(from);
          }
          RunThread(to);
        } else {
          RunThread(from);
        }
      }
    }

    /** `rt_thread_suspend`. */
    method SuspendThread(t: int) returns (ok: bool)
      requires Valid() && t in threads
      modifies this
      ensures Valid() && (View(), ok) == Suspend(old(View()), t)
    {
      hide Core, Remove;
      SuspendKeeps(View(), t);
      PrioInRange(View(), t);
      var stat := threads[t].stat;
      if stat != Ready && stat != Running { return false; }
      SuspendSection(t);
      return true;
    }

    /** The section of `rt_thread_suspend`, which follows its test of the state. */
    method SuspendSection(t: int)
      requires t in threads && threads[t].prio < |ready|
      modifies this
      ensures View() == SuspendNow(old(View()), t)
    {
      RemoveThread(t);
      threads := threads[t := threads[t].(stat := Suspended)];
      threads := threads[t := threads[t].(armed := false)];
    }

    /** The first of the two sections of `rt_thread_resume`; the second is `InsertThread`. */
    method DetachThread(t: int)
      requires t in threads
      modifies this
      ensures View() == Detach(old(View()), t)
    {
      UnlinkNode(t);
      threads := threads[t := threads[t].(armed := false)];
    }

    /** `rt_thread_resume` with interrupts off throughout. */
    method ResumeThread(t: int) returns (ok: bool)
      requires Valid() && t in threads
      modifies this
      ensures Valid() && (View(), ok) == Resume(old(View()), t)
    {
      hide Core, Insert;
      ResumeKeeps(View(), t);
      PrioInRange(View(), t);
      if threads[t].stat != Suspended { return false; }
      DetachThread(t);
      UnlistShape(old(View()), t);
      InsertThread(t);
      return true;
    }

    method ExpireWait(t: int)
      requires Valid() && t in threads && threads[t].armed
      modifies this
      ensures Valid() && old(threads[t].prio < |ready|) && View() == Expire(old(View()), t)
    {
      hide Inv, Insert, Unlist;
      ghost var s := View();
      ArmedWaits(s, t);
      ExpireKeeps(s, t);
      PrioInRange(s, t);
      threads := threads[t := threads[t].(armed := false)];
      threads := threads[t := threads[t].(code := TimedOut)];
      assert View() == SetCode(Arm(s, t, false), t, TimedOut);
      UnlinkNode(t);
      UnlistShape(SetCode(Arm(s, t, false), t, TimedOut), t);
      InsertThread(t);
    }

    /** `rt_thread_timeout`, run by the timer of a waiting thread. */
    method Timeout(t: int)
      requires Valid() && t in threads && threads[t].armed
      modifies this
      ensures Valid() && old(threads[t].prio < |ready|)
      ensures Inv(Expire(old(View()), t)) && View() == Schedule(Expire(old(View()), t))
    {
      hide Core, Insert, Schedule;
      ExpireWait(t);
      DoSchedule();
    }

    /** `rt_thread_control` with RT_THREAD_CTRL_CHANGE_PRIORITY. */
    method SetThreadPriority(t: int, p: nat)
      requires Valid() && t in threads && p < PRIORITY_MAX
      modifies this
      ensures Valid() && View() == ChangePriority(old(View()), t, p)
    {
      hide Core, Insert, Remove, Mask;
      ChangePriorityKeeps(View(), t, p);
      PrioInRange(View(), t);
      if threads[t].stat == Ready {
        RemoveThread(t);
          threads := threads[t := threads[t].(prio := p, mask := Mask(p))];
        InsertThread(t);
      } else {
        threads := threads[t := threads[t].(prio := p, mask := Mask(p))];
      }
    }

    /** `rt_ipc_list_suspend`: in arrival order, or before the first less urgent waiter. */
    method SuspendOn(l: int, t: int, order: Order)
      requires Valid() && t in threads && l in lists && (threads[t].stat == Ready || threads[t].stat == Running)
      modifies this
      ensures Valid() && old(Known(threads, lists[l])) && View() == Wait(old(View()), l, t, order)
    {
      hide Core, Remove;
      ghost var s := View();
      WaitKeeps(s, l, t, order);
      PrioInRange(s, t);
      SuspendKeeps(s, t);
      assert Known(threads, lists[l]);
      var _ := SuspendThread(t);
      var list := lists[l];
      assert lists == s.lists && Known(threads, list);
      var k := 0;
      if order == Fifo {
        k := |list|;
      } else {
        while k < |list| && threads[t].prio >= threads[list[k]].prio
          invariant k <= |list| && lists == s.lists && View() == Suspend(s, t).0
          invariant Place(s.threads, list, s.threads[t].prio, k) == Place(s.threads, list, s.threads[t].prio, 0)
        {
          k := k + 1;
        }
      }
      lists := lists[l := InsertAt(list, k, t)];
    }

    /** `rt_ipc_list_resume`. */
    method ResumeHead(l: int)
      requires Valid() && l in lists && lists[l] != []
      modifies this
      ensures Valid() && View() == ResumeFirst(old(View()), l)
    {
      hide Core, Resume;
      FirstWaits(View(), l);
      ResumeFirstKeeps(View(), l);
      var _ := ResumeThread(lists[l][0]);
    }

    /** `rt_ipc_list_resume_all`. */
    method ResumeEvery(l: int)
      requires Valid() && l in lists
      modifies this
      ensures Valid() && View() == ResumeAll(old(View()), l)
    {
      hide Core, ResumeFirst;
      while lists[l] != []
        invariant Valid() && l in lists && ResumeAll(View(), l) == ResumeAll(old(View()), l)
        decreases if l in lists then |lists[l]| else 0
      {
        FailFirst(View(), l);
        var t := lists[l][0];
        threads := threads[t := threads[t].(code := Failed)];
        ResumeHead(l);
      }
    }

    /** `rt_ipc_get_highest_priority`. */
    method HighestWaiting(l: int) returns (p: nat)
      requires Valid() && l in lists
      ensures Known(threads, lists[l]) && p == HighestOf(threads, lists[l], 0, PRIORITY_MAX - 1)
    {
      ListsKnown(View(), l);
      p := PRIORITY_MAX - 1;
      var i := 0;
      while i < |lists[l]|
        invariant i <= |lists[l]|
        invariant HighestOf(threads, lists[l], i, p) == HighestOf(threads, lists[l], 0, PRIORITY_MAX - 1)
      {
        var x := threads[lists[l][i]].prio;
        p := if p < x then p else x;
        i := i + 1;
      }
    }

    /** `rt_thread_yield`. */
    method YieldThread()
      requires Valid()
      modifies this
      ensures Valid() && View() == Yield(old(View()))
    {
      hide Core, Schedule;
      CurrentOk(View());
      var x := threads[current];
      TouchCore(View(), current, x.(left := x.slice, yielded := true), {});
      threads := threads[current := x.(left := x.slice, yielded := true)];
      DoSchedule();
    }

    /** The time slice part of `rt_tick_increase`. */
    method TickSlice()
      requires Valid()
      modifies this
      ensures Valid() && View() == TimeSlice(old(View()))
    {
      hide Core, Schedule;
      CurrentOk(View());
      var x := threads[current];
      var left: nat := (x.left - 1) % WORD;
      if left == 0 {
        TouchCore(View(), current, x.(left := x.slice, yielded := true), {});
        threads := threads[current := x.(left := x.slice, yielded := true)];
        DoSchedule();
      } else {
        TouchCore(View(), current, x.(left := left), {});
        threads := threads[current := x.(left := left)];
      }
    }

    /** `rt_thread_startup`. */
    method StartThread(t: int)
      requires Valid() && t in threads && threads[t].stat == Init
      modifies this
      ensures Valid() && View() == Startup(old(View()), t)
    {
      hide Core, Schedule, Mask, Resume;
      StartKeeps(View(), t);
      var x := threads[t];
      threads := threads[t := x.(prio := x.base, mask := Mask(x.base), stat := Suspended, yielded := false)];
      assert View() == Started(old(View()), t);
      var _ := ResumeThread(t);
      DoSchedule();
    }

    /** `rt_thread_exit`. */
    method ExitThread()
      requires Valid() && threads[current].stat == Running
      modifies this
      ensures Valid() && View() == Exit(old(View()))
    {
      hide Core, Schedule, Remove;
      CurrentOk(View());
      ExitKeeps(View());
      var t := current;
      RemoveThread(t);
      threads := threads[t := threads[t].(stat := Closed, yielded := false)];
      threads := threads[t := threads[t].(armed := false)];
      assert View() == Left(old(View()));
      DoSchedule();
    }

    /** `rt_enter_critical`. */
    method EnterCritical()
      requires Valid()
      modifies `locks
      ensures Valid() && View() == Lock(old(View()))
    {
      locks := locks + 1;
    }

    /** `rt_exit_critical`. */
    method ExitCritical()
      requires Valid()
      modifies this
      ensures Valid() && View() == Unlock(old(View()))
    {
      hide Schedule;
      if locks > 1 {
        locks := locks - 1;
      } else {
        locks := 0;
        DoSchedule();
      }
    }
  }

  // ---- before the scheduler is started

  ghost predicate Created(x: Thread) {
    x.stat == Init && !x.yielded && !x.armed && x.prio < PRIORITY_MAX && x.base < PRIORITY_MAX
  }

  /** The threads started so far are in the queues of their initial priorities; none runs. */
  ghost predicate Booting(s: Sys, created: map<int, Thread>, started: seq<int>) {
    && |s.ready| == PRIORITY_MAX && s.threads.Keys == created.Keys
    && (forall t | t in created ::
          Created(created[t]) && s.threads[t] == if t in started then ReadyOf(created[t]) else created[t])
    && (forall p | 0 <= p < PRIORITY_MAX :: QueueOk(s.threads, s.ready[p], p, {}))
    && (forall p | 0 <= p < PRIORITY_MAX :: Has(s.group, p) <==> s.ready[p] != [])
    && forall l | l in s.lists :: s.lists[l] == []
  }

  function ReadyOf(x: Thread): (y: Thread)
    requires x.base < PRIORITY_MAX
  {
    x.(stat := Ready, prio := x.base, mask := Mask(x.base))
  }

  lemma BootStart(s: Sys, created: map<int, Thread>)
    requires (forall t | t in created :: Created(created[t])) && s.threads == created && s.group == 0
    requires s.ready == seq(PRIORITY_MAX, _ => []) && forall l | l in s.lists :: s.lists[l] == []
    ensures Booting(s, created, [])
  {
    hide Has;
    NoBits();
  }

  lemma BootStep(s: Sys, created: map<int, Thread>, started: seq<int>, i: nat)
    requires (forall t | t in created :: Created(created[t])) && s.current !in created
    requires i < |started| && Distinct(started) && started[i] in created && Booting(s, created, started[..i])
    ensures var t := started[i];
            && t in s.threads && s.threads[t].base < 32
            && var x := s.threads[t].(prio := s.threads[t].base, mask := Mask(s.threads[t].base), stat := Suspended);
               var u := s.(threads := s.threads[t := x]);
               && u.threads[t].prio < |u.ready| && Booting(Insert(u, t), created, started[..i + 1])
               && Insert(u, t).current == s.current && Insert(u, t).locks == s.locks && Insert(u, t).lists == s.lists
  {
    hide Has, Or, And, Mask, QueueOk;
    var t, more := started[i], started[..i + 1];
    assert more == started[..i] + [t] && t !in started[..i];
    assert s.threads[t] == created[t];
    var p := created[t].base;
    var x := created[t].(prio := p, mask := Mask(p), stat := Suspended);
    var u := s.(threads := s.threads[t := x]);
    var v := Insert(u, t);
    BitAlone(s.group, p);
    assert v.group == SetBit(s.group, p);
    forall q | 0 <= q < PRIORITY_MAX ensures QueueOk(v.threads, v.ready[q], q, {}) {
      WithNew(s.threads, s.ready[q], q, t, x);
      if q == p {
        AppendOk(u.threads, s.ready[q], q, {t}, t);
      } else {
        StillOk(u.threads, s.ready[q], q, {t}, t, v.threads[t]);
      }
      assert {t} - {t} == {};
      assert v.threads == u.threads[t := x.(stat := Ready)];
    }
  }

  /** A thread that was not READY is in no queue. */
  lemma WithNew(threads: map<int, Thread>, q: seq<int>, p: nat, t: int, x: Thread)
    requires QueueOk(threads, q, p, {}) && t in threads && threads[t].stat != Ready
    ensures QueueOk(threads[t := x], q, p, {t})
  {
  }

  /** Once every start is done, the most urgent of the started threads can be made the current one. */
  lemma BootDone(s: Sys, created: map<int, Thread>, started: seq<int>)
    requires (forall t | t in created :: Created(created[t])) && forall t | t in started :: t in created
    requires Booting(s, created, started[..|started|]) && started != []
    ensures |s.ready| == PRIORITY_MAX && s.group != 0 && Ffs(s.group) > 0 && Ffs(s.group) - 1 < |s.ready|
    ensures s.ready[Ffs(s.group) - 1] != []
    ensures var to := s.ready[Ffs(s.group) - 1][0];
            && to in started && to in s.threads && s.threads[to].stat == Ready && s.threads[to].prio < PRIORITY_MAX
            && Core(s.(current := to), {})
            && s.threads.Keys == created.Keys && s.threads[to].prio == created[to].base
            && (forall t | t in created ::
                  Created(created[t]) && s.threads[t] == if t in started then ReadyOf(created[t]) else created[t])
            && forall t | t in started :: s.threads[to].prio <= s.threads[t].prio
  {
    hide Has, QueueOk;
    assert started[..|started|] == started;
    BootQueued(s, created, started, started[0]);
    NoBits();
    FfsLowest(s.group);
    var p := Ffs(s.group) - 1;
    var to := s.ready[p][0];
    BootFirst(s, created, started, p);
    forall t | t in started ensures p <= s.threads[t].prio { BootQueued(s, created, started, t); }
  }

  lemma BootQueued(s: Sys, created: map<int, Thread>, started: seq<int>, t: int)
    requires Booting(s, created, started) && t in started && t in created
    ensures s.threads[t].prio < PRIORITY_MAX && Has(s.group, s.threads[t].prio)
  {
    hide Has;
    assert s.threads[t] == ReadyOf(created[t]);
    assert t in s.ready[s.threads[t].prio];
  }

  lemma BootFirst(s: Sys, created: map<int, Thread>, started: seq<int>, p: nat)
    requires Booting(s, created, started) && p < PRIORITY_MAX && s.ready[p] != []
    ensures var to := s.ready[p][0];
            to in s.threads && to in started && s.threads[to].stat == Ready && s.threads[to].prio == p
  {
    hide Has;
    var to := s.ready[p][0];
    assert to in s.ready[p];
    assert QueueOk(s.threads, s.ready[p], p, {});
  }

  lemma CurrentOk(s: Sys)
    requires Inv(s)
    ensures s.current in s.threads && s.threads[s.current].prio < |s.ready|
    ensures s.threads[s.current].armed ==> s.threads[s.current].stat == Suspended
  {
    PrioInRange(s, s.current);
    assert ThreadOk(s.threads[s.current], true, true);
  }

  lemma InsertShape(s: Sys, t: int)
    requires t in s.threads && s.threads[t].prio < |s.ready|
    ensures Insert(s, t).threads.Keys == s.threads.Keys && |Insert(s, t).ready| == |s.ready|
    ensures forall x | x in s.threads :: Insert(s, t).threads[x].prio == s.threads[x].prio
  {
  }

  lemma UnlistShape(s: Sys, t: int)
    ensures Unlist(s, t).threads == s.threads && |Unlist(s, t).ready| == |s.ready|
  {
  }
}
