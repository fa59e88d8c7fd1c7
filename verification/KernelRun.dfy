/** Runs of the scheduler over its interrupt-disabled sections, in any order and from any thread or interrupt. */
module KernelRun {
  import opened Bits
  import opened Lists
  import opened Kernel

  /** One section each. `rt_thread_resume` called with interrupts on is a test of the state, then `Detaches`, then
      `Inserts`; `rt_thread_suspend` is a test, then `Suspends`; `rt_thread_startup` is `Marks`, a resumption, then
      `Schedules`. `Wakes` resumes within a section of ipc.c. */
  datatype Step = Schedules | Yields | Ticks | Locks | Unlocks | Exits | Sleeps
                | Marks(thread: int) | Detaches(thread: int) | Inserts(thread: int) | Suspends(thread: int)
                | Prioritizes(thread: int, prio: nat) | Waits(list: int, order: Order, timed: bool)
                | Wakes(thread: int, failed: bool) | TimesOut(thread: int)

  /** What the code asserts or its callers see to. A section that follows a test of the state comes however the
      thread has fared since: it has been started, no more. A thread that has suspended itself only schedules next. */
  ghost predicate Can(s: Sys, e: Step) {
    match e
    case Schedules | Yields | Ticks | Locks | Unlocks => true
    case Exits | Sleeps => s.current in s.threads && s.threads[s.current].stat == Running
    case Marks(t) => t in s.threads && s.threads[t].stat == Init
    case Detaches(t) => t in s.threads && s.threads[t].stat != Init
    case Inserts(t) => t in s.threads && s.threads[t].stat != Init
    case Suspends(t) => t in s.threads && s.threads[t].stat != Init
    case Prioritizes(t, p) => t in s.threads && p < PRIORITY_MAX
    case Waits(l, _, _) => l in s.lists && s.current in s.threads && s.threads[s.current].stat == Running
    case Wakes(t, _) => t in s.threads && !Nowhere(s, t)
    case TimesOut(t) => t in s.threads && s.threads[t].armed
  }

  // ---- the steps

  /** The thread is suspended on no list and its timer is stopped, as a resumption leaves it between its sections. */
  ghost predicate Loose(s: Sys, t: int) {
    t in s.threads && s.threads[t].stat == Suspended && !s.threads[t].armed && Nowhere(s, t)
  }

  /** A started thread may be put into its queue: it is in none and on no list, or it runs and need not go there. */
  ghost predicate Insertable(s: Sys, t: int)
    requires t in s.threads
  {
    || s.threads[t].stat == Running
    || (s.threads[t].stat != Ready && !s.threads[t].armed && Nowhere(s, t))
  }

  /** Where the section does what it is meant to. */
  ghost predicate Fit(s: Sys, e: Step)
    requires Can(s, e)
  {
    match e
    case Detaches(t) => s.threads[t].stat != Ready
    case Inserts(t) => Insertable(s, t)
    case _ => true
  }

  function SleepNow(s: Sys): (u: Sys)
    requires s.current in s.threads && s.threads[s.current].prio < |s.ready|
  {
    Arm(Suspend(s, s.current).0, s.current, true)
  }

  function WaitNow(s: Sys, l: int, order: Order, timed: bool): (u: Sys)
    requires s.current in s.threads && s.threads[s.current].prio < |s.ready| && l in s.lists
    requires Known(s.threads, s.lists[l])
  {
    Arm(Wait(SetCode(s, s.current, Ok), l, s.current, order), s.current, timed)
  }

  function WakeNow(s: Sys, t: int, failed: bool): (u: Sys)
    requires t in s.threads && s.threads[t].prio < |s.ready|
  {
    Resume(if failed then SetCode(s, t, Failed) else s, t).0
  }

  ghost function Next(s: Sys, e: Step): (u: Sys)
    requires Inv(s) && Can(s, e)
  {
    CurrentKnown(s);
    PrioInRange(s, s.current);
    match e
    case Schedules => Schedule(s)
    case Yields => Yield(s)
    case Ticks => TimeSlice(s)
    case Locks => Lock(s)
    case Unlocks => Unlock(s)
    case Exits => Exit(s)
    case Sleeps => SleepNow(s)
    case Marks(t) => StartKeeps(s, t); Started(s, t)
    case Detaches(t) => Detach(s, t)
    case Inserts(t) => PrioInRange(s, t); Insert(s, t)
    case Suspends(t) => PrioInRange(s, t); SuspendNow(s, t)
    case Prioritizes(t, p) => PrioInRange(s, t); ChangePriority(s, t, p)
    case Waits(l, order, timed) => ListsKnown(s, l); WaitNow(s, l, order, timed)
    case Wakes(t, failed) => PrioInRange(s, t); WakeNow(s, t, failed)
    case TimesOut(t) => PrioInRange(s, t); ExpireKeeps(s, t); Schedule(Expire(s, t))
  }

  // ---- the two sections of a resumption

  /** The first section keeps the invariant exactly if the thread is not READY by now. */
  lemma DetachExactly(s: Sys, t: int)
    requires Inv(s) && t in s.threads && s.threads[t].stat != Init
    ensures Inv(Detach(s, t)) <==> s.threads[t].stat != Ready
  {
    if s.threads[t].stat == Ready {
      DetachLoses(s, t);
    } else {
      DetachKeeps(s, t);
    }
  }

  /** Of a thread that is not READY only the place on a suspend list and the timer change. */
  lemma DetachKeeps(s: Sys, t: int)
    requires Inv(s) && t in s.threads && s.threads[t].stat != Ready
    ensures Inv(Detach(s, t)) && SamePrio(s, Detach(s, t)) && Detach(s, t).current == s.current
    ensures Detach(s, t).threads == s.threads[t := s.threads[t].(armed := false)] && Detach(s, t).ready == s.ready
    ensures forall l | l in s.lists :: Detach(s, t).lists[l] == Without(s.lists[l], t)
    ensures Nowhere(Detach(s, t), t)
  {
    hide Has;
    var u := Unlist(s, t);
    forall p | 0 <= p < PRIORITY_MAX ensures u.ready[p] == s.ready[p] { assert QueueOk(s.threads, s.ready[p], p, {}); }
    assert u.ready == s.ready;
    UnlistCore(s, t, {});
    forall l | l in s.lists ensures ListOk(s.threads, u.lists[l], {}) {
      assert ListOk(s.threads, u.lists[l], {} + {t});
    }
    assert Core(u, {});
    TouchCore(u, t, s.threads[t].(armed := false), {});
  }

  lemma DetachLoses(s: Sys, t: int)
    requires Inv(s) && t in s.threads && s.threads[t].stat == Ready
    ensures !Inv(Detach(s, t))
  {
    var u, p := Detach(s, t), s.threads[t].prio;
    assert ThreadOk(s.threads[t], true, t == s.current);
    assert QueueOk(s.threads, s.ready[p], p, {});
    WithoutIn(s.ready[p], t);
    assert t !in u.ready[p];
    assert Inv(u) ==> QueueOk(u.threads, u.ready[p], p, {});
  }

  /** The second section keeps the invariant exactly if the thread is not in a queue or waiting by now. */
  lemma InsertExactly(s: Sys, t: int)
    requires Inv(s) && t in s.threads && s.threads[t].stat != Init
    ensures s.threads[t].prio < |s.ready|
    ensures Inv(Insert(s, t)) <==> Insertable(s, t)
  {
    PrioInRange(s, t);
    if Insertable(s, t) {
      InsertKeeps(s, t);
    } else if s.threads[t].stat == Ready {
      InsertTwice(s, t);
    } else {
      InsertWaiting(s, t);
    }
  }

  lemma InsertKeeps(s: Sys, t: int)
    requires Inv(s) && t in s.threads && s.threads[t].stat != Init && Insertable(s, t)
    ensures s.threads[t].prio < |s.ready| && Inv(Insert(s, t)) && Calm(s, Insert(s, t))
    ensures Insert(s, t).current == s.current
    ensures Insert(s, t).threads == s.threads[t := s.threads[t].(stat := if t == s.current then Running else Ready)]
  {
    hide Has, Or, Mask;
    PrioInRange(s, t);
    assert ThreadOk(s.threads[t], true, t == s.current);
    if s.threads[t].stat == Running {
      assert Insert(s, t) == s;
    } else {
      LooseCore(s, t);
      InsertCore(s, t, {t});
      assert {t} - {t} == {};
    }
  }

  lemma LooseCore(s: Sys, t: int)
    requires Core(s, {}) && t in s.threads && s.threads[t].stat != Ready && Nowhere(s, t)
    ensures Core(s, {t})
  {
    hide Has;
    forall p | 0 <= p < PRIORITY_MAX ensures QueueOk(s.threads, s.ready[p], p, {t}) {
      assert QueueOk(s.threads, s.ready[p], p, {});
    }
    forall l | l in s.lists ensures ListOk(s.threads, s.lists[l], {t}) { assert ListOk(s.threads, s.lists[l], {}); }
  }

  /** A READY thread gets into its queue a second time. */
  lemma InsertTwice(s: Sys, t: int)
    requires Inv(s) && t in s.threads && s.threads[t].stat == Ready && s.threads[t].prio < |s.ready|
    ensures !Inv(Insert(s, t))
  {
    var u, p := Insert(s, t), s.threads[t].prio;
    var q := s.ready[p];
    assert QueueOk(s.threads, q, p, {});
    assert t in q && t != s.current;
    var k :| 0 <= k < |q| && q[k] == t;
    assert u.ready[p] == q + [t] && u.ready[p][k] == u.ready[p][|q|];
    assert Inv(u) ==> QueueOk(u.threads, u.ready[p], p, {});
  }

  /** A waiting thread stays on its list, or its timer stays armed, although it no longer waits. */
  lemma InsertWaiting(s: Sys, t: int)
    requires Inv(s) && t in s.threads && s.threads[t].prio < |s.ready|
    requires s.threads[t].stat != Running && (s.threads[t].armed || !Nowhere(s, t))
    ensures !Inv(Insert(s, t))
  {
    var u := Insert(s, t);
    assert u.threads[t].stat == if t == s.current then Running else Ready;
    if s.threads[t].armed {
      assert Inv(u) ==> ThreadOk(u.threads[t], true, t == u.current);
    } else {
      var l :| l in s.lists && t in s.lists[l];
      assert Inv(u) ==> ListOk(u.threads, u.lists[l], {});
    }
  }

  /** Two resumptions of one suspended thread, both between their sections: the second insertion breaks the queues. */
  lemma DoubleResume(s: Sys, t: int)
    requires Inv(s) && t in s.threads && s.threads[t].stat == Suspended && t != s.current
    ensures Inv(Detach(s, t)) && Inv(Detach(Detach(s, t), t))
    ensures var u := Detach(Detach(s, t), t);
            && u.threads[t].prio < |u.ready| && Inv(Insert(u, t))
            && Insert(u, t).threads[t].prio < |Insert(u, t).ready| && !Inv(Insert(Insert(u, t), t))
  {
    hide Inv, Insert, Detach;
    DetachKeeps(s, t);
    DetachKeeps(Detach(s, t), t);
    var u := Detach(Detach(s, t), t);
    InsertKeeps(u, t);
    PrioInRange(Insert(u, t), t);
    InsertTwice(Insert(u, t), t);
  }

  /** A resumption whose test came before another wake-up takes the READY thread out of its queue. */
  lemma StaleResume(s: Sys, t: int)
    requires Inv(s) && t in s.threads && s.threads[t].stat == Suspended && t != s.current
    ensures s.threads[t].prio < |s.ready| && Inv(Resume(s, t).0) && !Inv(Detach(Resume(s, t).0, t))
  {
    hide Inv, Resume, Detach;
    PrioInRange(s, t);
    ResumeKeeps(s, t);
    DetachLoses(Resume(s, t).0, t);
  }

  // ---- each section

  /** A section keeps the invariant exactly if it does what it is meant to. */
  lemma StepExactly(s: Sys, e: Step)
    requires Inv(s) && Can(s, e)
    ensures Inv(Next(s, e)) <==> Fit(s, e)
  {
    hide Inv, Insert, Detach, Schedule, Expire, Insertable;
    match e
    case Detaches(t) => DetachExactly(s, t);
    case Inserts(t) => InsertExactly(s, t);
    case Schedules => ScheduleKeeps(s);
    case TimesOut(t) => PrioInRange(s, t); ExpireKeeps(s, t); ScheduleKeeps(Expire(s, t));
    case _ => OthersKeep(s, e);
  }

  lemma OthersKeep(s: Sys, e: Step)
    requires Inv(s) && Can(s, e) && !e.Detaches? && !e.Inserts? && !e.Schedules? && !e.TimesOut?
    ensures Inv(Next(s, e))
  {
    hide Core, Schedule, ChangePriority, Started, Left;
    CurrentKnown(s);
    PrioInRange(s, s.current);
    match e
    case Yields => TurnKeeps(s);
    case Ticks => TurnKeeps(s);
    case Locks => LockKeeps(s);
    case Unlocks => LockKeeps(s);
    case Exits => ExitKeeps(s); ScheduleKeeps(Left(s));
    case Sleeps => SleepKeeps(s);
    case Marks(t) => StartKeeps(s, t);
    case Suspends(t) => SuspendNowKeeps(s, t);
    case Prioritizes(t, p) => ChangePriorityKeeps(s, t, p);
    case Waits(l, order, timed) => WaitNowKeeps(s, l, order, timed);
    case Wakes(t, failed) => ListedWaits(s, t); WakeNowKeeps(s, t, failed);
  }

  lemma ListedWaits(s: Sys, t: int)
    requires Inv(s) && !Nowhere(s, t)
    ensures t in s.threads && s.threads[t].stat == Suspended
  {
    var l :| l in s.lists && t in s.lists[l];
    assert ListOk(s.threads, s.lists[l], {});
  }

  lemma TurnKeeps(s: Sys)
    requires Inv(s)
    ensures Inv(Yield(s)) && Inv(TimeSlice(s))
  {
    hide Core, Schedule;
    CurrentKnown(s);
    CurrentStopped(s);
    var x := s.threads[s.current];
    var y := x.(left := x.slice, yielded := true);
    TouchCore(s, s.current, y, {});
    ScheduleKeeps(s.(threads := s.threads[s.current := y]));
    TouchCore(s, s.current, x.(left := (x.left - 1) % WORD), {});
  }

  lemma CurrentStopped(s: Sys)
    requires Inv(s)
    ensures s.current in s.threads && (s.threads[s.current].armed ==> s.threads[s.current].stat == Suspended)
  {
    assert ThreadOk(s.threads[s.current], true, true);
  }

  lemma LockKeeps(s: Sys)
    requires Inv(s)
    ensures forall n :: Inv(s.(locks := n))
    ensures Inv(Lock(s)) && Inv(Unlock(s))
  {
    hide QueueOk, ListOk, Has, ThreadOk, Schedule;
    ScheduleKeeps(s.(locks := 0));
  }

  lemma SleepKeeps(s: Sys)
    requires Inv(s) && s.threads[s.current].stat == Running
    ensures s.threads[s.current].prio < |s.ready| && Inv(SleepNow(s)) && SamePrio(s, SleepNow(s))
    ensures SleepNow(s).lists == s.lists && SleepNow(s).current == s.current
    ensures SleepNow(s).threads == s.threads[s.current := s.threads[s.current].(stat := Suspended, armed := true)]
  {
    hide Core, Suspend;
    CurrentKnown(s);
    var t := s.current;
    PrioInRange(s, t);
    SuspendKeeps(s, t);
    var u := Suspend(s, t).0;
    TouchCore(u, t, u.threads[t].(armed := true), {});
  }

  /** However the thread has fared since its test, it is suspended now, on no list; only it changes. */
  lemma SuspendNowKeeps(s: Sys, t: int)
    requires Inv(s) && t in s.threads && s.threads[t].stat != Init
    ensures s.threads[t].prio < |s.ready| && Inv(SuspendNow(s, t)) && SamePrio(s, SuspendNow(s, t))
    ensures SuspendNow(s, t).threads == s.threads[t := s.threads[t].(stat := Suspended, armed := false)]
    ensures forall l | l in s.lists :: SuspendNow(s, t).lists[l] == Without(s.lists[l], t)
    ensures Loose(SuspendNow(s, t), t) && SuspendNow(s, t).current == s.current
  {
    hide Core, Remove, SuspendNow;
    PrioInRange(s, t);
    RemoveCore(s, t, {});
    assert {} + {t} == {t} && {t} - {t} == {};
    ActiveMask(s, t);
    var u := Remove(s, t);
    var v := u.(threads := u.threads[t := u.threads[t].(armed := false)]);
    TouchCore(u, t, u.threads[t].(armed := false), {t});
    SetStatCore(v, t, {t}, Suspended);
    assert SuspendNow(s, t) == SetStat(v, t, Suspended) by { SuspendNowIs(s, t); }
  }

  lemma SuspendNowIs(s: Sys, t: int)
    requires t in s.threads && s.threads[t].prio < |s.ready| && Remove(s, t).threads == s.threads
    ensures var u := Remove(s, t);
            SuspendNow(s, t) == SetStat(u.(threads := u.threads[t := u.threads[t].(armed := false)]), t, Suspended)
  {
    hide Remove;
  }

  lemma WaitNowKeeps(s: Sys, l: int, order: Order, timed: bool)
    requires Inv(s) && l in s.lists && s.threads[s.current].stat == Running
    ensures s.threads[s.current].prio < |s.ready| && Known(s.threads, s.lists[l])
    ensures Inv(WaitNow(s, l, order, timed)) && SamePrio(s, WaitNow(s, l, order, timed))
    ensures WaitNow(s, l, order, timed).current == s.current && s.current in WaitNow(s, l, order, timed).lists[l]
    ensures WaitNow(s, l, order, timed).threads[s.current]
         == s.threads[s.current].(stat := Suspended, code := Ok, armed := timed)
    ensures forall x | x in s.threads && x != s.current :: WaitNow(s, l, order, timed).threads[x] == s.threads[x]
    ensures forall m, x | m in s.lists ::
              x in WaitNow(s, l, order, timed).lists[m] ==> x in s.lists[m] || x == s.current
  {
    hide Core, Wait;
    CurrentKnown(s);
    var t := s.current;
    PrioInRange(s, t);
    ListsKnown(s, l);
    CurrentStopped(s);
    var v := SetCode(s, t, Ok);
    TouchCore(s, t, v.threads[t], {});
    WaitKeeps(v, l, t, order);
    var u := Wait(v, l, t, order);
    TouchCore(u, t, u.threads[t].(armed := timed), {});
  }

  lemma WakeNowKeeps(s: Sys, t: int, failed: bool)
    requires Inv(s) && t in s.threads && s.threads[t].stat == Suspended
    ensures s.threads[t].prio < |s.ready| && Inv(WakeNow(s, t, failed)) && SamePrio(s, WakeNow(s, t, failed))
    ensures WakeNow(s, t, failed).current == s.current
    ensures forall x | x in s.threads && x != t :: WakeNow(s, t, failed).threads[x] == s.threads[x]
    ensures Active(WakeNow(s, t, failed).threads[t]) && !WakeNow(s, t, failed).threads[t].armed
    ensures WakeNow(s, t, failed).threads[t].code == if failed then Failed else s.threads[t].code
    ensures forall m | m in s.lists :: WakeNow(s, t, failed).lists[m] == Without(s.lists[m], t)
  {
    hide Core, Resume;
    PrioInRange(s, t);
    TouchCore(s, t, s.threads[t].(code := Failed), {});
    var v := if failed then SetCode(s, t, Failed) else s;
    ResumeKeeps(v, t);
  }

  // ---- what a thread in transit sees of the steps of others

  /** A wake-up of thread t. */
  predicate Rouses(e: Step, t: int) { e == Inserts(t) || e == TimesOut(t) || (e.Wakes? && e.thread == t) }

  /** The states of every other thread, and which lists they are on, are as they were, or a schedule moved them. */
  ghost predicate Aside(s: Sys, u: Sys, t: int) {
    && u.threads.Keys == s.threads.Keys && u.lists.Keys == s.lists.Keys
    && (t in s.threads && !Active(s.threads[t]) ==>
          && u.threads[t].stat == s.threads[t].stat && (u.threads[t].armed ==> s.threads[t].armed))
    && (t in s.threads && Active(s.threads[t]) ==> Active(u.threads[t]))
    && (Nowhere(s, t) ==> Nowhere(u, t))
  }

  lemma ScheduleAside(s: Sys, t: int)
    requires Inv(s)
    ensures Aside(s, Schedule(s), t)
  {
    hide Inv, Schedule;
    ScheduleKeeps(s);
    ScheduleStates(s);
  }

  /** Only the thread that a step is about leaves its state. */
  lemma StepAside(s: Sys, e: Step, t: int)
    requires Inv(s) && Can(s, e) && Fit(s, e) && !Rouses(e, t)
    requires e == Suspends(t) || e == Marks(t) ==> t in s.threads && s.threads[t].stat == Suspended
    requires e.Exits? || e.Sleeps? || e.Waits? ==> t != s.current
    ensures Aside(s, Next(s, e), t)
  {
    hide Inv, Insert, Detach, Schedule, Expire, Left, Started, SuspendNow, ChangePriority, SleepNow, WaitNow, WakeNow;
    CurrentKnown(s);
    PrioInRange(s, s.current);
    match e
    case Schedules => ScheduleAside(s, t);
    case Yields => TurnAside(s, t);
    case Ticks => TurnAside(s, t);
    case Locks =>
    case Unlocks => LockKeeps(s); ScheduleAside(s.(locks := 0), t);
    case Exits => ExitKeeps(s); ExitEffect(s); ScheduleAside(Left(s), t);
    case Sleeps => SleepKeeps(s);
    case Marks(x) => StartKeeps(s, x); MarkAside(s, x, t);
    case Detaches(x) => DetachKeeps(s, x); OffLists(s, Next(s, e), x);
    case Inserts(x) => InsertKeeps(s, x);
    case Suspends(x) => SuspendNowKeeps(s, x); OffLists(s, Next(s, e), x);
    case Prioritizes(x, p) => ChangePriorityKeeps(s, x, p);
    case Waits(l, order, timed) => WaitNowKeeps(s, l, order, timed);
    case Wakes(x, failed) => ListedWaits(s, x); WakeNowKeeps(s, x, failed); OffLists(s, Next(s, e), x);
    case TimesOut(x) =>
      PrioInRange(s, x);
      ExpireKeeps(s, x);
      OffLists(s, Expire(s, x), x);
      ScheduleAside(Expire(s, x), t);
  }

  lemma OffLists(s: Sys, u: Sys, x: int)
    requires Inv(s) && u.lists.Keys == s.lists.Keys && forall l | l in s.lists :: u.lists[l] == Without(s.lists[l], x)
    ensures forall t :: Nowhere(s, t) ==> Nowhere(u, t)
  {
    forall l, t | l in s.lists && t in u.lists[l] ensures t in s.lists[l] {
      assert ListOk(s.threads, s.lists[l], {});
      WithoutIn(s.lists[l], x);
    }
  }

  lemma MarkAside(s: Sys, x: int, t: int)
    requires Inv(s) && x in s.threads && s.threads[x].stat == Init && s.threads[x].base < PRIORITY_MAX && t != x
    ensures Aside(s, Started(s, x), t)
  {
  }

  lemma TurnAside(s: Sys, t: int)
    requires Inv(s)
    ensures Aside(s, Yield(s), t) && Aside(s, TimeSlice(s), t)
  {
    hide Core, Schedule;
    CurrentKnown(s);
    CurrentStopped(s);
    var x := s.threads[s.current];
    var y := x.(left := x.slice, yielded := true);
    TouchCore(s, s.current, y, {});
    ScheduleAside(s.(threads := s.threads[s.current := y]), t);
  }

  // ---- runs; steps that cannot be taken where they stand are skipped

  /** The invariant holds after every step. */
  ghost predicate Holds(s: Sys, es: seq<Step>)
    requires Inv(s)
    decreases |es|
  {
    if es == [] then true
    else if !Can(s, es[0]) then Holds(s, es[1..])
    else Inv(Next(s, es[0])) && Holds(Next(s, es[0]), es[1..])
  }

  /** Every first section of a resumption finds its thread not READY, every second one finds it insertable. */
  ghost predicate Fits(s: Sys, es: seq<Step>)
    requires Inv(s)
    decreases |es|
  {
    if es == [] then true
    else if !Can(s, es[0]) then Fits(s, es[1..])
    else
      StepExactly(s, es[0]);
      Fit(s, es[0]) && Fits(Next(s, es[0]), es[1..])
  }

  ghost function After(s: Sys, es: seq<Step>): (u: Sys)
    requires Inv(s) && Fits(s, es)
    ensures Inv(u)
    decreases |es|
  {
    if es == [] then s
    else if !Can(s, es[0]) then After(s, es[1..])
    else
      StepExactly(s, es[0]);
      After(Next(s, es[0]), es[1..])
  }

  /** Over every interleaving of sections the invariant holds throughout, exactly if they fit. */
  lemma {:induction false} EveryRun(s: Sys, es: seq<Step>)
    requires Inv(s)
    ensures Holds(s, es) <==> Fits(s, es)
    decreases |es|
  {
    hide Inv, Next, Can, Fit;
    if es != [] {
      if Can(s, es[0]) {
        StepExactly(s, es[0]);
        if Fit(s, es[0]) { EveryRun(Next(s, es[0]), es[1..]); }
      } else {
        EveryRun(s, es[1..]);
      }
    }
  }

  lemma {:induction false} RunsJoin(s: Sys, a: seq<Step>, b: seq<Step>)
    requires Inv(s)
    ensures Fits(s, a + b) <==> Fits(s, a) && Fits(After(s, a), b)
    ensures Fits(s, a + b) ==> After(s, a + b) == After(After(s, a), b)
    decreases |a|
  {
    hide Inv, Next, Can, Fit;
    if a == [] {
      assert a + b == b;
    } else {
      assert (a + b)[0] == a[0] && (a + b)[1..] == a[1..] + b;
      if Can(s, a[0]) {
        StepExactly(s, a[0]);
        if Fit(s, a[0]) { RunsJoin(Next(s, a[0]), a[1..], b); }
      } else {
        RunsJoin(s, a[1..], b);
      }
    }
  }

  lemma RunOne(s: Sys, e: Step)
    requires Inv(s) && Can(s, e)
    ensures Fits(s, [e]) <==> Fit(s, e)
    ensures Fit(s, e) ==> After(s, [e]) == Next(s, e)
  {
    StepExactly(s, e);
  }

  // ---- a resumption in a run

  ghost predicate NobodyRouses(es: seq<Step>, t: int) { forall i | 0 <= i < |es| :: !Rouses(es[i], t) }

  /** A suspended thread stays so while nobody rouses it, and stays loose if it is. */
  lemma {:induction false} SuspendedStays(s: Sys, es: seq<Step>, t: int)
    requires Inv(s) && Fits(s, es) && NobodyRouses(es, t) && t in s.threads && s.threads[t].stat == Suspended
    ensures t in After(s, es).threads && After(s, es).threads[t].stat == Suspended
    ensures Loose(s, t) ==> Loose(After(s, es), t)
    decreases |es|
  {
    hide Inv, Next, Fit;
    if es != [] {
      if Can(s, es[0]) {
        StepExactly(s, es[0]);
        StepAside(s, es[0], t);
        SuspendedStays(Next(s, es[0]), es[1..], t);
      } else {
        SuspendedStays(s, es[1..], t);
      }
    }
  }

  /** From its test to its second section a resumption keeps the invariant while nobody else rouses the thread;
      the thread is in transit, on no list, from the one section to the other. */
  lemma ResumeFits(s: Sys, t: int, before: seq<Step>, between: seq<Step>)
    requires Inv(s) && t in s.threads && s.threads[t].stat == Suspended
    requires Fits(s, before) && NobodyRouses(before, t) && NobodyRouses(between, t)
    requires var u := After(s, before); t in u.threads && (Inv(Detach(u, t)) ==> Fits(Detach(u, t), between))
    ensures Fits(s, before + [Detaches(t)] + between + [Inserts(t)])
    ensures var v := Detach(After(s, before), t); Inv(v) && Loose(v, t) && Loose(After(v, between), t)
  {
    hide Inv, Detach, Insert;
    SuspendedStays(s, before, t);
    var u := After(s, before);
    DetachKeeps(u, t);
    RunOne(u, Detaches(t));
    RunsJoin(s, before, [Detaches(t)]);
    var v := Detach(u, t);
    SuspendedStays(v, between, t);
    RunsJoin(s, before + [Detaches(t)], between);
    RunOne(After(v, between), Inserts(t));
    RunsJoin(s, before + [Detaches(t)] + between, [Inserts(t)]);
  }

  // ---- who runs

  /** The step does not take thread t from the processor for good. */
  ghost predicate Spares(s: Sys, e: Step, t: int) {
    e != Suspends(t) && (e.Exits? || e.Sleeps? || e.Waits? ==> s.current != t)
  }

  ghost predicate SparedBy(s: Sys, es: seq<Step>, t: int)
    requires Inv(s) && Fits(s, es)
    decreases |es|
  {
    if es == [] then true
    else if !Can(s, es[0]) then SparedBy(s, es[1..], t)
    else
      StepExactly(s, es[0]);
      Spares(s, es[0], t) && SparedBy(Next(s, es[0]), es[1..], t)
  }

  lemma {:induction false} ActiveStays(s: Sys, es: seq<Step>, t: int)
    requires Inv(s) && Fits(s, es) && SparedBy(s, es, t) && t in s.threads && Active(s.threads[t])
    ensures t in After(s, es).threads && Active(After(s, es).threads[t])
    decreases |es|
  {
    hide Inv, Next;
    if es != [] {
      if Can(s, es[0]) {
        StepExactly(s, es[0]);
        ActiveStep(s, es[0], t);
        ActiveStays(Next(s, es[0]), es[1..], t);
      } else {
        ActiveStays(s, es[1..], t);
      }
    }
  }

  lemma ActiveStep(s: Sys, e: Step, t: int)
    requires Inv(s) && Can(s, e) && Fit(s, e) && Spares(s, e, t) && t in s.threads && Active(s.threads[t])
    ensures t in Next(s, e).threads && Active(Next(s, e).threads[t])
  {
    hide Inv, Insert;
    if Rouses(e, t) {
      match e
      case Inserts(x) => InsertKeeps(s, x);
      case Wakes(x, _) => ListedWaits(s, x);
      case TimesOut(x) => ArmedWaits(s, x);
    } else {
      StepAside(s, e, t);
    }
  }

  /** After any run of fitting sections that spares the idle thread, an unlocked schedule leaves no READY thread
      more urgent than the running one. */
  lemma MostUrgentEveryRun(s: Sys, es: seq<Step>, idle: int)
    requires Inv(s) && Fits(s, es) && SparedBy(s, es, idle) && idle in s.threads && Active(s.threads[idle])
    requires After(s, es).locks == 0
    ensures var u := Schedule(After(s, es));
            && u.threads[u.current].stat == Running
            && forall t | t in u.threads && u.threads[t].stat == Ready :: u.threads[u.current].prio <= u.threads[t].prio
  {
    hide Inv, Schedule;
    ActiveStays(s, es, idle);
    MostUrgentRuns(After(s, es), idle);
  }

  // ---- while the scheduler is locked

  /** Over every run of fitting sections without an unlock, a locked scheduler keeps the current thread. */
  lemma {:induction false} LockedKeepsCurrent(s: Sys, es: seq<Step>)
    requires Inv(s) && Fits(s, es) && s.locks > 0 && forall e | e in es :: !e.Unlocks?
    ensures After(s, es).current == s.current && After(s, es).locks >= s.locks
    decreases |es|
  {
    hide Inv, Next, Fit, Can;
    if es != [] {
      assert es[0] in es && forall e | e in es[1..] :: e in es;
      if Can(s, es[0]) {
        StepExactly(s, es[0]);
        LockedStep(s, es[0]);
        LockedKeepsCurrent(Next(s, es[0]), es[1..]);
      } else {
        LockedKeepsCurrent(s, es[1..]);
      }
    }
  }

  lemma LockedStep(s: Sys, e: Step)
    requires Inv(s) && Can(s, e) && Fit(s, e) && s.locks > 0 && !e.Unlocks?
    ensures Next(s, e).current == s.current && Next(s, e).locks >= s.locks
  {
    hide Inv, Insert, Detach, Schedule, Expire, Left, Started, SuspendNow, ChangePriority, SleepNow, WaitNow, WakeNow;
    CurrentKnown(s);
    PrioInRange(s, s.current);
    match e
    case Schedules => ScheduleLocked(s);
    case Yields => LockedTurn(s);
    case Ticks => LockedTurn(s);
    case Locks =>
    case Exits => ExitKeeps(s); ExitEffect(s); ScheduleLocked(Left(s));
    case Sleeps => SleepKeeps(s);
    case Marks(x) => StartKeeps(s, x); StartEffect(s, x); MarkLocks(s, x);
    case Detaches(x) => DetachKeeps(s, x);
    case Inserts(x) => InsertKeeps(s, x);
    case Suspends(x) => SuspendNowKeeps(s, x);
    case Prioritizes(x, p) => ChangePriorityKeeps(s, x, p);
    case Waits(l, order, timed) => WaitNowKeeps(s, l, order, timed);
    case Wakes(x, failed) => ListedWaits(s, x); WakeNowKeeps(s, x, failed);
    case TimesOut(x) => PrioInRange(s, x); ExpireKeeps(s, x); ScheduleLocked(Expire(s, x));
  }

  lemma MarkLocks(s: Sys, x: int)
    requires x in s.threads && s.threads[x].base < PRIORITY_MAX
    ensures Started(s, x).current == s.current && Started(s, x).locks == s.locks
  {
  }

  lemma LockedTurn(s: Sys)
    requires Inv(s) && s.locks > 0
    ensures Yield(s).current == s.current && Yield(s).locks == s.locks
    ensures TimeSlice(s).current == s.current && TimeSlice(s).locks == s.locks
  {
    hide Core, Schedule;
    CurrentKnown(s);
    CurrentStopped(s);
    var x := s.threads[s.current];
    var y := x.(left := x.slice, yielded := true);
    TouchCore(s, s.current, y, {});
    ScheduleLocked(s.(threads := s.threads[s.current := y]));
  }
}
