/** The mutex object of ipc.c over the kernel object, each call proved equal to a step of Mutex. */
module MutexObject {
  import opened Kernel
  import opened KernelObject
  import opened Mutex

  class Mtx {
    const k: Rtos
    const list: int
    const order: Order
    var value: nat
    var owner: Owner
    var original: nat
    var hold: nat
    ghost var waiting: set<int>

    ghost function View(): (m: State)
      reads this
    {
      State(value, owner, original, hold, order, list, waiting)
    }

    ghost predicate Valid(home: map<int, nat>)
      reads this, k
    {
      MutexInv(k.View(), View(), home)
    }

    /** `rt_mutex_init`. */
    constructor (k: Rtos, list: int, order: Order, ghost home: map<int, nat>)
      requires k.Valid() && list in k.lists && k.lists[list] == []
      requires home == map t | t in k.threads :: k.threads[t].prio
      ensures Valid(home) && this.k == k && View() == State(1, Nobody, NO_PRIORITY, 0, order, list, {})
    {
      this.k, this.list, this.order := k, list, order;
      value, owner, original, hold := 1, Nobody, NO_PRIORITY, 0;
      waiting := {};
      new;
      forall t | t in home ensures home[t] < PRIORITY_MAX { PrioInRange(k.View(), t); }
    }

    /** `rt_mutex_take`, up to where a waiting thread gives the processor away. */
    method Acquire(time: int, ghost home: map<int, nat>) returns (r: Outcome)
      requires Valid(home) && k.threads[k.current].stat == Running && k.current !in waiting
      modifies this, k
      ensures Valid(home)
      ensures old(Usable(k.View(), View()))
      ensures r == Take(old(k.View()), old(View()), time).2 && View() == Take(old(k.View()), old(View()), time).1
      ensures Inv(Take(old(k.View()), old(View()), time).0)
      ensures k.View() == if r == Blocked then Schedule(Take(old(k.View()), old(View()), time).0)
                          else Take(old(k.View()), old(View()), time).0
    {
      hide Core, Take, Schedule;
      TakeKeeps(k.View(), View(), home, time);
      r := TakeSection(time);
      if r == Blocked {
        ScheduleElsewhere(k.View(), View());
        ElsewhereKeeps(k.View(), View(), home, Schedule(k.View()));
        k.DoSchedule();
      }
    }

    method TakeSection(time: int) returns (r: Outcome)
      requires Usable(k.View(), View()) && k.threads[k.current].stat == Running
      modifies this, k
      ensures (k.View(), View(), r) == Take(old(k.View()), old(View()), time)
    {
      hide Core, Block;
      CurrentKnown(k.View());
      ClearKeeps(k.View(), k.current, Ok);
      var t := k.current;
      k.threads := k.threads[t := k.threads[t].(code := Ok)];
      if owner == Held(t) {
        if hold < HOLD_MAX {
          hold := hold + 1;
          return Taken;
        }
        return Full;
      }
      if value > 0 {
        value := value - 1;
        owner := Held(t);
        original := k.threads[t].prio;
        if hold < HOLD_MAX {
          hold := hold + 1;
          return Taken;
        }
        return Full;
      }
      if time == 0 {
        k.threads := k.threads[t := k.threads[t].(code := TimedOut)];
        return Refused;
      }
      BlockSelf(time);
      return Blocked;
    }

    method BlockSelf(time: int)
      requires Usable(k.View(), View()) && owner.Held? && k.threads[k.current].stat == Running
      modifies this, k
      ensures (k.View(), View()) == Block(old(k.View()), old(View()), time) && k.Valid()
    {
      hide Core, Wait, ChangePriority;
      var t := k.current;
      CurrentKnown(k.View());
      PrioInRange(k.View(), t);
      InheritKeeps(k.View(), owner.thread, k.threads[t].prio);
      WaitKeeps(Inherit(k.View(), owner.thread, k.threads[t].prio), list, t, order);
      if k.threads[t].prio < k.threads[owner.thread].prio {
        k.SetThreadPriority(owner.thread, k.threads[t].prio);
      }
      k.SuspendOn(list, t, order);
      if time > 0 {
        TouchCore(k.View(), t, k.threads[t].(armed := true), {});
        k.threads := k.threads[t := k.threads[t].(armed := true)];
      }
      waiting := waiting + {t};
    }

    /** The end of a take that waited: the woken thread returns its error number. */
    method Return(ghost home: map<int, nat>) returns (ok: bool)
      requires Valid(home) && k.threads[k.current].stat == Running && k.current in waiting
      modifies `waiting
      ensures Valid(home) && waiting == old(waiting) - {k.current}
      ensures ok <==> owner == Held(k.current)
    {
      ReturnKeeps(k.View(), View(), home);
      ok := k.threads[k.current].code == Ok;
      waiting := waiting - {k.current};
    }

    /** `rt_mutex_release`. */
    method Give(ghost home: map<int, nat>) returns (r: Outcome)
      requires Valid(home) && k.threads[k.current].stat == Running && k.current !in waiting
      modifies this, k
      ensures Valid(home)
      ensures old(Usable(k.View(), View()) && (owner == Held(k.current) ==> hold > 0 && original < PRIORITY_MAX))
      ensures r == Release(old(k.View()), old(View())).2 && View() == Release(old(k.View()), old(View())).1
      ensures Inv(Release(old(k.View()), old(View())).0)
      ensures k.View() == if r == Released(true) then Schedule(Release(old(k.View()), old(View())).0)
                          else Release(old(k.View()), old(View())).0
    {
      hide Core, Release, Schedule;
      ReleaseKeeps(k.View(), View(), home);
      r := ReleaseSection();
      if r == Released(true) {
        ScheduleElsewhere(k.View(), View());
        ElsewhereKeeps(k.View(), View(), home, Schedule(k.View()));
        k.DoSchedule();
      }
    }

    method ReleaseSection() returns (r: Outcome)
      requires Usable(k.View(), View()) && (owner == Held(k.current) ==> hold > 0 && original < PRIORITY_MAX)
      modifies this, k
      ensures (k.View(), View(), r) == Release(old(k.View()), old(View()))
    {
      hide Core, Grant, ChangePriority;
      CurrentKnown(k.View());
      var t := k.current;
      if Held(t) != owner {
        k.threads := k.threads[t := k.threads[t].(code := Failed)];
        return NotOwner;
      }
      hold := hold - 1;
      if hold > 0 {
        return Released(false);
      }
      RestoreKeeps(k.View(), t, original);
      if original != k.threads[t].prio {
        k.SetThreadPriority(t, original);
      }
      if k.lists[list] != [] {
        GrantNext();
        return Released(true);
      }
      if value < VALUE_MAX {
        value := value + 1;
      } else {
        return Full;
      }
      owner := Nobody;
      original := NO_PRIORITY;
      return Released(false);
    }

    /** The hand-over of `rt_mutex_release` to the first waiter. */
    method GrantNext()
      requires k.Valid() && list in k.lists && k.lists[list] != [] && hold < HOLD_MAX
      modifies this, k
      ensures (k.View(), View()) == Grant(old(k.View()), old(View())) && k.Valid()
    {
      hide Inv, ResumeFirst, ChangePriority, HighestOf;
      FirstWaits(k.View(), list);
      ListsKnown(k.View(), list);
      var t := k.lists[list][0];
      PrioInRange(k.View(), t);
      owner := Held(t);
      original := k.threads[t].prio;
      var top := k.HighestWaiting(list);
      ChangePriorityKeeps(k.View(), t, top);
      if order == Fifo && k.threads[t].prio != top {
        k.SetThreadPriority(t, top);
      }
      hold := hold + 1;
      k.ResumeHead(list);
    }
  }
}
