/** The event object of ipc.c over the kernel object, each call proved equal to a step of Event. */
module EventObject {
  import opened Bits
  import opened Kernel
  import opened KernelObject
  import opened Event

  class Ev {
    const k: Rtos
    const list: int
    const order: Order
    var bits: bv32
    var wants: map<int, Want>
    ghost var inside: set<int>

    ghost function View(): (e: Flags)
      reads this
    {
      Flags(bits, order, list, wants, inside)
    }

    ghost predicate Valid()
      reads this, k
    {
      EventInv(k.View(), View())
    }

    /** The section led to s and e; then it scheduled, or not. */
    ghost predicate Became(s: Sys, e: Flags, switch: bool)
      reads this, k
    {
      View() == e && Inv(s) && k.View() == if switch then Schedule(s) else s
    }

    /** `rt_event_init`. */
    constructor (k: Rtos, list: int, order: Order)
      requires k.Valid() && list in k.lists && k.lists[list] == []
      ensures Valid() && this.k == k && bits == 0
    {
      this.k, this.list, this.order := k, list, order;
      bits, wants, inside := 0, map[], {};
    }

    /** The section of `rt_event_send`: one pass over the waiters in list order. */
    method SendSection(set_: bv32) returns (r: Outcome, switch: bool)
      requires k.Valid() && Listed(k.View(), View())
      modifies this, k
      ensures (k.View(), View(), r) == Event.Send(old(k.View()), old(View()), set_) && k.Valid()
      ensures r != Invalid ==> list in k.lists && (switch <==> |k.lists[list]| < |old(k.lists)[list]|)
    {
      hide Core, Resume, Met, And, Or, AndNot;
      switch := false;
      if set_ == 0 { return Error, false; }
      bits := Or(bits, set_);
      var i := 0;
      while i < |k.lists[list]|
        invariant k.Valid() && Listed(k.View(), View()) && i <= |k.lists[list]|
        invariant |k.lists[list]| <= |old(k.lists)[list]| && (switch <==> |k.lists[list]| < |old(k.lists)[list]|)
        invariant Scan(k.View(), View(), i) == Scan(old(k.View()), old(View()).(bits := Or(old(bits), set_)), 0)
        decreases if list in k.lists then |k.lists[list]| - i else 0
      {
        var t := k.lists[list][i];
        assert t in k.lists[list];
        var w := wants[t];
        if !w.both && !w.any {
          return Invalid, false;
        }
        if Met(w, bits) {
          WakeKeeps(k.View(), list, i);
          WakeAtKeeps(k.View(), View(), i);
          Wake(i);
          switch := true;
        } else {
          i := i + 1;
        }
      }
      return Done, switch;
    }

    method Wake(i: nat)
      requires k.Valid() && Listed(k.View(), View()) && i < |k.lists[list]|
      modifies this, k
      ensures (k.View(), View()) == WakeAt(old(k.View()), old(View()), i) && k.Valid()
    {
      hide Core, Resume, And, AndNot;
      var t := k.lists[list][i];
      assert t in k.lists[list];
      WakeKeeps(k.View(), list, i);
      var w := wants[t];
      if !w.both { w := w.(bits := And(w.bits, bits)); }
      wants := wants[t := w];
      if w.clear { bits := AndNot(bits, w.bits); }
      var _ := k.ResumeThread(t);
    }

    /** `rt_event_send`. */
    method SendBits(set_: bv32) returns (r: Outcome)
      requires Valid()
      modifies this, k
      ensures Valid() && r == if set_ == 0 then Error else Done
      ensures old(Listed(k.View(), View()))
      ensures var (u, f, _) := Event.Send(old(k.View()), old(View()), set_);
              list in u.lists && list in old(k.lists) && Became(u, f, |u.lists[list]| < |old(k.lists)[list]|)
    {
      hide Inv, Event.Send, Met, Within;
      SendKeeps(k.View(), View(), set_);
      var switch;
      r, switch := SendSection(set_);
      Reschedule(switch);
    }

    method Reschedule(needed: bool)
      requires Valid()
      modifies k
      ensures Valid() && k.View() == if needed then Schedule(old(k.View())) else old(k.View())
    {
      hide Core, Schedule, Met, Within;
      if needed {
        ScheduleElsewhere(k.View(), View());
        ElsewhereKeeps(k.View(), View(), Schedule(k.View()));
        k.DoSchedule();
      }
    }

    /** The section of `rt_event_recv`, up to the schedule of a thread that has to wait. */
    method ReceiveSection(w: Want, timeout: int) returns (r: Outcome)
      requires k.Valid() && list in k.lists && k.threads[k.current].stat == Running
      modifies this, k
      ensures (k.View(), View(), r) == Event.Receive(old(k.View()), old(View()), w, timeout) && k.Valid()
    {
      hide Core, Wait, Met, And, AndNot;
      if w.bits == 0 { return Error; }
      CurrentKnown(k.View());
      NoteKeeps(k.View(), Ok);
      var t := k.current;
      k.threads := k.threads[t := k.threads[t].(code := Ok)];
      if Met(w, bits) {
        r := Got(And(bits, w.bits));
        wants := wants[t := w.(bits := And(bits, w.bits))];
        if w.clear { bits := AndNot(bits, w.bits); }
        return;
      }
      if timeout == 0 {
        NoteKeeps(k.View(), TimedOut);
        k.threads := k.threads[t := k.threads[t].(code := TimedOut)];
        return Refused;
      }
      wants := wants[t := w];
      WaitOk(k.View(), list, order);
      WaitKeeps(k.View(), list, t, order);
      k.SuspendOn(list, t, order);
      if timeout > 0 {
        TouchCore(k.View(), t, k.threads[t].(armed := true), {});
        k.threads := k.threads[t := k.threads[t].(armed := true)];
      }
      inside := inside + {t};
      return Blocked;
    }

    /** `rt_event_recv` by a thread that is not yet inside of it. */
    method ReceiveBits(w: Want, timeout: int) returns (r: Outcome)
      requires Valid() && k.threads[k.current].stat == Running && k.current !in inside
      requires w.asked == w.bits && (w.both || w.any)
      modifies this, k
      ensures Valid()
      ensures r.Got? <==> w.bits != 0 && Met(w, old(bits))
      ensures r.Got? ==>
              r.bits != 0 && Within(r.bits, w.bits) && Within(r.bits, old(bits)) && (w.both ==> r.bits == w.bits)
      ensures var (u, f, x) := Event.Receive(old(k.View()), old(View()), w, timeout);
              r == x && Became(u, f, r == Blocked)
    {
      hide Inv, Event.Receive, Met, Within;
      ReceiveKeeps(k.View(), View(), w, timeout);
      r := ReceiveSection(w, timeout);
      Reschedule(r == Blocked);
    }

    /** The end of a receive that waited. */
    method ReturnBits() returns (r: Outcome)
      requires Valid() && k.threads[k.current].stat == Running && k.current in inside
      modifies `inside
      ensures Valid() && inside == old(inside) - {k.current}
      ensures k.current in k.threads && k.current in wants
      ensures r == if k.threads[k.current].code != Ok then Error else Got(wants[k.current].bits)
      ensures r.Got? ==> r.bits != 0 && Within(r.bits, wants[k.current].asked)
    {
      hide Core, Met, Within;
      GoOnKeeps(k.View(), View());
      r := if k.threads[k.current].code != Ok then Error else Got(wants[k.current].bits);
      inside := inside - {k.current};
    }

    /** `rt_event_control` with RT_IPC_CMD_RESET. */
    method ResetBits()
      requires Valid()
      modifies this, k
      ensures Valid() && bits == 0
      ensures var (u, f) := Event.Reset(old(k.View()), old(View())); Became(u, f, true)
    {
      hide Core, Met, Within, ResumeAll;
      ResetKeeps(k.View(), View());
      k.ResumeEvery(list);
      bits := 0;
      Reschedule(true);
    }
  }
}
