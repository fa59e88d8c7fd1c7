/** The mailbox object of ipc.c over the kernel object, each call proved equal to a step of Mailbox. */
module MailboxObject {
  import opened Kernel
  import opened KernelObject
  import opened WaitRoom
  import opened Mailbox

  class Mb {
    const k: Rtos
    const pool: array<int>
    const order: Order
    const receiverList: int
    const senderList: int
    var input: nat
    var output: nat
    var entry: nat
    ghost var receivers: Room
    ghost var senders: Room

    ghost function View(): (b: Box)
      reads this, pool
    {
      Box(Ring(pool[..], input, output, entry), order, receivers, senders)
    }

    ghost predicate Shape()
      reads this
    {
      receivers.list == receiverList && senders.list == senderList
    }

    ghost predicate Valid()
      reads this, pool, k
    {
      Shape() && BoxInv(k.View(), View())
    }

    /** The section led to s and b; then it scheduled, or not. */
    ghost predicate Became(s: Sys, b: Box, switch: bool)
      reads this, pool, k
    {
      View() == b && Inv(s) && k.View() == if switch then Schedule(s) else s
    }

    /** `rt_mb_init`. */
    constructor (k: Rtos, pool: array<int>, order: Order, receiverList: int, senderList: int)
      requires k.Valid() && pool.Length <= ENTRY_MAX && receiverList != senderList
      requires receiverList in k.lists && k.lists[receiverList] == [] && senderList in k.lists
               && k.lists[senderList] == []
      ensures Valid() && this.k == k && this.pool == pool && Contents(View().ring) == []
    {
      this.k, this.pool, this.order, this.receiverList, this.senderList := k, pool, order, receiverList, senderList;
      input, output, entry := 0, 0, 0;
      receivers, senders := Room(receiverList, {}, {}), Room(senderList, {}, {});
    }

    /** The storing half of `rt_mb_send_wait`. */
    method Put(mail: int)
      requires RingOk(View().ring) && entry < pool.Length
      modifies this, pool
      ensures View() == old(View()).(ring := Push(old(View()).ring, mail))
    {
      pool[input] := mail;
      input := input + 1;
      if input >= pool.Length { input := 0; }
      entry := entry + 1;
    }

    method PutFront(mail: int)
      requires RingOk(View().ring) && entry < pool.Length
      modifies this, pool
      ensures View() == old(View()).(ring := PushFront(old(View()).ring, mail))
    {
      if output > 0 {
        output := output - 1;
      } else {
        output := pool.Length - 1;
      }
      pool[output] := mail;
      entry := entry + 1;
    }

    method TakeOut() returns (mail: int)
      requires RingOk(View().ring) && entry > 0
      modifies this
      ensures View() == old(View()).(ring := Pop(old(View()).ring).0) && mail == Pop(old(View()).ring).1
    {
      mail := pool[output];
      output := output + 1;
      if output >= pool.Length { output := 0; }
      entry := entry - 1;
    }

    method WakeReceiver() returns (woke: bool)
      requires k.Valid() && receivers.list == receiverList && receiverList in k.lists
      modifies `receivers, k
      ensures k.Valid() && (k.View(), receivers) == WakeFirst(old(k.View()), old(receivers))
      ensures woke <==> old(k.lists)[receiverList] != []
    {
      hide Core, ResumeFirst;
      woke := k.lists[receiverList] != [];
      if woke {
        ResumeFirstKeeps(k.View(), receiverList);
        receivers := receivers.(woken := receivers.woken + {k.lists[receiverList][0]});
        k.ResumeHead(receiverList);
      }
    }

    method WakeSender() returns (woke: bool)
      requires k.Valid() && senders.list == senderList && senderList in k.lists
      modifies `senders, k
      ensures k.Valid() && (k.View(), senders) == WakeFirst(old(k.View()), old(senders))
      ensures woke <==> old(k.lists)[senderList] != []
    {
      hide Core, ResumeFirst;
      woke := k.lists[senderList] != [];
      if woke {
        ResumeFirstKeeps(k.View(), senderList);
        senders := senders.(woken := senders.woken + {k.lists[senderList][0]});
        k.ResumeHead(senderList);
      }
    }

    /** The waiting half that the send and receive loops share. */
    method Suspend(l: int, ghost room: Room, timed: bool) returns (ghost after: Room)
      requires k.Valid() && room.list == l && l in k.lists && k.threads[k.current].stat == Running
      modifies k
      ensures k.Valid() && (k.View(), after) == Enter(old(k.View()), room, order, timed)
    {
      hide Core, Wait;
      EnterOk(k.View(), k.current, l, order);
      CurrentKnown(k.View());
      var t := k.current;
      k.threads := k.threads[t := k.threads[t].(code := Ok)];
      WaitKeeps(k.View(), l, t, order);
      k.SuspendOn(l, t, order);
      if timed {
        TouchCore(k.View(), t, k.threads[t].(armed := true), {});
        k.threads := k.threads[t := k.threads[t].(armed := true)];
      }
      after := room.(inside := room.inside + {t});
    }

    /** One round of `rt_mb_send_wait`, up to where it schedules. */
    method SendSection(mail: int, timeout: int, again: bool) returns (r: Outcome, switch: bool)
      requires Shape() && k.Valid() && RingOk(View().ring) && receiverList in k.lists && senderList in k.lists
      requires k.threads[k.current].stat == Running || timeout == 0
      modifies this, pool, k
      ensures (k.View(), View(), r) == Mailbox.Send(old(k.View()), old(View()), mail, timeout, again) && Shape()
      ensures switch <==> r == Blocked || (r == Sent && old(k.lists)[receiverList] != [])
    {
      hide Core, Enter, WakeFirst, Push;
      CurrentKnown(k.View());
      if entry == pool.Length {
        if timeout == 0 {
          if again { k.threads := k.threads[k.current := k.threads[k.current].(code := Ok)]; }
          return Refused, false;
        }
        senders := Suspend(senderList, senders, timeout > 0);
        EnterList(old(k.View()), old(senders), order, timeout > 0);
        return Blocked, true;
      }
      Put(mail);
      switch := WakeReceiver();
      WakeList(old(k.View()), old(receivers));
      return Sent, switch;
    }

    /** `rt_mb_send_wait`; without waiting also from an interrupt over any thread. */
    method Send(mail: int, timeout: int) returns (r: Outcome)
      requires Valid() && ((Outside(k.View(), View()) && k.threads[k.current].stat == Running) || timeout == 0)
      modifies this, pool, k
      ensures Valid()
      ensures Contents(View().ring) == if r == Sent then old(Contents(View().ring)) + [mail]
              else old(Contents(View().ring))
      ensures r == Sent <==> old(entry) < pool.Length
      ensures old(receiverList in k.lists && senderList in k.lists)
      ensures var (u, c, x) := Mailbox.Send(old(k.View()), old(View()), mail, timeout, false);
              r == x && Became(u, c, r == Blocked || (r == Sent && old(k.lists)[receiverList] != []))
    {
      hide Inv, Mailbox.Send, Contents;
      SendKeeps(k.View(), View(), mail, timeout, false);
      var switch;
      r, switch := SendSection(mail, timeout, false);
      Reschedule(switch);
    }

    /** `rt_schedule` where a call ends with one. */
    method Reschedule(needed: bool)
      requires Valid()
      modifies k
      ensures Valid() && k.View() == if needed then Schedule(old(k.View())) else old(k.View())
    {
      hide Core, Schedule;
      if needed {
        Mailbox.ScheduleElsewhere(k.View(), View());
        Mailbox.ElsewhereKeeps(k.View(), View(), Schedule(k.View()));
        k.DoSchedule();
      }
    }

    /** A sender that goes on after its wait. */
    method SendMore(mail: int, timeout: int) returns (r: Outcome)
      requires Valid() && k.threads[k.current].stat == Running && k.current in senders.inside
      modifies this, pool, k
      ensures Valid()
      ensures Contents(View().ring) == if r == Sent then old(Contents(View().ring)) + [mail]
              else old(Contents(View().ring))
      ensures r == Error <==> old(k.threads[k.current].code) != Ok
      ensures old(receiverList in k.lists && senderList in k.lists)
      ensures var (u, c, x) := SendOn(old(k.View()), old(View()), mail, timeout);
              r == x && Became(u, c, r == Blocked || (r == Sent && old(k.lists)[receiverList] != []))
    {
      hide Inv, Mailbox.Send, Contents, RoomInv, NoLost;
      SendOnKeeps(k.View(), View(), mail, timeout);
      CurrentKnown(k.View());
      RoomLists(k.View(), View());
      senders := Leave(k.View(), senders);
      if k.threads[k.current].code != Ok { return Error; }
      var switch;
      r, switch := SendSection(mail, timeout, true);
      Reschedule(switch);
    }

    /** `rt_mb_urgent`. */
    method Urgent(mail: int) returns (r: Outcome)
      requires Valid()
      modifies this, pool, k
      ensures Valid()
      ensures Contents(View().ring) == if r == Sent then [mail] + old(Contents(View().ring))
              else old(Contents(View().ring))
      ensures r == Sent <==> old(entry) < pool.Length
      ensures old(receiverList in k.lists && senderList in k.lists)
      ensures var (u, c, x) := Mailbox.Urgent(old(k.View()), old(View()), mail);
              r == x && Became(u, c, r == Sent && old(k.lists)[receiverList] != [])
    {
      hide Core, WakeFirst, PushFront, Contents, RoomInv, NoLost;
      UrgentKeeps(k.View(), View(), mail);
      RoomLists(k.View(), View());
      if entry == pool.Length { return Refused; }
      PutFront(mail);
      var switch := WakeReceiver();
      WakeList(old(k.View()), old(receivers));
      r := Sent;
      Reschedule(switch);
    }

    /** One round of `rt_mb_recv`, up to where it schedules. */
    method ReceiveSection(timeout: int, again: bool) returns (r: Outcome, switch: bool)
      requires Shape() && k.Valid() && RingOk(View().ring) && receiverList in k.lists && senderList in k.lists
      requires k.threads[k.current].stat == Running || timeout == 0
      modifies this, k
      ensures (k.View(), View(), r) == Mailbox.Receive(old(k.View()), old(View()), timeout, again) && Shape()
      ensures switch <==> r == Blocked || (r.Got? && old(k.lists)[senderList] != [])
    {
      hide Core, Enter, WakeFirst, Pop;
      CurrentKnown(k.View());
      if entry == 0 {
        if timeout == 0 {
          if again { k.threads := k.threads[k.current := k.threads[k.current].(code := TimedOut)]; }
          return Refused, false;
        }
        receivers := Suspend(receiverList, receivers, timeout > 0);
        EnterList(old(k.View()), old(receivers), order, timeout > 0);
        return Blocked, true;
      }
      var mail := TakeOut();
      switch := WakeSender();
      WakeList(old(k.View()), old(senders));
      return Got(mail), switch;
    }

    /** `rt_mb_recv`; without waiting also from an interrupt over any thread. */
    method Receive(timeout: int) returns (r: Outcome)
      requires Valid() && ((Outside(k.View(), View()) && k.threads[k.current].stat == Running) || timeout == 0)
      modifies this, k
      ensures Valid()
      ensures r.Got? <==> old(entry) > 0
      ensures if r.Got? then old(Contents(View().ring)) == [r.mail] + Contents(View().ring)
              else Contents(View().ring) == old(Contents(View().ring))
      ensures old(receiverList in k.lists && senderList in k.lists)
      ensures var (u, c, x) := Mailbox.Receive(old(k.View()), old(View()), timeout, false);
              r == x && Became(u, c, r == Blocked || (r.Got? && old(k.lists)[senderList] != []))
    {
      hide Inv, Mailbox.Receive, Contents;
      ReceiveKeeps(k.View(), View(), timeout, false);
      var switch;
      r, switch := ReceiveSection(timeout, false);
      Reschedule(switch);
    }

    /** A receiver that goes on after its wait. */
    method ReceiveMore(timeout: int) returns (r: Outcome)
      requires Valid() && k.threads[k.current].stat == Running && k.current in receivers.inside
      modifies this, k
      ensures Valid()
      ensures if r.Got? then old(Contents(View().ring)) == [r.mail] + Contents(View().ring)
              else Contents(View().ring) == old(Contents(View().ring))
      ensures r == Error <==> old(k.threads[k.current].code) != Ok
      ensures old(receiverList in k.lists && senderList in k.lists)
      ensures var (u, c, x) := ReceiveOn(old(k.View()), old(View()), timeout);
              r == x && Became(u, c, r == Blocked || (r.Got? && old(k.lists)[senderList] != []))
    {
      hide Inv, Mailbox.Receive, Contents, RoomInv, NoLost;
      ReceiveOnKeeps(k.View(), View(), timeout);
      CurrentKnown(k.View());
      RoomLists(k.View(), View());
      receivers := Leave(k.View(), receivers);
      if k.threads[k.current].code != Ok { return Error; }
      var switch;
      r, switch := ReceiveSection(timeout, true);
      Reschedule(switch);
    }

    /** `rt_mb_control` with RT_IPC_CMD_RESET. */
    method Reset()
      requires Valid()
      modifies this, k
      ensures Valid() && Contents(View().ring) == []
      ensures old(receiverList in k.lists && senderList in k.lists)
      ensures var (u, c) := Mailbox.Reset(old(k.View()), old(View())); Became(u, c, true)
    {
      hide Core, ResumeAll, Contents, RoomInv, NoLost;
      ResetKeeps(k.View(), View());
      RoomLists(k.View(), View());
      ResumeAllKeeps(k.View(), receiverList);
      k.ResumeEvery(receiverList);
      k.ResumeEvery(senderList);
      entry, input, output := 0, 0, 0;
      Reschedule(true);
    }
  }

  lemma RoomLists(s: Sys, b: Box)
    requires BoxInv(s, b)
    ensures b.receivers.list in s.lists && b.senders.list in s.lists
  {
  }

  lemma EnterList(s: Sys, w: Room, order: Order, timed: bool)
    requires Inv(s) && w.list in s.lists && s.threads[s.current].stat == Running
    ensures Enter(s, w, order, timed).1.list == w.list
  {
  }

  lemma WakeList(s: Sys, w: Room)
    requires Inv(s) && w.list in s.lists
    ensures WakeFirst(s, w).1.list == w.list
  {
  }
}
