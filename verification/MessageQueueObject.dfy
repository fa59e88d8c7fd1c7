/** The message queue object of ipc.c over the kernel object, each section proved equal to a step of MessageQueue. */
module MessageQueueObject {
  import opened Lists
  import opened Chains
  import opened Kernel
  import opened KernelObject
  import opened WaitRoom
  import opened MessageQueue

  class MsgQueue {
    const k: Rtos
    const order: Order
    const receiverList: int
    const senderList: int
    const size: nat
    const max: nat
    var next: map<int, int>
    var data: map<int, seq<int>>
    var head: int
    var tail: int
    var free: int
    var entry: nat
    ghost var queue: seq<int>
    ghost var spare: seq<int>
    ghost var filling: set<int>
    ghost var held: map<int, seq<int>>
    ghost var receivers: Room
    ghost var senders: Room

    ghost function Links(): (c: MessageQueue.Chain)
      reads this
    {
      MessageQueue.Chain(next, data, head, tail, free, entry, size, max, queue, spare, filling, held)
    }

    ghost function View(): (q: Mq)
      reads this
    {
      Mq(Links(), order, receivers, senders)
    }

    ghost predicate Named()
      reads this
    {
      receivers.list == receiverList && senders.list == senderList
    }

    ghost predicate Shape()
      reads this, k
    {
      && Named()
      && k.Valid() && ChainOk(Links())
      && receiverList in k.lists && senderList in k.lists
    }

    ghost predicate Valid()
      reads this, k
    {
      Named() && MqInv(k.View(), View())
    }

    /** The section led to s and q; then it scheduled, or not. */
    ghost predicate Became(s: Sys, q: Mq, switch: bool)
      reads this, k
    {
      View() == q && Inv(s) && k.View() == if switch then Schedule(s) else s
    }

    /** `rt_mq_init`: the nodes are pushed on the free list one by one. */
    constructor (k: Rtos, order: Order, receiverList: int, senderList: int, size: nat, max: nat, pool: seq<seq<int>>)
      requires k.Valid() && max <= ENTRY_MAX && receiverList != senderList
      requires receiverList in k.lists && k.lists[receiverList] == [] && senderList in k.lists
               && k.lists[senderList] == []
      requires |pool| == max && forall i | 0 <= i < max :: |pool[i]| == size
      ensures Valid() && this.k == k && Messages(Links()) == [] && this.size == size && this.max == max
      ensures queue == [] && filling == {} && held == map[] && |spare| == max
              && forall n :: n in spare <==> 0 <= n < max
    {
      hide Inv, ChainOk, Linked, Distinct, Messages;
      this.k, this.order, this.receiverList, this.senderList, this.size, this.max := k, order, receiverList,
          senderList, size, max;
      head, tail, free, entry := NULL, NULL, NULL, 0;
      next, data := map[], map i | 0 <= i < max :: pool[i];
      queue, spare, filling, held := [], [], {}, map[];
      receivers, senders := Room(receiverList, {}, {}), Room(senderList, {}, {});
      new;
      FreeAll();
      FreshChain(Links());
    }

    method FreeAll()
      requires free == NULL && next == map[] && spare == []
      modifies `next, `free, `spare
      ensures Linked(next, free, spare) && Distinct(spare)
      ensures |spare| == max && forall n :: (n in spare <==> 0 <= n < max) && (n in next <==> 0 <= n < max)
    {
      hide Linked, Distinct;
      assert Linked(next, free, spare) && Distinct(spare) by { NoNodes(next); }
      var i := 0;
      while i < max
        invariant |spare| == i <= max && Linked(next, free, spare) && Distinct(spare)
        invariant forall n :: (n in spare <==> 0 <= n < i) && (n in next <==> 0 <= n < i)
      {
        LinkedPush(next, free, spare, i);
        ConsIn(spare, i);
        next := next[i := free];
        free := i;
        spare := [i] + spare;
        i := i + 1;
      }
    }

    method TakeFreeNode() returns (n: int)
      requires ChainOk(Links()) && free != NULL
      modifies this
      ensures n == old(free) && old(free in next && spare != [])
      ensures View() == old(View()).(c := TakeFree(old(Links())))
    {
      TakeFreeOk(Links());
      n := free;
      filling := filling + {n};
      spare := spare[1..];
      free := next[n];
    }

    /** The linking section of `rt_mq_send_wait`. */
    method LinkAtTail(n: int, message: seq<int>)
      requires ChainOk(Links()) && n in filling && |message| <= size
      modifies `next, `data, `head, `tail, `entry, `queue, `filling
      ensures old(n in data && |message| <= |data[n]|)
      ensures Links() == LinkTail(old(Links()), n, message)
    {
      hide ChainOk, Fill;
      FillingNode(Links(), n);
      next := next[n := NULL];
      data := data[n := Fill(data[n], message)];
      if tail != NULL { next := next[tail := n]; }
      tail := n;
      if head == NULL { head := n; }
      entry := entry + 1;
      queue, filling := queue + [n], filling - {n};
    }

    /** The linking section of `rt_mq_urgent`. */
    method LinkAtHead(n: int, message: seq<int>)
      requires ChainOk(Links()) && n in filling && |message| <= size
      modifies `next, `data, `head, `tail, `entry, `queue, `filling
      ensures old(n in data && |message| <= |data[n]|)
      ensures Links() == LinkHead(old(Links()), n, message)
    {
      hide ChainOk, Fill;
      FillingNode(Links(), n);
      data := data[n := Fill(data[n], message)];
      next := next[n := head];
      head := n;
      if tail == NULL { tail := n; }
      entry := entry + 1;
      queue, filling := [n] + queue, filling - {n};
    }

    method TakeHeadNode() returns (n: int)
      requires ChainOk(Links()) && entry > 0
      modifies this
      ensures n == old(head) && old(head in next && head in data && queue != [])
      ensures View() == old(View()).(c := TakeHead(old(Links())))
    {
      hide Linked, Parted;
      TakeHeadOk(Links());
      n := head;
      head := next[n];
      if tail == n { tail := NULL; }
      if entry > 0 { entry := entry - 1; }
      queue, held := queue[1..], held[n := data[n]];
    }

    method PutFreeNode(n: int)
      requires n in held
      modifies this
      ensures View() == old(View()).(c := MessageQueue.PutFree(old(Links()), n))
    {
      next := next[n := free];
      free := n;
      spare, held := [n] + spare, held - {n};
    }

    /** The loop of `rt_mq_control` that gives every queued node back. */
    method DrainAll()
      requires ChainOk(Links())
      modifies this
      ensures View() == old(View()).(c := Drain(old(Links())))
    {
      hide ChainOk, TakeHead, MessageQueue.PutFree;
      while head != NULL
        invariant ChainOk(Links()) && Drain(Links()) == Drain(old(Links()))
        invariant receivers == old(receivers) && senders == old(senders)
        decreases |queue|
      {
        DrainStep(Links());
        HeadHeld(Links());
        var n := TakeHeadNode();
        PutFreeNode(n);
      }
    }

    /** `rt_schedule` where a call ends with one. */
    method Reschedule(needed: bool)
      requires Valid()
      modifies k
      ensures Valid() && k.View() == if needed then Schedule(old(k.View())) else old(k.View())
    {
      hide Core, Schedule, ChainOk;
      if needed {
        MessageQueue.ScheduleElsewhere(k.View(), View());
        MessageQueue.ElsewhereKeeps(k.View(), View(), Schedule(k.View()));
        k.DoSchedule();
      }
    }

    method WakeOne(l: int, ghost room: Room) returns (woke: bool, ghost after: Room)
      requires k.Valid() && room.list == l && l in k.lists
      modifies k
      ensures k.Valid() && after.list == l && (k.View(), after) == WakeFirst(old(k.View()), room)
      ensures woke <==> old(k.lists)[l] != []
    {
      hide Core, ResumeFirst;
      woke, after := k.lists[l] != [], room;
      if woke {
        ResumeFirstKeeps(k.View(), l);
        after := room.(woken := room.woken + {k.lists[l][0]});
        k.ResumeHead(l);
      }
    }

    method Suspend(l: int, ghost room: Room, timed: bool) returns (ghost after: Room)
      requires k.Valid() && room.list == l && l in k.lists && k.threads[k.current].stat == Running
      modifies k
      ensures k.Valid() && after.list == l && (k.View(), after) == Enter(old(k.View()), room, order, timed)
    {
      hide Core, Wait;
      EnterOk(k.View(), k.current, l, order);
      CurrentKnown(k.View());
      var t := k.current;
      k.threads := k.threads[t := k.threads[t].(code := Ok)];
      WaitKeeps(k.View(), l, t, order);
      k.SuspendOn(l, t, order);
      if timed {
        TouchCore(k.View(), t, k.threads[t].(armed := true), {});
        k.threads := k.threads[t := k.threads[t].(armed := true)];
      }
      after := room.(inside := room.inside + {t});
    }

    /** One round of `rt_mq_send_wait` up to the copy. */
    method SendTakeSection(length: nat, timeout: int, again: bool) returns (r: Outcome)
      requires Shape() && (k.threads[k.current].stat == Running || (timeout == 0 && !again))
      modifies this, k
      ensures Named() && (k.View(), View(), r) == SendTake(old(k.View()), old(View()), length, timeout, again)
    {
      hide Core, ChainOk, Enter, TakeFree;
      CurrentKnown(k.View());
      if length > size { return TooLong; }
      if free == NULL {
        if timeout == 0 {
          if again { k.threads := k.threads[k.current := k.threads[k.current].(code := Ok)]; }
          return Refused;
        }
        senders := Suspend(senderList, senders, timeout > 0);
        return Blocked;
      }
      var n := TakeFreeNode();
      return Node(n);
    }

    /** The first section of `rt_mq_send_wait`, or without waiting of `rt_mq_urgent`,
        also from an interrupt over any thread. */
    method BeginSend(length: nat, timeout: int) returns (r: Outcome)
      requires Valid() && ((Outside(k.View(), View()) && k.threads[k.current].stat == Running) || timeout == 0)
      modifies this, k
      ensures Valid() && Messages(Links()) == old(Messages(Links()))
      ensures r.Node? ==> r.node in filling
      ensures r.Node? <==> length <= size && old(free) != NULL
      ensures old(receiverList in k.lists && senderList in k.lists)
      ensures var (u, p, x) := SendTake(old(k.View()), old(View()), length, timeout, false);
              r == x && Became(u, p, r == Blocked)
    {
      hide Inv, ChainOk, SendTake, Messages, RoomInv;
      RoomLists(k.View(), View());
      TakeFreeOk(Links());
      SendTakeKeeps(k.View(), View(), length, timeout, false);
      r := SendTakeSection(length, timeout, false);
      Reschedule(r == Blocked);
    }

    /** A sender that goes on after its wait. */
    method ResumeSend(length: nat, timeout: int) returns (r: Outcome)
      requires Valid() && length <= size && k.current in senders.inside && k.threads[k.current].stat == Running
      modifies this, k
      ensures Valid() && Messages(Links()) == old(Messages(Links()))
      ensures r == Error <==> old(k.threads[k.current].code) != Ok
      ensures r.Node? ==> r.node in filling
      ensures old(receiverList in k.lists && senderList in k.lists)
      ensures var (u, p, x) := SendOn(old(k.View()), old(View()), length, timeout);
              r == x && Became(u, p, r == Blocked)
    {
      hide Inv, ChainOk, SendTake, Messages, RoomInv, NoLost;
      RoomLists(k.View(), View());
      SendOnKeeps(k.View(), View(), length, timeout);
      CurrentKnown(k.View());
      senders := Leave(k.View(), senders);
      if k.threads[k.current].code != Ok { return Error; }
      r := SendTakeSection(length, timeout, true);
      Reschedule(r == Blocked);
    }

    /** The second section of `rt_mq_send_wait`, or of `rt_mq_urgent`. */
    method FinishSend(n: int, message: seq<int>, urgent: bool)
      requires Valid() && n in filling && |message| <= size
      modifies this, k
      ensures Valid() && filling == old(filling) - {n}
      ensures old(n in data && |data[n]| == size)
      ensures Messages(Links()) == if urgent then [Fill(old(data)[n], message)] + old(Messages(Links()))
                                   else old(Messages(Links())) + [Fill(old(data)[n], message)]
      ensures old(receiverList in k.lists && senderList in k.lists)
      ensures var (u, p) := SendLink(old(k.View()), old(View()), n, message, urgent);
              Became(u, p, old(k.lists)[receiverList] != [])
    {
      hide Core, ChainOk, WakeFirst, LinkTail, LinkHead, Messages, Fill, RoomInv, NoLost;
      RoomLists(k.View(), View());
      SendLinkKeeps(k.View(), View(), n, message, urgent);
      if urgent {
        LinkAtHead(n, message);
      } else {
        LinkAtTail(n, message);
      }
      var switch;
      switch, receivers := WakeOne(receiverList, receivers);
      Reschedule(switch);
    }

    /** One round of `rt_mq_recv` up to the copy. */
    method ReceiveTakeSection(timeout: int, again: bool) returns (r: Outcome)
      requires Shape() && (k.threads[k.current].stat == Running || (timeout == 0 && !again))
      modifies this, k
      ensures Named() && (k.View(), View(), r) == ReceiveTake(old(k.View()), old(View()), timeout, again)
    {
      hide Core, ChainOk, Enter, TakeHead;
      CurrentKnown(k.View());
      if entry == 0 {
        if timeout == 0 {
          if again { k.threads := k.threads[k.current := k.threads[k.current].(code := TimedOut)]; }
          return Refused;
        }
        receivers := Suspend(receiverList, receivers, timeout > 0);
        return Blocked;
      }
      var n := TakeHeadNode();
      return Node(n);
    }

    /** The first section of `rt_mq_recv`; without waiting also from an interrupt over any thread. */
    method BeginReceive(timeout: int) returns (r: Outcome)
      requires Valid() && ((Outside(k.View(), View()) && k.threads[k.current].stat == Running) || timeout == 0)
      modifies this, k
      ensures Valid()
      ensures r.Node? <==> old(entry) > 0
      ensures if r.Node? then r.node in held && old(Messages(Links())) == [held[r.node]] + Messages(Links())
              else Messages(Links()) == old(Messages(Links()))
      ensures old(receiverList in k.lists && senderList in k.lists)
      ensures var (u, p, x) := ReceiveTake(old(k.View()), old(View()), timeout, false);
              r == x && Became(u, p, r == Blocked)
    {
      hide Inv, ChainOk, ReceiveTake, Messages, RoomInv;
      RoomLists(k.View(), View());
      ReceiveTakeKeeps(k.View(), View(), timeout, false);
      r := ReceiveTakeSection(timeout, false);
      Reschedule(r == Blocked);
    }

    /** A receiver that goes on after its wait. */
    method ResumeReceive(timeout: int) returns (r: Outcome)
      requires Valid() && k.current in receivers.inside && k.threads[k.current].stat == Running
      modifies this, k
      ensures Valid()
      ensures r == Error <==> old(k.threads[k.current].code) != Ok
      ensures if r.Node? then r.node in held && old(Messages(Links())) == [held[r.node]] + Messages(Links())
              else Messages(Links()) == old(Messages(Links()))
      ensures old(receiverList in k.lists && senderList in k.lists)
      ensures var (u, p, x) := ReceiveOn(old(k.View()), old(View()), timeout);
              r == x && Became(u, p, r == Blocked)
    {
      hide Inv, ChainOk, ReceiveTake, Messages, RoomInv, NoLost;
      RoomLists(k.View(), View());
      ReceiveOnKeeps(k.View(), View(), timeout);
      CurrentKnown(k.View());
      receivers := Leave(k.View(), receivers);
      if k.threads[k.current].code != Ok { return Error; }
      r := ReceiveTakeSection(timeout, true);
      Reschedule(r == Blocked);
    }

    /** The second section of `rt_mq_recv`: what it returns is the message its first section took. */
    method FinishReceive(n: int, length: nat) returns (message: seq<int>)
      requires Valid() && n in held
      modifies this, k
      ensures Valid() && Messages(Links()) == old(Messages(Links()))
      ensures message == if length < |old(held)[n]| then old(held)[n][..length] else old(held)[n]
      ensures old(receiverList in k.lists && senderList in k.lists)
      ensures var (u, p, x) := ReceivePut(old(k.View()), old(View()), n, length);
              x == Got(message) && Became(u, p, old(k.lists)[senderList] != [])
    {
      hide Core, ChainOk, WakeFirst, MessageQueue.PutFree, Messages, RoomInv, NoLost;
      RoomLists(k.View(), View());
      ReceivePutKeeps(k.View(), View(), n, length);
      PutFreeData(Links(), n);
      message := if length < |data[n]| then data[n][..length] else data[n];
      PutFreeNode(n);
      var switch;
      switch, senders := WakeOne(senderList, senders);
      Reschedule(switch);
    }

    /** `rt_mq_control` with RT_IPC_CMD_RESET. */
    method ResetQueue()
      requires Valid()
      modifies this, k
      ensures Valid() && Messages(Links()) == [] && filling == old(filling) && held == old(held)
      ensures old(receiverList in k.lists && senderList in k.lists)
      ensures var (u, p) := MessageQueue.Reset(old(k.View()), old(View())); Became(u, p, true)
    {
      hide Core, ResumeAll, ChainOk, Drain, Messages, RoomInv, NoLost;
      RoomLists(k.View(), View());
      ResetKeeps(k.View(), View());
      ResumeAllKeeps(k.View(), receiverList);
      k.ResumeEvery(receiverList);
      k.ResumeEvery(senderList);
      DrainAll();
      entry := 0;
      Reschedule(true);
    }
  }

  lemma NoNodes(next: map<int, int>)
    ensures Linked(next, NULL, []) && Distinct<int>([])
  {
  }

  lemma RoomLists(s: Sys, q: Mq)
    requires MqInv(s, q)
    ensures q.receivers.list in s.lists && q.senders.list in s.lists
  {
  }

  lemma PutFreeData(c: MessageQueue.Chain, n: int)
    requires ChainOk(c) && n in c.held
    ensures n in c.data
  {
    PutFreeOk(c, n);
  }

  lemma HeadHeld(c: MessageQueue.Chain)
    requires ChainOk(c) && c.head != NULL
    ensures c.entry > 0 && c.head in c.next && c.head in c.data && c.queue != [] && c.head in TakeHead(c).held
    ensures |MessageQueue.PutFree(TakeHead(c), c.head).queue| < |c.queue|
  {
    TakeHeadOk(c);
    NullIsNoNode(c);
  }
}