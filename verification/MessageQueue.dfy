/** Message queues (ipc.c): linked nodes that are free, in flight between two sections, or queued. */
module MessageQueue {
  import opened Lists
  import opened Chains
  import opened Kernel
  import opened WaitRoom

  const ENTRY_MAX: nat := 65535

  /**
   * The links and counters of the queue, and what they stand for: `queue` and `spare` list the queued and the free
   * nodes, `filling` are the nodes senders copy into, `held` those receivers copy from, with the message taken.
   */
  datatype Chain = Chain(next: map<int, int>, data: map<int, seq<int>>, head: int, tail: int, free: int, entry: nat,
                         size: nat, max: nat,
                         queue: seq<int>, spare: seq<int>, filling: set<int>, held: map<int, seq<int>>)

  datatype Mq = Mq(c: Chain, order: Order, receivers: Room, senders: Room)

  datatype Outcome = Node(node: int) | Sent | Got(message: seq<int>) | Refused | Blocked | TooLong | Error

  /** Every node is in exactly one place. */
  ghost predicate Parted(c: Chain) {
    && Distinct(c.queue) && Distinct(c.spare)
    && (forall n :: n in c.queue || n in c.spare || n in c.filling || n in c.held <==> 0 <= n < c.max)
    && (forall n | n in c.queue :: n !in c.spare && n !in c.filling && n !in c.held)
    && (forall n | n in c.spare :: n !in c.filling && n !in c.held)
    && (forall n | n in c.filling :: n !in c.held)
  }

  ghost predicate ChainOk(c: Chain) {
    && c.max <= ENTRY_MAX
    && Linked(c.next, c.head, c.queue) && c.tail == Last(c.queue)
    && Linked(c.next, c.free, c.spare)
    && Parted(c)
    && c.entry == |c.queue|
    && (forall n | 0 <= n < c.max :: n in c.next && n in c.data && |c.data[n]| == c.size)
    && forall n | n in c.held :: n in c.data && c.data[n] == c.held[n]
  }

  /** The queued messages in the order in which they will be received. */
  function Messages(c: Chain): (r: seq<seq<int>>)
    ensures |r| == |c.queue|
    ensures forall i | 0 <= i < |c.queue| && c.queue[i] in c.data :: r[i] == c.data[c.queue[i]]
  {
    seq(|c.queue|, i requires 0 <= i < |c.queue| => if c.queue[i] in c.data then c.data[c.queue[i]] else [])
  }

  // ---- the sections on the links

  /** The first section of a send: the first free node is taken. */
  function TakeFree(c: Chain): (d: Chain)
    requires c.free in c.next && c.spare != []
  {
    c.(free := c.next[c.free], spare := c.spare[1..], filling := c.filling + {c.free})
  }

  /** The message is copied over the start of the node; what the node held beyond it stays. */
  function Fill(old_: seq<int>, message: seq<int>): (r: seq<int>)
    requires |message| <= |old_|
    ensures |r| == |old_| && r[..|message|] == message && r[|message|..] == old_[|message|..]
  {
    message + old_[|message|..]
  }

  /** The second section of a send: the node is filled and linked at the tail. */
  function LinkTail(c: Chain, n: int, message: seq<int>): (d: Chain)
    requires n in c.data && |message| <= |c.data[n]|
  {
    var next1 := c.next[n := NULL];
    var next2 := if c.tail != NULL then next1[c.tail := n] else next1;
    c.(next := next2, data := c.data[n := Fill(c.data[n], message)], tail := n,
       head := if c.head == NULL then n else c.head, entry := c.entry + 1,
       queue := c.queue + [n], filling := c.filling - {n})
  }

  /** The second section of an urgent send: at the head. */
  function LinkHead(c: Chain, n: int, message: seq<int>): (d: Chain)
    requires n in c.data && |message| <= |c.data[n]|
  {
    c.(next := c.next[n := c.head], data := c.data[n := Fill(c.data[n], message)], head := n,
       tail := if c.tail == NULL then n else c.tail, entry := c.entry + 1,
       queue := [n] + c.queue, filling := c.filling - {n})
  }

  /** The first section of a receive: the head leaves the queue. */
  function TakeHead(c: Chain): (d: Chain)
    requires c.head in c.next && c.head in c.data && c.entry > 0 && c.queue != []
  {
    c.(head := c.next[c.head], tail := if c.tail == c.head then NULL else c.tail, entry := c.entry - 1,
       queue := c.queue[1..], held := c.held[c.head := c.data[c.head]])
  }

  /** The second section of a receive: the node, copied out, is free again. */
  function PutFree(c: Chain, n: int): (d: Chain) {
    c.(next := c.next[n := c.free], free := n, spare := [n] + c.spare, held := c.held - {n})
  }

  lemma NullIsNoNode(c: Chain)
    requires ChainOk(c)
    ensures c.tail == NULL <==> c.queue == []
    ensures c.head == NULL <==> c.queue == []
    ensures c.free == NULL <==> c.spare == []
    ensures c.queue != [] ==> c.head == c.queue[0] && c.head in c.queue && c.tail in c.queue && c.head in c.data
    ensures c.spare != [] ==> c.free == c.spare[0] && c.free in c.spare
  {
    if c.queue != [] {
      var a, b := c.queue[0], c.queue[|c.queue| - 1];
      assert a in c.queue && b in c.queue;
    }
    if c.spare != [] {
      var a := c.spare[0];
      assert a in c.spare;
    }
  }

  lemma SameMessages(c: Chain, d: Chain)
    requires ChainOk(c) && d.queue == c.queue
    requires forall n | n in c.queue && n in c.data :: n in d.data && d.data[n] == c.data[n]
    ensures Messages(d) == Messages(c)
  {
    forall i | 0 <= i < |c.queue| ensures Messages(d)[i] == Messages(c)[i] {
      var n := c.queue[i];
      assert n in c.queue;
    }
  }

  /** The queued nodes keep their data while another node is filled and linked before or behind them. */
  lemma MoreMessages(c: Chain, n: int, block: seq<int>)
    requires ChainOk(c) && n !in c.queue
    ensures Messages(c.(queue := [n] + c.queue, data := c.data[n := block])) == [block] + Messages(c)
    ensures Messages(c.(queue := c.queue + [n], data := c.data[n := block])) == Messages(c) + [block]
  {
    var q := c.queue;
    assert forall i | 0 <= i < |q| :: q[i] in c.data && q[i] != n by { QueueData(c, n); }
    hide ChainOk;
    var d, e := c.(queue := [n] + q, data := c.data[n := block]), c.(queue := q + [n], data := c.data[n := block]);
    forall i | 0 <= i <= |q| ensures Messages(d)[i] == ([block] + Messages(c))[i] {
      assert d.queue[i] == if i == 0 then n else q[i - 1];
    }
    forall i | 0 <= i <= |q| ensures Messages(e)[i] == (Messages(c) + [block])[i] {
      assert e.queue[i] == if i == |q| then n else q[i];
    }
  }

  lemma QueueData(c: Chain, n: int)
    requires ChainOk(c) && n !in c.queue
    ensures forall i | 0 <= i < |c.queue| :: c.queue[i] in c.data && c.queue[i] != n
  {
    forall i | 0 <= i < |c.queue| ensures c.queue[i] in c.data && c.queue[i] != n {
      var x := c.queue[i];
      assert x in c.queue;
    }
  }

  lemma FreshChain(c: Chain)
    requires c.max <= ENTRY_MAX && c.head == NULL && c.tail == NULL && c.entry == 0
    requires c.queue == [] && c.filling == {} && c.held == map[]
    requires Linked(c.next, c.free, c.spare) && Distinct(c.spare)
    requires forall n :: (n in c.spare <==> 0 <= n < c.max) && (n in c.next <==> 0 <= n < c.max)
    requires forall n | 0 <= n < c.max :: n in c.data && |c.data[n]| == c.size
    ensures ChainOk(c) && Messages(c) == []
  {
    hide Distinct;
    assert Distinct(c.queue) by { EmptyDistinct(); }
  }

  lemma EmptyDistinct()
    ensures Distinct<int>([])
  {
  }

  lemma MessagesOf(c: Chain, d: Chain)
    requires d.queue == c.queue && d.data == c.data
    ensures Messages(d) == Messages(c)
  {
  }

  lemma FillingNode(c: Chain, n: int)
    requires ChainOk(c) && n in c.filling
    ensures n in c.data && |c.data[n]| == c.size
  {
    assert 0 <= n < c.max by { assert Parted(c); }
  }

  lemma TakeFreeOk(c: Chain)
    requires ChainOk(c)
    ensures c.free == NULL <==> c.spare == []
    ensures c.spare != [] ==> c.free in c.next && ChainOk(TakeFree(c)) && Messages(TakeFree(c)) == Messages(c)
                              && c.free in TakeFree(c).filling && |TakeFree(c).spare| == |c.spare| - 1
  {
    NullIsNoNode(c);
    hide Linked;
    if c.spare != [] {
      LinkedTail(c.next, c.free, c.spare);
      var d := TakeFree(c);
      TailIn(c.spare);
      hide Distinct;
      assert Parted(d);
      SameMessages(c, d);
    }
  }

  lemma LinkTailParts(c: Chain, n: int, message: seq<int>)
    requires Parted(c) && n in c.filling && n in c.data && |message| <= |c.data[n]|
    ensures Parted(LinkTail(c, n, message)) && n !in c.queue && n !in c.spare && n !in c.held && 0 <= n < c.max
  {
    hide Distinct;
    var d := LinkTail(c, n, message);
    AppendIn(c.queue, n);
  }

  lemma LinkTailLinks(c: Chain, n: int, message: seq<int>)
    requires ChainOk(c) && n in c.filling && n in c.data && |message| <= |c.data[n]|
    requires n !in c.queue && n !in c.spare
    ensures var d := LinkTail(c, n, message);
            Linked(d.next, d.head, d.queue) && d.tail == Last(d.queue) && Linked(d.next, d.free, d.spare)
  {
    hide Linked;
    NullIsNoNode(c);
    var d := LinkTail(c, n, message);
    assert Distinct(c.queue) && forall x | x in c.spare :: x !in c.queue;
    LinkedAppend(c.next, c.head, c.queue, n);
    LinkedFrame(c.next, d.next, c.free, c.spare);
  }

  lemma LinkTailOk(c: Chain, n: int, message: seq<int>)
    requires ChainOk(c) && n in c.filling && |message| <= c.size
    ensures n in c.data && |c.data[n]| == c.size
    ensures ChainOk(LinkTail(c, n, message))
    ensures Messages(LinkTail(c, n, message)) == Messages(c) + [Fill(c.data[n], message)]
  {
    hide Linked, Parted, Distinct, Messages, Fill, Last;
    FillingNode(c, n);
    LinkTailParts(c, n, message);
    LinkTailLinks(c, n, message);
    var d := LinkTail(c, n, message);
    MoreMessages(c, n, d.data[n]);
    MessagesOf(c.(queue := d.queue, data := d.data), d);
  }

  lemma LinkHeadParts(c: Chain, n: int, message: seq<int>)
    requires Parted(c) && n in c.filling && n in c.data && |message| <= |c.data[n]|
    ensures Parted(LinkHead(c, n, message)) && n !in c.queue && n !in c.spare && n !in c.held && 0 <= n < c.max
  {
    hide Distinct;
    var d := LinkHead(c, n, message);
    ConsIn(c.queue, n);
  }

  lemma LinkHeadLinks(c: Chain, n: int, message: seq<int>)
    requires ChainOk(c) && n in c.filling && n in c.data && |message| <= |c.data[n]|
    requires n !in c.queue && n !in c.spare
    ensures var d := LinkHead(c, n, message);
            Linked(d.next, d.head, d.queue) && d.tail == Last(d.queue) && Linked(d.next, d.free, d.spare)
  {
    hide Linked, Parted, Distinct;
    NullIsNoNode(c);
    var d := LinkHead(c, n, message);
    LinkedPush(c.next, c.head, c.queue, n);
    LinkedFrame(c.next, d.next, c.free, c.spare);
  }

  lemma LinkHeadOk(c: Chain, n: int, message: seq<int>)
    requires ChainOk(c) && n in c.filling && |message| <= c.size
    ensures n in c.data && |c.data[n]| == c.size
    ensures ChainOk(LinkHead(c, n, message))
    ensures Messages(LinkHead(c, n, message)) == [Fill(c.data[n], message)] + Messages(c)
  {
    hide Linked, Parted, Distinct, Messages, Fill, Last;
    FillingNode(c, n);
    LinkHeadParts(c, n, message);
    LinkHeadLinks(c, n, message);
    var d := LinkHead(c, n, message);
    MoreMessages(c, n, d.data[n]);
    MessagesOf(c.(queue := d.queue, data := d.data), d);
  }

  lemma TakeHeadParts(c: Chain)
    requires Parted(c) && c.queue != [] && c.head == c.queue[0] && c.head in c.next && c.head in c.data && c.entry > 0
    ensures Parted(TakeHead(c)) && c.head !in c.held
  {
    hide Distinct;
    TailIn(c.queue);
    assert c.head in c.queue;
  }

  lemma TakeHeadOk(c: Chain)
    requires ChainOk(c)
    ensures c.entry > 0 <==> c.queue != []
    ensures c.entry > 0 ==> c.head in c.next && c.head in c.data && ChainOk(TakeHead(c))
                            && Messages(c) == [c.data[c.head]] + Messages(TakeHead(c))
                            && c.head in TakeHead(c).held && TakeHead(c).held[c.head] == c.data[c.head]
  {
    hide Linked, Parted, Last, Messages;
    NullIsNoNode(c);
    if c.queue != [] {
      LinkedTail(c.next, c.head, c.queue);
      TakeHeadParts(c);
      TakeHeadLast(c);
      TakeHeadMessages(c);
    }
  }

  lemma TakeHeadLast(c: Chain)
    requires c.queue != [] && Parted(c) && c.head == c.queue[0] && c.tail == Last(c.queue)
    ensures (if c.tail == c.head then NULL else c.tail) == Last(c.queue[1..])
  {
    assert |c.queue| > 1 ==> c.queue[0] != c.queue[|c.queue| - 1];
  }

  lemma TakeHeadMessages(c: Chain)
    requires c.queue != [] && c.head == c.queue[0] && c.head in c.next && c.head in c.data && c.entry > 0
    ensures Messages(c) == [c.data[c.head]] + Messages(TakeHead(c))
  {
    var d := TakeHead(c);
    forall i | 0 <= i < |c.queue| ensures Messages(c)[i] == ([c.data[c.head]] + Messages(d))[i] {
      assert i > 0 ==> d.queue[i - 1] == c.queue[i];
    }
  }

  lemma PutFreeParts(c: Chain, n: int)
    requires Parted(c) && n in c.held
    ensures Parted(PutFree(c, n)) && n !in c.queue && n !in c.spare && 0 <= n < c.max
  {
    hide Distinct;
    ConsIn(c.spare, n);
  }

  lemma PutFreeOk(c: Chain, n: int)
    requires ChainOk(c) && n in c.held
    ensures ChainOk(PutFree(c, n)) && Messages(PutFree(c, n)) == Messages(c)
    ensures n in c.data && c.data[n] == c.held[n] && |PutFree(c, n).spare| == |c.spare| + 1
  {
    hide Linked;
    PutFreeParts(c, n);
    var d := PutFree(c, n);
    assert forall x | x in c.queue :: x != n by { assert Parted(c); }
    hide Parted;
    LinkedPush(c.next, c.free, c.spare, n);
    LinkedFrame(c.next, d.next, c.head, c.queue);
    SameMessages(c, d);
  }

  /** The loop of a reset moves one node after another from the head of the queue to the free list. */
  function Drain(c: Chain): (d: Chain)
    requires ChainOk(c)
    decreases |c.queue|
  {
    DrainStep(c);
    if c.head == NULL then c else Drain(PutFree(TakeHead(c), c.head))
  }

  lemma DrainStep(c: Chain)
    requires ChainOk(c)
    ensures c.head == NULL <==> c.queue == []
    ensures c.head != NULL ==> c.head in c.next && c.head in c.data && c.entry > 0
                               && ChainOk(PutFree(TakeHead(c), c.head))
                               && PutFree(TakeHead(c), c.head).held == c.held
  {
    NullIsNoNode(c);
    TakeHeadOk(c);
    if c.head != NULL {
      PutFreeOk(TakeHead(c), c.head);
      assert c.head !in c.held by { assert Parted(c); }
    }
  }

  lemma {:induction false} DrainKeeps(c: Chain)
    requires ChainOk(c)
    ensures ChainOk(Drain(c)) && Drain(c).queue == [] && Messages(Drain(c)) == [] && Drain(c).entry == 0
    ensures Drain(c).filling == c.filling && Drain(c).held == c.held && Drain(c).max == c.max && Drain(c).size == c.size
    decreases |c.queue|
  {
    hide ChainOk, TakeHead, PutFree;
    DrainStep(c);
    if c.head == NULL {
      assert c.entry == 0 by { DrainCount(c); }
    } else {
      DrainFields(c);
      DrainKeeps(PutFree(TakeHead(c), c.head));
    }
  }

  lemma DrainFields(c: Chain)
    requires c.head in c.next && c.head in c.data && c.entry > 0 && c.queue != []
    ensures var d := PutFree(TakeHead(c), c.head);
            d.filling == c.filling && d.max == c.max && d.size == c.size && d.queue == c.queue[1..]
  {
  }

  lemma DrainCount(c: Chain)
    requires ChainOk(c)
    ensures c.entry == |c.queue|
  {
  }

  // ---- the calls, section by section

  /** Both rooms and the links, with a woken receiver for each of `items` and a woken sender for each of `slots`. */
  ghost predicate Awake(s: Sys, q: Mq, items: int, slots: int) {
    && Inv(s) && ChainOk(q.c)
    && RoomInv(s, q.receivers) && RoomInv(s, q.senders) && Separate(q.receivers, q.senders)
    && NoLost(s, q.receivers, items) && NoLost(s, q.senders, slots)
  }

  /** The links hold, and no wake-up is lost on either side. */
  ghost predicate MqInv(s: Sys, q: Mq) {
    Awake(s, q, q.c.entry, |q.c.spare|)
  }

  /** `rt_mq_send_wait` up to the copy; `again` on the later rounds of its loop. */
  function SendTake(s: Sys, q: Mq, length: nat, timeout: int, again: bool): (r: (Sys, Mq, Outcome))
    requires Inv(s) && ChainOk(q.c) && q.senders.list in s.lists
    requires s.threads[s.current].stat == Running || (timeout == 0 && !again)
  {
    CurrentKnown(s);
    TakeFreeOk(q.c);
    if length > q.c.size then (s, q, TooLong)
    else if q.c.free == NULL then
      if timeout == 0 then (if again then SetCode(s, s.current, Ok) else s, q, Refused)
      else
        var (u, room) := Enter(s, q.senders, q.order, timeout > 0);
        (u, q.(senders := room), Blocked)
    else (s, q.(c := TakeFree(q.c)), Node(q.c.free))
  }

  /** The linking half of a send, at the tail, or at the head if urgent. */
  function SendLink(s: Sys, q: Mq, n: int, message: seq<int>, urgent: bool): (r: (Sys, Mq))
    requires Inv(s) && ChainOk(q.c) && n in q.c.filling && |message| <= q.c.size && q.receivers.list in s.lists
  {
    LinkTailOk(q.c, n, message);
    var (u, room) := WakeFirst(s, q.receivers);
    (u, q.(c := if urgent then LinkHead(q.c, n, message) else LinkTail(q.c, n, message), receivers := room))
  }

  /** `rt_mq_recv` up to the copy. */
  function ReceiveTake(s: Sys, q: Mq, timeout: int, again: bool): (r: (Sys, Mq, Outcome))
    requires Inv(s) && ChainOk(q.c) && q.receivers.list in s.lists
    requires s.threads[s.current].stat == Running || (timeout == 0 && !again)
  {
    CurrentKnown(s);
    TakeHeadOk(q.c);
    if q.c.entry == 0 then
      if timeout == 0 then (if again then SetCode(s, s.current, TimedOut) else s, q, Refused)
      else
        var (u, room) := Enter(s, q.receivers, q.order, timeout > 0);
        (u, q.(receivers := room), Blocked)
    else (s, q.(c := TakeHead(q.c)), Node(q.c.head))
  }

  /** The other half of a receive: the message is copied out and the node freed. */
  function ReceivePut(s: Sys, q: Mq, n: int, length: nat): (r: (Sys, Mq, Outcome))
    requires Inv(s) && ChainOk(q.c) && n in q.c.held && q.senders.list in s.lists
  {
    PutFreeOk(q.c, n);
    var (u, room) := WakeFirst(s, q.senders);
    var m := q.c.data[n];
    (u, q.(c := PutFree(q.c, n), senders := room), Got(if length < |m| then m[..length] else m))
  }

  /** `rt_mq_control` with RT_IPC_CMD_RESET. */
  function Reset(s: Sys, q: Mq): (r: (Sys, Mq))
    requires Inv(s) && ChainOk(q.c) && q.receivers.list in s.lists && q.senders.list in s.lists
  {
    ResumeAllKeeps(s, q.receivers.list);
    (ResumeAll(ResumeAll(s, q.receivers.list), q.senders.list), q.(c := Drain(q.c).(entry := 0)))
  }

  ghost predicate Outside(s: Sys, q: Mq) {
    s.current !in q.receivers.inside && s.current !in q.senders.inside
  }

  lemma NoteKeeps(s: Sys, q: Mq, c: Code)
    requires Inv(s) && RoomInv(s, q.receivers) && RoomInv(s, q.senders) && Outside(s, q)
    requires s.threads[s.current].stat == Running
    ensures s.current in s.threads
    ensures var u := SetCode(s, s.current, c);
            && Inv(u) && SamePrio(s, u) && u.lists == s.lists && RoomInv(u, q.receivers) && RoomInv(u, q.senders)
  {
    hide Core;
    CurrentSettled(s);
    TouchCore(s, s.current, s.threads[s.current].(code := c), {});
    Bystander(s, SetCode(s, s.current, c), q.receivers);
    Bystander(s, SetCode(s, s.current, c), q.senders);
  }

  lemma SendTakeKeeps(s: Sys, q: Mq, length: nat, timeout: int, again: bool)
    requires Awake(s, q, q.c.entry, if again then |q.c.spare| - 1 else |q.c.spare|)
    requires again ==> length <= q.c.size
    requires (Outside(s, q) && s.threads[s.current].stat == Running) || (timeout == 0 && !again)
    ensures var (u, p, r) := SendTake(s, q, length, timeout, again);
            && MqInv(u, p) && u.current == s.current && SamePrio(s, u) && Messages(p.c) == Messages(q.c)
            && (r.Node? ==> r.node in p.c.filling && r.node in q.c.spare && length <= p.c.size)
            && (r == TooLong || r.Node? ==> u == s)
            && (r == Refused ==> u == if again then SetCode(s, s.current, Ok) else s)
            && (r == Blocked ==> Enters(s, q.senders.list, q.order, timeout > 0, u)
                                 && p == q.(senders := q.senders.(inside := q.senders.inside + {s.current})))
            && (r != Blocked ==> p.senders == q.senders) && p.receivers == q.receivers
            && (r == TooLong <==> length > q.c.size)
            && (r.Node? <==> length <= q.c.size && q.c.spare != [])
            && (r == Refused <==> length <= q.c.size && q.c.spare == [] && timeout == 0)
            && (r == Blocked <==> length <= q.c.size && q.c.spare == [] && timeout != 0)
  {
    hide Inv, Linked, Parted, Messages, RoomInv, Enter, TakeFree, Enters;
    CurrentKnown(s);
    TakeFreeOk(q.c);
    if length <= q.c.size {
      if q.c.free == NULL {
        if timeout != 0 {
          EnterKeeps(s, q.senders, q.order, timeout > 0);
        } else if again {
          NoteKeeps(s, q, Ok);
        }
      } else {
        TakeFreeFields(q.c);
      }
    }
  }

  lemma TakeFreeFields(c: Chain)
    requires ChainOk(c) && c.free in c.next && c.spare != []
    ensures TakeFree(c).entry == c.entry && TakeFree(c).size == c.size && c.free in c.spare
  {
    NullIsNoNode(c);
  }

  lemma SendLinkKeeps(s: Sys, q: Mq, n: int, message: seq<int>, urgent: bool)
    requires MqInv(s, q) && n in q.c.filling && |message| <= q.c.size
    ensures n in q.c.data && |q.c.data[n]| == q.c.size
    ensures var (u, p) := SendLink(s, q, n, message, urgent);
            && MqInv(u, p) && u.current == s.current && SamePrio(s, u)
            && p.c.filling == q.c.filling - {n} && p.c.held == q.c.held
            && WakesFirst(s, q.receivers, u, p.receivers) && p.senders == q.senders
            && var m := Fill(q.c.data[n], message);
               Messages(p.c) == if urgent then [m] + Messages(q.c) else Messages(q.c) + [m]
  {
    hide Inv, Linked, Parted, Messages, RoomInv, WakeFirst, Fill, WakesFirst;
    LinkTailOk(q.c, n, message);
    LinkHeadOk(q.c, n, message);
    WakeKeeps(s, q.receivers, q.c.entry);
  }

  lemma ReceiveTakeKeeps(s: Sys, q: Mq, timeout: int, again: bool)
    requires Awake(s, q, q.c.entry - 1, |q.c.spare|)
    requires (Outside(s, q) && s.threads[s.current].stat == Running) || (timeout == 0 && !again)
    ensures var (u, p, r) := ReceiveTake(s, q, timeout, again);
            && MqInv(u, p) && u.current == s.current && SamePrio(s, u)
            && (r.Node? <==> q.c.entry > 0)
            && (if r.Node? then r.node in p.c.held && Messages(q.c) == [p.c.held[r.node]] + Messages(p.c)
                else Messages(p.c) == Messages(q.c))
            && (r.Node? ==> u == s)
            && (r == Refused ==> u == if again then SetCode(s, s.current, TimedOut) else s)
            && (r == Blocked ==> Enters(s, q.receivers.list, q.order, timeout > 0, u)
                                 && p == q.(receivers := q.receivers.(inside := q.receivers.inside + {s.current})))
            && (r != Blocked ==> p.receivers == q.receivers) && p.senders == q.senders
            && (r == Refused <==> q.c.entry == 0 && timeout == 0) && (r == Blocked <==> q.c.entry == 0 && timeout != 0)
  {
    hide Inv, Linked, Parted, Messages, RoomInv, Enter, TakeHead, Enters;
    CurrentKnown(s);
    TakeHeadOk(q.c);
    if q.c.entry == 0 {
      if timeout != 0 {
        EnterKeeps(s, q.receivers, q.order, timeout > 0);
      } else if again {
        NoteKeeps(s, q, TimedOut);
      }
    } else {
      TakeHeadFields(q.c);
    }
  }

  lemma TakeHeadFields(c: Chain)
    requires c.head in c.next && c.head in c.data && c.entry > 0 && c.queue != []
    ensures TakeHead(c).entry == c.entry - 1 && TakeHead(c).spare == c.spare
  {
  }

  /** What a receiver copies out of its node is the message it took from the head of the queue. */
  lemma ReceivePutKeeps(s: Sys, q: Mq, n: int, length: nat)
    requires MqInv(s, q) && n in q.c.held
    ensures var (u, p, r) := ReceivePut(s, q, n, length);
            && MqInv(u, p) && u.current == s.current && SamePrio(s, u) && Messages(p.c) == Messages(q.c)
            && n in p.c.spare && p.c.held == q.c.held - {n} && p.c.filling == q.c.filling
            && WakesFirst(s, q.senders, u, p.senders) && p.receivers == q.receivers
            && var m := q.c.held[n];
               r == Got(if length < |m| then m[..length] else m)
  {
    hide Inv, Linked, Parted, Messages, RoomInv, WakeFirst, WakesFirst;
    PutFreeOk(q.c, n);
    WakeKeeps(s, q.senders, |q.c.spare|);
  }

  // ---- threads that go on after a wait

  function SendOn(s: Sys, q: Mq, length: nat, timeout: int): (r: (Sys, Mq, Outcome))
    requires Inv(s) && ChainOk(q.c) && q.senders.list in s.lists && s.threads[s.current].stat == Running
  {
    var p := q.(senders := Leave(s, q.senders));
    if s.threads[s.current].code != Ok then (s, p, Error) else SendTake(s, p, length, timeout, true)
  }

  function ReceiveOn(s: Sys, q: Mq, timeout: int): (r: (Sys, Mq, Outcome))
    requires Inv(s) && ChainOk(q.c) && q.receivers.list in s.lists && s.threads[s.current].stat == Running
  {
    var p := q.(receivers := Leave(s, q.receivers));
    if s.threads[s.current].code != Ok then (s, p, Error) else ReceiveTake(s, p, timeout, true)
  }

  lemma SendOnKeeps(s: Sys, q: Mq, length: nat, timeout: int)
    requires MqInv(s, q) && length <= q.c.size && s.current in q.senders.inside && s.threads[s.current].stat == Running
    ensures var (u, p, r) := SendOn(s, q, length, timeout);
            && MqInv(u, p) && u.current == s.current && Messages(p.c) == Messages(q.c)
            && (r == Error <==> s.threads[s.current].code != Ok)
            && (r.Node? ==> r.node in p.c.filling && r.node in q.c.spare && length <= p.c.size)
            && (s.threads[s.current].code == Ok ==>
                  && (r.Node? <==> q.c.spare != []) && (r == Refused <==> q.c.spare == [] && timeout == 0)
                  && (r == Blocked <==> q.c.spare == [] && timeout != 0))
            && (r == Blocked ==> Enters(s, q.senders.list, q.order, timeout > 0, u))
            && (r != Blocked ==> p.senders == Leave(s, q.senders)) && (r == Error ==> u == s)
  {
    hide Inv, ChainOk, Messages, RoomInv, SendTake, Enters;
    CurrentKnown(s);
    LeaveKeeps(s, q.senders, |q.c.spare|);
    var p := q.(senders := Leave(s, q.senders));
    if s.threads[s.current].code == Ok { SendTakeKeeps(s, p, length, timeout, true); }
  }

  lemma ReceiveOnKeeps(s: Sys, q: Mq, timeout: int)
    requires MqInv(s, q) && s.current in q.receivers.inside && s.threads[s.current].stat == Running
    ensures var (u, p, r) := ReceiveOn(s, q, timeout);
            && MqInv(u, p) && u.current == s.current
            && (r == Error <==> s.threads[s.current].code != Ok)
            && (if r.Node? then r.node in p.c.held && Messages(q.c) == [p.c.held[r.node]] + Messages(p.c)
                else Messages(p.c) == Messages(q.c))
            && (s.threads[s.current].code == Ok ==>
                  && (r.Node? <==> q.c.entry > 0) && (r == Refused <==> q.c.entry == 0 && timeout == 0)
                  && (r == Blocked <==> q.c.entry == 0 && timeout != 0))
            && (r == Blocked ==> Enters(s, q.receivers.list, q.order, timeout > 0, u))
            && (r != Blocked ==> p.receivers == Leave(s, q.receivers)) && (r == Error ==> u == s)
  {
    hide Inv, ChainOk, Messages, RoomInv, ReceiveTake, Enters;
    CurrentKnown(s);
    LeaveKeeps(s, q.receivers, q.c.entry);
    var p := q.(receivers := Leave(s, q.receivers));
    if s.threads[s.current].code == Ok { ReceiveTakeKeeps(s, p, timeout, true); }
  }

  lemma TimeoutKeepsMq(s: Sys, q: Mq, t: int)
    requires MqInv(s, q) && t in s.threads && s.threads[t].armed
    ensures s.threads[t].prio < |s.ready| && MqInv(Expire(s, t), q)
  {
    hide Core, ChainOk, RoomInv, NoLost, Expire;
    TimeoutKeeps(s, q.receivers, t, q.c.entry);
    TimeoutKeeps(s, q.senders, t, |q.c.spare|);
    ExpireKeeps(s, t);
  }

  /** A reset empties the queue and wakes every waiter; nodes in flight stay with their threads. */
  lemma ResetKeeps(s: Sys, q: Mq)
    requires MqInv(s, q)
    ensures var (u, p) := Reset(s, q);
            && MqInv(u, p) && u.current == s.current && Messages(p.c) == []
            && p.c.filling == q.c.filling && p.c.held == q.c.held && p.c.size == q.c.size
            && u.lists[q.receivers.list] == [] && u.lists[q.senders.list] == []
            && Woken(s, u, s.lists[q.receivers.list] + s.lists[q.senders.list])
  {
    hide Inv, ChainOk, Messages, ResumeAll, Drain;
    AllWoken(s, q.receivers.list, q.senders.list);
    FailAllKeeps(s, q.receivers);
    var u := ResumeAll(s, q.receivers.list);
    FailAllKeeps(u, q.senders);
    ResumeAllKeeps(u, q.senders.list);
    DrainKeeps(q.c);
    assert Drain(q.c).(entry := 0) == Drain(q.c);
  }

  // ---- runs

  ghost predicate Elsewhere(s: Sys, q: Mq, u: Sys) {
    && Inv(u) && u.threads.Keys == s.threads.Keys && SameRoom(s, u, q.receivers) && SameRoom(s, u, q.senders)
  }

  lemma ElsewhereKeeps(s: Sys, q: Mq, u: Sys)
    requires MqInv(s, q) && Elsewhere(s, q, u)
    ensures MqInv(u, q)
  {
    hide Inv, ChainOk;
    Bystander(s, u, q.receivers);
    Bystander(s, u, q.senders);
  }

  lemma ScheduleElsewhere(s: Sys, q: Mq)
    requires Inv(s) && RoomInv(s, q.receivers) && RoomInv(s, q.senders)
    ensures Elsewhere(s, q, Schedule(s))
  {
    hide Core, Schedule;
    ScheduleKeeps(s);
  }

  datatype Step = SendsTake(length: nat, timeout: int) | SendsOn(length: nat, timeout: int)
                | SendsLink(node: int, message: seq<int>, urgent: bool)
                | ReceivesTake(timeout: int) | ReceivesOn(timeout: int) | ReceivesPut(node: int, length: nat)
                | TimesOut(thread: int) | Resets | Others(after: Sys)

  ghost predicate Can(s: Sys, q: Mq, e: Step) {
    && s.current in s.threads
    && match e
       case SendsTake(_, timeout) => (Outside(s, q) && s.threads[s.current].stat == Running) || timeout == 0
       case ReceivesTake(timeout) => (Outside(s, q) && s.threads[s.current].stat == Running) || timeout == 0
       case SendsOn(length, _) =>
         length <= q.c.size && s.current in q.senders.inside && s.threads[s.current].stat == Running
       case ReceivesOn(_) => s.current in q.receivers.inside && s.threads[s.current].stat == Running
       case SendsLink(n, message, _) => n in q.c.filling && |message| <= q.c.size
       case ReceivesPut(n, _) => n in q.c.held
       case TimesOut(t) => t in s.threads && s.threads[t].armed
       case Others(u) => Elsewhere(s, q, u)
       case _ => true
  }

  ghost function Next(s: Sys, q: Mq, e: Step): (r: (Sys, Mq))
    requires MqInv(s, q) && Can(s, q, e)
    ensures MqInv(r.0, r.1)
  {
    match e
    case SendsTake(n, timeout) =>
      SendTakeKeeps(s, q, n, timeout, false); var (u, p, _) := SendTake(s, q, n, timeout, false); (u, p)
    case SendsOn(n, timeout) => SendOnKeeps(s, q, n, timeout); var (u, p, _) := SendOn(s, q, n, timeout); (u, p)
    case SendsLink(n, message, urgent) => SendLinkKeeps(s, q, n, message, urgent); SendLink(s, q, n, message, urgent)
    case ReceivesTake(timeout) =>
      ReceiveTakeKeeps(s, q, timeout, false); var (u, p, _) := ReceiveTake(s, q, timeout, false); (u, p)
    case ReceivesOn(timeout) => ReceiveOnKeeps(s, q, timeout); var (u, p, _) := ReceiveOn(s, q, timeout); (u, p)
    case ReceivesPut(n, length) =>
      ReceivePutKeeps(s, q, n, length); var (u, p, _) := ReceivePut(s, q, n, length); (u, p)
    case TimesOut(t) => TimeoutKeepsMq(s, q, t); (Expire(s, t), q)
    case Resets => ResetKeeps(s, q); Reset(s, q)
    case Others(u) => ElsewhereKeeps(s, q, u); (u, q)
  }

  /** Steps that cannot be taken where they stand are skipped. */
  ghost function Run(s: Sys, q: Mq, es: seq<Step>): (r: (Sys, Mq))
    requires MqInv(s, q)
    ensures MqInv(r.0, r.1)
    decreases |es|
  {
    if es == [] then (s, q)
    else if Can(s, q, es[0]) then
      var (u, p) := Next(s, q, es[0]);
      Run(u, p, es[1..])
    else Run(s, q, es[1..])
  }

  /** Over every interleaving of the two sections of every call, each node is in one place and no wake-up is lost. */
  lemma EveryNodeInOnePlace(s: Sys, q: Mq, es: seq<Step>)
    requires MqInv(s, q)
    ensures var (u, p) := Run(s, q, es);
            && p.c.entry == |p.c.queue| && Distinct(p.c.queue) && Distinct(p.c.spare)
            && (forall n | 0 <= n < p.c.max :: n in p.c.queue || n in p.c.spare || n in p.c.filling || n in p.c.held)
            && (forall n | n in p.c.queue :: n !in p.c.spare && n !in p.c.filling && n !in p.c.held)
            && (forall n | n in p.c.spare :: n !in p.c.filling && n !in p.c.held)
            && (forall n | n in p.c.filling :: n !in p.c.held)
            && p.receivers.list in u.lists && p.senders.list in u.lists
            && (u.lists[p.receivers.list] != [] ==> p.c.entry <= |p.receivers.woken|)
            && (u.lists[p.senders.list] != [] ==> |p.c.spare| <= |p.senders.woken|)
  {
  }
}
