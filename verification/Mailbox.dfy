/** Mailboxes (ipc.c): a ring of mails between two waiting rooms. */
module Mailbox {
  import opened Kernel
  import opened WaitRoom

  const ENTRY_MAX: nat := 65535

  datatype Ring = Ring(pool: seq<int>, input: nat, output: nat, entry: nat)

  datatype Box = Box(ring: Ring, order: Order, receivers: Room, senders: Room)

  datatype Outcome = Sent | Got(mail: int) | Refused | Blocked | Error

  // ---- the ring as a bounded queue

  ghost predicate RingOk(b: Ring) {
    && |b.pool| <= ENTRY_MAX
    && b.entry <= |b.pool|
    && (if b.pool == [] then b.input == b.output == 0
        else b.output < |b.pool| && b.input == Wrap(|b.pool|, b.output + b.entry))
  }

  function Wrap(n: nat, i: nat): (j: nat)
    requires i < 2 * n
    ensures j < n && (j == i || j == i - n)
  {
    if i >= n then i - n else i
  }

  /** The mails in the order in which they will be received. */
  function Contents(b: Ring): (q: seq<int>)
    requires RingOk(b)
    ensures |q| == b.entry
    ensures forall i | 0 <= i < b.entry :: q[i] == b.pool[Wrap(|b.pool|, b.output + i)]
  {
    seq(b.entry, i requires 0 <= i < b.entry => b.pool[Wrap(|b.pool|, b.output + i)])
  }

  function Push(b: Ring, mail: int): (c: Ring)
    requires RingOk(b) && b.entry < |b.pool|
  {
    var input := if b.input + 1 >= |b.pool| then 0 else b.input + 1;
    b.(pool := b.pool[b.input := mail], input := input, entry := b.entry + 1)
  }

  function PushFront(b: Ring, mail: int): (c: Ring)
    requires RingOk(b) && b.entry < |b.pool|
  {
    var o := if b.output > 0 then b.output - 1 else |b.pool| - 1;
    b.(pool := b.pool[o := mail], output := o, entry := b.entry + 1)
  }

  function Pop(b: Ring): (r: (Ring, int))
    requires RingOk(b) && b.entry > 0
  {
    (b.(output := if b.output + 1 >= |b.pool| then 0 else b.output + 1, entry := b.entry - 1), b.pool[b.output])
  }

  lemma PushAppends(b: Ring, mail: int)
    requires RingOk(b) && b.entry < |b.pool|
    ensures RingOk(Push(b, mail)) && Contents(Push(b, mail)) == Contents(b) + [mail]
  {
    var c := Push(b, mail);
    assert RingOk(c);
    forall i | 0 <= i <= b.entry ensures Contents(c)[i] == (Contents(b) + [mail])[i] {
      assert i < b.entry ==> Wrap(|b.pool|, b.output + i) != b.input;
    }
  }

  lemma PushFrontPrepends(b: Ring, mail: int)
    requires RingOk(b) && b.entry < |b.pool|
    ensures RingOk(PushFront(b, mail)) && Contents(PushFront(b, mail)) == [mail] + Contents(b)
  {
    var c := PushFront(b, mail);
    assert RingOk(c);
    forall i | 0 <= i <= b.entry ensures Contents(c)[i] == ([mail] + Contents(b))[i] {
      if i > 0 { assert Wrap(|b.pool|, c.output + i) == Wrap(|b.pool|, b.output + (i - 1)) != c.output; }
    }
  }

  lemma PopTakesFirst(b: Ring)
    requires RingOk(b) && b.entry > 0
    ensures RingOk(Pop(b).0) && Contents(b) == [Pop(b).1] + Contents(Pop(b).0)
  {
    var c := Pop(b).0;
    assert RingOk(c);
    forall i | 0 <= i < b.entry ensures Contents(b)[i] == ([Pop(b).1] + Contents(c))[i] {
      if i > 0 { assert Wrap(|b.pool|, c.output + (i - 1)) == Wrap(|b.pool|, b.output + i); }
    }
  }

  // ---- the calls, each up to where it schedules

  /** Both rooms and the ring, with a woken receiver for each of `items` and a woken sender for each of `slots`. */
  ghost predicate Awake(s: Sys, b: Box, items: int, slots: int) {
    && Inv(s) && RingOk(b.ring)
    && RoomInv(s, b.receivers) && RoomInv(s, b.senders) && Separate(b.receivers, b.senders)
    && NoLost(s, b.receivers, items) && NoLost(s, b.senders, slots)
  }

  /** No wake-up is lost on either side. */
  ghost predicate BoxInv(s: Sys, b: Box) {
    Awake(s, b, b.ring.entry, |b.ring.pool| - b.ring.entry)
  }

  /** `rt_mb_send_wait` from the test for a full box; `again` on the later rounds of its loop. */
  function Send(s: Sys, b: Box, mail: int, timeout: int, again: bool): (r: (Sys, Box, Outcome))
    requires Inv(s) && RingOk(b.ring) && b.receivers.list in s.lists && b.senders.list in s.lists
    requires s.threads[s.current].stat == Running || timeout == 0
  {
    CurrentKnown(s);
    if b.ring.entry == |b.ring.pool| then
      if timeout == 0 then (if again then SetCode(s, s.current, Ok) else s, b, Refused)
      else
        var (u, room) := Enter(s, b.senders, b.order, timeout > 0);
        (u, b.(senders := room), Blocked)
    else
      var (u, room) := WakeFirst(s, b.receivers);
      (u, b.(ring := Push(b.ring, mail), receivers := room), Sent)
  }

  /** `rt_mb_urgent`. */
  function Urgent(s: Sys, b: Box, mail: int): (r: (Sys, Box, Outcome))
    requires Inv(s) && RingOk(b.ring) && b.receivers.list in s.lists
  {
    if b.ring.entry == |b.ring.pool| then (s, b, Refused)
    else
      var (u, room) := WakeFirst(s, b.receivers);
      (u, b.(ring := PushFront(b.ring, mail), receivers := room), Sent)
  }

  /** `rt_mb_recv` from the test for an empty box. */
  function Receive(s: Sys, b: Box, timeout: int, again: bool): (r: (Sys, Box, Outcome))
    requires Inv(s) && RingOk(b.ring) && b.receivers.list in s.lists && b.senders.list in s.lists
    requires s.threads[s.current].stat == Running || timeout == 0
  {
    CurrentKnown(s);
    if b.ring.entry == 0 then
      if timeout == 0 then (if again then SetCode(s, s.current, TimedOut) else s, b, Refused)
      else
        var (u, room) := Enter(s, b.receivers, b.order, timeout > 0);
        (u, b.(receivers := room), Blocked)
    else
      var (ring, mail) := Pop(b.ring);
      var (u, room) := WakeFirst(s, b.senders);
      (u, b.(ring := ring, senders := room), Got(mail))
  }

  /** `rt_mb_control` with RT_IPC_CMD_RESET. */
  function Reset(s: Sys, b: Box): (r: (Sys, Box))
    requires Inv(s) && b.receivers.list in s.lists && b.senders.list in s.lists
  {
    ResumeAllKeeps(s, b.receivers.list);
    (ResumeAll(ResumeAll(s, b.receivers.list), b.senders.list),
        b.(ring := b.ring.(entry := 0, input := 0, output := 0)))
  }

  ghost predicate Outside(s: Sys, b: Box) {
    s.current !in b.receivers.inside && s.current !in b.senders.inside
  }

  lemma SendKeeps(s: Sys, b: Box, mail: int, timeout: int, again: bool)
    requires Awake(s, b, b.ring.entry, |b.ring.pool| - b.ring.entry - 1)
    requires (Outside(s, b) && s.threads[s.current].stat == Running) || (timeout == 0 && !again)
    ensures var (u, c, r) := Send(s, b, mail, timeout, again);
            && BoxInv(u, c) && u.current == s.current && SamePrio(s, u)
            && Contents(c.ring) == (if r == Sent then Contents(b.ring) + [mail] else Contents(b.ring))
            && r == (if b.ring.entry < |b.ring.pool| then Sent else if timeout == 0 then Refused else Blocked)
            && (r == Sent ==> WakesFirst(s, b.receivers, u, c.receivers) && c.senders == b.senders)
            && (r == Refused ==> c == b && u == if again then SetCode(s, s.current, Ok) else s)
            && (r == Blocked ==> Enters(s, b.senders.list, b.order, timeout > 0, u)
                                 && c == b.(senders := b.senders.(inside := b.senders.inside + {s.current})))
  {
    hide Inv, Contents, RoomInv, WakeFirst, Enter, Push, Enters, WakesFirst;
    CurrentKnown(s);
    if b.ring.entry < |b.ring.pool| {
      PushAppends(b.ring, mail);
      PushSize(b.ring, mail);
      WakeKeeps(s, b.receivers, b.ring.entry);
    } else if timeout != 0 {
      EnterKeeps(s, b.senders, b.order, timeout > 0);
    } else if again {
      NoteKeeps(s, b, Ok);
    }
  }

  lemma PushSize(b: Ring, mail: int)
    requires RingOk(b) && b.entry < |b.pool|
    ensures Push(b, mail).entry == b.entry + 1 && |Push(b, mail).pool| == |b.pool|
    ensures PushFront(b, mail).entry == b.entry + 1 && |PushFront(b, mail).pool| == |b.pool|
  {
  }

  /** A thread outside of the rooms may set its own error number. */
  lemma NoteKeeps(s: Sys, b: Box, c: Code)
    requires Inv(s) && RoomInv(s, b.receivers) && RoomInv(s, b.senders) && Outside(s, b)
    requires s.threads[s.current].stat == Running
    ensures s.current in s.threads
    ensures var u := SetCode(s, s.current, c);
            && Inv(u) && SamePrio(s, u) && u.lists == s.lists && RoomInv(u, b.receivers) && RoomInv(u, b.senders)
  {
    hide Core;
    CurrentSettled(s);
    TouchCore(s, s.current, s.threads[s.current].(code := c), {});
    Bystander(s, SetCode(s, s.current, c), b.receivers);
    Bystander(s, SetCode(s, s.current, c), b.senders);
  }

  lemma UrgentKeeps(s: Sys, b: Box, mail: int)
    requires BoxInv(s, b)
    ensures var (u, c, r) := Urgent(s, b, mail);
            && BoxInv(u, c) && u.current == s.current && SamePrio(s, u)
            && Contents(c.ring) == (if r == Sent then [mail] + Contents(b.ring) else Contents(b.ring))
            && r == (if b.ring.entry < |b.ring.pool| then Sent else Refused)
            && (r == Sent ==> WakesFirst(s, b.receivers, u, c.receivers) && c.senders == b.senders)
            && (r == Refused ==> c == b && u == s)
  {
    hide Inv, Contents, RoomInv, WakeFirst, PushFront, WakesFirst;
    if b.ring.entry < |b.ring.pool| {
      PushFrontPrepends(b.ring, mail);
      assert PushFront(b.ring, mail).entry == b.ring.entry + 1 && |PushFront(b.ring, mail).pool| == |b.ring.pool| by {
        PushSize(b.ring, mail);
      }
      WakeKeeps(s, b.receivers, b.ring.entry);
    }
  }

  lemma ReceiveKeeps(s: Sys, b: Box, timeout: int, again: bool)
    requires Awake(s, b, b.ring.entry - 1, |b.ring.pool| - b.ring.entry)
    requires (Outside(s, b) && s.threads[s.current].stat == Running) || (timeout == 0 && !again)
    ensures var (u, c, r) := Receive(s, b, timeout, again);
            && BoxInv(u, c) && u.current == s.current && SamePrio(s, u)
            && (r.Got? <==> b.ring.entry > 0) && (r == Refused <==> b.ring.entry == 0 && timeout == 0)
            && (r == Blocked <==> b.ring.entry == 0 && timeout != 0)
            && (if r.Got? then Contents(b.ring) == [r.mail] + Contents(c.ring)
                 else Contents(c.ring) == Contents(b.ring))
            && (r.Got? ==> WakesFirst(s, b.senders, u, c.senders) && c.receivers == b.receivers)
            && (r == Refused ==> c == b && u == if again then SetCode(s, s.current, TimedOut) else s)
            && (r == Blocked ==> Enters(s, b.receivers.list, b.order, timeout > 0, u)
                                 && c == b.(receivers := b.receivers.(inside := b.receivers.inside + {s.current})))
  {
    hide Inv, Contents, RoomInv, WakeFirst, Enter, Enters, WakesFirst;
    CurrentKnown(s);
    if b.ring.entry > 0 {
      PopTakesFirst(b.ring);
      WakeKeeps(s, b.senders, |b.ring.pool| - b.ring.entry);
    } else if timeout != 0 {
      EnterKeeps(s, b.receivers, b.order, timeout > 0);
    } else if again {
      NoteKeeps(s, b, TimedOut);
    }
  }

  // ---- threads that go on after a wait

  /** A woken sender returns its error, or tests the box again with what is left of its time. */
  function SendOn(s: Sys, b: Box, mail: int, timeout: int): (r: (Sys, Box, Outcome))
    requires Inv(s) && RingOk(b.ring) && b.receivers.list in s.lists && b.senders.list in s.lists
    requires s.threads[s.current].stat == Running
  {
    var c := b.(senders := Leave(s, b.senders));
    if s.threads[s.current].code != Ok then (s, c, Error) else Send(s, c, mail, timeout, true)
  }

  function ReceiveOn(s: Sys, b: Box, timeout: int): (r: (Sys, Box, Outcome))
    requires Inv(s) && RingOk(b.ring) && b.receivers.list in s.lists && b.senders.list in s.lists
    requires s.threads[s.current].stat == Running
  {
    var c := b.(receivers := Leave(s, b.receivers));
    if s.threads[s.current].code != Ok then (s, c, Error) else Receive(s, c, timeout, true)
  }

  lemma SendOnKeeps(s: Sys, b: Box, mail: int, timeout: int)
    requires BoxInv(s, b) && s.current in b.senders.inside && s.threads[s.current].stat == Running
    ensures var (u, c, r) := SendOn(s, b, mail, timeout);
            && BoxInv(u, c) && u.current == s.current && SamePrio(s, u)
            && Contents(c.ring) == (if r == Sent then Contents(b.ring) + [mail] else Contents(b.ring))
            && r == (if s.threads[s.current].code != Ok then Error else if b.ring.entry < |b.ring.pool| then Sent
                     else if timeout == 0 then Refused else Blocked)
            && (r == Blocked ==> Enters(s, b.senders.list, b.order, timeout > 0, u))
            && (r != Blocked ==> c.senders == Leave(s, b.senders))
            && (r == Error ==> u == s)
  {
    hide Inv, Contents, RoomInv, Send, Enters;
    CurrentKnown(s);
    LeaveKeeps(s, b.senders, |b.ring.pool| - b.ring.entry);
    var c := b.(senders := Leave(s, b.senders));
    if s.threads[s.current].code == Ok { SendKeeps(s, c, mail, timeout, true); }
  }

  lemma ReceiveOnKeeps(s: Sys, b: Box, timeout: int)
    requires BoxInv(s, b) && s.current in b.receivers.inside && s.threads[s.current].stat == Running
    ensures var (u, c, r) := ReceiveOn(s, b, timeout);
            && BoxInv(u, c) && u.current == s.current && SamePrio(s, u)
            && (if r.Got? then Contents(b.ring) == [r.mail] + Contents(c.ring)
                 else Contents(c.ring) == Contents(b.ring))
            && (r == Error <==> s.threads[s.current].code != Ok)
            && (s.threads[s.current].code == Ok ==>
                  && (r.Got? <==> b.ring.entry > 0)
                  && (r == Refused <==> b.ring.entry == 0 && timeout == 0)
                  && (r == Blocked <==> b.ring.entry == 0 && timeout != 0))
            && (r == Blocked ==> Enters(s, b.receivers.list, b.order, timeout > 0, u))
            && (r != Blocked ==> c.receivers == Leave(s, b.receivers))
            && (r == Error ==> u == s)
  {
    hide Inv, Contents, RoomInv, Receive, Enters;
    CurrentKnown(s);
    LeaveKeeps(s, b.receivers, b.ring.entry);
    var c := b.(receivers := Leave(s, b.receivers));
    if s.threads[s.current].code == Ok { ReceiveKeeps(s, c, timeout, true); }
  }

  lemma TimeoutKeepsBox(s: Sys, b: Box, t: int)
    requires BoxInv(s, b) && t in s.threads && s.threads[t].armed
    ensures s.threads[t].prio < |s.ready| && BoxInv(Expire(s, t), b)
  {
    hide Core, RoomInv, NoLost, Expire;
    TimeoutKeeps(s, b.receivers, t, b.ring.entry);
    TimeoutKeeps(s, b.senders, t, |b.ring.pool| - b.ring.entry);
    ExpireKeeps(s, t);
  }

  /** A reset empties the box and wakes every waiter with an error. */
  lemma ResetKeeps(s: Sys, b: Box)
    requires BoxInv(s, b)
    ensures var (u, c) := Reset(s, b);
            && BoxInv(u, c) && u.current == s.current && SamePrio(s, u) && Contents(c.ring) == []
            && u.lists[b.receivers.list] == [] && u.lists[b.senders.list] == []
            && Woken(s, u, s.lists[b.receivers.list] + s.lists[b.senders.list])
  {
    hide Inv, ResumeAll;
    FailAllKeeps(s, b.receivers);
    var u := ResumeAll(s, b.receivers.list);
    FailAllKeeps(u, b.senders);
    ResumeAllKeeps(u, b.senders.list);
    AllWoken(s, b.receivers.list, b.senders.list);
  }

  // ---- runs

  /** What the rest of the system may do: anything that leaves the waiters of this box alone. */
  ghost predicate Elsewhere(s: Sys, b: Box, u: Sys) {
    && Inv(u) && u.threads.Keys == s.threads.Keys && SameRoom(s, u, b.receivers) && SameRoom(s, u, b.senders)
  }

  lemma ElsewhereKeeps(s: Sys, b: Box, u: Sys)
    requires BoxInv(s, b) && Elsewhere(s, b, u)
    ensures BoxInv(u, b)
  {
    hide Inv;
    Bystander(s, u, b.receivers);
    Bystander(s, u, b.senders);
  }

  /** A schedule is such a step, so the section and the schedule after it may be apart. */
  lemma ScheduleElsewhere(s: Sys, b: Box)
    requires BoxInv(s, b)
    ensures Elsewhere(s, b, Schedule(s))
  {
    hide Core, Schedule;
    ScheduleKeeps(s);
  }

  datatype Step = Sends(mail: int, timeout: int) | Urgents(mail: int) | Receives(timeout: int)
                | SendsOn(mail: int, timeout: int) | ReceivesOn(timeout: int)
                | TimesOut(thread: int) | Resets | Others(after: Sys)

  ghost predicate Can(s: Sys, b: Box, e: Step) {
    && s.current in s.threads
    && match e
       case Sends(_, timeout) => (Outside(s, b) && s.threads[s.current].stat == Running) || timeout == 0
       case Receives(timeout) => (Outside(s, b) && s.threads[s.current].stat == Running) || timeout == 0
       case SendsOn(_, _) => s.current in b.senders.inside && s.threads[s.current].stat == Running
       case ReceivesOn(_) => s.current in b.receivers.inside && s.threads[s.current].stat == Running
       case TimesOut(t) => t in s.threads && s.threads[t].armed
       case Others(u) => Elsewhere(s, b, u)
       case _ => true
  }

  ghost function Next(s: Sys, b: Box, e: Step): (r: (Sys, Box))
    requires BoxInv(s, b) && Can(s, b, e)
    ensures BoxInv(r.0, r.1)
  {
    match e
    case Sends(mail, timeout) =>
      SendKeeps(s, b, mail, timeout, false); var (u, c, _) := Send(s, b, mail, timeout, false); (u, c)
    case Urgents(mail) => UrgentKeeps(s, b, mail); var (u, c, _) := Urgent(s, b, mail); (u, c)
    case Receives(timeout) => ReceiveKeeps(s, b, timeout, false); var (u, c, _) := Receive(s, b, timeout, false); (u, c)
    case SendsOn(mail, timeout) =>
      SendOnKeeps(s, b, mail, timeout); var (u, c, _) := SendOn(s, b, mail, timeout); (u, c)
    case ReceivesOn(timeout) => ReceiveOnKeeps(s, b, timeout); var (u, c, _) := ReceiveOn(s, b, timeout); (u, c)
    case TimesOut(t) => TimeoutKeepsBox(s, b, t); (Expire(s, t), b)
    case Resets => ResetKeeps(s, b); Reset(s, b)
    case Others(u) => ElsewhereKeeps(s, b, u); (u, b)
  }

  /** Steps that cannot be taken where they stand are skipped. */
  ghost function Run(s: Sys, b: Box, es: seq<Step>): (r: (Sys, Box))
    requires BoxInv(s, b)
    ensures BoxInv(r.0, r.1)
    decreases |es|
  {
    if es == [] then (s, b)
    else if Can(s, b, es[0]) then
      var (u, c) := Next(s, b, es[0]);
      Run(u, c, es[1..])
    else Run(s, b, es[1..])
  }

  /** Over every interleaving: while a receiver is suspended, each mail in the box has a woken receiver on its way. */
  lemma NoWakeupLost(s: Sys, b: Box, es: seq<Step>)
    requires BoxInv(s, b)
    ensures var (u, c) := Run(s, b, es);
            && c.receivers.list in u.lists && c.senders.list in u.lists
            && (u.lists[c.receivers.list] != [] ==> c.ring.entry <= |c.receivers.woken|)
            && (u.lists[c.senders.list] != [] ==> |c.ring.pool| - c.ring.entry <= |c.senders.woken|)
            && (forall t | t in c.receivers.woken + c.senders.woken :: t in u.threads && u.threads[t].code == Ok)
            && (u.lists[c.receivers.list] != [] && c.receivers.woken == {} ==> c.ring.entry == 0)
            && (u.lists[c.senders.list] != [] && c.senders.woken == {} ==> c.ring.entry == |c.ring.pool|)
  {
  }
}
