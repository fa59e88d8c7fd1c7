/** Threads that wait for one more of something: the accounting behind "no wake-up is lost" (ipc.c). */
module WaitRoom {
  import opened Lists
  import opened Kernel

  /** `inside`: threads whose waiting call has not gone on; `woken`: those of them that were resumed for an item. */
  datatype Room = Room(list: int, inside: set<int>, woken: set<int>)

  ghost predicate RoomInv(s: Sys, w: Room) {
    && w.list in s.lists
    && w.woken <= w.inside
    && (forall t | t in s.lists[w.list] :: t in w.inside)
    && forall t | t in w.inside :: t in s.threads && InRoom(s, w, t)
  }

  /** A thread inside is suspended on the list, or was woken with RT_EOK, or was woken with an error. */
  ghost predicate InRoom(s: Sys, w: Room, t: int)
    requires w.list in s.lists && t in s.threads
  {
    if t in s.lists[w.list] then t !in w.woken && s.threads[t].code == Ok
    else !s.threads[t].armed && (t in w.woken <==> s.threads[t].code == Ok)
  }

  /** While anybody is suspended, there is a woken thread on its way for each of the n items. */
  ghost predicate NoLost(s: Sys, w: Room, n: int)
    requires w.list in s.lists
  {
    s.lists[w.list] != [] ==> n <= |w.woken|
  }

  /** The first waiter, if there is one, is resumed. */
  function WakeFirst(s: Sys, w: Room): (r: (Sys, Room))
    requires Inv(s) && w.list in s.lists
  {
    if s.lists[w.list] == [] then (s, w)
    else (ResumeFirst(s, w.list), w.(woken := w.woken + {s.lists[w.list][0]}))
  }

  /** The current thread starts to wait, with its timer if the wait is bounded. */
  function Enter(s: Sys, w: Room, order: Order, timed: bool): (r: (Sys, Room))
    requires Inv(s) && w.list in s.lists && s.threads[s.current].stat == Running
  {
    var t := s.current;
    EnterOk(s, t, w.list, order);
    var u := Wait(SetCode(s, t, Ok), w.list, t, order);
    (if timed then Arm(u, t, true) else u, w.(inside := w.inside + {t}))
  }

  /** The current thread goes on after its wait. */
  function Leave(s: Sys, w: Room): (r: Room) {
    w.(inside := w.inside - {s.current}, woken := w.woken - {s.current})
  }

  lemma EnterOk(s: Sys, t: int, l: int, order: Order)
    requires Inv(s) && l in s.lists && t == s.current && s.threads[t].stat == Running
    ensures var u := SetCode(s, t, Ok);
            && Inv(u) && u.threads[t].prio < |u.ready| && Known(u.threads, u.lists[l])
  {
    hide Core;
    CurrentKnown(s);
    PrioInRange(s, t);
    CurrentSettled(s);
    TouchCore(s, t, s.threads[t].(code := Ok), {});
    WaitKeeps(SetCode(s, t, Ok), l, t, order);
  }

  lemma CurrentSettled(s: Sys)
    requires Inv(s)
    ensures s.current in s.threads && (s.threads[s.current].armed ==> s.threads[s.current].stat == Suspended)
    ensures s.threads[s.current].stat == Running ==> Nowhere(s, s.current)
  {
    assert ThreadOk(s.threads[s.current], true, true);
    if s.threads[s.current].stat == Running { ActiveNowhere(s, s.current, {}); }
  }

  /** Neither the list nor the waiting state of the threads inside has changed. */
  ghost predicate SameRoom(s: Sys, u: Sys, w: Room) {
    && w.list in s.lists && w.list in u.lists && u.lists[w.list] == s.lists[w.list]
    && forall t | t in w.inside && t in s.threads && t in u.threads ::
         u.threads[t].code == s.threads[t].code && u.threads[t].armed == s.threads[t].armed
  }

  /** What does not touch the threads inside leaves the room as it is. */
  lemma Bystander(s: Sys, u: Sys, w: Room)
    requires RoomInv(s, w) && u.threads.Keys == s.threads.Keys && SameRoom(s, u, w)
    ensures RoomInv(u, w)
    ensures forall n | NoLost(s, w, n) :: NoLost(u, w, n)
  {
  }

  /** Others: any room of other threads on another list. */
  ghost predicate Separate(w: Room, v: Room) {
    w.list != v.list && w.inside !! v.inside
  }

  /** The first waiter, if there is one, can run again with RT_EOK and has left the list; nobody else changes. */
  ghost predicate WakesFirst(s: Sys, w: Room, u: Sys, x: Room) {
    && w.list in s.lists
    && if s.lists[w.list] == [] then u == s && x == w
       else
         var t := s.lists[w.list][0];
         && x == w.(woken := w.woken + {t}) && u.lists == s.lists[w.list := s.lists[w.list][1..]]
         && t in u.threads && RunsOn(u.threads[t], Ok) && u.threads.Keys == s.threads.Keys
         && forall y | y in s.threads && y != t :: u.threads[y] == s.threads[y]
  }

  lemma WakeKeeps(s: Sys, w: Room, n: int)
    requires Inv(s) && RoomInv(s, w) && NoLost(s, w, n)
    ensures var (u, x) := WakeFirst(s, w);
            && Inv(u) && SamePrio(s, u) && u.current == s.current && RoomInv(u, x) && NoLost(u, x, n + 1)
            && x.inside == w.inside && x.list == w.list && WakesFirst(s, w, u, x)
            && forall v | Separate(w, v) && RoomInv(s, v) :: RoomInv(u, v)
                 && forall m | NoLost(s, v, m) :: NoLost(u, v, m)
  {
    hide Inv, ResumeFirst;
    if s.lists[w.list] != [] {
      var t := s.lists[w.list][0];
      ResumeFirstKeeps(s, w.list);
      HeadOnce(s, w.list);
      var u := ResumeFirst(s, w.list);
      assert t in s.lists[w.list];
      forall v | Separate(w, v) && RoomInv(s, v)
          ensures RoomInv(u, v) && forall m | NoLost(s, v, m) :: NoLost(u, v, m) {
        Bystander(s, u, v);
      }
    }
  }

  lemma EnterKeeps(s: Sys, w: Room, order: Order, timed: bool)
    requires Inv(s) && RoomInv(s, w) && s.threads[s.current].stat == Running && s.current !in w.inside
    ensures var (u, x) := Enter(s, w, order, timed);
            && Inv(u) && SamePrio(s, u) && u.current == s.current && RoomInv(u, x) && NoLost(u, x, 0)
            && s.current in u.lists[w.list] && x == w.(inside := w.inside + {s.current})
            && Enters(s, w.list, order, timed, u)
            && forall v | Separate(w, v) && RoomInv(s, v) && s.current !in v.inside ::
                 RoomInv(u, v) && forall m | NoLost(s, v, m) :: NoLost(u, v, m)
  {
    hide Core, Wait;
    CurrentSettled(s);
    var t := s.current;
    EnterOk(s, t, w.list, order);
    var s1 := SetCode(s, t, Ok);
    WaitKeeps(s1, w.list, t, order);
    var u := Wait(s1, w.list, t, order);
    EnterEffect(s, w, order, timed);
    TouchCore(u, t, u.threads[t].(armed := true), {});
    var r := Enter(s, w, order, timed);
    forall v | Separate(w, v) && RoomInv(s, v) && t !in v.inside
      ensures RoomInv(r.0, v) && forall m | NoLost(s, v, m) :: NoLost(r.0, v, m)
    {
      Bystander(s, r.0, v);
    }
  }

  lemma EnterEffect(s: Sys, w: Room, order: Order, timed: bool)
    requires Inv(s) && w.list in s.lists && s.threads[s.current].stat == Running
    ensures Enters(s, w.list, order, timed, Enter(s, w, order, timed).0)
  {
    hide Core, Wait, Without;
    CurrentSettled(s);
    var t := s.current;
    EnterOk(s, t, w.list, order);
    var s1 := SetCode(s, t, Ok);
    WaitKeeps(s1, w.list, t, order);
    WaitPlaces(s1, w.list, t, order);
    assert !s.threads[t].armed;
  }

  /** A timeout takes a waiter off the list: nobody is woken for an item, and nobody more waits for one. */
  lemma TimeoutKeeps(s: Sys, w: Room, t: int, n: int)
    requires Inv(s) && RoomInv(s, w) && NoLost(s, w, n) && t in s.threads && s.threads[t].armed
    ensures s.threads[t].prio < |s.ready|
    ensures RoomInv(Expire(s, t), w) && NoLost(Expire(s, t), w, n)
  {
    hide Core, Expire;
    PrioInRange(s, t);
    ExpireKeeps(s, t);
    ListUnique(s, w.list);
    WithoutIn(s.lists[w.list], t);
  }

  lemma ListUnique(s: Sys, l: int)
    requires Inv(s) && l in s.lists
    ensures Distinct(s.lists[l])
  {
    assert ListOk(s.threads, s.lists[l], {});
  }

  /** A thread that goes on takes at most its own wake-up with it. */
  lemma LeaveKeeps(s: Sys, w: Room, n: int)
    requires Inv(s) && RoomInv(s, w) && NoLost(s, w, n) && s.threads[s.current].stat == Running
    ensures RoomInv(s, Leave(s, w)) && NoLost(s, Leave(s, w), n - 1)
    ensures s.threads[s.current].code != Ok ==> NoLost(s, Leave(s, w), n)
    ensures s.current in w.woken <==> s.current in w.inside && s.threads[s.current].code == Ok
    ensures Leave(s, w).list == w.list && forall t :: t in Leave(s, w).inside <==> t in w.inside && t != s.current
  {
    CurrentSettled(s);
    assert s.current !in s.lists[w.list];
    if s.current in w.woken {
      assert w.woken == (w.woken - {s.current}) + {s.current};
    } else {
      assert w.woken - {s.current} == w.woken;
    }
  }

  /** A reset wakes everybody with an error. */
  lemma FailAllKeeps(s: Sys, w: Room)
    requires Inv(s) && RoomInv(s, w)
    ensures var u := ResumeAll(s, w.list);
            && Inv(u) && SamePrio(s, u) && u.current == s.current && RoomInv(u, w) && u.lists[w.list] == []
            && forall v | Separate(w, v) && RoomInv(s, v) :: RoomInv(u, v)
                 && forall m | NoLost(s, v, m) :: NoLost(u, v, m)
  {
    hide Inv, ResumeAll;
    ResumeAllKeeps(s, w.list);
    var u := ResumeAll(s, w.list);
    forall v | Separate(w, v) && RoomInv(s, v) ensures RoomInv(u, v) && forall m | NoLost(s, v, m) :: NoLost(u, v, m) {
      Bystander(s, u, v);
    }
  }

  lemma AllWoken(s: Sys, l: int, m: int)
    requires Inv(s) && l in s.lists && m in s.lists && l != m
    ensures Inv(ResumeAll(s, l)) && m in ResumeAll(s, l).lists
    ensures Woken(s, ResumeAll(ResumeAll(s, l), m), s.lists[l] + s.lists[m])
  {
    hide Core, ResumeAll;
    assert forall t | t in s.lists[l] :: t !in s.lists[m] by { ListsApart(s, l, m); }
    ResumeAllKeeps(s, l);
    ResumeAllKeeps(ResumeAll(s, l), m);
  }

  lemma ListsApart(s: Sys, l: int, m: int)
    requires Inv(s) && l in s.lists && m in s.lists && l != m
    ensures forall t | t in s.lists[l] :: t !in s.lists[m]
  {
  }
}
