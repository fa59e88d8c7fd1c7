/** Mutexes with priority inheritance (ipc.c), as steps between interrupt-disabled sections. */
module Mutex {
  import opened Lists
  import opened Bits
  import opened Kernel

  const HOLD_MAX: nat := 255
  const VALUE_MAX: nat := 65535
  const NO_PRIORITY: nat := 255

  datatype Owner = Nobody | Held(thread: int)

  /** `list` names the suspend list; `waiting` are the threads inside a take that has not returned. */
  datatype State = State(value: nat, owner: Owner, original: nat, hold: nat, order: Order, list: int, waiting: set<int>)

  datatype Outcome = Taken | Refused | Full | NotOwner | Blocked | Released(wake: bool)

  ghost predicate Usable(s: Sys, m: State) {
    && Inv(s)
    && m.list in s.lists
    && (m.owner.Held? ==> m.owner.thread in s.threads)
    && (m.owner == Nobody ==> m.value > 0 && s.lists[m.list] == [])
  }

  /** The first section of `rt_mutex_take`, up to the schedule of a thread that has to wait. */
  function Take(s: Sys, m: State, time: int): (r: (Sys, State, Outcome))
    requires Usable(s, m) && s.threads[s.current].stat == Running
  {
    var t := s.current;
    ClearKeeps(s, t, Ok);
    var s0 := SetCode(s, t, Ok);
    if m.owner == Held(t) then
      if m.hold < HOLD_MAX then (s0, m.(hold := m.hold + 1), Taken) else (s0, m, Full)
    else if m.value > 0 then
      var m1 := m.(value := m.value - 1, owner := Held(t), original := s.threads[t].prio);
      if m.hold < HOLD_MAX then (s0, m1.(hold := m.hold + 1), Taken) else (s0, m1, Full)
    else if time == 0 then (SetCode(s0, t, TimedOut), m, Refused)
    else
      var (s1, m1) := Block(s0, m, time);
      (s1, m1, Blocked)
  }

  /** The owner inherits, and the caller goes on the suspend list with its timer running if the wait is bounded. */
  function Block(s: Sys, m: State, time: int): (r: (Sys, State))
    requires Usable(s, m) && m.owner.Held? && s.threads[s.current].stat == Running
  {
    var t := s.current;
    PrioInRange(s, t);
    var s1 := Inherit(s, m.owner.thread, s.threads[t].prio);
    InheritKeeps(s, m.owner.thread, s.threads[t].prio);
    WaitKeeps(s1, m.list, t, m.order);
    PrioInRange(s1, t);
    var s2 := Wait(s1, m.list, t, m.order);
    (if time > 0 then Arm(s2, t, true) else s2, m.(waiting := m.waiting + {t}))
  }

  /** The owner takes over a more urgent priority. */
  function Inherit(s: Sys, owner: int, p: nat): (u: Sys)
    requires Inv(s) && owner in s.threads && p < PRIORITY_MAX
  {
    PrioInRange(s, owner);
    if p < s.threads[owner].prio then ChangePriority(s, owner, p) else s
  }

  lemma ClearKeeps(s: Sys, t: int, c: Code)
    requires Inv(s) && t in s.threads
    ensures Inv(SetCode(s, t, c)) && s.threads[t].prio < PRIORITY_MAX
  {
    PrioInRange(s, t);
    TouchCore(s, t, s.threads[t].(code := c), {}) by { assert ThreadOk(s.threads[t], true, t == s.current); }
  }

  /** At most one thread's priority changes, and it only gets more urgent. */
  lemma InheritKeeps(s: Sys, owner: int, p: nat)
    requires Inv(s) && owner in s.threads && p < PRIORITY_MAX
    ensures var u := Inherit(s, owner, p);
            && Inv(u) && u.lists == s.lists && u.current == s.current && u.locks == s.locks
            && u.threads == s.threads[owner := u.threads[owner]]
            && u.threads[owner] == s.threads[owner].(prio := u.threads[owner].prio, mask := u.threads[owner].mask)
            && u.threads[owner].prio == (if p < s.threads[owner].prio then p else s.threads[owner].prio)
  {
    ChangePriorityKeeps(s, owner, p);
  }

  /** The section of `rt_mutex_release`; `wake` tells that a schedule follows. */
  function Release(s: Sys, m: State): (r: (Sys, State, Outcome))
    requires Usable(s, m) && (m.owner == Held(s.current) ==> m.hold > 0 && m.original < PRIORITY_MAX)
  {
    var t := s.current;
    if m.owner != Held(t) then (SetCode(s, t, Failed), m, NotOwner)
    else if m.hold > 1 then (s, m.(hold := m.hold - 1), Released(false))
    else
      var s1 := Restore(s, t, m.original);
      RestoreKeeps(s, t, m.original);
      if s.lists[m.list] != [] then
        var (s2, m1) := Grant(s1, m.(hold := 0));
        (s2, m1, Released(true))
      else if m.value < VALUE_MAX then
        (s1, m.(hold := 0, value := m.value + 1, owner := Nobody, original := NO_PRIORITY), Released(false))
      else (s1, m.(hold := 0), Full)
  }

  function Restore(s: Sys, t: int, p: nat): (u: Sys)
    requires Inv(s) && t in s.threads && p < PRIORITY_MAX
  {
    PrioInRange(s, t);
    if p != s.threads[t].prio then ChangePriority(s, t, p) else s
  }

  lemma RestoreKeeps(s: Sys, t: int, p: nat)
    requires Inv(s) && t in s.threads && p < PRIORITY_MAX
    ensures var u := Restore(s, t, p);
            && Inv(u) && u.lists == s.lists && u.current == s.current && u.locks == s.locks
            && u.threads == s.threads[t := u.threads[t]]
            && u.threads[t] == s.threads[t].(prio := p, mask := u.threads[t].mask)
  {
    ChangePriorityKeeps(s, t, p);
  }

  /** The first waiter becomes the owner; among waiters in arrival order it takes the most urgent priority. */
  function Grant(s: Sys, m: State): (r: (Sys, State))
    requires Inv(s) && m.list in s.lists && s.lists[m.list] != [] && m.hold < HOLD_MAX
  {
    FirstWaits(s, m.list);
    ListsKnown(s, m.list);
    var t := s.lists[m.list][0];
    PrioInRange(s, t);
    var top := HighestOf(s.threads, s.lists[m.list], 0, PRIORITY_MAX - 1);
    var s1 := if m.order == Fifo && s.threads[t].prio != top then ChangePriority(s, t, top) else s;
    ChangePriorityKeeps(s, t, top);
    (ResumeFirst(s1, m.list), m.(owner := Held(t), original := s.threads[t].prio, hold := m.hold + 1))
  }

  // ---- the invariant

  ghost predicate MutexInv(s: Sys, m: State, home: map<int, nat>) {
    && Inv(s)
    && m.list in s.lists
    && home.Keys == s.threads.Keys && (forall t | t in home :: home[t] < PRIORITY_MAX)
    && m.hold <= HOLD_MAX
    && (if m.owner == Nobody then m.value == 1 && m.hold == 0 && s.lists[m.list] == []
        else m.value == 0 && m.hold > 0 && Owned(s, m, m.owner.thread, home))
    && (forall t | t in s.threads && m.owner != Held(t) :: s.threads[t].prio == home[t])
    && (m.order == Prio ==> ByPriority(s.threads, s.lists[m.list]))
    && (forall t | t in m.waiting :: t in s.threads && Told(s, m, t))
    && (forall t | t in s.lists[m.list] :: t in m.waiting)
  }

  /** The owner is at least as urgent as at home and as every waiter, and does not wait itself. */
  ghost predicate Owned(s: Sys, m: State, o: int, home: map<int, nat>)
    requires m.list in s.lists && home.Keys == s.threads.Keys
  {
    && o in s.threads && m.original == home[o]
    && s.threads[o].prio <= home[o]
    && o !in s.lists[m.list]
    && forall w | w in s.lists[m.list] :: w in s.threads && s.threads[o].prio <= s.threads[w].prio
  }

  /** Inside a take, a thread waits, or owns the mutex with RT_EOK, or carries an error and owns nothing. */
  ghost predicate Told(s: Sys, m: State, t: int)
    requires m.list in s.lists && t in s.threads
  {
    if t in s.lists[m.list] then s.threads[t].code == Ok
    else !s.threads[t].armed && (s.threads[t].code == Ok <==> m.owner == Held(t))
  }

  // ---- every step keeps it

  lemma InvUsable(s: Sys, m: State, home: map<int, nat>)
    requires MutexInv(s, m, home)
    ensures Usable(s, m) && (m.owner.Held? ==> m.hold > 0 && m.original < PRIORITY_MAX)
  {
    if m.owner.Held? {
      PrioInRange(s, m.owner.thread);
      assert m.original == home[m.owner.thread];
    }
  }

  /** Only the running thread's error number changes. */
  lemma ClearSame(s: Sys, m: State, home: map<int, nat>, c: Code)
    requires MutexInv(s, m, home) && s.threads[s.current].stat == Running && s.current !in m.waiting
    ensures MutexInv(SetCode(s, s.current, c), m, home)
    ensures s.current !in s.lists[m.list]
  {
    hide Core;
    CurrentKnown(s);
    ClearKeeps(s, s.current, c);
    var u := SetCode(s, s.current, c);
    assert m.order == Prio ==> ByPriority(u.threads, u.lists[m.list]);
  }

  /** Taking: the caller owns the mutex, is refused, or is the one newcomer on the list. */
  lemma TakeKeeps(s: Sys, m: State, home: map<int, nat>, time: int)
    requires MutexInv(s, m, home) && s.threads[s.current].stat == Running && s.current !in m.waiting
    ensures Usable(s, m) && MutexInv(Take(s, m, time).0, Take(s, m, time).1, home)
    ensures var (u, n, r) := Take(s, m, time);
            && r == (if m.owner == Nobody then Taken
                     else if m.owner == Held(s.current) then if m.hold < HOLD_MAX then Taken else Full
                     else if time == 0 then Refused else Blocked)
            && (r == Taken ==>
                  n == if m.owner == Nobody
                       then m.(value := 0, owner := Held(s.current), original := s.threads[s.current].prio, hold := 1)
                       else m.(hold := m.hold + 1))
            && (r == Full || r == Refused ==> n == m)
            && (r != Blocked ==> u == SetCode(s, s.current, if r == Refused then TimedOut else Ok))
            && (r == Blocked ==> n == m.(waiting := m.waiting + {s.current}) && Blocks(s, m, time, u))
  {
    hide Core, Block, Blocks;
    CurrentKnown(s);
    InvUsable(s, m, home);
    var t := s.current;
    ClearSame(s, m, home, Ok);
    var s0 := SetCode(s, t, Ok);
    ClearSame(s0, m, home, TimedOut);
    if m.owner == Held(t) {
    } else if m.value > 0 {
      assert home[t] == s.threads[t].prio;
    } else if time == 0 {
    } else {
      BlockKeeps(s0, m, home, time);
      BlockEffect(s0, m, time);
      BlocksFrom(s, m, time, Block(s0, m, time).0);
    }
  }

  /** A take that has to wait: the owner has the more urgent of its own and the taker's priority, the taker is
      suspended behind the others or at the place of its priority, and nobody else changes. */
  ghost predicate Blocks(s: Sys, m: State, time: int, u: Sys) {
    && m.owner.Held? && m.list in s.lists && m.list in u.lists
    && s.current in s.threads && u.threads.Keys == s.threads.Keys && m.owner.thread in s.threads
    && var t, o := s.current, m.owner.thread;
       && u.threads[o].prio == (if s.threads[t].prio < s.threads[o].prio then s.threads[t].prio else s.threads[o].prio)
       && u.threads[o] == s.threads[o].(prio := u.threads[o].prio, mask := u.threads[o].mask)
       && u.threads[t] == s.threads[t].(stat := Suspended, armed := time > 0, code := Ok)
       && (forall x | x in s.threads && x != t && x != o :: u.threads[x] == s.threads[x])
       && t in u.lists[m.list] && Without(u.lists[m.list], t) == s.lists[m.list]
       && (m.order == Fifo ==> u.lists[m.list] == s.lists[m.list] + [t])
       && u.current == t
  }

  lemma BlockKeeps(s: Sys, m: State, home: map<int, nat>, time: int)
    requires MutexInv(s, m, home) && s.threads[s.current].stat == Running && s.current !in m.waiting
    requires m.owner.Held? && m.owner != Held(s.current) && s.threads[s.current].code == Ok
    requires s.threads[s.current].prio < PRIORITY_MAX && s.current !in s.lists[m.list]
    ensures MutexInv(Block(s, m, time).0, Block(s, m, time).1, home)
  {
    hide Core, Wait, Inherit;
    CurrentKnown(s);
    var t, o := s.current, m.owner.thread;
    InheritKeeps(s, o, s.threads[t].prio);
    var s1 := Inherit(s, o, s.threads[t].prio);
    WaitKeeps(s1, m.list, t, m.order);
    PrioInRange(s1, t);
    var s2 := Wait(s1, m.list, t, m.order);
    if m.order == Prio {
      assert ByPriority(s1.threads, s1.lists[m.list]);
      WaitInOrder(s1, m.list, t);
    }
    ArmKeeps(s2, m.(waiting := m.waiting + {t}), home, t);
  }

  lemma BlockEffect(s: Sys, m: State, time: int)
    requires Usable(s, m) && m.owner.Held? && m.owner != Held(s.current) && s.threads[s.current].stat == Running
    requires s.threads[s.current].code == Ok
    ensures Block(s, m, time).1 == m.(waiting := m.waiting + {s.current}) && Blocks(s, m, time, Block(s, m, time).0)
  {
    hide Core, Wait, Inherit, Without;
    CurrentKnown(s);
    var t, o := s.current, m.owner.thread;
    PrioInRange(s, t);
    InheritKeeps(s, o, s.threads[t].prio);
    var s1 := Inherit(s, o, s.threads[t].prio);
    WaitKeeps(s1, m.list, t, m.order);
    WaitPlaces(s1, m.list, t, m.order);
  }

  lemma BlocksFrom(s: Sys, m: State, time: int, u: Sys)
    requires s.current in s.threads && m.owner != Held(s.current) && Blocks(SetCode(s, s.current, Ok), m, time, u)
    ensures Blocks(s, m, time, u)
  {
    hide Without;
  }

  lemma ArmKeeps(s: Sys, m: State, home: map<int, nat>, t: int)
    requires MutexInv(s, m, home) && t in s.threads && t in s.lists[m.list]
    ensures MutexInv(Arm(s, t, true), m, home)
  {
    hide Core;
    assert s.threads[t].stat == Suspended by { WaiterSuspended(s, m.list, t); }
    TouchCore(s, t, s.threads[t].(armed := true), {});
    var u := Arm(s, t, true);
    assert m.order == Prio ==> ByPriority(u.threads, u.lists[m.list]);
  }

  lemma WaiterSuspended(s: Sys, l: int, t: int)
    requires Inv(s) && l in s.lists && t in s.lists[l]
    ensures t in s.threads && s.threads[t].stat == Suspended
  {
    assert ListOk(s.threads, s.lists[l], {});
  }

  /** Releasing: the caller is back at its own priority, and the first waiter, if any, owns the mutex. */
  lemma ReleaseKeeps(s: Sys, m: State, home: map<int, nat>)
    requires MutexInv(s, m, home) && s.threads[s.current].stat == Running && s.current !in m.waiting
    ensures Usable(s, m) && (m.owner == Held(s.current) ==> m.hold > 0 && m.original < PRIORITY_MAX)
    ensures MutexInv(Release(s, m).0, Release(s, m).1, home)
    ensures var (u, n, r) := Release(s, m);
            && (r == NotOwner <==> m.owner != Held(s.current))
            && (r == NotOwner ==> n == m && u == SetCode(s, s.current, Failed))
            && (m.owner == Held(s.current) && m.hold == 1 ==>
                  && u.threads[s.current].prio == home[s.current]
                  && n.owner == (if s.lists[m.list] == [] then Nobody else Held(s.lists[m.list][0]))
                  && r == Released(s.lists[m.list] != [])
                  && u.lists[m.list] == (if s.lists[m.list] == [] then [] else s.lists[m.list][1..])
                  && (s.lists[m.list] != [] ==> Succeeds(s, m, u)))
            && (m.owner == Held(s.current) && m.hold > 1 ==> u == s && n == m.(hold := m.hold - 1))
  {
    hide Core, Restore, Grant;
    CurrentKnown(s);
    InvUsable(s, m, home);
    var t := s.current;
    if m.owner != Held(t) {
      ClearSame(s, m, home, Failed);
    } else if m.hold == 1 {
      RestoreKeeps(s, t, m.original);
      var s1 := Restore(s, t, m.original);
      if s.lists[m.list] != [] {
        assert m.order == Prio ==> ByPriority(s1.threads, s1.lists[m.list]);
        GrantKeeps(s1, m.(hold := 0), home);
      }
    }
  }

  /** The first waiter goes on with RT_EOK, as urgent as the most urgent thread that waited. */
  ghost predicate Succeeds(s: Sys, m: State, u: Sys) {
    && m.list in s.lists && s.lists[m.list] != []
    && var q := s.lists[m.list];
       && (forall x | x in q :: x in s.threads && x in u.threads)
       && RunsOn(u.threads[q[0]], Ok)
       && (forall x | x in q :: u.threads[q[0]].prio <= s.threads[x].prio)
       && (exists x :: x in q && u.threads[q[0]].prio == s.threads[x].prio)
       && forall x | x in s.threads && x != q[0] && x != s.current :: x in u.threads && u.threads[x] == s.threads[x]
  }

  /** The mutex between two owners: free, everybody at home, somebody waiting. */
  ghost predicate Vacant(s: Sys, m: State, home: map<int, nat>) {
    && Inv(s)
    && m.list in s.lists && s.lists[m.list] != []
    && home.Keys == s.threads.Keys && (forall t | t in home :: home[t] < PRIORITY_MAX)
    && m.hold == 0 && m.value == 0
    && (forall t | t in s.threads :: s.threads[t].prio == home[t])
    && (m.order == Prio ==> ByPriority(s.threads, s.lists[m.list]))
    && (forall t | t in m.waiting :: t in s.threads)
    && (forall t | t in m.waiting && t in s.lists[m.list] :: s.threads[t].code == Ok)
    && (forall t | t in m.waiting && t !in s.lists[m.list] :: s.threads[t].code != Ok && !s.threads[t].armed)
    && (forall t | t in s.lists[m.list] :: t in m.waiting)
  }

  lemma GrantKeeps(s: Sys, m: State, home: map<int, nat>)
    requires Vacant(s, m, home)
    ensures MutexInv(Grant(s, m).0, Grant(s, m).1, home)
    ensures Grant(s, m).1 == m.(owner := Held(s.lists[m.list][0]), original := Grant(s, m).1.original, hold := 1)
    ensures Grant(s, m).0.lists[m.list] == s.lists[m.list][1..] && Grant(s, m).0.current == s.current
    ensures forall t | t in s.threads && t != s.lists[m.list][0] :: Grant(s, m).0.threads[t] == s.threads[t]
    ensures Succeeds(s, m, Grant(s, m).0)
  {
    hide Inv, Grant, HighestOf;
    var q, u := s.lists[m.list], Grant(s, m).0;
    GrantEffect(s, m);
    GrantPrio(s, m);
    forall i | 1 <= i < |q| ensures q[i] in s.threads && q[i] != q[0] && u.threads[q[0]].prio <= s.threads[q[i]].prio {
      var w := q[i];
      assert w in q && q[1..][i - 1] == w;
    }
  }

  /** Its priority is that of the most urgent waiter. */
  lemma GrantPrio(s: Sys, m: State)
    requires Inv(s) && m.list in s.lists && s.lists[m.list] != [] && m.hold < HOLD_MAX
    requires m.order == Prio ==> ByPriority(s.threads, s.lists[m.list])
    ensures var q, u := s.lists[m.list], Grant(s, m).0;
            && (forall x | x in q :: x in s.threads) && q[0] in u.threads
            && (forall x | x in q :: u.threads[q[0]].prio <= s.threads[x].prio)
            && (exists x :: x in q && u.threads[q[0]].prio == s.threads[x].prio)
  {
    hide Inv, Grant;
    GrantEffect(s, m);
    var q, p := s.lists[m.list], Grant(s, m).0.threads[s.lists[m.list][0]].prio;
    assert q[0] in q;
    forall x | x in q ensures x in s.threads && p <= s.threads[x].prio && s.threads[x].prio < PRIORITY_MAX {
      var j :| 0 <= j < |q| && q[j] == x;
      PrioInRange(s, x);
    }
    if m.order == Fifo && p != PRIORITY_MAX - 1 {
      var j :| 0 <= j < |q| && p == s.threads[q[j]].prio;
      assert q[j] in q;
    }
  }

  /** The first waiter leaves the list, in FIFO order with the most urgent priority that waited; nobody else changes. */
  lemma GrantEffect(s: Sys, m: State)
    requires Inv(s) && m.list in s.lists && s.lists[m.list] != [] && m.hold < HOLD_MAX
    ensures Known(s.threads, s.lists[m.list])
    ensures var (u, n) := Grant(s, m);
            var t := s.lists[m.list][0];
            var p := if m.order == Fifo then HighestOf(s.threads, s.lists[m.list], 0, PRIORITY_MAX - 1)
                else s.threads[t].prio;
            && Inv(u) && u.current == s.current && u.lists == s.lists[m.list := s.lists[m.list][1..]]
            && t in s.threads && u.threads.Keys == s.threads.Keys && t !in s.lists[m.list][1..]
            && u.threads[t] == s.threads[t].(prio := p, mask := u.threads[t].mask, armed := false,
                 stat := u.threads[t].stat)
            && Active(u.threads[t])
            && (forall x | x in s.threads && x != t :: u.threads[x] == s.threads[x])
            && n == m.(owner := Held(t), original := s.threads[t].prio, hold := m.hold + 1)
  {
    hide Core, ResumeFirst, ChangePriority, HighestOf, Mask;
    FirstWaits(s, m.list);
    ListsKnown(s, m.list);
    var t := s.lists[m.list][0];
    PrioInRange(s, t);
    var top := HighestOf(s.threads, s.lists[m.list], 0, PRIORITY_MAX - 1);
    ChangePriorityKeeps(s, t, top);
    HeadOnce(s, m.list);
    ResumeFirstKeeps(if m.order == Fifo && s.threads[t].prio != top then ChangePriority(s, t, top) else s, m.list);
  }

  /** A timeout takes a waiter off the list with -RT_ETIMEOUT and leaves owner and priorities as they are. */
  lemma TimeoutKeeps(s: Sys, m: State, home: map<int, nat>, t: int)
    requires MutexInv(s, m, home) && t in s.threads && s.threads[t].armed
    ensures s.threads[t].prio < |s.ready| && MutexInv(Expire(s, t), m, home)
    ensures t !in Expire(s, t).lists[m.list]
  {
    hide Core, Expire;
    PrioInRange(s, t);
    ExpireKeeps(s, t);
    ListDistinct(s, m.list);
    WithoutIn(s.lists[m.list], t);
    var u := Expire(s, t);
    if m.order == Prio { WithoutInOrder(s.threads, s.lists[m.list], t); }
    assert m.order == Prio ==> ByPriority(u.threads, u.lists[m.list]);
  }

  lemma ListDistinct(s: Sys, l: int)
    requires Inv(s) && l in s.lists
    ensures Distinct(s.lists[l])
  {
    assert ListOk(s.threads, s.lists[l], {});
  }

  lemma WithoutInOrder(threads: map<int, Thread>, q: seq<int>, t: int)
    requires ByPriority(threads, q)
    ensures ByPriority(threads, Without(q, t))
  {
    if t in q {
      var k := IndexOf(q, t);
      DeleteAtIndex(q, k);
      var r := DeleteAt(q, k);
      assert Known(threads, r);
      forall i, j | 0 <= i < j < |r| ensures threads[r[i]].prio <= threads[r[j]].prio {
        assert threads[q[if i < k then i else i + 1]].prio <= threads[q[if j < k then j else j + 1]].prio;
      }
    }
  }

  /** The woken thread's `rt_mutex_take` returns its error number: RT_EOK exactly when it owns the mutex. */
  lemma ReturnKeeps(s: Sys, m: State, home: map<int, nat>)
    requires MutexInv(s, m, home) && s.current in m.waiting && s.threads[s.current].stat == Running
    ensures MutexInv(s, m.(waiting := m.waiting - {s.current}), home)
    ensures s.threads[s.current].code == Ok <==> m.owner == Held(s.current)
  {
    ActiveNowhere(s, s.current, {});
    assert s.current !in s.lists[m.list];
  }

  /** What everything else in the system may do: neither change priorities, nor touch this mutex's waiters. */
  ghost predicate Elsewhere(s: Sys, m: State, u: Sys)
    requires m.list in s.lists
  {
    && Inv(u) && SamePrio(s, u)
    && u.lists[m.list] == s.lists[m.list]
    && forall t | t in m.waiting && t in s.threads ::
         u.threads[t].code == s.threads[t].code && u.threads[t].armed == s.threads[t].armed
  }

  lemma ElsewhereKeeps(s: Sys, m: State, home: map<int, nat>, u: Sys)
    requires MutexInv(s, m, home) && Elsewhere(s, m, u)
    ensures MutexInv(u, m, home)
  {
    hide Inv;
    var q := s.lists[m.list];
    if m.order == Prio {
      forall i | 0 <= i < |q| ensures q[i] in u.threads && u.threads[q[i]].prio == s.threads[q[i]].prio {
        var w := q[i];
        assert w in s.threads && u.threads[w].prio == s.threads[w].prio;
      }
      assert ByPriority(u.threads, q);
    }
  }

  lemma ScheduleElsewhere(s: Sys, m: State)
    requires Inv(s) && m.list in s.lists
    ensures Elsewhere(s, m, Schedule(s))
  {
    hide Core, Schedule;
    ScheduleKeeps(s);
  }

  lemma TouchElsewhere(s: Sys, m: State, y: Thread)
    requires Inv(s) && m.list in s.lists
    requires s.current in s.threads && y == s.threads[s.current].(left := y.left, yielded := y.yielded)
    ensures Elsewhere(s, m, s.(threads := s.threads[s.current := y]))
  {
    hide Core;
    CurrentDisarmed(s);
    TouchCore(s, s.current, y, {});
  }

  /** Yields and time slices are such steps. */
  lemma TurnsElsewhere(s: Sys, m: State)
    requires Inv(s) && m.list in s.lists
    ensures Elsewhere(s, m, Yield(s)) && Elsewhere(s, m, TimeSlice(s))
  {
    hide Core, Schedule;
    CurrentKnown(s);
    var x := s.threads[s.current];
    var y := x.(left := x.slice, yielded := true);
    TouchElsewhere(s, m, y);
    TouchElsewhere(s, m, x.(left := (x.left - 1) % WORD));
    ScheduleElsewhere(s.(threads := s.threads[s.current := y]), m);
  }

  lemma CurrentDisarmed(s: Sys)
    requires Inv(s)
    ensures s.current in s.threads && (s.threads[s.current].armed ==> s.threads[s.current].stat == Suspended)
  {
    assert ThreadOk(s.threads[s.current], true, true);
  }

  /** So are waits on, and wake-ups from, the lists of other objects. */
  lemma OtherListsElsewhere(s: Sys, m: State, home: map<int, nat>, l: int, order: Order)
    requires MutexInv(s, m, home) && l in s.lists && l != m.list
    requires s.current !in m.waiting && s.threads[s.current].stat == Running
    ensures Known(s.threads, s.lists[l]) && s.threads[s.current].prio < |s.ready|
    ensures Elsewhere(s, m, Wait(s, l, s.current, order))
    ensures s.lists[l] != [] && s.lists[l][0] !in m.waiting ==> Elsewhere(s, m, ResumeFirst(s, l))
  {
    hide Core, Wait, ResumeFirst;
    CurrentKnown(s);
    PrioInRange(s, s.current);
    WaitKeeps(s, l, s.current, order);
    if s.lists[l] != [] { ResumeFirstKeeps(s, l); }
  }

  // ---- runs

  datatype Step = Takes(time: int) | Releases | TimesOut(thread: int) | Returns | Others(after: Sys)

  ghost predicate Can(s: Sys, m: State, e: Step) {
    match e
    case Takes(_) => s.current in s.threads && s.threads[s.current].stat == Running && s.current !in m.waiting
    case Releases => s.current in s.threads && s.threads[s.current].stat == Running && s.current !in m.waiting
    case TimesOut(t) => t in s.threads && s.threads[t].armed
    case Returns => s.current in s.threads && s.threads[s.current].stat == Running && s.current in m.waiting
    case Others(u) => m.list in s.lists && Elsewhere(s, m, u)
  }

  ghost function Next(s: Sys, m: State, home: map<int, nat>, e: Step): (r: (Sys, State))
    requires MutexInv(s, m, home) && Can(s, m, e)
    ensures MutexInv(r.0, r.1, home)
  {
    match e
    case Takes(time) =>
      TakeKeeps(s, m, home, time);
      (Take(s, m, time).0, Take(s, m, time).1)
    case Releases =>
      ReleaseKeeps(s, m, home);
      (Release(s, m).0, Release(s, m).1)
    case TimesOut(t) =>
      TimeoutKeeps(s, m, home, t);
      (Expire(s, t), m)
    case Returns =>
      ReturnKeeps(s, m, home);
      (s, m.(waiting := m.waiting - {s.current}))
    case Others(u) =>
      ElsewhereKeeps(s, m, home, u);
      (u, m)
  }

  /** Steps that cannot be taken where they stand are skipped. */
  ghost function RunAll(s: Sys, m: State, home: map<int, nat>, es: seq<Step>): (r: (Sys, State))
    requires MutexInv(s, m, home)
    ensures MutexInv(r.0, r.1, home)
    decreases |es|
  {
    if es == [] then (s, m)
    else if Can(s, m, es[0]) then
      var (u, n) := Next(s, m, home, es[0]);
      RunAll(u, n, home, es[1..])
    else RunAll(s, m, home, es[1..])
  }

  /** Over every interleaving of takes, releases, timeouts and other steps. */
  lemma EveryRun(s: Sys, m: State, home: map<int, nat>, es: seq<Step>)
    requires MutexInv(s, m, home)
    ensures var (u, n) := RunAll(s, m, home, es);
            && n.list in u.lists && u.threads.Keys == home.Keys
            && (n.value == 1 <==> n.owner == Nobody) && (n.owner == Nobody <==> n.hold == 0)
            && (u.lists[n.list] != [] ==> n.owner.Held?)
            && (forall t | t in u.threads && n.owner != Held(t) :: u.threads[t].prio == home[t])
            && (n.owner.Held? ==> n.owner.thread in u.threads)
            && forall w | n.owner.Held? && w in u.lists[n.list] && w in u.threads ::
                 u.threads[n.owner.thread].prio <= u.threads[w].prio
  {
  }
}
