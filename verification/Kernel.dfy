/** Threads, ready queues and suspend lists (scheduler.c, thread.c, and the list helpers of ipc.c). */
module Kernel {
  import opened Bits
  import opened FirstBit
  import opened Lists

  const PRIORITY_MAX: nat := 32
  const WORD: nat := 0x1_0000_0000_0000_0000  // an rt_ubase_t

  datatype Stat = Init | Ready | Suspended | Running | Closed

  /** The error number of a thread: RT_EOK, -RT_ETIMEOUT, -RT_ERROR. */
  datatype Code = Ok | TimedOut | Failed

  /** `armed`: the thread timer runs; `base` is init_priority, `mask` is number_mask. */
  datatype Thread = Thread(stat: Stat, yielded: bool, prio: nat, base: nat, mask: bv32, code: Code, armed: bool,
                           slice: nat, left: nat)

  /** `lists` holds the suspend lists of the IPC objects; a thread has one link node for queues and lists. */
  datatype Sys = Sys(threads: map<int, Thread>, ready: seq<seq<int>>, group: bv32, current: int, locks: nat,
                     lists: map<int, seq<int>>)

  datatype Order = Fifo | Prio

  // ---- invariant

  ghost predicate ThreadOk(x: Thread, settled: bool, current: bool) {
    && x.prio < PRIORITY_MAX && x.base < PRIORITY_MAX
    && (x.stat != Init ==> x.mask == Mask(x.prio))
    && (settled ==> (x.armed ==> x.stat == Suspended) && (x.stat == Running ==> current))
  }

  /** A queue holds, once each, exactly the READY threads of its priority. */
  ghost predicate QueueOk(threads: map<int, Thread>, q: seq<int>, p: nat, out: set<int>) {
    && Distinct(q)
    && forall t :: t in q <==> t in threads && t !in out && threads[t].stat == Ready && threads[t].prio == p
  }

  ghost predicate ListOk(threads: map<int, Thread>, list: seq<int>, out: set<int>) {
    && Distinct(list)
    && forall t | t in list :: t in threads && t !in out && threads[t].stat == Suspended
  }

  ghost predicate Apart(lists: map<int, seq<int>>) {
    forall l, m, t | l in lists && m in lists && t in lists[l] && t in lists[m] :: l == m
  }

  /** The invariant, except for the state and place of the threads in `out`, which are in no queue or list. */
  ghost predicate Core(s: Sys, out: set<int>) {
    && |s.ready| == PRIORITY_MAX
    && s.current in s.threads
    && (forall t | t in s.threads :: ThreadOk(s.threads[t], t !in out, t == s.current))
    && (forall p | 0 <= p < PRIORITY_MAX :: QueueOk(s.threads, s.ready[p], p, out))
    && (forall p | 0 <= p < PRIORITY_MAX :: Has(s.group, p) <==> s.ready[p] != [])
    && (forall l | l in s.lists :: ListOk(s.threads, s.lists[l], out))
    && Apart(s.lists)
  }

  ghost predicate Inv(s: Sys) {
    && Core(s, {})
    && s.threads[s.current].stat != Ready && s.threads[s.current].stat != Init
  }

  ghost predicate Nowhere(s: Sys, t: int) {
    forall l | l in s.lists :: t !in s.lists[l]
  }

  /** Nothing changed but the state of threads and their place in the ready queues. */
  ghost predicate Calm(s: Sys, u: Sys) {
    && u.lists == s.lists
    && SamePrio(s, u)
  }

  ghost predicate SamePrio(s: Sys, u: Sys) {
    && u.threads.Keys == s.threads.Keys
    && u.lists.Keys == s.lists.Keys
    && u.locks == s.locks
    && forall t | t in s.threads :: u.threads[t].prio == s.threads[t].prio && u.threads[t].base == s.threads[t].base
  }

  // ---- the steps

  function SetStat(s: Sys, t: int, st: Stat): (u: Sys)
    requires t in s.threads
  {
    s.(threads := s.threads[t := s.threads[t].(stat := st)])
  }

  function SetCode(s: Sys, t: int, c: Code): (u: Sys)
    requires t in s.threads
  {
    s.(threads := s.threads[t := s.threads[t].(code := c)])
  }

  function Arm(s: Sys, t: int, on: bool): (u: Sys)
    requires t in s.threads
  {
    s.(threads := s.threads[t := s.threads[t].(armed := on)])
  }

  /** `rt_list_remove` of the thread's link node, wherever it is. */
  function Unlist(s: Sys, t: int): (u: Sys) {
    s.(ready := seq(|s.ready|, p requires 0 <= p < |s.ready| => Without(s.ready[p], t)),
       lists := map l | l in s.lists :: Without(s.lists[l], t))
  }

  /** `rt_schedule_insert_thread`. */
  function Insert(s: Sys, t: int): (u: Sys)
    requires t in s.threads && s.threads[t].prio < |s.ready|
  {
    var x := s.threads[t];
    if t == s.current then SetStat(s, t, Running)
    else SetStat(s, t, Ready).(ready := s.ready[x.prio := s.ready[x.prio] + [t]], group := Or(s.group, x.mask))
  }

  /** `rt_schedule_remove_thread`. */
  function Remove(s: Sys, t: int): (u: Sys)
    requires t in s.threads && s.threads[t].prio < |s.ready|
  {
    var u := Unlist(s, t);
    if u.ready[s.threads[t].prio] == [] then u.(group := AndNot(u.group, s.threads[t].mask)) else u
  }

  /** The priority that the table-driven search finds. */
  function Highest(s: Sys): (p: nat)
    requires Core(s, {}) && s.group != 0
    ensures p < PRIORITY_MAX == |s.ready| && s.ready[p] != [] && forall q | 0 <= q < p :: s.ready[q] == []
  {
    FfsLowest(s.group);
    Ffs(s.group) - 1
  }

  function Unyield(s: Sys, t: int): (u: Sys)
    requires t in s.threads
  {
    s.(threads := s.threads[t := s.threads[t].(yielded := false)])
  }

  function Run(s: Sys, t: int): (u: Sys)
    requires t in s.threads && s.threads[t].prio < |s.ready|
  {
    SetStat(Remove(s, t), t, Running)
  }

  /** `rt_schedule`. */
  function Schedule(s: Sys): (u: Sys)
    requires Inv(s)
  {
    if s.locks != 0 || s.group == 0 then s else
    var p := Highest(s);
    var to := s.ready[p][0];
    assert QueueOk(s.threads, s.ready[p], p, {}) && to in s.ready[p];
    var from := s.threads[s.current];
    if from.stat == Running then
      var s1 := Unyield(s, s.current);
      if from.prio < p || (from.prio == p && !from.yielded) then Run(s1, s.current)
      else Run(Insert(s1.(current := to), s.current), to)
    else Run(s.(current := to), to)
  }

  // ---- each step keeps the invariant

  lemma UnlistCore(s: Sys, t: int, out: set<int>)
    requires Core(s, out)
    ensures forall p | 0 <= p < PRIORITY_MAX :: QueueOk(s.threads, Unlist(s, t).ready[p], p, out + {t})
    ensures forall l | l in s.lists :: ListOk(s.threads, Unlist(s, t).lists[l], out + {t})
    ensures forall l, x | l in s.lists :: x in Unlist(s, t).lists[l] <==> x in s.lists[l] && x != t
    ensures Apart(Unlist(s, t).lists)
    ensures Nowhere(s, t) ==> Unlist(s, t).lists == s.lists
  {
    var u := Unlist(s, t);
    forall p | 0 <= p < PRIORITY_MAX ensures QueueOk(s.threads, u.ready[p], p, out + {t}) {
      assert QueueOk(s.threads, s.ready[p], p, out);
      WithoutIn(s.ready[p], t);
    }
    forall l | l in s.lists
      ensures ListOk(s.threads, u.lists[l], out + {t}) && forall x :: x in u.lists[l] <==> x in s.lists[l] && x != t
    {
      assert ListOk(s.threads, s.lists[l], out);
      WithoutIn(s.lists[l], t);
    }
    if Nowhere(s, t) {
      forall l | l in s.lists ensures u.lists[l] == s.lists[l] { assert t !in s.lists[l]; }
      assert u.lists == s.lists;
    }
  }

  /** Of the ready queues, only the one of the thread's priority can change when its node is unlinked. */
  lemma UnlistBits(s: Sys, t: int, out: set<int>)
    requires Core(s, out) && t in s.threads
    ensures forall p | 0 <= p < PRIORITY_MAX && p != s.threads[t].prio :: Unlist(s, t).ready[p] == s.ready[p]
    ensures t in out ==> Unlist(s, t).ready == s.ready
  {
    forall p | 0 <= p < PRIORITY_MAX && (p != s.threads[t].prio || t in out) ensures t !in s.ready[p] {
      assert QueueOk(s.threads, s.ready[p], p, out);
    }
  }

  lemma RemoveCore(s: Sys, t: int, out: set<int>)
    requires Core(s, out) && t in s.threads && s.threads[t].stat != Init
    ensures Core(Remove(s, t), out + {t})
    ensures Nowhere(Remove(s, t), t) && SamePrio(s, Remove(s, t))
    ensures Remove(s, t).threads == s.threads && Remove(s, t).current == s.current
    ensures Nowhere(s, t) ==> Remove(s, t).lists == s.lists
    ensures forall l | l in s.lists :: Remove(s, t).lists[l] == Without(s.lists[l], t)
  {
    hide QueueOk, ListOk, Apart, Has, And, AndNot, Or, Mask;
    var u := Remove(s, t);
    UnlistCore(s, t, out);
    UnlistBits(s, t, out);
    var p := s.threads[t].prio;
    BitAlone(s.group, p);
    assert u.group == if u.ready[p] == [] then ClearBit(s.group, p) else s.group;
    assert u.ready[p] != [] ==> s.ready[p] != [];
  }

  lemma AppendOk(threads: map<int, Thread>, q: seq<int>, p: nat, out: set<int>, t: int)
    requires QueueOk(threads, q, p, out) && t in out && t in threads && threads[t].prio == p
    ensures QueueOk(threads[t := threads[t].(stat := Ready)], q + [t], p, out - {t})
  {
    assert forall x :: x in q + [t] <==> x in q || x == t;
  }

  lemma StillOk(threads: map<int, Thread>, q: seq<int>, p: nat, out: set<int>, t: int, y: Thread)
    requires QueueOk(threads, q, p, out) && t in out && (y.stat != Ready || y.prio != p)
    ensures QueueOk(threads[t := y], q, p, out - {t})
  {
  }

  lemma ListStillOk(threads: map<int, Thread>, list: seq<int>, out: set<int>, t: int, y: Thread)
    requires ListOk(threads, list, out) && t in out
    ensures ListOk(threads[t := y], list, out - {t})
  {
  }

  /** A thread out of every queue and list is put back: running if it is current, else at the tail of its queue. */
  lemma InsertCore(s: Sys, t: int, out: set<int>)
    requires Core(s, out) && t in out && t in s.threads && !s.threads[t].armed && s.threads[t].stat != Init
    ensures Core(Insert(s, t), out - {t}) && Calm(s, Insert(s, t))
    ensures Insert(s, t).current == s.current
    ensures Insert(s, t).threads == s.threads[t := s.threads[t].(stat := if t == s.current then Running else Ready)]
  {
    hide Has, Or, And, Mask, QueueOk, ListOk, Apart;
    var u := Insert(s, t);
    var p := s.threads[t].prio;
    BitAlone(s.group, p);
    forall l | l in u.lists ensures ListOk(u.threads, u.lists[l], out - {t}) {
      assert ListOk(s.threads, s.lists[l], out);
      ListStillOk(s.threads, s.lists[l], out, t, u.threads[t]);
    }
    forall q | 0 <= q < PRIORITY_MAX ensures QueueOk(u.threads, u.ready[q], q, out - {t}) {
      assert QueueOk(s.threads, s.ready[q], q, out);
      if q == p && t != s.current {
        AppendOk(s.threads, s.ready[q], q, out, t);
      } else {
        StillOk(s.threads, s.ready[q], q, out, t, u.threads[t]);
      }
    }
    assert t != s.current ==> u.group == SetBit(s.group, p);
  }

  /** The state of a thread outside every queue and list is set to one that belongs in no queue. */
  lemma SetStatCore(s: Sys, t: int, out: set<int>, st: Stat)
    requires Core(s, out) && t in out && t in s.threads && s.threads[t].mask == Mask(s.threads[t].prio)
    requires st == Suspended || st == Closed || (st == Running && t == s.current)
    requires s.threads[t].armed ==> st == Suspended
    ensures Core(SetStat(s, t, st), out - {t}) && Calm(s, SetStat(s, t, st))
  {
    var u := SetStat(s, t, st);
    forall l | l in u.lists ensures ListOk(u.threads, u.lists[l], out - {t}) {
      assert ListOk(s.threads, s.lists[l], out);
    }
    forall q | 0 <= q < PRIORITY_MAX ensures QueueOk(u.threads, u.ready[q], q, out - {t}) {
      assert QueueOk(s.threads, s.ready[q], q, out);
    }
  }

  /** Updates of a thread that leave its state, priority and mask alone. */
  lemma TouchCore(s: Sys, t: int, y: Thread, out: set<int>)
    requires Core(s, out) && t in s.threads
    requires y.stat == s.threads[t].stat && y.prio == s.threads[t].prio && y.base == s.threads[t].base
    requires y.mask == s.threads[t].mask && (y.armed ==> y.stat == Suspended || t in out)
    ensures Core(s.(threads := s.threads[t := y]), out) && Calm(s, s.(threads := s.threads[t := y]))
  {
    var u := s.(threads := s.threads[t := y]);
    forall l | l in u.lists ensures ListOk(u.threads, u.lists[l], out) { assert ListOk(s.threads, s.lists[l], out); }
    forall q | 0 <= q < PRIORITY_MAX ensures QueueOk(u.threads, u.ready[q], q, out) {
      assert QueueOk(s.threads, s.ready[q], q, out);
    }
  }

  /** A READY or RUNNING thread is on no suspend list. */
  lemma ActiveNowhere(s: Sys, t: int, out: set<int>)
    requires Core(s, out) && t in s.threads && (s.threads[t].stat != Suspended || t in out)
    ensures Nowhere(s, t)
  {
    forall l | l in s.lists ensures t !in s.lists[l] { assert ListOk(s.threads, s.lists[l], out); }
  }

  /** The present thread runs on, or the chosen one starts to. */
  lemma RunKeeps(s: Sys, t: int)
    requires Core(s, {}) && t == s.current && (s.threads[t].stat == Ready || s.threads[t].stat == Running)
    ensures Inv(Run(s, t)) && Calm(s, Run(s, t)) && Run(s, t).current == t
    ensures Run(s, t).threads == s.threads[t := s.threads[t].(stat := Running)]
  {
    hide Has, QueueOk, ListOk, Apart;
    ActiveNowhere(s, t, {});
    RemoveCore(s, t, {});
    assert {} + {t} == {t};
    SetStatCore(Remove(s, t), t, {t}, Running);
    assert {t} - {t} == {};
  }

  /** While another thread is made current, the one that was is outside of the queues. */
  lemma HandOver(s: Sys, to: int)
    requires Core(s, {}) && to in s.threads && s.threads[s.current].stat != Ready
    ensures Core(s.(current := to), if s.threads[s.current].stat == Running then {s.current} else {})
    ensures s.threads[s.current].stat == Running ==> !s.threads[s.current].armed
  {
    var u := s.(current := to);
    var out := if s.threads[s.current].stat == Running then {s.current} else {};
    assert ThreadOk(s.threads[s.current], true, true);
    forall l | l in u.lists ensures ListOk(u.threads, u.lists[l], out) { assert ListOk(s.threads, s.lists[l], {}); }
    forall q | 0 <= q < PRIORITY_MAX ensures QueueOk(u.threads, u.ready[q], q, out) {
      assert QueueOk(s.threads, s.ready[q], q, {});
    }
  }

  lemma ScheduleKeeps(s: Sys)
    requires Inv(s)
    ensures Inv(Schedule(s)) && Calm(s, Schedule(s))
    ensures forall t | t in s.threads :: Schedule(s).threads[t] ==
              s.threads[t].(stat := Schedule(s).threads[t].stat, yielded := Schedule(s).threads[t].yielded)
  {
    hide Core, Run, Insert;
    if s.locks == 0 && s.group != 0 {
      var p := Highest(s);
      var to := s.ready[p][0];
      HeadReady(s, p);
      var c := s.current;
      var s1 := Unyield(s, c);
      if s.threads[c].stat == Running {
        TouchCore(s, c, s1.threads[c], {});
        if s.threads[c].prio < p || (s.threads[c].prio == p && !s.threads[c].yielded) {
          RunKeeps(s1, c);
        } else {
          HandOver(s1, to);
          var s2 := s1.(current := to);
          InsertCore(s2, c, {c});
          assert {c} - {c} == {};
          RunKeeps(Insert(s2, c), to);
        }
      } else {
        HandOver(s, to);
        RunKeeps(s.(current := to), to);
      }
    }
  }

  lemma HeadReady(s: Sys, p: nat)
    requires Inv(s) && p < PRIORITY_MAX && s.ready[p] != []
    ensures s.ready[p][0] in s.threads && s.threads[s.ready[p][0]].stat == Ready && s.threads[s.ready[p][0]].prio == p
    ensures s.ready[p][0] != s.current && s.current in s.threads && s.threads[s.current].prio < PRIORITY_MAX
    ensures s.threads[s.current].stat == Running ==> !s.threads[s.current].armed
  {
    var t := s.ready[p][0];
    assert t in s.ready[p];
    assert QueueOk(s.threads, s.ready[p], p, {});
    assert ThreadOk(s.threads[s.current], true, true);
  }

  lemma ScheduleEffect(s: Sys)
    requires Inv(s) && s.locks == 0 && s.group != 0
    ensures var u, p := Schedule(s), Highest(s);
            && u.current in u.threads && u.threads[u.current].stat == Running && u.threads[u.current].prio <= p
            && (forall t | t in s.threads && u.threads[t].stat == Ready ::
                  s.threads[t].stat == Ready || (t == s.current && s.threads[t].prio >= p))
  {
    hide Core, Remove, Insert;
    ScheduleKeeps(s);
    var p, c := Highest(s), s.current;
    HeadReady(s, p);
    var s1, to := Unyield(s, c), s.ready[p][0];
    if s.threads[c].stat == Running {
      TouchCore(s, c, s1.threads[c], {});
      if s.threads[c].prio < p || (s.threads[c].prio == p && !s.threads[c].yielded) {
        RunKeeps(s1, c);
      } else {
        HandOver(s1, to);
        var s2 := s1.(current := to);
        InsertCore(s2, c, {c});
        assert {c} - {c} == {};
        RunKeeps(Insert(s2, c), to);
      }
    } else {
      HandOver(s, to);
      RunKeeps(s.(current := to), to);
    }
  }

  predicate Active(x: Thread) { x.stat == Ready || x.stat == Running }

  /** A schedule changes places among the READY and the RUNNING threads only. */
  lemma ScheduleStates(s: Sys)
    requires Inv(s)
    ensures var u := Schedule(s);
            && u.threads.Keys == s.threads.Keys
            && forall t | t in s.threads ::
                 if Active(s.threads[t]) then Active(u.threads[t]) else u.threads[t] == s.threads[t]
  {
    hide Core, Run, Insert;
    if s.locks == 0 && s.group != 0 {
      var p := Highest(s);
      var to := s.ready[p][0];
      HeadReady(s, p);
      var c := s.current;
      var s1 := Unyield(s, c);
      if s.threads[c].stat == Running {
        TouchCore(s, c, s1.threads[c], {});
        if s.threads[c].prio < p || (s.threads[c].prio == p && !s.threads[c].yielded) {
          RunKeeps(s1, c);
        } else {
          HandOver(s1, to);
          var s2 := s1.(current := to);
          InsertCore(s2, c, {c});
          assert {c} - {c} == {};
          RunKeeps(Insert(s2, c), to);
        }
      } else {
        HandOver(s, to);
        RunKeeps(s.(current := to), to);
      }
    }
  }

  /** After an unlocked schedule, the idle thread able to run, nobody READY is more urgent than the RUNNING thread. */
  lemma MostUrgentRuns(s: Sys, idle: int)
    requires Inv(s) && s.locks == 0
    requires idle in s.threads && (s.threads[idle].stat == Ready || s.threads[idle].stat == Running)
    ensures var u := Schedule(s);
            && Inv(u) && u.threads[u.current].stat == Running
            && forall t | t in u.threads && u.threads[t].stat == Ready :: u.threads[u.current].prio <= u.threads[t].prio
  {
    ScheduleKeeps(s);
    forall t | t in s.threads && s.threads[t].stat == Ready
      ensures s.group != 0 && Highest(s) <= s.threads[t].prio
    {
      var q := s.threads[t].prio;
      assert ThreadOk(s.threads[t], true, t == s.current);
      assert QueueOk(s.threads, s.ready[q], q, {});
      assert t in s.ready[q] && Has(s.group, q);
      NoBits();
    }
    if s.group != 0 {
      ScheduleEffect(s);
    } else {
      assert ThreadOk(s.threads[idle], true, idle == s.current);
    }
  }

  /** A yielding thread gives way to the first thread of its own priority and goes behind the last. */
  lemma YieldTakesTurns(s: Sys)
    requires Inv(s) && s.locks == 0 && s.group != 0
    requires s.threads[s.current].stat == Running && s.threads[s.current].yielded
    requires s.threads[s.current].prio == Highest(s)
    ensures var p := Highest(s);
            && Schedule(s).current == s.ready[p][0]
            && Schedule(s).ready[p] == s.ready[p][1..] + [s.current]
  {
    var p, c := Highest(s), s.current;
    HeadReady(s, p);
    var to := s.ready[p][0];
    assert QueueOk(s.threads, s.ready[p], p, {});
    var q := s.ready[p] + [c];
    assert IndexOf(q, to) == 0;
    assert Without(q, to) == s.ready[p][1..] + [c];
  }

  // ---- exactly who runs after a schedule

  /** Of the queues only its own changes when the first thread of a queue is taken to run. */
  lemma RunReady(s: Sys, p: nat)
    requires Core(s, {}) && p < PRIORITY_MAX && s.ready[p] != []
    ensures var to := s.ready[p][0];
            && to in s.threads && s.threads[to].prio == p && Run(s, to).ready == s.ready[p := s.ready[p][1..]]
  {
    hide Has;
    var to := s.ready[p][0];
    assert to in s.ready[p] && QueueOk(s.threads, s.ready[p], p, {});
    UnlistBits(s, to, {});
    assert IndexOf(s.ready[p], to) == 0;
    assert Without(s.ready[p], to) == s.ready[p][1..];
    var r, w := Unlist(s, to).ready, s.ready[p := s.ready[p][1..]];
    forall q | 0 <= q < PRIORITY_MAX ensures r[q] == w[q] { assert q != p ==> r[q] == s.ready[q]; }
    assert r == w;
  }

  /** A running thread goes on if it is more urgent than every READY one, or as urgent and has not yielded. */
  lemma ScheduleStays(s: Sys)
    requires Inv(s) && s.locks == 0 && s.group != 0 && s.threads[s.current].stat == Running
    requires var x := s.threads[s.current]; x.prio < Highest(s) || (x.prio == Highest(s) && !x.yielded)
    ensures Schedule(s).current == s.current && Schedule(s).ready == s.ready
    ensures Schedule(s).threads == s.threads[s.current := s.threads[s.current].(yielded := false)]
  {
    hide Has;
    var c := s.current;
    HeadReady(s, Highest(s));
    forall q | 0 <= q < PRIORITY_MAX ensures Without(s.ready[q], c) == s.ready[q] {
      assert QueueOk(s.threads, s.ready[q], q, {});
    }
    assert Unlist(s, c).ready == s.ready;
  }

  /** Otherwise the first of the most urgent READY threads runs, and the present one goes behind its equals. */
  lemma ScheduleSwitches(s: Sys)
    requires Inv(s) && s.locks == 0 && s.group != 0 && s.threads[s.current].stat == Running
    requires var x := s.threads[s.current]; x.prio > Highest(s) || (x.prio == Highest(s) && x.yielded)
    ensures s.threads[s.current].prio < |s.ready|
    ensures var u, p, c := Schedule(s), Highest(s), s.current;
            var to, n := s.ready[p][0], s.threads[c].prio;
            && u.current == to && to != c && to in s.threads
            && u.threads == s.threads[c := s.threads[c].(stat := Ready, yielded := false)][to :=
                              s.threads[to].(stat := Running)]
            && (if n == p then u.ready == s.ready[p := s.ready[p][1..] + [c]]
                else u.ready == s.ready[p := s.ready[p][1..]][n := s.ready[n] + [c]])
  {
    hide Core, Run, Has, Or;
    var p, c := Highest(s), s.current;
    HeadReady(s, p);
    PrioInRange(s, c);
    var to, s1 := s.ready[p][0], Unyield(s, c);
    TouchCore(s, c, s1.threads[c], {});
    HandOver(s1, to);
    var s2 := s1.(current := to);
    InsertCore(s2, c, {c});
    assert {c} - {c} == {};
    var s3 := Insert(s2, c);
    assert s3.ready == s.ready[s.threads[c].prio := s.ready[s.threads[c].prio] + [c]];
    RunKeeps(s3, to);
    RunReady(s3, p);
    var n := s.threads[c].prio;
    assert n == p ==> s3.ready[p] == s.ready[p] + [c] && s3.ready[p][1..] == s.ready[p][1..] + [c];
  }

  /** If the present thread does not run any more, the first of the most urgent READY threads does. */
  lemma SchedulePicks(s: Sys)
    requires Inv(s) && s.locks == 0 && s.group != 0 && s.threads[s.current].stat != Running
    ensures var u, p := Schedule(s), Highest(s);
            var to := s.ready[p][0];
            && u.current == to && to in s.threads && u.threads == s.threads[to := s.threads[to].(stat := Running)]
            && u.ready == s.ready[p := s.ready[p][1..]]
  {
    hide Core, Run, Has;
    var p := Highest(s);
    HeadReady(s, p);
    HandOver(s, s.ready[p][0]);
    var s2 := s.(current := s.ready[p][0]);
    RunKeeps(s2, s.ready[p][0]);
    RunReady(s2, p);
  }

  /** A locked scheduler switches nothing. */
  lemma ScheduleLocked(s: Sys)
    requires Inv(s) && (s.locks != 0 || s.group == 0)
    ensures Schedule(s) == s
  {
  }

  // ---- operations on threads

  /** `rt_thread_suspend`; false is its -RT_ERROR. */
  function Suspend(s: Sys, t: int): (r: (Sys, bool))
    requires t in s.threads && s.threads[t].prio < |s.ready|
  {
    if s.threads[t].stat != Ready && s.threads[t].stat != Running then (s, false)
    else (SuspendNow(s, t), true)
  }

  /** The section of `rt_thread_suspend`, which follows its test of the state. */
  function SuspendNow(s: Sys, t: int): (u: Sys)
    requires t in s.threads && s.threads[t].prio < |s.ready|
  {
    Arm(SetStat(Remove(s, t), t, Suspended), t, false)
  }

  /** `rt_thread_resume` with interrupts off throughout; false is its -RT_ERROR. */
  function Resume(s: Sys, t: int): (r: (Sys, bool))
    requires t in s.threads && s.threads[t].prio < |s.ready|
  {
    if s.threads[t].stat != Suspended then (s, false)
    else (Insert(Detach(s, t), t), true)
  }

  /** The first of its two sections: the thread leaves its suspend list and its timer stops. */
  function Detach(s: Sys, t: int): (u: Sys)
    requires t in s.threads
  {
    Arm(Unlist(s, t), t, false)
  }

  /** The part of `rt_thread_timeout` before it schedules: the timer of a waiting thread has run out. */
  function Expire(s: Sys, t: int): (u: Sys)
    requires t in s.threads && s.threads[t].prio < |s.ready|
  {
    Insert(Unlist(SetCode(Arm(s, t, false), t, TimedOut), t), t)
  }

  function SetPriority(s: Sys, t: int, p: nat): (u: Sys)
    requires t in s.threads && p < PRIORITY_MAX
  {
    s.(threads := s.threads[t := s.threads[t].(prio := p, mask := Mask(p))])
  }

  /** `rt_thread_control` with RT_THREAD_CTRL_CHANGE_PRIORITY. */
  function ChangePriority(s: Sys, t: int, p: nat): (u: Sys)
    requires t in s.threads && s.threads[t].prio < |s.ready| == PRIORITY_MAX && p < PRIORITY_MAX
  {
    if s.threads[t].stat == Ready then Insert(SetPriority(Remove(s, t), t, p), t)
    else SetPriority(s, t, p)
  }

  ghost predicate Known(threads: map<int, Thread>, list: seq<int>) {
    forall j | 0 <= j < |list| :: list[j] in threads
  }

  /** The place of a thread of priority p in a suspend list kept by priority: before the first less urgent one. */
  function Place(threads: map<int, Thread>, list: seq<int>, p: nat, i: nat): (k: nat)
    requires i <= |list| && Known(threads, list)
    ensures i <= k <= |list|
    ensures forall j | i <= j < k :: threads[list[j]].prio <= p
    ensures k < |list| ==> p < threads[list[k]].prio
    decreases |list| - i
  {
    if i < |list| && p >= threads[list[i]].prio then Place(threads, list, p, i + 1) else i
  }

  /** `rt_ipc_list_suspend`: the thread leaves the processor or its queue and waits on list l. */
  function Wait(s: Sys, l: int, t: int, order: Order): (u: Sys)
    requires t in s.threads && s.threads[t].prio < |s.ready| && l in s.lists
    requires Known(s.threads, s.lists[l])
  {
    var u := Suspend(s, t).0;
    var k := if order == Fifo then |s.lists[l]| else Place(s.threads, s.lists[l], s.threads[t].prio, 0);
    u.(lists := s.lists[l := InsertAt(s.lists[l], k, t)])
  }

  // ---- they keep the invariant, and what they do to the lists

  lemma ActiveMask(s: Sys, t: int)
    requires Inv(s) && t in s.threads && s.threads[t].stat != Init
    ensures s.threads[t].mask == Mask(s.threads[t].prio)
  {
    assert ThreadOk(s.threads[t], true, t == s.current);
  }

  lemma SuspendKeeps(s: Sys, t: int)
    requires Inv(s) && t in s.threads
    ensures Inv(Suspend(s, t).0) && Calm(s, Suspend(s, t).0) && Suspend(s, t).0.current == s.current
    ensures Suspend(s, t).1 <==> s.threads[t].stat == Ready || s.threads[t].stat == Running
    ensures Suspend(s, t).1 ==> Nowhere(Suspend(s, t).0, t)
    ensures Suspend(s, t).0.threads ==
            if Suspend(s, t).1 then s.threads[t := s.threads[t].(stat := Suspended, armed := false)] else s.threads
  {
    hide Core, Remove;
    PrioInRange(s, t);
    if s.threads[t].stat == Ready || s.threads[t].stat == Running {
      ActiveNowhere(s, t, {});
      RemoveCore(s, t, {});
      assert {} + {t} == {t} && {t} - {t} == {};
      ActiveMask(s, t);
      SetStatCore(Remove(s, t), t, {t}, Suspended);
      var u := SetStat(Remove(s, t), t, Suspended);
      TouchCore(u, t, u.threads[t].(armed := false), {});
    }
  }

  lemma UnlistKeeps(s: Sys, t: int)
    requires Core(s, {}) && t in s.threads && s.threads[t].stat == Suspended
    ensures Core(Unlist(s, t), {t}) && Unlist(s, t).threads == s.threads && Unlist(s, t).current == s.current
    ensures SamePrio(s, Unlist(s, t))
    ensures forall l | l in s.lists :: Unlist(s, t).lists[l] == Without(s.lists[l], t)
  {
    UnlistCore(s, t, {});
    assert {} + {t} == {t};
    forall p | 0 <= p < PRIORITY_MAX ensures Unlist(s, t).ready[p] == s.ready[p] {
      assert QueueOk(s.threads, s.ready[p], p, {});
    }
  }

  /** Resuming a waiting thread takes it off its list and leaves every other list as it is. */
  lemma ResumeKeeps(s: Sys, t: int)
    requires Inv(s) && t in s.threads
    ensures Inv(Resume(s, t).0) && SamePrio(s, Resume(s, t).0) && Resume(s, t).0.current == s.current
    ensures Resume(s, t).1 <==> s.threads[t].stat == Suspended
    ensures Resume(s, t).1 ==> forall l | l in s.lists :: Resume(s, t).0.lists[l] == Without(s.lists[l], t)
    ensures Resume(s, t).1 ==> Resume(s, t).0.threads == s.threads[t := s.threads[t].(armed := false,
                                 stat := if t == s.current then Running else Ready)]
  {
    hide Core, Unlist, Insert;
    PrioInRange(s, t);
    if s.threads[t].stat == Suspended {
      UnlistKeeps(s, t);
      var u := Unlist(s, t);
      TouchCore(u, t, u.threads[t].(armed := false), {t});
      InsertCore(Arm(u, t, false), t, {t});
      assert {t} - {t} == {};
    }
  }

  /** The timer of a thread runs only while it waits, so its timeout finds it suspended. */
  lemma ArmedWaits(s: Sys, t: int)
    requires Inv(s) && t in s.threads && s.threads[t].armed
    ensures s.threads[t].stat == Suspended
  {
    assert ThreadOk(s.threads[t], true, t == s.current);
  }

  lemma ExpireKeeps(s: Sys, t: int)
    requires Inv(s) && t in s.threads && s.threads[t].armed
    ensures Inv(Expire(s, t)) && SamePrio(s, Expire(s, t)) && Expire(s, t).current == s.current
    ensures forall l | l in s.lists :: Expire(s, t).lists[l] == Without(s.lists[l], t)
    ensures Expire(s, t).threads == s.threads[t := s.threads[t].(armed := false, code := TimedOut,
                                      stat := if t == s.current then Running else Ready)]
  {
    hide Core, Unlist, Insert;
    ArmedWaits(s, t);
    PrioInRange(s, t);
    var u := SetCode(Arm(s, t, false), t, TimedOut);
    TouchCore(s, t, u.threads[t], {});
    assert u == s.(threads := s.threads[t := u.threads[t]]);
    UnlistKeeps(u, t);
    InsertCore(Unlist(u, t), t, {t});
    assert {t} - {t} == {};
  }

  lemma PrioInRange(s: Sys, t: int)
    requires Inv(s) && t in s.threads
    ensures s.threads[t].prio < |s.ready| == PRIORITY_MAX
  {
    assert ThreadOk(s.threads[t], true, t == s.current);
  }

  lemma CurrentKnown(s: Sys)
    requires Inv(s)
    ensures s.current in s.threads
  {
  }

  lemma ListsKnown(s: Sys, l: int)
    requires Inv(s) && l in s.lists
    ensures Known(s.threads, s.lists[l])
  {
    var q := s.lists[l];
    assert ListOk(s.threads, q, {});
    forall j | 0 <= j < |q| ensures q[j] in s.threads {
      var x := q[j];
      assert x in q;
    }
  }

  lemma PutOnList(s: Sys, l: int, k: nat, t: int)
    requires Inv(s) && l in s.lists && k <= |s.lists[l]| && Nowhere(s, t)
    requires t in s.threads && s.threads[t].stat == Suspended
    ensures Inv(s.(lists := s.lists[l := InsertAt(s.lists[l], k, t)]))
    ensures forall x :: x in InsertAt(s.lists[l], k, t) <==> x in s.lists[l] || x == t
  {
    var w := s.(lists := s.lists[l := InsertAt(s.lists[l], k, t)]);
    InsertIn(s.lists[l], k, t);
    InsertDistinct(s.lists[l], k, t) by { assert ListOk(s.threads, s.lists[l], {}); }
    hide QueueOk, Has, InsertAt;
    forall m | m in w.lists ensures ListOk(w.threads, w.lists[m], {}) { assert ListOk(s.threads, s.lists[m], {}); }
    assert Apart(w.lists);
  }

  /** A thread that waits is put at one place of one list; every other list stays. */
  lemma WaitKeeps(s: Sys, l: int, t: int, order: Order)
    requires Inv(s) && t in s.threads && l in s.lists
    requires s.threads[t].stat == Ready || s.threads[t].stat == Running
    ensures Known(s.threads, s.lists[l])
    ensures Inv(Wait(s, l, t, order)) && SamePrio(s, Wait(s, l, t, order)) && Wait(s, l, t, order).current == s.current
    ensures forall m | m in s.lists && m != l :: Wait(s, l, t, order).lists[m] == s.lists[m]
    ensures forall x :: x in Wait(s, l, t, order).lists[l] <==> x in s.lists[l] || x == t
    ensures t !in s.lists[l]
    ensures Wait(s, l, t, order).threads == s.threads[t := s.threads[t].(stat := Suspended, armed := false)]
  {
    hide Core, QueueOk, Apart, Remove, InsertAt;
    ListsKnown(s, l);
    PrioInRange(s, t);
    SuspendKeeps(s, t);
    var u := Suspend(s, t).0;
    var k := if order == Fifo then |s.lists[l]| else Place(s.threads, s.lists[l], s.threads[t].prio, 0);
    assert t !in u.lists[l];
    PutOnList(u, l, k, t);
  }

  ghost predicate ByPriority(threads: map<int, Thread>, list: seq<int>) {
    && Known(threads, list)
    && forall i, j | 0 <= i < j < |list| :: threads[list[i]].prio <= threads[list[j]].prio
  }

  /** A list kept by priority stays so, and the newcomer waits behind its equals. */
  lemma WaitInOrder(s: Sys, l: int, t: int)
    requires Inv(s) && t in s.threads && l in s.lists && ByPriority(s.threads, s.lists[l])
    requires s.threads[t].stat == Ready || s.threads[t].stat == Running
    ensures ByPriority(Wait(s, l, t, Prio).threads, Wait(s, l, t, Prio).lists[l])
    ensures forall i, j | 0 <= i < j < |Wait(s, l, t, Prio).lists[l]| && Wait(s, l, t, Prio).lists[l][i] == t ::
              s.threads[t].prio < Wait(s, l, t, Prio).threads[Wait(s, l, t, Prio).lists[l][j]].prio
  {
    hide Core;
    SuspendKeeps(s, t);
    WaitKeeps(s, l, t, Prio);
    assert s.threads[t].prio < |s.ready| by { PrioInRange(s, t); }
    var q := s.lists[l];
    var w := Wait(s, l, t, Prio);
    PlaceInOrder(s.threads, q, t);
    assert w.lists[l] == InsertAt(q, Place(s.threads, q, s.threads[t].prio, 0), t);
    forall i | 0 <= i < |w.lists[l]| ensures w.threads[w.lists[l][i]].prio == s.threads[w.lists[l][i]].prio {
      assert w.lists[l][i] in s.threads;
    }
  }

  /** The others wait in the order in which they did; in arrival order the newcomer waits behind them all. */
  lemma WaitPlaces(s: Sys, l: int, t: int, order: Order)
    requires Inv(s) && t in s.threads && l in s.lists
    requires s.threads[t].stat == Ready || s.threads[t].stat == Running
    ensures s.threads[t].prio < |s.ready| && Known(s.threads, s.lists[l])
    ensures Without(Wait(s, l, t, order).lists[l], t) == s.lists[l]
    ensures order == Fifo ==> Wait(s, l, t, order).lists[l] == s.lists[l] + [t]
  {
    hide Core, Suspend;
    PrioInRange(s, t);
    ListsKnown(s, l);
    ActiveNowhere(s, t, {});
    var q := s.lists[l];
    var k := if order == Fifo then |q| else Place(s.threads, q, s.threads[t].prio, 0);
    var r := InsertAt(q, k, t);
    assert t !in q;
    assert IndexOf(r, t) == k by { InsertedAt(q, k, t); }
    assert r[..k] == q[..k] && r[k + 1..] == q[k..];
    assert DeleteAt(r, k) == q;
  }

  /** The current thread is suspended on the list, behind the others or at the place of its priority, with RT_EOK
      and with its timer running if the wait is bounded; nobody else changes. */
  ghost predicate Enters(s: Sys, l: int, order: Order, timed: bool, u: Sys) {
    && l in s.lists && l in u.lists && s.current in s.threads && u.threads.Keys == s.threads.Keys
    && var t := s.current;
       && u.threads == s.threads[t := s.threads[t].(stat := Suspended, code := Ok, armed := timed)]
       && t in u.lists[l] && Without(u.lists[l], t) == s.lists[l]
       && (order == Fifo ==> u.lists[l] == s.lists[l] + [t])
  }

  lemma InsertedAt(q: seq<int>, k: nat, t: int)
    requires k <= |q| && t !in q
    ensures IndexOf(InsertAt(q, k, t), t) == k
  {
    hide IndexOf;
    var r := InsertAt(q, k, t);
    InsertAtIndex(q, k, t);
    forall i | 0 <= i < |r| && i != k ensures r[i] != t { assert r[i] in q; }
    assert r[k] == t;
  }

  lemma PlaceInOrder(threads: map<int, Thread>, q: seq<int>, t: int)
    requires ByPriority(threads, q) && t in threads && t !in q
    ensures var r := InsertAt(q, Place(threads, q, threads[t].prio, 0), t);
            && ByPriority(threads, r)
            && forall i, j | 0 <= i < j < |r| && r[i] == t :: threads[t].prio < threads[r[j]].prio
  {
    var p := threads[t].prio;
    var k := Place(threads, q, p, 0);
    forall i | k <= i < |q| ensures p < threads[q[i]].prio { assert threads[q[k]].prio <= threads[q[i]].prio; }
    InOrderAt(threads, q, k, t);
  }

  lemma InOrderAt(threads: map<int, Thread>, q: seq<int>, k: nat, t: int)
    requires ByPriority(threads, q) && t in threads && t !in q && k <= |q|
    requires forall i | 0 <= i < k :: threads[q[i]].prio <= threads[t].prio
    requires forall i | k <= i < |q| :: threads[t].prio < threads[q[i]].prio
    ensures ByPriority(threads, InsertAt(q, k, t))
    ensures forall i, j | 0 <= i < j < |q| + 1 == |InsertAt(q, k, t)| && InsertAt(q, k, t)[i] == t ::
              threads[t].prio < threads[InsertAt(q, k, t)[j]].prio
  {
    InsertAtIndex(q, k, t);
    var r := InsertAt(q, k, t);
    assert Known(threads, r);
    assert forall i | 0 <= i < |q| :: q[i] in q;
    forall i, j | 0 <= i < j < |r|
      ensures threads[r[i]].prio <= threads[r[j]].prio && (r[i] == t ==> threads[t].prio < threads[r[j]].prio)
    {
      if i < k && j < k {
        assert threads[q[i]].prio <= threads[q[j]].prio && r[i] == q[i] && r[j] == q[j];
      } else if k < i {
        assert threads[q[i - 1]].prio <= threads[q[j - 1]].prio && r[i] == q[i - 1] && r[j] == q[j - 1];
      } else if i < k < j {
        assert r[i] == q[i] && r[j] == q[j - 1];
      }
    }
  }

  lemma SetPriorityCore(s: Sys, t: int, p: nat, out: set<int>)
    requires Core(s, out) && t in s.threads && p < PRIORITY_MAX && (s.threads[t].stat != Ready || t in out)
    ensures Core(SetPriority(s, t, p), out)
  {
    var u := SetPriority(s, t, p);
    forall l | l in u.lists ensures ListOk(u.threads, u.lists[l], out) { assert ListOk(s.threads, s.lists[l], out); }
    forall q | 0 <= q < PRIORITY_MAX ensures QueueOk(u.threads, u.ready[q], q, out) {
      assert QueueOk(s.threads, s.ready[q], q, out);
    }
  }

  /** A READY thread moves to the queue of its new priority; no other thread moves. */
  lemma ChangePriorityKeeps(s: Sys, t: int, p: nat)
    requires Inv(s) && t in s.threads && p < PRIORITY_MAX
    ensures Inv(ChangePriority(s, t, p)) && ChangePriority(s, t, p).lists == s.lists
    ensures ChangePriority(s, t, p).current == s.current && ChangePriority(s, t, p).locks == s.locks
    ensures ChangePriority(s, t, p).threads == s.threads[t := s.threads[t].(prio := p, mask := Mask(p))]
  {
    hide Has, QueueOk, ListOk, Apart, Mask;
    if s.threads[t].stat == Ready {
      ActiveNowhere(s, t, {});
      RemoveCore(s, t, {});
      assert {} + {t} == {t} && {t} - {t} == {};
      assert ThreadOk(s.threads[t], true, t == s.current);
      SetPriorityCore(Remove(s, t), t, p, {t});
      InsertCore(SetPriority(Remove(s, t), t, p), t, {t});
    } else {
      SetPriorityCore(s, t, p, {});
    }
  }

  // ---- and to the ready queues

  /** A thread that can run again goes to the tail of the queue of its priority, unless it still is the current one;
      the order of all others stays. */
  lemma ResumePlaces(s: Sys, t: int)
    requires Inv(s) && t in s.threads && s.threads[t].stat == Suspended
    ensures s.threads[t].prio < |s.ready|
    ensures var after := if t == s.current then s.ready
                         else s.ready[s.threads[t].prio := s.ready[s.threads[t].prio] + [t]];
            Resume(s, t).0.ready == after && Expire(s, t).ready == after
  {
    PrioInRange(s, t);
    forall p | 0 <= p < PRIORITY_MAX ensures Without(s.ready[p], t) == s.ready[p] {
      assert QueueOk(s.threads, s.ready[p], p, {});
    }
    assert Unlist(s, t).ready == s.ready;
  }

  /** A thread that is suspended leaves its queue; the order of all others stays. */
  lemma SuspendPlaces(s: Sys, t: int)
    requires Inv(s) && t in s.threads && Active(s.threads[t])
    ensures s.threads[t].prio < |s.ready| == |Suspend(s, t).0.ready|
    ensures forall p | 0 <= p < |s.ready| :: Suspend(s, t).0.ready[p] == Without(s.ready[p], t)
  {
    hide Core;
    PrioInRange(s, t);
  }

  /** A READY thread whose priority changes goes to the tail of the queue of the new one. */
  lemma ChangePlaces(s: Sys, t: int, p: nat)
    requires Inv(s) && t in s.threads && p < PRIORITY_MAX
    ensures s.threads[t].prio < |s.ready| == PRIORITY_MAX == |ChangePriority(s, t, p).ready|
    ensures forall q | 0 <= q < |s.ready| ::
              ChangePriority(s, t, p).ready[q] ==
              if s.threads[t].stat != Ready then s.ready[q]
              else Without(s.ready[q], t) + if q == p then [t] else []
  {
    hide Core;
    PrioInRange(s, t);
    if s.threads[t].stat == Ready { ReadyElsewhere(s, t); }
  }

  lemma ReadyElsewhere(s: Sys, t: int)
    requires Inv(s) && t in s.threads && s.threads[t].stat == Ready
    ensures t != s.current
  {
    assert ThreadOk(s.threads[t], true, t == s.current);
  }

  // ---- the remaining operations

  /** `rt_ipc_list_resume`: the first thread of a list. */
  function ResumeFirst(s: Sys, l: int): (u: Sys)
    requires Inv(s) && l in s.lists && s.lists[l] != []
  {
    ListsKnown(s, l);
    PrioInRange(s, s.lists[l][0]);
    Resume(s, s.lists[l][0]).0
  }

  lemma FirstWaits(s: Sys, l: int)
    requires Inv(s) && l in s.lists && s.lists[l] != []
    ensures s.lists[l][0] in s.threads && s.threads[s.lists[l][0]].stat == Suspended
    ensures Without(s.lists[l], s.lists[l][0]) == s.lists[l][1..]
    ensures forall m | m in s.lists && m != l :: s.lists[l][0] !in s.lists[m]
  {
    var t := s.lists[l][0];
    assert t in s.lists[l];
    assert ListOk(s.threads, s.lists[l], {});
    assert IndexOf(s.lists[l], t) == 0;
  }

  /** Waking the first waiter shortens that list by its head and no other list. */
  lemma ResumeFirstKeeps(s: Sys, l: int)
    requires Inv(s) && l in s.lists && s.lists[l] != []
    ensures Inv(ResumeFirst(s, l)) && SamePrio(s, ResumeFirst(s, l)) && ResumeFirst(s, l).current == s.current
    ensures ResumeFirst(s, l).lists == s.lists[l := s.lists[l][1..]]
    ensures var t := s.lists[l][0];
            && t in s.threads
            && ResumeFirst(s, l).threads == s.threads[t := s.threads[t].(armed := false,
                 stat := if t == s.current then Running else Ready)]
  {
    hide Inv, Core, Resume, Without;
    FirstWaits(s, l);
    var t := s.lists[l][0];
    ResumeKeeps(s, t);
    forall m | m in s.lists && m != l ensures Without(s.lists[m], t) == s.lists[m] { WithoutAbsent(s.lists[m], t); }
    var u, w := ResumeFirst(s, l), s.lists[l := s.lists[l][1..]];
    assert u.lists.Keys == w.Keys;
    assert forall m | m in s.lists :: u.lists[m] == w[m];
    assert u.lists == w;
  }

  lemma WithoutAbsent(q: seq<int>, t: int)
    requires t !in q
    ensures Without(q, t) == q
  {
  }

  /** `rt_ipc_list_resume_all`: every waiter is woken with -RT_ERROR. */
  function ResumeAll(s: Sys, l: int): (u: Sys)
    requires Inv(s) && l in s.lists
    decreases if l in s.lists then |s.lists[l]| else 0
  {
    if s.lists[l] == [] then s
    else
      FailFirst(s, l);
      ResumeAll(ResumeFirst(SetCode(s, s.lists[l][0], Failed), l), l)
  }

  /** The thread can run, with this error number and its timer stopped. */
  predicate RunsOn(x: Thread, c: Code) { Active(x) && x.code == c && !x.armed }

  /** Exactly the listed threads have been woken with an error. */
  ghost predicate Woken(s: Sys, u: Sys, list: seq<int>) {
    && (forall t | t in list :: t in u.threads && RunsOn(u.threads[t], Failed))
    && forall t | t in s.threads && t !in list :: t in u.threads && u.threads[t] == s.threads[t]
  }

  lemma {:induction false} ResumeAllKeeps(s: Sys, l: int)
    requires Inv(s) && l in s.lists
    ensures var u := ResumeAll(s, l);
            && Inv(u) && SamePrio(s, u) && u.current == s.current && u.lists == s.lists[l := []]
            && (forall t | t in s.threads && t !in s.lists[l] :: u.threads[t] == s.threads[t])
            && forall t | t in s.lists[l] :: t in u.threads && RunsOn(u.threads[t], Failed)
    decreases if l in s.lists then |s.lists[l]| else 0
  {
    hide Core, ResumeFirst;
    if s.lists[l] == [] {
      assert s.lists[l := []] == s.lists;
    } else {
      FailFirst(s, l);
      var t := s.lists[l][0];
      var v := ResumeFirst(SetCode(s, t, Failed), l);
      ResumeAllKeeps(v, l);
      assert v.lists[l := []] == s.lists[l := []];
      assert forall x | x in s.lists[l] :: x == t || x in v.lists[l];
    }
  }

  lemma FailFirst(s: Sys, l: int)
    requires Inv(s) && l in s.lists && s.lists[l] != []
    ensures s.lists[l][0] in s.threads && Inv(SetCode(s, s.lists[l][0], Failed))
    ensures var t := s.lists[l][0];
            var u := ResumeFirst(SetCode(s, t, Failed), l);
            && Inv(u) && SamePrio(s, u) && u.current == s.current && u.lists == s.lists[l := s.lists[l][1..]]
            && t !in s.lists[l][1..] && RunsOn(u.threads[t], Failed)
            && forall x | x in s.threads && x != t :: u.threads[x] == s.threads[x]
  {
    hide Core, ResumeFirst;
    FirstWaits(s, l);
    var t := s.lists[l][0];
    var v := SetCode(s, t, Failed);
    TouchCore(s, t, v.threads[t], {});
    ResumeFirstKeeps(v, l);
    HeadOnce(s, l);
  }

  lemma HeadOnce(s: Sys, l: int)
    requires Inv(s) && l in s.lists && s.lists[l] != []
    ensures s.lists[l][0] !in s.lists[l][1..]
  {
    assert ListOk(s.threads, s.lists[l], {});
  }

  /** `rt_ipc_get_highest_priority`, from the i-th waiter on. */
  function HighestOf(threads: map<int, Thread>, list: seq<int>, i: nat, p: nat): (r: nat)
    requires i <= |list| && Known(threads, list)
    ensures r <= p && forall j | i <= j < |list| :: r <= threads[list[j]].prio
    ensures r == p || exists j :: i <= j < |list| && r == threads[list[j]].prio
    decreases |list| - i
  {
    if i == |list| then p
    else HighestOf(threads, list, i + 1, if p < threads[list[i]].prio then p else threads[list[i]].prio)
  }

  /** `rt_thread_yield`. */
  function Yield(s: Sys): (u: Sys)
    requires Inv(s)
  {
    var x := s.threads[s.current];
    TouchCore(s, s.current, x.(left := x.slice, yielded := true), {});
    Schedule(s.(threads := s.threads[s.current := x.(left := x.slice, yielded := true)]))
  }

  /** The time slice part of `rt_tick_increase`; remaining_tick wraps around. */
  function TimeSlice(s: Sys): (u: Sys)
    requires Inv(s)
  {
    var x := s.threads[s.current];
    var left: nat := (x.left - 1) % WORD;
    var y := if left == 0 then x.(left := x.slice, yielded := true) else x.(left := left);
    TouchCore(s, s.current, y, {});
    var v := s.(threads := s.threads[s.current := y]);
    if left == 0 then Schedule(v) else v
  }

  /** `rt_thread_startup`. */
  function Startup(s: Sys, t: int): (u: Sys)
    requires Inv(s) && t in s.threads && s.threads[t].stat == Init
  {
    StartKeeps(s, t);
    Schedule(Resume(Started(s, t), t).0)
  }

  function Started(s: Sys, t: int): (u: Sys)
    requires t in s.threads && s.threads[t].base < PRIORITY_MAX
  {
    var x := s.threads[t];
    s.(threads := s.threads[t := x.(prio := x.base, mask := Mask(x.base), stat := Suspended, yielded := false)])
  }

  lemma StartKeeps(s: Sys, t: int)
    requires Inv(s) && t in s.threads && s.threads[t].stat == Init
    ensures s.threads[t].base < PRIORITY_MAX && Inv(Started(s, t))
    ensures Started(s, t).threads[t].prio < |s.ready| && Inv(Resume(Started(s, t), t).0)
  {
    assert ThreadOk(s.threads[t], true, t == s.current);
    var u := Started(s, t);
    hide Has, Resume;
    forall l | l in u.lists ensures ListOk(u.threads, u.lists[l], {}) { assert ListOk(s.threads, s.lists[l], {}); }
    forall q | 0 <= q < PRIORITY_MAX ensures QueueOk(u.threads, u.ready[q], q, {}) {
      assert QueueOk(s.threads, s.ready[q], q, {});
    }
    ResumeKeeps(u, t);
  }

  /** A started thread is READY at the tail of the queue of its initial priority; nothing else changes. */
  lemma StartEffect(s: Sys, t: int)
    requires Inv(s) && t in s.threads && s.threads[t].stat == Init
    ensures s.threads[t].base < |s.ready|
    ensures Started(s, t).threads[t].prio < |s.ready|
    ensures var u, x := Resume(Started(s, t), t).0, s.threads[t];
            && u.threads == s.threads[t := x.(prio := x.base, mask := Mask(x.base), stat := Ready, yielded := false,
                                                armed := false)]
            && u.ready == s.ready[x.base := s.ready[x.base] + [t]] && u.group == SetBit(s.group, x.base)
            && u.lists == s.lists && u.current == s.current && u.locks == s.locks
  {
    hide Has, ListOk, Apart, Or, Mask;
    assert ThreadOk(s.threads[t], true, t == s.current);
    ActiveNowhere(s, t, {});
    forall p | 0 <= p < PRIORITY_MAX ensures Without(s.ready[p], t) == s.ready[p] {
      assert QueueOk(s.threads, s.ready[p], p, {});
    }
    forall l | l in s.lists ensures Without(s.lists[l], t) == s.lists[l] { assert t !in s.lists[l]; }
    assert Unlist(Started(s, t), t).lists == s.lists;
    assert Unlist(Started(s, t), t).ready == s.ready;
  }

  /** `rt_thread_exit`: the current thread closes. */
  function Exit(s: Sys): (u: Sys)
    requires Inv(s) && s.threads[s.current].stat == Running
  {
    ExitKeeps(s);
    Schedule(Left(s))
  }

  function Left(s: Sys): (u: Sys)
    requires s.current in s.threads && s.threads[s.current].prio < |s.ready|
  {
    Arm(Unyield(SetStat(Remove(s, s.current), s.current, Closed), s.current), s.current, false)
  }

  lemma ExitKeeps(s: Sys)
    requires Inv(s) && s.threads[s.current].stat == Running
    ensures s.threads[s.current].prio < |s.ready| && Inv(Left(s))
  {
    hide Has, QueueOk, ListOk, Apart;
    var t := s.current;
    ActiveNowhere(s, t, {});
    RemoveCore(s, t, {});
    assert {} + {t} == {t} && {t} - {t} == {};
    assert ThreadOk(s.threads[t], true, true);
    SetStatCore(Remove(s, t), t, {t}, Closed);
    var u := SetStat(Remove(s, t), t, Closed);
    var y := u.threads[t].(yielded := false, armed := false);
    TouchCore(u, t, y, {});
    assert Left(s) == u.(threads := u.threads[t := y]);
  }

  /** A thread that exits is closed, in no queue and on no list, and its timer stops; nothing else changes. */
  lemma ExitEffect(s: Sys)
    requires Inv(s) && s.threads[s.current].stat == Running
    ensures s.threads[s.current].prio < |s.ready|
    ensures var u, t := Left(s), s.current;
            && u.threads == s.threads[t := s.threads[t].(stat := Closed, yielded := false, armed := false)]
            && u.ready == s.ready && (forall p | 0 <= p < |s.ready| :: t !in s.ready[p])
            && u.lists == s.lists && Nowhere(u, t) && u.current == t && u.locks == s.locks
  {
    hide Has, ListOk, Apart, AndNot;
    var t := s.current;
    assert ThreadOk(s.threads[t], true, true);
    ActiveNowhere(s, t, {});
    forall p | 0 <= p < PRIORITY_MAX ensures t !in s.ready[p] { assert QueueOk(s.threads, s.ready[p], p, {}); }
    RemoveCore(s, t, {});
    assert Unlist(s, t).ready == s.ready;
  }

  function Lock(s: Sys): (u: Sys) { s.(locks := s.locks + 1) }

  /** `rt_exit_critical`. */
  function Unlock(s: Sys): (u: Sys)
    requires Inv(s)
  {
    if s.locks > 1 then s.(locks := s.locks - 1) else Schedule(s.(locks := 0))
  }

  // ---- taking turns, and what the other calls amount to

  /** Yielding, the running thread lets the first of its equals run, if there is one, and goes behind the last;
      it has a full slice, and whether it was marked before makes no difference. */
  lemma YieldEffect(s: Sys)
    requires Inv(s) && s.locks == 0 && s.group != 0 && s.threads[s.current].stat == Running
    requires s.threads[s.current].prio == Highest(s)
    ensures Turned(s, Yield(s))
  {
    hide Core, Schedule;
    CurrentKnown(s);
    var x := s.threads[s.current];
    SpentEffect(s, x.(left := x.slice, yielded := true));
  }

  /** The last tick of a slice does the same; any other tick only counts it down. */
  lemma TimeSliceEffect(s: Sys)
    requires Inv(s)
    ensures var x := s.threads[s.current];
            if (x.left - 1) % WORD == 0 then
              s.locks == 0 && s.group != 0 && x.stat == Running && x.prio == Highest(s) ==> Turned(s, TimeSlice(s))
            else TimeSlice(s) == s.(threads := s.threads[s.current := x.(left := (x.left - 1) % WORD)])
  {
    hide Core, Schedule;
    CurrentKnown(s);
    var x := s.threads[s.current];
    if (x.left - 1) % WORD == 0 && s.locks == 0 && s.group != 0 && x.stat == Running && x.prio == Highest(s) {
      SpentEffect(s, x.(left := x.slice, yielded := true));
    }
  }

  /** The first thread as urgent as the running one runs; that one is behind the last, with a full slice. */
  ghost predicate Turned(s: Sys, u: Sys)
    requires Inv(s) && s.group != 0
  {
    var p, c := Highest(s), s.current;
    var to := s.ready[p][0];
    && Inv(u) && u.current == to && to != c && to in s.threads && c in s.threads
    && u.ready == s.ready[p := s.ready[p][1..] + [c]] && u.locks == s.locks && u.lists == s.lists
    && u.threads == s.threads[c := s.threads[c].(stat := Ready, yielded := false, left := s.threads[c].slice)][to :=
                      s.threads[to].(stat := Running)]
  }

  lemma SpentEffect(s: Sys, y: Thread)
    requires Inv(s) && s.locks == 0 && s.group != 0 && s.threads[s.current].stat == Running
    requires s.threads[s.current].prio == Highest(s)
    requires y == s.threads[s.current].(left := s.threads[s.current].slice, yielded := true)
    ensures Inv(s.(threads := s.threads[s.current := y]))
    ensures Turned(s, Schedule(s.(threads := s.threads[s.current := y])))
  {
    hide Core, Schedule;
    CurrentKnown(s);
    assert !s.threads[s.current].armed by { HeadReady(s, Highest(s)); }
    TouchCore(s, s.current, y, {});
    var v := s.(threads := s.threads[s.current := y]);
    assert Highest(v) == Highest(s);
    HeadReady(s, Highest(s));
    ScheduleSwitches(v);
    ScheduleKeeps(v);
  }

  /** The n-th of the turns. */
  ghost function Turns(s: Sys, n: nat): (u: Sys)
    requires Inv(s)
    ensures Inv(u)
  {
    if n == 0 then s else YieldKeeps(Turns(s, n - 1)); Yield(Turns(s, n - 1))
  }

  lemma YieldKeeps(s: Sys)
    requires Inv(s)
    ensures Inv(Yield(s))
  {
    hide Core, Schedule;
    CurrentKnown(s);
    var x := s.threads[s.current];
    var y := x.(left := x.slice, yielded := true);
    assert x.armed ==> x.stat == Suspended by { CurrentThread(s); }
    TouchCore(s, s.current, y, {});
    ScheduleKeeps(s.(threads := s.threads[s.current := y]));
  }

  lemma CurrentThread(s: Sys)
    requires Inv(s)
    ensures s.current in s.threads && ThreadOk(s.threads[s.current], true, true)
  {
  }

  /** Threads as urgent as the running one all get their turn, in the order in which they are queued. */
  lemma {:induction false} EverybodysTurn(s: Sys, n: nat)
    requires Inv(s) && s.locks == 0 && s.group != 0 && s.threads[s.current].stat == Running
    requires s.threads[s.current].prio == Highest(s) && n < |s.ready[Highest(s)]|
    ensures var u, p := Turns(s, n + 1), Highest(s);
            && u.current == s.ready[p][n] && u.current in u.threads
            && u.ready == s.ready[p := s.ready[p][n + 1..] + [s.current] + s.ready[p][..n]]
            && u.locks == 0 && u.group != 0 && u.threads[u.current].stat == Running && u.threads[u.current].prio == p
            && Highest(u) == p
  {
    hide Core, Yield;
    var p := Highest(s);
    var q := s.ready[p];
    if n == 0 {
      assert Turns(s, 0) == s && Turns(s, 1) == Yield(s);
      YieldEffect(s);
      TurnedOn(s, Yield(s));
      assert q[1..] + [s.current] + q[..0] == q[1..] + [s.current];
    } else {
      EverybodysTurn(s, n - 1);
      var v := Turns(s, n);
      YieldEffect(v);
      TurnedOn(v, Yield(v));
      var r := v.ready[p];
      assert r == q[n..] + [s.current] + q[..n - 1];
      assert r[0] == q[n] && r[1..] + [q[n - 1]] == q[n + 1..] + [s.current] + q[..n];
    }
  }

  lemma TurnedOn(s: Sys, u: Sys)
    requires Inv(s) && s.group != 0 && s.threads[s.current].prio == Highest(s) && Turned(s, u)
    ensures u.group != 0 && Highest(u) == Highest(s)
    ensures u.threads[u.current].stat == Running && u.threads[u.current].prio == Highest(s)
  {
    var p := Highest(s);
    HeadReady(s, p);
    assert u.ready[p] != [] && Has(u.group, p);
    NoBits();
    assert forall k | 0 <= k < p :: u.ready[k] == [];
  }

  /** As long as it is locked more than once, an unlock leaves everything but the count; the last one schedules. */
  lemma {:induction false} UnlockNests(s: Sys, n: nat)
    requires Inv(s)
    ensures LockTimes(s, n) == s.(locks := s.locks + n)
    ensures n > 0 ==> Unlock(LockTimes(s, n)) == if s.locks + n > 1 then LockTimes(s, n - 1) else Schedule(s)
    ensures Inv(LockTimes(s, n))
  {
    hide Schedule, QueueOk, ListOk, Has, ThreadOk;
    if n > 0 { UnlockNests(s, n - 1); }
    if s.locks + n == 1 && n > 0 { assert LockTimes(s, n).(locks := 0) == s; }
  }

  ghost function LockTimes(s: Sys, n: nat): (u: Sys) { if n == 0 then s else Lock(LockTimes(s, n - 1)) }

  /** After a startup, the idle thread able to run, nobody READY is more urgent than the running thread. */
  lemma StartupUrgent(s: Sys, t: int, idle: int)
    requires Inv(s) && t in s.threads && s.threads[t].stat == Init && s.locks == 0
    requires idle in s.threads && Active(s.threads[idle])
    ensures var u := Startup(s, t);
            && Inv(u) && u.threads[u.current].stat == Running && t in u.threads && Active(u.threads[t])
            && forall x | x in u.threads && u.threads[x].stat == Ready :: u.threads[u.current].prio <= u.threads[x].prio
  {
    hide Core, Schedule, Resume;
    StartKeeps(s, t);
    StartEffect(s, t);
    var v := Resume(Started(s, t), t).0;
    assert idle != t;
    MostUrgentRuns(v, idle);
    ScheduleStates(v);
  }

  /** After an exit the first of the most urgent READY threads runs. */
  lemma ExitGivesWay(s: Sys)
    requires Inv(s) && s.threads[s.current].stat == Running && s.locks == 0 && s.group != 0
    ensures var u, to := Exit(s), s.ready[Highest(s)][0];
            && u.current == to && to in u.threads && u.threads[to].stat == Running
            && s.current in u.threads && u.threads[s.current].stat == Closed && !u.threads[s.current].armed
  {
    hide Core, Schedule, Remove;
    ExitKeeps(s);
    ExitEffect(s);
    HeadReady(s, Highest(s));
    LeftHighest(s);
    SchedulePicks(Left(s));
  }

  lemma LeftHighest(s: Sys)
    requires Inv(s) && s.threads[s.current].stat == Running && s.group != 0
    requires s.threads[s.current].prio < |s.ready| && Inv(Left(s)) && Left(s).ready == s.ready
    ensures Left(s).group != 0 && Highest(Left(s)) == Highest(s)
  {
    hide Remove;
    var p := Highest(s);
    assert Has(Left(s).group, p);
    NoBits();
  }
}
