/** What stops, starts and periodic timers come to: after each timeout function, and over whole runs. */
module TimerRuns {
  import opened Lists
  import opened TimerQueue

  // ---- a start that was given up

  /** A start that was given up never fires, whatever happens afterwards. */
  lemma DroppedNeverFires(s: State, es: seq<Event>, cb: Callback, n: nat)
    requires Idle(s) && n in s.dropped
    ensures n in Run(s, es, cb).dropped && Answers(Run(s, es, cb).log, n, |Run(s, es, cb).log|) == 0
  {
    var t := Run(s, es, cb);
    assert !Fired(t, n);
    forall x | x in t.log ensures x.e.stamp != n { assert x == Shot(t.started[x.e.stamp], x.e.deadline); }
    AnswersNone(t.log, n, |t.log|);
  }

  /** From a stop of a timer on, none of its earlier starts fires any more, over any run. */
  lemma StoppedNeverFires(s: State, id: int, es: seq<Event>, cb: Callback, n: nat)
    requires Idle(s) && id in s.init && n < |s.started| && s.started[n].id == id
    ensures var t := Run(s, [Call(Stop(id))] + es, cb);
            Answers(t.log, n, |t.log|) == Answers(s.log, n, |s.log|)
  {
    hide Inv, Exec;
    var all := [Call(Stop(id))] + es;
    assert all[1..] == es;
    var u := Step(s, Call(Stop(id)), cb);
    var t := Run(u, es, cb);
    assert t == Run(s, all, cb);
    StopStops(s, id);
    DroppedIsLost(s, n);
    DroppedIsLost(t, n);
    if n in s.dropped {
      DroppedNeverFires(s, [], cb, n);
      DroppedNeverFires(s, all, cb, n);
    } else if Queued(s, n) {
      FiresOnce(s, n);
      DroppedNeverFires(u, es, cb, n);
    } else {
      FiresOnce(s, n);
      FiresOnce(t, n);
    }
  }

  lemma DroppedIsLost(s: State, n: nat)
    requires Inv(s) && n < |s.started|
    ensures n in s.dropped ==> !Fired(s, n)
    ensures n !in s.dropped && !Queued(s, n) ==> Fired(s, n)
    ensures Queued(s, n) ==> s.started[n].deadline >= s.now
  {
  }

  // ---- what a timeout function asks for

  /** Timer `id` waits for the same deadline, or for none, and is parked or not as before. */
  ghost predicate Alike(s: State, t: State, id: int) {
    && (forall e: Entry | e.id == id :: e in t.q <==> e in s.q)
    && (t.parked == Timer(id) <==> s.parked == Timer(id))
    && t.now == s.now && t.periodic == s.periodic && t.init.Keys == s.init.Keys
  }

  lemma SparedAlike(s: State, r: Request, id: int)
    requires Inv(s) && Legal(s.init, r) && Spares(r, id)
    ensures Alike(s, Exec(s, r), id)
  {
    hide Inv, GivesUp;
    match r
    case Start(other) => StartStarts(s, other);
    case Stop(other) => StopStops(s, other);
    case SetTime(_, _) =>
  }

  lemma {:induction false} AllSparedAlike(s: State, rs: seq<Request>, j: nat, n: nat, id: int)
    requires Inv(s) && j <= n <= |rs| && forall i | j <= i < n :: Spares(rs[i], id)
    ensures Alike(ExecAll(s, rs, j), ExecAll(s, rs, n), id)
  {
    hide Inv, Exec;
    if j < n {
      AllSparedAlike(s, rs, j, n - 1, id);
      ExecAllKeeps(s, rs, n - 1);
      var t := ExecAll(s, rs, n - 1);
      if Legal(t.init, rs[n - 1]) { SparedAlike(t, rs[n - 1], id); }
    }
  }

  /** When its timeout function has returned, a periodic timer still parked waits for one more period; else nothing
      has changed. */
  lemma SettleEffect(s: State, id: int)
    requires Inv(s) && id in s.init
    ensures var t := Settle(s, id);
            && (forall e: Entry | e.id != id :: e in t.q <==> e in s.q)
            && if s.parked == Timer(id) && id in s.periodic
               then forall e: Entry | e.id == id :: e in t.q <==> e == Entry(id, s.now + s.init[id], |s.started|)
               else t.q == s.q
  {
    var u := s.(parked := Nobody);
    assert Inv(u) by { hide Sorted, OneEach; }
    hide Inv, GivesUp, Drop, Push;
    if s.parked == Timer(id) && id in s.periodic { StartStarts(u, id); }
  }

  /** The head and what its timeout function asks for. */
  ghost predicate Firing(s: State, cb: Callback, rs: seq<Request>) {
    Inv(s) && |s.q| > 0 && s.q[0].deadline <= s.now && rs == cb(s.q[0].id, |s.log|)
  }

  lemma ShiftEffect(s: State)
    requires Inv(s) && |s.q| > 0 && s.q[0].deadline <= s.now
    ensures Inv(Shift(s)) && s.q[0].id in s.init
    ensures forall e :: e in Shift(s).q <==> e in s.q && e.id != s.q[0].id
  {
    ShiftKeeps(s);
    ShiftQueue(s);
    assert s.q[0] in s.q;
  }

  /** If the timeout function leaves timer `id` alone, a firing does nothing to it unless it is the one that fired:
      that one waits for one more period if it is periodic, and for nothing if not. */
  lemma FireSpares(s: State, cb: Callback, rs: seq<Request>, id: int)
    requires Firing(s, cb, rs) && AllSpare(rs, id)
    ensures var t := Fire(s, cb);
            if id != s.q[0].id then forall e: Entry | e.id == id :: e in t.q <==> e in s.q
            else if id in s.periodic then
              id in t.init && exists e :: e in t.q && e.id == id && e.deadline == s.now + t.init[id]
            else forall e | e in t.q :: e.id != id
  {
    hide Inv, ExecAll, Settle;
    ShiftEffect(s);
    AllSparedAlike(Shift(s), rs, 0, |rs|, id);
    ExecAllKeeps(Shift(s), rs, |rs|);
    assert ExecAll(Shift(s), rs, 0) == Shift(s) by { ExecNone(Shift(s), rs); }
    var u := ExecAll(Shift(s), rs, |rs|);
    SettleEffect(u, s.q[0].id);
    SettleInit(u, s.q[0].id);
    if id == s.q[0].id && id in s.periodic { assert Entry(id, u.now + u.init[id], |u.started|) in Fire(s, cb).q; }
  }

  lemma ExecNone(s: State, rs: seq<Request>)
    ensures ExecAll(s, rs, 0) == s
  {
  }

  lemma SettleInit(s: State, id: int)
    ensures Settle(s, id).init == s.init
  {
  }

  /** If the last thing a timeout function asks about timer `id` is to stop it, it waits for nothing afterwards;
      even the timer that fired does not come again. */
  lemma FireStops(s: State, cb: Callback, rs: seq<Request>, id: int, j: nat)
    requires Firing(s, cb, rs) && j < |rs| && rs[j] == Stop(id) && id in s.init
    requires forall i | j < i < |rs| :: Spares(rs[i], id)
    ensures forall e | e in Fire(s, cb).q :: e.id != id
  {
    hide Inv, Exec, Settle, GivesUp;
    ShiftEffect(s);
    ExecAllKeeps(Shift(s), rs, j);
    ExecAllKeeps(Shift(s), rs, |rs|);
    var u := ExecAll(Shift(s), rs, j);
    assert Legal(u.init, rs[j]) && ExecAll(Shift(s), rs, j + 1) == Exec(u, rs[j]);
    StopStops(u, id);
    AllSparedAlike(Shift(s), rs, j + 1, |rs|, id);
    SettleEffect(ExecAll(Shift(s), rs, |rs|), s.q[0].id);
  }

  /** If it is to start it, the timer waits for the delay it had at that request, and is not started once more. */
  lemma FireStarts(s: State, cb: Callback, rs: seq<Request>, id: int, j: nat)
    requires Firing(s, cb, rs) && j < |rs| && rs[j] == Start(id) && id in s.init
    requires forall i | j < i < |rs| :: Spares(rs[i], id)
    ensures var u := ExecAll(Shift(s), rs, j);
            && id in u.init
            && forall e: Entry | e.id == id :: e in Fire(s, cb).q <==> e == Entry(id, s.now + u.init[id], |u.started|)
  {
    hide Inv, Exec, Settle, GivesUp;
    ShiftEffect(s);
    ExecAllKeeps(Shift(s), rs, j);
    ExecAllKeeps(Shift(s), rs, |rs|);
    var u := ExecAll(Shift(s), rs, j);
    assert Legal(u.init, rs[j]) && ExecAll(Shift(s), rs, j + 1) == Exec(u, rs[j]);
    StartStarts(u, id);
    AllSparedAlike(Shift(s), rs, j + 1, |rs|, id);
    SettleEffect(ExecAll(Shift(s), rs, |rs|), s.q[0].id);
  }

  // ---- periodic timers

  /** When timer `id` fired, by the first k shots of the log. */
  ghost function TimesOf(log: seq<Shot>, id: int, k: nat): (r: seq<nat>)
    requires k <= |log|
  {
    if k == 0 then []
    else TimesOf(log, id, k - 1) + if log[k - 1].e.id == id then [log[k - 1].at] else []
  }

  lemma {:induction false} TimesKept(log: seq<Shot>, more: seq<Shot>, id: int, k: nat)
    requires k <= |log| <= |more| && more[..|log|] == log
    ensures TimesOf(more, id, k) == TimesOf(log, id, k)
  {
    if k > 0 {
      TimesKept(log, more, id, k - 1);
      assert more[k - 1] == more[..|log|][k - 1];
    }
  }

  lemma {:induction false} TimesIn(log: seq<Shot>, id: int, k: nat)
    requires k <= |log|
    ensures forall a | a in TimesOf(log, id, k) :: exists x :: x in log && x.at == a
  {
    if k > 0 {
      TimesIn(log, id, k - 1);
      assert log[k - 1] in log;
    }
  }

  /** The first k beats of period p from d on. */
  function Beats(d: nat, p: nat, k: nat): (r: seq<nat>) { seq(k, j requires 0 <= j < k => d + j * p) }

  /** Timer `id` has fired k times since `before`, a period apart, and waits for the next beat. */
  ghost predicate Beating(s: State, id: int, d: nat, p: nat, before: seq<nat>, k: nat) {
    && id in s.periodic && id in s.init && s.init[id] == p
    && TimesOf(s.log, id, |s.log|) == before + Beats(d, p, k)
    && exists e :: e in s.q && e.id == id && e.deadline == d + k * p
  }

  predicate Names(r: Request, id: int) { r.id == id }

  /** No timeout function asks anything about timer `id`. */
  ghost predicate Silent(cb: Callback, id: int) {
    forall t: int, n: nat :: forall i | 0 <= i < |cb(t, n)| :: !Names(cb(t, n)[i], id)
  }

  lemma {:induction false} DelayKept(s: State, rs: seq<Request>, n: nat, id: int)
    requires Inv(s) && n <= |rs| && id in s.init && forall i | 0 <= i < |rs| :: !Names(rs[i], id)
    ensures id in ExecAll(s, rs, n).init && ExecAll(s, rs, n).init[id] == s.init[id]
  {
    if n > 0 { DelayKept(s, rs, n - 1, id); }
  }

  lemma NextBeat(d: nat, p: nat, k: nat)
    ensures d + (k + 1) * p == d + k * p + p && Beats(d, p, k + 1) == Beats(d, p, k) + [d + k * p]
  {
  }

  lemma FireBeats(s: State, cb: Callback, id: int, d: nat, p: nat, before: seq<nat>, k: nat) returns (k': nat)
    requires Inv(s) && |s.q| > 0 && s.q[0].deadline <= s.now && Silent(cb, id) && Beating(s, id, d, p, before, k)
    ensures Beating(Fire(s, cb), id, d, p, before, k')
  {
    hide Inv, ExecAll, Settle, Beats;
    var rs, h := cb(s.q[0].id, |s.log|), s.q[0];
    FireKeeps(s, cb);
    FireSpares(s, cb, rs, id);
    ShiftEffect(s);
    DelayKept(Shift(s), rs, |rs|, id);
    SettleInit(ExecAll(Shift(s), rs, |rs|), h.id);
    var t := Fire(s, cb);
    TimesKept(s.log, t.log, id, |s.log|);
    assert s.now == h.deadline && forall e | e in s.q && e.id == h.id :: e == h by { HeadAlone(s); }
    if h.id == id {
      NextBeat(d, p, k);
      k' := k + 1;
    } else {
      k' := k;
    }
  }

  lemma HeadAlone(s: State)
    requires Inv(s) && |s.q| > 0 && s.q[0].deadline <= s.now
    ensures s.now == s.q[0].deadline && forall e | e in s.q && e.id == s.q[0].id :: e == s.q[0]
  {
    assert s.q[0] in s.q;
    forall e | e in s.q && e.id == s.q[0].id ensures e == s.q[0] {
      var i :| 0 <= i < |s.q| && s.q[i] == e;
    }
  }

  lemma {:induction false} CheckBeats(s: State, cb: Callback, id: int, d: nat, p: nat, before: seq<nat>, k: nat)
    returns (k': nat)
    requires Inv(s) && Silent(cb, id) && Beating(s, id, d, p, before, k)
    ensures Beating(Check(s, cb), id, d, p, before, k')
    decreases Due(s)
  {
    hide Inv, Fire, Due, Beating;
    if |s.q| > 0 && s.q[0].deadline <= s.now {
      FireKeeps(s, cb);
      k' := FireBeats(s, cb, id, d, p, before, k);
      k' := CheckBeats(Fire(s, cb), cb, id, d, p, before, k');
    } else {
      k' := k;
    }
  }

  lemma StepBeats(s: State, e: Event, cb: Callback, id: int, d: nat, p: nat, before: seq<nat>, k: nat)
    returns (k': nat)
    requires Idle(s) && Silent(cb, id) && (e.Call? ==> !Names(e.r, id)) && Beating(s, id, d, p, before, k)
    ensures Beating(Step(s, e, cb), id, d, p, before, k')
  {
    hide Inv, Due, Exec, Check;
    k' := k;
    match e
    case Tick =>
      TickKeeps(s);
      k' := CheckBeats(s.(now := s.now + 1), cb, id, d, p, before, k);
    case Call(r) =>
      if Legal(s.init, r) {
        ExecKeeps(s, r);
        SparedAlike(s, r, id);
        DelayKept(s, [r], 1, id);
        assert ExecAll(s, [r], 1) == Exec(s, r) by { ExecNone(s, [r]); }
      }
  }

  lemma {:induction false} RunBeats(s: State, es: seq<Event>, cb: Callback, id: int, d: nat, p: nat, before: seq<nat>,
                                    k: nat)
    returns (k': nat)
    requires Idle(s) && Silent(cb, id) && Beating(s, id, d, p, before, k)
    requires forall e | e in es && e.Call? :: !Names(e.r, id)
    ensures Beating(Run(s, es, cb), id, d, p, before, k')
    decreases |es|
  {
    hide Idle, Beating, Step;
    k' := k;
    if es != [] {
      k' := StepBeats(s, es[0], cb, id, d, p, before, k);
      k' := RunBeats(Step(s, es[0], cb), es[1..], cb, id, d, p, before, k');
    }
  }

  /** Between two ticks every beat that has come is in the log, and the next one has not come. */
  lemma BeatsByNow(s: State, id: int, d: nat, p: nat, before: seq<nat>, k: nat)
    requires Idle(s) && Beating(s, id, d, p, before, k)
    ensures s.now < d + k * p && (k > 0 ==> d + (k - 1) * p <= s.now)
  {
    hide TimesOf, Sorted, OneEach, Conserved;
    DueIs(s);
    assert forall x | x in s.q :: x.deadline > s.now;
    if k > 0 {
      var times := TimesOf(s.log, id, |s.log|);
      var last: nat := Beats(d, p, k)[k - 1];
      assert times[|before| + k - 1] == last && last in times;
      TimesIn(s.log, id, |s.log|);
    }
  }

  /** A periodic timer that is left alone fires once a period, at each beat that has come and at no other time. */
  lemma FiresEveryPeriod(s: State, es: seq<Event>, cb: Callback, e: Entry)
    requires Idle(s) && e in s.q && e.id in s.periodic && Silent(cb, e.id)
    requires forall x | x in es && x.Call? :: !Names(x.r, e.id)
    ensures e.id in s.init
    ensures var t, p := Run(s, es, cb), s.init[e.id];
            exists k: nat ::
              && TimesOf(t.log, e.id, |t.log|) == TimesOf(s.log, e.id, |s.log|) + Beats(e.deadline, p, k)
              && t.now < e.deadline + k * p && (k > 0 ==> e.deadline + (k - 1) * p <= t.now)
  {
    hide Run, Due;
    var t, p, before := Run(s, es, cb), s.init[e.id], TimesOf(s.log, e.id, |s.log|);
    assert Beats(e.deadline, p, 0) == [];
    assert Beating(s, e.id, e.deadline, p, before, 0);
    var k := RunBeats(s, es, cb, e.id, e.deadline, p, before, 0);
    BeatsByNow(t, e.id, e.deadline, p, before, k);
  }
}
