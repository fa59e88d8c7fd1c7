/** Timers as one queue in true time: what the wheel of timer.c has to deliver. */
module TimerQueue {
  import opened Lists

  const HALF: nat := 0x7fff_ffff  // RT_TICK_MAX / 2

  /** One start of timer `id`; stamps number the starts. */
  datatype Entry = Entry(id: int, deadline: nat, stamp: nat)

  /** Entry `e` fired at time `at`. */
  datatype Shot = Shot(e: Entry, at: nat)

  datatype Request = Start(id: int) | Stop(id: int) | SetTime(id: int, ticks: nat)

  datatype Parked = Nobody | Timer(id: int)

  /** `parked` is the timer whose timeout function is running, until it is stopped or started again. */
  datatype State = State(now: nat, q: seq<Entry>, parked: Parked, init: map<int, nat>, periodic: set<int>,
                         started: seq<Entry>, dropped: set<nat>, log: seq<Shot>)

  /** What the timeout function of a timer does on the n-th firing of the run. */
  type Callback = (int, nat) -> seq<Request>

  predicate Less(a: Entry, b: Entry) {
    a.deadline < b.deadline || (a.deadline == b.deadline && a.stamp < b.stamp)
  }

  ghost predicate Sorted(q: seq<Entry>) {
    forall i, j | 0 <= i < j < |q| :: Less(q[i], q[j])
  }

  ghost predicate OneEach(q: seq<Entry>) {
    forall i, j | 0 <= i < j < |q| :: q[i].id != q[j].id
  }

  /** Linear scan: the number of leading entries due no later than d. */
  function Scan(q: seq<Entry>, d: nat, i: nat): (k: nat)
    requires i <= |q|
    ensures i <= k <= |q|
    ensures forall j | i <= j < k :: q[j].deadline <= d
    ensures k < |q| ==> q[k].deadline > d
    decreases |q| - i
  {
    if i < |q| && q[i].deadline <= d then Scan(q, d, i + 1) else i
  }

  function Insert(q: seq<Entry>, e: Entry): (r: seq<Entry>) {
    var k := Scan(q, e.deadline, 0);
    InsertAt(q, k, e)
  }

  function Find(q: seq<Entry>, id: int, i: nat): (k: nat)
    requires i <= |q|
    ensures i <= k <= |q| && (k < |q| ==> q[k].id == id)
    ensures forall j | i <= j < k :: q[j].id != id
    decreases |q| - i
  {
    if i < |q| && q[i].id != id then Find(q, id, i + 1) else i
  }

  function Removed(q: seq<Entry>, id: int): (r: seq<Entry>) {
    var k := Find(q, id, 0);
    if k < |q| then DeleteAt(q, k) else q
  }

  function Unpark(p: Parked, id: int): Parked { if p == Timer(id) then Nobody else p }

  function DropStamp(q: seq<Entry>, id: int): set<nat> {
    var k := Find(q, id, 0);
    if k < |q| then {q[k].stamp} else {}
  }

  /** Timer `id` leaves the queue; the start it was waiting for is given up. */
  function Drop(s: State, id: int): (t: State) {
    s.(q := Removed(s.q, id), parked := Unpark(s.parked, id), dropped := s.dropped + DropStamp(s.q, id))
  }

  function Push(s: State, id: int): (t: State)
    requires id in s.init
  {
    var e := Entry(id, s.now + s.init[id], |s.started|);
    s.(q := Insert(s.q, e), started := s.started + [e])
  }

  function Exec(s: State, r: Request): (t: State)
    requires Legal(s.init, r)
  {
    match r
    case Start(id) => Push(Drop(s, id), id)
    case Stop(id) => if Find(s.q, id, 0) < |s.q| || (s.parked == Timer(id) && id in s.periodic) then Drop(s, id) else s
    case SetTime(id, ticks) => s.(init := s.init[id := ticks])
  }

  /** A request the kernel accepts: a known timer, a delay of at least one tick and below the half range. */
  predicate Legal(init: map<int, nat>, r: Request) {
    r.id in init && (r.SetTime? ==> 1 <= r.ticks < HALF)
  }

  function ExecAll(s: State, rs: seq<Request>, n: nat): (t: State)
    requires n <= |rs|
  {
    if n == 0 then s
    else
      var t := ExecAll(s, rs, n - 1);
      if Legal(t.init, rs[n - 1]) then Exec(t, rs[n - 1]) else t
  }

  /** The number of entries whose time has come. */
  function Due(s: State): (n: nat) { Scan(s.q, s.now, 0) }

  /** The first entry leaves the queue and fires. */
  function Shift(s: State): (t: State)
    requires |s.q| > 0
  {
    s.(q := s.q[1..], parked := Timer(s.q[0].id), log := s.log + [Shot(s.q[0], s.now)])
  }

  /** The timeout function of timer `id` has returned: a periodic timer still parked is started again. */
  function Settle(s: State, id: int): (t: State) {
    var u := s.(parked := Nobody);
    if s.parked == Timer(id) && id in s.periodic && id in s.init then Exec(u, Start(id)) else u
  }

  function Fire(s: State, cb: Callback): (t: State)
    requires |s.q| > 0
  {
    var requests := cb(s.q[0].id, |s.log|);
    Settle(ExecAll(Shift(s), requests, |requests|), s.q[0].id)
  }

  ghost predicate Inv(s: State) {
    && (forall t | t in s.init :: 1 <= s.init[t] < HALF)
    && QueueInv(s)
    && LogInv(s)
    && Conserved(s)
  }

  /** The queue is ordered, holds each timer at most once, and nothing in it is overdue. */
  ghost predicate QueueInv(s: State) {
    && Sorted(s.q)
    && OneEach(s.q)
    && (forall e | e in s.q :: e.id in s.init && s.now <= e.deadline < s.now + HALF)
    && (s.parked.Timer? ==> s.parked.id in s.init && forall e | e in s.q :: e.id != s.parked.id)
  }

  /** Shots came on time, in deadline order with ties in start order, and before everything still queued. */
  ghost predicate LogInv(s: State) {
    && (forall x | x in s.log :: x.at == x.e.deadline <= s.now)
    && (forall i, j | 0 <= i < j < |s.log| :: Less(s.log[i].e, s.log[j].e))
    && (forall x, e | x in s.log && e in s.q :: Less(x.e, e))
  }

  ghost predicate Queued(s: State, n: nat)
    requires n < |s.started|
  {
    s.started[n] in s.q
  }

  ghost predicate Fired(s: State, n: nat)
    requires n < |s.started|
  {
    Shot(s.started[n], s.started[n].deadline) in s.log
  }

  /** Every start is queued, has fired, or was given up by a stop or a restart: one of the three. */
  ghost predicate Conserved(s: State) {
    && (forall n | 0 <= n < |s.started| :: s.started[n].stamp == n)
    && (forall e | e in s.q :: e.stamp < |s.started| && s.started[e.stamp] == e)
    && (forall x | x in s.log :: x.e.stamp < |s.started| && s.started[x.e.stamp] == x.e)
    && (forall n | n in s.dropped :: n < |s.started| && !Queued(s, n) && !Fired(s, n))
    && (forall n: nat | n < |s.started| :: n in s.dropped || Queued(s, n) || Fired(s, n))
  }

  lemma RemovedIs(q: seq<Entry>, id: int)
    requires Sorted(q) && OneEach(q)
    ensures Sorted(Removed(q, id)) && OneEach(Removed(q, id))
    ensures forall e :: e in Removed(q, id) <==> e in q && e.id != id
  {
    var k := Find(q, id, 0);
    if k < |q| {
      assert Distinct(q);
      DeleteIn(q, k);
      DeleteAtIndex(q, k);
      var r := DeleteAt(q, k);
      forall i, j | 0 <= i < j < |r| ensures Less(r[i], r[j]) && r[i].id != r[j].id {
        assert Less(q[if i < k then i else i + 1], q[if j < k then j else j + 1]);
      }
    }
  }

  lemma InsertIs(q: seq<Entry>, e: Entry)
    requires Sorted(q) && OneEach(q) && forall x | x in q :: x.stamp < e.stamp && x.id != e.id
    ensures Sorted(Insert(q, e)) && OneEach(Insert(q, e))
    ensures forall x :: x in Insert(q, e) <==> x in q || x == e
  {
    var k := Scan(q, e.deadline, 0);
    forall i | k <= i < |q| ensures Less(e, q[i]) {
      assert i == k || Less(q[k], q[i]);
    }
    assert forall i | 0 <= i < k :: q[i] in q;
    InsertAtSorted(q, k, e);
  }

  lemma InsertAtSorted(q: seq<Entry>, k: nat, e: Entry)
    requires Sorted(q) && OneEach(q) && k <= |q|
    requires forall i | 0 <= i < k :: Less(q[i], e)
    requires forall i | k <= i < |q| :: Less(e, q[i])
    requires forall x | x in q :: x.id != e.id
    ensures Sorted(InsertAt(q, k, e)) && OneEach(InsertAt(q, k, e))
    ensures forall x :: x in InsertAt(q, k, e) <==> x in q || x == e
  {
    InsertIn(q, k, e);
    InsertAtIndex(q, k, e);
    hide InsertAt;
    var r := InsertAt(q, k, e);
    forall i, j | 0 <= i < j < |r| ensures Less(r[i], r[j]) && r[i].id != r[j].id {
      if i != k && j != k {
        assert Less(q[if i < k then i else i - 1], q[if j < k then j else j - 1]);
      }
    }
  }

  /** Due counts the entries whose deadline has come. */
  lemma DueIs(s: State)
    requires Sorted(s.q)
    ensures Due(s) <= |s.q|
    ensures forall i | 0 <= i < |s.q| :: s.q[i].deadline <= s.now <==> i < Due(s)
  {
    var d := Due(s);
    forall i | d <= i < |s.q| ensures s.q[i].deadline > s.now {
      assert i == d || Less(s.q[d], s.q[i]);
    }
  }

  lemma DropKeeps(s: State, id: int)
    requires Inv(s)
    ensures Inv(Drop(s, id)) && Due(Drop(s, id)) <= Due(s)
    ensures forall e | e in Drop(s, id).q :: e.id != id
    ensures forall n: nat | n < |s.started| && n !in s.dropped && n in Drop(s, id).dropped ::
              s.started[n].id == id && Queued(s, n)
  {
    hide Sorted, OneEach, Removed, DeleteAt, Less;
    var t := Drop(s, id);
    RemovedIs(s.q, id);
    assert Find(s.q, id, 0) < |s.q| ==> s.q[Find(s.q, id, 0)] in s.q;
    DropConserves(s, id);
    DropDue(s, id);
    assert QueueInv(t) && LogInv(t);
  }

  lemma DropDue(s: State, id: int)
    requires Inv(s)
    ensures Due(Drop(s, id)) <= Due(s)
  {
    var t := Drop(s, id);
    RemovedIs(s.q, id);
    DueIs(s);
    DueIs(t);
    var k := Find(s.q, id, 0);
    if k < |s.q| {
      DeleteAtIndex(s.q, k);
      assert Due(s) < |t.q| ==> t.q[Due(s)].deadline > s.now;
    }
  }

  lemma DropConserves(s: State, id: int)
    requires Inv(s)
    ensures Conserved(Drop(s, id))
  {
    hide Removed, DeleteAt, Sorted;
    var t := Drop(s, id);
    var k := Find(s.q, id, 0);
    RemovedIs(s.q, id);
    assert k < |s.q| ==> s.q[k] in s.q;
    forall n | n in t.dropped ensures n < |t.started| && !Queued(t, n) && !Fired(t, n) {
      if n !in s.dropped {
        assert n == s.q[k].stamp;
        assert forall x | x in s.log :: x.e != s.q[k];
      }
    }
    forall n: nat | n < |t.started| ensures n in t.dropped || Queued(t, n) || Fired(t, n) {
      if Queued(s, n) && s.started[n].id == id {
        var i :| 0 <= i < |s.q| && s.q[i] == s.started[n];
        assert i == k;
      }
    }
  }

  lemma PushKeeps(s: State, id: int)
    requires Inv(s) && id in s.init && s.parked != Timer(id)
    requires forall e | e in s.q :: e.id != id
    ensures Inv(Push(s, id)) && Due(Push(s, id)) <= Due(s)
  {
    hide Sorted, OneEach, Insert, Due, Less;
    var t := Push(s, id);
    var e := t.started[|s.started|];
    InsertIs(s.q, e);
    PushDue(s, id);
    assert QueueInv(t);
    assert LogInv(t) by { LateEntry(s, e); }
    forall n: nat | n < |t.started| ensures n in t.dropped || Queued(t, n) || Fired(t, n) {
      if n < |s.started| { assert n in s.dropped || Queued(s, n) || Fired(s, n); }
    }
    forall n | n in t.dropped ensures n < |t.started| && !Queued(t, n) && !Fired(t, n) {
      assert !Queued(s, n) && !Fired(s, n);
    }
  }

  lemma LateEntry(s: State, e: Entry)
    requires LogInv(s) && e.deadline > s.now
    ensures forall x | x in s.log :: Less(x.e, e)
  {
  }

  lemma PushDue(s: State, id: int)
    requires Inv(s) && id in s.init
    requires forall e | e in s.q :: e.id != id
    ensures Due(Push(s, id)) <= Due(s)
  {
    var t := Push(s, id);
    var e := t.started[|s.started|];
    var k := Scan(s.q, e.deadline, 0);
    InsertIs(s.q, e);
    InsertAtIndex(s.q, k, e);
    DueIs(s);
    DueIs(t);
    assert Due(s) < |t.q| ==> t.q[Due(s)].deadline > s.now;
  }

  lemma ShiftKeeps(s: State)
    requires Inv(s) && |s.q| > 0 && s.q[0].deadline <= s.now
    ensures Inv(Shift(s)) && Due(Shift(s)) < Due(s)
  {
    hide QueueInv, LogInv, Conserved, Due;
    ShiftQueue(s);
    ShiftLog(s);
    ShiftConserves(s);
    ShiftDue(s);
  }

  lemma ShiftQueue(s: State)
    requires QueueInv(s) && |s.q| > 0
    ensures QueueInv(Shift(s)) && forall e | e in s.q :: e in Shift(s).q || e == s.q[0]
  {
    var h, rest := s.q[0], s.q[1..];
    assert h in s.q;
    forall i, j | 0 <= i < j < |rest| ensures Less(rest[i], rest[j]) && rest[i].id != rest[j].id {
      assert Less(s.q[i + 1], s.q[j + 1]) && s.q[i + 1].id != s.q[j + 1].id;
    }
    forall i | 0 <= i < |rest| ensures rest[i] in s.q && rest[i].id != h.id { assert rest[i] == s.q[i + 1]; }
    forall e | e in s.q && e != h ensures e in rest {
      var k :| 0 <= k < |s.q| && s.q[k] == e;
      assert rest[k - 1] == e;
    }
  }

  lemma ShiftLog(s: State)
    requires QueueInv(s) && LogInv(s) && |s.q| > 0 && s.q[0].deadline <= s.now
    ensures LogInv(Shift(s))
  {
    hide Less, OneEach;
    var t, h := Shift(s), s.q[0];
    assert h in s.q;
    forall i | 0 < i < |s.q| ensures Less(h, s.q[i]) && s.q[i] in s.q {}
    forall x, e | x in t.log && e in t.q ensures Less(x.e, e) {
      var k :| 0 <= k < |t.q| && t.q[k] == e;
      assert e == s.q[k + 1];
    }
    forall i | 0 <= i < |s.log| ensures Less(t.log[i].e, h) {
      var x := s.log[i];
      assert x in s.log;
    }
  }

  lemma ShiftConserves(s: State)
    requires QueueInv(s) && Conserved(s) && |s.q| > 0 && s.q[0].deadline <= s.now
    ensures Conserved(Shift(s))
  {
    var t, h := Shift(s), s.q[0];
    ShiftQueue(s);
    assert h in s.q && h.deadline == s.now;
    assert t.log[|s.log|] in t.log;
    forall x ensures x in t.log <==> x in s.log || x == Shot(h, s.now) {}
    hide QueueInv, Shift;
    forall n | n in t.dropped ensures !Queued(t, n) && !Fired(t, n) { assert !Queued(s, n) && !Fired(s, n); }
    forall n: nat | n < |t.started| ensures n in t.dropped || Queued(t, n) || Fired(t, n) {
      assert n in s.dropped || Queued(s, n) || Fired(s, n);
    }
  }

  lemma ShiftDue(s: State)
    requires QueueInv(s) && |s.q| > 0 && s.q[0].deadline <= s.now
    ensures Due(Shift(s)) < Due(s)
  {
    ShiftQueue(s);
    DueIs(s);
    DueIs(Shift(s));
    var d := Due(Shift(s));
    assert d > 0 ==> s.q[d] == Shift(s).q[d - 1];
  }

  /** What every step leaves alone: time, the past, and the starts of timers it does not name. */
  ghost predicate Later(s: State, t: State) {
    && t.now == s.now
    && s.log <= t.log
    && s.started <= t.started
    && s.dropped <= t.dropped
    && t.periodic == s.periodic
    && s.init.Keys == t.init.Keys
  }

  lemma ExecKeeps(s: State, r: Request)
    requires Inv(s) && Legal(s.init, r)
    ensures Inv(Exec(s, r)) && Due(Exec(s, r)) <= Due(s)
    ensures Later(s, Exec(s, r)) && Exec(s, r).log == s.log
    ensures Exec(s, r).parked == s.parked || Exec(s, r).parked == Nobody
    ensures forall n: nat | n < |s.started| && n !in s.dropped && n in Exec(s, r).dropped ::
              s.started[n].id == r.id && !r.SetTime? && Queued(s, n)
  {
    hide Scan, Insert, Removed;
    match r
    case Start(id) => DropKeeps(s, id); PushKeeps(Drop(s, id), id);
    case Stop(id) => DropKeeps(s, id);
    case SetTime(id, ticks) =>
      var t := Exec(s, r);
      assert QueueInv(t) && LogInv(t) && Conserved(t);
  }

  /** The start of timer `id` that is waiting for its deadline, if there is one, is given up; other starts are not. */
  ghost predicate GivesUp(s: State, t: State, id: int) {
    && s.started <= t.started
    && (forall e: Entry | e.stamp < |s.started| :: e in t.q <==> e in s.q && e.id != id)
    && forall n: nat :: n in t.dropped <==> n in s.dropped || (n < |s.started| && s.started[n].id == id && Queued(s, n))
  }

  lemma DropEffect(s: State, id: int)
    requires Inv(s)
    ensures GivesUp(s, Drop(s, id), id) && forall e | e in Drop(s, id).q :: e in s.q && e.id != id
    ensures Find(s.q, id, 0) == |s.q| <==> forall e | e in s.q :: e.id != id
  {
    hide Sorted, OneEach, Removed, DeleteAt;
    RemovedIs(s.q, id);
    var k, t := Find(s.q, id, 0), Drop(s, id);
    assert k < |s.q| ==> s.q[k] in s.q;
    forall e | e in s.q ensures k == |s.q| ==> e.id != id {
      var i :| 0 <= i < |s.q| && s.q[i] == e;
    }
    forall n: nat
      ensures n in t.dropped <==> n in s.dropped || (n < |s.started| && s.started[n].id == id && Queued(s, n))
    {
      if n < |s.started| && s.started[n].id == id && Queued(s, n) {
        assert s.started[n] !in t.q;
        assert n in t.dropped || Queued(t, n) || Fired(t, n) by { DropKeeps(s, id); }
        assert forall x | x in s.log :: x.e != s.started[n];
      }
    }
  }

  /** A stop takes the timer out of the queue, gives its waiting start up, and keeps it from being started again
      when its timeout function returns. */
  lemma StopStops(s: State, id: int)
    requires Inv(s) && id in s.init
    ensures var t := Exec(s, Stop(id));
            && GivesUp(s, t, id) && (forall e :: e in t.q <==> e in s.q && e.id != id)
            && t.parked == (if s.parked == Timer(id) && id in s.periodic then Nobody else s.parked)
            && t == s.(q := t.q, parked := t.parked, dropped := t.dropped)
  {
    hide Sorted, OneEach, Removed, DropStamp, Less;
    DropEffect(s, id);
    forall e | e in s.q && e.id != id ensures e.stamp < |s.started| {}
  }

  /** A start gives the waiting one up and queues a new one, due after the delay the timer has now. */
  lemma StartStarts(s: State, id: int)
    requires Inv(s) && id in s.init
    ensures var t, e := Exec(s, Start(id)), Entry(id, s.now + s.init[id], |s.started|);
            && GivesUp(s, t, id) && (forall x :: x in t.q <==> (x in s.q && x.id != id) || x == e)
            && t.started == s.started + [e] && t.parked == (if s.parked == Timer(id) then Nobody else s.parked)
            && t == s.(q := t.q, parked := t.parked, dropped := t.dropped, started := t.started)
  {
    hide Sorted, OneEach, Removed, Insert, DropStamp, Less, Inv;
    DropEffect(s, id);
    DropKeeps(s, id);
    var u := Drop(s, id);
    InvKnows(s);
    InvKnows(u);
    InsertIs(u.q, Entry(id, s.now + s.init[id], |s.started|));
  }

  lemma InvKnows(s: State)
    requires Inv(s)
    ensures Sorted(s.q) && OneEach(s.q) && forall e | e in s.q :: e.stamp < |s.started|
  {
  }

  /** A new delay leaves the waiting start as it is, and is the delay of the next one. */
  lemma SetTimeSets(s: State, id: int, ticks: nat)
    requires Inv(s) && Legal(s.init, SetTime(id, ticks))
    ensures var t := Exec(s, SetTime(id, ticks));
            && t == s.(init := t.init) && t.init.Keys == s.init.Keys
            && (forall x | x in s.init && x != id :: t.init[x] == s.init[x])
            && Entry(id, s.now + ticks, |s.started|) in Exec(t, Start(id)).q
  {
    hide Inv, Drop, Insert;
    ExecKeeps(s, SetTime(id, ticks));
    StartStarts(Exec(s, SetTime(id, ticks)), id);
  }

  /** A request that neither starts nor stops timer `id`. */
  predicate Spares(r: Request, id: int) {
    r.SetTime? || r.id != id
  }

  ghost predicate AllSpare(rs: seq<Request>, id: int) {
    forall i | 0 <= i < |rs| :: Spares(rs[i], id)
  }

  ghost predicate Untouched(s: State, t: State, id: int) {
    forall n: nat | n < |s.started| <= |t.started| && s.started[n].id == id && n in t.dropped :: n in s.dropped
  }

  lemma {:induction false} ExecAllKeeps(s: State, rs: seq<Request>, n: nat)
    requires Inv(s) && n <= |rs|
    ensures Inv(ExecAll(s, rs, n)) && Due(ExecAll(s, rs, n)) <= Due(s)
    ensures Later(s, ExecAll(s, rs, n)) && ExecAll(s, rs, n).log == s.log
    ensures ExecAll(s, rs, n).parked == s.parked || ExecAll(s, rs, n).parked == Nobody
    ensures forall id | AllSpare(rs, id) :: Untouched(s, ExecAll(s, rs, n), id)
  {
    hide Inv, Due, Exec;
    if n > 0 {
      ExecAllKeeps(s, rs, n - 1);
      var t := ExecAll(s, rs, n - 1);
      if Legal(t.init, rs[n - 1]) {
        ExecKeeps(t, rs[n - 1]);
        assert forall id | AllSpare(rs, id) :: Spares(rs[n - 1], id);
      }
    }
  }

  lemma SettleKeeps(s: State, id: int)
    requires Inv(s)
    ensures Inv(Settle(s, id)) && Due(Settle(s, id)) <= Due(s)
    ensures Later(s, Settle(s, id)) && Settle(s, id).log == s.log && Settle(s, id).parked == Nobody
    ensures forall other :: Untouched(s, Settle(s, id), other)
  {
    var u := s.(parked := Nobody);
    assert Inv(u) by { hide Sorted, OneEach; }
    hide Inv, Scan, Drop, Push;
    if s.parked == Timer(id) && id in s.periodic && id in s.init { ExecKeeps(u, Start(id)); }
  }

  ghost predicate SparedBy(cb: Callback, id: int) {
    forall t: int, n: nat :: AllSpare(cb(t, n), id)
  }

  /** One firing: the first entry is logged at this tick, and one entry fewer is due. */
  lemma FireKeeps(s: State, cb: Callback)
    requires Inv(s) && |s.q| > 0 && s.q[0].deadline <= s.now
    ensures Inv(Fire(s, cb)) && Due(Fire(s, cb)) < Due(s)
    ensures Later(s, Fire(s, cb)) && Fire(s, cb).parked == Nobody
    ensures Fire(s, cb).log == s.log + [Shot(s.q[0], s.now)]
    ensures forall id | SparedBy(cb, id) :: Untouched(s, Fire(s, cb), id)
  {
    hide Inv, Due, ExecAll, Settle;
    ShiftKeeps(s);
    var requests := cb(s.q[0].id, |s.log|);
    ExecAllKeeps(Shift(s), requests, |requests|);
    SettleKeeps(ExecAll(Shift(s), requests, |requests|), s.q[0].id);
    forall id | SparedBy(cb, id) ensures Untouched(s, Fire(s, cb), id) {
      assert AllSpare(requests, id);
      var u := ExecAll(Shift(s), requests, |requests|);
      assert Untouched(Shift(s), u, id) && Untouched(u, Settle(u, s.q[0].id), id);
      assert Shift(s).started <= u.started && s.started == Shift(s).started;
      forall n: nat | n < |s.started| && s.started[n].id == id && n in Fire(s, cb).dropped ensures n in s.dropped {
        assert u.started[n] == s.started[n];
      }
    }
  }

  /** Fire the head of the queue while it is due. */
  ghost function Check(s: State, cb: Callback): (t: State)
    requires Inv(s)
    ensures Inv(t) && Due(t) == 0 && Later(s, t)
    ensures s.parked == Nobody ==> t.parked == Nobody
    ensures forall id | SparedBy(cb, id) :: Untouched(s, t, id)
    decreases Due(s)
  {
    if |s.q| > 0 && s.q[0].deadline <= s.now then
      FireKeeps(s, cb);
      Check(Fire(s, cb), cb)
    else s
  }

  // ---- when the loop ends, whatever the delays

  /** The first entry, if there is one, is not due: the loop of the check stops here. */
  predicate Done(s: State) { s.q == [] || s.q[0].deadline > s.now }

  /** The first n rounds of the loop. */
  ghost function Rounds(s: State, cb: Callback, n: nat): (t: State) {
    if n == 0 then s
    else
      var t := Rounds(s, cb, n - 1);
      if Done(t) then t else Fire(t, cb)
  }

  ghost predicate Ends(s: State, cb: Callback) { exists n: nat :: Done(Rounds(s, cb, n)) }

  ghost predicate Quiet(cb: Callback) { forall id, n :: cb(id, n) == [] }

  /** Any queue in order, between two timeout functions; the delays are arbitrary. */
  ghost predicate InOrder(s: State) {
    Sorted(s.q) && OneEach(s.q) && s.parked == Nobody && forall e | e in s.q :: e.id in s.init && e.stamp < |s.started|
  }

  /** A due periodic timer with a delay of 0 ticks. */
  predicate Spins(s: State, e: Entry) {
    e.deadline <= s.now && e.id in s.periodic && e.id in s.init && s.init[e.id] == 0
  }

  ghost predicate SomeSpins(s: State) { exists e :: e in s.q && Spins(s, e) }

  /** One round with a quiet callback: the head goes, and comes back with its new deadline if it is periodic. */
  lemma QuietRound(s: State, cb: Callback)
    requires InOrder(s) && !Done(s) && Quiet(cb)
    ensures var t, h := Fire(s, cb), s.q[0];
            && InOrder(t) && t.now == s.now && t.init == s.init && t.periodic == s.periodic
            && (if h.id in s.periodic
                then t.q == Insert(s.q[1..], Entry(h.id, s.now + s.init[h.id], |s.started|))
                     && forall e :: e in t.q <==> e in s.q[1..] || e == Entry(h.id, s.now + s.init[h.id], |s.started|)
                else t.q == s.q[1..])
  {
    hide Sorted, OneEach, Insert, Removed;
    var u, h := Shift(s), s.q[0];
    assert h in s.q;
    assert ExecAll(u, [], 0) == u;
    TailInOrder(s.q);
    RemovedIs(u.q, h.id);
    NotFound(u.q, h.id);
    if h.id in s.periodic {
      InsertIs(u.q, Entry(h.id, s.now + s.init[h.id], |s.started|));
    }
  }

  lemma TailInOrder(q: seq<Entry>)
    requires Sorted(q) && OneEach(q) && q != []
    ensures Sorted(q[1..]) && OneEach(q[1..]) && forall e | e in q[1..] :: e in q && e.id != q[0].id
  {
  }

  lemma NotFound(q: seq<Entry>, id: int)
    requires forall e | e in q :: e.id != id
    ensures Find(q, id, 0) == |q| && Removed(q, id) == q
  {
    forall i | 0 <= i < |q| ensures q[i].id != id { assert q[i] in q; }
  }

  /** A round that does not fire a timer that spins leaves one due entry fewer. */
  lemma RoundShrinks(s: State, cb: Callback)
    requires InOrder(s) && !Done(s) && Quiet(cb) && !Spins(s, s.q[0])
    ensures Due(s) > 0 && Due(Fire(s, cb)) < Due(s)
  {
    hide Sorted, OneEach, Due, Insert, Quiet, Fire;
    QuietRound(s, cb);
    var t, h, d := Fire(s, cb), s.q[0], Due(s);
    assert h in s.q;
    DueIs(s);
    DueIs(t);
    assert d > 0;
    if h.id in s.periodic {
      LateInsert(s.q[1..], Entry(h.id, s.now + s.init[h.id], |s.started|), d - 1, s.now);
    } else {
      assert d < |s.q| ==> t.q[d - 1] == s.q[d];
    }
  }

  /** If only the first d entries are due, so are no more of them after the insertion of one that is not. */
  lemma LateInsert(q: seq<Entry>, e: Entry, d: nat, now: nat)
    requires d <= |q| && (forall i | 0 <= i < |q| :: q[i].deadline <= now <==> i < d) && e.deadline > now
    ensures d < |Insert(q, e)| && Insert(q, e)[d].deadline > now
  {
    InsertAtIndex(q, Scan(q, e.deadline, 0), e);
  }

  lemma SpinStays(s: State, cb: Callback)
    requires InOrder(s) && Quiet(cb) && SomeSpins(s)
    ensures !Done(s) && SomeSpins(Fire(s, cb))
  {
    var e :| e in s.q && Spins(s, e);
    assert s.q[0] == e || Less(s.q[0], e);
    QuietRound(s, cb);
    var t, h := Fire(s, cb), s.q[0];
    if e == h {
      assert Spins(t, Entry(h.id, s.now, |s.started|));
    } else {
      assert e in s.q[1..] && e in t.q && Spins(t, e);
    }
  }

  lemma {:induction false} SpinNeverEnds(s: State, cb: Callback, n: nat)
    requires InOrder(s) && Quiet(cb) && SomeSpins(s)
    ensures var t := Rounds(s, cb, n); InOrder(t) && SomeSpins(t) && !Done(t)
  {
    if n == 0 {
      SpinStays(s, cb);
    } else {
      SpinNeverEnds(s, cb, n - 1);
      var t := Rounds(s, cb, n - 1);
      SpinStays(t, cb);
      QuietRound(t, cb);
      SpinStays(Fire(t, cb), cb);
    }
  }

  lemma {:induction false} RoundsLater(s: State, cb: Callback, n: nat)
    requires !Done(s)
    ensures Rounds(s, cb, n + 1) == Rounds(Fire(s, cb), cb, n)
  {
    if n > 0 {
      RoundsLater(s, cb, n - 1);
    } else {
      assert Rounds(s, cb, 0) == s;
    }
  }

  lemma {:induction false} RoundsEnd(s: State, cb: Callback)
    requires InOrder(s) && Quiet(cb) && !SomeSpins(s)
    ensures Ends(s, cb)
    decreases Due(s)
  {
    if Done(s) {
      assert Done(Rounds(s, cb, 0));
    } else {
      var h := s.q[0];
      assert h in s.q;
      RoundShrinks(s, cb);
      QuietRound(s, cb);
      assert forall e | e in s.q[1..] :: e in s.q;
      RoundsEnd(Fire(s, cb), cb);
      var n: nat :| Done(Rounds(Fire(s, cb), cb, n));
      RoundsLater(s, cb, n);
    }
  }

  /** If no callback asks for anything, the check ends exactly if no due timer is periodic with a delay of 0 ticks. */
  lemma EndsIff(s: State, cb: Callback)
    requires InOrder(s) && Quiet(cb)
    ensures Ends(s, cb) <==> !SomeSpins(s)
  {
    if SomeSpins(s) {
      forall n: nat ensures !Done(Rounds(s, cb, n)) { SpinNeverEnds(s, cb, n); }
    } else {
      RoundsEnd(s, cb);
    }
  }

  /** A fresh wheel, one start and one tick lead there: a periodic timer with delay 0 then fires for ever. */
  lemma ZeroDelaySpins(now: nat, init: map<int, nat>, periodic: set<int>, id: int, cb: Callback)
    requires id in init && Quiet(cb)
    ensures var s := Exec(Fresh(now, init, periodic), Start(id)).(now := now + 1);
            InOrder(s) && (Ends(s, cb) <==> !(id in periodic && init[id] == 0))
  {
    var u := Drop(Fresh(now, init, periodic), id);
    var e := Entry(id, now + init[id], 0);
    assert u.q == [] && Insert([], e) == [e];
    var s := Exec(Fresh(now, init, periodic), Start(id)).(now := now + 1);
    assert s.q == [e] && e in s.q;
    EndsIff(s, cb);
  }

  datatype Event = Call(r: Request) | Tick

  /** Between two ticks: no timeout function is running and nothing is due. */
  ghost predicate Idle(s: State) {
    Inv(s) && Due(s) == 0 && s.parked == Nobody
  }

  lemma TickKeeps(s: State)
    requires Idle(s)
    ensures Inv(s.(now := s.now + 1))
  {
    DueIs(s);
    var t := s.(now := s.now + 1);
    assert QueueInv(t) && LogInv(t) && Conserved(t) by { hide Sorted, OneEach; }
  }

  ghost function Step(s: State, e: Event, cb: Callback): (t: State)
    requires Idle(s)
    ensures Idle(t) && s.log <= t.log && s.started <= t.started && s.dropped <= t.dropped
    ensures t.now == s.now + if e.Tick? then 1 else 0
    ensures forall id | SparedBy(cb, id) && (e.Call? ==> Spares(e.r, id)) :: Untouched(s, t, id)
  {
    match e
    case Tick => TickKeeps(s); Check(s.(now := s.now + 1), cb)
    case Call(r) => if Legal(s.init, r) then ExecKeeps(s, r); Exec(s, r) else s
  }

  ghost function Run(s: State, es: seq<Event>, cb: Callback): (t: State)
    requires Idle(s)
    ensures Idle(t) && s.log <= t.log && s.started <= t.started && s.dropped <= t.dropped
    decreases |es|
  {
    if es == [] then s else Run(Step(s, es[0], cb), es[1..], cb)
  }

  function Fresh(now: nat, init: map<int, nat>, periodic: set<int>): (s: State) {
    State(now, [], Nobody, init, periodic, [], {}, [])
  }

  lemma FreshIdle(now: nat, init: map<int, nat>, periodic: set<int>)
    requires forall t | t in init :: 1 <= init[t] < HALF
    ensures Idle(Fresh(now, init, periodic))
  {
  }

  /** The shots that answer start number n. */
  ghost function Answers(log: seq<Shot>, n: nat, k: nat): (r: nat)
    requires k <= |log|
  {
    if k == 0 then 0 else Answers(log, n, k - 1) + if log[k - 1].e.stamp == n then 1 else 0
  }

  lemma {:induction false} AnswersOnce(log: seq<Shot>, n: nat, k: nat, i: nat)
    requires k <= |log| && forall a, b | 0 <= a < b < |log| :: log[a].e.stamp != log[b].e.stamp
    requires i < |log| && log[i].e.stamp == n
    ensures Answers(log, n, k) == if i < k then 1 else 0
  {
    if k > 0 { AnswersOnce(log, n, k - 1, i); }
  }

  lemma {:induction false} AnswersNone(log: seq<Shot>, n: nat, k: nat)
    requires k <= |log| && forall x | x in log :: x.e.stamp != n
    ensures Answers(log, n, k) == 0
  {
    if k > 0 { AnswersNone(log, n, k - 1); }
  }

  /** A start that was not given up has fired exactly once, at its deadline, as soon as that tick has come. */
  lemma FiresOnce(s: State, n: nat)
    requires Idle(s) && n < |s.started| && n !in s.dropped
    ensures Answers(s.log, n, |s.log|) == if s.started[n].deadline <= s.now then 1 else 0
    ensures s.started[n].deadline <= s.now <==> Shot(s.started[n], s.started[n].deadline) in s.log
    ensures s.started[n].deadline > s.now <==> s.started[n] in s.q
  {
    var e := s.started[n];
    DueIs(s);
    assert forall x | x in s.q :: x.deadline > s.now;
    assert Queued(s, n) || Fired(s, n);
    if Fired(s, n) {
      var i :| 0 <= i < |s.log| && s.log[i] == Shot(e, e.deadline);
      StampsOnce(s);
      AnswersOnce(s.log, n, |s.log|, i);
    } else {
      AnswersNone(s.log, n, |s.log|);
    }
  }

  lemma StampsOnce(s: State)
    requires Inv(s)
    ensures forall a, b | 0 <= a < b < |s.log| :: s.log[a].e.stamp != s.log[b].e.stamp
  {
    forall a, b | 0 <= a < b < |s.log| ensures s.log[a].e.stamp != s.log[b].e.stamp {
      assert s.log[a] in s.log && s.log[b] in s.log;
      assert Less(s.log[a].e, s.log[b].e);
    }
  }

  /** Over any run in which nobody stops or restarts a started timer, it fires exactly once, at its deadline. */
  lemma {:induction false} FiresUnlessStopped(s: State, es: seq<Event>, cb: Callback, n: nat)
    requires Idle(s) && n < |s.started| && n !in s.dropped
    requires SparedBy(cb, s.started[n].id) && forall e | e in es && e.Call? :: Spares(e.r, s.started[n].id)
    ensures n < |Run(s, es, cb).started| && Run(s, es, cb).started[n] == s.started[n]
    ensures Run(s, es, cb).now >= s.started[n].deadline ==>
              Answers(Run(s, es, cb).log, n, |Run(s, es, cb).log|) == 1 &&
              Shot(s.started[n], s.started[n].deadline) in Run(s, es, cb).log
    decreases |es|
  {
    if es == [] {
      FiresOnce(s, n);
    } else {
      FiresUnlessStopped(Step(s, es[0], cb), es[1..], cb, n);
    }
  }

  /** Shots come in the order of their deadlines, and starts that fall on the same tick in start order. */
  lemma FiresInOrder(s: State, es: seq<Event>, cb: Callback)
    requires Idle(s)
    ensures forall i, j | 0 <= i < j < |Run(s, es, cb).log| ::
              var a, b := Run(s, es, cb).log[i], Run(s, es, cb).log[j];
              a.at < b.at || (a.at == b.at && a.e.stamp < b.e.stamp)
  {
    var t := Run(s, es, cb);
    forall i, j | 0 <= i < j < |t.log| ensures Less(t.log[i].e, t.log[j].e) && t.log[i].at == t.log[i].e.deadline {
      assert t.log[i] in t.log && t.log[j] in t.log;
    }
  }
}
