/** The timer wheel of timer.c: a skip list of rows ordered by wrapping 32-bit ticks. */
module TimerWheel {
  import opened Lists
  import opened TimerQueue

  const WRAP: nat := 0x1_0000_0000
  const TICK_MAX: nat := 0xffff_ffff

  /** `a - b` in unsigned 32-bit arithmetic. */
  function Since(a: int, b: int): (r: nat) {
    (a - b) % WRAP
  }

  lemma SinceWraps(a: int, b: int)
    ensures Since(a % WRAP, b % WRAP) == Since(a, b)
  {
    var m, n := a / WRAP, b / WRAP;
    assert a % WRAP - b % WRAP == a - b - WRAP * (m - n);
  }

  lemma SinceSmall(a: int, b: int)
    requires -(WRAP as int) < a - b < WRAP
    ensures Since(a, b) == if a >= b then a - b else a - b + WRAP
  {
  }

  /** The test of the search loop orders two ticks rightly exactly when they are within half the range. */
  lemma OrderExactly(a: nat, b: nat)
    requires -(WRAP as int) < a - b < WRAP
    ensures (0 < Since(a % WRAP, b % WRAP) < HALF <==> a > b) <==> HALF - WRAP <= a - b < HALF
  {
    SinceWraps(a, b);
    SinceSmall(a, b);
  }

  ghost predicate RowOk(row: seq<int>, entry: map<int, Entry>) {
    && (forall i | 0 <= i < |row| :: row[i] in entry)
    && forall i, j | 0 <= i < j < |row| :: Less(entry[row[i]], entry[row[j]])
  }

  ghost predicate Within(a: seq<int>, b: seq<int>) {
    forall x | x in a :: x in b
  }

  /** Each row is ordered, and whatever is in a row is also in every row below. */
  ghost predicate Rows(rows: seq<seq<int>>, entry: map<int, Entry>) {
    && |rows| > 0
    && (forall l | 0 <= l < |rows| :: RowOk(rows[l], entry))
    && forall l, m | 0 <= l < m < |rows| :: Within(rows[l], rows[m])
  }

  function Ids(q: seq<Entry>): (r: seq<int>)
    ensures |r| == |q| && forall i | 0 <= i < |q| :: r[i] == q[i].id
  {
    seq(|q|, i requires 0 <= i < |q| => q[i].id)
  }

  /** The bottom row is the whole queue. */
  ghost predicate Bottom(rows: seq<seq<int>>, q: seq<Entry>, entry: map<int, Entry>) {
    && |rows| > 0
    && rows[|rows| - 1] == Ids(q)
    && forall e | e in q :: e.id in entry && entry[e.id] == e
  }

  ghost predicate Passed(row: seq<int>, p: nat, d: nat, entry: map<int, Entry>) {
    p <= |row| && forall j | 0 <= j < p :: row[j] in entry && entry[row[j]].deadline <= d
  }

  /** Position p of a row splits it into the timers due by d and those due later. */
  ghost predicate Split(row: seq<int>, p: nat, d: nat, entry: map<int, Entry>) {
    && p <= |row|
    && (forall i | 0 <= i < |row| :: row[i] in entry)
    && Passed(row, p, d, entry)
    && (forall j | p <= j < |row| :: entry[row[j]].deadline > d)
  }

  lemma RowDistinct(row: seq<int>, entry: map<int, Entry>)
    requires RowOk(row, entry)
    ensures Distinct(row)
  {
  }

  /** A row keeps the order of the row below: it is a sublist of it. */
  lemma RowEmbeds(rows: seq<seq<int>>, entry: map<int, Entry>, l: nat, i: nat, j: nat)
    requires Rows(rows, entry) && l + 1 < |rows| && i < j < |rows[l]|
    ensures IndexOf(rows[l + 1], rows[l][i]) < IndexOf(rows[l + 1], rows[l][j]) < |rows[l + 1]|
  {
    var a, b := rows[l][i], rows[l][j];
    assert a in rows[l] && b in rows[l];
    var m, n := IndexOf(rows[l + 1], a), IndexOf(rows[l + 1], b);
    assert RowOk(rows[l], entry) && RowOk(rows[l + 1], entry);
    assert Less(entry[a], entry[b]);
    assert m != n;
    assert n < m ==> Less(entry[rows[l + 1][n]], entry[rows[l + 1][m]]);
  }

  lemma WithoutRow(row: seq<int>, entry: map<int, Entry>, id: int)
    requires RowOk(row, entry)
    ensures RowOk(Without(row, id), entry)
    ensures forall x :: x in Without(row, id) <==> x in row && x != id
  {
    RowDistinct(row, entry);
    WithoutIn(row, id);
    if id in row {
      var k := IndexOf(row, id);
      DeleteAtIndex(row, k);
      var r := DeleteAt(row, k);
      forall i, j | 0 <= i < j < |r| ensures Less(entry[r[i]], entry[r[j]]) {
        assert Less(entry[row[if i < k then i else i + 1]], entry[row[if j < k then j else j + 1]]);
      }
    }
  }

  /** Taking timer `id` out of every row. */
  lemma WithoutRows(rows: seq<seq<int>>, rows': seq<seq<int>>, q: seq<Entry>, entry: map<int, Entry>, id: int)
    requires Rows(rows, entry) && Bottom(rows, q, entry) && Sorted(q) && OneEach(q)
    requires |rows'| == |rows| && forall l | 0 <= l < |rows| :: rows'[l] == Without(rows[l], id)
    ensures Rows(rows', entry) && Bottom(rows', Removed(q, id), entry)
    ensures forall l | 0 <= l < |rows| :: id !in rows'[l]
  {
    forall l | 0 <= l < |rows|
      ensures RowOk(rows'[l], entry) && forall x :: x in rows'[l] <==> x in rows[l] && x != id
    {
      WithoutRow(rows[l], entry, id);
    }
    WithoutBottom(rows[|rows| - 1], q, id);
    RemovedIs(q, id);
  }

  lemma WithoutBottom(b: seq<int>, q: seq<Entry>, id: int)
    requires b == Ids(q) && OneEach(q)
    ensures Without(b, id) == Ids(Removed(q, id))
  {
    var k := Find(q, id, 0);
    if k < |q| {
      SamePlace(b, q, id);
      hide IndexOf;
      DeleteAtIndex(q, k);
      DeleteAtIndex(b, k);
    } else {
      assert forall i | 0 <= i < |b| :: b[i] != id;
    }
  }

  lemma SamePlace(b: seq<int>, q: seq<Entry>, id: int)
    requires b == Ids(q) && OneEach(q) && Find(q, id, 0) < |q|
    ensures id in b && IndexOf(b, id) == Find(q, id, 0)
  {
    var k := Find(q, id, 0);
    assert b[k] == id;
    assert forall j | 0 <= j < k :: b[j] != id;
    assert forall j | k < j < |q| :: b[j] != id;
    hide IndexOf;
  }

  lemma InsertRow(row: seq<int>, p: nat, e: Entry, entry: map<int, Entry>)
    requires RowOk(row, entry) && Split(row, p, e.deadline, entry) && e.id !in row
    requires forall x | x in row :: entry[x].stamp < e.stamp
    ensures RowOk(InsertAt(row, p, e.id), entry[e.id := e])
    ensures forall x :: x in InsertAt(row, p, e.id) <==> x in row || x == e.id
  {
    InsertIn(row, p, e.id);
    InsertAtIndex(row, p, e.id);
    var r, m := InsertAt(row, p, e.id), entry[e.id := e];
    assert forall x | x in r :: x in m;
    hide InsertAt;
    forall i, j | 0 <= i < j < |r| ensures Less(m[r[i]], m[r[j]]) {
      if i != p && j != p {
        var a, b := row[if i < p then i else i - 1], row[if j < p then j else j - 1];
        assert a in row && b in row && Less(entry[a], entry[b]);
      } else {
        var x := if i == p then row[j - 1] else row[i];
        assert x in row && m[x] == entry[x];
      }
    }
  }

  lemma StampsInRows(rows: seq<seq<int>>, q: seq<Entry>, entry: map<int, Entry>, l: nat)
    requires Rows(rows, entry) && Bottom(rows, q, entry) && l < |rows|
    ensures forall x | x in rows[l] :: x in entry && entry[x] in q
  {
    var b := rows[|rows| - 1];
    assert l < |rows| - 1 ==> Within(rows[l], b);
    forall x | x in b ensures entry[x] in q {
      var i :| 0 <= i < |b| && b[i] == x;
      assert q[i] in q;
    }
  }

  /** Timer `e` put into the rows from `top` down, each at its own split. */
  lemma InsertRows(rows: seq<seq<int>>, rows': seq<seq<int>>, pos: seq<nat>, top: nat, q: seq<Entry>, e: Entry,
                   entry: map<int, Entry>)
    requires Rows(rows, entry) && Bottom(rows, q, entry) && Sorted(q) && OneEach(q)
    requires |rows'| == |rows| == |pos| && top < |rows|
    requires forall l | 0 <= l < |rows| :: Split(rows[l], pos[l], e.deadline, entry) && e.id !in rows[l]
    requires forall l | 0 <= l < |rows| ::
               rows'[l] == if l < top || pos[l] > |rows[l]| then rows[l] else InsertAt(rows[l], pos[l], e.id)
    requires forall x | x in q :: x.stamp < e.stamp
    ensures Rows(rows', entry[e.id := e]) && Bottom(rows', Insert(q, e), entry[e.id := e])
  {
    var m := entry[e.id := e];
    forall l | 0 <= l < |rows|
      ensures RowOk(rows'[l], m) && forall x :: x in rows'[l] <==> x in rows[l] || (x == e.id && l >= top)
    {
      assert forall x | x in rows[l] :: entry[x].stamp < e.stamp by { StampsInRows(rows, q, entry, l); }
      if l >= top { InsertRow(rows[l], pos[l], e, entry); }
    }
    InsertBottom(rows, pos, q, e, entry);
  }

  lemma InsertBottom(rows: seq<seq<int>>, pos: seq<nat>, q: seq<Entry>, e: Entry, entry: map<int, Entry>)
    requires Rows(rows, entry) && Bottom(rows, q, entry) && Sorted(q) && OneEach(q)
    requires |rows| == |pos| && Split(rows[|rows| - 1], pos[|rows| - 1], e.deadline, entry) && e.id !in rows[|rows| - 1]
    requires forall x | x in q :: x.stamp < e.stamp
    ensures InsertAt(rows[|rows| - 1], pos[|rows| - 1], e.id) == Ids(Insert(q, e))
    ensures forall x | x in Insert(q, e) :: x.id in entry[e.id := e] && entry[e.id := e][x.id] == x
  {
    var b, p := rows[|rows| - 1], pos[|rows| - 1];
    forall i | 0 <= i < |q| ensures q[i].id != e.id && entry[b[i]] == q[i] { assert b[i] in b && q[i] in q; }
    assert Scan(q, e.deadline, 0) == p by { ScanIs(q, p, e.deadline); }
    IdsInsert(q, p, e);
    InsertIn(q, p, e);
    assert forall x | x in q :: x.id != e.id;
  }

  lemma ScanIs(q: seq<Entry>, p: nat, d: nat)
    requires p <= |q| && forall j | 0 <= j < p :: q[j].deadline <= d
    requires p < |q| ==> q[p].deadline > d
    ensures Scan(q, d, 0) == p
  {
  }

  lemma IdsInsert(q: seq<Entry>, p: nat, e: Entry)
    requires p <= |q|
    ensures Ids(InsertAt(q, p, e)) == InsertAt(Ids(q), p, e.id)
  {
    InsertAtIndex(q, p, e);
    InsertAtIndex(Ids(q), p, e.id);
  }

  // ---- how high a timer rises

  /** The rows above the bottom one that a timer joins; t is the insertion counter, read in digits of base b.
      For the masks 1 and 3, `&` and the shift are the remainder and the quotient by 2 and by 4. */
  function Rises(t: nat, b: nat, room: nat): (h: nat)
    requires b > 0
    ensures h <= room
    decreases room
  {
    if room == 0 || t % b != 0 then 0 else 1 + Rises(t / b, b, room - 1)
  }

  function Power(b: nat, k: nat): (p: nat)
    requires b > 0
    ensures p > 0
  {
    if k == 0 then 1 else Times(b, Power(b, k - 1))
  }

  function Times(a: nat, b: nat): (p: nat)
    requires a > 0 && b > 0
    ensures p > 0
  {
    a * b
  }

  /** A timer joins k rows above the bottom one exactly if the counter is a multiple of b to the k. */
  lemma {:induction false} RisesExactly(t: nat, b: nat, room: nat, k: nat)
    requires b > 0 && k <= room
    ensures Rises(t, b, room) >= k <==> t % Power(b, k) == 0
    decreases room
  {
    if k > 0 {
      DigitsMultiple(t, b, Power(b, k - 1));
      if t % b == 0 { RisesExactly(t / b, b, room - 1, k - 1); }
    }
  }

  lemma DigitsMultiple(t: nat, b: nat, m: nat)
    requires b > 0 && m > 0
    ensures t % Times(b, m) == 0 <==> t % b == 0 && t / b % m == 0
  {
    if t % Times(b, m) == 0 {
      var v := t / Times(b, m);
      Regroup(b, m, v);
      Exact(t, b, m * v);
      Exact(m * v, m, v);
    } else if t % b == 0 && t / b % m == 0 {
      var v := t / b / m;
      Regroup(b, m, v);
      Exact(t, Times(b, m), v);
    }
  }

  lemma Regroup(b: nat, m: nat, v: nat)
    requires b > 0 && m > 0
    ensures Times(b, m) * v == b * (m * v)
  {
  }

  lemma Exact(t: nat, c: nat, v: nat)
    requires c > 0 && t == c * v
    ensures t % c == 0 && t / c == v
  {
    var u := t / c;
    assert t == u * c + t % c;
    if u < v { Stretch(u + 1, v, c); } else if u > v { Stretch(v + 1, u, c); }
  }

  lemma Stretch(x: int, y: int, c: nat)
    requires x <= y
    ensures x * c <= y * c
  {
  }

  /** `rt_timer_list` with `levels` rows, the timer objects, and the clock; `g` is the same system in true time. */
  class Wheel {
    const levels: nat
    const mask: nat
    var tick: nat
    var rows: seq<seq<int>>
    var list: seq<int>           // the timer whose timeout function is running
    var initTick: map<int, nat>
    var timeoutTick: map<int, nat>
    var active: set<int>
    var periodic: set<int>
    var randomNr: nat
    var fired: nat
    ghost var entry: map<int, Entry>
    ghost var g: State

    ghost predicate Shape()
      reads this
    {
      && |rows| == levels >= 1
      && Rows(rows, entry)
      && Bottom(rows, g.q, entry)
      && tick == g.now % WRAP
      && initTick == g.init
      && periodic == g.periodic
      && fired == |g.log|
      && list == (if g.parked == Nobody then [] else [g.parked.id])
    }

    ghost predicate Valid()
      reads this
    {
      && Shape()
      && Inv(g)
      && (mask == 1 || mask == 3)
      && Ticks(timeoutTick, g.q)
      && Activated(active, g)
    }

    constructor (levels: nat, mask: nat, now: nat, timers: map<int, nat>, periodic: set<int>)
      requires levels >= 1 && (mask == 1 || mask == 3)
      requires forall t | t in timers :: 1 <= timers[t] < HALF
      ensures Valid() && g == Fresh(now, timers, periodic) && this.levels == levels
    {
      this.levels, this.mask := levels, mask;
      tick, rows, list := now % WRAP, seq(levels, _ => []), [];
      initTick, timeoutTick, active, this.periodic := timers, map t | t in timers :: 0, {}, periodic;
      randomNr, fired := 0, 0;
      entry, g := map[], Fresh(now, timers, periodic);
      new;
      FreshIdle(now, timers, periodic);
      assert Ids([]) == [];
    }

    /** `_rt_timer_remove`: out of every row, and off the list of the running timeout function. */
    method Remove(id: int)
      requires |rows| == levels && |list| <= 1
      modifies `rows, `list
      ensures |rows| == levels && forall l | 0 <= l < levels :: rows[l] == Without(old(rows[l]), id)
      ensures list == if old(list) == [id] then [] else old(list)
    {
      var i := 0;
      while i < levels
        invariant i <= levels == |rows| && list == old(list)
        invariant forall l | 0 <= l < levels :: rows[l] == if l < i then Without(old(rows)[l], id) else old(rows)[l]
      {
        rows := rows[i := Without(rows[i], id)];
        i := i + 1;
      }
      assert list == [id] ==> Without(list, id) == [];
      list := Without(list, id);
    }

    /** The search of `rt_timer_start`: in every row, the place after the last timer due no later than `due`. */
    method Search(timeout: nat, ghost due: nat) returns (pos: seq<nat>)
      requires |rows| == levels >= 1 && Rows(rows, entry) && Bottom(rows, g.q, entry) && Ticks(timeoutTick, g.q)
      requires timeout == due % WRAP && Near(g.q, due)
      ensures |pos| == levels && forall l | 0 <= l < levels :: Split(rows[l], pos[l], due, entry)
    {
      pos := [];
      var l, p: nat := 0, 0;
      while l < levels
        invariant l <= levels && |pos| == l
        invariant l < levels ==> Passed(rows[l], p, due, entry)
        invariant forall m | 0 <= m < l :: Split(rows[m], pos[m], due, entry)
      {
        while p < |rows[l]|
          invariant Passed(rows[l], p, due, entry)
          invariant |pos| == l && l < levels
        {
          var t := rows[l][p];
          TickOrder(rows, g.q, entry, timeoutTick, l, t, due);
          if Since(timeoutTick[t], timeout) == 0 {
            p := p + 1;
            continue;
          } else if Since(timeoutTick[t], timeout) < HALF {
            break;
          }
          p := p + 1;
        }
        pos := pos + [p];
        SplitHere(rows[l], p, due, entry);
        if l != levels - 1 {
          var q := if p == 0 then 0 else IndexOf(rows[l + 1], rows[l][p - 1]) + 1;
          if p > 0 { StepDown(rows, l, p, due, entry); }
          p := q;
        }
        l := l + 1;
      }
    }

    /** The insertion loop of `rt_timer_start`: the bottom row, and each row above while the counter's digits are 0. */
    method Link(id: int, pos: seq<nat>) returns (ghost top: nat)
      requires |rows| == levels == |pos| && levels >= 1 && (mask == 1 || mask == 3)
      requires forall l | 0 <= l < levels :: pos[l] <= |rows[l]|
      modifies `rows, `randomNr
      ensures randomNr == (old(randomNr) + 1) % WRAP && |rows| == levels
      ensures top == levels - 1 - Rises(randomNr, mask + 1, levels - 1)
      ensures forall l | 0 <= l < levels ::
                rows[l] == if l < top then old(rows)[l] else InsertAt(old(rows)[l], pos[l], id)
    {
      hide InsertAt;
      randomNr := (randomNr + 1) % WRAP;
      var tst: nat := randomNr;
      rows := rows[levels - 1 := InsertAt(rows[levels - 1], pos[levels - 1], id)];
      top := levels - 1;
      var lvl := 2;
      while lvl <= levels
        invariant 2 <= lvl <= levels + 1 && top == levels - lvl + 1 && |rows| == levels
        invariant randomNr == (old(randomNr) + 1) % WRAP
        invariant Rises(randomNr, mask + 1, levels - 1) == lvl - 2 + Rises(tst, mask + 1, levels + 1 - lvl)
        invariant forall l | 0 <= l < levels ::
                    rows[l] == if l < top then old(rows)[l] else InsertAt(old(rows)[l], pos[l], id)
      {
        if tst % (mask + 1) == 0 {
          rows := rows[levels - lvl := InsertAt(rows[levels - lvl], pos[levels - lvl], id)];
          top := top - 1;
        } else {
          break;
        }
        tst := tst / (mask + 1);
        lvl := lvl + 1;
      }
    }

    /** Removal and the clearing of the activated flag, which start and stop share. */
    method Deactivate(id: int)
      requires Valid() && id in initTick
      modifies `rows, `list, `active, `g
      ensures Valid() && g == Drop(old(g), id) && id !in active && g.parked != Timer(id)
      ensures forall e | e in g.q :: e.id != id
      ensures forall l | 0 <= l < levels :: id !in rows[l]
      ensures list == if old(list) == [id] then [] else old(list)
    {
      hide Inv, Rows, Bottom, Ticks, Activated, Removed, DropStamp;
      Remove(id);
      assert Rows(rows, entry) && Bottom(rows, Drop(g, id).q, entry)
          && forall l | 0 <= l < levels :: id !in rows[l] by {
        WithoutRowsOf(old(rows), rows, g, entry, id);
      }
      active := active - {id};
      DropShape(old(active), timeoutTick, g, id);
      DropKeeps(g, id);
      g := Drop(g, id);
    }

    /** `rt_timer_start`. */
    method Start(id: int)
      requires Valid() && id in initTick
      modifies this
      ensures Valid() && g == Exec(old(g), Request.Start(id))
    {
      hide Inv, Rows, Bottom, Ticks, Activated, Drop, Insert, InsertAt, Split, Near;
      Deactivate(id);
      ghost var g1, rows1 := g, rows;
      timeoutTick := timeoutTick[id := (tick + initTick[id]) % WRAP];
      ghost var e := Entry(id, g1.now + g1.init[id], |g1.started|);
      StartShape(active, timeoutTick, old(timeoutTick), g1, id);
      var pos := Search(timeoutTick[id], e.deadline);
      SplitBounds(rows, pos, e.deadline, entry);
      ghost var top := Link(id, pos);
      active := active + {id};
      entry := entry[id := e];
      g := Push(g1, id);
      PushRows(rows1, rows, pos, top, g1, id, old(entry));
      PushKeeps(g1, id);
    }

    /** `rt_timer_stop`; false is its -RT_ERROR. */
    method Stop(id: int) returns (ok: bool)
      requires Valid() && id in initTick
      modifies this
      ensures Valid() && g == Exec(old(g), Request.Stop(id))
      ensures ok <==> id in old(active)
      ensures id !in active && forall l | 0 <= l < levels :: id !in rows[l]
      ensures !ok ==> g == old(g) && rows == old(rows) && active == old(active) && list == old(list)
    {
      hide Inv, Rows, Bottom, Ticks, Drop;
      ActiveIs(active, g, id);
      ok := id in active;
      if !ok {
        OffRows(rows, g.q, entry, id);
        return;
      }
      Deactivate(id);
    }

    /** `rt_timer_control` with RT_TIMER_CTRL_SET_TIME. */
    method SetTime(id: int, ticks: nat)
      requires Valid() && id in initTick && 1 <= ticks < HALF
      modifies this
      ensures Valid() && g == Exec(old(g), Request.SetTime(id, ticks)) && initTick == old(initTick)[id := ticks]
    {
      initTick := initTick[id := ticks];
      g := Exec(g, Request.SetTime(id, ticks));
    }

    /** The first timer leaves the rows and goes on the list of the running timeout function. */
    method Expire()
      requires Valid() && list == [] && |g.q| > 0 && g.q[0].deadline <= g.now
      modifies `rows, `list, `active, `fired, `g
      ensures Valid() && g == Shift(old(g))
    {
      hide Inv, Rows, Bottom, Ticks, Activated, Removed;
      HeadIs(rows, timeoutTick, g, entry);
      var t := rows[levels - 1][0];
      Remove(t);
      WithoutRowsOf(old(rows), rows, g, entry, t);
      ShiftShape(active, timeoutTick, g);
      ShiftKeeps(g);
      if t !in periodic { active := active - {t}; }
      list := [t];
      fired := fired + 1;
      g := Shift(g);
    }

    /** What the timeout function does: any sequence of starts, stops and new delays. */
    method RunAll(rs: seq<Request>)
      requires Valid()
      modifies this
      ensures Valid() && g == ExecAll(old(g), rs, |rs|)
    {
      hide Inv, Rows, Bottom, Ticks, Activated, Exec;
      var n := 0;
      while n < |rs|
        invariant n <= |rs| && Valid() && g == ExecAll(old(g), rs, n)
      {
        if Legal(initTick, rs[n]) {
          match rs[n]
          case Start(id) => Start(id);
          case Stop(id) => var _ := Stop(id);
          case SetTime(id, ticks) => SetTime(id, ticks);
        }
        n := n + 1;
      }
    }

    /** After the timeout function of `t`: nothing if it was started again or stopped, else restart it if periodic. */
    method Finish(t: int)
      requires Valid() && (g.parked == Timer(t) || g.parked == Nobody) && t in initTick
      modifies this
      ensures Valid() && g == Settle(old(g), t)
    {
      hide Inv, Rows, Bottom, Ticks, Exec;
      SettleKeeps(g, t);
      if list == [] { return; }
      list := Without(list, t);
      assert list == [];
      ghost var u := g.(parked := Nobody);
      Unparked(g);
      ActiveIs(active, g, t);
      assert t !in Ids(g.q) by { ParkedAlone(g, t); }
      if t in periodic && t in active {
        active := active - {t};
        g := u;
        Start(t);
      } else {
        g := u;
      }
    }

    /** `rt_timer_check`: fire from the head while it is due. */
    method Check(cb: Callback)
      requires Valid() && g.parked == Nobody
      modifies this
      ensures Valid() && g.parked == Nobody && g == TimerQueue.Check(old(g), cb)
    {
      hide Inv, Rows, Bottom, Ticks, Activated, Fire, Due, Shift, Settle;
      while |rows[levels - 1]| > 0
        invariant Valid() && g.parked == Nobody
        invariant TimerQueue.Check(g, cb) == TimerQueue.Check(old(g), cb)
        decreases Due(g)
      {
        HeadIs(rows, timeoutTick, g, entry);
        var t := rows[levels - 1][0];
        if Since(tick, timeoutTick[t]) < HALF {
          FireKeeps(g, cb);
          Fire1(cb, t);
        } else {
          break;
        }
      }
      HeadIs(rows, timeoutTick, g, entry);
    }

    method Fire1(cb: Callback, t: int)
      requires Valid() && g.parked == Nobody && |g.q| > 0 && g.q[0].deadline <= g.now && t == g.q[0].id
      modifies this
      ensures Valid() && g == Fire(old(g), cb)
    {
      hide Inv, Rows, Bottom, Ticks, Activated, Settle, ExecAll;
      ShiftKeeps(g);
      HeadIs(rows, timeoutTick, g, entry);
      assert t in g.init.Keys;
      var rs := cb(t, fired);
      Expire();
      ExecAllKeeps(g, rs, |rs|);
      RunAll(rs);
      Finish(t);
    }

    /** The part of `rt_tick_increase` that concerns timers. */
    method Tick(cb: Callback)
      requires Valid() && Idle(g)
      modifies this
      ensures Valid() && g == Step(old(g), Event.Tick, cb)
    {
      hide Inv, Rows, Bottom, Ticks;
      TickKeeps(g);
      tick := (tick + 1) % WRAP;
      g := g.(now := g.now + 1);
      Check(cb);
    }

    /** `rt_timer_list_next_timeout`: the tick of the earliest deadline, RT_TICK_MAX when no timer runs. */
    method NextTimeout() returns (t: nat)
      requires Valid()
      ensures g.q == [] ==> t == TICK_MAX
      ensures g.q != [] ==>
              exists e :: e in g.q && t == e.deadline % WRAP && forall x | x in g.q :: e.deadline <= x.deadline
    {
      t := TICK_MAX;
      if rows[levels - 1] != [] {
        HeadIs(rows, timeoutTick, g, entry);
        t := timeoutTick[rows[levels - 1][0]];
        assert g.q[0] in g.q;
      }
    }
  }

  /** The first node of the bottom row is the first entry, and the wrapped test says whether it is due. */
  lemma HeadIs(rows: seq<seq<int>>, timeoutTick: map<int, nat>, s: State, entry: map<int, Entry>)
    requires Inv(s) && Bottom(rows, s.q, entry) && Ticks(timeoutTick, s.q)
    ensures rows[|rows| - 1] == [] <==> s.q == []
    ensures s.q != [] ==> var t := rows[|rows| - 1][0];
                          && t == s.q[0].id && t in timeoutTick && timeoutTick[t] == s.q[0].deadline % WRAP
                          && t in s.init && (Since(s.now % WRAP, timeoutTick[t]) < HALF <==> s.q[0].deadline <= s.now)
  {
    if s.q != [] {
      assert s.q[0] in s.q;
      SinceWraps(s.now, s.q[0].deadline);
      SinceSmall(s.now, s.q[0].deadline);
    }
  }

  lemma RemovedHead(q: seq<Entry>)
    requires q != []
    ensures Removed(q, q[0].id) == q[1..]
  {
  }

  lemma ShiftShape(active: set<int>, timeoutTick: map<int, nat>, s: State)
    requires Inv(s) && Activated(active, s) && Ticks(timeoutTick, s.q) && s.q != [] && s.parked == Nobody
    ensures var t := s.q[0].id;
            && Activated(if t in s.periodic then active else active - {t}, Shift(s)) && Ticks(timeoutTick, s.q[1..])
            && Removed(s.q, t) == s.q[1..]
  {
    hide Inv, Removed, Ids, Shift;
    var t := s.q[0].id;
    ShiftRemoves(s);
    var u := Shift(s);
    forall x ensures x in (if t in s.periodic then active else active - {t}) <==>
                     x in Ids(u.q) || (u.parked == Timer(x) && x in u.periodic) {
      ShiftIds(s, x);
    }
  }

  lemma ShiftRemoves(s: State)
    requires Inv(s) && s.q != []
    ensures Removed(s.q, s.q[0].id) == s.q[1..] && Shift(s).q == s.q[1..]
    ensures Shift(s).parked == Timer(s.q[0].id) && Shift(s).periodic == s.periodic
    ensures forall e | e in s.q[1..] :: e in s.q
  {
    RemovedHead(s.q);
  }

  lemma ShiftIds(s: State, x: int)
    requires Inv(s) && s.q != []
    ensures x in Ids(Shift(s).q) <==> x in Ids(s.q) && x != s.q[0].id
    ensures s.q[0].id in Ids(s.q)
  {
    hide Inv, Ids, Removed, LogInv, Conserved;
    var t := s.q[0].id;
    ShiftRemoves(s);
    assert Sorted(s.q) && OneEach(s.q) by { InvQueue(s); }
    RemovedIs(s.q, t);
    IdsIn(s.q, x);
    IdsIn(s.q[1..], x);
    IdsIn(s.q, t);
    assert s.q[0] in s.q;
  }

  lemma InvQueue(s: State)
    requires Inv(s)
    ensures Sorted(s.q) && OneEach(s.q)
  {
  }

  lemma Unparked(s: State)
    requires Inv(s)
    ensures Inv(s.(parked := Nobody))
  {
    hide Sorted, OneEach;
  }

  lemma ParkedAlone(s: State, t: int)
    requires Inv(s) && s.parked == Timer(t)
    ensures t !in Ids(s.q)
  {
    IdsIn(s.q, t);
  }

  lemma WithoutRowsOf(rows: seq<seq<int>>, rows': seq<seq<int>>, s: State, entry: map<int, Entry>, id: int)
    requires Rows(rows, entry) && Bottom(rows, s.q, entry) && Inv(s)
    requires |rows'| == |rows| && forall l | 0 <= l < |rows| :: rows'[l] == Without(rows[l], id)
    ensures Rows(rows', entry) && Bottom(rows', Removed(s.q, id), entry)
    ensures forall l | 0 <= l < |rows| :: id !in rows'[l]
  {
    hide Rows, Bottom;
    WithoutRows(rows, rows', s.q, entry, id);
  }

  lemma IdsIn(q: seq<Entry>, id: int)
    ensures id in Ids(q) <==> exists e :: e in q && e.id == id
    ensures id in Ids(q) <==> Find(q, id, 0) < |q|
  {
    if id in Ids(q) {
      var i :| 0 <= i < |q| && Ids(q)[i] == id;
      assert q[i] in q && q[i].id == id;
    }
    if e :| e in q && e.id == id {
      var i :| 0 <= i < |q| && q[i] == e;
      assert Ids(q)[i] == id;
    }
    if Find(q, id, 0) < |q| { assert Ids(q)[Find(q, id, 0)] == id; }
  }

  lemma ActiveIs(active: set<int>, g: State, id: int)
    requires Activated(active, g)
    ensures id in active <==> Find(g.q, id, 0) < |g.q| || (g.parked == Timer(id) && id in g.periodic)
  {
    IdsIn(g.q, id);
  }

  /** A timer that is not in the queue is in no row. */
  lemma OffRows(rows: seq<seq<int>>, q: seq<Entry>, entry: map<int, Entry>, id: int)
    requires Rows(rows, entry) && Bottom(rows, q, entry) && Find(q, id, 0) == |q|
    ensures forall l | 0 <= l < |rows| :: id !in rows[l]
  {
    IdsIn(q, id);
    forall l | 0 <= l < |rows| - 1 ensures id !in rows[l] { assert Within(rows[l], rows[|rows| - 1]); }
  }

  lemma DropShape(active: set<int>, timeoutTick: map<int, nat>, s: State, id: int)
    requires Inv(s) && Activated(active, s) && Ticks(timeoutTick, s.q)
    ensures Activated(active - {id}, Drop(s, id)) && Ticks(timeoutTick, Drop(s, id).q)
    ensures forall e | e in Drop(s, id).q :: e.id != id
  {
    RemovedIs(s.q, id);
    hide Removed, Sorted, OneEach, Conserved, LogInv;
    var t := Drop(s, id);
    forall x ensures x in active - {id} <==> x in Ids(t.q) || (t.parked == Timer(x) && x in t.periodic) {
      IdsIn(s.q, x);
      IdsIn(t.q, x);
    }
  }

  lemma StartShape(active: set<int>, timeoutTick: map<int, nat>, was: map<int, nat>, s: State, id: int)
    requires Inv(s) && Activated(active, s) && Ticks(was, s.q) && id in s.init && id !in active
    requires forall e | e in s.q :: e.id != id
    requires timeoutTick == was[id := (s.now % WRAP + s.init[id]) % WRAP]
    ensures Near(s.q, s.now + s.init[id]) && Ticks(timeoutTick, s.q)
    ensures Ticks(timeoutTick, Push(s, id).q) && Activated(active + {id}, Push(s, id))
    ensures timeoutTick[id] == (s.now + s.init[id]) % WRAP
  {
    hide Insert, Sorted, OneEach, Conserved, LogInv, Ids, Find;
    var t := Push(s, id);
    var e := t.started[|s.started|];
    AddWraps(s.now, s.init[id]);
    PushQueue(s, id);
    forall x ensures x in active + {id} <==> x in Ids(t.q) || (t.parked == Timer(x) && x in t.periodic) {
      IdsIn(s.q, x);
      IdsIn(t.q, x);
    }
  }

  lemma AddWraps(a: nat, b: nat)
    ensures (a % WRAP + b) % WRAP == (a + b) % WRAP
  {
  }

  lemma PushQueue(s: State, id: int)
    requires Inv(s) && id in s.init && forall e | e in s.q :: e.id != id
    ensures forall x :: x in Push(s, id).q <==> x in s.q || x == Push(s, id).started[|s.started|]
  {
    InsertIs(s.q, Push(s, id).started[|s.started|]);
  }

  lemma SplitBounds(rows: seq<seq<int>>, pos: seq<nat>, d: nat, entry: map<int, Entry>)
    requires |rows| == |pos| && forall l | 0 <= l < |rows| :: Split(rows[l], pos[l], d, entry)
    ensures forall l | 0 <= l < |rows| :: pos[l] <= |rows[l]|
  {
  }

  lemma PushRows(rows: seq<seq<int>>, rows': seq<seq<int>>, pos: seq<nat>, top: nat, s: State, id: int,
                 entry: map<int, Entry>)
    requires Inv(s) && id in s.init && Rows(rows, entry) && Bottom(rows, s.q, entry)
    requires |rows'| == |rows| == |pos| && top < |rows|
    requires forall l | 0 <= l < |rows| :: Split(rows[l], pos[l], s.now + s.init[id], entry) && id !in rows[l]
    requires forall l | 0 <= l < |rows| ::
               rows'[l] == if l < top || pos[l] > |rows[l]| then rows[l] else InsertAt(rows[l], pos[l], id)
    ensures Rows(rows', entry[id := Push(s, id).started[|s.started|]])
    ensures Bottom(rows', Push(s, id).q, entry[id := Push(s, id).started[|s.started|]])
  {
    hide Rows, Bottom, Split;
    InsertRows(rows, rows', pos, top, s.q, Push(s, id).started[|s.started|], entry);
  }

  /** The two tests of the search loop, read in true time. */
  lemma TickOrder(rows: seq<seq<int>>, q: seq<Entry>, entry: map<int, Entry>, timeoutTick: map<int, nat>, l: nat,
                  t: int, due: nat)
    requires Rows(rows, entry) && Bottom(rows, q, entry) && Ticks(timeoutTick, q) && Near(q, due)
    requires l < |rows| && t in rows[l]
    ensures t in entry && t in timeoutTick
    ensures Since(timeoutTick[t], due % WRAP) == 0 <==> entry[t].deadline == due
    ensures 0 < Since(timeoutTick[t], due % WRAP) < HALF <==> entry[t].deadline > due
  {
    StampsInRows(rows, q, entry, l);
    var i :| 0 <= i < |q| && q[i] == entry[t];
    var b := rows[|rows| - 1];
    assert t in b by { assert l < |rows| - 1 ==> Within(rows[l], b); }
    var j :| 0 <= j < |b| && b[j] == t;
    assert q[j] in q && entry[t] == q[j];
    SinceWraps(entry[t].deadline, due);
    SinceSmall(entry[t].deadline, due);
  }

  lemma SplitHere(row: seq<int>, p: nat, d: nat, entry: map<int, Entry>)
    requires RowOk(row, entry) && Passed(row, p, d, entry)
    requires p < |row| ==> entry[row[p]].deadline > d
    ensures Split(row, p, d, entry)
  {
    forall j | p <= j < |row| ensures entry[row[j]].deadline > d {
      assert j == p || Less(entry[row[p]], entry[row[j]]);
    }
  }

  /** Going one row down from the place found, everything already passed is due no later. */
  lemma StepDown(rows: seq<seq<int>>, l: nat, p: nat, d: nat, entry: map<int, Entry>)
    requires Rows(rows, entry) && l + 1 < |rows| && Split(rows[l], p, d, entry) && p > 0
    ensures Passed(rows[l + 1], IndexOf(rows[l + 1], rows[l][p - 1]) + 1, d, entry)
  {
    var row := rows[l + 1];
    var x := rows[l][p - 1];
    assert x in rows[l] && Within(rows[l], row);
    var q := IndexOf(row, x) + 1;
    forall j | 0 <= j < q ensures entry[row[j]].deadline <= d {
      assert j == q - 1 || Less(entry[row[j]], entry[row[q - 1]]);
    }
  }

  ghost predicate Ticks(timeoutTick: map<int, nat>, q: seq<Entry>) {
    forall e | e in q :: e.id in timeoutTick && timeoutTick[e.id] == e.deadline % WRAP
  }

  ghost predicate Activated(active: set<int>, g: State) {
    forall id :: id in active <==> id in Ids(g.q) || (g.parked == Timer(id) && id in g.periodic)
  }

  /** Every queued deadline is less than half the range away. */
  ghost predicate Near(q: seq<Entry>, due: nat) {
    forall e | e in q :: -(HALF as int) < e.deadline - due < HALF
  }

  // ---- the loop of the check on wrapped ticks, whatever the delays

  /** Deadlines and delays are less than half the range away. */
  ghost predicate Halfway(s: State) {
    Near(s.q, s.now) && forall t | t in s.init :: s.init[t] < HALF
  }

  /** The loop stops here by its test on wrapped ticks. */
  predicate WrapDone(s: State) { s.q == [] || Since(s.now % WRAP, s.q[0].deadline % WRAP) >= HALF }

  lemma WrapDoneIs(s: State)
    requires Halfway(s)
    ensures WrapDone(s) <==> Done(s)
  {
    if s.q != [] {
      var e := s.q[0];
      assert e in s.q;
      SinceWraps(s.now, e.deadline);
      SinceSmall(s.now, e.deadline);
    }
  }

  ghost function WrapRounds(s: State, cb: Callback, n: nat): (t: State) {
    if n == 0 then s
    else
      var t := WrapRounds(s, cb, n - 1);
      if WrapDone(t) then t else TimerQueue.Fire(t, cb)
  }

  lemma {:induction false} WrapRoundsAre(s: State, cb: Callback, n: nat)
    requires InOrder(s) && Quiet(cb) && Halfway(s)
    ensures var t := WrapRounds(s, cb, n); t == Rounds(s, cb, n) && InOrder(t) && Halfway(t)
  {
    if n > 0 {
      WrapRoundsAre(s, cb, n - 1);
      var t := Rounds(s, cb, n - 1);
      WrapDoneIs(t);
      if !Done(t) {
        QuietRound(t, cb);
        assert t.q[0] in t.q && forall e | e in t.q[1..] :: e in t.q;
      }
    }
  }

  /** On wrapped ticks, too, the loop ends exactly if no due timer is periodic with a delay of 0. */
  lemma WrapEndsIff(s: State, cb: Callback)
    requires InOrder(s) && Quiet(cb) && Halfway(s)
    ensures (exists n: nat :: WrapDone(WrapRounds(s, cb, n))) <==> !SomeSpins(s)
  {
    hide InOrder, Quiet, Halfway, WrapDone, Done, SomeSpins;
    EndsIff(s, cb);
    forall n: nat ensures WrapDone(WrapRounds(s, cb, n)) <==> Done(Rounds(s, cb, n)) {
      WrapRoundsAre(s, cb, n);
      WrapDoneIs(Rounds(s, cb, n));
    }
    if Ends(s, cb) {
      var n: nat :| Done(Rounds(s, cb, n));
      assert WrapDone(WrapRounds(s, cb, n));
    }
  }

  /** One start and one tick lead to a check that never ends, exactly for a periodic timer with a delay of 0. */
  lemma WrapZeroDelaySpins(now: nat, init: map<int, nat>, periodic: set<int>, id: int, cb: Callback)
    requires id in init && Quiet(cb) && forall t | t in init :: init[t] < HALF
    ensures var s := Exec(Fresh(now, init, periodic), Request.Start(id)).(now := now + 1);
            (exists n: nat :: WrapDone(WrapRounds(s, cb, n))) <==> !(id in periodic && init[id] == 0)
  {
    var s := Exec(Fresh(now, init, periodic), Request.Start(id)).(now := now + 1);
    ZeroDelaySpins(now, init, periodic, id, cb);
    EndsIff(s, cb);
    assert s.q == [Entry(id, now + init[id], 0)] by { FirstStart(now, init, periodic, id); }
    WrapEndsIff(s, cb);
  }

  lemma FirstStart(now: nat, init: map<int, nat>, periodic: set<int>, id: int)
    requires id in init
    ensures var s := Exec(Fresh(now, init, periodic), Request.Start(id));
            s.q == [Entry(id, now + init[id], 0)] && s.init == init
  {
    assert Insert([], Entry(id, now + init[id], 0)) == [Entry(id, now + init[id], 0)];
  }
}
