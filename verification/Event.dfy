/** Event sets (ipc.c): threads wait until all, or any, of their bits are set. */
module Event {
  import opened Bits
  import opened Lists
  import opened Kernel

  /** `event_set` and `event_info` of a thread; `asked` keeps what it first asked for. */
  datatype Want = Want(bits: bv32, both: bool, any: bool, clear: bool, asked: bv32)

  /** `inside`: threads whose receive has started to wait and not gone on. */
  datatype Flags = Flags(bits: bv32, order: Order, list: int, wants: map<int, Want>, inside: set<int>)

  datatype Outcome = Done | Got(bits: bv32) | Invalid | Refused | Blocked | Error

  /** The condition a thread waits for: RT_EVENT_FLAG_AND goes before RT_EVENT_FLAG_OR. */
  predicate Met(w: Want, bits: bv32) {
    if w.both then And(w.bits, bits) == w.bits else And(w.bits, bits) != 0
  }

  // ---- bits

  predicate Within(a: bv32, b: bv32) {
    And(a, b) == a
  }

  lemma WithinTrans(a: bv32, b: bv32, c: bv32, ab: bv32, bc: bv32, ac: bv32)
    requires ab == And(a, b) && bc == And(b, c) && ac == And(a, c) && ab == a && bc == b
    ensures ac == a
  {
  }

  lemma MeetWithin(a: bv32, b: bv32, c: bv32, ca: bv32)
    requires c == And(a, b) && ca == And(c, a)
    ensures ca == c
  {
  }

  lemma AnyWithin(w: bv32, a: bv32, b: bv32, ab: bv32, wa: bv32, wb: bv32)
    requires ab == And(a, b) && ab == a && wa == And(w, a) && wb == And(w, b) && wa != 0
    ensures wb != 0
  {
  }

  /** A condition met by fewer bits is met by more. */
  lemma MetGrows(w: Want, a: bv32, b: bv32)
    requires Within(a, b) && Met(w, a)
    ensures Met(w, b)
  {
    hide And;
    if w.both {
      WithinTrans(w.bits, a, b, And(w.bits, a), And(a, b), And(w.bits, b));
    } else {
      AnyWithin(w.bits, a, b, And(a, b), And(w.bits, a), And(w.bits, b));
    }
  }

  lemma ClearShrinks(a: bv32, b: bv32)
    ensures Within(AndNot(a, b), a)
  {
    hide And, AndNot;
  }

  lemma WithinChain(a: bv32, b: bv32, c: bv32)
    requires Within(a, b) && Within(b, c)
    ensures Within(a, c)
  {
    hide And;
    WithinTrans(a, b, c, And(a, b), And(b, c), And(a, c));
  }

  lemma WithinSelf(a: bv32)
    ensures Within(a, a)
  {
  }

  // ---- sending

  /** What a satisfied thread takes away: all it waits for, or those of its bits that are set. */
  function Taken(w: Want, bits: bv32): (v: Want) {
    if w.both then w else w.(bits := And(w.bits, bits))
  }

  ghost predicate Listed(s: Sys, e: Flags) {
    e.list in s.lists && forall t | t in s.lists[e.list] :: t in e.wants
  }

  /** The i-th waiter, satisfied, is resumed with its bits; if it asked to clear them they are gone. */
  function WakeAt(s: Sys, e: Flags, i: nat): (r: (Sys, Flags))
    requires Inv(s) && Listed(s, e) && i < |s.lists[e.list]|
  {
    var t := s.lists[e.list][i];
    assert t in s.lists[e.list];
    WakeKeeps(s, e.list, i);
    var v := Taken(e.wants[t], e.bits);
    (Resume(s, t).0, e.(wants := e.wants[t := v], bits := if v.clear then AndNot(e.bits, v.bits) else e.bits))
  }

  /** The scan of `rt_event_send` from the i-th waiter on; false is its -RT_EINVAL. */
  function Scan(s: Sys, e: Flags, i: nat): (r: (Sys, Flags, bool))
    requires Inv(s) && Listed(s, e) && i <= |s.lists[e.list]|
    decreases if e.list in s.lists then |s.lists[e.list]| - i else 0
  {
    var q := s.lists[e.list];
    if i == |q| then (s, e, true)
    else
      var t := q[i];
      assert t in q;
      var w := e.wants[t];
      if !w.both && !w.any then (s, e, false)
      else if Met(w, e.bits) then
        WakeAtKeeps(s, e, i);
        Scan(WakeAt(s, e, i).0, WakeAt(s, e, i).1, i)
      else Scan(s, e, i + 1)
  }

  lemma WakeAtKeeps(s: Sys, e: Flags, i: nat)
    requires Inv(s) && Listed(s, e) && i < |s.lists[e.list]|
    ensures var (u, f) := WakeAt(s, e, i);
            && Inv(u) && Listed(u, f) && SamePrio(s, u) && u.current == s.current
            && f.list == e.list && f.inside == e.inside
            && u.lists == s.lists[e.list := DeleteAt(s.lists[e.list], i)]
            && |u.lists[e.list]| == |s.lists[e.list]| - 1
            && (forall t :: t in u.lists[e.list] <==> t in s.lists[e.list] && t != s.lists[e.list][i])
            && (forall t | t in s.threads && t != s.lists[e.list][i] :: u.threads[t] == s.threads[t])
            && (forall t | t in e.wants && t != s.lists[e.list][i] :: t in f.wants && f.wants[t] == e.wants[t])
  {
    hide Core, Resume;
    WakeKeeps(s, e.list, i);
    OnOneList(s, e.list, i);
    DeleteIn(s.lists[e.list], i);
  }

  /** Resuming the i-th waiter takes it out of the list and leaves the others in order. */
  lemma WakeKeeps(s: Sys, l: int, i: nat)
    requires Inv(s) && l in s.lists && i < |s.lists[l]|
    ensures var t := s.lists[l][i];
            && t in s.threads && s.threads[t].prio < |s.ready| && s.threads[t].stat == Suspended
            && var u := Resume(s, t).0;
               && Inv(u) && SamePrio(s, u) && u.current == s.current
               && u.lists == s.lists[l := DeleteAt(s.lists[l], i)]
               && u.threads == s.threads[t :=
                    s.threads[t].(armed := false, stat := if t == s.current then Running else Ready)]
  {
    hide Core, Resume, DeleteAt;
    var t := s.lists[l][i];
    OnOneList(s, l, i);
    PrioInRange(s, t);
    ResumeKeeps(s, t);
    var u := Resume(s, t).0;
    forall m | m in s.lists && m != l ensures Without(s.lists[m], t) == s.lists[m] { WithoutAbsent(s.lists[m], t); }
    assert u.lists == s.lists[l := DeleteAt(s.lists[l], i)];
  }

  lemma OnOneList(s: Sys, l: int, i: nat)
    requires Inv(s) && l in s.lists && i < |s.lists[l]|
    ensures s.lists[l][i] in s.threads && s.threads[s.lists[l][i]].stat == Suspended
    ensures Without(s.lists[l], s.lists[l][i]) == DeleteAt(s.lists[l], i)
    ensures forall m | m in s.lists && m != l :: s.lists[l][i] !in s.lists[m]
    ensures Distinct(s.lists[l])
  {
    var t := s.lists[l][i];
    assert t in s.lists[l];
    assert ListOk(s.threads, s.lists[l], {});
    assert IndexOf(s.lists[l], t) == i;
  }

  // ---- the invariant

  /** Nobody waits for what is already there. */
  ghost predicate EventInv(s: Sys, e: Flags) {
    && Inv(s) && e.list in s.lists
    && (forall t | t in s.lists[e.list] :: t in e.inside)
    && (forall t | t in e.inside :: t in s.threads && t in e.wants && Waits(s, e, t))
    && forall t | t in s.lists[e.list] && t in e.wants :: !Met(e.wants[t], e.bits)
  }

  /** A thread inside is suspended, or has an error, or has been given bits that answer its request. */
  ghost predicate Waits(s: Sys, e: Flags, t: int)
    requires e.list in s.lists && t in s.threads && t in e.wants
  {
    var w := e.wants[t];
    && w.asked != 0 && (w.both || w.any)
    && if t in s.lists[e.list] then s.threads[t].code == Ok && w.bits == w.asked
       else !s.threads[t].armed && (s.threads[t].code == Ok ==> Answered(w))
  }

  ghost predicate Answered(w: Want) {
    w.bits != 0 && Within(w.bits, w.asked) && (w.both ==> w.bits == w.asked)
  }

  /** The invariant in the middle of a scan: only the waiters before the i-th have been tried. */
  ghost predicate Scanned(s: Sys, e: Flags, i: nat) {
    && Inv(s) && e.list in s.lists && i <= |s.lists[e.list]|
    && (forall t | t in s.lists[e.list] :: t in e.inside)
    && (forall t | t in e.inside :: t in s.threads && t in e.wants && Waits(s, e, t))
    && forall j | 0 <= j < i && s.lists[e.list][j] in e.wants :: !Met(e.wants[s.lists[e.list][j]], e.bits)
  }

  /** One wake-up: fewer bits satisfy nobody who was not satisfied, and the woken thread is answered. */
  lemma WakeScanned(s: Sys, e: Flags, i: nat)
    requires Scanned(s, e, i) && i < |s.lists[e.list]| && Listed(s, e)
    requires s.lists[e.list][i] in e.wants && Met(e.wants[s.lists[e.list][i]], e.bits)
    ensures Scanned(WakeAt(s, e, i).0, WakeAt(s, e, i).1, i) && Within(WakeAt(s, e, i).1.bits, e.bits)
  {
    hide Core, Resume, Met, Within;
    var (u, f) := WakeAt(s, e, i);
    var q := s.lists[e.list];
    var t := q[i];
    WakeKeeps(s, e.list, i);
    WakeAtKeeps(s, e, i);
    OnOneList(s, e.list, i);
    DeleteAtIndex(q, i);
    assert t in q;
    TakenAnswers(e.wants[t], e.bits);
    var v := Taken(e.wants[t], e.bits);
    ClearShrinks(e.bits, v.bits);
    WithinSelf(e.bits);
    forall j | 0 <= j < i && u.lists[e.list][j] in f.wants ensures !Met(f.wants[u.lists[e.list][j]], f.bits) {
      var x := q[j];
      assert x in q && x != t;
      if Met(e.wants[x], f.bits) { MetGrows(e.wants[x], f.bits, e.bits); }
    }
  }

  lemma TakenAnswers(w: Want, bits: bv32)
    requires Met(w, bits) && w.bits == w.asked != 0
    ensures Answered(Taken(w, bits))
  {
    hide And;
    if w.both {
      assert Within(w.bits, w.bits) by { WithinSelf(w.bits); }
    } else {
      MeetWithin(w.bits, bits, And(w.bits, bits), And(And(w.bits, bits), w.bits));
    }
  }

  /** After the scan nobody who still waits is satisfied, and everybody woken was so by the bits it began with. */
  lemma {:induction false} ScanKeeps(s: Sys, e: Flags, i: nat)
    requires Scanned(s, e, i) && Listed(s, e)
    ensures var (u, f, ok) := Scan(s, e, i);
            && ok && EventInv(u, f) && SamePrio(s, u) && u.current == s.current
            && f.list == e.list && f.inside == e.inside && Within(f.bits, e.bits)
            && (forall m | m in s.lists && m != e.list :: u.lists[m] == s.lists[m])
            && (forall t | t in u.lists[e.list] :: t in s.lists[e.list])
            && (forall t | t in s.lists[e.list] && t !in u.lists[e.list] && t in e.wants :: Met(e.wants[t], e.bits))
            && (forall t | t in s.threads && t !in s.lists[e.list] :: u.threads[t] == s.threads[t])
    decreases if e.list in s.lists then |s.lists[e.list]| - i else 0
  {
    hide Core, Met, Within, WakeAt;
    var q := s.lists[e.list];
    if i == |q| {
      WithinSelf(e.bits);
    } else {
      var t := q[i];
      assert t in q;
      if Met(e.wants[t], e.bits) {
        WakeAtKeeps(s, e, i);
        WakeScanned(s, e, i);
        var (u, f) := WakeAt(s, e, i);
        ScanKeeps(u, f, i);
        var (u', f', _) := Scan(u, f, i);
        WithinChain(f'.bits, f.bits, e.bits);
        forall x | x in q && x !in u'.lists[e.list] && x in e.wants ensures Met(e.wants[x], e.bits) {
          if x != t { MetGrows(e.wants[x], f.bits, e.bits); }
        }
      } else {
        ScanKeeps(s, e, i + 1);
      }
    }
  }

  // ---- one pass over the waiters, told by the set alone

  /** The bits that a satisfied waiter is given. */
  function Gets(w: Want, set_: bv32): (b: bv32) { if w.both then w.bits else And(w.bits, set_) }

  /** The set after a waiter's turn: a satisfied one that asked to clear takes its bits away. */
  function Leaves(w: Want, set_: bv32): (b: bv32) {
    if Met(w, set_) && w.clear then AndNot(set_, Gets(w, set_)) else set_
  }

  ghost predicate Wanting(wants: map<int, Want>, q: seq<int>) { forall i | 0 <= i < |q| :: q[i] in wants }

  /** The set at the turn of the k-th waiter. */
  function AtTurn(wants: map<int, Want>, q: seq<int>, set_: bv32, k: nat): (b: bv32)
    requires k <= |q| && Wanting(wants, q)
    decreases k
  {
    if k == 0 then set_ else Leaves(wants[q[k - 1]], AtTurn(wants, q, set_, k - 1))
  }

  /** The k-th waiter of q at its turn: satisfied, it can run again, with its bits and as it was; else it waits on. */
  ghost predicate HadTurn(s: Sys, e: Flags, u: Sys, f: Flags, t: int, set_: bv32) {
    && e.list in u.lists && t in e.wants && t in f.wants && t in s.threads && t in u.threads
    && if Met(e.wants[t], set_)
       then t !in u.lists[e.list] && RunsOn(u.threads[t], s.threads[t].code)
            && f.wants[t] == e.wants[t].(bits := Gets(e.wants[t], set_))
       else t in u.lists[e.list] && u.threads[t] == s.threads[t] && f.wants[t] == e.wants[t]
  }

  /** What a pass over the waiters from the i-th on makes of each of them and of the set. */
  ghost predicate Passed(s: Sys, e: Flags, u: Sys, f: Flags, i: nat) {
    && Listed(s, e) && i <= |s.lists[e.list]|
    && var q := s.lists[e.list][i..];
       && Wanting(e.wants, q)
       && f.bits == AtTurn(e.wants, q, e.bits, |q|)
       && forall k | 0 <= k < |q| :: HadTurn(s, e, u, f, q[k], AtTurn(e.wants, q, e.bits, k))
  }

  lemma {:induction false} TurnShifts(wants: map<int, Want>, q: seq<int>, set_: bv32, k: nat)
    requires 0 < k <= |q| && Wanting(wants, q)
    ensures Wanting(wants, q[1..])
    ensures AtTurn(wants, q, set_, k) == AtTurn(wants, q[1..], Leaves(wants[q[0]], set_), k - 1)
  {
    hide Leaves;
    if k > 1 { TurnShifts(wants, q, set_, k - 1); }
  }

  lemma {:induction false} SameTurns(wants: map<int, Want>, others: map<int, Want>, q: seq<int>, set_: bv32, k: nat)
    requires k <= |q| && Wanting(wants, q) && Wanting(others, q)
    requires forall i | 0 <= i < |q| :: others[q[i]] == wants[q[i]]
    ensures AtTurn(others, q, set_, k) == AtTurn(wants, q, set_, k)
  {
    hide Leaves;
    if k > 0 { SameTurns(wants, others, q, set_, k - 1); }
  }

  /** Until somebody is satisfied the set stays as it was. */
  lemma {:induction false} UnmetTurns(wants: map<int, Want>, q: seq<int>, set_: bv32, k: nat)
    requires k <= |q| && Wanting(wants, q) && forall j | 0 <= j < k :: !Met(wants[q[j]], set_)
    ensures AtTurn(wants, q, set_, k) == set_
  {
    hide Met, Gets;
    if k > 0 { UnmetTurns(wants, q, set_, k - 1); }
  }

  lemma WithoutBits(m: bv32, a: bv32, b: bv32, ab: bv32, mab: bv32, ma: bv32, mb: bv32)
    requires ab == AndNot(a, b) && mab == And(m, ab) && ma == And(m, a) && mb == And(m, b)
    ensures mab == m <==> ma == m && mb == 0
  {
  }

  /** Bits are in the set at the k-th turn if they were in it and none was given to one who cleared. */
  lemma {:induction false} TurnBits(wants: map<int, Want>, q: seq<int>, set_: bv32, m: bv32, k: nat)
    requires k <= |q| && Wanting(wants, q)
    ensures Within(m, AtTurn(wants, q, set_, k)) <==>
            && Within(m, set_)
            && forall j | 0 <= j < k && wants[q[j]].clear && Met(wants[q[j]], AtTurn(wants, q, set_, j)) ::
                 And(m, Gets(wants[q[j]], AtTurn(wants, q, set_, j))) == 0
  {
    hide Met, Gets, And, AndNot;
    if k > 0 {
      TurnBits(wants, q, set_, m, k - 1);
      var w, a := wants[q[k - 1]], AtTurn(wants, q, set_, k - 1);
      var g := Gets(w, a);
      WithoutBits(m, a, g, AndNot(a, g), And(m, AndNot(a, g)), And(m, a), And(m, g));
    }
  }

  /** A pass from the i-th waiter on leaves everybody else as they were. */
  ghost predicate Untried(s: Sys, e: Flags, u: Sys, f: Flags, i: nat) {
    && e.list in s.lists && e.list in u.lists && i <= |s.lists[e.list]|
    && var q := s.lists[e.list];
       && (forall j | 0 <= j < i :: q[j] in u.lists[e.list])
       && (forall t | t in u.lists[e.list] :: t in q)
       && (forall t | t in s.threads && t !in q[i..] :: t in u.threads && u.threads[t] == s.threads[t])
       && forall t | t in e.wants && t !in q[i..] :: t in f.wants && f.wants[t] == e.wants[t]
  }

  /** The scan gives every waiter its turn, in list order. */
  lemma {:induction false} ScanPasses(s: Sys, e: Flags, i: nat)
    requires Scanned(s, e, i) && Listed(s, e)
    ensures Passed(s, e, Scan(s, e, i).0, Scan(s, e, i).1, i) && Untried(s, e, Scan(s, e, i).0, Scan(s, e, i).1, i)
    decreases if e.list in s.lists then |s.lists[e.list]| - i else 0
  {
    hide Core, Met, Gets, Leaves, WakeAt, Passed, Untried;
    var q := s.lists[e.list];
    if i == |q| {
      PassEnds(s, e);
    } else {
      RestWanting(s, e, i);
      if Met(e.wants[q[i]], e.bits) {
        WakeAtKeeps(s, e, i);
        WakeScanned(s, e, i);
        var (u, f) := WakeAt(s, e, i);
        ScanPasses(u, f, i);
        PassWakes(s, e, i, Scan(u, f, i).0, Scan(u, f, i).1);
      } else {
        ScanPasses(s, e, i + 1);
        PassSkips(s, e, i, Scan(s, e, i + 1).0, Scan(s, e, i + 1).1);
      }
    }
  }

  lemma PassEnds(s: Sys, e: Flags)
    requires Listed(s, e)
    ensures Passed(s, e, s, e, |s.lists[e.list]|) && Untried(s, e, s, e, |s.lists[e.list]|)
  {
    var q := s.lists[e.list];
    forall j | 0 <= j < |q| ensures q[j] in q {}
  }

  /** The waiters from the i-th on, as seen from the i-th. */
  lemma RestWanting(s: Sys, e: Flags, i: nat)
    requires Listed(s, e) && i < |s.lists[e.list]|
    ensures var q := s.lists[e.list];
            && q[i] in e.wants && q[i..][0] == q[i] && q[i..][1..] == q[i + 1..]
            && Wanting(e.wants, q[i..]) && Wanting(e.wants, q[i + 1..])
  {
    var q := s.lists[e.list];
    forall x | x in q ensures x in e.wants {}
    forall j | 0 <= j < |q| ensures q[j] in q && q[j] in e.wants {}
  }

  lemma PassSkips(s: Sys, e: Flags, i: nat, u: Sys, f: Flags)
    requires Inv(s) && Listed(s, e) && i < |s.lists[e.list]|
    requires s.lists[e.list][i] in e.wants && !Met(e.wants[s.lists[e.list][i]], e.bits)
    requires Passed(s, e, u, f, i + 1) && Untried(s, e, u, f, i + 1)
    ensures Passed(s, e, u, f, i) && Untried(s, e, u, f, i)
  {
    hide Inv, Met, Gets, AtTurn, Wanting, HadTurn;
    RestWanting(s, e, i);
    OnOneList(s, e.list, i);
    var q := s.lists[e.list];
    var rest, t := q[i..], q[i];
    assert Leaves(e.wants[t], e.bits) == e.bits;
    forall j | i < j < |q| ensures q[j] != t {}
    assert t !in q[i + 1..];
    forall x | x in q[i + 1..] ensures x in rest { assert rest == [t] + q[i + 1..]; }
    assert HadTurn(s, e, u, f, t, e.bits) by { Skipped(s, e, u, f, t); }
    TurnZero(e.wants, rest, e.bits);
    forall k | 0 < k <= |rest| ensures AtTurn(e.wants, rest, e.bits, k) == AtTurn(e.wants, q[i + 1..], e.bits, k - 1) {
      TurnShifts(e.wants, rest, e.bits, k);
    }
    forall k | 0 <= k < |rest| ensures HadTurn(s, e, u, f, rest[k], AtTurn(e.wants, rest, e.bits, k)) {
      if k > 0 { assert rest[k] == q[i + 1..][k - 1]; }
    }
  }

  lemma TurnZero(wants: map<int, Want>, q: seq<int>, set_: bv32)
    requires Wanting(wants, q)
    ensures AtTurn(wants, q, set_, 0) == set_
  {
  }

  lemma Skipped(s: Sys, e: Flags, u: Sys, f: Flags, t: int)
    requires t in e.wants && !Met(e.wants[t], e.bits)
    requires t in s.threads && t in u.threads && u.threads[t] == s.threads[t]
    requires t in f.wants && f.wants[t] == e.wants[t] && e.list in u.lists && t in u.lists[e.list]
    ensures HadTurn(s, e, u, f, t, e.bits)
  {
    hide Met;
  }

  /** The list after the i-th waiter was woken. */
  lemma WokenPlaces(s: Sys, e: Flags, i: nat)
    requires Inv(s) && Listed(s, e) && i < |s.lists[e.list]|
    ensures var q, r := s.lists[e.list], WakeAt(s, e, i).0.lists[e.list];
            && i <= |r| && r[i..] == q[i + 1..] && (forall j | 0 <= j < i :: r[j] == q[j])
            && q[i] !in q[i + 1..] && q[i..] == [q[i]] + q[i + 1..] && forall t | t in r :: t in q && t != q[i]
  {
    hide Inv, WakeAt, DeleteAt, Distinct;
    WakeAtKeeps(s, e, i);
    OnOneList(s, e.list, i);
    DeleteParts(s.lists[e.list], i);
    assert WakeAt(s, e, i).0.lists[e.list] == DeleteAt(s.lists[e.list], i);
  }

  /** Those behind the i-th waiter are the same threads with the same wishes after its turn. */
  lemma RestSame(s: Sys, e: Flags, i: nat)
    requires Inv(s) && Listed(s, e) && i < |s.lists[e.list]|
    ensures var (v, g), w := WakeAt(s, e, i), s.lists[e.list][i + 1..];
            && Wanting(g.wants, w)
            && forall j | 0 <= j < |w| ::
                 w[j] in e.wants && g.wants[w[j]] == e.wants[w[j]] && w[j] in s.threads && w[j] in v.threads
                 && v.threads[w[j]] == s.threads[w[j]]
  {
    hide Inv, WakeAt, DeleteAt;
    WakeAtKeeps(s, e, i);
    WokenPlaces(s, e, i);
    var q := s.lists[e.list];
    var w := q[i + 1..];
    forall j | 0 <= j < |w| ensures w[j] in q && w[j] in s.threads && w[j] != q[i] {
      OnOneList(s, e.list, i + 1 + j);
      assert q[i + 1 + j] == w[j] && w[j] in w;
    }
  }

  lemma PassWakes(s: Sys, e: Flags, i: nat, u: Sys, f: Flags)
    requires Inv(s) && Listed(s, e) && i < |s.lists[e.list]|
    requires s.lists[e.list][i] in e.wants && Met(e.wants[s.lists[e.list][i]], e.bits)
    requires Passed(WakeAt(s, e, i).0, WakeAt(s, e, i).1, u, f, i)
    requires Untried(WakeAt(s, e, i).0, WakeAt(s, e, i).1, u, f, i)
    ensures Passed(s, e, u, f, i) && Untried(s, e, u, f, i)
  {
    hide Inv, Met, Gets, AtTurn, Wanting, HadTurn, WakeAt, DeleteAt, Untried;
    var (v, g) := WakeAt(s, e, i);
    WakesUntried(s, e, i, u, f);
    Woken1(s, e, i);
    RestWanting(s, e, i);
    RestSame(s, e, i);
    WokenPlaces(s, e, i);
    var q := s.lists[e.list];
    var rest, w := q[i..], q[i + 1..];
    TurnZero(e.wants, rest, e.bits);
    forall k | 0 < k <= |rest| ensures AtTurn(e.wants, rest, e.bits, k) == AtTurn(g.wants, w, g.bits, k - 1) {
      TurnShifts(e.wants, rest, e.bits, k);
      SameTurns(e.wants, g.wants, w, g.bits, k - 1);
    }
    forall k | 0 <= k < |rest| ensures HadTurn(s, e, u, f, rest[k], AtTurn(e.wants, rest, e.bits, k)) {
      if k == 0 {
        FirstTurn(s, e, i, u, f);
      } else {
        assert rest[k] == w[k - 1];
        assert HadTurn(v, g, u, f, w[k - 1], AtTurn(g.wants, w, g.bits, k - 1));
        SameTurn(s, e, v, g, u, f, w[k - 1], AtTurn(g.wants, w, g.bits, k - 1));
      }
    }
  }

  lemma WakesUntried(s: Sys, e: Flags, i: nat, u: Sys, f: Flags)
    requires Inv(s) && Listed(s, e) && i < |s.lists[e.list]|
    requires Untried(WakeAt(s, e, i).0, WakeAt(s, e, i).1, u, f, i)
    ensures Untried(s, e, u, f, i)
  {
    hide Inv, WakeAt, DeleteAt;
    WakeAtKeeps(s, e, i);
    WokenPlaces(s, e, i);
    var q, r := s.lists[e.list], WakeAt(s, e, i).0.lists[e.list];
    forall j | 0 <= j < i ensures q[j] in u.lists[e.list] { assert r[j] == q[j]; }
    forall t | t !in q[i..] ensures t != q[i] && t !in q[i + 1..] {}
  }

  /** What waking the i-th waiter makes of it and of the set. */
  lemma Woken1(s: Sys, e: Flags, i: nat)
    requires Inv(s) && Listed(s, e) && i < |s.lists[e.list]|
    requires s.lists[e.list][i] in e.wants && Met(e.wants[s.lists[e.list][i]], e.bits)
    ensures var (v, g) := WakeAt(s, e, i);
            var t := s.lists[e.list][i];
            && t in v.threads && t in s.threads && RunsOn(v.threads[t], s.threads[t].code)
            && g.bits == Leaves(e.wants[t], e.bits) && g.list == e.list
            && t in g.wants && g.wants[t] == e.wants[t].(bits := Gets(e.wants[t], e.bits))
            && v.threads.Keys == s.threads.Keys
  {
    hide Core, Resume, Met, And, AndNot;
    WakeKeeps(s, e.list, i);
  }

  lemma FirstTurn(s: Sys, e: Flags, i: nat, u: Sys, f: Flags)
    requires Inv(s) && Listed(s, e) && i < |s.lists[e.list]|
    requires s.lists[e.list][i] in e.wants && Met(e.wants[s.lists[e.list][i]], e.bits)
    requires Untried(WakeAt(s, e, i).0, WakeAt(s, e, i).1, u, f, i)
    ensures HadTurn(s, e, u, f, s.lists[e.list][i], e.bits)
  {
    hide Core, Resume, Met, Gets, WakeAt, DeleteAt;
    WakeAtKeeps(s, e, i);
    Woken1(s, e, i);
    OnOneList(s, e.list, i);
    var q, t := s.lists[e.list], s.lists[e.list][i];
    DeleteAtIndex(q, i);
    var r := DeleteAt(q, i);
    assert t !in r;
    assert forall x | x in r[i..] :: x in r;
  }

  lemma SameTurn(s: Sys, e: Flags, v: Sys, g: Flags, u: Sys, f: Flags, t: int, set_: bv32)
    requires HadTurn(v, g, u, f, t, set_) && g.list == e.list && t in e.wants && g.wants[t] == e.wants[t]
    requires t in s.threads && v.threads[t] == s.threads[t]
    ensures HadTurn(s, e, u, f, t, set_)
  {
    hide Met, Gets;
  }

  /** `rt_event_send`. */
  function Send(s: Sys, e: Flags, bits: bv32): (r: (Sys, Flags, Outcome))
    requires Inv(s) && Listed(s, e)
  {
    if bits == 0 then (s, e, Error)
    else
      var (u, f, ok) := Scan(s, e.(bits := Or(e.bits, bits)), 0);
      (u, f, if ok then Done else Invalid)
  }

  /** `rt_event_recv` up to the wait; the option must ask for all or for any of the bits. */
  function Receive(s: Sys, e: Flags, w: Want, timeout: int): (r: (Sys, Flags, Outcome))
    requires Inv(s) && e.list in s.lists && s.threads[s.current].stat == Running
  {
    CurrentKnown(s);
    var t := s.current;
    if w.bits == 0 then (s, e, Error)
    else
      NoteKeeps(s, Ok);
      var s1 := SetCode(s, t, Ok);
      if Met(w, e.bits) then
        var got := And(e.bits, w.bits);
        (s1, e.(wants := e.wants[t := w.(bits := got)], bits := if w.clear then AndNot(e.bits, w.bits) else e.bits),
         Got(got))
      else if timeout == 0 then (SetCode(s1, t, TimedOut), e, Refused)
      else
        WaitOk(s1, e.list, e.order);
        var u := Wait(s1, e.list, t, e.order);
        (if timeout > 0 then Arm(u, t, true) else u, e.(wants := e.wants[t := w], inside := e.inside + {t}), Blocked)
  }

  lemma NoteKeeps(s: Sys, c: Code)
    requires Inv(s) && s.threads[s.current].stat == Running
    ensures s.current in s.threads && Inv(SetCode(s, s.current, c)) && SamePrio(s, SetCode(s, s.current, c))
            && Nowhere(s, s.current)
    ensures !s.threads[s.current].armed
  {
    hide Core;
    CurrentOut(s);
    TouchCore(s, s.current, s.threads[s.current].(code := c), {});
  }

  lemma CurrentOut(s: Sys)
    requires Inv(s) && s.threads[s.current].stat == Running
    ensures s.current in s.threads && Nowhere(s, s.current) && !s.threads[s.current].armed
  {
    assert ThreadOk(s.threads[s.current], true, true);
    ActiveNowhere(s, s.current, {});
  }

  lemma WaitOk(s: Sys, l: int, order: Order)
    requires Inv(s) && l in s.lists && s.threads[s.current].stat == Running
    ensures s.current in s.threads && s.threads[s.current].prio < |s.ready| && Known(s.threads, s.lists[l])
  {
    hide Core;
    CurrentKnown(s);
    PrioInRange(s, s.current);
    WaitKeeps(s, l, s.current, order);
  }

  /** A woken or timed out thread goes on: its error, or the bits it was given. */
  function GoOn(s: Sys, e: Flags): (r: (Flags, Outcome))
    requires s.current in s.threads && s.current in e.wants
  {
    (e.(inside := e.inside - {s.current}),
     if s.threads[s.current].code != Ok then Error else Got(e.wants[s.current].bits))
  }

  /** `rt_event_control` with RT_IPC_CMD_RESET. */
  function Reset(s: Sys, e: Flags): (r: (Sys, Flags))
    requires Inv(s) && e.list in s.lists
  {
    (ResumeAll(s, e.list), e.(bits := 0))
  }

  lemma SendKeeps(s: Sys, e: Flags, bits: bv32)
    requires EventInv(s, e)
    ensures Listed(s, e)
    ensures var (u, f, r) := Send(s, e, bits);
            && EventInv(u, f) && u.current == s.current && SamePrio(s, u) && f.list == e.list && f.inside == e.inside
            && r == (if bits == 0 then Error else Done)
            && Within(f.bits, if bits == 0 then e.bits else Or(e.bits, bits))
            && (forall t | t in u.lists[e.list] :: t in s.lists[e.list])
            && (forall t | t in s.lists[e.list] && t !in u.lists[e.list] && t in e.wants ::
                  Met(e.wants[t], Or(e.bits, bits)))
            && (forall m | m in s.lists && m != e.list :: u.lists[m] == s.lists[m])
  {
    hide Inv, Met, Within, Scan;
    WithinSelf(e.bits);
    if bits != 0 {
      var f := e.(bits := Or(e.bits, bits));
      assert Scanned(s, f, 0);
      ScanKeeps(s, f, 0);
    }
  }

  /** A send sets its bits and then gives every waiter its turn, in list order; nobody else changes. */
  lemma SendEffect(s: Sys, e: Flags, bits: bv32)
    requires EventInv(s, e)
    ensures Listed(s, e)
    ensures var (u, f, r) := Send(s, e, bits);
            if bits == 0 then u == s && f == e && r == Error
            else
              && r == Done && e.list in u.lists && Passed(s, e.(bits := Or(e.bits, bits)), u, f, 0)
              && (forall t | t in u.lists[e.list] :: t in s.lists[e.list])
              && (forall t | t in s.threads && t !in s.lists[e.list] :: t in u.threads && u.threads[t] == s.threads[t])
              && forall t | t in e.wants && t !in s.lists[e.list] :: t in f.wants && f.wants[t] == e.wants[t]
  {
    hide Core, Met, Gets, Leaves, Scan, AtTurn, HadTurn;
    if bits != 0 {
      var g := e.(bits := Or(e.bits, bits));
      ScanKeeps(s, g, 0);
      ScanPasses(s, g, 0);
      assert s.lists[e.list][0..] == s.lists[e.list];
    }
  }

  /** What remains set: all that was set or sent, but for the bits given to those who asked to clear them. */
  lemma SendLeaves(s: Sys, e: Flags, bits: bv32, m: bv32)
    requires EventInv(s, e) && bits != 0
    ensures Listed(s, e)
    ensures var (u, f, _) := Send(s, e, bits);
            && e.list in u.lists && (forall t | t in s.lists[e.list] :: t in f.wants)
            && (Within(m, f.bits) <==>
                Within(m, Or(e.bits, bits)) &&
                forall t | t in s.lists[e.list] && t !in u.lists[e.list] && e.wants[t].clear ::
                  And(m, f.wants[t].bits) == 0)
  {
    hide Inv, Met, Within, And, Gets, AtTurn, Send, Or;
    SendEffect(s, e, bits);
    var (u, f, _) := Send(s, e, bits);
    var q, set_ := s.lists[e.list], Or(e.bits, bits);
    assert q[0..] == q;
    TurnBits(e.wants, q, set_, m, |q|);
    forall t | t in q ensures t in f.wants {
      var k :| 0 <= k < |q| && q[k] == t;
      assert HadTurn(s, e.(bits := set_), u, f, q[k], AtTurn(e.wants, q, set_, k));
    }
    forall k | 0 <= k < |q|
      ensures q[k] !in u.lists[e.list] <==> Met(e.wants[q[k]], AtTurn(e.wants, q, set_, k))
      ensures q[k] !in u.lists[e.list] ==> f.wants[q[k]].bits == Gets(e.wants[q[k]], AtTurn(e.wants, q, set_, k))
    {
      assert HadTurn(s, e.(bits := set_), u, f, q[k], AtTurn(e.wants, q, set_, k));
    }
    forall t | t in q && t !in u.lists[e.list] && e.wants[t].clear
      ensures exists k :: 0 <= k < |q| && q[k] == t
    {
    }
  }

  /** If none of those woken asked to clear its bits, every bit that was set or sent is set. */
  lemma SendSets(s: Sys, e: Flags, bits: bv32)
    requires EventInv(s, e) && bits != 0
    ensures Listed(s, e) && e.list in Send(s, e, bits).0.lists
    ensures (forall t | t in s.lists[e.list] && t !in Send(s, e, bits).0.lists[e.list] :: !e.wants[t].clear) ==>
              Send(s, e, bits).1.bits == Or(e.bits, bits)
  {
    hide Inv, Met, And, Send, Or;
    var all, left := Or(e.bits, bits), Send(s, e, bits).1.bits;
    SendKeeps(s, e, bits);
    SendLeaves(s, e, bits, all);
    WithinSelf(all);
    Swap(all, left);
  }

  /** The first waiter who is satisfied by what was set and sent goes, with its bits of these. */
  lemma SendWakes(s: Sys, e: Flags, bits: bv32, k: nat)
    requires EventInv(s, e) && bits != 0 && k < |s.lists[e.list]|
    ensures Listed(s, e) && s.lists[e.list][k] in e.wants
    ensures var (u, f, _), q, set_ := Send(s, e, bits), s.lists[e.list], Or(e.bits, bits);
            Met(e.wants[q[k]], set_) && (forall j | 0 <= j < k && q[j] in e.wants :: !Met(e.wants[q[j]], set_)) ==>
              HadTurn(s, e, u, f, q[k], set_) && q[k] !in u.lists[e.list]
  {
    hide Inv, Met, And, Gets, AtTurn, Send, Or;
    SendEffect(s, e, bits);
    var q, set_ := s.lists[e.list], Or(e.bits, bits);
    assert q[0..] == q && q[k] in q;
    forall j | 0 <= j < k ensures q[j] in q {}
    if forall j | 0 <= j < k && q[j] in e.wants :: !Met(e.wants[q[j]], set_) {
      UnmetTurns(e.wants, q, set_, k);
      assert HadTurn(s, e.(bits := set_), Send(s, e, bits).0, Send(s, e, bits).1, q[k], AtTurn(e.wants, q, set_, k));
    }
  }

  /** A thread is given bits that answer it, or is refused, or is the one more waiter, not satisfied. */
  lemma ReceiveKeeps(s: Sys, e: Flags, w: Want, timeout: int)
    requires EventInv(s, e) && s.threads[s.current].stat == Running && s.current !in e.inside
    requires w.asked == w.bits && (w.both || w.any)
    ensures var (u, f, r) := Receive(s, e, w, timeout);
            && EventInv(u, f) && u.current == s.current && SamePrio(s, u)
            && (r.Got? <==> w.bits != 0 && Met(w, e.bits))
            && (r.Got? ==>
                  r.bits != 0 && Within(r.bits, w.bits) && Within(r.bits, e.bits) && (w.both ==> r.bits == w.bits))
            && (r == Blocked ==> s.current in u.lists[e.list] && u.threads[s.current].armed == (timeout > 0))
            && (r == Refused || r == Error ==> f == e)
  {
    hide Core, Wait, Met, Within, And, AndNot, Arm;
    CurrentOut(s);
    if w.bits != 0 {
      NoteKeeps(s, Ok);
      var s1 := SetCode(s, s.current, Ok);
      assert EventInv(s1, e);
      if Met(w, e.bits) {
        GotAnswers(w, e.bits);
        GotKeeps(s1, e, w, And(e.bits, w.bits));
      } else if timeout == 0 {
        NoteKeeps(s1, TimedOut);
      } else {
        BlockKeeps(s1, e, w, timeout > 0);
      }
    }
  }

  /** A receive that is satisfied is served like a waiter at its turn; one that is not waits, or is refused. */
  lemma ReceiveEffect(s: Sys, e: Flags, w: Want, timeout: int)
    requires EventInv(s, e) && s.threads[s.current].stat == Running && s.current !in e.inside
    ensures s.current in s.threads
    ensures var (u, f, r), t := Receive(s, e, w, timeout), s.current;
            if w.bits == 0 then r == Error && u == s && f == e
            else if Met(w, e.bits) then
              && r == Got(Gets(w, e.bits)) && u == SetCode(s, t, Ok)
              && f == e.(bits := Leaves(w, e.bits), wants := e.wants[t := w.(bits := Gets(w, e.bits))])
            else if timeout == 0 then r == Refused && u == SetCode(s, t, TimedOut) && f == e
            else
              && r == Blocked && Enters(s, e.list, e.order, timeout > 0, u)
              && f == e.(wants := e.wants[t := w], inside := e.inside + {t})
  {
    hide Inv, Wait, Enters, Met, Gets, Leaves, And, AndNot;
    CurrentOut(s);
    if w.bits != 0 {
      NoteKeeps(s, Ok);
      if Met(w, e.bits) {
        ServedAs(w, e.bits);
      } else if timeout != 0 {
        ReceiveWaits(s, e, timeout > 0);
      }
    }
  }

  lemma ServedAs(w: Want, bits: bv32)
    requires Met(w, bits)
    ensures And(bits, w.bits) == Gets(w, bits)
    ensures (if w.clear then AndNot(bits, w.bits) else bits) == Leaves(w, bits)
  {
    hide And, AndNot;
    Swap(bits, w.bits);
    Cleared(bits, w.bits, And(w.bits, bits), AndNot(bits, w.bits), AndNot(bits, And(w.bits, bits)));
  }

  lemma ReceiveWaits(s: Sys, e: Flags, timed: bool)
    requires Inv(s) && e.list in s.lists && s.threads[s.current].stat == Running
    ensures s.current in s.threads
    ensures var t, s1 := s.current, SetCode(s, s.current, Ok);
            && Inv(s1) && t in s1.threads && s1.threads[t].prio < |s1.ready|
            && e.list in s1.lists && Known(s1.threads, s1.lists[e.list])
            && var u := Wait(s1, e.list, t, e.order);
               t in u.threads && Enters(s, e.list, e.order, timed, if timed then Arm(u, t, true) else u)
  {
    hide Core, Wait, Without;
    CurrentOut(s);
    NoteKeeps(s, Ok);
    var t, s1 := s.current, SetCode(s, s.current, Ok);
    WaitOk(s1, e.list, e.order);
    WaitKeeps(s1, e.list, t, e.order);
    WaitPlaces(s1, e.list, t, e.order);
  }

  lemma Cleared(a: bv32, b: bv32, ba: bv32, x: bv32, y: bv32)
    requires ba == And(b, a) && x == AndNot(a, b) && y == AndNot(a, ba)
    ensures x == y
  {
  }

  /** Bits taken with RT_EVENT_FLAG_CLEAR satisfy no waiter by going away. */
  lemma GotKeeps(s: Sys, e: Flags, w: Want, got: bv32)
    requires EventInv(s, e) && s.current !in e.inside
    ensures EventInv(s, e.(wants := e.wants[s.current := w.(bits := got)],
                           bits := if w.clear then AndNot(e.bits, w.bits) else e.bits))
  {
    hide Inv, Met, Within;
    ClearShrinks(e.bits, w.bits);
    forall t | t in s.lists[e.list] ensures !Met(e.wants[t], AndNot(e.bits, w.bits)) {
      if Met(e.wants[t], AndNot(e.bits, w.bits)) { MetGrows(e.wants[t], AndNot(e.bits, w.bits), e.bits); }
    }
  }

  lemma BlockKeeps(s: Sys, e: Flags, w: Want, timed: bool)
    requires EventInv(s, e) && s.threads[s.current].stat == Running && s.current !in e.inside
    requires w.asked == w.bits != 0 && (w.both || w.any) && !Met(w, e.bits) && s.threads[s.current].code == Ok
    ensures s.current in s.threads && s.threads[s.current].prio < |s.ready| && Known(s.threads, s.lists[e.list])
    ensures var u := Wait(s, e.list, s.current, e.order);
            var v := if timed then Arm(u, s.current, true) else u;
            && EventInv(v, e.(wants := e.wants[s.current := w], inside := e.inside + {s.current}))
            && v.current == s.current && SamePrio(s, v)
            && s.current in v.lists[e.list] && v.threads[s.current].armed == timed
  {
    hide Core, Wait, Met, Within;
    WaitOk(s, e.list, e.order);
    WaitKeeps(s, e.list, s.current, e.order);
    var u := Wait(s, e.list, s.current, e.order);
    TouchCore(u, s.current, u.threads[s.current].(armed := true), {});
  }

  lemma GotAnswers(w: Want, bits: bv32)
    requires Met(w, bits) && w.bits != 0
    ensures var got := And(bits, w.bits);
            got != 0 && Within(got, w.bits) && Within(got, bits) && (w.both ==> got == w.bits)
  {
    hide And;
    Swap(bits, w.bits);
    MeetWithin(w.bits, bits, And(w.bits, bits), And(And(w.bits, bits), w.bits));
    MeetWithin(bits, w.bits, And(bits, w.bits), And(And(bits, w.bits), bits));
  }

  lemma Swap(a: bv32, b: bv32)
    ensures And(a, b) == And(b, a)
  {
  }

  lemma TimeoutKeeps(s: Sys, e: Flags, t: int)
    requires EventInv(s, e) && t in s.threads && s.threads[t].armed
    ensures s.threads[t].prio < |s.ready| && EventInv(Expire(s, t), e)
  {
    hide Core, Expire, Met, Within;
    PrioInRange(s, t);
    ExpireKeeps(s, t);
    ListUnique(s, e.list);
    WithoutIn(s.lists[e.list], t);
  }

  lemma ListUnique(s: Sys, l: int)
    requires Inv(s) && l in s.lists
    ensures Distinct(s.lists[l])
  {
    assert ListOk(s.threads, s.lists[l], {});
  }

  /** What a receive returns after its wait answers what it asked for. */
  lemma GoOnKeeps(s: Sys, e: Flags)
    requires EventInv(s, e) && s.threads[s.current].stat == Running && s.current in e.inside
    ensures s.current in s.threads && s.current in e.wants && EventInv(s, GoOn(s, e).0)
    ensures var r, w := GoOn(s, e).1, e.wants[s.current];
            && (r == Error <==> s.threads[s.current].code != Ok) && (r != Error ==> r == Got(w.bits))
            && GoOn(s, e).0 == e.(inside := e.inside - {s.current})
            && (r.Got? ==> r.bits != 0 && Within(r.bits, w.asked) && (w.both ==> r.bits == w.asked))
  {
    hide Core, Met, Within;
    CurrentOut(s);
  }

  /** A reset clears every bit and wakes every waiter with an error; no other thread and no other list changes. */
  lemma ResetKeeps(s: Sys, e: Flags)
    requires EventInv(s, e)
    ensures var (u, f) := Reset(s, e);
            && EventInv(u, f) && f == e.(bits := 0) && u.lists == s.lists[e.list := []] && u.current == s.current
            && Woken(s, u, s.lists[e.list])
  {
    hide EventInv, Inv, ResumeAll;
    ResetInv(s, e);
    ResumeAllKeeps(s, e.list);
  }

  lemma ResetInv(s: Sys, e: Flags)
    requires EventInv(s, e)
    ensures Inv(s) && e.list in s.lists && EventInv(Reset(s, e).0, Reset(s, e).1)
  {
    hide Core, Met, Within, ResumeAll;
    ResumeAllKeeps(s, e.list);
  }

  // ---- runs

  ghost predicate Elsewhere(s: Sys, e: Flags, u: Sys) {
    && Inv(u) && u.threads.Keys == s.threads.Keys
    && e.list in s.lists && e.list in u.lists && u.lists[e.list] == s.lists[e.list]
    && forall t | t in e.inside && t in s.threads && t in u.threads ::
         u.threads[t].code == s.threads[t].code && u.threads[t].armed == s.threads[t].armed
  }

  lemma ElsewhereKeeps(s: Sys, e: Flags, u: Sys)
    requires EventInv(s, e) && Elsewhere(s, e, u)
    ensures EventInv(u, e)
  {
    hide Inv, Met, Within;
  }

  lemma ScheduleElsewhere(s: Sys, e: Flags)
    requires Inv(s) && e.list in s.lists
    ensures Elsewhere(s, e, Schedule(s))
  {
    hide Core, Schedule;
    ScheduleKeeps(s);
  }

  datatype Step = Sends(bits: bv32) | Receives(want: Want, timeout: int) | GoesOn | TimesOut(thread: int) | Resets
                | Others(after: Sys)

  ghost predicate Can(s: Sys, e: Flags, step: Step) {
    && s.current in s.threads
    && match step
       case Receives(w, _) =>
         s.threads[s.current].stat == Running && s.current !in e.inside && w.asked == w.bits && (w.both || w.any)
       case GoesOn => s.threads[s.current].stat == Running && s.current in e.inside
       case TimesOut(t) => t in s.threads && s.threads[t].armed
       case Others(u) => Elsewhere(s, e, u)
       case _ => true
  }

  ghost function Next(s: Sys, e: Flags, step: Step): (r: (Sys, Flags))
    requires EventInv(s, e) && Can(s, e, step)
    ensures EventInv(r.0, r.1)
  {
    match step
    case Sends(bits) => SendKeeps(s, e, bits); var (u, f, _) := Send(s, e, bits); (u, f)
    case Receives(w, timeout) => ReceiveKeeps(s, e, w, timeout); var (u, f, _) := Receive(s, e, w, timeout); (u, f)
    case GoesOn => GoOnKeeps(s, e); (s, GoOn(s, e).0)
    case TimesOut(t) => TimeoutKeeps(s, e, t); (Expire(s, t), e)
    case Resets => ResetKeeps(s, e); Reset(s, e)
    case Others(u) => ElsewhereKeeps(s, e, u); (u, e)
  }

  /** Steps that cannot be taken where they stand are skipped. */
  ghost function Run(s: Sys, e: Flags, steps: seq<Step>): (r: (Sys, Flags))
    requires EventInv(s, e)
    ensures EventInv(r.0, r.1)
    decreases |steps|
  {
    if steps == [] then (s, e)
    else if Can(s, e, steps[0]) then
      var (u, f) := Next(s, e, steps[0]);
      Run(u, f, steps[1..])
    else Run(s, e, steps[1..])
  }

  /** Over every interleaving of sends, receives, timeouts and resets, no suspended thread's condition is met. */
  lemma NobodyWaitsSatisfied(s: Sys, e: Flags, steps: seq<Step>)
    requires EventInv(s, e)
    ensures var (u, f) := Run(s, e, steps);
            f.list in u.lists && forall t | t in u.lists[f.list] :: t in f.wants && !Met(f.wants[t], f.bits)
  {
  }
}
