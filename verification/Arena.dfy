/** Many lists in one memory: the primitives of rtservice.h, which are not told which list they change. */
module Arena {
  import opened Lists
  import opened Rings

  /** x is the head of list h or one of its nodes. */
  predicate On(lists: map<int, seq<int>>, h: int, x: int) { h in lists && x in [h] + lists[h] }

  /** Each list is a ring through its head, and no two share a node. A node in no list is an empty list. */
  ghost predicate Many(lists: map<int, seq<int>>, next: map<int, int>, prev: map<int, int>) {
    && (forall h | h in lists :: Ring([h] + lists[h], next, prev))
    && forall g, h, x | On(lists, g, x) && On(lists, h, x) :: g == h
  }

  /** Links changed for the nodes of rings g and h only: every other list is as it was. */
  lemma OthersKept(lists: map<int, seq<int>>, g: int, h: int, next: map<int, int>, prev: map<int, int>,
                   next': map<int, int>, prev': map<int, int>, f: int)
    requires Many(lists, next, prev) && f in lists && f != g && f != h
    requires forall x | x in next && !On(lists, g, x) && !On(lists, h, x) :: x in next' && next'[x] == next[x]
    requires forall x | x in prev && !On(lists, g, x) && !On(lists, h, x) :: x in prev' && prev'[x] == prev[x]
    ensures Ring([f] + lists[f], next', prev')
  {
    forall x | x in [f] + lists[f]
      ensures x in next' && next'[x] == next[x] && x in prev' && prev'[x] == prev[x]
    {
      assert On(lists, f, x);
      assert x in next && x in prev && !On(lists, g, x) && !On(lists, h, x);
    }
    RingFrame([f] + lists[f], next, prev, next', prev');
  }

  lemma Outsider(lists: map<int, seq<int>>, h: int, n: int, next: map<int, int>, prev: map<int, int>)
    requires Many(lists, next, prev) && h in lists && n in lists && n != h
    ensures n !in [h] + lists[h]
  {
    assert On(lists, n, n);
    assert n in [h] + lists[h] ==> On(lists, h, n);
  }

  /** Node n, in no list, joins the list of h at position k. */
  lemma JoinMany(lists: map<int, seq<int>>, h: int, k: nat, n: int, next: map<int, int>, prev: map<int, int>)
    requires Many(lists, next, prev) && h in lists && k <= |lists[h]| && n in lists && lists[n] == [] && n != h
    ensures ([h] + lists[h])[k] in next
    ensures var (next', prev') := InsertAfter(next, prev, ([h] + lists[h])[k], n);
            Many((lists - {n})[h := InsertAt(lists[h], k, n)], next', prev')
  {
    var s := [h] + lists[h];
    Outsider(lists, h, n, next, prev);
    var (next', prev') := InsertAfter(next, prev, s[k], n);
    var lists' := (lists - {n})[h := InsertAt(lists[h], k, n)];
    InsertAfterRing(s, k, next, prev, n);
    assert InsertAt(s, k + 1, n) == [h] + lists'[h];
    assert Linked(s, k, next, prev);
    assert next[s[k]] in s && On(lists, h, next[s[k]]) && On(lists, h, s[k]);
    forall f | f in lists' ensures Ring([f] + lists'[f], next', prev') {
      if f != h { OthersKept(lists, h, n, next, prev, next', prev', f); }
    }
    InsertIn(lists[h], k, n);
    forall f, x ensures On(lists', f, x) <==> (On(lists, f, x) && f != n) || (f == h && x == n) {}
    forall f, g, x | On(lists', f, x) && On(lists', g, x) ensures f == g {
      assert On(lists, n, n);
      assert On(lists, f, x) && On(lists, g, x) ==> f == g;
    }
  }

  /** Node k of the list of h leaves it and becomes an empty list; an address is in one list at most. */
  lemma LeaveMany(lists: map<int, seq<int>>, h: int, k: nat, next: map<int, int>, prev: map<int, int>)
    requires Many(lists, next, prev) && h in lists && k < |lists[h]|
    ensures var n := lists[h][k];
            && n in next && n in prev && n !in lists
            && var (next', prev') := Remove(next, prev, n);
               Many(lists[h := DeleteAt(lists[h], k)][n := []], next', prev')
  {
    var s, n := [h] + lists[h], lists[h][k];
    assert s[k + 1] == n && On(lists, h, n);
    assert s[0] == h && n != h;
    assert n in lists ==> On(lists, n, n);
    var (next', prev') := Remove(next, prev, n);
    RemoveRing(s, k + 1, next, prev);
    assert DeleteAt(s, k + 1) == [h] + DeleteAt(lists[h], k);
    assert Linked(s, k + 1, next, prev);
    assert On(lists, h, next[n]) && On(lists, h, prev[n]);
    var lists' := lists[h := DeleteAt(lists[h], k)][n := []];
    forall f | f in lists' ensures Ring([f] + lists'[f], next', prev') {
      if f != h && f != n { OthersKept(lists, h, h, next, prev, next', prev', f); }
    }
    forall f, g, x | On(lists', f, x) && On(lists', g, x) ensures f == g {
      LeaveOn(lists, h, k, f, x);
      LeaveOn(lists, h, k, g, x);
      assert On(lists, f, x) && On(lists, g, x) ==> f == g;
    }
  }

  lemma LeaveOn(lists: map<int, seq<int>>, h: int, k: nat, f: int, x: int)
    requires h in lists && k < |lists[h]| && Distinct([h] + lists[h]) && lists[h][k] !in lists
    requires forall g, y | On(lists, g, y) && On(lists, h, y) :: g == h
    ensures var n := lists[h][k];
            On(lists[h := DeleteAt(lists[h], k)][n := []], f, x) <==> (On(lists, f, x) && x != n) || (f == n && x == n)
  {
    var s, n := [h] + lists[h], lists[h][k];
    TailIn(s);
    assert s[1..] == lists[h];
    DeleteIn(lists[h], k);
    assert On(lists, h, n);
    assert x == n && On(lists, f, x) ==> f == h;
  }

  class Links {
    var next: map<int, int>
    var prev: map<int, int>
    ghost var lists: map<int, seq<int>>

    ghost predicate Valid()
      reads this
    {
      Many(lists, next, prev)
    }

    constructor ()
      ensures Valid() && lists == map[]
    {
      next, prev, lists := map[], map[], map[];
    }

    /** `rt_list_init` of memory that belongs to no list. */
    method Init(l: int)
      requires Valid() && forall h :: !On(lists, h, l)
      modifies this
      ensures Valid() && lists == old(lists)[l := []]
    {
      ghost var n, p, ls := next, prev, lists;
      next, prev := next[l := l], prev[l := l];
      lists := lists[l := []];
      forall h | h in ls ensures Ring([h] + ls[h], next, prev) {
        assert forall x | x in [h] + ls[h] :: On(ls, h, x);
        RingFrame([h] + ls[h], n, p, next, prev);
      }
      assert l !in ls by { assert l in ls ==> On(ls, l, l); }
      forall h, x ensures On(lists, h, x) <==> On(ls, h, x) || (h == l && x == l) {}
    }

    /** `rt_list_insert_after`: behind node k of the ring of h, that is, to position k of the list. */
    method AddAfter(l: int, n: int, ghost h: int, ghost k: nat)
      requires Valid() && h in lists && k <= |lists[h]| && ([h] + lists[h])[k] == l
      requires n in lists && lists[n] == [] && n != h
      modifies this
      ensures Valid() && lists == (old(lists) - {n})[h := InsertAt(old(lists)[h], k, n)]
    {
      JoinMany(lists, h, k, n, next, prev);
      assert Ring([h] + lists[h], next, prev) && Ring([n] + lists[n], next, prev);
      prev := prev[next[l] := n];
      next := next[n := next[l]];
      next := next[l := n];
      prev := prev[n := l];
      lists := (lists - {n})[h := InsertAt(lists[h], k, n)];
    }

    /** `rt_list_insert_before` the head: to the end of the list. */
    method Append(h: int, n: int)
      requires Valid() && h in lists && n in lists && lists[n] == [] && n != h
      modifies this
      ensures Valid() && lists == (old(lists) - {n})[h := old(lists)[h] + [n]]
    {
      ghost var s := [h] + lists[h];
      Outsider(lists, h, n, next, prev);
      BeforeIsAfter(s, 0, next, prev, n);
      JoinMany(lists, h, |lists[h]|, n, next, prev);
      assert InsertAt(lists[h], |lists[h]|, n) == lists[h] + [n];
      AddBefore(h, n);
      lists := (lists - {n})[h := lists[h] + [n]];
    }

    /** `rt_list_insert_before` node k of the list of h: it takes the node's place. */
    method Insert(l: int, n: int, ghost h: int, ghost k: nat)
      requires Valid() && h in lists && k < |lists[h]| && lists[h][k] == l
      requires n in lists && lists[n] == [] && n != h
      modifies this
      ensures Valid() && lists == (old(lists) - {n})[h := InsertAt(old(lists)[h], k, n)]
    {
      ghost var s := [h] + lists[h];
      Outsider(lists, h, n, next, prev);
      BeforeIsAfter(s, k + 1, next, prev, n);
      JoinMany(lists, h, k, n, next, prev);
      AddBefore(l, n);
      lists := (lists - {n})[h := InsertAt(lists[h], k, n)];
    }

    method AddBefore(l: int, n: int)
      requires l in prev
      modifies this`next, this`prev
      ensures (next, prev) == InsertBefore(old(next), old(prev), l, n)
    {
      next := next[prev[l] := n];
      prev := prev[n := prev[l]];
      prev := prev[l := n];
      next := next[n := l];
    }

    /** `rt_list_remove`. */
    method Remove(n: int, ghost h: int, ghost k: nat)
      requires Valid() && h in lists && k < |lists[h]| && lists[h][k] == n
      modifies this
      ensures Valid() && lists == old(lists)[h := DeleteAt(old(lists)[h], k)][n := []]
    {
      LeaveMany(lists, h, k, next, prev);
      ghost var s := [h] + lists[h];
      assert s[k + 1] == n && Linked(s, k + 1, next, prev);
      prev := prev[next[n] := prev[n]];
      next := next[prev[n] := next[n]];
      next, prev := next[n := n], prev[n := n];
      lists := lists[h := DeleteAt(lists[h], k)][n := []];
    }

    /** `rt_list_isempty`. */
    method IsEmpty(h: int) returns (empty: bool)
      requires Valid() && h in lists
      ensures empty == (lists[h] == [])
    {
      ghost var s := [h] + lists[h];
      assert Linked(s, 0, next, prev);
      empty := next[h] == h;
    }

    /** `rt_list_len`. */
    method Len(h: int) returns (len: nat)
      requires Valid() && h in lists
      ensures len == |lists[h]|
    {
      ghost var s := [h] + lists[h];
      len := 0;
      var p := h;
      assert Linked(s, 0, next, prev);
      while next[p] != h
        invariant len < |s| && p == s[len] && p in next && Linked(s, len, next, prev)
        decreases |s| - len
      {
        p := next[p];
        len := len + 1;
        assert Linked(s, len, next, prev);
      }
    }
  }

  /** Insertion before a node is insertion behind the one before it. */
  lemma BeforeIsAfter(s: seq<int>, k: nat, next: map<int, int>, prev: map<int, int>, n: int)
    requires Ring(s, next, prev) && k < |s| && n !in s
    ensures var j := if k > 0 then k - 1 else |s| - 1;
            s[k] in prev && s[j] in next && InsertBefore(next, prev, s[k], n) == InsertAfter(next, prev, s[j], n)
  {
    assert Linked(s, k, next, prev);
    var j := if k > 0 then k - 1 else |s| - 1;
    assert Linked(s, j, next, prev);
    assert prev[s[k]] == s[j] && next[s[j]] == s[k];
    assert InsertBefore(next, prev, s[k], n).0 == InsertAfter(next, prev, s[j], n).0;
    assert InsertBefore(next, prev, s[k], n).1 == InsertAfter(next, prev, s[j], n).1;
  }
}
