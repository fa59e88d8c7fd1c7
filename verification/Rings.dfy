/** The circular doubly linked lists of the kernel, as two link maps (rtservice.h). */
module Rings {

  import opened Lists

  function After<N>(s: seq<N>, i: nat): (n: N)
    requires i < |s|
    ensures n in s
  {
    if i + 1 < |s| then s[i + 1] else s[0]
  }

  function Before<N>(s: seq<N>, i: nat): (n: N)
    requires i < |s|
    ensures n in s
  {
    if i > 0 then s[i - 1] else s[|s| - 1]
  }

  ghost predicate Linked<N>(s: seq<N>, i: nat, next: map<N, N>, prev: map<N, N>)
    requires i < |s|
  {
    && s[i] in next && next[s[i]] == After(s, i)
    && s[i] in prev && prev[s[i]] == Before(s, i)
  }

  /** `next` walks `s` forward and wraps at its end; `prev` walks it backward. */
  ghost predicate Ring<N>(s: seq<N>, next: map<N, N>, prev: map<N, N>) {
    && |s| > 0
    && Distinct(s)
    && (forall x | x in s :: x in next && x in prev)
    && forall i | 0 <= i < |s| :: Linked(s, i, next, prev)
  }

  /** The four stores of `rt_list_insert_after(l, n)`, in order. */
  function InsertAfter<N>(next: map<N, N>, prev: map<N, N>, l: N, n: N): (r: (map<N, N>, map<N, N>))
    requires l in next
  {
    var prev1 := prev[next[l] := n];
    var next1 := next[n := next[l]];
    (next1[l := n], prev1[n := l])
  }

  /** The four stores of `rt_list_insert_before(l, n)`, in order. */
  function InsertBefore<N>(next: map<N, N>, prev: map<N, N>, l: N, n: N): (r: (map<N, N>, map<N, N>))
    requires l in prev
  {
    var next1 := next[prev[l] := n];
    var prev1 := prev[n := prev[l]];
    (next1[n := l], prev1[l := n])
  }

  /** The two stores that link the neighbours of `n` to each other. */
  function Unlink<N>(next: map<N, N>, prev: map<N, N>, n: N): (r: (map<N, N>, map<N, N>))
    requires n in next && n in prev
  {
    (next[prev[n] := next[n]], prev[next[n] := prev[n]])
  }

  /** `rt_list_remove(n)`: unlink, then link the node to itself. */
  function Remove<N>(next: map<N, N>, prev: map<N, N>, n: N): (r: (map<N, N>, map<N, N>))
    requires n in next && n in prev
  {
    var (next1, prev1) := Unlink(next, prev, n);
    (next1[n := n], prev1[n := n])
  }

  /** Insertion after the k-th node of a ring puts the node at position k + 1. */
  lemma InsertAfterRing<N>(s: seq<N>, k: nat, next: map<N, N>, prev: map<N, N>, n: N)
    requires Ring(s, next, prev) && k < |s| && n !in s
    ensures var (next', prev') := InsertAfter(next, prev, s[k], n);
            Ring(InsertAt(s, k + 1, n), next', prev')
  {
    var (next', prev') := InsertAfter(next, prev, s[k], n);
    var r := InsertAt(s, k + 1, n);
    InsertAtIndex(s, k + 1, n);
    assert Linked(s, k, next, prev);
    forall i | 0 <= i < |r|
      ensures Linked(r, i, next', prev')
    {
      if i <= k {
        assert Linked(s, i, next, prev);
      } else if i > k + 1 {
        assert Linked(s, i - 1, next, prev);
      }
    }
  }

  /** Insertion before the k-th node; before the list head it is insertion at the tail. */
  lemma InsertBeforeRing<N>(s: seq<N>, k: nat, next: map<N, N>, prev: map<N, N>, n: N)
    requires Ring(s, next, prev) && k < |s| && n !in s
    ensures var (next', prev') := InsertBefore(next, prev, s[k], n);
            Ring(if k > 0 then InsertAt(s, k, n) else s + [n], next', prev')
  {
    assert Linked(s, k, next, prev);
    var j := if k > 0 then k - 1 else |s| - 1;
    assert Linked(s, j, next, prev);
    InsertAfterRing(s, j, next, prev, n);
    assert prev[s[k]] == s[j] && next[s[j]] == s[k];
    assert InsertBefore(next, prev, s[k], n).0 == InsertAfter(next, prev, s[j], n).0;
    assert InsertBefore(next, prev, s[k], n).1 == InsertAfter(next, prev, s[j], n).1;
    assert k == 0 ==> InsertAt(s, |s|, n) == s + [n];
  }

  lemma UnlinkRing<N>(s: seq<N>, k: nat, next: map<N, N>, prev: map<N, N>)
    requires Ring(s, next, prev) && k < |s| && |s| > 1
    ensures var (next', prev') := Unlink(next, prev, s[k]); Ring(DeleteAt(s, k), next', prev')
  {
    assert Linked(s, k, next, prev);
    var (next', prev') := Unlink(next, prev, s[k]);
    var r := DeleteAt(s, k);
    forall i | 0 <= i < |r|
      ensures Linked(r, i, next', prev')
    {
      assert Linked(s, if i < k then i else i + 1, next, prev);
    }
  }

  /** A node removed from a ring leaves the rest linked in order and is linked to itself. */
  lemma RemoveRing<N>(s: seq<N>, k: nat, next: map<N, N>, prev: map<N, N>)
    requires Ring(s, next, prev) && k < |s|
    ensures var (next', prev') := Remove(next, prev, s[k]);
            && (|s| > 1 ==> Ring(DeleteAt(s, k), next', prev'))
            && Ring([s[k]], next', prev')
  {
    var (next', prev') := Remove(next, prev, s[k]);
    if |s| > 1 {
      UnlinkRing(s, k, next, prev);
      var (next1, prev1) := Unlink(next, prev, s[k]);
      RingFrame(DeleteAt(s, k), next1, prev1, next', prev');
    }
  }

  /** A ring that shares no node with the changed part of the maps is untouched. */
  lemma RingFrame<N>(s: seq<N>, next: map<N, N>, prev: map<N, N>, next': map<N, N>, prev': map<N, N>)
    requires Ring(s, next, prev)
    requires forall x | x in s :: x in next' && next'[x] == next[x]
    requires forall x | x in s :: x in prev' && prev'[x] == prev[x]
    ensures Ring(s, next', prev')
  {
    forall i | 0 <= i < |s|
      ensures Linked(s, i, next', prev')
    {
      assert Linked(s, i, next, prev);
    }
  }
}
