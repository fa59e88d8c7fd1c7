/** Singly linked lists that end in a null link. */
module Chains {
  import opened Lists

  const NULL: int := -1

  /** From `first`, the links visit exactly `nodes` and end. */
  ghost predicate Linked(next: map<int, int>, first: int, nodes: seq<int>) {
    && first == At(nodes, 0)
    && forall i | 0 <= i < |nodes| :: nodes[i] in next && next[nodes[i]] == At(nodes, i + 1)
  }

  function At(nodes: seq<int>, i: nat): (n: int) {
    if i < |nodes| then nodes[i] else NULL
  }

  function Last(nodes: seq<int>): (n: int) {
    if nodes == [] then NULL else nodes[|nodes| - 1]
  }

  lemma LinkedFrame(next: map<int, int>, next': map<int, int>, first: int, nodes: seq<int>)
    requires Linked(next, first, nodes)
    requires forall n | n in nodes && n in next :: n in next' && next'[n] == next[n]
    ensures Linked(next', first, nodes)
  {
    forall i | 0 <= i < |nodes| ensures nodes[i] in next' && next'[nodes[i]] == At(nodes, i + 1) {
      var n := nodes[i];
      assert n in nodes;
    }
  }

  lemma LinkedTail(next: map<int, int>, first: int, nodes: seq<int>)
    requires Linked(next, first, nodes) && nodes != []
    ensures first in next && first == nodes[0] && Linked(next, next[first], nodes[1..])
  {
  }

  lemma LinkedPush(next: map<int, int>, first: int, nodes: seq<int>, n: int)
    requires Linked(next, first, nodes) && n !in nodes
    ensures Linked(next[n := first], n, [n] + nodes)
  {
    var r := [n] + nodes;
    forall i | 0 < i < |r| ensures r[i] in next && r[i] != n && next[r[i]] == At(r, i + 1) {
      assert r[i] == nodes[i - 1];
    }
  }

  lemma LinkedAppend(next: map<int, int>, first: int, nodes: seq<int>, n: int)
    requires Linked(next, first, nodes) && n !in nodes && Distinct(nodes)
    ensures var next1 := next[n := NULL];
            var next2 := if nodes != [] then next1[Last(nodes) := n] else next1;
            Linked(next2, if nodes == [] then n else first, nodes + [n])
  {
  }
}
