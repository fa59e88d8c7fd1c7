/** The other list operations of core_list_join.c: removal that leaves the cell in place, its undoing, and reversal. */
module CoreLists {
  import opened Lists
  import opened Chains

  type Links = map<int, int>

  function Datum(info: Links, n: int): (d: int) { if n in info then info[n] else 0 }

  /** The data along the cells. */
  function Infos(nodes: seq<int>, info: Links): (r: seq<int>)
    ensures |r| == |nodes| && forall i | 0 <= i < |nodes| :: r[i] == Datum(info, nodes[i])
  {
    seq(|nodes|, i requires 0 <= i < |nodes| => Datum(info, nodes[i]))
  }

  /** `core_list_remove`: the cell takes over the data of the next one, which leaves the list. */
  function Removed(next: Links, info: Links, item: int): (r: (Links, Links))
    requires item in next && next[item] in next && item in info && next[item] in info
  {
    var ret := next[item];
    (next[item := next[ret]][ret := NULL], info[item := info[ret]][ret := info[item]])
  }

  /** `core_list_undo_remove`. */
  function Restored(next: Links, info: Links, removed: int, modified: int): (r: (Links, Links))
    requires modified in next && modified in info && removed in info
  {
    (next[removed := next[modified]][modified := removed], info[removed := info[modified]][modified := info[removed]])
  }

  ghost predicate Known(nodes: seq<int>, info: Links) { forall n | n in nodes :: n in info }

  lemma CellsDiffer(nodes: seq<int>, i: nat, j: nat)
    requires Distinct(nodes) && i < |nodes| && j < |nodes|
    ensures nodes[i] == nodes[j] <==> i == j
  {
  }

  /** One datum disappears from the list; the cell given back holds it. */
  lemma RemoveShortens(next: Links, info: Links, first: int, nodes: seq<int>, k: nat)
    requires Linked(next, first, nodes) && Distinct(nodes) && Known(nodes, info) && k + 1 < |nodes|
    ensures var item := nodes[k];
            && item in next && next[item] == nodes[k + 1] && nodes[k + 1] in next
            && item in info && nodes[k + 1] in info
            && var (next1, info1) := Removed(next, info, item);
               && Linked(next1, first, DeleteAt(nodes, k + 1))
               && Infos(DeleteAt(nodes, k + 1), info1) == DeleteAt(Infos(nodes, info), k)
               && next1[nodes[k + 1]] == NULL && info1[nodes[k + 1]] == info[item]
  {
    hide Infos;
    var item, ret, r := nodes[k], nodes[k + 1], DeleteAt(nodes, k + 1);
    assert item in nodes && ret in nodes;
    RemoveLinks(next, info, first, nodes, k);
    RemoveInfos(next, info, nodes, k);
  }

  lemma RemoveLinks(next: Links, info: Links, first: int, nodes: seq<int>, k: nat)
    requires Linked(next, first, nodes) && Distinct(nodes) && k + 1 < |nodes| && nodes[k] in info
             && nodes[k + 1] in info
    ensures Linked(Removed(next, info, nodes[k]).0, first, DeleteAt(nodes, k + 1))
  {
    var r := DeleteAt(nodes, k + 1);
    var next1 := Removed(next, info, nodes[k]).0;
    DeleteAtIndex(nodes, k + 1);
    forall i | 0 <= i < |r| ensures r[i] in next1 && next1[r[i]] == At(r, i + 1) {
      var j := if i <= k then i else i + 1;
      CellsDiffer(nodes, j, k);
      CellsDiffer(nodes, j, k + 1);
    }
  }

  lemma RemoveInfos(next: Links, info: Links, nodes: seq<int>, k: nat)
    requires Distinct(nodes) && k + 1 < |nodes| && nodes[k] in info && nodes[k + 1] in info
    requires nodes[k] in next && next[nodes[k]] == nodes[k + 1] && nodes[k + 1] in next
    ensures Infos(DeleteAt(nodes, k + 1), Removed(next, info, nodes[k]).1) == DeleteAt(Infos(nodes, info), k)
  {
    hide Infos;
    var r, d := DeleteAt(nodes, k + 1), DeleteAt(Infos(nodes, info), k);
    var info1 := Removed(next, info, nodes[k]).1;
    DeleteAtIndex(nodes, k + 1);
    DeleteAtIndex(Infos(nodes, info), k);
    forall i | 0 <= i < |r| ensures Infos(r, info1)[i] == d[i] {
      var j := if i <= k then i else i + 1;
      CellsDiffer(nodes, j, k);
      CellsDiffer(nodes, j, k + 1);
    }
  }

  /** Putting the datum back where it was taken out. */
  lemma RestoreLengthens(next: Links, info: Links, first: int, nodes: seq<int>, k: nat, removed: int)
    requires Linked(next, first, nodes) && Distinct(nodes) && k < |nodes| && removed !in nodes && removed in info
    requires Known(nodes, info)
    ensures nodes[k] in next && nodes[k] in info
    ensures var (next1, info1) := Restored(next, info, removed, nodes[k]);
            && Linked(next1, first, InsertAt(nodes, k + 1, removed))
            && Infos(InsertAt(nodes, k + 1, removed), info1) == InsertAt(Infos(nodes, info), k, info[removed])
  {
    hide Infos;
    var modified := nodes[k];
    assert modified in nodes;
    RestoreLinks(next, info, first, nodes, k, removed);
    RestoreInfos(next, info, nodes, k, removed);
  }

  lemma RestoreLinks(next: Links, info: Links, first: int, nodes: seq<int>, k: nat, removed: int)
    requires Linked(next, first, nodes) && Distinct(nodes) && k < |nodes| && removed !in nodes
    requires nodes[k] in info && removed in info
    ensures Linked(Restored(next, info, removed, nodes[k]).0, first, InsertAt(nodes, k + 1, removed))
  {
    var r := InsertAt(nodes, k + 1, removed);
    var next1 := Restored(next, info, removed, nodes[k]).0;
    InsertAtIndex(nodes, k + 1, removed);
    forall i | 0 <= i < |r| ensures r[i] in next1 && next1[r[i]] == At(r, i + 1) {
      if i != k + 1 {
        var j := if i <= k then i else i - 1;
        CellsDiffer(nodes, j, k);
        assert nodes[j] in nodes;
      }
    }
  }

  lemma RestoreInfos(next: Links, info: Links, nodes: seq<int>, k: nat, removed: int)
    requires Distinct(nodes) && k < |nodes| && removed !in nodes && nodes[k] in info && removed in info
             && nodes[k] in next
    ensures Infos(InsertAt(nodes, k + 1, removed), Restored(next, info, removed, nodes[k]).1)
         == InsertAt(Infos(nodes, info), k, info[removed])
  {
    hide Infos;
    var r, d := InsertAt(nodes, k + 1, removed), InsertAt(Infos(nodes, info), k, info[removed]);
    var info1 := Restored(next, info, removed, nodes[k]).1;
    InsertAtIndex(nodes, k + 1, removed);
    InsertAtIndex(Infos(nodes, info), k, info[removed]);
    forall i | 0 <= i < |r| ensures Infos(r, info1)[i] == d[i] {
      if i != k + 1 {
        var j := if i <= k then i else i - 1;
        CellsDiffer(nodes, j, k);
        assert nodes[j] in nodes;
      }
    }
  }

  /** Undoing a removal at once gives back the same links and the same data. */
  lemma UndoRestores(next: Links, info: Links, item: int)
    requires item in next && next[item] in next && item in info && next[item] in info && next[item] != item
    ensures var (next1, info1) := Removed(next, info, item);
            Restored(next1, info1, next[item], item) == (next, info)
  {
    var ret := next[item];
    var (next1, info1) := Removed(next, info, item);
    var (next2, info2) := Restored(next1, info1, ret, item);
    assert next2 == next && info2 == info;
  }

  function Before(nodes: seq<int>, i: nat): (n: int)
    requires i <= |nodes|
  {
    if i == 0 then NULL else nodes[i - 1]
  }

  /** The first k cells of the list link each to the one that was before it; no other cell has changed. */
  ghost predicate Turned(before: Links, after: Links, nodes: seq<int>, k: nat)
    requires k <= |nodes|
  {
    && after.Keys == before.Keys
    && (forall n | n in before && n !in nodes[..k] :: n in after && after[n] == before[n])
    && forall i | 0 <= i < k :: nodes[i] in after && after[nodes[i]] == Before(nodes, i)
  }

  lemma TurnOne(before: Links, after: Links, nodes: seq<int>, k: nat)
    requires Distinct(nodes) && k < |nodes| && Turned(before, after, nodes, k) && nodes[k] in before
    ensures Turned(before, after[nodes[k] := Before(nodes, k)], nodes, k + 1)
  {
    hide Before;
    var c, u := nodes[k], after[nodes[k] := Before(nodes, k)];
    assert nodes[..k + 1] == nodes[..k] + [c];
    assert c in after && u.Keys == after.Keys;
    forall n | n in before && n !in nodes[..k + 1] ensures n in u && u[n] == before[n] {
      assert n !in nodes[..k] && n != c;
    }
    forall i | 0 <= i < k + 1 ensures nodes[i] in u && u[nodes[i]] == Before(nodes, i) {
      CellsDiffer(nodes, i, k);
    }
  }

  /** The cells from the last to the first. */
  function Backwards(nodes: seq<int>): (r: seq<int>)
    ensures |r| == |nodes| && forall i | 0 <= i < |nodes| :: r[i] == nodes[|nodes| - 1 - i]
  {
    seq(|nodes|, i requires 0 <= i < |nodes| => nodes[|nodes| - 1 - i])
  }

  /** Once all cells are turned they are a list, read from the last of them. */
  lemma TurnedLinked(before: Links, after: Links, nodes: seq<int>)
    requires Turned(before, after, nodes, |nodes|)
    ensures Linked(after, Before(nodes, |nodes|), Backwards(nodes))
  {
    hide Backwards;
    var r := Backwards(nodes);
    forall i | 0 <= i < |r| ensures r[i] in after && after[r[i]] == At(r, i + 1) {
      assert r[i] == nodes[|nodes| - 1 - i];
    }
  }

  /** Turning the list round twice gives back every link. */
  lemma TurnedTwice(a: Links, b: Links, c: Links, first: int, nodes: seq<int>)
    requires Linked(a, first, nodes) && Turned(a, b, nodes, |nodes|) && Turned(b, c, Backwards(nodes), |nodes|)
    ensures c == a
  {
    hide Backwards;
    var r := Backwards(nodes);
    assert nodes[..|nodes|] == nodes && r[..|r|] == r;
    forall n | n in a ensures n in c && c[n] == a[n] {
      if i :| 0 <= i < |nodes| && nodes[i] == n {
        var j := |nodes| - 1 - i;
        assert r[j] == n && c[r[j]] == Before(r, j);
      } else {
        assert n !in nodes && n !in r;
      }
    }
    assert c.Keys == a.Keys;
  }

  class ListCells {
    var next: Links
    var info: Links

    method Remove(item: int, ghost first: int, ghost nodes: seq<int>, ghost k: nat) returns (ret: int)
      requires Linked(next, first, nodes) && Distinct(nodes) && Known(nodes, info)
      requires k + 1 < |nodes| && item == nodes[k]
      modifies this
      ensures Linked(next, first, DeleteAt(nodes, k + 1)) && ret == nodes[k + 1]
      ensures item in old(next) && old(next)[item] in old(next) && item in old(info) && old(next)[item] in old(info)
      ensures (next, info) == Removed(old(next), old(info), item)
    {
      RemoveShortens(next, info, first, nodes, k);
      ret := next[item];
      var tmp := info[item];
      info := info[item := info[ret]];
      info := info[ret := tmp];
      next := next[item := next[next[item]]];
      next := next[ret := NULL];
    }

    method UndoRemove(removed: int, modified: int, ghost first: int, ghost nodes: seq<int>, ghost k: nat)
      requires Linked(next, first, nodes) && Distinct(nodes) && Known(nodes, info)
      requires k < |nodes| && modified == nodes[k] && removed !in nodes && removed in info
      modifies this
      ensures Linked(next, first, InsertAt(nodes, k + 1, removed))
      ensures modified in old(next) && modified in old(info)
      ensures (next, info) == Restored(old(next), old(info), removed, modified)
    {
      RestoreLengthens(next, info, first, nodes, k, removed);
      var tmp := info[removed];
      info := info[removed := info[modified]];
      info := info[modified := tmp];
      next := next[removed := next[modified]];
      next := next[modified := removed];
    }

    /** `core_list_reverse`: the same cells, linked the other way round. */
    method Reverse(first: int, ghost nodes: seq<int>) returns (list: int)
      requires Linked(next, first, nodes) && Distinct(nodes) && NULL !in nodes
      modifies this`next
      ensures Turned(old(next), next, nodes, |nodes|)
      ensures list == Before(nodes, |nodes|) && Linked(next, list, Backwards(nodes))
    {
      hide Turned;
      var rest := first;
      list := NULL;
      ghost var k := 0;
      NoCellIsNull(nodes);
      assert Turned(old(next), next, nodes, 0) by { TurnedNone(next, nodes); }
      while rest != NULL
        invariant k <= |nodes| && rest == At(nodes, k) && list == Before(nodes, k)
        invariant Turned(old(next), next, nodes, k)
        decreases |nodes| - k
      {
        Ahead(old(next), next, first, nodes, k);
        TurnOne(old(next), next, nodes, k);
        var tmp := next[rest];
        next := next[rest := list];
        list := rest;
        rest := tmp;
        k := k + 1;
      }
      TurnedLinked(old(next), next, nodes);
    }
  }

  lemma TurnedNone(next: Links, nodes: seq<int>)
    ensures Turned(next, next, nodes, 0)
  {
  }

  /** A cell not turned yet still links to the one behind it. */
  lemma Ahead(before: Links, after: Links, first: int, nodes: seq<int>, k: nat)
    requires Linked(before, first, nodes) && Distinct(nodes) && k < |nodes| && Turned(before, after, nodes, k)
    ensures nodes[k] in before && nodes[k] in after && after[nodes[k]] == At(nodes, k + 1)
  {
    assert nodes[k] !in nodes[..k];
  }

  lemma NoCellIsNull(nodes: seq<int>)
    requires NULL !in nodes
    ensures forall i | 0 <= i < |nodes| :: nodes[i] != NULL
  {
    forall i | 0 <= i < |nodes| ensures nodes[i] in nodes {}
  }
}
