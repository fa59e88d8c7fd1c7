/** The page allocator of slab.c: an address-ordered list of runs of free pages. */
module PageList {
  import opened Lists

  datatype Run = Run(first: int, pages: nat) {
    function End(): int { first + pages }
  }

  /** Page x is free. */
  ghost predicate Has(rs: seq<Run>, x: int) {
    exists i :: 0 <= i < |rs| && Covers(rs[i], x)
  }

  predicate Covers(r: Run, x: int) { r.first <= x < r.End() }

  /** Ordered, disjoint, and merged wherever two runs would touch. */
  ghost predicate Canonical(rs: seq<Run>) {
    && (forall i | 0 <= i < |rs| :: rs[i].pages > 0)
    && (forall i, j | 0 <= i < j < |rs| :: rs[i].End() < rs[j].first)
  }

  /** The number of free pages. */
  function Count(rs: seq<Run>): (n: nat) { CountTo(rs, |rs|) }

  function CountTo(rs: seq<Run>, k: nat): (n: nat)
    requires k <= |rs|
  {
    if k == 0 then 0 else CountTo(rs, k - 1) + rs[k - 1].pages
  }

  /** The first run of at least n pages. */
  function FirstFit(rs: seq<Run>, n: nat, i: nat): (k: nat)
    requires i <= |rs|
    ensures i <= k <= |rs| && (k < |rs| ==> rs[k].pages >= n)
    ensures forall j | i <= j < k :: rs[j].pages < n
    decreases |rs| - i
  {
    if i < |rs| && rs[i].pages < n then FirstFit(rs, n, i + 1) else i
  }

  /** n pages are cut from the front of run k. */
  function Cut(rs: seq<Run>, k: nat, n: nat): (r: seq<Run>)
    requires k < |rs| && n <= rs[k].pages
  {
    if rs[k].pages > n then rs[k := Run(rs[k].first + n, rs[k].pages - n)] else DeleteAt(rs, k)
  }

  /** Where `rt_page_free` stops: the first run that touches [a, a + n) or lies behind it. */
  function Spot(rs: seq<Run>, a: int, n: nat, i: nat): (k: nat)
    requires i <= |rs|
    ensures i <= k <= |rs|
    ensures forall j | i <= j < k :: rs[j].End() != a && rs[j].first < a + n
    ensures k < |rs| ==> rs[k].End() == a || rs[k].first >= a + n
    decreases |rs| - i
  {
    if i == |rs| || rs[i].End() == a || rs[i].first >= a + n then i else Spot(rs, a, n, i + 1)
  }

  /** d runs from the k-th on make way for run m. */
  function Patch(rs: seq<Run>, k: nat, d: nat, m: Run): (r: seq<Run>)
    requires k + d <= |rs|
  {
    rs[..k] + [m] + rs[k + d..]
  }

  /** The pages [a, a + n) are put back at run k, joined with the runs they touch. */
  function Return(rs: seq<Run>, k: nat, a: int, n: nat): (r: seq<Run>)
    requires k <= |rs|
  {
    if k < |rs| && rs[k].End() == a then
      if k + 1 < |rs| && rs[k + 1].first == a + n then
        Patch(rs, k, 2, Run(rs[k].first, rs[k].pages + n + rs[k + 1].pages))
      else Patch(rs, k, 1, Run(rs[k].first, rs[k].pages + n))
    else if k < |rs| && rs[k].first == a + n then Patch(rs, k, 1, Run(a, rs[k].pages + n))
    else Patch(rs, k, 0, Run(a, n))
  }

  lemma HasAt(rs: seq<Run>, i: nat, x: int)
    requires i < |rs|
    ensures Covers(rs[i], x) ==> Has(rs, x)
  {
  }

  lemma CutCanonical(rs: seq<Run>, k: nat, n: nat)
    requires Canonical(rs) && k < |rs| && n <= rs[k].pages && n > 0
    ensures Canonical(Cut(rs, k, n))
  {
    if rs[k].pages == n {
      DeleteAtIndex(rs, k);
      var r := DeleteAt(rs, k);
      forall i, j | 0 <= i < j < |r| ensures r[i].End() < r[j].first {
        assert rs[if i < k then i else i + 1].End() < rs[if j < k then j else j + 1].first;
      }
    }
  }

  lemma CutPages(rs: seq<Run>, k: nat, n: nat, x: int)
    requires Canonical(rs) && k < |rs| && 0 < n <= rs[k].pages
    ensures Has(Cut(rs, k, n), x) <==> Has(rs, x) && !(rs[k].first <= x < rs[k].first + n)
  {
    var r := Cut(rs, k, n);
    var whole := rs[k].pages == n;
    if whole { DeleteAtIndex(rs, k); }
    if i :| 0 <= i < |rs| && Covers(rs[i], x) && !(rs[k].first <= x < rs[k].first + n) {
      HasAt(r, if whole && i > k then i - 1 else i, x);
    }
    if j :| 0 <= j < |r| && Covers(r[j], x) {
      var i := if whole && j >= k then j + 1 else j;
      assert Covers(rs[i], x);
      assert i != k ==> rs[i].End() < rs[k].first || rs[k].End() < rs[i].first;
    }
  }

  /** [a, a + n) and the free runs share no page. */
  ghost predicate Outside(rs: seq<Run>, a: int, n: nat) {
    forall i | 0 <= i < |rs| :: rs[i].End() <= a || a + n <= rs[i].first
  }

  lemma PatchIs(rs: seq<Run>, k: nat, d: nat, m: Run)
    requires k + d <= |rs|
    ensures |Patch(rs, k, d, m)| == |rs| - d + 1 && Patch(rs, k, d, m)[k] == m
    ensures forall i | 0 <= i < k :: Patch(rs, k, d, m)[i] == rs[i]
    ensures forall i | k < i < |rs| - d + 1 :: Patch(rs, k, d, m)[i] == rs[i + d - 1]
  {
  }

  lemma PatchCanonical(rs: seq<Run>, k: nat, d: nat, m: Run)
    requires Canonical(rs) && k + d <= |rs| && m.pages > 0
    requires k > 0 ==> rs[k - 1].End() < m.first
    requires k + d < |rs| ==> m.End() < rs[k + d].first
    ensures Canonical(Patch(rs, k, d, m))
  {
    hide Patch;
    forall i | 0 <= i < k ensures rs[i].End() < m.first { assert i == k - 1 || rs[i].End() < rs[k - 1].first; }
    forall i | k + d <= i < |rs| ensures m.End() < rs[i].first { assert i == k + d || rs[k + d].End() < rs[i].first; }
    PatchIs(rs, k, d, m);
    var r := Patch(rs, k, d, m);
    forall i, j | 0 <= i < j < |r| ensures r[i].End() < r[j].first {
      if i != k && j != k {
        var x, y := if i < k then i else i + d - 1, if j < k then j else j + d - 1;
        assert rs[x].End() < rs[y].first && r[i] == rs[x] && r[j] == rs[y];
      }
    }
  }

  lemma PatchPages(rs: seq<Run>, k: nat, d: nat, m: Run, x: int)
    requires k + d <= |rs|
    ensures Has(Patch(rs, k, d, m), x) <==>
              Covers(m, x) || exists i :: (0 <= i < k || k + d <= i < |rs|) && Covers(rs[i], x)
  {
    hide Patch;
    PatchIs(rs, k, d, m);
    var r := Patch(rs, k, d, m);
    if i :| (0 <= i < k || k + d <= i < |rs|) && Covers(rs[i], x) {
      HasAt(r, if i < k then i else i - d + 1, x);
    }
    HasAt(r, k, x);
    if j :| 0 <= j < |r| && Covers(r[j], x) {
      if j != k { assert Covers(rs[if j < k then j else j + d - 1], x); }
    }
  }

  /** Freeing keeps the list canonical: the returned pages are joined with whatever they touch. */
  lemma ReturnCanonical(rs: seq<Run>, a: int, n: nat)
    requires Canonical(rs) && n > 0 && Outside(rs, a, n)
    ensures Canonical(Return(rs, Spot(rs, a, n, 0), a, n))
  {
    hide Patch;
    var k := Spot(rs, a, n, 0);
    assert k > 0 ==> rs[k - 1].End() < a;
    assert 0 < k < |rs| ==> rs[k - 1].End() < rs[k].first;
    assert k + 1 < |rs| ==> rs[k].End() < rs[k + 1].first && (rs[k + 1].End() <= a || a + n <= rs[k + 1].first);
    assert k + 2 < |rs| ==> rs[k + 1].End() < rs[k + 2].first;
    if k < |rs| && rs[k].End() == a {
      if k + 1 < |rs| && rs[k + 1].first == a + n {
        PatchCanonical(rs, k, 2, Run(rs[k].first, rs[k].pages + n + rs[k + 1].pages));
      } else {
        PatchCanonical(rs, k, 1, Run(rs[k].first, rs[k].pages + n));
      }
    } else if k < |rs| && rs[k].first == a + n {
      PatchCanonical(rs, k, 1, Run(a, rs[k].pages + n));
    } else {
      PatchCanonical(rs, k, 0, Run(a, n));
    }
  }

  /** A patch whose run covers the runs it replaces and [a, a + n) adds exactly those pages. */
  lemma PatchAdds(rs: seq<Run>, k: nat, d: nat, m: Run, a: int, n: nat, x: int)
    requires k + d <= |rs|
    requires forall i | k <= i < k + d :: Covers(rs[i], x) ==> Covers(m, x)
    requires a <= x < a + n ==> Covers(m, x)
    requires Covers(m, x) ==> a <= x < a + n || exists i :: k <= i < k + d && Covers(rs[i], x)
    ensures Has(Patch(rs, k, d, m), x) <==> Has(rs, x) || a <= x < a + n
  {
    hide Patch, Covers;
    PatchPages(rs, k, d, m, x);
  }

  /** Freeing adds exactly the returned pages. */
  lemma ReturnPages(rs: seq<Run>, a: int, n: nat, x: int)
    requires Canonical(rs) && n > 0 && Outside(rs, a, n)
    ensures Has(Return(rs, Spot(rs, a, n, 0), a, n), x) <==> Has(rs, x) || a <= x < a + n
  {
    hide Patch, Has, Canonical, Outside;
    var k := Spot(rs, a, n, 0);
    if k < |rs| && rs[k].End() == a {
      assert Covers(rs[k], x) || !Covers(rs[k], x);
      if k + 1 < |rs| && rs[k + 1].first == a + n {
        assert Covers(rs[k + 1], x) || !Covers(rs[k + 1], x);
        PatchAdds(rs, k, 2, Run(rs[k].first, rs[k].pages + n + rs[k + 1].pages), a, n, x);
      } else {
        PatchAdds(rs, k, 1, Run(rs[k].first, rs[k].pages + n), a, n, x);
      }
    } else if k < |rs| && rs[k].first == a + n {
      assert Covers(rs[k], x) || !Covers(rs[k], x);
      PatchAdds(rs, k, 1, Run(a, rs[k].pages + n), a, n, x);
    } else {
      PatchAdds(rs, k, 0, Run(a, n), a, n, x);
    }
  }

  // ---- the list is determined by the set of free pages

  lemma LeastPage(rs: seq<Run>, x: int)
    requires Canonical(rs) && rs != []
    ensures Has(rs, rs[0].first) && !Has(rs, rs[0].End())
    ensures Has(rs, x) ==> x >= rs[0].first
    ensures Has(rs, x) <==> Covers(rs[0], x) || Has(rs[1..], x)
    ensures Has(rs[1..], x) ==> x > rs[0].End()
  {
    HasAt(rs, 0, rs[0].first);
    assert forall i | 0 < i < |rs| :: rs[0].End() < rs[i].first;
    if i :| 0 <= i < |rs| && Covers(rs[i], x) {
      assert i == 0 || rs[0].End() < rs[i].first;
      if i > 0 { HasAt(rs[1..], i - 1, x); }
    }
    HasAt(rs, 0, x);
    if i :| 0 <= i < |rs[1..]| && Covers(rs[1..][i], x) {
      assert rs[0].End() < rs[i + 1].first;
      HasAt(rs, i + 1, x);
    }
  }

  /** Two canonical lists of the same pages are the same list. */
  lemma {:induction false} CanonicalUnique(a: seq<Run>, b: seq<Run>)
    requires Canonical(a) && Canonical(b) && forall x :: Has(a, x) <==> Has(b, x)
    ensures a == b
    decreases |a|
  {
    if a == [] {
      if b != [] { LeastPage(b, 0); }
    } else {
      LeastPage(a, 0);
      assert b != [];
      LeastPage(b, 0);
      LeastPage(a, b[0].first);
      LeastPage(b, a[0].first);
      SameFirstRun(a, b);
      forall x ensures Has(a[1..], x) <==> Has(b[1..], x) {
        LeastPage(a, x);
        LeastPage(b, x);
      }
      CanonicalUnique(a[1..], b[1..]);
      assert a == [a[0]] + a[1..] && b == [b[0]] + b[1..];
    }
  }

  lemma SameFirstRun(a: seq<Run>, b: seq<Run>)
    requires Canonical(a) && Canonical(b) && a != [] && b != [] && a[0].first == b[0].first
    requires forall x :: Has(a, x) <==> Has(b, x)
    ensures a[0] == b[0]
  {
    LeastPage(a, b[0].End());
    LeastPage(b, a[0].End());
    HasAt(b, 0, a[0].End());
    HasAt(a, 0, b[0].End());
  }

  /** Allocating n pages and freeing them gives back the identical list. */
  lemma AllocThenFree(rs: seq<Run>, n: nat)
    requires Canonical(rs) && n > 0
    ensures var k := FirstFit(rs, n, 0);
            k < |rs| ==>
              var r := Cut(rs, k, n);
              Outside(r, rs[k].first, n) && Return(r, Spot(r, rs[k].first, n, 0), rs[k].first, n) == rs
  {
    var k := FirstFit(rs, n, 0);
    if k < |rs| {
      var r, a := Cut(rs, k, n), rs[k].first;
      CutCanonical(rs, k, n);
      CutOutside(rs, k, n);
      var s := Return(r, Spot(r, a, n, 0), a, n);
      ReturnCanonical(r, a, n);
      forall x ensures Has(s, x) <==> Has(rs, x) {
        CutPages(rs, k, n, x);
        ReturnPages(r, a, n, x);
        HasAt(rs, k, x);
      }
      CanonicalUnique(s, rs);
    }
  }

  lemma CutOutside(rs: seq<Run>, k: nat, n: nat)
    requires Canonical(rs) && k < |rs| && 0 < n <= rs[k].pages
    ensures Outside(Cut(rs, k, n), rs[k].first, n)
  {
    var r := Cut(rs, k, n);
    if rs[k].pages == n { DeleteAtIndex(rs, k); }
    forall i | 0 <= i < |r| ensures r[i].End() <= rs[k].first || rs[k].first + n <= r[i].first {
      var j := if rs[k].pages == n && i >= k then i + 1 else i;
      assert j != k ==> rs[j].End() < rs[k].first || rs[k].End() < rs[j].first;
    }
  }

  lemma {:induction false} PatchCountTo(rs: seq<Run>, k: nat, d: nat, m: Run, i: nat)
    requires k + d <= |rs| && i <= |Patch(rs, k, d, m)| && |Patch(rs, k, d, m)| == |rs| - d + 1
    ensures CountTo(Patch(rs, k, d, m), i) ==
              if i <= k then CountTo(rs, i) else CountTo(rs, i + d - 1) + m.pages - CountTo(rs, k + d) + CountTo(rs, k)
  {
    hide Patch;
    PatchIs(rs, k, d, m);
    if i > 0 { PatchCountTo(rs, k, d, m, i - 1); }
  }

  lemma CountPatch(rs: seq<Run>, k: nat, d: nat, m: Run)
    requires k + d <= |rs|
    ensures Count(Patch(rs, k, d, m)) == Count(rs) - CountTo(rs, k + d) + CountTo(rs, k) + m.pages
  {
    hide Patch;
    PatchIs(rs, k, d, m);
    PatchCountTo(rs, k, d, m, |rs| - d + 1);
  }

  lemma {:induction false} DeleteCountTo(rs: seq<Run>, k: nat, i: nat)
    requires k < |rs| && i < |rs| && |DeleteAt(rs, k)| == |rs| - 1
    ensures CountTo(DeleteAt(rs, k), i) == if i <= k then CountTo(rs, i) else CountTo(rs, i + 1) - rs[k].pages
  {
    DeleteAtIndex(rs, k);
    if i > 0 { DeleteCountTo(rs, k, i - 1); }
  }

  /** Pages are conserved: a cut takes n, a return gives n back. */
  lemma CutCounts(rs: seq<Run>, k: nat, n: nat)
    requires k < |rs| && n <= rs[k].pages
    ensures Count(Cut(rs, k, n)) == Count(rs) - n
  {
    if rs[k].pages > n {
      OneStep(rs, k, Run(rs[k].first + n, rs[k].pages - n));
      CountPatch(rs, k, 1, Run(rs[k].first + n, rs[k].pages - n));
    } else {
      DeleteAtIndex(rs, k);
      DeleteCountTo(rs, k, |rs| - 1);
    }
  }

  lemma ReturnCounts(rs: seq<Run>, k: nat, a: int, n: nat)
    requires k <= |rs|
    ensures Count(Return(rs, k, a, n)) == Count(rs) + n
  {
    hide Patch;
    if k < |rs| && rs[k].End() == a {
      if k + 1 < |rs| && rs[k + 1].first == a + n {
        CountPatch(rs, k, 2, Run(rs[k].first, rs[k].pages + n + rs[k + 1].pages));
        assert CountTo(rs, k + 2) == CountTo(rs, k + 1) + rs[k + 1].pages;
      } else {
        CountPatch(rs, k, 1, Run(rs[k].first, rs[k].pages + n));
      }
    } else if k < |rs| && rs[k].first == a + n {
      CountPatch(rs, k, 1, Run(a, rs[k].pages + n));
    } else {
      CountPatch(rs, k, 0, Run(a, n));
    }
  }

  lemma OneStep(rs: seq<Run>, i: nat, m: Run)
    requires i < |rs|
    ensures rs[i := m] == Patch(rs, i, 1, m)
  {
  }

  lemma TwoSteps(rs: seq<Run>, i: nat, l: Run, m: Run)
    requires i + 1 < |rs|
    ensures DeleteAt(rs[i := l][i := m], i + 1) == Patch(rs, i, 2, m)
  {
  }

  lemma NoStep(rs: seq<Run>, i: nat, m: Run)
    requires i <= |rs|
    ensures InsertAt(rs, i, m) == Patch(rs, i, 0, m)
  {
  }

  class Pages {
    var list: seq<Run>

    ghost predicate Valid()
      reads this
    {
      Canonical(list)
    }

    /** `rt_page_init`. */
    constructor (first: int, n: nat)
      requires n > 0
      ensures Valid() && list == [Run(first, n)]
    {
      list := [];
      new;
      Free(first, n);
    }

    /** `rt_page_alloc`; `found` is false for its RT_NULL. */
    method Alloc(n: nat) returns (found: bool, a: int)
      requires Valid()
      modifies this
      ensures Valid() && found == (n > 0 && FirstFit(old(list), n, 0) < |old(list)|)
      ensures found ==> var k := FirstFit(old(list), n, 0); a == old(list)[k].first && list == Cut(old(list), k, n)
      ensures !found ==> list == old(list)
    {
      found, a := false, 0;
      if n == 0 { return; }
      var i := 0;
      while i < |list|
        invariant i <= |list| && list == old(list) && !found
        invariant FirstFit(list, n, i) == FirstFit(list, n, 0)
      {
        var b := list[i];
        if b.pages > n {
          CutCanonical(list, i, n);
          list := list[i := Run(b.first + n, b.pages - n)];
          return true, b.first;
        }
        if b.pages == n {
          CutCanonical(list, i, n);
          list := DeleteAt(list, i);
          return true, b.first;
        }
        i := i + 1;
      }
    }

    /** `rt_page_free` of n pages of which none is free. */
    method Free(a: int, n: nat)
      requires Valid() && n > 0 && Outside(list, a, n)
      modifies this
      ensures Valid() && list == Return(old(list), Spot(old(list), a, n, 0), a, n)
    {
      hide Patch, Canonical, Outside;
      ReturnCanonical(list, a, n);
      var i := 0;
      while i < |list|
        invariant i <= |list| && list == old(list)
        invariant Spot(list, a, n, i) == Spot(list, a, n, 0)
      {
        var b := list[i];
        if b.End() == a {
          GrowUp(i, n);
          return;
        }
        if b.first == a + n {
          OneStep(list, i, Run(a, b.pages + n));
          list := list[i := Run(a, b.pages + n)];
          return;
        }
        if b.first > a + n { break; }
        i := i + 1;
      }
      NoStep(list, i, Run(a, n));
      list := InsertAt(list, i, Run(a, n));
    }

    /** Run i grows by n pages, and by the next run if it now reaches it. */
    method GrowUp(i: nat, n: nat)
      requires i < |list|
      modifies this
      ensures list == Return(old(list), i, old(list)[i].End(), n)
    {
      hide Patch, DeleteAt;
      var b := list[i];
      OneStep(list, i, Run(b.first, b.pages + n));
      if i + 1 < |list| {
        TwoSteps(list, i, Run(b.first, b.pages + n), Run(b.first, b.pages + n + list[i + 1].pages));
      }
      list := list[i := Run(b.first, b.pages + n)];
      if i + 1 < |list| && list[i].End() == list[i + 1].first {
        list := list[i := Run(b.first, list[i].pages + list[i + 1].pages)];
        list := DeleteAt(list, i + 1);
      }
    }
  }
}
