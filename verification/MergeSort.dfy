/** CoreMark's list mergesort (core_list_join.c): bottom up, in place, by relinking. */
module MergeSort {
  import opened Lists
  import opened Chains

  const MAX_LENGTH: nat := 0x4000_0000  // run lengths are 32-bit

  /** The comparator on list cells. */
  type Cmp = (int, int) -> int

  /** Cell a may stay before cell b. */
  predicate Leq(cmp: Cmp, a: int, b: int) { cmp(a, b) <= 0 }

  ghost predicate Consistent(cmp: Cmp) {
    && (forall a, b :: Leq(cmp, a, b) || Leq(cmp, b, a))
    && (forall a, b, c | Leq(cmp, a, b) && Leq(cmp, b, c) :: Leq(cmp, a, c))
  }

  predicate Tied(cmp: Cmp, a: int, b: int) {
    Leq(cmp, a, b) && Leq(cmp, b, a)
  }

  // ---- what a pass computes

  function Merge(cmp: Cmp, a: seq<int>, b: seq<int>): (r: seq<int>)
    ensures |r| == |a| + |b|
  {
    if a == [] then b
    else if b == [] then a
    else if Leq(cmp, a[0], b[0]) then [a[0]] + Merge(cmp, a[1..], b)
    else [b[0]] + Merge(cmp, a, b[1..])
  }

  function Take(s: seq<int>, k: nat): (r: seq<int>) { if k < |s| then s[..k] else s }

  function Drop(s: seq<int>, k: nat): (r: seq<int>) { if k < |s| then s[k..] else [] }

  /** One pass: neighbouring runs of k cells are merged two by two. */
  function Pass(cmp: Cmp, s: seq<int>, k: nat): (r: seq<int>)
    requires k > 0
    ensures |r| == |s|
    decreases |s|
  {
    if s == [] then []
    else Merge(cmp, Take(s, k), Take(Drop(s, k), k)) + Pass(cmp, Drop(Drop(s, k), k), k)
  }

  function Merges(n: nat, k: nat): (m: nat)
    requires k > 0
  {
    if n == 0 then 0 else 1 + Merges(if n <= 2 * k then 0 else n - 2 * k, k)
  }

  // ---- sorted, a permutation, and stable

  ghost predicate Sorted(cmp: Cmp, s: seq<int>) {
    forall i, j | 0 <= i < j < |s| :: Leq(cmp, s[i], s[j])
  }

  /** The cells that tie with x, in order. */
  function Same(cmp: Cmp, x: int, s: seq<int>): (r: seq<int>) {
    if s == [] then [] else if Tied(cmp, x, s[0]) then [s[0]] + Same(cmp, x, s[1..]) else Same(cmp, x, s[1..])
  }

  lemma {:induction false} SameConcat(cmp: Cmp, x: int, a: seq<int>, b: seq<int>)
    ensures Same(cmp, x, a + b) == Same(cmp, x, a) + Same(cmp, x, b)
  {
    if a == [] {
      assert a + b == b;
    } else {
      assert (a + b)[1..] == a[1..] + b;
      SameConcat(cmp, x, a[1..], b);
    }
  }

  lemma {:induction false} SameNone(cmp: Cmp, x: int, s: seq<int>)
    requires forall y | y in s :: !Tied(cmp, x, y)
    ensures Same(cmp, x, s) == []
  {
    if s != [] { SameNone(cmp, x, s[1..]); }
  }

  lemma SameCons(cmp: Cmp, x: int, y: int, s: seq<int>)
    ensures Same(cmp, x, [y] + s) == if Tied(cmp, x, y) then [y] + Same(cmp, x, s) else Same(cmp, x, s)
  {
    assert ([y] + s)[1..] == s;
  }

  /** Merging keeps ties in order: those of the first run, then those of the second. */
  lemma {:induction false} MergeStable(cmp: Cmp, x: int, a: seq<int>, b: seq<int>)
    requires Consistent(cmp) && Sorted(cmp, a)
    ensures Same(cmp, x, Merge(cmp, a, b)) == Same(cmp, x, a) + Same(cmp, x, b)
    decreases |a| + |b|
  {
    hide Sorted, Tied, Leq, Merge, Same;
    MergeStep(cmp, a, b);
    SameEmpty(cmp, x);
    if a == [] || b == [] {
      assert a + b == if a == [] then b else a;
      assert Same(cmp, x, a) + Same(cmp, x, b) == Same(cmp, x, a + b);
    } else if Leq(cmp, a[0], b[0]) {
      HeadLeast(cmp, a);
      MergeStable(cmp, x, a[1..], b);
      SameCons(cmp, x, a[0], Merge(cmp, a[1..], b));
      SameCons(cmp, x, a[0], a[1..]);
      assert a == [a[0]] + a[1..];
    } else {
      MergeStable(cmp, x, a, b[1..]);
      SameCons(cmp, x, b[0], Merge(cmp, a, b[1..]));
      SameCons(cmp, x, b[0], b[1..]);
      assert b == [b[0]] + b[1..];
      if Tied(cmp, x, b[0]) {
        HeadLeast(cmp, a);
        NoTie(cmp, x, a[0], a, b[0]);
        SameNone(cmp, x, a);
      }
    }
  }

  lemma MergeStep(cmp: Cmp, a: seq<int>, b: seq<int>)
    ensures Merge(cmp, a, b) == if a == [] then b else if b == [] then a
                                else if Leq(cmp, a[0], b[0]) then [a[0]] + Merge(cmp, a[1..], b)
                                else [b[0]] + Merge(cmp, a, b[1..])
  {
  }

  lemma SameEmpty(cmp: Cmp, x: int)
    ensures Same(cmp, x, []) == []
  {
  }

  lemma NoTie(cmp: Cmp, x: int, least: int, a: seq<int>, y: int)
    requires Consistent(cmp) && Tied(cmp, x, y) && !Leq(cmp, least, y)
    requires forall z | z in a :: Leq(cmp, least, z)
    ensures forall z | z in a :: !Tied(cmp, x, z)
  {
    forall z | z in a ensures !Tied(cmp, x, z) {
      assert Leq(cmp, least, z);
      assert Leq(cmp, z, x) ==> Leq(cmp, least, x);
    }
  }

  lemma ConsSorted(cmp: Cmp, x: int, s: seq<int>)
    requires Sorted(cmp, s) && forall y | y in s :: Leq(cmp, x, y)
    ensures Sorted(cmp, [x] + s)
  {
    var r := [x] + s;
    forall i, j | 0 <= i < j < |r| ensures Leq(cmp, r[i], r[j]) {
      var y := s[j - 1];
      assert y in s && r[j] == y;
      assert i > 0 ==> r[i] == s[i - 1];
    }
  }

  lemma HeadLeast(cmp: Cmp, s: seq<int>)
    requires Consistent(cmp) && Sorted(cmp, s) && s != []
    ensures (forall y | y in s :: Leq(cmp, s[0], y)) && Sorted(cmp, s[1..])
  {
    forall y | y in s ensures Leq(cmp, s[0], y) {
      var i :| 0 <= i < |s| && s[i] == y;
      assert i == 0 || Leq(cmp, s[0], s[i]);
    }
    var t := s[1..];
    forall i, j | 0 <= i < j < |t| ensures Leq(cmp, t[i], t[j]) { assert t[i] == s[i + 1] && t[j] == s[j + 1]; }
  }

  lemma {:induction false} MergeIn(cmp: Cmp, a: seq<int>, b: seq<int>, y: int)
    requires y in Merge(cmp, a, b)
    ensures y in a || y in b
    decreases |a| + |b|
  {
    if a != [] && b != [] {
      if Leq(cmp, a[0], b[0]) {
        if y != a[0] { MergeIn(cmp, a[1..], b, y); }
      } else {
        if y != b[0] { MergeIn(cmp, a, b[1..], y); }
      }
    }
  }

  lemma {:induction false} MergeSorts(cmp: Cmp, a: seq<int>, b: seq<int>)
    requires Consistent(cmp) && Sorted(cmp, a) && Sorted(cmp, b)
    ensures Sorted(cmp, Merge(cmp, a, b))
    decreases |a| + |b|
  {
    hide Sorted;
    if a != [] && b != [] {
      HeadLeast(cmp, a);
      HeadLeast(cmp, b);
      if Leq(cmp, a[0], b[0]) {
        MergeSorts(cmp, a[1..], b);
        forall y | y in Merge(cmp, a[1..], b) ensures Leq(cmp, a[0], y) {
          MergeIn(cmp, a[1..], b, y);
          assert y in a || (Leq(cmp, a[0], b[0]) && Leq(cmp, b[0], y));
        }
        ConsSorted(cmp, a[0], Merge(cmp, a[1..], b));
      } else {
        MergeSorts(cmp, a, b[1..]);
        forall y | y in Merge(cmp, a, b[1..]) ensures Leq(cmp, b[0], y) {
          MergeIn(cmp, a, b[1..], y);
          assert y in b || (Leq(cmp, b[0], a[0]) && Leq(cmp, a[0], y));
        }
        ConsSorted(cmp, b[0], Merge(cmp, a, b[1..]));
      }
    }
  }

  /** Every run of k cells is sorted. */
  ghost predicate Runs(cmp: Cmp, s: seq<int>, k: nat)
    requires k > 0
    decreases |s|
  {
    s == [] || (Sorted(cmp, Take(s, k)) && Runs(cmp, Drop(s, k), k))
  }

  lemma {:induction false} SingleRuns(cmp: Cmp, s: seq<int>)
    ensures Runs(cmp, s, 1)
    decreases |s|
  {
    if s != [] { SingleRuns(cmp, Drop(s, 1)); }
  }

  lemma {:induction false} PassDoubles(cmp: Cmp, s: seq<int>, k: nat)
    requires k > 0 && Consistent(cmp) && Runs(cmp, s, k)
    ensures Runs(cmp, Pass(cmp, s, k), 2 * k)
    ensures |s| <= 2 * k ==> Sorted(cmp, Pass(cmp, s, k))
    decreases |s|
  {
    if s != [] {
      var a, b, rest := Take(s, k), Take(Drop(s, k), k), Drop(Drop(s, k), k);
      MergeSorts(cmp, a, b);
      PassDoubles(cmp, rest, k);
      var m, r := Merge(cmp, a, b), Pass(cmp, rest, k);
      if rest == [] {
        assert m + r == m && Take(m, 2 * k) == m && Drop(m, 2 * k) == [];
      } else {
        assert Take(m + r, 2 * k) == m && Drop(m + r, 2 * k) == r;
      }
    }
  }

  lemma {:induction false} PassStable(cmp: Cmp, x: int, s: seq<int>, k: nat)
    requires k > 0 && Consistent(cmp) && Runs(cmp, s, k)
    ensures Same(cmp, x, Pass(cmp, s, k)) == Same(cmp, x, s)
    decreases |s|
  {
    hide Same, Merge, Sorted, Tied;
    if s != [] {
      var a, b, rest := Take(s, k), Take(Drop(s, k), k), Drop(Drop(s, k), k);
      PassStable(cmp, x, rest, k);
      MergeStable(cmp, x, a, b);
      SameConcat(cmp, x, Merge(cmp, a, b), Pass(cmp, rest, k));
      assert s == a + b + rest;
      SameConcat(cmp, x, a, b);
      SameConcat(cmp, x, a + b, rest);
    }
  }

  lemma {:induction false} SameCounts(cmp: Cmp, x: int, s: seq<int>)
    requires Consistent(cmp)
    ensures multiset(Same(cmp, x, s))[x] == multiset(s)[x]
  {
    if s != [] {
      assert Leq(cmp, x, x);
      SameCounts(cmp, x, s[1..]);
      assert s == [s[0]] + s[1..];
    }
  }

  /** `r` is `s` sorted, with ties in their old order. */
  ghost predicate StablySorted(cmp: Cmp, s: seq<int>, r: seq<int>) {
    && Sorted(cmp, r)
    && forall x :: Same(cmp, x, r) == Same(cmp, x, s)
  }

  /** It holds the same cells. */
  lemma StableSortPermutes(cmp: Cmp, s: seq<int>, r: seq<int>)
    requires Consistent(cmp) && StablySorted(cmp, s, r)
    ensures multiset(r) == multiset(s)
  {
    forall x ensures multiset(r)[x] == multiset(s)[x] {
      SameCounts(cmp, x, s);
      SameCounts(cmp, x, r);
      assert Same(cmp, x, r) == Same(cmp, x, s);
    }
  }

  ghost function CellsOf(s: seq<int>): (c: set<int>) { set n | n in s }

  /** Lists with the same ties hold the same cells. */
  lemma SameCells(cmp: Cmp, s: seq<int>, r: seq<int>)
    requires Consistent(cmp) && forall x :: Same(cmp, x, r) == Same(cmp, x, s)
    ensures CellsOf(r) == CellsOf(s)
  {
    forall x ensures x in r <==> x in s {
      SameCounts(cmp, x, s);
      SameCounts(cmp, x, r);
      assert Same(cmp, x, r) == Same(cmp, x, s);
      assert (x in r <==> multiset(r)[x] > 0) && (x in s <==> multiset(s)[x] > 0);
    }
  }

  /** There is only one such list. */
  lemma {:induction false} StableSortUnique(cmp: Cmp, a: seq<int>, b: seq<int>)
    requires Consistent(cmp) && Sorted(cmp, a) && Sorted(cmp, b)
    requires forall x :: Same(cmp, x, a) == Same(cmp, x, b)
    ensures a == b
    decreases |a|
  {
    hide Sorted, Tied;
    if a == [] {
      if b != [] {
        SameHead(cmp, b);
      }
    } else {
      SameHead(cmp, a);
      SameIn(cmp, a[0], b);
      SameHead(cmp, b);
      SameIn(cmp, b[0], a);
      HeadLeast(cmp, a);
      HeadLeast(cmp, b);
      assert Tied(cmp, a[0], b[0]) by { TieHeads(cmp, a, b); }
      assert Same(cmp, a[0], a)[0] == a[0] && Same(cmp, a[0], b)[0] == b[0];
      forall x ensures Same(cmp, x, a[1..]) == Same(cmp, x, b[1..]) { SameTail(cmp, x, a, b); }
      StableSortUnique(cmp, a[1..], b[1..]);
    }
  }

  lemma SameHead(cmp: Cmp, s: seq<int>)
    requires Consistent(cmp) && s != []
    ensures Same(cmp, s[0], s) == [s[0]] + Same(cmp, s[0], s[1..])
    ensures forall x | Tied(cmp, x, s[0]) :: Same(cmp, x, s) == [s[0]] + Same(cmp, x, s[1..])
  {
  }

  lemma TieHeads(cmp: Cmp, a: seq<int>, b: seq<int>)
    requires Consistent(cmp) && a != [] && b != []
    requires (forall y | y in a :: Leq(cmp, a[0], y)) && (forall y | y in b :: Leq(cmp, b[0], y))
    requires exists y :: y in b && Tied(cmp, a[0], y)
    requires exists y :: y in a && Tied(cmp, b[0], y)
    ensures Tied(cmp, a[0], b[0])
  {
  }

  lemma SameTail(cmp: Cmp, x: int, a: seq<int>, b: seq<int>)
    requires a != [] && b != [] && a[0] == b[0] && Same(cmp, x, a) == Same(cmp, x, b)
    ensures Same(cmp, x, a[1..]) == Same(cmp, x, b[1..])
  {
    hide Tied;
    if Tied(cmp, x, a[0]) {
      assert Same(cmp, x, a) == [a[0]] + Same(cmp, x, a[1..]) && Same(cmp, x, b) == [a[0]] + Same(cmp, x, b[1..]);
      assert ([a[0]] + Same(cmp, x, a[1..]))[1..] == Same(cmp, x, a[1..]);
      assert ([a[0]] + Same(cmp, x, b[1..]))[1..] == Same(cmp, x, b[1..]);
    }
  }

  lemma {:induction false} SameIn(cmp: Cmp, x: int, s: seq<int>)
    ensures Same(cmp, x, s) != [] ==> exists y :: y in s && Tied(cmp, x, y)
  {
    if s != [] && !Tied(cmp, x, s[0]) { SameIn(cmp, x, s[1..]); }
  }

  // ---- the links during a pass

  /** The links lead through `nodes`; where the last one leads does not matter. */
  ghost predicate Open(next: map<int, int>, nodes: seq<int>) {
    && (forall n | n in nodes :: n in next && n != NULL)
    && forall i | 0 <= i < |nodes| - 1 :: nodes[i] in next && next[nodes[i]] == nodes[i + 1]
  }

  /** Cells already merged, cells left of the first run, and cells from the second run on. */
  datatype Parts = Parts(done: seq<int>, first: seq<int>, rest: seq<int>)

  ghost predicate Apart(v: Parts) {
    && Distinct(v.done) && Distinct(v.first) && Distinct(v.rest)
    && (forall n | n in v.done :: n !in v.first && n !in v.rest)
    && (forall n | n in v.first :: n !in v.rest)
  }

  ghost predicate Mid(next: map<int, int>, list: int, tail: int, p: int, q: int, v: Parts) {
    && Open(next, v.done) && list == At(v.done, 0) && tail == Last(v.done)
    && Open(next, v.first) && (v.first != [] ==> p == v.first[0])
    && Open(next, v.rest) && Linked(next, q, v.rest)
    && Apart(v)
  }

  function Link(next: map<int, int>, tail: int, e: int): (r: map<int, int>) {
    if tail != NULL then next[tail := e] else next
  }

  lemma OpenTail(next: map<int, int>, s: seq<int>)
    requires Open(next, s) && s != []
    ensures Open(next, s[1..]) && s[0] in next && s[0] != NULL
    ensures s[1..] != [] ==> next[s[0]] == s[1..][0]
  {
    var h := s[0];
    assert h in s;
  }

  lemma OpenFrame(next: map<int, int>, s: seq<int>, tail: int, e: int)
    requires Open(next, s) && tail !in s
    ensures Open(Link(next, tail, e), s)
  {
    forall i | 0 <= i < |s| - 1 ensures s[i] in Link(next, tail, e) && Link(next, tail, e)[s[i]] == s[i + 1] {
      var n := s[i];
      assert n in s;
    }
  }

  lemma OpenAppend(next: map<int, int>, s: seq<int>, e: int)
    requires Open(next, s) && Distinct(s) && e in next && e != NULL && e !in s
    ensures Open(Link(next, Last(s), e), s + [e]) && (Last(s) == NULL <==> s == [])
  {
    if s != [] {
      var l := Last(s);
      assert l in s;
      var m, r := Link(next, l, e), s + [e];
      forall i | 0 <= i < |r| - 1 ensures r[i] in m && m[r[i]] == r[i + 1] {
        var n := s[i];
        assert n in s;
        assert i < |s| - 1 ==> s[i] != s[|s| - 1];
      }
    }
  }

  /** The head of the first run goes to the end of the merged cells. */
  lemma MoveFirst(next: map<int, int>, list: int, tail: int, p: int, q: int, v: Parts)
    requires Mid(next, list, tail, p, q, v) && v.first != []
    ensures p in next && p != NULL
    ensures Mid(Link(next, tail, p), if tail == NULL then p else list, p, next[p], q,
                Parts(v.done + [p], v.first[1..], v.rest))
  {
    hide Open, Linked, Distinct;
    OpenTail(next, v.first);
    var w := Parts(v.done + [p], v.first[1..], v.rest);
    var next' := Link(next, tail, p);
    assert p in v.first;
    TailIn(v.first);
    AppendIn(v.done, p);
    OpenAppend(next, v.done, p);
    NoNull(next, v.first);
    NoNull(next, v.rest);
    TailOut(v, tail);
    OpenFrame(next, v.first[1..], tail, p);
    OpenFrame(next, v.rest, tail, p);
    LinkedFrame(next, next', q, v.rest);
  }

  lemma TailOut(v: Parts, tail: int)
    requires Apart(v) && tail == Last(v.done) && NULL !in v.first && NULL !in v.rest
    ensures tail !in v.first && tail !in v.rest
  {
    assert v.done != [] ==> tail in v.done;
  }

  lemma NoNull(next: map<int, int>, s: seq<int>)
    requires Open(next, s)
    ensures NULL !in s
  {
  }

  /** The head of the second run goes to the end of the merged cells. */
  lemma MoveSecond(next: map<int, int>, list: int, tail: int, p: int, q: int, v: Parts)
    requires Mid(next, list, tail, p, q, v) && v.rest != []
    ensures q in next && q != NULL
    ensures Mid(Link(next, tail, q), if tail == NULL then q else list, q, p, next[q],
                Parts(v.done + [q], v.first, v.rest[1..]))
  {
    hide Open, Distinct;
    OpenTail(next, v.rest);
    LinkedTail(next, q, v.rest);
    var next' := Link(next, tail, q);
    assert q in v.rest;
    TailIn(v.rest);
    AppendIn(v.done, q);
    OpenAppend(next, v.done, q);
    NoNull(next, v.first);
    NoNull(next, v.rest);
    TailOut(v, tail);
    OpenFrame(next, v.first, tail, q);
    OpenFrame(next, v.rest[1..], tail, q);
    LinkedFrame(next, next', next[q], v.rest[1..]);
  }

  /** What the two runs still have to give, merged, after one cell of either is taken. */
  lemma MergeFirst(cmp: Cmp, a: seq<int>, rest: seq<int>, n: nat)
    requires a != [] && (n == 0 || rest == [] || Leq(cmp, a[0], rest[0]))
    ensures Merge(cmp, a, Take(rest, n)) == [a[0]] + Merge(cmp, a[1..], Take(rest, n))
  {
    var b := Take(rest, n);
    assert b != [] ==> b[0] == rest[0];
    MergeStep(cmp, a, b);
    MergeStep(cmp, a[1..], b);
  }

  lemma MergeSecond(cmp: Cmp, a: seq<int>, rest: seq<int>, n: nat)
    requires n > 0 && rest != [] && (a == [] || !Leq(cmp, a[0], rest[0]))
    ensures Merge(cmp, a, Take(rest, n)) == [rest[0]] + Merge(cmp, a, Take(rest[1..], n - 1))
    ensures Drop(rest[1..], n - 1) == Drop(rest, n)
  {
    var b := Take(rest, n);
    assert b[0] == rest[0] && b[1..] == Take(rest[1..], n - 1);
    MergeStep(cmp, a, b);
    MergeStep(cmp, a, b[1..]);
  }

  lemma MergesOne(n: nat, k: nat)
    requires k > 0
    ensures Merges(n, k) <= 1 <==> n <= 2 * k
  {
  }

  /** No link outside these cells has changed. */
  ghost predicate Kept(before: map<int, int>, after: map<int, int>, cells: set<int>) {
    forall n | n !in cells :: (n in after <==> n in before) && (n in before && n in after ==> after[n] == before[n])
  }

  ghost predicate Among(v: Parts, cells: set<int>) {
    && (forall n | n in v.done :: n in cells)
    && (forall n | n in v.first :: n in cells)
    && forall n | n in v.rest :: n in cells
  }

  lemma KeptStore(before: map<int, int>, after: map<int, int>, cells: set<int>, at: int, to: int)
    requires Kept(before, after, cells) && at in cells
    ensures Kept(before, after[at := to], cells)
  {
  }

  lemma TailAmong(next: map<int, int>, list: int, tail: int, p: int, q: int, v: Parts, cells: set<int>)
    requires Mid(next, list, tail, p, q, v) && Among(v, cells)
    ensures tail != NULL ==> tail in cells
    ensures v.first != [] ==> Among(Parts(v.done + [p], v.first[1..], v.rest), cells)
    ensures v.rest != [] ==> Among(Parts(v.done + [q], v.first, v.rest[1..]), cells)
  {
    hide Open, Distinct;
    if v.done != [] { assert v.done[|v.done| - 1] in v.done; }
    if v.first != [] { TailIn(v.first); }
    assert v.first != [] ==> v.first[0] in v.first;
    if v.rest != [] { TailIn(v.rest); LinkedTail(next, q, v.rest); }
  }

  class Cells {
    var next: map<int, int>

    /** One merge of `core_list_mergesort`; returns the new head, tail and p. */
    method MergeTwo(cmp: Cmp, k: nat, list0: int, tail0: int, p0: int, q0: int, psize0: nat, ghost v0: Parts,
                    ghost cells: set<int>)
      returns (list: int, tail: int, p: int, ghost v: Parts)
      requires k > 0 && Mid(next, list0, tail0, p0, q0, v0) && psize0 == |v0.first| && Among(v0, cells)
      modifies this
      ensures Mid(next, list, tail, p, p, v) && v.first == [] && Among(v, cells) && Kept(old(next), next, cells)
      ensures v.done == v0.done + Merge(cmp, v0.first, Take(v0.rest, k)) && v.rest == Drop(v0.rest, k)
    {
      hide Open, Linked, Apart, Merge, Pass, Take, Drop, Kept, Among;
      assert Kept(next, next, cells) by { KeptAll(next, cells); }
      list, tail, p, v := list0, tail0, p0, v0;
      var q := q0;
      var psize: nat, qsize: nat := psize0, k;
      ghost var total := v0.done + Merge(cmp, v0.first, Take(v0.rest, k));
      while psize > 0 || (qsize > 0 && q != NULL)
        invariant Mid(next, list, tail, p, q, v) && psize == |v.first|
        invariant total == v.done + Merge(cmp, v.first, Take(v.rest, qsize)) && Drop(v.rest, qsize) == Drop(v0.rest, k)
        invariant qsize <= k && Among(v, cells) && Kept(old(next), next, cells)
        decreases |v.first| + |v.rest|
      {
        RestNull(next, q, v.rest);
        TailAmong(next, list, tail, p, q, v, cells);
        var fromFirst;
        if psize == 0 {
          fromFirst := false;
        } else if qsize == 0 || q == NULL {
          fromFirst := true;
        } else {
          fromFirst := cmp(p, q) <= 0;
        }
        var e;
        if fromFirst {
          MergeFirst(cmp, v.first, v.rest, qsize);
          MoveFirst(next, list, tail, p, q, v);
          v := Parts(v.done + [p], v.first[1..], v.rest);
          e := p;
          p := next[p];
          psize := psize - 1;
        } else {
          MergeSecond(cmp, v.first, v.rest, qsize);
          MoveSecond(next, list, tail, p, q, v);
          v := Parts(v.done + [q], v.first, v.rest[1..]);
          e := q;
          q := next[q];
          qsize := qsize - 1;
        }
        if tail != NULL {
          KeptStore(old(next), next, cells, tail, e);
          next := next[tail := e];
        } else {
          list := e;
        }
        tail := e;
      }
      RestNull(next, q, v.rest);
      NothingLeft(cmp, v.rest, qsize);
      p := q;
    }

    /** The stepping loop: q runs k cells ahead of p, or off the end. */
    method StepAhead(k: nat, p: int, ghost s: seq<int>) returns (q: int, psize: nat)
      requires k > 0 && s != [] && Linked(next, p, s) && Open(next, s)
      ensures psize == |Take(s, k)| && Linked(next, q, Drop(s, k))
    {
      q, psize := p, 0;
      var i := 0;
      while i < k
        invariant i == psize <= |s| && i <= k && q == At(s, i)
        invariant i < k ==> i < |s|
      {
        psize := psize + 1;
        assert s[i] in next && next[s[i]] == At(s, i + 1);
        q := next[q];
        i := i + 1;
        if q == NULL {
          EndOfList(next, s, i);
          break;
        }
        assert i < |s|;
      }
      LinkedDrop(next, p, s, k);
    }

    /** One pass of the outer loop: all runs of k cells are merged two by two. */
    method OnePass(cmp: Cmp, k: nat, list0: int, ghost s: seq<int>) returns (list: int, nmerges: nat)
      requires k > 0 && s != [] && Linked(next, list0, s) && Open(next, s) && Distinct(s)
      modifies this
      ensures Linked(next, list, Pass(cmp, s, k)) && Open(next, Pass(cmp, s, k)) && Distinct(Pass(cmp, s, k))
      ensures nmerges == Merges(|s|, k)
      ensures Kept(old(next), next, CellsOf(s))
    {
      hide Merge, Take, Drop, Merges, Pass, Open, Linked, Distinct, Mid, Kept, Among, CellsOf;
      ghost var cells := CellsOf(s);
      KeptAll(next, cells);
      var p, tail := list0, NULL;
      StartMid(next, list0, s);
      list, nmerges := NULL, 0;
      ghost var v := Parts([], [], s);
      AmongAll(s);
      assert v.done + Pass(cmp, v.rest, k) == Pass(cmp, s, k);
      while p != NULL
        invariant Mid(next, list, tail, p, p, v) && v.first == []
        invariant Among(v, cells) && Kept(old(next), next, cells)
        invariant v.done + Pass(cmp, v.rest, k) == Pass(cmp, s, k)
        invariant nmerges + Merges(|v.rest|, k) == Merges(|s|, k)
        decreases |v.rest|
      {
        RestOf(next, list, tail, p, v);
        nmerges := nmerges + 1;
        var q, psize := StepAhead(k, p, v.rest);
        SplitRest(next, list, tail, p, q, v, k);
        ghost var w := Parts(v.done, Take(v.rest, k), Drop(v.rest, k));
        PassStep(cmp, v.rest, k);
        MergesStep(v.rest, k);
        AmongSplit(v, k, cells);
        ghost var was := next;
        list, tail, p, w := MergeTwo(cmp, k, list, tail, p, q, psize, w, cells);
        KeptOn(old(next), was, next, cells);
        v := w;
      }
      RestOf(next, list, tail, p, v);
      NoMerges(cmp, k);
      Done(next, list, tail, p, v, Pass(cmp, s, k));
      EndChain(next, list, tail, Pass(cmp, s, k));
      TailOf(v, tail, cells);
      KeptStore(old(next), next, cells, tail, NULL);
      next := next[tail := NULL];
    }

    /** `core_list_mergesort` on a list that is not empty: the same cells, relinked in order, ties as they were. */
    method Sort(cmp: Cmp, first: int, ghost s: seq<int>) returns (list: int, ghost r: seq<int>)
      requires Consistent(cmp)
      requires s != [] && |s| <= MAX_LENGTH && Linked(next, first, s) && Open(next, s) && Distinct(s)
      modifies this
      ensures Linked(next, list, r) && Distinct(r) && StablySorted(cmp, s, r)
      ensures Kept(old(next), next, CellsOf(s))
    {
      hide Linked, Open, Distinct, Pass, Runs, Merges, Same, Sorted, Consistent, Kept, CellsOf;
      KeptAll(next, CellsOf(s));
      list, r := first, s;
      var insize, nmerges := 1, 2;
      SingleRuns(cmp, s);
      while nmerges > 1
        invariant 1 <= insize && |r| == |s| && r != []
        invariant nmerges > 1 ==> insize < |s| || insize == 1
        invariant insize <= MAX_LENGTH
        invariant Linked(next, list, r) && Open(next, r) && Distinct(r)
        invariant if nmerges > 1 then Runs(cmp, r, insize) else Sorted(cmp, r)
        invariant forall x :: Same(cmp, x, r) == Same(cmp, x, s)
        invariant Kept(old(next), next, CellsOf(s))
        decreases nmerges > 1, |s| - insize
      {
        ghost var was, links := r, next;
        SameCells(cmp, s, r);
        list, nmerges := OnePass(cmp, insize, list, r);
        r := Pass(cmp, was, insize);
        KeptOn(old(next), links, next, CellsOf(s));
        PassDoubles(cmp, was, insize);
        MergesOne(|was|, insize);
        forall x ensures Same(cmp, x, r) == Same(cmp, x, s) { PassStable(cmp, x, was, insize); }
        if nmerges > 1 { insize := insize * 2; }
      }
    }
  }

  lemma KeptAll(next: map<int, int>, cells: set<int>)
    ensures Kept(next, next, cells)
  {
  }

  lemma KeptOn(a: map<int, int>, b: map<int, int>, c: map<int, int>, cells: set<int>)
    requires Kept(a, b, cells) && Kept(b, c, cells)
    ensures Kept(a, c, cells)
  {
  }

  lemma AmongAll(s: seq<int>)
    ensures Among(Parts([], [], s), CellsOf(s))
  {
  }

  lemma AmongSplit(v: Parts, k: nat, cells: set<int>)
    requires Among(v, cells)
    ensures Among(Parts(v.done, Take(v.rest, k), Drop(v.rest, k)), cells)
  {
  }

  lemma TailOf(v: Parts, tail: int, cells: set<int>)
    requires Among(v, cells) && v.done != [] && tail == Last(v.done)
    ensures tail in cells
  {
    assert v.done[|v.done| - 1] in v.done;
  }

  lemma RestOf(next: map<int, int>, list: int, tail: int, p: int, v: Parts)
    requires Mid(next, list, tail, p, p, v)
    ensures Open(next, v.rest) && Linked(next, p, v.rest) && (p == NULL <==> v.rest == [])
  {
    RestNull(next, p, v.rest);
  }

  lemma NoMerges(cmp: Cmp, k: nat)
    requires k > 0
    ensures Merges(0, k) == 0 && Pass(cmp, [], k) == []
  {
  }

  lemma RestNull(next: map<int, int>, q: int, rest: seq<int>)
    requires Open(next, rest) && Linked(next, q, rest)
    ensures q == NULL <==> rest == []
    ensures rest != [] ==> q == rest[0]
  {
    if rest != [] { assert rest[0] in rest; }
  }

  lemma NothingLeft(cmp: Cmp, rest: seq<int>, n: nat)
    requires n == 0 || rest == []
    ensures Merge(cmp, [], Take(rest, n)) == [] && Drop(rest, n) == rest
  {
  }

  lemma LinkedDrop(next: map<int, int>, p: int, s: seq<int>, k: nat)
    requires Linked(next, p, s)
    ensures Linked(next, At(s, k), Drop(s, k))
  {
    var r := Drop(s, k);
    forall i | 0 <= i < |r| ensures r[i] in next && next[r[i]] == At(r, i + 1) {
      assert r[i] == s[k + i];
    }
  }

  lemma SplitRest(next: map<int, int>, list: int, tail: int, p: int, q: int, v: Parts, k: nat)
    requires Mid(next, list, tail, p, p, v) && v.first == [] && v.rest != [] && k > 0
    requires Linked(next, q, Drop(v.rest, k))
    ensures Mid(next, list, tail, p, q, Parts(v.done, Take(v.rest, k), Drop(v.rest, k)))
  {
    var a, b := Take(v.rest, k), Drop(v.rest, k);
    OpenSplit(next, v.rest, k);
    RestNull(next, p, v.rest);
    assert a[0] == v.rest[0];
    hide Linked, Open, Distinct, Take, Drop;
    assert Apart(Parts(v.done, a, b));
    assert Open(next, v.done);
  }

  lemma OpenSplit(next: map<int, int>, s: seq<int>, k: nat)
    requires Open(next, s) && Distinct(s)
    ensures Open(next, Take(s, k)) && Open(next, Drop(s, k)) && Distinct(Take(s, k)) && Distinct(Drop(s, k))
    ensures forall n :: n in s <==> n in Take(s, k) || n in Drop(s, k)
    ensures forall n | n in Take(s, k) :: n !in Drop(s, k)
  {
    var a, b := Take(s, k), Drop(s, k);
    assert s == a + b;
    forall i | 0 <= i < |b| - 1 ensures b[i] in next && next[b[i]] == b[i + 1] {
      assert b[i] == s[k + i] && b[i + 1] == s[k + i + 1];
    }
  }

  lemma StartMid(next: map<int, int>, list: int, s: seq<int>)
    requires Linked(next, list, s) && Open(next, s) && Distinct(s)
    ensures Mid(next, NULL, NULL, list, list, Parts([], [], s))
  {
    hide Linked;
  }

  lemma Done(next: map<int, int>, list: int, tail: int, p: int, v: Parts, s: seq<int>)
    requires Mid(next, list, tail, p, p, v) && v.first == [] && p == NULL && v.done + [] == s && s != [] && v.rest == []
    ensures Open(next, s) && Distinct(s) && list == At(s, 0) && tail == Last(s)
  {
    assert v.done == s;
  }

  lemma PassStep(cmp: Cmp, s: seq<int>, k: nat)
    requires k > 0 && s != []
    ensures Pass(cmp, s, k) == Merge(cmp, Take(s, k), Take(Drop(s, k), k)) + Pass(cmp, Drop(Drop(s, k), k), k)
  {
  }

  lemma MergesStep(s: seq<int>, k: nat)
    requires k > 0 && s != []
    ensures Merges(|s|, k) == 1 + Merges(|Drop(Drop(s, k), k)|, k) && |Drop(Drop(s, k), k)| < |s|
  {
  }

  lemma EndChain(next: map<int, int>, list: int, tail: int, s: seq<int>)
    requires Open(next, s) && Distinct(s) && s != [] && list == At(s, 0) && tail == Last(s)
    ensures Linked(next[tail := NULL], list, s) && Open(next[tail := NULL], s)
  {
    var m := next[tail := NULL];
    forall i | 0 <= i < |s| ensures s[i] in m && m[s[i]] == At(s, i + 1) && s[i] != NULL {
      var n := s[i];
      assert n in s;
    }
  }

  lemma EndOfList(next: map<int, int>, s: seq<int>, i: nat)
    requires Open(next, s) && i <= |s| && At(s, i) == NULL
    ensures i == |s|
  {
    NoNull(next, s);
    assert At(s, i) in s || i == |s|;
  }
}
