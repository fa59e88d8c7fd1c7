/** The worst-case-stack analysis of WCS.py: a depth-first search with a memo and a stack of callers. */
module StackUsage {
  import opened Lists

  /** Functions by number: resolved callees, calls through pointers, own stack use, names without a definition. */
  datatype Graph = Graph(calls: map<int, seq<int>>, ptr: set<int>, local: map<int, nat>, open: map<int, set<string>>)

  datatype Wcs = Unbounded | Bytes(n: nat)

  ghost predicate Closed(g: Graph) {
    && g.local.Keys == g.calls.Keys && g.open.Keys == g.calls.Keys
    && forall f, c | f in g.calls && c in g.calls[f] :: c in g.calls
  }

  predicate Calls(g: Graph, a: int, b: int) { a in g.calls && b in g.calls && b in g.calls[a] }

  /** p is a chain of calls. */
  ghost predicate Path(g: Graph, p: seq<int>) {
    p != [] && p[0] in g.calls && forall i | 0 < i < |p| :: Calls(g, p[i - 1], p[i])
  }

  ghost predicate From(g: Graph, f: int, p: seq<int>) { Path(g, p) && p[0] == f }

  function Last(p: seq<int>): (x: int)
    requires p != []
  {
    p[|p| - 1]
  }

  /** The stack the frames of p take together. */
  function Weight(g: Graph, p: seq<int>): (n: nat) {
    if p == [] then 0 else (if p[0] in g.local then g.local[p[0]] else 0) + Weight(g, p[1..])
  }

  /** p ends in a function that calls through a pointer, or comes back to one of its own. */
  ghost predicate Endless(g: Graph, p: seq<int>) {
    Path(g, p) && (Last(p) in g.ptr || Last(p) in p[..|p| - 1])
  }

  ghost predicate Diverges(g: Graph, f: int) { exists p :: From(g, f, p) && Endless(g, p) }

  /** n bounds the chains of calls from f, and one of them takes n. */
  ghost predicate Peak(g: Graph, f: int, n: nat) {
    && (forall p :: From(g, f, p) ==> Weight(g, p) <= n)
    && exists p :: From(g, f, p) && Weight(g, p) == n
  }

  /** w is the worst-case stack of f. */
  ghost predicate Right(g: Graph, f: int, w: Wcs) {
    match w
    case Unbounded => Diverges(g, f)
    case Bytes(n) => !Diverges(g, f) && Peak(g, f, n)
  }

  /** A call chain from f ends in a function that calls the undefined name u. */
  ghost predicate Opens(g: Graph, f: int, u: string) {
    exists p :: From(g, f, p) && OpenAt(g, Last(p), u)
  }

  predicate OpenAt(g: Graph, f: int, u: string) { f in g.open && u in g.open[f] }

  /** A function has one worst-case stack. */
  lemma RightUnique(g: Graph, f: int, v: Wcs, w: Wcs)
    requires Right(g, f, v) && Right(g, f, w)
    ensures v == w
  {
    if v.Bytes? && w.Bytes? {
      var p :| From(g, f, p) && Weight(g, p) == v.n;
      var q :| From(g, f, q) && Weight(g, q) == w.n;
    }
  }

  // ---- chains one call longer

  lemma Longer(g: Graph, f: int, p: seq<int>)
    requires Path(g, p) && Calls(g, f, p[0])
    ensures From(g, f, [f] + p) && Last([f] + p) == Last(p) && Weight(g, [f] + p) == Weight(g, [f]) + Weight(g, p)
    ensures Endless(g, p) ==> Endless(g, [f] + p)
  {
    var q := [f] + p;
    forall i | 0 < i < |q| ensures Calls(g, q[i - 1], q[i]) {
      assert i > 1 ==> Calls(g, p[i - 2], p[i - 1]);
    }
    assert q[1..] == p && [f][1..] == [];
    assert q[..|q| - 1] == [f] + p[..|p| - 1];
  }

  lemma Shorter(g: Graph, p: seq<int>)
    requires Path(g, p) && |p| > 1
    ensures Path(g, p[1..]) && Calls(g, p[0], p[1]) && Last(p[1..]) == Last(p) && p == [p[0]] + p[1..]
  {
    var q := p[1..];
    forall i | 0 < i < |q| ensures Calls(g, q[i - 1], q[i]) { assert Calls(g, p[i], p[i + 1]); }
  }

  lemma CalleeDiverges(g: Graph, f: int, c: int)
    requires Calls(g, f, c) && Diverges(g, c)
    ensures Diverges(g, f)
  {
    var p :| From(g, c, p) && Endless(g, p);
    Longer(g, f, p);
  }

  /** A function without pointer calls diverges only through one of its callees. */
  lemma DivergesBelow(g: Graph, f: int)
    requires Diverges(g, f) && f !in g.ptr
    ensures exists c :: Calls(g, f, c) && Diverges(g, c)
  {
    var p :| From(g, f, p) && Endless(g, p);
    assert |p| > 1;
    Shorter(g, p);
    var q, c := p[1..], p[1];
    if !Endless(g, q) {
      Round(g, f, q);
    }
    assert Diverges(g, c);
  }

  /** A chain that f calls into and that ends in f comes back to its own start. */
  lemma Round(g: Graph, f: int, q: seq<int>)
    requires Path(g, q) && Last(q) == f && Calls(g, f, q[0])
    ensures From(g, q[0], q + [q[0]]) && Endless(g, q + [q[0]])
  {
    var r := q + [q[0]];
    forall i | 0 < i < |r| ensures Calls(g, r[i - 1], r[i]) {
      assert i < |q| ==> Calls(g, q[i - 1], q[i]);
    }
    assert r[..|r| - 1] == q;
  }

  lemma PtrDiverges(g: Graph, f: int)
    requires f in g.calls && f in g.ptr
    ensures Diverges(g, f)
  {
    assert From(g, f, [f]) && Endless(g, [f]);
  }

  /** A function met again among its own callers diverges. */
  lemma CycleDiverges(g: Graph, parents: seq<int>, f: int)
    requires Path(g, parents + [f]) && f in parents
    ensures Diverges(g, f)
  {
    var k := IndexOf(parents, f);
    var p := parents + [f];
    var q := p[k..];
    forall i | 0 < i < |q| ensures Calls(g, q[i - 1], q[i]) { assert Calls(g, p[k + i - 1], p[k + i]); }
    assert q[0] == f && Last(q) == f;
    assert k > 0 ==> Calls(g, p[k - 1], p[k]);
    assert q[0] in q[..|q| - 1];
    assert From(g, f, q) && Endless(g, q);
  }

  /** m is the largest of the callees' worst cases, or 0. */
  ghost predicate Largest(g: Graph, cs: seq<int>, wcs: map<int, Wcs>, m: nat) {
    && (forall c | c in cs :: c in wcs && wcs[c].Bytes? && wcs[c].n <= m)
    && (m == 0 || exists c :: c in cs && wcs[c].n == m)
  }

  /** The step of the analysis: own stack plus the largest callee. */
  lemma StepRight(g: Graph, f: int, wcs: map<int, Wcs>, m: nat)
    requires Closed(g) && f in g.calls && f !in g.ptr && Largest(g, g.calls[f], wcs, m)
    requires forall c | c in g.calls[f] :: Right(g, c, wcs[c])
    ensures Right(g, f, Bytes(m + g.local[f]))
  {
    forall c | Calls(g, f, c) ensures !Diverges(g, c) { assert Right(g, c, wcs[c]); }
    if Diverges(g, f) { DivergesBelow(g, f); }
    forall p | From(g, f, p) ensures Weight(g, p) <= m + g.local[f] { StepBound(g, f, wcs, m, p); }
    StepReached(g, f, wcs, m);
  }

  lemma StepBound(g: Graph, f: int, wcs: map<int, Wcs>, m: nat, p: seq<int>)
    requires Closed(g) && f in g.calls && Largest(g, g.calls[f], wcs, m) && From(g, f, p)
    requires forall c | c in g.calls[f] :: Right(g, c, wcs[c])
    ensures Weight(g, p) <= m + g.local[f]
  {
    if |p| > 1 {
      Shorter(g, p);
      assert Right(g, p[1], wcs[p[1]]);
      assert From(g, p[1], p[1..]);
    } else {
      assert p[1..] == [];
    }
  }

  lemma StepReached(g: Graph, f: int, wcs: map<int, Wcs>, m: nat)
    requires Closed(g) && f in g.calls && Largest(g, g.calls[f], wcs, m)
    requires forall c | c in g.calls[f] :: Right(g, c, wcs[c])
    ensures exists p :: From(g, f, p) && Weight(g, p) == m + g.local[f]
  {
    assert [f][1..] == [];
    if m == 0 {
      assert From(g, f, [f]) && Weight(g, [f]) == g.local[f];
    } else {
      var c :| c in g.calls[f] && wcs[c].n == m;
      assert Right(g, c, wcs[c]);
      var p :| From(g, c, p) && Weight(g, p) == m;
      Longer(g, f, p);
    }
  }

  /** What f leaves open is its own, or what a callee leaves open. */
  lemma OpensStep(g: Graph, f: int, u: string)
    requires Closed(g) && f in g.calls
    ensures Opens(g, f, u) <==> OpenAt(g, f, u) || exists c :: Calls(g, f, c) && Opens(g, c, u)
  {
    if Opens(g, f, u) {
      var p :| From(g, f, p) && OpenAt(g, Last(p), u);
      if |p| > 1 {
        Shorter(g, p);
        assert From(g, p[1], p[1..]);
      }
    }
    if OpenAt(g, f, u) { assert From(g, f, [f]) && Last([f]) == f; }
    if c :| Calls(g, f, c) && Opens(g, c, u) {
      var p :| From(g, c, p) && OpenAt(g, Last(p), u);
      Longer(g, f, p);
    }
  }

  /** An entry given by hand, for a function without calls, is as computed. */
  lemma ManualRight(g: Graph, f: int)
    requires Closed(g) && f in g.calls && g.calls[f] == [] && f !in g.ptr
    ensures Right(g, f, Bytes(g.local[f]))
  {
    StepRight(g, f, map[], 0);
  }

  // ---- names to functions

  datatype Fxn = Fxn(tu: string, calls: set<string>, ptr: bool, local: nat)

  datatype Found = Fun(f: int) | Missing

  /** `globals` by name; `locals` by name and translation unit. */
  datatype Program = Program(fxns: map<int, Fxn>, globals: map<string, int>, locals: map<string, map<string, int>>)

  ghost predicate Named(pr: Program) {
    && (forall n | n in pr.globals :: pr.globals[n] in pr.fxns)
    && forall n, tu | n in pr.locals && tu in pr.locals[n] :: pr.locals[n][tu] in pr.fxns
  }

  /** `find_fxn`: a global definition wins over one in the caller's own translation unit. */
  function Find(pr: Program, tu: string, n: string): (r: Found) {
    if n in pr.globals then Fun(pr.globals[n])
    else if n in pr.locals && tu in pr.locals[n] then Fun(pr.locals[n][tu])
    else Missing
  }

  /** Every name f calls is resolved, to what `find_fxn` finds, or is listed as unresolved. */
  ghost predicate Resolved(pr: Program, f: int, calls: seq<int>, open: set<string>)
    requires f in pr.fxns
  {
    var x := pr.fxns[f];
    && (forall c :: c in calls <==> exists n :: n in x.calls && Find(pr, x.tu, n) == Fun(c))
    && forall n :: n in open <==> n in x.calls && Find(pr, x.tu, n) == Missing
  }

  method ResolveCalls(pr: Program, f: int) returns (calls: seq<int>, open: set<string>)
    requires f in pr.fxns
    ensures Resolved(pr, f, calls, open)
  {
    var x := pr.fxns[f];
    calls, open := [], {};
    var todo := x.calls;
    while todo != {}
      invariant todo <= x.calls
      invariant forall c :: c in calls <==> exists n :: n in x.calls - todo && Find(pr, x.tu, n) == Fun(c)
      invariant forall n :: n in open <==> n in x.calls - todo && Find(pr, x.tu, n) == Missing
      decreases todo
    {
      var n :| n in todo;
      ghost var was := calls;
      match Find(pr, x.tu, n) {
        case Fun(c) => calls := calls + [c];
        case Missing => open := open + {n};
      }
      assert forall m :: m in x.calls - (todo - {n}) <==> m in x.calls - todo || m == n;
      todo := todo - {n};
    }
  }

  lemma ResolvedKnown(pr: Program, f: int, calls: seq<int>, open: set<string>)
    requires Named(pr) && f in pr.fxns && Resolved(pr, f, calls, open)
    ensures forall c | c in calls :: c in pr.fxns
  {
  }

  /** `resolve_all_calls`, with the functions in the order they are stored. */
  method ResolveAll(pr: Program, fxns: seq<int>) returns (g: Graph)
    requires Named(pr) && forall f :: f in fxns <==> f in pr.fxns
    ensures Closed(g) && g.calls.Keys == pr.fxns.Keys
    ensures forall f | f in pr.fxns :: Resolved(pr, f, g.calls[f], g.open[f])
    ensures forall f | f in pr.fxns :: g.local[f] == pr.fxns[f].local && (f in g.ptr <==> pr.fxns[f].ptr)
  {
    hide Resolved, Find, Named;
    var calls, open := map[], map[];
    var i := 0;
    while i < |fxns|
      invariant i <= |fxns| && calls.Keys == open.Keys <= pr.fxns.Keys
      invariant forall k | 0 <= k < i :: fxns[k] in calls
      invariant forall f | f in calls :: Resolved(pr, f, calls[f], open[f])
    {
      var f := fxns[i];
      assert f in fxns;
      var c, o := ResolveCalls(pr, f);
      calls, open := calls[f := c], open[f := o];
      i := i + 1;
    }
    assert forall f | f in pr.fxns :: f in fxns && f in calls;
    assert calls.Keys == pr.fxns.Keys;
    g := Graph(calls, set f | f in pr.fxns && pr.fxns[f].ptr, map f | f in pr.fxns :: pr.fxns[f].local, open);
    forall f, c | f in g.calls && c in g.calls[f] ensures c in g.calls {
      ResolvedKnown(pr, f, calls[f], open[f]);
    }
  }

  // ---- the memo and the names gathered

  ghost predicate MemoOk(g: Graph, wcs: map<int, Wcs>) {
    forall f | f in wcs :: f in g.calls && Right(g, f, wcs[f])
  }

  /** What is named unresolved is, and bounded functions name all of it. */
  ghost predicate NamesOk(g: Graph, wcs: map<int, Wcs>, names: map<int, set<string>>) {
    && names.Keys == g.calls.Keys
    && (forall f, u | f in names && u in names[f] :: Opens(g, f, u))
    && forall f, u | f in names && f in wcs && wcs[f].Bytes? && Opens(g, f, u) :: u in names[f]
  }

  /** f has its own unresolved names and all those of the callees cs. */
  ghost predicate Gathered(g: Graph, f: int, cs: seq<int>, names: map<int, set<string>>) {
    && f in names
    && forall u :: u in names[f] <==> OpenAt(g, f, u) || exists c :: c in cs && Opens(g, c, u)
  }

  lemma MarkOk(g: Graph, wcs: map<int, Wcs>, names: map<int, set<string>>, f: int)
    requires f in g.calls && MemoOk(g, wcs) && NamesOk(g, wcs, names) && Diverges(g, f)
    ensures MemoOk(g, wcs[f := Unbounded]) && NamesOk(g, wcs[f := Unbounded], names)
  {
    hide Opens, Diverges;
  }

  lemma GatherOk(g: Graph, wcs: map<int, Wcs>, names: map<int, set<string>>, f: int, cs: seq<int>, c: int)
    requires Closed(g) && Calls(g, f, c) && NamesOk(g, wcs, names) && Gathered(g, f, cs, names)
    requires c in wcs && wcs[c].Bytes?
    ensures var more := names[f := names[f] + names[c]]; NamesOk(g, wcs, more) && Gathered(g, f, cs + [c], more)
  {
    hide Opens, OpenAt;
    var more := names[f := names[f] + names[c]];
    forall u ensures Opens(g, f, u) <==> OpenAt(g, f, u) || exists d :: Calls(g, f, d) && Opens(g, d, u) {
      OpensStep(g, f, u);
    }
    forall u ensures u in names[c] <==> Opens(g, c, u) {}
  }

  lemma FinishOk(g: Graph, wcs: map<int, Wcs>, names: map<int, set<string>>, f: int, m: nat)
    requires Closed(g) && f in g.calls && f !in g.ptr && MemoOk(g, wcs) && NamesOk(g, wcs, names)
    requires Largest(g, g.calls[f], wcs, m) && Gathered(g, f, g.calls[f], names)
    ensures MemoOk(g, wcs[f := Bytes(m + g.local[f])]) && NamesOk(g, wcs[f := Bytes(m + g.local[f])], names)
  {
    hide Opens, OpenAt, Diverges, Peak;
    StepRight(g, f, wcs, m);
    forall u ensures Opens(g, f, u) <==> u in names[f] { OpensStep(g, f, u); }
  }

  // ---- the search

  class Analysis {
    const g: Graph
    var wcs: map<int, Wcs>
    var unresolved: map<int, set<string>>
    var parents: seq<int>

    ghost predicate Valid()
      reads this
    {
      Closed(g) && MemoOk(g, wcs) && NamesOk(g, wcs, unresolved)
    }

    /** A function not yet looked at, other than f, names its own unresolved calls. */
    ghost predicate UntouchedBut(f: int)
      reads this
    {
      && g.calls.Keys == unresolved.Keys == g.open.Keys
      && forall x | x in g.calls && x !in wcs && x !in parents && x != f :: unresolved[x] == g.open[x]
    }

    ghost predicate Untouched()
      reads this
    {
      && g.calls.Keys == unresolved.Keys == g.open.Keys
      && forall x | x in g.calls && x !in wcs && x !in parents :: unresolved[x] == g.open[x]
    }

    constructor (g: Graph, manual: set<int>)
      requires Closed(g) && forall f | f in manual :: f in g.calls && g.calls[f] == [] && f !in g.ptr
      ensures this.g == g && Valid() && parents == [] && Untouched()
      ensures wcs == map f | f in manual :: Bytes(g.local[f])
    {
      this.g := g;
      wcs := map f | f in manual :: Bytes(g.local[f]);
      unresolved := g.open;
      parents := [];
      new;
      forall f | f in wcs ensures Right(g, f, wcs[f]) { ManualRight(g, f); }
      forall f, u | f in g.calls ensures Opens(g, f, u) <==>
          OpenAt(g, f, u) || exists c :: Calls(g, f, c) && Opens(g, c, u) {
        OpensStep(g, f, u);
      }
    }

    /** What a search leaves alone: the memo so far, and the functions waiting for it. */
    twostate predicate Kept()
      reads this
    {
      && unresolved.Keys == old(unresolved).Keys && parents == old(parents)
      && (forall x | x in old(wcs) :: x in wcs && wcs[x] == old(wcs)[x])
      && (forall x | x in parents && x in wcs && x !in old(wcs) :: wcs[x].Unbounded?)
      && forall x | x in unresolved && (x in parents || (x in old(wcs) && wcs[x].Bytes?)) ::
           unresolved[x] == old(unresolved)[x]
    }

    /** The same, while f is worked on. */
    twostate predicate KeptBut(f: int)
      reads this
    {
      && unresolved.Keys == old(unresolved).Keys && parents == old(parents)
      && (forall x | x in old(wcs) :: x in wcs && wcs[x] == old(wcs)[x])
      && (forall x | x in parents && x in wcs && x !in old(wcs) :: wcs[x].Unbounded?)
      && forall x | x in unresolved && x != f && (x in parents || (x in old(wcs) && wcs[x].Bytes?)) ::
           unresolved[x] == old(unresolved)[x]
    }

    /** `calc_wcs`. */
    method Calc(f: int)
      requires Valid() && Untouched() && f in g.calls && Distinct(parents) && Path(g, parents + [f])
      modifies this
      ensures Valid() && Untouched() && Kept() && f in wcs
      decreases g.calls.Keys - (set x | x in parents), 1
    {
      hide MemoOk, NamesOk, Path, Distinct, Diverges;
      if f in wcs { return; }
      if f in g.ptr {
        PtrDiverges(g, f);
        MarkOk(g, wcs, unresolved, f);
        wcs := wcs[f := Unbounded];
        return;
      }
      if f in parents {
        CycleDiverges(g, parents, f);
        MarkOk(g, wcs, unresolved, f);
        wcs := wcs[f := Unbounded];
        return;
      }
      CalcCalls(f);
    }

    /** The loop over the calls of f. */
    method CalcCalls(f: int)
      requires Valid() && Untouched() && f in g.calls && f !in wcs && f !in g.ptr && f !in parents
      requires Distinct(parents) && Path(g, parents + [f])
      modifies this
      ensures Valid() && Untouched() && Kept() && f in wcs
      decreases g.calls.Keys - (set x | x in parents), 0, 2
    {
      hide MemoOk, NamesOk, Path, Distinct, Diverges, Largest, Gathered, Right, Opens;
      var callMax, i := 0, 0;
      StartGather(g, f, wcs, unresolved);
      assert g.calls[f][..0] == [];
      while i < |g.calls[f]|
        invariant i <= |g.calls[f]| && Valid() && KeptBut(f) && UntouchedBut(f)
        invariant f in wcs ==> wcs[f].Unbounded?
        invariant Largest(g, g.calls[f][..i], wcs, callMax) && Gathered(g, f, g.calls[f][..i], unresolved)
      {
        var bounded;
        bounded, callMax := AddCall(f, g.calls[f][i], g.calls[f][..i], callMax);
        if !bounded { return; }
        TakeMore(g.calls[f], i);
        i := i + 1;
      }
      TakeAll(g.calls[f], i);
      FinishOk(g, wcs, unresolved, f, callMax);
      wcs := wcs[f := Bytes(callMax + g.local[f])];
    }

    /** One call of f: an unbounded callee makes f unbounded, another counts towards the maximum. */
    method AddCall(f: int, c: int, ghost done: seq<int>, most: nat) returns (bounded: bool, callMax: nat)
      requires Valid() && UntouchedBut(f) && Calls(g, f, c) && f !in parents
      requires Distinct(parents) && Path(g, parents + [f]) && (f in wcs ==> wcs[f].Unbounded?)
      requires Largest(g, done, wcs, most) && Gathered(g, f, done, unresolved)
      modifies this
      ensures Valid() && UntouchedBut(f) && KeptBut(f) && (f in wcs ==> wcs[f].Unbounded?)
      ensures !bounded ==> f in wcs
      ensures bounded ==> Largest(g, done + [c], wcs, callMax) && Gathered(g, f, done + [c], unresolved)
      decreases g.calls.Keys - (set x | x in parents), 0, 1
    {
      hide MemoOk, NamesOk, Path, Distinct, Diverges, Largest, Gathered, Right, Opens;
      ghost var was, names := wcs, unresolved;
      callMax := most;
      Visit(f, c);
      LargestKept(g, done, was, wcs, callMax);
      GatheredKept(g, f, done, names, unresolved);
      if wcs[c] == Unbounded {
        MemoAt(g, wcs, c);
        CalleeDiverges(g, f, c);
        MarkOk(g, wcs, unresolved, f);
        wcs := wcs[f := Unbounded];
        return false, callMax;
      }
      bounded := true;
      LargestMore(g, done, wcs, callMax, c);
      GatherOk(g, wcs, unresolved, f, done, c);
      if wcs[c].n > callMax { callMax := wcs[c].n; }
      unresolved := unresolved[f := unresolved[f] + unresolved[c]];
    }

    /** The search below callee c, with f among the callers. */
    method Visit(f: int, c: int)
      requires Valid() && UntouchedBut(f) && Calls(g, f, c) && f !in parents
      requires Distinct(parents) && Path(g, parents + [f]) && (f in wcs ==> wcs[f].Unbounded?)
      modifies this
      ensures Valid() && UntouchedBut(f) && Kept() && c in wcs && unresolved[f] == old(unresolved)[f]
      ensures f in wcs ==> wcs[f].Unbounded?
      decreases g.calls.Keys - (set x | x in parents), 0, 0
    {
      hide MemoOk, NamesOk;
      ChainMore(g, parents, f, c);
      assert f in g.calls.Keys - (set x | x in parents);
      parents := parents + [f];
      assert f in parents;
      Calc(c);
      parents := parents[..|parents| - 1];
    }

    /** `calc_all_wcs`: every function of the program gets its worst case, whatever the order. */
    method CalcAll(fxns: seq<int>)
      requires Valid() && Untouched() && parents == [] && forall f | f in g.calls :: f in fxns
      requires forall f | f in fxns :: f in g.calls
      modifies this
      ensures forall f | f in g.calls :: f in wcs && Right(g, f, wcs[f])
      ensures unresolved.Keys == g.calls.Keys
      ensures forall f, u | f in g.calls && wcs[f].Bytes? :: u in unresolved[f] <==> Opens(g, f, u)
      ensures forall f, u | f in g.calls && u in unresolved[f] :: Opens(g, f, u)
    {
      hide Right, Opens;
      var i := 0;
      while i < |fxns|
        invariant i <= |fxns| && Valid() && Untouched() && parents == []
        invariant forall k | 0 <= k < i :: fxns[k] in wcs
      {
        ghost var was := wcs;
        Calc(fxns[i]);
        assert forall x | x in was :: x in wcs;
        i := i + 1;
      }
    }
  }

  lemma TakeMore(s: seq<int>, i: nat)
    requires i < |s|
    ensures s[..i] + [s[i]] == s[..i + 1]
  {
  }

  lemma TakeAll(s: seq<int>, i: nat)
    requires i == |s|
    ensures s[..i] == s
  {
  }

  lemma ChainMore(g: Graph, parents: seq<int>, f: int, c: int)
    requires Path(g, parents + [f]) && Calls(g, f, c)
    ensures Path(g, parents + [f] + [c])
  {
    var p := parents + [f] + [c];
    forall i | 0 < i < |p| ensures Calls(g, p[i - 1], p[i]) {
      assert i < |p| - 1 ==> Calls(g, (parents + [f])[i - 1], (parents + [f])[i]);
    }
  }

  lemma MemoAt(g: Graph, wcs: map<int, Wcs>, c: int)
    requires MemoOk(g, wcs) && c in wcs && wcs[c].Unbounded?
    ensures Diverges(g, c)
  {
  }

  lemma StartGather(g: Graph, f: int, wcs: map<int, Wcs>, names: map<int, set<string>>)
    requires f in names && f in g.open && names[f] == g.open[f]
    ensures Gathered(g, f, [], names) && Largest(g, [], wcs, 0)
  {
  }

  lemma GatheredKept(g: Graph, f: int, cs: seq<int>, names: map<int, set<string>>, now: map<int, set<string>>)
    requires Gathered(g, f, cs, names) && f in now && now[f] == names[f]
    ensures Gathered(g, f, cs, now)
  {
  }

  lemma LargestKept(g: Graph, cs: seq<int>, was: map<int, Wcs>, wcs: map<int, Wcs>, m: nat)
    requires Largest(g, cs, was, m) && forall x | x in was :: x in wcs && wcs[x] == was[x]
    ensures Largest(g, cs, wcs, m)
  {
  }

  lemma LargestMore(g: Graph, cs: seq<int>, wcs: map<int, Wcs>, m: nat, c: int)
    requires Largest(g, cs, wcs, m) && c in wcs && wcs[c].Bytes?
    ensures Largest(g, cs + [c], wcs, if wcs[c].n > m then wcs[c].n else m)
  {
    assert c in cs + [c];
    if m > 0 {
      var d :| d in cs && wcs[d].n == m;
      assert d in cs + [c];
    }
  }
}
