/** The heap of slab.c: zones, large blocks and free pages together. */
module SlabHeap {
  import opened Lists
  import opened PageList
  import opened Slab

  /** What `memusage` says of a page. */
  datatype Usage = Unused | Small(off: nat) | Large(pages: nat)

  /** `held` keeps the page runs taken from the page allocator: the page table, zones, retired zones, large blocks. */
  datatype Heap = Heap(size: nat, table: int, list: seq<Run>, usage: map<int, Usage>, zones: map<int, Zone>,
                       arrays: seq<seq<int>>, retired: seq<int>, held: map<int, nat>)

  // ---- pages

  ghost predicate HeldOk(list: seq<Run>, held: map<int, nat>) {
    && Canonical(list)
    && (forall a | a in held :: held[a] > 0 && Outside(list, a, held[a]))
    && forall a, b | a in held && b in held && a < b :: Ahead(held, a, b)
  }

  /** The run at a ends before b. */
  ghost predicate Ahead(held: map<int, nat>, a: int, b: int)
    requires a in held
  {
    a + held[a] <= b
  }

  lemma CutHeld(list: seq<Run>, held: map<int, nat>, k: nat, n: nat)
    requires HeldOk(list, held) && k < |list| && 0 < n <= list[k].pages
    ensures var a := list[k].first;
            && HeldOk(Cut(list, k, n), held[a := n]) && a !in held
            && forall b | b in held :: b + held[b] <= a || a + n <= b
  {
    var a, r := list[k].first, Cut(list, k, n);
    CutCanonical(list, k, n);
    CutOutside(list, k, n);
    forall b | b in held ensures b + held[b] <= a || a + n <= b {
      assert Outside(list, b, held[b]);
    }
    var more := held[a := n];
    forall b, c | b in more && c in more && b < c ensures Ahead(more, b, c) {
      assert b != a && c != a ==> Ahead(held, b, c);
    }
    forall b | b in held ensures Outside(r, b, held[b]) {
      assert Outside(list, b, held[b]);
      CutWithin(list, k, n, b, held[b]);
    }
  }

  lemma CutWithin(list: seq<Run>, k: nat, n: nat, b: int, m: nat)
    requires k < |list| && 0 < n <= list[k].pages && Outside(list, b, m)
    ensures Outside(Cut(list, k, n), b, m)
  {
    var r := Cut(list, k, n);
    if list[k].pages == n { DeleteAtIndex(list, k); }
    forall i | 0 <= i < |r| ensures r[i].End() <= b || b + m <= r[i].first {
      var j := if list[k].pages == n && i >= k then i + 1 else i;
      assert list[j].End() <= b || b + m <= list[j].first;
    }
  }

  lemma ReturnHeld(list: seq<Run>, held: map<int, nat>, a: int)
    requires HeldOk(list, held) && a in held
    ensures HeldOk(Return(list, Spot(list, a, held[a], 0), a, held[a]), held - {a})
  {
    var n := held[a];
    var k := Spot(list, a, n, 0);
    ReturnCanonical(list, a, n);
    var less := held - {a};
    forall b, c | b in less && c in less && b < c ensures Ahead(less, b, c) {
      assert Ahead(held, b, c);
    }
    forall b | b in held - {a} ensures Outside(Return(list, k, a, n), b, held[b]) {
      assert b in held && (if a < b then Ahead(held, a, b) else Ahead(held, b, a));
      ReturnWithin(list, k, a, n, b, held[b]);
    }
  }

  lemma ReturnWithin(list: seq<Run>, k: nat, a: int, n: nat, b: int, m: nat)
    requires k <= |list| && Outside(list, b, m) && m > 0 && n > 0 && (a + n <= b || b + m <= a)
    requires forall i | 0 <= i < |list| :: list[i].pages > 0
    ensures Outside(Return(list, k, a, n), b, m)
  {
    hide Patch;
    assert k < |list| ==> list[k].End() <= b || b + m <= list[k].first;
    assert k + 1 < |list| ==> list[k + 1].End() <= b || b + m <= list[k + 1].first;
    if k < |list| && list[k].End() == a {
      if k + 1 < |list| && list[k + 1].first == a + n {
        PatchWithin(list, k, 2, Run(list[k].first, list[k].pages + n + list[k + 1].pages), b, m);
      } else {
        PatchWithin(list, k, 1, Run(list[k].first, list[k].pages + n), b, m);
      }
    } else if k < |list| && list[k].first == a + n {
      PatchWithin(list, k, 1, Run(a, list[k].pages + n), b, m);
    } else {
      PatchWithin(list, k, 0, Run(a, n), b, m);
    }
  }

  lemma PatchWithin(list: seq<Run>, k: nat, d: nat, r: Run, b: int, m: nat)
    requires k + d <= |list| && Outside(list, b, m) && (r.End() <= b || b + m <= r.first)
    ensures Outside(Patch(list, k, d, r), b, m)
  {
    hide Patch;
    PatchIs(list, k, d, r);
    var s := Patch(list, k, d, r);
    forall i | 0 <= i < |s| ensures s[i].End() <= b || b + m <= s[i].first {
      if i != k { assert s[i] == list[if i < k then i else i + d - 1]; }
    }
  }

  // ---- the invariant

  function Span(size: nat): (n: nat) { size / PAGE }

  /** Every page of a zone knows its distance from the zone's first page. */
  ghost predicate Marked(usage: map<int, Usage>, z: int, n: nat) {
    forall o: nat | o < n :: MarkedAt(usage, z, o)
  }

  predicate MarkedAt(usage: map<int, Usage>, z: int, o: nat) { z + o in usage && usage[z + o] == Small(o) }

  ghost predicate SizeOk(size: nat) { size == 32768 || size == 65536 || size == 131072 }

  /** The run of a whole zone is held, and its pages are marked. */
  ghost predicate Owned(h: Heap, z: int) {
    z in h.held && h.held[z] == Span(h.size) && Marked(h.usage, z, Span(h.size))
  }

  ghost predicate ZonesOk(h: Heap) {
    forall z | z in h.zones :: Owned(h, z) && ZoneOk(z, h.zones[z], h.size)
  }

  ghost predicate RetiredOk(h: Heap) {
    && Distinct(h.retired) && |h.retired| <= THRESH
    && forall z | z in h.retired :: Owned(h, z) && z !in h.zones
  }

  predicate IsLarge(h: Heap, a: int) { a in h.held && a != h.table && a !in h.zones && a !in h.retired }

  ghost predicate LargesOk(h: Heap) {
    forall a | IsLarge(h, a) :: a in h.usage && a in h.held && h.usage[a] == Large(h.held[a])
  }

  /** A zone is on the list of its index exactly while it has a free chunk. */
  ghost predicate ArraysOk(h: Heap) {
    && |h.arrays| == NZONES
    && (forall i | 0 <= i < NZONES :: Distinct(h.arrays[i]))
    && forall i, z | 0 <= i < NZONES ::
         z in h.arrays[i] <==> z in h.zones && h.zones[z].index == i && h.zones[z].nfree > 0
  }

  ghost predicate TableOk(h: Heap) { h.table in h.held && h.table !in h.zones && h.table !in h.retired }

  ghost predicate HeapInv(h: Heap) {
    && SizeOk(h.size) && HeldOk(h.list, h.held) && TableOk(h)
    && ZonesOk(h) && RetiredOk(h) && LargesOk(h) && ArraysOk(h)
  }

  ghost predicate LiveChunk(h: Heap, z: int, k: nat, p: int) {
    z in h.zones && LiveSlot(h.zones[z], k) && p == Slot(h.zones[z], k)
  }

  ghost predicate ChunkAt(h: Heap, z: int, k: nat, p: int, c: nat) {
    LiveChunk(h, z, k, p) && h.zones[z].chunk == c
  }

  ghost predicate LargeAt(h: Heap, a: int, p: int, c: nat) {
    IsLarge(h, a) && p == a * PAGE && c == h.held[a] * PAGE
  }

  /** The c bytes at p have been handed out and not been freed. */
  ghost predicate Live(h: Heap, p: int, c: nat) {
    (exists z, k: nat :: ChunkAt(h, z, k, p, c)) || (exists a :: LargeAt(h, a, p, c))
  }

  /** A chunk lies inside its zone, behind the header. */
  lemma SlotInZone(z: int, x: Zone, size: nat, k: nat)
    requires ZoneOk(z, x, size) && k <= x.uindex
    ensures z * PAGE + HDR <= Slot(x, k) && Slot(x, k) + x.chunk <= z * PAGE + size
  {
    SlotsApart(x, k, x.nmax);
    if k > 0 { SlotsApart(x, 0, k); }
  }

  /** An address inside a held run is inside no other. */
  lemma OneHolder(list: seq<Run>, held: map<int, nat>, a: int, b: int, p: int)
    requires HeldOk(list, held) && a in held && b in held
    requires a * PAGE <= p < (a + held[a]) * PAGE && b * PAGE <= p < (b + held[b]) * PAGE
    ensures a == b
  {
    assert a < b ==> Ahead(held, a, b);
    assert b < a ==> Ahead(held, b, a);
  }

  lemma ChunkHolder(h: Heap, z: int, k: nat, p: int)
    requires HeapInv(h) && LiveChunk(h, z, k, p)
    ensures z in h.held && z * PAGE < p < (z + h.held[z]) * PAGE
    ensures z <= p / PAGE < z + Span(h.size)
  {
    SlotInZone(z, h.zones[z], h.size, k);
  }

  /** What a live chunk and its address say about each other. */
  lemma ChunkUnique(h: Heap, z: int, k: nat, y: int, j: nat, p: int)
    requires HeapInv(h) && LiveChunk(h, z, k, p) && LiveChunk(h, y, j, p)
    ensures z == y && k == j
  {
    ChunkHolder(h, z, k, p);
    ChunkHolder(h, y, j, p);
    OneHolder(h.list, h.held, z, y, p);
    if k != j { SlotsDiffer(h.zones[z], k, j); }
  }

  /** The c bytes at p lie in the held run that starts at page a. */
  predicate Inside(h: Heap, a: int, p: int, c: nat) {
    a in h.held && a * PAGE <= p && p + c <= (a + h.held[a]) * PAGE
  }

  /** No two live blocks share a byte. */
  lemma LiveApart(h: Heap, p: int, c: nat, q: int, d: nat)
    requires HeapInv(h) && Live(h, p, c) && Live(h, q, d) && p != q
    ensures p + c <= q || q + d <= p
  {
    hide HeapInv, ChunkAt, LargeAt;
    if z, k: nat :| ChunkAt(h, z, k, p, c) {
      ChunkInside(h, z, k, p, c);
      if y, j: nat :| ChunkAt(h, y, j, q, d) {
        ChunkInside(h, y, j, q, d);
        if z == y { ChunksApart(h, z, k, p, j, q, c, d); } else { RunsApart(h, z, p, c, y, q, d); }
      } else {
        var b :| LargeAt(h, b, q, d);
        LargeInside(h, b, q, d);
        RunsApart(h, z, p, c, b, q, d);
      }
    } else {
      var a :| LargeAt(h, a, p, c);
      LargeInside(h, a, p, c);
      if y, j: nat :| ChunkAt(h, y, j, q, d) {
        ChunkInside(h, y, j, q, d);
        RunsApart(h, a, p, c, y, q, d);
      } else {
        var b :| LargeAt(h, b, q, d);
        LargeInside(h, b, q, d);
        LargesDiffer(h, a, p, c, b, q, d);
        RunsApart(h, a, p, c, b, q, d);
      }
    }
  }

  lemma LargesDiffer(h: Heap, a: int, p: int, c: nat, b: int, q: int, d: nat)
    requires LargeAt(h, a, p, c) && LargeAt(h, b, q, d) && p != q
    ensures a != b
  {
  }

  lemma ChunkInside(h: Heap, z: int, k: nat, p: int, c: nat)
    requires HeapInv(h) && ChunkAt(h, z, k, p, c)
    ensures Inside(h, z, p, c) && z in h.zones
  {
    SlotInZone(z, h.zones[z], h.size, k);
  }

  lemma LargeInside(h: Heap, a: int, p: int, c: nat)
    requires LargeAt(h, a, p, c)
    ensures Inside(h, a, p, c) && a !in h.zones
  {
  }

  lemma RunsApart(h: Heap, a: int, p: int, c: nat, b: int, q: int, d: nat)
    requires HeapInv(h) && a != b && Inside(h, a, p, c) && Inside(h, b, q, d)
    ensures p + c <= q || q + d <= p
  {
    assert if a < b then Ahead(h.held, a, b) else Ahead(h.held, b, a);
  }

  lemma ChunksApart(h: Heap, z: int, k: nat, p: int, j: nat, q: int, c: nat, d: nat)
    requires ChunkAt(h, z, k, p, c) && ChunkAt(h, z, j, q, d) && p != q
    ensures p + c <= q || q + d <= p
  {
    if k < j { SlotsApart(h.zones[z], k, j); } else if j < k { SlotsApart(h.zones[z], j, k); }
  }

  ghost predicate ChunkOf(h: Heap, z: int, p: int, c: nat) { exists k: nat :: ChunkAt(h, z, k, p, c) }

  /** The page table leads from the address of a live block to its zone, or to the size of its run. */
  lemma Lookup(h: Heap, p: int, c: nat)
    requires HeapInv(h) && Live(h, p, c)
    ensures p / PAGE in h.usage
    ensures match h.usage[p / PAGE]
            case Large(n) => LargeAt(h, p / PAGE, p, c) && n == h.held[p / PAGE]
            case Small(off) => ChunkOf(h, p / PAGE - off, p, c)
            case Unused => false
  {
    if z, k: nat :| ChunkAt(h, z, k, p, c) {
      ChunkHolder(h, z, k, p);
      assert MarkedAt(h.usage, z, p / PAGE - z);
    } else {
      var a :| LargeAt(h, a, p, c);
      assert p / PAGE == a;
    }
  }

  /** Page x is free or in a held run. */
  ghost predicate Tracked(h: Heap, x: int) {
    Has(h.list, x) || exists a :: Holds(h.held, a, x)
  }

  predicate Holds(held: map<int, nat>, a: int, x: int) { a in held && a <= x < a + held[a] }

  /** No page gets lost, and none appears. */
  ghost predicate SamePages(h: Heap, u: Heap) {
    forall x :: Tracked(h, x) <==> Tracked(u, x)
  }

  lemma CutTracks(h: Heap, u: Heap, k: nat, n: nat)
    requires HeldOk(h.list, h.held) && k < |h.list| && 0 < n <= h.list[k].pages
    requires u.list == Cut(h.list, k, n) && u.held == h.held[h.list[k].first := n]
    ensures SamePages(h, u)
  {
    hide HeldOk, Has;
    var a := h.list[k].first;
    CutHeld(h.list, h.held, k, n);
    forall x ensures Tracked(h, x) <==> Tracked(u, x) {
      CutCovers(h.list, h.held, k, n, x);
      assert forall b :: Holds(u.held, b, x) <==> Holds(h.held, b, x) || (b == a && a <= x < a + n);
      assert Holds(u.held, a, x) <==> a <= x < a + n;
    }
  }

  lemma CutCovers(list: seq<Run>, held: map<int, nat>, k: nat, n: nat, x: int)
    requires HeldOk(list, held) && k < |list| && 0 < n <= list[k].pages
    ensures Has(Cut(list, k, n), x) <==> Has(list, x) && !(list[k].first <= x < list[k].first + n)
    ensures list[k].first <= x < list[k].first + n ==> Has(list, x)
  {
    CutPages(list, k, n, x);
    HasAt(list, k, x);
  }

  lemma ReturnTracks(h: Heap, u: Heap, a: int)
    requires HeldOk(h.list, h.held) && a in h.held && u.held == h.held - {a}
    requires u.list == Return(h.list, Spot(h.list, a, h.held[a], 0), a, h.held[a])
    ensures SamePages(h, u)
  {
    hide Has, Return;
    forall x ensures Tracked(h, x) <==> Tracked(u, x) {
      ReturnPages(h.list, a, h.held[a], x);
      assert forall b :: Holds(u.held, b, x) <==> Holds(h.held, b, x) && b != a;
      assert Holds(h.held, a, x) <==> a <= x < a + h.held[a];
    }
  }

  // ---- the calls

  /** A large block: n pages from the front of the first run that has them. */
  function TakeLarge(h: Heap, n: nat): (r: (Heap, int))
    requires n > 0 && FirstFit(h.list, n, 0) < |h.list|
  {
    var k := FirstFit(h.list, n, 0);
    var a := h.list[k].first;
    (h.(list := Cut(h.list, k, n), usage := h.usage[a := Large(n)], held := h.held[a := n]), a * PAGE)
  }

  function FreeLarge(h: Heap, a: int): (u: Heap)
    requires a in h.held && h.held[a] > 0
  {
    var n := h.held[a];
    h.(list := Return(h.list, Spot(h.list, a, n, 0), a, n), usage := h.usage[a := Large(0)], held := h.held - {a})
  }

  /** A chunk from the first zone on list i. */
  function TakeChunk(h: Heap, i: nat): (r: (Heap, int))
    requires i < |h.arrays| && h.arrays[i] != [] && h.arrays[i][0] in h.zones
    requires var x := h.zones[h.arrays[i][0]]; x.nfree > 0 && (x.uindex + 1 == x.nmax ==> x.free != [])
  {
    var z := h.arrays[i][0];
    var (y, p) := Take(h.zones[z]);
    (h.(zones := h.zones[z := y], arrays := if y.nfree == 0 then h.arrays[i := h.arrays[i][1..]] else h.arrays), p)
  }

  /** How many chunks fit. */
  function Room(space: int, c: nat): (n: nat)
    requires space >= 2 * c > 0
    ensures n >= 2 && n * c <= space
  {
    space / c
  }

  /** The header of a new zone: its first chunk is handed out at once. */
  function Fresh(z: int, i: nat, size: nat): (x: Zone)
    requires i < NZONES && SizeOk(size) && 4 * ChunkSize(i) <= size
  {
    var c := ChunkSize(i);
    var off := Offset(c);
    var n := Room(size - off, c);
    Zone(i, c, z * PAGE + off, n, n - 1, 0, [])
  }

  /** Zone z, already held and marked, is laid out for list i and gives its first chunk. */
  function OpenZone(h: Heap, z: int, i: nat): (r: (Heap, int))
    requires i < NZONES && |h.arrays| == NZONES && SizeOk(h.size) && 4 * ChunkSize(i) <= h.size
  {
    var x := Fresh(z, i, h.size);
    (h.(zones := h.zones[z := x], arrays := h.arrays[i := [z] + h.arrays[i]]), Slot(x, 0))
  }

  /** Whole zone from the list of retired ones. */
  function Reuse(h: Heap): (r: (Heap, int))
    requires h.retired != []
  {
    (h.(retired := h.retired[1..]), h.retired[0])
  }

  function Mark(usage: map<int, Usage>, z: int, n: nat): (u: map<int, Usage>) {
    if n == 0 then usage else Mark(usage, z, n - 1)[z + (n - 1) := Small(n - 1)]
  }

  function Unmark(usage: map<int, Usage>, z: int, n: nat): (u: map<int, Usage>) {
    if n == 0 then usage else Unmark(usage, z, n - 1)[z + (n - 1) := Unused]
  }

  /** Whole zone from the page allocator. */
  function Grab(h: Heap): (r: (Heap, int))
    requires SizeOk(h.size) && FirstFit(h.list, Span(h.size), 0) < |h.list|
  {
    var n := Span(h.size);
    var k := FirstFit(h.list, n, 0);
    var z := h.list[k].first;
    (h.(list := Cut(h.list, k, n), usage := Mark(h.usage, z, n), held := h.held[z := n]), z)
  }

  /** `rt_free` of a chunk, up to the retirement of its zone. */
  function PutChunk(h: Heap, z: int, p: int): (u: Heap)
    requires z in h.zones && h.zones[z].index < |h.arrays|
  {
    var x := h.zones[z];
    h.(zones := h.zones[z := Put(x, p)],
       arrays := if x.nfree == 0 then h.arrays[x.index := [z] + h.arrays[x.index]] else h.arrays)
  }

  /** A zone without live chunks, not the only one of its list, becomes a retired zone. */
  predicate Retires(h: Heap, z: int)
    requires z in h.zones && h.zones[z].index < |h.arrays|
  {
    h.zones[z].nfree == h.zones[z].nmax && |h.arrays[h.zones[z].index]| > 1
  }

  function Retire(h: Heap, z: int): (u: Heap)
    requires z in h.zones && h.zones[z].index < |h.arrays|
  {
    var i := h.zones[z].index;
    h.(zones := h.zones - {z}, arrays := h.arrays[i := Without(h.arrays[i], z)], retired := [z] + h.retired)
  }

  /** Beyond the threshold the newest retired zone goes back to the page allocator. */
  function Release(h: Heap): (u: Heap)
    requires h.retired != [] && h.retired[0] in h.held && h.held[h.retired[0]] > 0
  {
    var z := h.retired[0];
    var n := h.held[z];
    h.(retired := h.retired[1..], usage := Unmark(h.usage, z, n), held := h.held - {z},
       list := Return(h.list, Spot(h.list, z, n, 0), z, n))
  }

  // ---- they keep the invariant and change one live address

  /** Same live blocks, of the same sizes, but for the c bytes at p, which are new. */
  ghost predicate Adds(h: Heap, u: Heap, p: int, c: nat) {
    && (forall d :: !Live(h, p, d))
    && forall q, d :: Live(u, q, d) <==> Live(h, q, d) || (q == p && d == c)
  }

  ghost predicate Drops(h: Heap, u: Heap, p: int) {
    && (exists c :: Live(h, p, c))
    && forall q, d :: Live(u, q, d) <==> Live(h, q, d) && q != p
  }

  ghost predicate SameLive(h: Heap, u: Heap) {
    forall q, d :: Live(u, q, d) <==> Live(h, q, d)
  }

  /** A page just taken from the free list belongs to no held run. */
  lemma NewPages(h: Heap, n: nat)
    requires HeapInv(h) && n > 0 && FirstFit(h.list, n, 0) < |h.list|
    ensures var k := FirstFit(h.list, n, 0);
            var a := h.list[k].first;
            && HeldOk(Cut(h.list, k, n), h.held[a := n]) && a !in h.held && a !in h.zones && a !in h.retired
            && forall b | b in h.held :: b + h.held[b] <= a || a + n <= b
  {
    CutHeld(h.list, h.held, FirstFit(h.list, n, 0), n);
  }

  lemma TakeLargeKeeps(h: Heap, n: nat)
    requires HeapInv(h) && n > 0 && FirstFit(h.list, n, 0) < |h.list|
    ensures var (u, p) := TakeLarge(h, n); HeapInv(u) && Adds(h, u, p, n * PAGE)
  {
    hide ZoneOk, HeldOk, Canonical, Live, Marked;
    var (u, p) := TakeLarge(h, n);
    NewPages(h, n);
    var a := h.list[FirstFit(h.list, n, 0)].first;
    forall z | z in h.held && Owned(h, z) ensures Owned(u, z) { OwnedFrame(h, u, z, a, n); }
    assert a !in h.held;
    assert ZonesOk(u);
    assert RetiredOk(u);
    assert LargesOk(u);
    assert ArraysOk(u);
    LargeAdds(h, u, a, n);
  }

  /** Changes to the pages [a, a + n) alone leave a zone elsewhere owned. */
  lemma OwnedFrame(h: Heap, u: Heap, z: int, a: int, n: nat)
    requires Owned(h, z) && u.size == h.size && z in u.held && u.held[z] == h.held[z]
    requires z + h.held[z] <= a || a + n <= z
    requires forall x | x in h.usage && !(a <= x < a + n) :: x in u.usage && u.usage[x] == h.usage[x]
    ensures Owned(u, z)
  {
    forall o: nat | o < Span(h.size) ensures MarkedAt(u.usage, z, o) { assert MarkedAt(h.usage, z, o); }
  }

  lemma LargeAdds(h: Heap, u: Heap, a: int, n: nat)
    requires HeapInv(h) && a !in h.held && u.table == h.table
    requires u.zones == h.zones && u.retired == h.retired && u.held == h.held[a := n]
    requires n > 0 && forall b | b in h.held :: b + h.held[b] <= a || a + n <= b
    ensures Adds(h, u, a * PAGE, n * PAGE)
  {
    if z, k: nat :| LiveChunk(h, z, k, a * PAGE) { ChunkHolder(h, z, k, a * PAGE); }
    assert forall d :: !Live(h, a * PAGE, d);
    forall q, d ensures Live(u, q, d) <==> Live(h, q, d) || (q == a * PAGE && d == n * PAGE) {
      LargeOrChunk(h, u, a, n, q, d);
    }
  }

  lemma LargeOrChunk(h: Heap, u: Heap, a: int, n: nat, q: int, d: nat)
    requires u.zones == h.zones && u.retired == h.retired && u.table == h.table && u.held == h.held[a := n]
    requires a !in h.held && a !in h.zones && a !in h.retired && a != h.table
    ensures Live(u, q, d) <==> Live(h, q, d) || (q == a * PAGE && d == n * PAGE)
  {
    hide LiveSlot, Slot;
    assert forall z, k: nat :: ChunkAt(u, z, k, q, d) <==> ChunkAt(h, z, k, q, d);
    assert forall b :: LargeAt(u, b, q, d) <==> LargeAt(h, b, q, d) || (b == a && q == a * PAGE && d == n * PAGE);
    assert q == a * PAGE && d == n * PAGE ==> LargeAt(u, a, q, d);
  }

  lemma FreeLargeKeeps(h: Heap, a: int)
    requires HeapInv(h) && IsLarge(h, a)
    ensures h.held[a] > 0 && HeapInv(FreeLarge(h, a)) && Drops(h, FreeLarge(h, a), a * PAGE)
  {
    hide ZoneOk, Canonical, Live, Marked, Outside;
    var u := FreeLarge(h, a);
    ReturnHeld(h.list, h.held, a);
    forall z | z in h.held && z != a && Owned(h, z) ensures Owned(u, z) {
      assert if z < a then Ahead(h.held, z, a) else Ahead(h.held, a, z);
      OwnedFrame(h, u, z, a, h.held[a]);
    }
    assert ZonesOk(u);
    assert RetiredOk(u);
    assert LargesOk(u);
    assert ArraysOk(u);
    LargeDrops(h, u, a);
  }

  lemma LargeDrops(h: Heap, u: Heap, a: int)
    requires HeapInv(h) && IsLarge(h, a) && u.table == h.table
    requires u.zones == h.zones && u.retired == h.retired && u.held == h.held - {a}
    ensures Drops(h, u, a * PAGE)
  {
    var p := a * PAGE;
    var c := h.held[a] * PAGE;
    assert LargeAt(h, a, p, c);
    assert Live(h, p, c);
    forall z, k: nat ensures !LiveChunk(h, z, k, p) {
      if LiveChunk(h, z, k, p) {
        ChunkHolder(h, z, k, p);
        OneHolder(h.list, h.held, z, a, p);
      }
    }
    forall q, d ensures Live(u, q, d) <==> Live(h, q, d) && q != p {
      LargeGone(h, u, a, q, d);
    }
  }

  lemma LargeGone(h: Heap, u: Heap, a: int, q: int, d: nat)
    requires u.zones == h.zones && u.retired == h.retired && u.table == h.table && u.held == h.held - {a}
    requires IsLarge(h, a) && forall z, k: nat :: !LiveChunk(h, z, k, a * PAGE)
    ensures Live(u, q, d) <==> Live(h, q, d) && q != a * PAGE
  {
    hide LiveSlot, Slot;
    assert forall z, k: nat :: ChunkAt(u, z, k, q, d) <==> ChunkAt(h, z, k, q, d) && q != a * PAGE;
    assert forall b :: LargeAt(u, b, q, d) <==> LargeAt(h, b, q, d) && q != a * PAGE;
  }

  /** What a change of chunk k of zone z, at p, means for the live blocks. */
  ghost predicate ChunkStep(h: Heap, u: Heap, z: int, k: nat, p: int, c: nat) {
    && (forall b, q, d :: LargeAt(u, b, q, d) <==> LargeAt(h, b, q, d))
    && forall y, j: nat, q, d ::
         ChunkAt(u, y, j, q, d) <==> ChunkAt(h, y, j, q, d) || (y == z && j == k && q == p && d == c)
  }

  lemma StepAdds(h: Heap, u: Heap, z: int, k: nat, p: int, c: nat)
    requires HeapInv(u) && ChunkAt(u, z, k, p, c) && !LiveChunk(h, z, k, p) && ChunkStep(h, u, z, k, p, c)
    ensures Adds(h, u, p, c)
  {
    hide HeapInv, LiveSlot, LargeAt, LiveChunk;
    forall y, j: nat, d | ChunkAt(u, y, j, p, d) ensures y == z && j == k { ChunkUnique(u, z, k, y, j, p); }
    NoLargeAt(u, z, k, p);
    forall q, d ensures Live(u, q, d) <==> Live(h, q, d) || (q == p && d == c) {
      assert q == p && d == c ==> ChunkAt(u, z, k, q, d);
    }
    forall d ensures !Live(h, p, d) {
      assert forall b :: !LargeAt(u, b, p, d);
      assert forall y, j: nat :: ChunkAt(h, y, j, p, d) ==> ChunkAt(u, y, j, p, d);
    }
  }

  /** One zone's record changes: one chunk of it becomes live, or stops being live. */
  lemma ChunkAdds(h: Heap, u: Heap, z: int, k: nat, p: int)
    requires HeapInv(u) && u.table == h.table && u.held == h.held && u.retired == h.retired
    requires u.zones.Keys == h.zones.Keys && LiveChunk(u, z, k, p) && !LiveSlot(h.zones[z], k)
    requires h.zones[z].base == u.zones[z].base && h.zones[z].chunk == u.zones[z].chunk
    requires forall j: nat | j != k :: LiveSlot(u.zones[z], j) <==> LiveSlot(h.zones[z], j)
    requires forall y | y in h.zones && y != z :: u.zones[y] == h.zones[y]
    ensures Adds(h, u, p, u.zones[z].chunk)
  {
    hide HeapInv, LiveSlot;
    StepAdds(h, u, z, k, p, u.zones[z].chunk);
  }

  lemma NoLargeAt(h: Heap, z: int, k: nat, p: int)
    requires HeapInv(h) && LiveChunk(h, z, k, p)
    ensures forall a, c :: !LargeAt(h, a, p, c)
  {
    ChunkHolder(h, z, k, p);
    forall a, c ensures !LargeAt(h, a, p, c) {
      if LargeAt(h, a, p, c) {
        assert Outside(h.list, a, h.held[a]);
        OneHolder(h.list, h.held, z, a, p);
      }
    }
  }

  lemma TakeChunkOk(h: Heap, i: nat)
    requires HeapInv(h) && i < NZONES && h.arrays[i] != []
    ensures h.arrays[i][0] in h.zones
    ensures var x := h.zones[h.arrays[i][0]];
            x.index == i && x.chunk == ChunkSize(i) && x.nfree > 0 && (x.uindex + 1 == x.nmax ==> x.free != [])
  {
    var z := h.arrays[i][0];
    assert z in h.arrays[i];
    var k := TakeKeeps(z, h.zones[z], h.size);
  }

  /** Taking a chunk off a zone: never one that is live. */
  lemma TakeChunkKeeps(h: Heap, i: nat)
    requires HeapInv(h) && i < NZONES && h.arrays[i] != []
    ensures h.arrays[i][0] in h.zones
    ensures var x := h.zones[h.arrays[i][0]]; x.nfree > 0 && (x.uindex + 1 == x.nmax ==> x.free != [])
    ensures var (u, p) := TakeChunk(h, i);
            HeapInv(u) && Adds(h, u, p, ChunkSize(i)) && ChunkOf(u, h.arrays[i][0], p, ChunkSize(i))
  {
    hide ZoneOk, HeldOk, Marked, LiveSlot, Slot;
    TakeChunkOk(h, i);
    var z := h.arrays[i][0];
    var k := TakeKeeps(z, h.zones[z], h.size);
    var (u, p) := TakeChunk(h, i);
    assert ZonesOk(u);
    assert RetiredOk(u);
    assert LargesOk(u);
    TakeArrays(h, u, i);
    SameSlot(h.zones[z], u.zones[z], k);
    ChunkAdds(h, u, z, k, p);
    assert ChunkAt(u, z, k, p, ChunkSize(i));
  }

  lemma TakeArrays(h: Heap, u: Heap, i: nat)
    requires ArraysOk(h) && i < NZONES && h.arrays[i] != [] && h.arrays[i][0] in h.zones
    requires var z := h.arrays[i][0];
             && u.zones.Keys == h.zones.Keys && u.zones[z].index == h.zones[z].index == i
             && u.zones[z].nfree + 1 == h.zones[z].nfree
             && (forall y | y in h.zones && y != z :: u.zones[y] == h.zones[y])
             && u.arrays == if u.zones[z].nfree == 0 then h.arrays[i := h.arrays[i][1..]] else h.arrays
    ensures ArraysOk(u)
  {
    TailIn(h.arrays[i]);
  }

  lemma FreshOk(z: int, i: nat, size: nat)
    requires i < NZONES && SizeOk(size) && 4 * ChunkSize(i) <= size
    ensures var x := Fresh(z, i, size);
            && ZoneOk(z, x, size) && x.nfree > 0 && x.index == i && x.chunk == ChunkSize(i)
            && forall k: nat :: LiveSlot(x, k) <==> k == 0
  {
    hide ChunkSize, Offset, Room;
  }

  /** A heap that holds z, marked but not yet in use; everything else is in order. */
  ghost predicate HeapFor(g: Heap, z: int) {
    && SizeOk(g.size) && HeldOk(g.list, g.held) && TableOk(g) && ZonesOk(g) && RetiredOk(g) && ArraysOk(g)
    && Owned(g, z) && z != g.table && z !in g.zones && z !in g.retired
    && forall a | IsLarge(g, a) && a != z :: a in g.usage && a in g.held && g.usage[a] == Large(g.held[a])
  }

  /** Nothing but zone z has been got ready. */
  ghost predicate ForZone(h: Heap, g: Heap, z: int) {
    && g.zones == h.zones && g.arrays == h.arrays && g.table == h.table && g.size == h.size && !IsLarge(h, z)
    && (forall a :: IsLarge(g, a) <==> IsLarge(h, a) || a == z)
    && forall a | IsLarge(h, a) :: a in g.held && g.held[a] == h.held[a]
  }

  lemma {:induction false} MarkIs(usage: map<int, Usage>, z: int, n: nat)
    ensures Marked(Mark(usage, z, n), z, n)
    ensures forall x | x in usage && !(z <= x < z + n) :: x in Mark(usage, z, n) && Mark(usage, z, n)[x] == usage[x]
  {
    if n > 0 {
      MarkIs(usage, z, n - 1);
      var u := Mark(usage, z, n);
      forall o: nat | o < n ensures MarkedAt(u, z, o) { assert o < n - 1 ==> MarkedAt(Mark(usage, z, n - 1), z, o); }
    }
  }

  lemma {:induction false} UnmarkIs(usage: map<int, Usage>, z: int, n: nat)
    ensures forall x | x in usage && !(z <= x < z + n) :: x in Unmark(usage, z, n) && Unmark(usage, z, n)[x] == usage[x]
  {
    if n > 0 { UnmarkIs(usage, z, n - 1); }
  }

  lemma ReuseFor(h: Heap)
    requires HeapInv(h) && h.retired != []
    ensures var (g, z) := Reuse(h);
            && HeapFor(g, z) && ForZone(h, g, z)
  {
    hide ZoneOk, HeldOk, Marked;
    TailIn(h.retired);
    var (g, z) := Reuse(h);
    assert z in h.retired;
    assert forall y :: Owned(h, y) ==> Owned(g, y);
    assert ZonesOk(g);
    assert RetiredOk(g);
    assert ArraysOk(g);
  }

  lemma GrabFor(h: Heap)
    requires HeapInv(h) && FirstFit(h.list, Span(h.size), 0) < |h.list|
    ensures var (g, z) := Grab(h);
            && HeapFor(g, z) && ForZone(h, g, z)
  {
    hide ZoneOk, HeldOk, Canonical, Marked;
    var n := Span(h.size);
    var (g, z) := Grab(h);
    NewPages(h, n);
    MarkIs(h.usage, z, n);
    forall y | y in h.held && Owned(h, y) ensures Owned(g, y) { OwnedFrame(h, g, y, z, n); }
    assert ZonesOk(g);
    assert RetiredOk(g);
    assert ArraysOk(g);
    forall a | IsLarge(g, a) && a != z ensures a in g.usage && g.usage[a] == Large(g.held[a]) {
      assert IsLarge(h, a);
    }
  }

  /** A zone laid out anew gives its first chunk; whatever was live stays so. */
  lemma OpenKeeps(h: Heap, g: Heap, z: int, i: nat)
    requires HeapInv(h) && HeapFor(g, z) && ForZone(h, g, z) && i < NZONES && 4 * ChunkSize(i) <= g.size
    ensures var (u, p) := OpenZone(g, z, i);
            HeapInv(u) && Adds(h, u, p, ChunkSize(i)) && ChunkOf(u, z, p, ChunkSize(i))
  {
    hide ZoneOk, HeldOk, Marked, Fresh, LiveSlot, Slot;
    var (u, p) := OpenZone(g, z, i);
    FreshOk(z, i, g.size);
    assert ZonesOk(u);
    assert RetiredOk(u);
    assert LargesOk(u);
    OpenArrays(g, u, z, i);
    OpenAdds(h, g, u, z, p);
    assert ChunkAt(u, z, 0, p, ChunkSize(i));
  }

  lemma OpenArrays(g: Heap, u: Heap, z: int, i: nat)
    requires ArraysOk(g) && i < NZONES && z !in g.zones && z in u.zones && u.zones[z].index == i && u.zones[z].nfree > 0
    requires u.zones == g.zones[z := u.zones[z]] && u.arrays == g.arrays[i := [z] + g.arrays[i]]
    ensures ArraysOk(u)
  {
    assert z !in g.arrays[i];
    ConsIn(g.arrays[i], z);
  }

  lemma OpenAdds(h: Heap, g: Heap, u: Heap, z: int, p: int)
    requires HeapInv(u) && ForZone(h, g, z) && z !in g.zones && z in u.zones && u.table == g.table
    requires u.zones == g.zones[z := u.zones[z]] && u.held == g.held && u.retired == g.retired
    requires p == Slot(u.zones[z], 0) && forall k: nat :: LiveSlot(u.zones[z], k) <==> k == 0
    ensures Adds(h, u, p, u.zones[z].chunk)
  {
    hide HeapInv, LiveSlot, Slot;
    assert LiveChunk(u, z, 0, p);
    StepAdds(h, u, z, 0, p, u.zones[z].chunk);
  }

  // ---- freeing a chunk

  lemma PutChunkKeeps(h: Heap, z: int, k: nat, p: int)
    requires HeapInv(h) && LiveChunk(h, z, k, p)
    ensures z in h.zones && h.zones[z].index < |h.arrays|
    ensures HeapInv(PutChunk(h, z, p)) && Drops(h, PutChunk(h, z, p), p) && PutChunk(h, z, p).zones[z].nfree > 0
  {
    hide HeldOk, Marked, LiveSlot, Slot, ZoneOk;
    ZoneIndexOk(z, h.zones[z], h.size);
    PutKeeps(z, h.zones[z], h.size, k);
    var u := PutChunk(h, z, p);
    assert ZonesOk(u);
    assert RetiredOk(u);
    assert LargesOk(u);
    PutArrays(h, u, z);
    SameSlot(h.zones[z], u.zones[z], k);
    ChunkDrops(h, u, z, k, p);
  }

  lemma ZoneIndexOk(z: int, x: Zone, size: nat)
    requires ZoneOk(z, x, size)
    ensures x.index < NZONES
  {
  }

  /** Zone z has one chunk left to be freed, and it is not the only one of its size that will have a free chunk. */
  ghost predicate LastOf(h: Heap, z: int)
    requires z in h.zones && h.zones[z].index < |h.arrays|
  {
    h.zones[z].nfree + 1 == h.zones[z].nmax && exists y :: y in h.arrays[h.zones[z].index] && y != z
  }

  /** Zone z has been retired: it is the first retired zone to be used again or, when as many are kept as may be, its
      pages are free. */
  ghost predicate Gone(h: Heap, u: Heap, z: int) {
    && z !in u.zones && u.zones == h.zones - {z}
    && if |h.retired| < THRESH then u.retired == [z] + h.retired && u.list == h.list && u.held == h.held
       else u.retired == h.retired && u.held == h.held - {z}
  }

  /** Zone z stays, with the chunk at p as the first of its freed ones; had it none, it is the first of its list. */
  ghost predicate Stays(h: Heap, u: Heap, z: int, p: int) {
    && z in h.zones && u == h.(zones := u.zones, arrays := u.arrays)
    && var x := h.zones[z];
       && u.zones == h.zones[z := x.(nfree := x.nfree + 1, free := [p] + x.free)]
       && x.index < |h.arrays|
       && u.arrays == if x.nfree > 0 then h.arrays else h.arrays[x.index := [z] + h.arrays[x.index]]
  }

  lemma RetiresIff(h: Heap, z: int, p: int)
    requires HeapInv(h) && z in h.zones && h.zones[z].index < |h.arrays|
    ensures Retires(PutChunk(h, z, p), z) <==> LastOf(h, z)
    ensures Stays(h, PutChunk(h, z, p), z, p)
  {
    hide HeldOk, ZonesOk, RetiredOk, LargesOk, TableOk;
    var i := h.zones[z].index;
    var before, after := h.arrays[i], PutChunk(h, z, p).arrays[i];
    assert z in before <==> h.zones[z].nfree > 0;
    assert z !in before ==> after == [z] + before;
    if y :| y in before && y != z {
      assert y in after && z in after && |after| > 1;
    }
    if |after| > 1 {
      var y := if before[0] == z then before[1] else before[0];
      assert y in before && y != z;
    }
  }

  lemma PutArrays(h: Heap, u: Heap, z: int)
    requires ArraysOk(h) && z in h.zones && h.zones[z].index < NZONES
    requires var i := h.zones[z].index;
             && z in u.zones && u.zones == h.zones[z := u.zones[z]] && u.zones[z].index == i
             && u.zones[z].nfree == h.zones[z].nfree + 1
             && u.arrays == if h.zones[z].nfree == 0 then h.arrays[i := [z] + h.arrays[i]] else h.arrays
    ensures ArraysOk(u)
  {
    var i := h.zones[z].index;
    if h.zones[z].nfree == 0 {
      assert z !in h.arrays[i];
      ConsIn(h.arrays[i], z);
    }
  }

  lemma ChunkDrops(h: Heap, u: Heap, z: int, k: nat, p: int)
    requires HeapInv(h) && u.table == h.table && u.held == h.held && u.retired == h.retired
    requires u.zones.Keys == h.zones.Keys && LiveChunk(h, z, k, p) && !LiveSlot(u.zones[z], k)
    requires h.zones[z].base == u.zones[z].base && h.zones[z].chunk == u.zones[z].chunk
    requires forall j: nat | j != k :: LiveSlot(u.zones[z], j) <==> LiveSlot(h.zones[z], j)
    requires forall y | y in h.zones && y != z :: u.zones[y] == h.zones[y]
    ensures Drops(h, u, p)
  {
    hide HeapInv, LiveSlot, Slot;
    SameSlot(h.zones[z], u.zones[z], k);
    assert forall j: nat :: Slot(h.zones[z], j) == Slot(u.zones[z], j) by {
      forall j: nat ensures Slot(h.zones[z], j) == Slot(u.zones[z], j) { SameSlot(h.zones[z], u.zones[z], j); }
    }
    StepDrops(h, u, z, k, p, h.zones[z].chunk);
  }

  lemma StepDrops(h: Heap, u: Heap, z: int, k: nat, p: int, c: nat)
    requires HeapInv(h) && ChunkAt(h, z, k, p, c) && !LiveChunk(u, z, k, p) && ChunkStep(u, h, z, k, p, c)
    ensures Drops(h, u, p)
  {
    StepAdds(u, h, z, k, p, c);
    assert Live(h, p, c);
  }

  /** Retiring a zone whose counter says all is free takes no live chunk away. */
  lemma RetireKeeps(h: Heap, z: int)
    requires HeapInv(h) && z in h.zones && h.zones[z].index < |h.arrays| && Retires(h, z) && |h.retired| < THRESH
    ensures HeapInv(Retire(h, z)) && SameLive(h, Retire(h, z))
  {
    hide HeldOk, Marked, LiveSlot, Slot, ZoneOk;
    var u := Retire(h, z);
    forall k: nat ensures !LiveSlot(h.zones[z], k) { AllFreeNoneLive(z, h.zones[z], h.size, k); }
    assert ZonesOk(u);
    assert z !in h.retired;
    ConsIn(h.retired, z);
    assert RetiredOk(u);
    assert forall a :: IsLarge(u, a) <==> IsLarge(h, a);
    assert LargesOk(u);
    WithoutIn(h.arrays[h.zones[z].index], z);
    assert ArraysOk(u);
    assert forall y, j: nat, q, d :: ChunkAt(u, y, j, q, d) <==> ChunkAt(h, y, j, q, d);
    assert forall a, q, d :: LargeAt(u, a, q, d) <==> LargeAt(h, a, q, d);
  }

  /** Retiring when the list of retired zones is full, and giving the zone back to the page allocator. */
  lemma RetireReleaseKeeps(h: Heap, z: int)
    requires HeapInv(h) && z in h.zones && h.zones[z].index < |h.arrays| && Retires(h, z)
    ensures z in h.held && h.held[z] > 0
    ensures HeapInv(Release(Retire(h, z))) && SameLive(h, Release(Retire(h, z)))
  {
    hide Canonical, Marked, LiveSlot, Slot, ZoneOk, Outside;
    var g := Retire(h, z);
    var u := Release(g);
    var n := h.held[z];
    forall k: nat ensures !LiveSlot(h.zones[z], k) { AllFreeNoneLive(z, h.zones[z], h.size, k); }
    assert u.retired == h.retired;
    ReturnHeld(h.list, h.held, z);
    UnmarkIs(h.usage, z, n);
    forall y | y in h.held && y != z ensures (Owned(h, y) ==> Owned(u, y)) && !(z <= y < z + n) {
      assert if y < z then Ahead(h.held, y, z) else Ahead(h.held, z, y);
      if Owned(h, y) { OwnedFrame(h, u, y, z, n); }
    }
    assert ZonesOk(u);
    assert RetiredOk(u);
    assert forall a :: IsLarge(u, a) <==> IsLarge(h, a);
    assert LargesOk(u);
    WithoutIn(h.arrays[h.zones[z].index], z);
    assert ArraysOk(u);
    assert forall y, j: nat, q, d :: ChunkAt(u, y, j, q, d) <==> ChunkAt(h, y, j, q, d);
    assert forall a, q, d :: LargeAt(u, a, q, d) <==> LargeAt(h, a, q, d);
  }
}
