/** The system heap: an address-ordered ring of blocks and a ring of the free ones (memheap.c). */
module MemHeap {
  import opened Lists
  import opened Rings
  import opened Tiling

  const ALIGN: nat := 4
  const ITEM: nat := 56         // RT_MEMHEAP_SIZE on a 64-bit target with RT_USING_MEMTRACE
  const MINIALLOC: nat := 12
  const FREE_HEADER: int := -56 // the list header inside the heap object, outside the pool
  const NULL_ITEM: int := -1
  const NULL: int := 0          // no payload starts at offset 0
  const WORD: nat := 0x1_0000_0000_0000_0000
  const LIMIT: nat := 0x1_0000_0000   // pool_size has 32 bits

  type Links = map<int, int>

  /** RT_ALIGN in 64-bit arithmetic. */
  function AlignUp(size: nat): (r: nat)
    ensures r % ALIGN == 0
    ensures size + ALIGN <= WORD ==> size <= r < size + ALIGN
  {
    (size + ALIGN - 1) % WORD / ALIGN * ALIGN
  }

  function Request(size: nat): (r: nat)
    ensures r >= MINIALLOC
    ensures size + ALIGN <= WORD ==> size <= r
  {
    if AlignUp(size) < MINIALLOC then MINIALLOC else AlignUp(size)
  }

  /** Sizes whose rounding and slack additions do not overflow. */
  predicate Requestable(size: nat) { size + ALIGN + MINIALLOC <= WORD }

  /** The test for growing in place as it is computed: the size of the free neighbour passes through an rt_int32_t. */
  predicate GrowTest(nextSize: int, size: int, n: nat) {
    var w := nextSize % LIMIT;
    var narrowed := if w < 0x8000_0000 then w else w - LIMIT;
    (narrowed + size) % WORD > (n + MINIALLOC) % WORD
  }

  /** The neighbour is below 2^31 bytes, or there is room, or the request is too large to be met anyhow. */
  predicate Narrows(nextSize: int, size: int, n: nat) {
    nextSize < 0x8000_0000 || nextSize + size > n + MINIALLOC
    || n + MINIALLOC >= WORD - LIMIT + nextSize + size
  }

  /** Exactly then the test says whether there is room. */
  lemma GrowTestExactly(nextSize: nat, size: nat, n: nat)
    requires nextSize + size < LIMIT && n + MINIALLOC < WORD
    ensures (GrowTest(nextSize, size, n) <==> nextSize + size > n + MINIALLOC) <==> Narrows(nextSize, size, n)
  {
    if nextSize >= 0x8000_0000 {
      assert (nextSize - LIMIT + size) % WORD == WORD - LIMIT + nextSize + size;
    }
  }

  // --- what the links describe ---

  ghost predicate TiledHeap(bs: seq<Block>, pool: nat) { Tiled(bs, pool, ITEM, MINIALLOC) }

  ghost predicate FreeRing(free: seq<int>, nextFree: Links, prevFree: Links) {
    Ring([FREE_HEADER] + free, nextFree, prevFree)
  }

  /** The free list and the used flags describe the blocks. */
  ghost predicate Fits(bs: seq<Block>, free: seq<int>, used: map<int, bool>) {
    && (forall x :: x in free <==> x in FreeOffs(bs))
    && (forall b | b in bs :: b.off in used && used[b.off] == b.used)
  }

  /** The blocks and the free list, with the item fields that hold them. */
  datatype View = View(bs: seq<Block>, next: Links, prev: Links, free: seq<int>, nextFree: Links, prevFree: Links,
                       used: map<int, bool>)

  ghost predicate Shape(v: View, pool: nat) {
    && TiledHeap(v.bs, pool)
    && Ring(Offs(v.bs), v.next, v.prev)
    && FreeRing(v.free, v.nextFree, v.prevFree)
    && Fits(v.bs, v.free, v.used)
  }

  ghost predicate HighWater(history: seq<int>, peak: int) {
    peak in history && forall h | h in history :: h <= peak
  }

  ghost function Elems(s: seq<int>): set<int> { set x | x in s }

  /** The items an operation from `bs0` to `bs1` may store to. */
  ghost predicate Covered(area: set<int>, bs0: seq<Block>, bs1: seq<Block>) {
    area <= Elems(Offs(bs0)) + Elems(Offs(bs1)) + {FREE_HEADER}
  }

  /** The bytes outside the listed items are those of `base`. */
  ghost predicate OnlyItems(base: seq<int>, bytes: seq<int>, touched: set<int>) {
    && |base| == |bytes|
    && forall i | 0 <= i < |bytes| && (forall a | a in touched :: !(a <= i < a + ITEM)) :: bytes[i] == base[i]
  }

  /** Every byte that is live before and after keeps its value. */
  ghost predicate Preserved(l0: set<(int, int)>, m0: seq<int>, l1: set<(int, int)>, m1: seq<int>) {
    && |m0| == |m1|
    && forall p, q, i | p in l0 && q in l1 && p.0 == q.0 && p.0 <= i < p.0 + p.1 && i < q.0 + q.1 && 0 <= i < |m0| ::
         m1[i] == m0[i]
  }

  // --- facts about a well-shaped heap ---

  lemma OneBlock(bs: seq<Block>, i: nat, j: nat, pool: nat)
    requires TiledHeap(bs, pool) && i < |bs| && j < |bs| && bs[i].off == bs[j].off
    ensures i == j
  {
    OffsDistinct(bs, pool, ITEM, MINIALLOC);
  }

  lemma OtherBlocks(bs: seq<Block>, i: nat, pool: nat)
    requires TiledHeap(bs, pool) && i < |bs|
    ensures forall j | 0 <= j < |bs| && j != i :: bs[j].off != bs[i].off
  {
    OffsDistinct(bs, pool, ITEM, MINIALLOC);
  }

  /** Offsets strictly inside a block are not block offsets. */
  lemma InsideIsFresh(bs: seq<Block>, i: nat, a: int, pool: nat)
    requires TiledHeap(bs, pool) && i < |bs| && bs[i].off < a < bs[i].End(ITEM)
    ensures a !in Offs(bs)
  {
    forall j | 0 <= j < |bs|
      ensures bs[j].off != a
    {
      if j < i {
        Ordered(bs, j, i, pool, ITEM, MINIALLOC);
        InPool(bs, j, pool, ITEM, MINIALLOC);
      } else if i < j {
        Ordered(bs, i, j, pool, ITEM, MINIALLOC);
      }
    }
  }

  ghost predicate Item(a: int, pool: nat) { a == FREE_HEADER || 0 <= a <= pool - ITEM }

  lemma BlockInPool(bs: seq<Block>, i: nat, pool: nat)
    requires TiledHeap(bs, pool) && i < |bs| - 1
    ensures 0 <= bs[i].off && bs[i].End(ITEM) <= pool - ITEM && bs[i].size >= MINIALLOC
  {
    InPool(bs, i, pool, ITEM, MINIALLOC);
  }

  lemma BlockEnds(bs: seq<Block>, i: nat, pool: nat)
    requires TiledHeap(bs, pool) && i < |bs| - 1
    ensures 0 <= bs[i].off && bs[i].End(ITEM) == bs[i + 1].off <= pool - ITEM && bs[i].size >= MINIALLOC
  {
    InPool(bs, i, pool, ITEM, MINIALLOC);
    assert Abut(bs, i, ITEM, MINIALLOC);
  }

  lemma ItemsInPool(bs: seq<Block>, free: seq<int>, pool: nat)
    requires TiledHeap(bs, pool) && forall x :: x in free <==> x in FreeOffs(bs)
    ensures forall a | a in Offs(bs) :: 0 <= a && Item(a, pool)
    ensures forall a | a in free :: a in Offs(bs)
  {
    forall a | a in Offs(bs)
      ensures 0 <= a && Item(a, pool)
    {
      var i :| 0 <= i < |bs| && Offs(bs)[i] == a;
      InPool(bs, i, pool, ITEM, MINIALLOC);
    }
    forall a | a in free
      ensures a in Offs(bs)
    {
      var i := FreeOffsFrom(bs, a, |bs|);
      assert Offs(bs)[i] == a;
    }
  }

  lemma FreeDistinct(free: seq<int>, nextFree: Links, prevFree: Links)
    requires FreeRing(free, nextFree, prevFree)
    ensures Distinct(free) && FREE_HEADER !in free
  {
    var f := [FREE_HEADER] + free;
    assert forall j | 0 <= j < |free| :: f[j + 1] == free[j];
    assert f[0] == FREE_HEADER;
  }

  /** What a block item's links read: the blocks next to it, and its size. */
  lemma BlockLinks(bs: seq<Block>, i: nat, next: Links, prev: Links, pool: nat)
    requires TiledHeap(bs, pool) && Ring(Offs(bs), next, prev) && i < |bs| - 1
    ensures bs[i].off in next && bs[i].off in prev && bs[i].off in Offs(bs)
    ensures next[bs[i].off] == bs[i].End(ITEM) == bs[i + 1].off
    ensures prev[bs[i].off] == (if i > 0 then bs[i - 1].off else pool - ITEM)
    ensures next[bs[i].off] in Offs(bs) && prev[bs[i].off] in Offs(bs)
  {
    assert Linked(Offs(bs), i, next, prev) && Abut(bs, i, ITEM, MINIALLOC);
  }

  lemma FreeLinks(free: seq<int>, k: nat, nextFree: Links, prevFree: Links)
    requires FreeRing(free, nextFree, prevFree) && k < |free|
    ensures free[k] in nextFree && free[k] in prevFree
    ensures nextFree[free[k]] == if k + 1 < |free| then free[k + 1] else FREE_HEADER
    ensures prevFree[free[k]] == if k > 0 then free[k - 1] else FREE_HEADER
  {
    var f := [FREE_HEADER] + free;
    assert f[k + 1] == free[k] && Linked(f, k + 1, nextFree, prevFree);
  }

  lemma FirstFree(free: seq<int>, nextFree: Links, prevFree: Links)
    requires FreeRing(free, nextFree, prevFree)
    ensures FREE_HEADER in nextFree && nextFree[FREE_HEADER] == if free == [] then FREE_HEADER else free[0]
  {
    var f := [FREE_HEADER] + free;
    assert f[0] == FREE_HEADER && Linked(f, 0, nextFree, prevFree);
  }

  /** Insert an item at the head of the free list. */
  function PushFree(nextFree: Links, prevFree: Links, n: int): (r: (Links, Links))
    requires FREE_HEADER in nextFree
  {
    InsertAfter(nextFree, prevFree, FREE_HEADER, n)
  }

  lemma PushFreeRing(free: seq<int>, n: int, nextFree: Links, prevFree: Links)
    requires FreeRing(free, nextFree, prevFree) && n !in free && n != FREE_HEADER
    ensures FREE_HEADER in nextFree
    ensures var (next1, prev1) := PushFree(nextFree, prevFree, n); FreeRing([n] + free, next1, prev1)
  {
    var f := [FREE_HEADER] + free;
    InsertAfterRing(f, 0, nextFree, prevFree, n);
    assert f[0] == FREE_HEADER && InsertAt(f, 1, n) == [FREE_HEADER] + ([n] + free);
  }

  /** Remove an item from the free list and clear its links. */
  function Taken(nextFree: Links, prevFree: Links, h: int): (r: (Links, Links))
    requires h in nextFree && h in prevFree
  {
    var (next1, prev1) := Unlink(nextFree, prevFree, h);
    (next1[h := NULL_ITEM], prev1[h := NULL_ITEM])
  }

  lemma UnlinkFreeRing(free: seq<int>, k: nat, nextFree: Links, prevFree: Links)
    requires FreeRing(free, nextFree, prevFree) && k < |free|
    ensures free[k] in nextFree && free[k] in prevFree
    ensures var (next1, prev1) := Unlink(nextFree, prevFree, free[k]);
            FREE_HEADER in next1 && FreeRing(DeleteAt(free, k), next1, prev1)
    ensures var (next1, prev1) := Taken(nextFree, prevFree, free[k]);
            FREE_HEADER in next1 && FreeRing(DeleteAt(free, k), next1, prev1)
  {
    var f := [FREE_HEADER] + free;
    UnlinkRing(f, k + 1, nextFree, prevFree);
    assert f[k + 1] == free[k];
    assert DeleteAt(f, k + 1) == [FREE_HEADER] + DeleteAt(free, k);
    var (next1, prev1) := Unlink(nextFree, prevFree, free[k]);
    RingFrame(DeleteAt(f, k + 1), next1, prev1, next1[free[k] := NULL_ITEM], prev1[free[k] := NULL_ITEM]);
  }

  /** After a splice the free list and flags fit again, if they were updated for the replaced run alone. */
  lemma SpliceFits(bs: seq<Block>, i: nat, n: nat, mid: seq<Block>, free: seq<int>, free': seq<int>,
                   used: map<int, bool>, used': map<int, bool>, pool: nat)
    requires TiledHeap(bs, pool) && i + n <= |bs| && Fits(bs, free, used)
    requires forall x :: x in free' <==> (x in free && x !in FreeOffs(bs[i..i + n])) || x in FreeOffs(mid)
    requires forall b | b in mid :: b.off in used' && used'[b.off] == b.used
    requires forall j | 0 <= j < |bs| && !(i <= j < i + n) :: bs[j].off in used' && used'[bs[j].off] == used[bs[j].off]
    ensures Fits(Splice(bs, i, n, mid), free', used')
  {
    SpliceSums(bs, i, n, mid, pool, ITEM, MINIALLOC);
    forall b | b in Splice(bs, i, n, mid)
      ensures b.off in used' && used'[b.off] == b.used
    {
      if b !in mid {
        var j :| 0 <= j < |bs| && !(i <= j < i + n) && bs[j] == b;
      }
    }
  }

  /** Stores confined to block headers, old or new, leave every surviving payload byte alone. */
  lemma ContentsKept(bs0: seq<Block>, bs1: seq<Block>, base: seq<int>, bytes: seq<int>, touched: set<int>, pool: nat)
    requires TiledHeap(bs0, pool) && TiledHeap(bs1, pool)
    requires OnlyItems(base, bytes, touched)
    requires touched <= Elems(Offs(bs0)) + Elems(Offs(bs1)) + {FREE_HEADER}
    ensures Preserved(Live(bs0, ITEM), base, Live(bs1, ITEM), bytes)
  {
    forall p, q, i | p in Live(bs0, ITEM) && q in Live(bs1, ITEM) && p.0 == q.0
                     && p.0 <= i < p.0 + p.1 && i < q.0 + q.1 && 0 <= i < |base|
      ensures bytes[i] == base[i]
    {
      forall a | a in touched
        ensures !(a <= i < a + ITEM)
      {
        if a in Elems(Offs(bs0)) {
          var j :| 0 <= j < |bs0| && Offs(bs0)[j] == a;
          HeadersAvoidPayloads(bs0, j, a, p, pool, ITEM, MINIALLOC);
        } else if a in Elems(Offs(bs1)) {
          var j :| 0 <= j < |bs1| && Offs(bs1)[j] == a;
          HeadersAvoidPayloads(bs1, j, a, q, pool, ITEM, MINIALLOC);
        }
      }
    }
  }

  // --- the elementary steps every operation is made of ---

  /** Block i becomes `b` in place. */
  function Reflag(bs: seq<Block>, i: nat, used: bool): (r: seq<Block>)
    requires i < |bs|
    ensures |r| == |bs| && r[i] == bs[i].(used := used)
    ensures i + 1 < |bs| ==> r[i + 1] == bs[i + 1]
  {
    Splice(bs, i, 1, [bs[i].(used := used)])
  }

  /** Block i is cut after n payload bytes; both parts count as used until the second is put on the free list. */
  function Cut(bs: seq<Block>, i: nat, n: nat): (r: seq<Block>)
    requires i < |bs|
    ensures |r| == |bs| + 1 && r[i] == Block(bs[i].off, n, true)
    ensures r[i + 1] == Block(bs[i].off + ITEM + n, bs[i].size - n - ITEM, true)
    ensures i + 1 < |bs| ==> r[i + 2] == bs[i + 1]
  {
    Splice(bs, i, 1, [Block(bs[i].off, n, true), Block(bs[i].off + ITEM + n, bs[i].size - n - ITEM, true)])
  }

  /** Block i swallows block i + 1, header and all. */
  function Absorb(bs: seq<Block>, i: nat): (r: seq<Block>)
    requires i + 1 < |bs|
    ensures |r| == |bs| - 1 && r[i] == Block(bs[i].off, bs[i].size + ITEM + bs[i + 1].size, bs[i].used)
    ensures i + 2 < |bs| ==> r[i + 1] == bs[i + 2]
  {
    Splice(bs, i, 2, [Block(bs[i].off, bs[i].size + ITEM + bs[i + 1].size, bs[i].used)])
  }

  lemma ReflagTiled(bs: seq<Block>, i: nat, u: bool, pool: nat)
    requires TiledHeap(bs, pool) && i < |bs| - 1
    ensures TiledHeap(Reflag(bs, i, u), pool) && Offs(Reflag(bs, i, u)) == Offs(bs)
  {
    assert Abut(bs, i, ITEM, MINIALLOC);
    SpliceTiled(bs, i, 1, [bs[i].(used := u)], pool, ITEM, MINIALLOC);
    assert Offs(Reflag(bs, i, u)) == Offs(bs);
  }

  lemma ReflagFits(bs: seq<Block>, i: nat, u: bool, free: seq<int>, free': seq<int>, used: map<int, bool>, pool: nat)
    requires TiledHeap(bs, pool) && i < |bs| - 1 && Fits(bs, free, used)
    requires forall x :: x in free' <==> (x in free && x != bs[i].off) || (!u && x == bs[i].off)
    ensures Fits(Reflag(bs, i, u), free', used[bs[i].off := u])
  {
    var mid := [bs[i].(used := u)];
    assert bs[i..i + 1] == [bs[i]];
    SumsOne(bs[i], ITEM);
    SumsOne(bs[i].(used := u), ITEM);
    OtherBlocks(bs, i, pool);
    assert bs[i].used ==> bs[i].off !in free by { if bs[i].off in free { FreeIsFree(bs, i, pool); } }
    SpliceFits(bs, i, 1, mid, free, free', used, used[bs[i].off := u], pool);
  }

  lemma FreeIsFree(bs: seq<Block>, i: nat, pool: nat)
    requires TiledHeap(bs, pool) && i < |bs|
    ensures bs[i].off in FreeOffs(bs) <==> !bs[i].used
  {
    if !bs[i].used { FreeOffsIn(bs, i, |bs|); }
    if bs[i].off in FreeOffs(bs) {
      var j := FreeOffsFrom(bs, bs[i].off, |bs|);
      OneBlock(bs, i, j, pool);
    }
  }

  /** Take free block i, k-th on the free list, for use. */
  lemma TakeStep(v: View, pool: nat, i: nat, k: nat)
    requires Shape(v, pool) && i < |v.bs| - 1 && k < |v.free| && v.free[k] == v.bs[i].off
    ensures var h := v.bs[i].off;
            && h in v.nextFree && h in v.prevFree
            && var (nextFree1, prevFree1) := Taken(v.nextFree, v.prevFree, h);
               Shape(v.(bs := Reflag(v.bs, i, true), free := DeleteAt(v.free, k),
                        nextFree := nextFree1, prevFree := prevFree1, used := v.used[h := true]), pool)
  {
    ReflagTiled(v.bs, i, true, pool);
    UnlinkFreeRing(v.free, k, v.nextFree, v.prevFree);
    assert Fits(Reflag(v.bs, i, true), DeleteAt(v.free, k), v.used[v.bs[i].off := true]) by {
      FreeDistinct(v.free, v.nextFree, v.prevFree);
      DeleteIn(v.free, k);
      ReflagFits(v.bs, i, true, v.free, DeleteAt(v.free, k), v.used, pool);
    }
  }

  lemma PutFits(bs: seq<Block>, i: nat, free: seq<int>, used: map<int, bool>, pool: nat)
    requires TiledHeap(bs, pool) && Fits(bs, free, used) && i < |bs| - 1 && bs[i].used
    ensures bs[i].off !in free && bs[i].off != FREE_HEADER
    ensures Fits(Reflag(bs, i, false), [bs[i].off] + free, used[bs[i].off := false])
  {
    InPool(bs, i, pool, ITEM, MINIALLOC);
    FreeIsFree(bs, i, pool);
    ReflagFits(bs, i, false, free, [bs[i].off] + free, used, pool);
  }

  /** Put used block i at the head of the free list. */
  lemma PutStep(v: View, pool: nat, i: nat)
    requires Shape(v, pool) && i < |v.bs| - 1 && v.bs[i].used
    ensures FREE_HEADER in v.nextFree
    ensures var (nextFree1, prevFree1) := PushFree(v.nextFree, v.prevFree, v.bs[i].off);
            Shape(v.(bs := Reflag(v.bs, i, false), free := [v.bs[i].off] + v.free,
                     nextFree := nextFree1, prevFree := prevFree1, used := v.used[v.bs[i].off := false]), pool)
  {
    PutFits(v.bs, i, v.free, v.used, pool);
    PushFreeRing(v.free, v.bs[i].off, v.nextFree, v.prevFree);
    ReflagTiled(v.bs, i, false, pool);
  }

  /** Cut used block i in two and link the second part into the block ring. */
  lemma CutStep(v: View, pool: nat, i: nat, n: nat)
    requires Shape(v, pool) && i < |v.bs| - 1 && v.bs[i].used
    requires n >= MINIALLOC && v.bs[i].size >= n + ITEM + MINIALLOC
    ensures var h, rest := v.bs[i].off, v.bs[i].off + ITEM + n;
            && h in v.next
            && var (next1, prev1) := InsertAfter(v.next, v.prev, h, rest);
               Shape(v.(bs := Cut(v.bs, i, n), next := next1, prev := prev1, used := v.used[rest := true]), pool)
  {
    hide Ring, Fits, TiledHeap, FreeRing;
    CutRing(v.bs, i, n, v.next, v.prev, pool);
    CutFits(v.bs, i, n, v.free, v.used, pool);
  }

  lemma CutRing(bs: seq<Block>, i: nat, n: nat, next: Links, prev: Links, pool: nat)
    requires TiledHeap(bs, pool) && Ring(Offs(bs), next, prev) && i < |bs| - 1
    requires n >= MINIALLOC && bs[i].size >= n + ITEM + MINIALLOC
    ensures bs[i].off in next && TiledHeap(Cut(bs, i, n), pool)
    ensures var (next1, prev1) := InsertAfter(next, prev, bs[i].off, bs[i].off + ITEM + n);
            Ring(Offs(Cut(bs, i, n)), next1, prev1)
  {
    var h, rest := bs[i].off, bs[i].off + ITEM + n;
    var mid := [Block(h, n, true), Block(rest, bs[i].size - n - ITEM, true)];
    assert rest !in Offs(bs) by { InsideIsFresh(bs, i, rest, pool); }
    BlockLinks(bs, i, next, prev, pool);
    InsertAfterRing(Offs(bs), i, next, prev, rest);
    assert Offs(Cut(bs, i, n)) == InsertAt(Offs(bs), i + 1, rest);
    assert Abut(bs, i, ITEM, MINIALLOC);
    SpliceTiled(bs, i, 1, mid, pool, ITEM, MINIALLOC);
  }

  lemma CutFits(bs: seq<Block>, i: nat, n: nat, free: seq<int>, used: map<int, bool>, pool: nat)
    requires TiledHeap(bs, pool) && Fits(bs, free, used) && i < |bs| - 1 && bs[i].used
    requires n >= MINIALLOC && bs[i].size >= n + ITEM + MINIALLOC
    ensures Fits(Cut(bs, i, n), free, used[bs[i].off + ITEM + n := true])
  {
    var rest := bs[i].off + ITEM + n;
    var mid := [Block(bs[i].off, n, true), Block(rest, bs[i].size - n - ITEM, true)];
    InsideIsFresh(bs, i, rest, pool);
    assert bs[i..i + 1] == [bs[i]];
    SumsOne(bs[i], ITEM);
    SumsTwo(mid[0], mid[1], ITEM);
    forall j | 0 <= j < |bs| ensures bs[j].off != rest { assert Offs(bs)[j] == bs[j].off; }
    SpliceFits(bs, i, 1, mid, free, free, used, used[rest := true], pool);
  }

  /** Block i swallows its free right neighbour, k-th on the free list. */
  lemma AbsorbRightStep(v: View, pool: nat, i: nat, k: nat)
    requires Shape(v, pool) && i + 1 < |v.bs| - 1 && k < |v.free| && v.free[k] == v.bs[i + 1].off
    ensures var right := v.bs[i + 1].off;
            && right in v.next && right in v.prev && right in v.nextFree && right in v.prevFree
            && var (next1, prev1) := Unlink(v.next, v.prev, right);
               var (nextFree1, prevFree1) := Unlink(v.nextFree, v.prevFree, right);
               Shape(v.(bs := Absorb(v.bs, i), next := next1, prev := prev1, free := DeleteAt(v.free, k),
                        nextFree := nextFree1, prevFree := prevFree1), pool)
  {
    BlockLinks(v.bs, i + 1, v.next, v.prev, pool);
    AbsorbShape(v.bs, i, v.next, v.prev, pool);
    UnlinkFreeRing(v.free, k, v.nextFree, v.prevFree);
    FreeDistinct(v.free, v.nextFree, v.prevFree);
    AbsorbRightFits(v.bs, i, v.free, k, v.used, pool);
  }

  lemma AbsorbRightFits(bs: seq<Block>, i: nat, free: seq<int>, k: nat, used: map<int, bool>, pool: nat)
    requires TiledHeap(bs, pool) && Fits(bs, free, used) && Distinct(free)
    requires i + 1 < |bs| - 1 && k < |free| && free[k] == bs[i + 1].off
    ensures Fits(Absorb(bs, i), DeleteAt(free, k), used)
  {
    var b := Block(bs[i].off, bs[i].size + ITEM + bs[i + 1].size, bs[i].used);
    assert free[k] in free;
    DeleteIn(free, k);
    assert bs[i..i + 2] == [bs[i], bs[i + 1]];
    SumsTwo(bs[i], bs[i + 1], ITEM);
    SumsOne(b, ITEM);
    OtherBlocks(bs, i + 1, pool);
    FreeIsFree(bs, i, pool);
    FreeIsFree(bs, i + 1, pool);
    SpliceFits(bs, i, 2, [b], free, DeleteAt(free, k), used, used, pool);
  }

  /** Used block i + 1 is swallowed by the free block to its left, which stays on the free list. */
  lemma AbsorbLeftStep(v: View, pool: nat, i: nat)
    requires Shape(v, pool) && i + 1 < |v.bs| - 1 && !v.bs[i].used && v.bs[i + 1].used
    ensures var h := v.bs[i + 1].off;
            && h in v.next && h in v.prev
            && var (next1, prev1) := Unlink(v.next, v.prev, h);
               Shape(v.(bs := Absorb(v.bs, i), next := next1, prev := prev1, used := v.used[h := false]), pool)
  {
    BlockLinks(v.bs, i + 1, v.next, v.prev, pool);
    AbsorbShape(v.bs, i, v.next, v.prev, pool);
    AbsorbLeftFits(v.bs, i, v.free, v.used, pool);
  }

  lemma AbsorbLeftFits(bs: seq<Block>, i: nat, free: seq<int>, used: map<int, bool>, pool: nat)
    requires TiledHeap(bs, pool) && Fits(bs, free, used)
    requires i + 1 < |bs| - 1 && !bs[i].used && bs[i + 1].used
    ensures Fits(Absorb(bs, i), free, used[bs[i + 1].off := false])
  {
    var b := Block(bs[i].off, bs[i].size + ITEM + bs[i + 1].size, bs[i].used);
    assert bs[i..i + 2] == [bs[i], bs[i + 1]];
    SumsTwo(bs[i], bs[i + 1], ITEM);
    SumsOne(b, ITEM);
    FreeIsFree(bs, i, pool);
    OtherBlocks(bs, i + 1, pool);
    SpliceFits(bs, i, 2, [b], free, free, used, used[bs[i + 1].off := false], pool);
  }

  lemma CutOffs(bs: seq<Block>, i: nat, n: nat)
    requires i < |bs|
    ensures Elems(Offs(Cut(bs, i, n))) == Elems(Offs(bs)) + {bs[i].off + ITEM + n}
  {
    var r, rest := Cut(bs, i, n), bs[i].off + ITEM + n;
    assert Offs(r) == InsertAt(Offs(bs), i + 1, rest);
    assert Offs(r)[i + 1] == rest;
    forall a | a in Offs(bs)
      ensures a in Offs(r)
    {
      var j :| 0 <= j < |bs| && Offs(bs)[j] == a;
      assert Offs(r)[if j <= i then j else j + 1] == a;
    }
  }

  lemma AbsorbOffs(bs: seq<Block>, i: nat)
    requires i + 1 < |bs|
    ensures Elems(Offs(Absorb(bs, i))) <= Elems(Offs(bs))
  {
    assert Offs(Absorb(bs, i)) == DeleteAt(Offs(bs), i + 1);
  }

  lemma AbsorbTiled(bs: seq<Block>, i: nat, pool: nat)
    requires TiledHeap(bs, pool) && i + 1 < |bs| - 1
    ensures TiledHeap(Absorb(bs, i), pool)
  {
    assert Abut(bs, i, ITEM, MINIALLOC) && Abut(bs, i + 1, ITEM, MINIALLOC);
    SpliceTiled(bs, i, 2, [Block(bs[i].off, bs[i].size + ITEM + bs[i + 1].size, bs[i].used)], pool, ITEM, MINIALLOC);
  }

  lemma AbsorbShape(bs: seq<Block>, i: nat, next: Links, prev: Links, pool: nat)
    requires TiledHeap(bs, pool) && Ring(Offs(bs), next, prev) && i + 1 < |bs| - 1
    ensures TiledHeap(Absorb(bs, i), pool)
    ensures var (next1, prev1) := Unlink(next, prev, Offs(bs)[i + 1]); Ring(Offs(Absorb(bs, i)), next1, prev1)
  {
    AbsorbTiled(bs, i, pool);
    UnlinkRing(Offs(bs), i + 1, next, prev);
    assert Offs(Absorb(bs, i)) == DeleteAt(Offs(bs), i + 1);
  }

  // --- what the steps do to the merging ---

  lemma ReflagMerged(bs: seq<Block>, i: nat, u: bool)
    requires i + 1 < |bs| && Merged(bs)
    requires u || (bs[i + 1].used && (i > 0 ==> bs[i - 1].used))
    ensures Merged(Reflag(bs, i, u))
  {
  }

  lemma CutMerged(bs: seq<Block>, i: nat, n: nat)
    requires i < |bs| && Merged(bs)
    ensures Merged(Cut(bs, i, n))
  {
    var r := Cut(bs, i, n);
    forall x, y | 0 <= x && y == x + 1 < |r|
      ensures r[x].used || r[y].used
    {
      if y < i { assert bs[x].used || bs[y].used; }
      if x > i + 1 { assert bs[x - 1].used || bs[y - 1].used; }
    }
  }

  /** Swallowing the left or right neighbour leaves at most the gap to the next block to close. */
  lemma AbsorbMerged(bs: seq<Block>, i: nat)
    requires i + 2 < |bs| && !(bs[i].used && bs[i + 1].used)
    ensures Merged(bs) ==> MergedBut(Absorb(bs, i), i)
    ensures (Merged(bs) || MergedBut(bs, i)) && !bs[i + 1].used ==> Merged(Absorb(bs, i))
  {
    var r := Absorb(bs, i);
    if Merged(bs) || MergedBut(bs, i) {
      assert !bs[i + 1].used ==> bs[i + 2].used;
      forall x, y | 0 <= x && y == x + 1 < |r| && x != i
        ensures r[x].used || r[y].used
      {
        if y <= i { assert bs[x].used || bs[y].used; }
        if x > i { assert bs[x + 1].used || bs[y + 1].used; }
      }
    }
  }

  // --- what each operation does to the blocks ---

  /** A free block handed out for n bytes: split if the rest can hold a minimal block. */
  function Carve(b: Block, n: nat): (r: seq<Block>) {
    if b.size >= n + ITEM + MINIALLOC then
      [Block(b.off, n, true), Block(b.off + ITEM + n, b.size - n - ITEM, false)]
    else
      [b.(used := true)]
  }

  function Placed(bs: seq<Block>, i: nat, n: nat): (r: seq<Block>)
    requires i < |bs|
  {
    Splice(bs, i, 1, Carve(bs[i], n))
  }

  predicate MergeLeft(bs: seq<Block>, i: nat)
    requires i < |bs|
  {
    i > 0 && !bs[i - 1].used
  }

  predicate MergeRight(bs: seq<Block>, i: nat)
    requires i < |bs|
  {
    i + 1 < |bs| && !bs[i + 1].used
  }

  function Lo(bs: seq<Block>, i: nat): (lo: nat)
    requires i < |bs|
    ensures lo <= i
  {
    if MergeLeft(bs, i) then i - 1 else i
  }

  function Hi(bs: seq<Block>, i: nat): (hi: nat)
    requires i < |bs|
    ensures i <= hi < |bs|
  {
    if MergeRight(bs, i) then i + 1 else i
  }

  /** Block i freed, with its free neighbours absorbed. */
  function Released(bs: seq<Block>, i: nat): (r: seq<Block>)
    requires i < |bs|
  {
    var lo, hi := Lo(bs, i), Hi(bs, i);
    Splice(bs, lo, hi + 1 - lo, [Block(bs[lo].off, bs[hi].End(ITEM) - bs[lo].off - ITEM, false)])
  }

  /** Block i set to n bytes; the rest, up to the end of a free right neighbour if there is one, is one free block. */
  function Resized(bs: seq<Block>, i: nat, n: nat): (r: seq<Block>)
    requires i < |bs|
  {
    var hi := Hi(bs, i);
    var rest := bs[i].off + ITEM + n;
    Splice(bs, i, hi + 1 - i, [Block(bs[i].off, n, true), Block(rest, bs[hi].End(ITEM) - rest - ITEM, false)])
  }

  /** Room for n payload bytes plus a further minimal block, from block i on. */
  predicate Cuttable(bs: seq<Block>, i: nat, n: nat)
    requires i < |bs|
  {
    var hi := Hi(bs, i);
    bs[hi].End(ITEM) - (bs[i].off + ITEM + n) - ITEM >= MINIALLOC
  }

  lemma PlacedSteps(bs: seq<Block>, i: nat, n: nat)
    requires i < |bs| && !bs[i].used
    ensures Placed(bs, i, n) == if bs[i].size >= n + ITEM + MINIALLOC
      then Reflag(Cut(Reflag(bs, i, true), i, n), i + 1, false) else Reflag(bs, i, true)
  {
  }

  lemma ReleasedSteps(bs: seq<Block>, i: nat, pool: nat)
    requires TiledHeap(bs, pool) && i < |bs| - 1 && bs[i].used
    ensures MergeLeft(bs, i) && MergeRight(bs, i) ==> Released(bs, i) == Absorb(Absorb(bs, i - 1), i - 1)
    ensures MergeLeft(bs, i) && !MergeRight(bs, i) ==> Released(bs, i) == Absorb(bs, i - 1)
    ensures !MergeLeft(bs, i) && MergeRight(bs, i) ==> Released(bs, i) == Reflag(Absorb(bs, i), i, false)
    ensures !MergeLeft(bs, i) && !MergeRight(bs, i) ==> Released(bs, i) == Reflag(bs, i, false)
  {
    assert Abut(bs, i, ITEM, MINIALLOC);
    if i > 0 { assert Abut(bs, i - 1, ITEM, MINIALLOC); }
  }

  lemma ResizedSteps(bs: seq<Block>, i: nat, n: nat, pool: nat)
    requires TiledHeap(bs, pool) && i < |bs| - 1 && bs[i].used
    ensures MergeRight(bs, i) ==> Resized(bs, i, n) == Reflag(Cut(Absorb(bs, i), i, n), i + 1, false)
    ensures MergeRight(bs, i) ==> Resized(bs, i, n) == Reflag(Absorb(Cut(bs, i, n), i + 1), i + 1, false)
    ensures !MergeRight(bs, i) ==> Resized(bs, i, n) == Reflag(Cut(bs, i, n), i + 1, false)
  {
    assert Abut(bs, i, ITEM, MINIALLOC);
  }

  ghost predicate FreeFit(bs: seq<Block>, i: nat, n: nat) {
    i < |bs| && !bs[i].used && bs[i].size >= n >= MINIALLOC
  }

  lemma PlacedMerged(bs: seq<Block>, i: nat, n: nat)
    requires Merged(bs) && i < |bs| - 1 && !bs[i].used
    ensures Merged(Placed(bs, i, n))
  {
    PlacedSteps(bs, i, n);
    var t := Reflag(bs, i, true);
    ReflagMerged(bs, i, true);
    if bs[i].size >= n + ITEM + MINIALLOC {
      CutMerged(t, i, n);
      var u := Cut(t, i, n);
      assert i + 2 < |u| && u[i].used && u[i + 2] == bs[i + 1] && (bs[i].used || bs[i + 1].used);
      ReflagMerged(u, i + 1, false);
    }
  }

  /** Handing out a block: one new live payload, the rest as before, no bytes lost. */
  lemma PlacedSums(bs: seq<Block>, i: nat, n: nat, pool: nat)
    requires TiledHeap(bs, pool) && FreeFit(bs, i, n)
    ensures FreeBytes(Placed(bs, i, n))
         == FreeBytes(bs) - (if bs[i].size >= n + ITEM + MINIALLOC then n + ITEM else bs[i].size)
    ensures Live(Placed(bs, i, n), ITEM) == Live(bs, ITEM) + {(bs[i].Payload(ITEM), Carve(bs[i], n)[0].size)}
  {
    var c := Carve(bs[i], n);
    assert bs[i..i + 1] == [bs[i]];
    SpliceSums(bs, i, 1, c, pool, ITEM, MINIALLOC);
    SumsOne(bs[i], ITEM);
    if |c| == 2 {
      SumsTwo(c[0], c[1], ITEM);
      assert c == [c[0], c[1]];
    } else {
      SumsOne(c[0], ITEM);
      assert c == [c[0]];
    }
  }

  /** The new payload's address was not live before. */
  lemma PlacedIsNew(bs: seq<Block>, i: nat, p: (int, int), pool: nat)
    requires TiledHeap(bs, pool) && i < |bs| && !bs[i].used && p in Live(bs, ITEM)
    ensures p.0 != bs[i].Payload(ITEM)
  {
    var j := LiveFrom(bs, p, ITEM, |bs|);
    OtherBlocks(bs, i, pool);
  }

  lemma ReleasedMerged(bs: seq<Block>, i: nat, pool: nat)
    requires TiledHeap(bs, pool) && Merged(bs) && i < |bs| - 1 && bs[i].used
    ensures Merged(Released(bs, i))
  {
    ReleasedSteps(bs, i, pool);
    if MergeLeft(bs, i) {
      AbsorbMerged(bs, i - 1);
      var a := Absorb(bs, i - 1);
      assert a[i] == bs[i + 1];
      if MergeRight(bs, i) {
        assert i < |a| - 1;
        AbsorbMerged(a, i - 1);
      }
    } else if MergeRight(bs, i) {
      AbsorbMerged(bs, i);
      var a := Absorb(bs, i);
      assert a[i + 1] == bs[i + 2] && (bs[i + 1].used || bs[i + 2].used);
      ReflagMerged(a, i, false);
    } else {
      ReflagMerged(bs, i, false);
    }
  }

  /** Freeing: exactly that payload ends, and its size plus a header per merge becomes free. */
  lemma ReleasedSums(bs: seq<Block>, i: nat, pool: nat)
    requires TiledHeap(bs, pool) && i < |bs| - 1 && bs[i].used
    ensures FreeBytes(Released(bs, i)) == FreeBytes(bs) + bs[i].size
          + (if MergeLeft(bs, i) then ITEM else 0) + (if MergeRight(bs, i) then ITEM else 0)
    ensures Live(Released(bs, i), ITEM) == Live(bs, ITEM) - {(bs[i].Payload(ITEM), bs[i].size)}
  {
    var lo, hi := Lo(bs, i), Hi(bs, i);
    var m := Block(bs[lo].off, bs[hi].End(ITEM) - bs[lo].off - ITEM, false);
    var p := (bs[i].Payload(ITEM), bs[i].size);
    RunSums(bs, i);
    var run := FreeBytes(bs[lo..hi + 1]);
    assert bs[i].LiveOf(ITEM) == {p} && m.size == run + bs[i].size
             + (if MergeLeft(bs, i) then ITEM else 0) + (if MergeRight(bs, i) then ITEM else 0) by {
      assert Abut(bs, i, ITEM, MINIALLOC) && Abut(bs, lo, ITEM, MINIALLOC);
    }
    SumsOne(m, ITEM);
    SwapRun(bs, lo, hi + 1, [m], run, m.size, {p}, {}, pool);
  }

  lemma SwapRun(bs: seq<Block>, lo: nat, hi: nat, mid: seq<Block>, bytes: int, bytes': int,
                gone: set<(int, int)>, come: set<(int, int)>, pool: nat)
    requires TiledHeap(bs, pool) && lo <= hi <= |bs|
    requires FreeBytes(bs[lo..hi]) == bytes && Live(bs[lo..hi], ITEM) == gone
    requires FreeBytes(mid) == bytes' && Live(mid, ITEM) == come
    ensures FreeBytes(Splice(bs, lo, hi - lo, mid)) == FreeBytes(bs) - bytes + bytes'
    ensures Live(Splice(bs, lo, hi - lo, mid), ITEM) == Live(bs, ITEM) - gone + come
    ensures come == {} ==> Live(Splice(bs, lo, hi - lo, mid), ITEM) == Live(bs, ITEM) - gone
  {
    SpliceSums(bs, lo, hi - lo, mid, pool, ITEM, MINIALLOC);
    assert bs[lo..lo + (hi - lo)] == bs[lo..hi];
  }

  /** Block i with its free neighbours: one live payload, and the neighbours' bytes. */
  lemma RunSums(bs: seq<Block>, i: nat)
    requires i < |bs| && bs[i].used
    ensures var lo, hi := Lo(bs, i), Hi(bs, i);
            && FreeBytes(bs[lo..hi + 1])
                 == (if MergeLeft(bs, i) then bs[i - 1].size else 0) + (if MergeRight(bs, i) then bs[i + 1].size else 0)
            && Live(bs[lo..hi + 1], ITEM) == bs[i].LiveOf(ITEM)
  {
    hide FreeBytes, FreeOffs, Live;
    var l := if MergeLeft(bs, i) then [bs[i - 1]] else [];
    var r := if MergeRight(bs, i) then [bs[i + 1]] else [];
    var lo, hi := Lo(bs, i), Hi(bs, i);
    assert bs[lo..hi + 1] == l + ([bs[i]] + r);
    SumsConcat(l, [bs[i]] + r, ITEM);
    SumsConcat([bs[i]], r, ITEM);
    SumsOne(bs[i], ITEM);
    NoSums();
    if MergeLeft(bs, i) { SumsOne(bs[i - 1], ITEM); }
    if MergeRight(bs, i) { SumsOne(bs[i + 1], ITEM); }
  }

  lemma NoSums()
    ensures FreeBytes([]) == 0 && Live([], ITEM) == {}
  {
  }

  lemma ResizedAt(bs: seq<Block>, i: nat, n: nat)
    requires i < |bs|
    ensures i + 1 < |Resized(bs, i, n)| && Resized(bs, i, n)[i + 1].off == bs[i].off + ITEM + n
  {
  }

  lemma ResizedMerged(bs: seq<Block>, i: nat, n: nat, pool: nat)
    requires TiledHeap(bs, pool) && Merged(bs) && i < |bs| - 1 && bs[i].used
    ensures Merged(Resized(bs, i, n))
  {
    ResizedSteps(bs, i, n, pool);
    var a := if MergeRight(bs, i) then Absorb(bs, i) else bs;
    if MergeRight(bs, i) {
      AbsorbMerged(bs, i);
      assert a[i + 1] == bs[i + 2] && (bs[i + 1].used || bs[i + 2].used);
    }
    CutMerged(a, i, n);
    var c := Cut(a, i, n);
    assert c[i].used && c[i + 2] == a[i + 1];
    ReflagMerged(c, i + 1, false);
  }

  /** Resizing in place changes one live payload's size and keeps every other. */
  lemma ResizedSums(bs: seq<Block>, i: nat, n: nat, pool: nat)
    requires TiledHeap(bs, pool) && i < |bs| - 1 && bs[i].used && n >= MINIALLOC && Cuttable(bs, i, n)
    ensures FreeBytes(Resized(bs, i, n))
         == FreeBytes(bs) + bs[i].size - n - (if MergeRight(bs, i) then 0 else ITEM)
    ensures Live(Resized(bs, i, n), ITEM)
         == Live(bs, ITEM) - {(bs[i].Payload(ITEM), bs[i].size)} + {(bs[i].Payload(ITEM), n)}
  {
    var hi := Hi(bs, i);
    var rest := bs[i].off + ITEM + n;
    var c, d := Block(bs[i].off, n, true), Block(rest, bs[hi].End(ITEM) - rest - ITEM, false);
    assert d.size == bs[i].size - n + (if MergeRight(bs, i) then bs[i + 1].size else 0)
        - (if MergeRight(bs, i) then 0 else ITEM) && bs[i].size > 0 by {
      assert Abut(bs, i, ITEM, MINIALLOC);
    }
    var run := bs[i..hi + 1];
    assert FreeBytes(run) == (if MergeRight(bs, i) then bs[i + 1].size else 0)
        && Live(run, ITEM) == bs[i].LiveOf(ITEM) by {
      assert run == if MergeRight(bs, i) then [bs[i], bs[i + 1]] else [bs[i]];
      if MergeRight(bs, i) { SumsTwo(bs[i], bs[i + 1], ITEM); } else { SumsOne(bs[i], ITEM); }
    }
    SumsTwo(c, d, ITEM);
    SwapRun(bs, i, hi + 1, [c, d], FreeBytes(run), d.size,
            {(bs[i].Payload(ITEM), bs[i].size)}, {(bs[i].Payload(ITEM), n)}, pool);
  }

  lemma FlagOf(v: View, i: nat, pool: nat)
    requires Shape(v, pool) && i < |v.bs|
    ensures v.bs[i].off in v.used && v.used[v.bs[i].off] == v.bs[i].used
    ensures v.bs[i].off in Offs(v.bs) && 0 <= v.bs[i].off <= pool - ITEM
  {
    assert v.bs[i] in v.bs && Offs(v.bs)[i] == v.bs[i].off;
    InPool(v.bs, i, pool, ITEM, MINIALLOC);
  }

  /** What a free block's links read: block offsets or the list header. */
  lemma FreeNeighbours(v: View, k: nat, pool: nat)
    requires Shape(v, pool) && k < |v.free|
    ensures var h := v.free[k];
            && h in v.nextFree && h in v.prevFree && h in Offs(v.bs)
            && (v.nextFree[h] == FREE_HEADER || v.nextFree[h] in Offs(v.bs))
            && (v.prevFree[h] == FREE_HEADER || v.prevFree[h] in Offs(v.bs))
  {
    FreeLinks(v.free, k, v.nextFree, v.prevFree);
    ItemsInPool(v.bs, v.free, pool);
    assert v.free[k] in v.free;
    assert k > 0 ==> v.free[k - 1] in v.free;
    assert k + 1 < |v.free| ==> v.free[k + 1] in v.free;
  }

  lemma HeaderNeighbour(v: View, pool: nat)
    requires Shape(v, pool)
    ensures FREE_HEADER in v.nextFree
    ensures v.nextFree[FREE_HEADER] == FREE_HEADER || v.nextFree[FREE_HEADER] in Offs(v.bs)
  {
    FirstFree(v.free, v.nextFree, v.prevFree);
    ItemsInPool(v.bs, v.free, pool);
  }

  // --- reading a block's surroundings ---

  lemma LiveBlock(v: View, p: (int, int), pool: nat) returns (i: nat)
    requires Shape(v, pool) && p in Live(v.bs, ITEM)
    ensures i < |v.bs| - 1 && v.bs[i] == Block(p.0 - ITEM, p.1, true) && p.0 >= ITEM && p.1 >= MINIALLOC
    ensures forall q | q in Live(v.bs, ITEM) && q.0 == p.0 :: q == p
  {
    i := LiveFrom(v.bs, p, ITEM, |v.bs|);
    LiveIsUsed(v.bs, i, p, pool);
    InPool(v.bs, i, pool, ITEM, MINIALLOC);
    forall q | q in Live(v.bs, ITEM) && q.0 == p.0 ensures q == p { LiveIsUsed(v.bs, i, q, pool); }
  }

  /** A live payload address belongs to exactly one block, which is used. */
  lemma LiveIsUsed(bs: seq<Block>, i: nat, p: (int, int), pool: nat)
    requires TiledHeap(bs, pool) && i < |bs|
    requires p in Live(bs, ITEM) && p.0 == bs[i].Payload(ITEM)
    ensures bs[i].used && bs[i].size == p.1 && i < |bs| - 1
  {
    var j := LiveFrom(bs, p, ITEM, |bs|);
    OneBlock(bs, i, j, pool);
  }

  /** What the flags of a block's two neighbours say. */
  lemma NeighbourFlags(v: View, pool: nat, i: nat)
    requires Shape(v, pool) && i < |v.bs| - 1
    ensures var h := v.bs[i].off;
            && h in v.next && h in v.prev && h in Offs(v.bs)
            && v.next[h] == v.bs[i + 1].off == v.bs[i].End(ITEM) && v.next[h] in Offs(v.bs) && v.prev[h] in Offs(v.bs)
            && v.prev[h] in v.used && (!v.used[v.prev[h]] <==> MergeLeft(v.bs, i))
            && (MergeLeft(v.bs, i) ==> v.prev[h] == v.bs[i - 1].off)
            && v.next[h] in v.used && (!v.used[v.next[h]] <==> MergeRight(v.bs, i))
  {
    hide Ring, Fits, FreeRing;
    BlockLinks(v.bs, i, v.next, v.prev, pool);
    FlagOf(v, if i > 0 then i - 1 else |v.bs| - 1, pool);
    FlagOf(v, i + 1, pool);
  }

  /** A free right neighbour's link reads where it ends. */
  lemma RightEnds(v: View, pool: nat, i: nat)
    requires Shape(v, pool) && i + 1 < |v.bs| && MergeRight(v.bs, i)
    ensures i + 2 < |v.bs| && v.bs[i + 1].off in v.next && v.next[v.bs[i + 1].off] == v.bs[i + 1].End(ITEM)
  {
    assert v.bs[|v.bs| - 1].used;
    BlockLinks(v.bs, i + 1, v.next, v.prev, pool);
  }

  /** A free right neighbour is on the free list. */
  lemma RightOnList(v: View, pool: nat, j: nat) returns (k: nat)
    requires Shape(v, pool) && j + 1 < |v.bs|
    ensures MergeRight(v.bs, j) ==> k < |v.free| && v.free[k] == v.bs[j + 1].off
    ensures MergeRight(v.bs, j) ==> j + 2 < |v.bs|
  {
    k := 0;
    if MergeRight(v.bs, j) {
      FreeIsFree(v.bs, j + 1, pool);
      k :| k < |v.free| && v.free[k] == v.bs[j + 1].off;
      assert v.bs[|v.bs| - 1].used;
    }
  }

  ghost predicate TooSmall(bs: seq<Block>, a: int, n: nat) {
    exists i :: 0 <= i < |bs| && bs[i].off == a && !bs[i].used && bs[i].size < n
  }

  lemma FreeNotLast(bs: seq<Block>, i: nat, pool: nat)
    requires TiledHeap(bs, pool) && i < |bs| && !bs[i].used
    ensures i < |bs| - 1
  {
  }

  lemma AllTooSmall(bs: seq<Block>, free: seq<int>, n: nat, pool: nat)
    requires TiledHeap(bs, pool) && forall x :: x in free <==> x in FreeOffs(bs)
    requires forall j | 0 <= j < |free| :: TooSmall(bs, free[j], n)
    ensures forall i | 0 <= i < |bs| && !bs[i].used :: bs[i].size < n
  {
    forall i | 0 <= i < |bs| && !bs[i].used
      ensures bs[i].size < n
    {
      FreeOffsIn(bs, i, |bs|);
      assert bs[i].off in FreeOffs(bs);
      var j :| 0 <= j < |free| && free[j] == bs[i].off;
      assert TooSmall(bs, free[j], n);
      OtherBlocks(bs, i, pool);
    }
  }

  /** Some free block can hold n bytes, and n stays strictly below the available size. */
  ghost predicate Fitting(bs: seq<Block>, available: int, n: nat) {
    n < available && exists i :: 0 <= i < |bs| && !bs[i].used && bs[i].size >= n
  }

  /** The free block after the one at payload `ptr` can be drawn on to reach n bytes. */
  ghost predicate GrowRoom(bs: seq<Block>, ptr: int, n: nat) {
    exists i :: 0 <= i < |bs| && bs[i].Payload(ITEM) == ptr && MergeRight(bs, i)
        && bs[i].size + bs[i + 1].size > n + MINIALLOC
  }

  lemma GrowRoomAt(bs: seq<Block>, i: nat, n: nat, pool: nat)
    requires TiledHeap(bs, pool) && i < |bs|
    ensures GrowRoom(bs, bs[i].Payload(ITEM), n)
       <==> MergeRight(bs, i) && bs[i].size + bs[i + 1].size > n + MINIALLOC
  {
    OtherBlocks(bs, i, pool);
  }

  /** The growth test says whether the payload at `ptr` can grow in place to n bytes. */
  ghost predicate GrowSound(bs: seq<Block>, ptr: int, n: nat) {
    forall i | 0 <= i < |bs| && bs[i].Payload(ITEM) == ptr && MergeRight(bs, i) ::
      Narrows(bs[i + 1].size, bs[i].size, n)
  }

  lemma GrowSoundAt(bs: seq<Block>, i: nat, n: nat, pool: nat)
    requires TiledHeap(bs, pool) && i < |bs|
    ensures GrowSound(bs, bs[i].Payload(ITEM), n) <==> (MergeRight(bs, i) ==> Narrows(bs[i + 1].size, bs[i].size, n))
  {
    hide Narrows;
    OtherBlocks(bs, i, pool);
  }

  /** On every heap: the test is right exactly if `GrowSound` says so. */
  lemma GrowSoundExactly(bs: seq<Block>, i: nat, n: nat, pool: nat)
    requires TiledHeap(bs, pool) && i < |bs| && MergeRight(bs, i) && pool < LIMIT && n + MINIALLOC < WORD
    ensures (GrowTest(bs[i + 1].size, bs[i].size, n) <==> GrowRoom(bs, bs[i].Payload(ITEM), n))
       <==> GrowSound(bs, bs[i].Payload(ITEM), n)
  {
    hide GrowTest, TiledHeap, GrowRoom, GrowSound, Narrows;
    FreeNotLast(bs, i + 1, pool);
    BlockEnds(bs, i, pool);
    BlockEnds(bs, i + 1, pool);
    GrowTestExactly(bs[i + 1].size, bs[i].size, n);
    GrowRoomAt(bs, i, n, pool);
    GrowSoundAt(bs, i, n, pool);
  }

  /** Where it is wrong the payload grows all the same, and the header written behind it has not the smallest
      payload before the end of the neighbour to itself and a byte more. */
  lemma GrowsTooFar(bs: seq<Block>, i: nat, n: nat, pool: nat)
    requires TiledHeap(bs, pool) && i < |bs| && MergeRight(bs, i) && pool < LIMIT && n + MINIALLOC < WORD
    requires !GrowSound(bs, bs[i].Payload(ITEM), n)
    ensures GrowTest(bs[i + 1].size, bs[i].size, n)
    ensures bs[i].Payload(ITEM) + n + ITEM + MINIALLOC >= bs[i + 1].End(ITEM)
  {
    hide GrowTest, TiledHeap, GrowSound;
    FreeNotLast(bs, i + 1, pool);
    BlockEnds(bs, i, pool);
    BlockEnds(bs, i + 1, pool);
    GrowSoundAt(bs, i, n, pool);
    GrowTestExactly(bs[i + 1].size, bs[i].size, n);
  }

  /** In a pool below 2^31 bytes the test is always right. */
  lemma SmallPoolSound(bs: seq<Block>, ptr: int, n: nat, pool: nat)
    requires TiledHeap(bs, pool) && pool < 0x8000_0000
    ensures GrowSound(bs, ptr, n)
  {
    forall i | 0 <= i < |bs| && bs[i].Payload(ITEM) == ptr && MergeRight(bs, i)
      ensures Narrows(bs[i + 1].size, bs[i].size, n)
    {
      FreeNotLast(bs, i + 1, pool);
      BlockEnds(bs, i + 1, pool);
    }
  }

  lemma RequestAgain(size: nat)
    requires Requestable(size)
    ensures Requestable(Request(size)) && Request(Request(size)) == Request(size)
  {
  }

  function Copy(bytes: seq<int>, to: int, from: int, n: int): (r: seq<int>)
    requires 0 <= n && 0 <= to <= |bytes| - n && 0 <= from <= |bytes| - n
    ensures |r| == |bytes|
    ensures forall j | to <= j < to + n :: r[j] == bytes[from + (j - to)]
    ensures forall j | 0 <= j < |bytes| && !(to <= j < to + n) :: r[j] == bytes[j]
  {
    bytes[..to] + bytes[from..from + n] + bytes[to + n..]
  }

  lemma PayloadsApart(bs: seq<Block>, p: (int, int), q: (int, int), pool: nat)
    requires TiledHeap(bs, pool) && p in Live(bs, ITEM) && q in Live(bs, ITEM)
    ensures p == q || p.0 + p.1 <= q.0 || q.0 + q.1 <= p.0
    ensures ITEM <= p.0 <= p.0 + p.1 <= pool - ITEM && ITEM <= q.0 <= q.0 + q.1 <= pool - ITEM
  {
    var i := LiveFrom(bs, p, ITEM, |bs|);
    var j := LiveFrom(bs, q, ITEM, |bs|);
    PayloadsDisjoint(bs, p, q, pool, ITEM, MINIALLOC);
    PayloadsDisjoint(bs, q, p, pool, ITEM, MINIALLOC);
  }

  /** A payload resized in place keeps its first bytes, and the others keep theirs. */
  lemma KeptInPlace(l0: set<(int, int)>, m0: seq<int>, l1: set<(int, int)>, m1: seq<int>, ptr: int, size: int, got: int)
    requires Preserved(l0, m0, l1, m1) && (ptr, size) in l0 && (ptr, got) in l1
    requires 0 <= ptr <= ptr + size <= |m0| && 0 <= got && ptr + got <= |m0|
    ensures Preserved(l0 - {(ptr, size)}, m0, l1, m1)
    ensures var keep := if size < got then size else got; m1[ptr..ptr + keep] == m0[ptr..ptr + keep]
  {
  }

  /** Allocating, copying and freeing moves a payload and leaves the others alone. */
  lemma MoveContents(bs0: seq<Block>, bs1: seq<Block>, bs2: seq<Block>, old_: (int, int), new_: (int, int), pool: nat,
                     b0: seq<int>, b1: seq<int>, b2: seq<int>, b3: seq<int>)
    requires TiledHeap(bs1, pool) && old_ in Live(bs0, ITEM) && new_ !in Live(bs0, ITEM)
    requires Live(bs1, ITEM) == Live(bs0, ITEM) + {new_} && Live(bs2, ITEM) == Live(bs1, ITEM) - {old_}
    requires |b0| == pool && old_.1 <= new_.1 && 0 <= old_.1
    requires Preserved(Live(bs0, ITEM), b0, Live(bs1, ITEM), b1)
    requires 0 <= new_.0 <= |b1| - old_.1 && 0 <= old_.0 <= |b1| - old_.1 && b2 == Copy(b1, new_.0, old_.0, old_.1)
    requires Preserved(Live(bs1, ITEM), b2, Live(bs2, ITEM), b3)
    ensures Preserved(Live(bs0, ITEM) - {old_}, b0, Live(bs2, ITEM), b3)
    ensures b3[new_.0..new_.0 + old_.1] == b0[old_.0..old_.0 + old_.1]
  {
    hide Live, Tiled;
    PayloadsDisjoint(bs1, old_, new_, pool, ITEM, MINIALLOC);
    forall p, q, i | p in Live(bs0, ITEM) - {old_} && q in Live(bs2, ITEM) && p.0 == q.0 && p.0 <= i < p.0 + p.1
                     && i < q.0 + q.1 && 0 <= i < |b0|
      ensures b3[i] == b0[i]
    {
      PayloadsDisjoint(bs1, p, new_, pool, ITEM, MINIALLOC);
      PayloadsDisjoint(bs1, p, q, pool, ITEM, MINIALLOC);
    }
    assert new_ in Live(bs2, ITEM) && new_ in Live(bs1, ITEM) && old_ in Live(bs1, ITEM);
    assert b2[new_.0..new_.0 + old_.1] == b1[old_.0..old_.0 + old_.1];
    assert b3[new_.0..new_.0 + old_.1] == b2[new_.0..new_.0 + old_.1];
    assert b1[old_.0..old_.0 + old_.1] == b0[old_.0..old_.0 + old_.1];
  }

  lemma OnlyElement(s: seq<int>, x: int)
    requires Distinct(s) && forall y :: y in s <==> y == x
    ensures s == [x]
  {
    assert |s| >= 2 ==> s[0] != s[1];
    assert x in s;
    forall j | 0 <= j < |s| ensures s[j] == x { assert s[j] in s; }
  }

  /** A request in the style of rt_realloc: allocate (NULL pointer), resize, or free (zero size). */
  datatype Op = Op(ptr: int, size: nat)

  class MemHeap {
    // item fields, keyed by the item's offset in the pool
    var next: Links
    var prev: Links
    var nextFree: Links
    var prevFree: Links
    var used: map<int, bool>
    // heap object fields
    const poolSize: nat
    var available: int
    var maxUsed: int
    var bytes: seq<int>

    ghost var blocks: seq<Block>
    ghost var free: seq<int>
    ghost var history: seq<int>   // used sizes after each completed operation

    ghost predicate Valid()
      reads this
    {
      && Shape(View(blocks, next, prev, free, nextFree, prevFree, used), poolSize)
      && Merged(blocks)
      && available == FreeBytes(blocks)
      && |bytes| == poolSize < LIMIT
      && HighWater(history, maxUsed) && history[|history| - 1] == poolSize - available
    }

    ghost function Allocated(): set<(int, int)>
      reads `blocks
    {
      Live(blocks, ITEM)
    }

    /** rt_memheap_init on an aligned pool. */
    constructor (start: seq<int>, size: nat)
      requires size < LIMIT && size / ALIGN * ALIGN >= 2 * ITEM + MINIALLOC
      requires |start| == size / ALIGN * ALIGN
      ensures Valid() && poolSize == size / ALIGN * ALIGN
      ensures blocks == [Block(0, poolSize - 2 * ITEM, false), Block(poolSize - ITEM, 0, true)]
      ensures free == [0] && Allocated() == {}
      ensures history == [2 * ITEM] && available == poolSize - 2 * ITEM
    {
      var tail := size / ALIGN * ALIGN - ITEM;
      poolSize := tail + ITEM;
      available := tail - ITEM;
      maxUsed := 2 * ITEM;
      next := map[FREE_HEADER := NULL_ITEM, 0 := tail, tail := 0];
      prev := map[FREE_HEADER := NULL_ITEM, 0 := tail, tail := 0];
      nextFree := map[FREE_HEADER := 0, 0 := FREE_HEADER, tail := NULL_ITEM];
      prevFree := map[FREE_HEADER := 0, 0 := FREE_HEADER, tail := NULL_ITEM];
      used := map[FREE_HEADER := false, 0 := false, tail := true];
      bytes := start;
      blocks := [Block(0, tail - ITEM, false), Block(tail, 0, true)];
      free := [0];
      history := [2 * ITEM];
      new;
      assert Abut(blocks, 0, ITEM, MINIALLOC);
      SumsTwo(blocks[0], blocks[1], ITEM);
      assert blocks == [blocks[0], blocks[1]];
    }

    ghost function V(): View
      reads this
    {
      View(blocks, next, prev, free, nextFree, prevFree, used)
    }

    /** An operation that found `base` in memory is under way; its stores so far stayed within the items of `area`. */
    ghost predicate InOp(base: seq<int>, area: set<int>)
      reads this
    {
      && Shape(V(), poolSize)
      && |bytes| == poolSize && OnlyItems(base, bytes, area)
      && Elems(Offs(blocks)) + {FREE_HEADER} <= area
      && forall a | a in area :: Item(a, poolSize)
    }

    lemma StartOp(rest: int)
      requires Shape(V(), poolSize) && |bytes| == poolSize && Item(rest, poolSize)
      ensures InOp(bytes, Elems(Offs(blocks)) + {FREE_HEADER, rest})
    {
      ItemsInPool(blocks, free, poolSize);
    }

    /** The effect on memory of storing to fields of the listed items: their header bytes are overwritten. */
    method StoreItems(items: seq<int>, ghost base: seq<int>, ghost area: set<int>)
      requires |bytes| == poolSize && OnlyItems(base, bytes, area) && Elems(items) <= area
      requires forall a | a in area :: Item(a, poolSize)
      modifies `bytes
      ensures |bytes| == poolSize && OnlyItems(base, bytes, area)
    {
      for n := 0 to |items|
        invariant |bytes| == poolSize && OnlyItems(base, bytes, area)
      {
        var a := items[n];
        assert a in Elems(items);
        if a != FREE_HEADER {
          assert |seq(ITEM, _ => 0)| == ITEM;
          var header: seq<int> :| |header| == ITEM;
          bytes := bytes[..a] + header + bytes[a + ITEM..];
        }
      }
    }

    /** What an operation under way can read around block i. */
    lemma Around(i: nat, base: seq<int>, area: set<int>)
      requires InOp(base, area) && i < |blocks| - 1
      ensures var h := blocks[i].off;
              && h in next && h in prev && h in Offs(blocks)
              && next[h] == blocks[i + 1].off == blocks[i].End(ITEM)
              && prev[h] in used && (!used[prev[h]] <==> MergeLeft(blocks, i))
              && (MergeLeft(blocks, i) ==> prev[h] == blocks[i - 1].off)
              && next[h] in used && (!used[next[h]] <==> MergeRight(blocks, i))
      ensures MergeRight(blocks, i) ==> i + 2 < |blocks| && blocks[i + 1].off in next
      ensures MergeRight(blocks, i) ==> next[blocks[i + 1].off] == blocks[i + 1].End(ITEM)
    {
      NeighbourFlags(V(), poolSize, i);
      if MergeRight(blocks, i) { RightEnds(V(), poolSize, i); }
    }

    // --- the fragments the operations share; a block in transit counts as used ---

    /** Remove a block from the free list and mark it used. */
    method TakeOff(h: int, ghost i: nat, ghost k: nat, ghost base: seq<int>, ghost area: set<int>)
      requires InOp(base, area) && i < |blocks| - 1 && k < |free| && free[k] == blocks[i].off == h
      modifies `nextFree, `prevFree, `used, `bytes, `blocks, `free
      ensures InOp(base, area) && blocks == Reflag(old(blocks), i, true) && free == DeleteAt(old(free), k)
    {
      hide Ring, Fits, FreeRing, TiledHeap, Reflag, DeleteAt, OnlyItems;
      TakeStep(V(), poolSize, i, k);
      ReflagTiled(blocks, i, true, poolSize);
      FreeNeighbours(V(), k, poolSize);
      StoreItems([h, nextFree[h], prevFree[h]], base, area);
      var (nextFree1, prevFree1) := Taken(nextFree, prevFree, h);
      nextFree, prevFree, used := nextFree1, prevFree1, used[h := true];
      blocks, free := Reflag(blocks, i, true), DeleteAt(free, k);
    }

    /** Mark a block free and insert it at the head of the free list. */
    method PutFree(h: int, ghost i: nat, ghost base: seq<int>, ghost area: set<int>)
      requires InOp(base, area) && i < |blocks| - 1 && blocks[i].used && blocks[i].off == h
      modifies `nextFree, `prevFree, `used, `bytes, `blocks, `free
      ensures InOp(base, area) && blocks == Reflag(old(blocks), i, false) && free == [h] + old(free)
    {
      hide Ring, Fits, FreeRing, TiledHeap, Reflag, OnlyItems;
      PutStep(V(), poolSize, i);
      ReflagTiled(blocks, i, false, poolSize);
      HeaderNeighbour(V(), poolSize);
      FlagOf(V(), i, poolSize);
      StoreItems([h, FREE_HEADER, nextFree[FREE_HEADER]], base, area);
      var (nextFree1, prevFree1) := PushFree(nextFree, prevFree, h);
      nextFree, prevFree, used := nextFree1, prevFree1, used[h := false];
      blocks, free := Reflag(blocks, i, false), [h] + free;
    }

    /** Break a used block after n payload bytes and link the second part into the block list. */
    method CutBlock(h: int, n: nat, ghost i: nat, ghost base: seq<int>, ghost area: set<int>)
      requires InOp(base, area) && i < |blocks| - 1 && blocks[i].used && blocks[i].off == h
      requires n >= MINIALLOC && blocks[i].size >= n + ITEM + MINIALLOC && h + ITEM + n in area
      modifies `next, `prev, `used, `bytes, `blocks
      ensures InOp(base, area) && blocks == Cut(old(blocks), i, n)
    {
      hide Ring, Fits, FreeRing, TiledHeap, Cut, OnlyItems;
      var rest := h + ITEM + n;
      CutStep(V(), poolSize, i, n);
      BlockLinks(blocks, i, next, prev, poolSize);
      CutOffs(blocks, i, n);
      StoreItems([rest, h, next[h]], base, area);
      var (next1, prev1) := InsertAfter(next, prev, h, rest);
      next, prev, used := next1, prev1, used[rest := true];
      blocks := Cut(blocks, i, n);
    }

    /** Let block i swallow its free right neighbour: unlink that from both lists. */
    method MergeNext(right: int, ghost i: nat, ghost base: seq<int>, ghost area: set<int>) returns (ghost k: nat)
      requires InOp(base, area) && i + 1 < |blocks| && MergeRight(blocks, i) && blocks[i + 1].off == right
      modifies `next, `prev, `nextFree, `prevFree, `bytes, `blocks, `free
      ensures InOp(base, area) && blocks == Absorb(old(blocks), i) && i < |blocks| - 1
      ensures k < |old(free)| && old(free)[k] == right && free == DeleteAt(old(free), k)
    {
      hide Ring, Fits, FreeRing, TiledHeap, Absorb, DeleteAt, OnlyItems;
      k := RightOnList(V(), poolSize, i);
      AbsorbRightStep(V(), poolSize, i, k);
      BlockLinks(blocks, i + 1, next, prev, poolSize);
      FreeNeighbours(V(), k, poolSize);
      AbsorbOffs(blocks, i);
      StoreItems([next[right], prev[right], nextFree[right], prevFree[right]], base, area);
      var (next1, prev1) := Unlink(next, prev, right);
      var (nextFree1, prevFree1) := Unlink(nextFree, prevFree, right);
      next, prev, nextFree, prevFree := next1, prev1, nextFree1, prevFree1;
      blocks, free := Absorb(blocks, i), DeleteAt(free, k);
    }

    /** Let the free left neighbour swallow used block i + 1: unlink that from the block list. */
    method MergePrev(h: int, ghost i: nat, ghost base: seq<int>, ghost area: set<int>)
      requires InOp(base, area) && i + 1 < |blocks| - 1 && !blocks[i].used && blocks[i + 1].used
               && blocks[i + 1].off == h
      modifies `next, `prev, `used, `bytes, `blocks
      ensures InOp(base, area) && blocks == Absorb(old(blocks), i)
    {
      hide Ring, Fits, FreeRing, TiledHeap, Absorb, OnlyItems;
      AbsorbLeftStep(V(), poolSize, i);
      BlockLinks(blocks, i + 1, next, prev, poolSize);
      AbsorbOffs(blocks, i);
      StoreItems([h, next[h], prev[h]], base, area);
      var (next1, prev1) := Unlink(next, prev, h);
      next, prev, used := next1, prev1, used[h := false];
      blocks := Absorb(blocks, i);
    }

    /** The end of every operation: the counters are brought up to date, memory is as it was but for headers. */
    method Finish(delta: int, ghost bs0: seq<Block>, ghost base: seq<int>, ghost area: set<int>)
      requires TiledHeap(bs0, poolSize) && InOp(base, area)
      requires Covered(area, bs0, blocks)
      requires Merged(blocks) && FreeBytes(blocks) == available + delta
      requires poolSize < LIMIT && HighWater(history, maxUsed)
      modifies `available, `maxUsed, `history
      ensures Valid() && history == old(history) + [poolSize - available] && available == old(available) + delta
      ensures Preserved(Live(bs0, ITEM), base, Allocated(), bytes)
    {
      ContentsKept(bs0, blocks, base, bytes, area, poolSize);
      available := available + delta;
      UpdatePeak();
    }

    /** Where an operation leaves the high-water mark; `history` logs the used size. */
    method UpdatePeak()
      requires HighWater(history, maxUsed)
      modifies `maxUsed, `history
      ensures HighWater(history, maxUsed) && history == old(history) + [poolSize - available]
    {
      history := history + [poolSize - available];
      if poolSize - available > maxUsed {
        maxUsed := poolSize - available;
      }
      assert poolSize - available in history;
    }

    /** First fit along the free list. */
    method FindFree(n: nat) returns (h: int, size: int, ghost k: nat, ghost i: nat)
      requires Valid() && n >= MINIALLOC
      ensures k <= |free| && forall j | 0 <= j < k :: TooSmall(blocks, free[j], n)
      ensures size >= n ==> k < |free| && h == free[k] && FreeFit(blocks, i, n) && i < |blocks| - 1
                            && blocks[i].off == h && blocks[i].size == size
      ensures size < n ==> forall j | 0 <= j < |blocks| && !blocks[j].used :: blocks[j].size < n
    {
      hide TiledHeap, Ring, FreeRing, Merged, HighWater, FreeBytes;
      size, k, i := 0, 0, 0;
      FirstFree(free, nextFree, prevFree);
      FreeDistinct(free, nextFree, prevFree);
      h := nextFree[FREE_HEADER];
      while h != FREE_HEADER && size < n
        invariant k <= |free| && h == (if k < |free| then free[k] else FREE_HEADER)
        invariant forall j | 0 <= j < k :: TooSmall(blocks, free[j], n)
        invariant size >= n ==> k < |free| && FreeFit(blocks, i, n) && i < |blocks| - 1
                                && blocks[i].off == h && blocks[i].size == size
        decreases |free| - k, if size < n then 1 else 0
      {
        assert free[k] in free;
        i := FreeOffsFrom(blocks, h, |blocks|);
        FreeNotLast(blocks, i, poolSize);
        BlockLinks(blocks, i, next, prev, poolSize);
        size := next[h] - h - ITEM;
        if size < n {
          assert TooSmall(blocks, free[k], n);
          FreeLinks(free, k, nextFree, prevFree);
          h := nextFree[h];
          k := k + 1;
        }
      }
      if size < n {
        assert k == |free|;
        AllTooSmall(blocks, free, n, poolSize);
      }
    }

    /** The part of rt_memheap_alloc after the search. */
    method Place(h: int, freeSize: int, n: nat, ghost i: nat, ghost k: nat)
      requires Valid() && FreeFit(blocks, i, n) && i < |blocks| - 1 && blocks[i].size == freeSize
      requires k < |free| && free[k] == blocks[i].off == h
      modifies this
      ensures Valid() && blocks == Placed(old(blocks), i, n)
      ensures free == (if freeSize >= n + ITEM + MINIALLOC then [h + ITEM + n] else []) + DeleteAt(old(free), k)
      ensures history == old(history) + [poolSize - available]
      ensures Preserved(old(Allocated()), old(bytes), Allocated(), bytes)
    {
      hide TiledHeap, Ring, Fits, FreeRing, MergedBut, InOp, FreeBytes, Live, Reflag, Cut, Placed, DeleteAt, HighWater;
      hide Covered, Offs, Preserved, OnlyItems;
      ghost var bs0, base := blocks, bytes;
      StartPlace(i, n);
      if freeSize >= n + ITEM + MINIALLOC {
        var rest := h + ITEM + n;
        ghost var area := Elems(Offs(blocks)) + {FREE_HEADER, rest};
        TakeOff(h, i, k, base, area);
        CutBlock(h, n, i, base, area);
        PutFree(rest, i + 1, base, area);
        Finish(-(n as int) - ITEM, bs0, base, area);
      } else {
        ghost var area := Elems(Offs(blocks)) + {FREE_HEADER, FREE_HEADER};
        TakeOff(h, i, k, base, area);
        Finish(-freeSize, bs0, base, area);
      }
    }

    /** What handing out block i will amount to. */
    lemma StartPlace(i: nat, n: nat)
      requires Valid() && FreeFit(blocks, i, n) && i < |blocks| - 1
      ensures var split, rest := blocks[i].size >= n + ITEM + MINIALLOC, blocks[i].off + ITEM + n;
              var area := Elems(Offs(blocks)) + {FREE_HEADER, if split then rest else FREE_HEADER};
              && InOp(bytes, area) && Covered(area, blocks, Placed(blocks, i, n))
              && Placed(blocks, i, n) == (if split then Reflag(Cut(Reflag(blocks, i, true), i, n), i + 1, false)
                                          else Reflag(blocks, i, true))
              && Merged(Placed(blocks, i, n)) && TiledHeap(blocks, poolSize)
              && FreeBytes(Placed(blocks, i, n)) == FreeBytes(blocks) - (if split then n + ITEM else blocks[i].size)
    {
      hide Ring, Fits, FreeRing, MergedBut, FreeBytes, Live, Reflag, Cut, Placed;
      BlockEnds(blocks, i, poolSize);
      PlacedSteps(blocks, i, n);
      PlacedMerged(blocks, i, n);
      PlacedSums(blocks, i, n, poolSize);
      if blocks[i].size >= n + ITEM + MINIALLOC {
        StartOp(blocks[i].off + ITEM + n);
        assert Offs(Placed(blocks, i, n))[i + 1] == blocks[i].off + ITEM + n;
      } else {
        StartOp(FREE_HEADER);
      }
    }

    /** rt_memheap_alloc: first fit along the free list, strictly below the available size. */
    method Alloc(size: nat) returns (ptr: int, ghost got: int, ghost i: nat, ghost k: nat)
      requires Valid() && Requestable(size)
      modifies this
      ensures Valid()
      ensures ptr == NULL <==> !Fitting(old(blocks), old(available), Request(size))
      ensures ptr == NULL ==>
              blocks == old(blocks) && free == old(free) && bytes == old(bytes) && history == old(history)
      ensures ptr != NULL ==>
        && FreeFit(old(blocks), i, Request(size)) && ptr == old(blocks)[i].Payload(ITEM)
        && k < |old(free)| && old(free)[k] == old(blocks)[i].off
        && (forall j | 0 <= j < k :: TooSmall(old(blocks), old(free)[j], Request(size)))
        && blocks == Placed(old(blocks), i, Request(size))
        && Request(size) <= got < Request(size) + ITEM + MINIALLOC
        && Allocated() == old(Allocated()) + {(ptr, got)} && (forall p | p in old(Allocated()) :: p.0 != ptr)
        && history == old(history) + [poolSize - available]
      ensures Preserved(old(Allocated()), old(bytes), Allocated(), bytes)
    {
      hide TiledHeap, Ring, Fits, FreeRing, MergedBut, HighWater, Placed, FreeBytes, Live, TooSmall, Preserved;
      var n := Request(size);
      ptr, got, i, k := NULL, 0, 0, 0;
      Unchanged({});
      if n < available {
        var h, freeSize;
        h, freeSize, k, i := FindFree(n);
        if freeSize >= n {
          ptr, got := h + ITEM, Carve(blocks[i], n)[0].size;
          FlagOf(V(), i, poolSize);
          PlacedSums(blocks, i, n, poolSize);
          forall p | p in Allocated() ensures p.0 != ptr { PlacedIsNew(blocks, i, p, poolSize); }
          Place(h, freeSize, n, i, k);
        }
      }
    }

    /** rt_memheap_realloc. */
    method Realloc(ptr: int, newsize: nat, ghost size: int) returns (r: int, ghost got: int)
      requires Valid() && Requestable(newsize) && (ptr == NULL || (ptr, size) in Allocated())
      requires ptr != NULL && Request(newsize) > size ==> GrowSound(blocks, ptr, Request(newsize))
      modifies this
      ensures Valid() && old(history) <= history
      ensures newsize == 0 ==>
              r == NULL && Allocated() == old(Allocated()) - (if ptr == NULL then {} else {(ptr, size)})
      ensures newsize > 0 ==>
        && (r == NULL <==> !Fitting(old(blocks), old(available), Request(newsize))
                           && (ptr == NULL || (Request(newsize) > size
                                && !GrowRoom(old(blocks), ptr, Request(newsize)))))
        && (r == NULL ==> blocks == old(blocks) && bytes == old(bytes))
        && (r != NULL ==>
              && Request(newsize) <= got <= Request(newsize) + ITEM + MINIALLOC
              && Allocated() == old(Allocated()) - (if ptr == NULL then {} else {(ptr, size)}) + {(r, got)})
        && (r != NULL && ptr != NULL ==>
              && (r == ptr <==> Request(newsize) <= size || GrowRoom(old(blocks), ptr, Request(newsize)))
              && (r == ptr ==>
                    got == if Request(newsize) <= size <= Request(newsize) + ITEM + MINIALLOC then size
                           else Request(newsize))
              && var keep := if size < got then size else got;
                 && 0 <= ptr <= ptr + keep <= poolSize && 0 <= r <= r + keep <= poolSize
                 && bytes[r..r + keep] == old(bytes)[ptr..ptr + keep])
      ensures Preserved(old(Allocated()) - (if ptr == NULL then {} else {(ptr, size)}), old(bytes), Allocated(), bytes)
    {
      hide Shape, MergedBut, HighWater, Placed, FreeBytes, Live, TooSmall, Fitting, GrowRoom, Released, Request,
          FreeFit, GrowSound;
      r, got := NULL, 0;
      if newsize == 0 {
        ghost var i := Free(ptr, size);
        return;
      }
      var n := Request(newsize);
      RequestAgain(newsize);
      if ptr == NULL {
        ghost var i, k;
        r, got, i, k := Alloc(n);
        return;
      }
      r, got := ReallocLive(ptr, n, size);
    }

    /** The part of rt_memheap_realloc past the NULL and zero cases, on a rounded size. */
    method ReallocLive(ptr: int, n: nat, ghost size: int) returns (r: int, ghost got: int)
      requires Valid() && Requestable(n) && Request(n) == n && (ptr, size) in Allocated()
      requires n > size ==> GrowSound(blocks, ptr, n)
      modifies this
      ensures Valid() && old(history) <= history
      ensures r == NULL <==> !Fitting(old(blocks), old(available), n) && n > size && !GrowRoom(old(blocks), ptr, n)
      ensures r == NULL ==> blocks == old(blocks) && bytes == old(bytes)
      ensures r != NULL ==> got >= n && Allocated() == old(Allocated()) - {(ptr, size)} + {(r, got)}
      ensures r != NULL ==> (r == ptr <==> n <= size || GrowRoom(old(blocks), ptr, n))
      ensures r == ptr ==> got == if n <= size <= n + ITEM + MINIALLOC then size else n
      ensures r != NULL ==> got <= n + ITEM + MINIALLOC
      ensures r != NULL ==>
        var keep := if size < got then size else got;
        && 0 <= ptr <= ptr + keep <= poolSize && 0 <= r <= r + keep <= poolSize
        && bytes[r..r + keep] == old(bytes)[ptr..ptr + keep]
      ensures Preserved(old(Allocated()) - {(ptr, size)}, old(bytes), Allocated(), bytes)
    {
      hide TiledHeap, Ring, Fits, FreeRing, MergedBut, HighWater, Placed, FreeBytes, Live, TooSmall, Fitting, GrowRoom,
          Resized, GrowTest, GrowSound;
      hide InOp, Covered, Offs, Elems, OnlyItems, Preserved, Reflag, Cut, Absorb, Released;
      ghost var i := StartFree(ptr, size);
      GrowRoomAt(blocks, i, n, poolSize);
      BlockEnds(blocks, i, poolSize);
      PayloadsApart(blocks, (ptr, size), (ptr, size), poolSize);
      ghost var area := Elems(Offs(blocks)) + {FREE_HEADER, FREE_HEADER};
      Around(i, bytes, area);
      var h := ptr - ITEM;
      var oldsize := next[h] - h - ITEM;
      ghost var live, mem := Allocated(), bytes;
      r, got := ptr, oldsize;
      if n > oldsize {
        var right := next[h];
        if MergeRight(blocks, i) { GrowSoundExactly(blocks, i, n, poolSize); }
        if !used[right] && GrowTest(next[right] - right - ITEM, oldsize, n) {
          got := n;
          StartResize(i, n);
          GrowInPlace(h, n, i);
        } else {
          r, got := Move(ptr, oldsize, n);
          return;
        }
      } else if n + ITEM + MINIALLOC < oldsize {
        got := n;
        StartResize(i, n);
        ShrinkInPlace(h, n, i);
      } else {
        Unchanged({(ptr, size)});
      }
      PayloadsApart(blocks, (ptr, got), (ptr, got), poolSize);
      KeptInPlace(live, mem, Allocated(), bytes, ptr, size, got);
    }

    /** Reallocation by allocating, copying and freeing. */
    method Move(ptr: int, size: int, n: nat) returns (r: int, ghost got: int)
      requires Valid() && Requestable(n) && Request(n) == n && (ptr, size) in Allocated() && n > size
      modifies this
      ensures Valid() && old(history) <= history
      ensures r == NULL <==> !Fitting(old(blocks), old(available), n)
      ensures r == NULL ==> blocks == old(blocks) && bytes == old(bytes)
      ensures r != NULL ==> got >= n && Allocated() == old(Allocated()) - {(ptr, size)} + {(r, got)}
      ensures r != NULL ==> r != ptr && got < n + ITEM + MINIALLOC
      ensures r != NULL ==>
        && 0 <= ptr <= ptr + size <= poolSize && 0 <= r <= r + size <= poolSize
        && bytes[r..r + size] == old(bytes)[ptr..ptr + size]
      ensures Preserved(old(Allocated()) - {(ptr, size)}, old(bytes), Allocated(), bytes)
    {
      hide TiledHeap, Ring, Fits, FreeRing, MergedBut, HighWater, Placed, FreeBytes, Live, TooSmall, Fitting, Released;
      hide InOp, Covered, Offs, Elems, OnlyItems, Preserved, Reflag, Absorb, FreeFit, Request;
      ghost var bs0, b0 := blocks, bytes;
      ghost var i0 := StartFree(ptr, size);
      ghost var i, k;
      r, got, i, k := Alloc(n);
      if r == NULL {
        Unchanged({(ptr, size)});
        return;
      }
      ghost var bs1, b1 := blocks, bytes;
      PayloadsApart(bs1, (ptr, size), (r, got), poolSize);
      bytes := Copy(bytes, r, ptr, size);
      ghost var b2 := bytes;
      i := Free(ptr, size);
      MoveContents(bs0, bs1, blocks, (ptr, size), (r, got), poolSize, b0, b1, b2, bytes);
    }


    /** rt_memheap_free; NULL is accepted. */
    method Free(ptr: int, ghost size: int) returns (ghost i: nat)
      requires Valid() && (ptr == NULL || (ptr, size) in Allocated())
      modifies this
      ensures Valid()
      ensures ptr == NULL ==>
              blocks == old(blocks) && free == old(free) && bytes == old(bytes) && history == old(history)
      ensures ptr != NULL ==>
        && i < |old(blocks)| && old(blocks)[i] == Block(ptr - ITEM, size, true)
        && blocks == Released(old(blocks), i)
        && Allocated() == old(Allocated()) - {(ptr, size)}
        && history == old(history) + [poolSize - available]
      ensures Preserved(old(Allocated()), old(bytes), Allocated(), bytes)
    {
      hide TiledHeap, Ring, Fits, FreeRing, MergedBut, InOp, FreeBytes, Live, Reflag, Absorb, Released, DeleteAt,
          HighWater;
      hide Covered, Offs, Preserved, OnlyItems;
      i := 0;
      if ptr == NULL {
        Unchanged({(ptr, size)});
        return;
      }
      ghost var bs0, base, area := blocks, bytes, Elems(Offs(blocks)) + {FREE_HEADER, FREE_HEADER};
      i := StartFree(ptr, size);
      Around(i, base, area);
      var delta := next[ptr - ITEM] - (ptr - ITEM) - ITEM;
      var header, insertHeader, gained;
      ghost var j;
      header, insertHeader, gained, j := MergeAround(ptr - ITEM, i, base, area);
      if insertHeader {
        PutFree(header, j, base, area);
      }
      Finish(delta + gained, bs0, base, area);
    }

    lemma Unchanged(gone: set<(int, int)>)
      ensures Preserved(Allocated(), bytes, Allocated(), bytes)
      ensures Preserved(Allocated() - gone, bytes, Allocated(), bytes)
    {
    }

    /** What freeing a live payload will amount to. */
    lemma StartFree(ptr: int, size: int) returns (i: nat)
      requires Valid() && (ptr, size) in Allocated()
      ensures i < |blocks| - 1 && blocks[i] == Block(ptr - ITEM, size, true)
      ensures InOp(bytes, Elems(Offs(blocks)) + {FREE_HEADER, FREE_HEADER})
      ensures Covered(Elems(Offs(blocks)) + {FREE_HEADER, FREE_HEADER}, blocks, Released(blocks, i))
      ensures var bs := if MergeLeft(blocks, i) then Absorb(blocks, i - 1) else blocks;
              var bs1 := if MergeRight(blocks, i) then Absorb(bs, Lo(blocks, i)) else bs;
              Released(blocks, i) == if MergeLeft(blocks, i) then bs1 else Reflag(bs1, i, false)
      ensures Merged(Released(blocks, i)) && TiledHeap(blocks, poolSize)
      ensures FreeBytes(Released(blocks, i)) == FreeBytes(blocks) + size
            + (if MergeLeft(blocks, i) then ITEM else 0) + (if MergeRight(blocks, i) then ITEM else 0)
      ensures Live(Released(blocks, i), ITEM) == Allocated() - {(ptr, size)}
    {
      hide Ring, Fits, FreeRing, MergedBut, FreeBytes, Live, Reflag, Absorb, Released;
      i := LiveBlock(V(), (ptr, size), poolSize);
      ReleasedSteps(blocks, i, poolSize);
      ReleasedMerged(blocks, i, poolSize);
      ReleasedSums(blocks, i, poolSize);
      StartOp(FREE_HEADER);
    }

    /** The two merges of rt_memheap_free. */
    method MergeAround(h: int, ghost i: nat, ghost base: seq<int>, ghost area: set<int>)
        returns (header: int, insertHeader: bool, gained: int, ghost j: nat)
      requires InOp(base, area) && i < |blocks| - 1 && blocks[i].used && blocks[i].off == h
      modifies `next, `prev, `nextFree, `prevFree, `used, `bytes, `blocks, `free
      ensures InOp(base, area) && j == Lo(old(blocks), i) && j < |blocks| - 1
      ensures header == blocks[j].off && insertHeader == blocks[j].used == !MergeLeft(old(blocks), i)
      ensures gained == (if MergeLeft(old(blocks), i) then ITEM else 0)
              + (if MergeRight(old(blocks), i) then ITEM else 0)
      ensures blocks == (var bs := if MergeLeft(old(blocks), i) then Absorb(old(blocks), j) else old(blocks);
                         if MergeRight(old(blocks), i) then Absorb(bs, j) else bs)
    {
      hide InOp, Shape, Absorb, DeleteAt;
      header, insertHeader, gained, j := h, true, 0, i;
      Around(i, base, area);
      if !used[prev[header]] {
        var left := prev[header];
        j := i - 1;
        MergePrev(header, j, base, area);
        header, insertHeader, gained := left, false, ITEM;
      }
      var merged, nextSize := MergeIfFree(header, j, base, area);
      if merged {
        gained := gained + ITEM;
      }
    }

    /** Merge a block with its next neighbour if that is free. */
    method MergeIfFree(h: int, ghost i: nat, ghost base: seq<int>, ghost area: set<int>)
        returns (merged: bool, nextSize: int)
      requires InOp(base, area) && i < |blocks| - 1 && blocks[i].off == h
      modifies `next, `prev, `nextFree, `prevFree, `bytes, `blocks, `free
      ensures InOp(base, area) && i < |blocks| - 1 && blocks[i].off == h && merged == MergeRight(old(blocks), i)
      ensures blocks == if merged then Absorb(old(blocks), i) else old(blocks)
      ensures nextSize == if merged then old(blocks)[i + 1].size else 0
    {
      hide InOp, Shape, Absorb, DeleteAt;
      Around(i, base, area);
      merged, nextSize := !used[next[h]], 0;
      if merged {
        nextSize := next[next[h]] - next[h] - ITEM;
        ghost var k := MergeNext(next[h], i, base, area);
      }
    }

    /** The branch of rt_memheap_realloc that draws on the following free block. */
    method GrowInPlace(h: int, n: nat, ghost i: nat)
      requires Valid() && i < |blocks| - 1 && blocks[i].used && blocks[i].off == h
      requires MergeRight(blocks, i) && n > blocks[i].size && n >= MINIALLOC
               && blocks[i].size + blocks[i + 1].size > n + MINIALLOC
      modifies this
      ensures Valid() && blocks == Resized(old(blocks), i, n)
      ensures history == old(history) + [poolSize - available]
      ensures Preserved(old(Allocated()), old(bytes), Allocated(), bytes)
    {
      hide TiledHeap, Ring, Fits, FreeRing, MergedBut, InOp, FreeBytes, Live, Reflag, Absorb, Cut, Resized, HighWater;
      hide Covered, Offs, Preserved, OnlyItems;
      ghost var bs0, base, area := blocks, bytes, Elems(Offs(blocks)) + {FREE_HEADER, h + ITEM + n};
      StartResize(i, n);
      var oldsize := ExtendBlock(h, n, i, base, area);
      Finish(-(n - oldsize), bs0, base, area);
    }

    method ExtendBlock(h: int, n: nat, ghost i: nat, ghost base: seq<int>, ghost area: set<int>) returns (oldsize: int)
      requires InOp(base, area) && i < |blocks| - 1 && blocks[i].used && blocks[i].off == h && h + ITEM + n in area
      requires MergeRight(blocks, i) && blocks[i].size + blocks[i + 1].size > n + MINIALLOC && n >= MINIALLOC
      modifies `next, `prev, `nextFree, `prevFree, `used, `bytes, `blocks, `free
      ensures InOp(base, area) && oldsize == old(blocks)[i].size
      ensures blocks == Reflag(Cut(Absorb(old(blocks), i), i, n), i + 1, false)
    {
      hide InOp, Reflag, Absorb, Cut, DeleteAt;
      Around(i, base, area);
      oldsize := next[h] - h - ITEM;
      ghost var k := MergeNext(next[h], i, base, area);
      CutBlock(h, n, i, base, area);
      PutFree(h + ITEM + n, i + 1, base, area);
    }

    /** The branch of rt_memheap_realloc that gives back the end of the block. */
    method ShrinkInPlace(h: int, n: nat, ghost i: nat)
      requires Valid() && i < |blocks| - 1 && blocks[i].used && blocks[i].off == h
      requires n >= MINIALLOC && n + ITEM + MINIALLOC < blocks[i].size
      modifies this
      ensures Valid() && blocks == Resized(old(blocks), i, n)
      ensures history == old(history) + [poolSize - available]
      ensures Preserved(old(Allocated()), old(bytes), Allocated(), bytes)
    {
      hide TiledHeap, Ring, Fits, FreeRing, MergedBut, InOp, FreeBytes, Live, Reflag, Absorb, Cut, Resized, HighWater;
      hide Covered, Offs, Preserved, OnlyItems;
      ghost var bs0, base, area := blocks, bytes, Elems(Offs(blocks)) + {FREE_HEADER, h + ITEM + n};
      StartResize(i, n);
      var delta := GiveBackEnd(h, n, i, base, area);
      Finish(delta, bs0, base, area);
    }

    method GiveBackEnd(h: int, n: nat, ghost i: nat, ghost base: seq<int>, ghost area: set<int>) returns (delta: int)
      requires InOp(base, area) && i < |blocks| - 1 && blocks[i].used && blocks[i].off == h && h + ITEM + n in area
      requires n >= MINIALLOC && blocks[i].size >= n + ITEM + MINIALLOC
      modifies `next, `prev, `nextFree, `prevFree, `used, `bytes, `blocks, `free
      ensures InOp(base, area)
      ensures delta == old(blocks)[i].size - n - (if MergeRight(old(blocks), i) then 0 else ITEM)
      ensures blocks == Reflag(if MergeRight(old(blocks), i) then Absorb(Cut(old(blocks), i, n), i + 1)
              else Cut(old(blocks), i, n),
                               i + 1, false)
    {
      hide InOp, Reflag, Absorb, Cut, DeleteAt;
      var rest := h + ITEM + n;
      CutBlock(h, n, i, base, area);
      var merged, nextSize := MergeIfFree(rest, i + 1, base, area);
      Around(i + 1, base, area);
      delta := (next[rest] - rest - ITEM) - nextSize;
      PutFree(rest, i + 1, base, area);
    }

    /** What resizing block i in place will amount to. */
    lemma StartResize(i: nat, n: nat)
      requires Valid() && i < |blocks| - 1 && blocks[i].used && n >= MINIALLOC
      requires n + ITEM + MINIALLOC < blocks[i].size
            || (MergeRight(blocks, i) && blocks[i].size + blocks[i + 1].size > n + MINIALLOC)
      ensures InOp(bytes, Elems(Offs(blocks)) + {FREE_HEADER, blocks[i].off + ITEM + n})
      ensures MergeRight(blocks, i) ==> Resized(blocks, i, n) == Reflag(Cut(Absorb(blocks, i), i, n), i + 1, false)
      ensures MergeRight(blocks, i) ==> Resized(blocks, i, n) == Reflag(Absorb(Cut(blocks, i, n), i + 1), i + 1, false)
      ensures !MergeRight(blocks, i) ==> Resized(blocks, i, n) == Reflag(Cut(blocks, i, n), i + 1, false)
      ensures Covered(Elems(Offs(blocks)) + {FREE_HEADER, blocks[i].off + ITEM + n}, blocks, Resized(blocks, i, n))
      ensures Merged(Resized(blocks, i, n)) && TiledHeap(blocks, poolSize) && blocks[i].size >= MINIALLOC
      ensures FreeBytes(Resized(blocks, i, n))
           == FreeBytes(blocks) + blocks[i].size - n - (if MergeRight(blocks, i) then 0 else ITEM)
      ensures Live(Resized(blocks, i, n), ITEM)
           == Allocated() - {(blocks[i].Payload(ITEM), blocks[i].size)} + {(blocks[i].Payload(ITEM), n)}
    {
      hide Ring, Fits, FreeRing, MergedBut, FreeBytes, Live, Reflag, Absorb, Cut, Resized;
      BlockEnds(blocks, i, poolSize);
      if MergeRight(blocks, i) {
        RightEnds(V(), poolSize, i);
        BlockEnds(blocks, i + 1, poolSize);
      }
      ResizedSteps(blocks, i, n, poolSize);
      ResizedMerged(blocks, i, n, poolSize);
      ResizedSums(blocks, i, n, poolSize);
      StartOp(blocks[i].off + ITEM + n);
      assert Offs(Resized(blocks, i, n))[i + 1] == blocks[i].off + ITEM + n by { ResizedAt(blocks, i, n); }
    }

    // --- what holds of every heap a client can reach ---

    /** Once every allocation is freed, in whatever order, the pool is one free block again. */
    lemma EverythingFreed()
      requires Valid() && Allocated() == {}
      ensures blocks == [Block(0, poolSize - 2 * ITEM, false), Block(poolSize - ITEM, 0, true)]
      ensures free == [0] && available == poolSize - 2 * ITEM
    {
      NothingLive(blocks, poolSize, ITEM, MINIALLOC);
      assert blocks == [blocks[0], blocks[1]];
      SumsTwo(blocks[0], blocks[1], ITEM);
      FreeDistinct(free, nextFree, prevFree);
      assert FreeOffs(blocks) == {0};
      OnlyElement(free, 0);
    }

    /** Live payloads lie in the pool, a header apart from each other, and the counters tell the truth. */
    lemma LivePayloads(p: (int, int), q: (int, int))
      requires Valid() && p in Allocated() && q in Allocated()
      ensures ITEM <= p.0 && p.0 + p.1 <= poolSize - ITEM && p.1 >= MINIALLOC
      ensures p == q || p.0 + p.1 + ITEM <= q.0 || q.0 + q.1 + ITEM <= p.0
      ensures available == FreeBytes(blocks) && poolSize - available <= maxUsed && maxUsed in history
    {
      var i := LiveBlock(V(), p, poolSize);
      assert history[|history| - 1] in history;
      PayloadsDisjoint(blocks, p, q, poolSize, ITEM, MINIALLOC);
    }

    ghost function Pointers(): set<int>
      reads `blocks
    {
      set p | p in Allocated() :: p.0
    }

    /** Whether the growth test is right for a live payload. */
    method JudgedRightly(ptr: int, n: nat, ghost size: int) returns (sound: bool)
      requires Valid() && (ptr, size) in Allocated()
      ensures sound == GrowSound(blocks, ptr, n)
    {
      hide TiledHeap, Ring, Fits, FreeRing, MergedBut, HighWater, FreeBytes, Live, Narrows, GrowSound;
      hide InOp, Covered, Offs, Elems, OnlyItems, Preserved, Released, Reflag, Absorb, Merged;
      ghost var i := StartFree(ptr, size);
      GrowSoundAt(blocks, i, n, poolSize);
      ghost var area := Elems(Offs(blocks)) + {FREE_HEADER, FREE_HEADER};
      Around(i, bytes, area);
      var h := ptr - ITEM;
      var right := next[h];
      sound := used[right] || Narrows(next[right] - right - ITEM, right - h - ITEM, n);
    }

    /** Any run of requests on a fresh heap, each on NULL or on a pointer that is live when it is made.
        Growths for which the test is wrong are left out; below 2^31 bytes there are none. */
    method Run(ops: seq<Op>) returns (live: set<int>)
      requires Valid() && Allocated() == {} && forall op | op in ops :: Requestable(op.size)
      modifies this
      ensures Valid() && live == Pointers()
      ensures live == {} ==> blocks == [Block(0, poolSize - 2 * ITEM, false), Block(poolSize - ITEM, 0, true)]
      ensures live == {} ==> available == poolSize - 2 * ITEM
      ensures HighWater(history, maxUsed) && old(history) <= history
    {
      hide Shape, MergedBut, FreeBytes, Live, Fitting, GrowRoom, Released, Placed, FreeFit, TooSmall, Request,
          Preserved;
      live := {};
      for n := 0 to |ops|
        invariant Valid() && live == Pointers() && old(history) <= history
      {
        var op := ops[n];
        assert op in ops;
        if op.ptr == NULL || op.ptr in live {
          ghost var size := 0;
          if op.ptr != NULL {
            ghost var p :| p in Allocated() && p.0 == op.ptr;
            size := p.1;
          }
          OnePayload(op.ptr, size);
          var sound := op.ptr == NULL;
          if op.ptr != NULL { sound := JudgedRightly(op.ptr, Request(op.size), size); }
          if sound {
            var r, got := Realloc(op.ptr, op.size, size);
            if op.size == 0 || r != NULL {
              live := live - {op.ptr} + (if r == NULL then {} else {r});
              assert live == Pointers();
            }
          }
        }
      }
      if live == {} {
        assert forall p | p in Allocated() :: p.0 in Pointers();
        EverythingFreed();
      }
    }

    lemma OnePayload(ptr: int, size: int)
      requires Valid()
      ensures (ptr, size) in Allocated() ==> forall q | q in Allocated() && q.0 == ptr :: q == (ptr, size)
      ensures forall q | q in Allocated() :: q.0 != NULL
    {
      hide TiledHeap, Ring, Fits, FreeRing;
      forall q | q in Allocated() ensures q.0 != NULL { var i := LiveBlock(V(), q, poolSize); }
      if (ptr, size) in Allocated() { var i := LiveBlock(V(), (ptr, size), poolSize); }
    }
  }

  /** In a fresh heap of 3 GiB, after one smallest allocation, a growth beyond the whole pool is taken to fit. */
  method GrowsPastPool(start: seq<int>) returns (heap: MemHeap, ptr: int)
    requires |start| == 0xC000_0000
    ensures heap.Valid() && heap.poolSize == |start| && heap.Allocated() == {(ptr, MINIALLOC)}
    ensures !GrowSound(heap.blocks, ptr, |start|) && !GrowRoom(heap.blocks, ptr, |start|)
    ensures |heap.blocks| == 3 && heap.blocks[0].Payload(ITEM) == ptr
    ensures GrowTest(heap.blocks[1].size, heap.blocks[0].size, |start|) && ptr + |start| > heap.poolSize
  {
    hide MemHeap.Valid, Placed, Live, GrowRoom, GrowSound, GrowTest, Request;
    heap := new MemHeap(start, |start|);
    ghost var got, i, k;
    ghost var bs, pool := heap.blocks, heap.poolSize;
    FirstCarved(bs, pool);
    assert Fitting(bs, heap.available, Request(1)) by { assert !bs[0].used && bs[0].size >= Request(1); }
    ptr, got, i, k := heap.Alloc(1);
    assert i == 0;
    OneLive(heap.blocks[0], heap.blocks[1], heap.blocks[2]);
    assert heap.blocks == [heap.blocks[0], heap.blocks[1], heap.blocks[2]];
    ShapeOf(heap);
    GrowSoundAt(heap.blocks, 0, |start|, pool);
    GrowRoomAt(heap.blocks, 0, |start|, pool);
    GrowsTooFar(heap.blocks, 0, |start|, pool);
  }

  lemma ShapeOf(heap: MemHeap)
    requires heap.Valid()
    ensures TiledHeap(heap.blocks, heap.poolSize)
  {
  }

  lemma FirstCarved(bs: seq<Block>, pool: nat)
    requires pool == 0xC000_0000 && bs == [Block(0, pool - 2 * ITEM, false), Block(pool - ITEM, 0, true)]
    ensures Request(1) == MINIALLOC
    ensures Placed(bs, 0, MINIALLOC) == [Block(0, MINIALLOC, true),
              Block(ITEM + MINIALLOC, pool - 3 * ITEM - MINIALLOC, false), Block(pool - ITEM, 0, true)]
  {
  }

  lemma OneLive(a: Block, b: Block, c: Block)
    requires a.used && a.size > 0 && !b.used && c.size == 0
    ensures Live([a, b, c], ITEM) == {(a.Payload(ITEM), a.size)}
  {
    var bs := [a, b, c];
    assert LiveTo(bs, ITEM, 1) == LiveTo(bs, ITEM, 0) + a.LiveOf(ITEM);
    assert LiveTo(bs, ITEM, 2) == LiveTo(bs, ITEM, 1) + b.LiveOf(ITEM);
    assert LiveTo(bs, ITEM, 3) == LiveTo(bs, ITEM, 2) + c.LiveOf(ITEM);
  }
}
