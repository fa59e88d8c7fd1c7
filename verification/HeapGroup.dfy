/** The system allocator over several memory heaps: `rt_malloc`, `rt_free` and `rt_realloc` of memheap.c. */
module HeapGroup {
  import opened Lists
  import opened Tiling
  import opened M = MemHeap

  /** A payload of one of the heaps; its header names the heap. */
  datatype Ptr = Null | At(heap: nat, off: int)

  /** The given bytes are written from offset q on. */
  function Write(bytes: seq<int>, q: int, data: seq<int>): (r: seq<int>)
    requires 0 <= q && q + |data| <= |bytes|
    ensures |r| == |bytes|
  {
    bytes[..q] + data + bytes[q + |data|..]
  }

  /** Bytes written within one live payload leave every other one alone. */
  lemma WriteKeeps(bs: seq<Block>, pool: nat, bytes: seq<int>, q: int, got: int, data: seq<int>)
    requires TiledHeap(bs, pool) && (q, got) in Live(bs, ITEM) && |data| <= got && |bytes| == pool
    ensures 0 <= q && q + |data| <= |bytes|
    ensures Preserved(Live(bs, ITEM) - {(q, got)}, bytes, Live(bs, ITEM), Write(bytes, q, data))
    ensures Write(bytes, q, data)[q..q + |data|] == data
  {
    hide Live, Tiled, TiledHeap;
    PayloadsApart(bs, (q, got), (q, got), pool);
    var l, w := Live(bs, ITEM), Write(bytes, q, data);
    forall p, r, i | p in l - {(q, got)} && r in l && p.0 == r.0 && p.0 <= i < p.0 + p.1 && i < r.0 + r.1
                     && 0 <= i < |bytes|
      ensures w[i] == bytes[i]
    {
      PayloadsApart(bs, p, (q, got), pool);
    }
  }

  // ---- the blocks and the bytes of all heaps

  type Lay = seq<seq<Block>>

  type Mem = seq<seq<int>>

  ghost predicate Shaped(bs: Lay, m: Mem, p: Ptr) {
    |bs| == |m| && (p.At? ==> p.heap < |bs|)
  }

  /** Heap i has a free block for a request of n bytes, and more than n bytes available. */
  ghost predicate Can(bs: Lay, i: nat, n: nat)
    requires i < |bs|
  {
    Fitting(bs[i], FreeBytes(bs[i]), n)
  }

  /** The payload at p as a set, for its own heap. */
  function Mine(p: Ptr, size: int, i: nat): (s: set<(int, int)>) {
    if p.At? && p.heap == i then {(p.off, size)} else {}
  }

  /** In every heap the payloads that stay keep their bytes; the old one is gone and the new one is there. */
  ghost predicate Changed(b0: Lay, m0: Mem, b1: Lay, m1: Mem, p: Ptr, size: int, r: Ptr, got: int) {
    && Shaped(b0, m0, p) && Shaped(b1, m1, r) && |b0| == |b1|
    && forall i: nat | i < |b0| :: ChangedAt(b0[i], m0[i], b1[i], m1[i], Mine(p, size, i), Mine(r, got, i))
  }

  ghost predicate ChangedAt(b0: seq<Block>, m0: seq<int>, b1: seq<Block>, m1: seq<int>,
                            gone: set<(int, int)>, come: set<(int, int)>)
  {
    && Live(b1, ITEM) == Live(b0, ITEM) - gone + come
    && Preserved(Live(b0, ITEM) - gone, m0, Live(b1, ITEM), m1)
  }

  /** The first k bytes at p are now at r. */
  ghost predicate Carried(m0: Mem, m1: Mem, p: Ptr, r: Ptr, k: int) {
    && p.At? && r.At? && p.heap < |m0| && r.heap < |m1|
    && 0 <= p.off <= p.off + k <= |m0[p.heap]| && 0 <= r.off <= r.off + k <= |m1[r.heap]|
    && m1[r.heap][r.off..r.off + k] == m0[p.heap][p.off..p.off + k]
  }

  lemma SameAt(b: seq<Block>, m: seq<int>)
    ensures ChangedAt(b, m, b, m, {}, {})
  {
  }

  /** An allocation, the copy into it, and the release of the old payload make up a move to another heap. */
  lemma MoveAcross(bs: seq<Block>, m0: seq<int>, b1: seq<Block>, m1: seq<int>, x: (int, int), m2: seq<int>)
    requires ChangedAt(bs, m0, b1, m1, {}, {x}) && x !in Live(bs, ITEM)
    requires Preserved(Live(b1, ITEM) - {x}, m1, Live(b1, ITEM), m2)
    ensures ChangedAt(bs, m0, b1, m2, {}, {x})
  {
    hide Live;
    forall p, q, i | p in Live(bs, ITEM) && q in Live(b1, ITEM) && p.0 == q.0 && p.0 <= i < p.0 + p.1
                     && i < q.0 + q.1 && 0 <= i < |m0|
      ensures m2[i] == m0[i]
    {
      assert p in Live(b1, ITEM) - {x};
    }
  }

  lemma AvailableIs(h: M.MemHeap)
    requires h.Valid()
    ensures h.available == FreeBytes(h.blocks) && |h.bytes| == h.poolSize && TiledHeap(h.blocks, h.poolSize)
  {
    hide Fits, FreeRing, Merged, HighWater, TiledHeap;
  }

  /** The size a header says its payload has. */
  method PayloadSize(h: M.MemHeap, ptr: int, ghost size: int) returns (n: int)
    requires h.Valid() && (ptr, size) in h.Allocated()
    ensures n == size >= 0 && 0 <= ptr && ptr + size <= |h.bytes|
  {
    hide Fits, FreeRing, Merged, HighWater;
    ghost var i := h.StartFree(ptr, size);
    BlockLinks(h.blocks, i, h.next, h.prev, h.poolSize);
    PayloadsApart(h.blocks, (ptr, size), (ptr, size), h.poolSize);
    BlockInPool(h.blocks, i, h.poolSize);
    n := h.next[ptr - ITEM] - (ptr - ITEM) - ITEM;
  }

  /** A client writes to its payload. */
  method Store(h: M.MemHeap, q: int, data: seq<int>, ghost got: int)
    requires h.Valid() && (q, got) in h.Allocated() && |data| <= got
    modifies h`bytes
    ensures h.Valid() && 0 <= q && q + |data| <= |h.bytes| && h.bytes[q..q + |data|] == data
    ensures Preserved(h.Allocated() - {(q, got)}, old(h.bytes), h.Allocated(), h.bytes)
  {
    hide Fits, FreeRing, Merged, HighWater, Tiled, TiledHeap, Live, Preserved;
    WriteKeeps(h.blocks, h.poolSize, h.bytes, q, got, data);
    h.bytes := Write(h.bytes, q, data);
  }

  /** What has been kept from a to b, n bytes of it, keeps k <= n. */
  lemma SlicePrefix(a: seq<int>, p: int, b: seq<int>, q: int, n: int, k: int)
    requires 0 <= k <= n && 0 <= p && p + n <= |a| && 0 <= q && q + n <= |b| && a[p..p + n] == b[q..q + n]
    ensures a[p..p + k] == b[q..q + k]
  {
    assert a[p..p + n][..k] == a[p..p + k] && b[q..q + n][..k] == b[q..q + k];
  }

  class Heaps {
    const heaps: seq<M.MemHeap>     // the system heap first, then the others in the order of the object list

    ghost predicate Valid()
      reads this, heaps
    {
      heaps != [] && Distinct(heaps) && forall i | 0 <= i < |heaps| :: heaps[i].Valid()
    }

    ghost function Blocks(): (bs: Lay)
      reads heaps
    {
      seq(|heaps|, i requires 0 <= i < |heaps| reads heaps => heaps[i].blocks)
    }

    ghost function Bytes(): (m: Mem)
      reads heaps
    {
      seq(|heaps|, i requires 0 <= i < |heaps| reads heaps => heaps[i].bytes)
    }

    constructor (heaps: seq<M.MemHeap>)
      requires heaps != [] && Distinct(heaps) && forall i | 0 <= i < |heaps| :: heaps[i].Valid()
      ensures Valid() && this.heaps == heaps
    {
      this.heaps := heaps;
    }

    /** `rt_malloc`: the system heap first, then the others until one can serve. */
    method Malloc(size: nat) returns (p: Ptr, ghost got: int)
      requires Valid() && Requestable(size)
      modifies heaps
      ensures Valid()
      ensures p == Null <==> forall i: nat | i < |heaps| :: !Can(old(Blocks()), i, Request(size))
      ensures p == Null ==> Blocks() == old(Blocks()) && Bytes() == old(Bytes())
      ensures p.At? ==>
        && p.heap < |heaps| && Can(old(Blocks()), p.heap, Request(size))
        && (forall i: nat | i < p.heap :: !Can(old(Blocks()), i, Request(size)))
        && got >= Request(size) && (p.off, got) !in Live(old(Blocks())[p.heap], ITEM) && p.off != NULL
        && Changed(old(Blocks()), old(Bytes()), Blocks(), Bytes(), Null, 0, p, got)
        && forall i: nat | i < |heaps| && i != p.heap ::
             Blocks()[i] == old(Blocks())[i] && Bytes()[i] == old(Bytes())[i]
    {
      hide M.MemHeap.Valid, Fitting, Live, Preserved, FreeFit, TooSmall, Placed, Request, FreeBytes, ChangedAt;
      p, got := Null, 0;
      var j := 0;
      while j < |heaps|
        invariant j <= |heaps| && Valid() && p == Null
        invariant Blocks() == old(Blocks()) && Bytes() == old(Bytes())
        invariant forall i: nat | i < j :: !Can(old(Blocks()), i, Request(size))
      {
        var ptr;
        ghost var i, k;
        ghost var bs, m := Blocks(), Bytes();
        AvailableIs(heaps[j]);
        assert bs[j] == heaps[j].blocks && m[j] == heaps[j].bytes;
        ptr, got, i, k := heaps[j].Alloc(size);
        assert forall x: nat | x < |heaps| && x != j :: Blocks()[x] == bs[x] && Bytes()[x] == m[x];
        assert Blocks()[j] == heaps[j].blocks && Bytes()[j] == heaps[j].bytes;
        if ptr != NULL {
          p := At(j, ptr);
          assert Can(bs, j, Request(size));
          forall x: nat | x < |heaps|
            ensures ChangedAt(bs[x], m[x], Blocks()[x], Bytes()[x], Mine(Null, 0, x), Mine(p, got, x))
          {
            if x != j { SameAt(bs[x], m[x]); } else { MoreAt(bs[x], m[x], Blocks()[x], Bytes()[x], (ptr, got)); }
          }
          return;
        }
        assert Blocks() == bs && Bytes() == m;
        j := j + 1;
      }
    }

    /** `rt_free`: the header leads to the heap. */
    method Free(p: Ptr, ghost size: int)
      requires Valid() && (p.At? ==> p.heap < |heaps| && (p.off, size) in Live(Blocks()[p.heap], ITEM) && p.off != NULL)
      modifies heaps
      ensures Valid()
      ensures Changed(old(Blocks()), old(Bytes()), Blocks(), Bytes(), p, size, Null, 0)
      ensures forall i: nat | i < |heaps| && (p.At? ==> p.heap != i) ::
                Blocks()[i] == old(Blocks())[i] && Bytes()[i] == old(Bytes())[i]
    {
      hide M.MemHeap.Valid, Live, Preserved, Released;
      ghost var bs, m := Blocks(), Bytes();
      if p.At? {
        assert bs[p.heap] == heaps[p.heap].blocks && m[p.heap] == heaps[p.heap].bytes;
        ghost var i := heaps[p.heap].Free(p.off, size);
      }
      forall x: nat | x < |heaps|
        ensures ChangedAt(bs[x], m[x], Blocks()[x], Bytes()[x], Mine(p, size, x), Mine(Null, 0, x))
      {
        if p == Null || x != p.heap {
          SameAt(bs[x], m[x]);
        } else {
          FewerAt(bs[x], m[x], Blocks()[x], Bytes()[x], Mine(p, size, x));
        }
      }
    }

    /** `rt_realloc`: in the payload's own heap if that is possible, else in another one, with its bytes. */
    method Realloc(p: Ptr, newsize: nat, ghost size: int) returns (r: Ptr, ghost got: int)
      requires Valid() && Requestable(newsize)
      requires p.At? ==> p.heap < |heaps| && p.off != NULL && (p.off, size) in Live(Blocks()[p.heap], ITEM)
      requires p.At? && Request(newsize) > size ==> GrowSound(Blocks()[p.heap], p.off, Request(newsize))
      modifies heaps
      ensures Valid()
      ensures r == Null <==>
        (p.At? && newsize == 0)
        || ((forall i: nat | i < |heaps| :: !Can(old(Blocks()), i, Request(newsize)))
            && (p.At? ==> Request(newsize) > size && !GrowRoom(old(Blocks())[p.heap], p.off, Request(newsize))))
      ensures r == Null && (p == Null || newsize > 0) ==> Blocks() == old(Blocks()) && Bytes() == old(Bytes())
      ensures r == Null && newsize == 0 ==> Changed(old(Blocks()), old(Bytes()), Blocks(), Bytes(), p, size, Null, 0)
      ensures r.At? ==>
              got >= Request(newsize) && Changed(old(Blocks()), old(Bytes()), Blocks(), Bytes(), p, size, r, got)
      ensures r.At? && p.At? ==>
        Carried(old(Bytes()), Bytes(), p, r, if newsize > size then size else newsize)
    {
      hide M.MemHeap.Valid, Live, Preserved, Fitting, GrowRoom, GrowSound, Request, FreeBytes, Changed, Carried, Can;
      got := 0;
      if p == Null {
        ghost var bs, m := Blocks(), Bytes();
        r, got := Malloc(newsize);
        if r.At? { NullSize(bs, m, Blocks(), Bytes(), size, r, got); } else { Nothing(bs, m, size); }
        return;
      }
      if newsize == 0 {
        Free(p, size);
        return Null, 0;
      }
      r, got := ReallocLive(p, newsize, size);
    }

    method ReallocLive(p: Ptr, newsize: nat, ghost size: int) returns (r: Ptr, ghost got: int)
      requires Valid() && Requestable(newsize) && newsize > 0
      requires p.At? && p.heap < |heaps| && p.off != NULL && (p.off, size) in Live(Blocks()[p.heap], ITEM)
      requires Request(newsize) > size ==> GrowSound(Blocks()[p.heap], p.off, Request(newsize))
      modifies heaps
      ensures Valid()
      ensures r == Null <==> (forall i: nat | i < |heaps| :: !Can(old(Blocks()), i, Request(newsize)))
                             && Request(newsize) > size && !GrowRoom(old(Blocks())[p.heap], p.off, Request(newsize))
      ensures r == Null ==> Blocks() == old(Blocks()) && Bytes() == old(Bytes())
      ensures r.At? ==>
              got >= Request(newsize) && Changed(old(Blocks()), old(Bytes()), Blocks(), Bytes(), p, size, r, got)
      ensures r.At? ==> Carried(old(Bytes()), Bytes(), p, r, if newsize > size then size else newsize)
    {
      hide M.MemHeap.Valid, Live, Preserved, Fitting, GrowRoom, GrowSound, Request, FreeBytes, Changed, Carried;
      got := 0;
      var q;
      ghost var bs, m := Blocks(), Bytes();
      AvailableIs(heaps[p.heap]);
      assert bs[p.heap] == heaps[p.heap].blocks && m[p.heap] == heaps[p.heap].bytes;
      heaps[p.heap].LivePayloads((p.off, size), (p.off, size));
      q, got := heaps[p.heap].Realloc(p.off, newsize, size);
      AvailableIs(heaps[p.heap]);
      if q != NULL {
        assert Can(bs, p.heap, Request(newsize)) || Request(newsize) <= size
            || GrowRoom(bs[p.heap], p.off, Request(newsize));
        InOwnHeap(bs, m, p, newsize, size, q, got);
        return At(p.heap, q), got;
      }
      assert Blocks() == bs && Bytes() == m;
      assert !Can(bs, p.heap, Request(newsize));
      r, got := MoveOut(p, newsize, size);
    }

    lemma InOwnHeap(bs: Lay, m: Mem, p: Ptr, newsize: nat, size: int, q: int, got: int)
      requires Valid() && p.At? && p.heap < |heaps| && |bs| == |m| == |heaps| && Requestable(newsize)
      requires forall x: nat | x < |heaps| && x != p.heap :: Blocks()[x] == bs[x] && Bytes()[x] == m[x]
      requires got >= Request(newsize)
      requires Live(Blocks()[p.heap], ITEM) == Live(bs[p.heap], ITEM) - {(p.off, size)} + {(q, got)}
      requires Preserved(Live(bs[p.heap], ITEM) - {(p.off, size)}, m[p.heap],
                         Live(Blocks()[p.heap], ITEM), Bytes()[p.heap])
      requires var keep := if size < got then size else got;
               && size >= 0 && 0 <= p.off <= p.off + keep <= |m[p.heap]| && 0 <= q <= q + keep <= |Bytes()[p.heap]|
               && Bytes()[p.heap][q..q + keep] == m[p.heap][p.off..p.off + keep]
      ensures Changed(bs, m, Blocks(), Bytes(), p, size, At(p.heap, q), got)
      ensures Carried(m, Bytes(), p, At(p.heap, q), if newsize > size then size else newsize)
    {
      hide M.MemHeap.Valid, Live, Preserved, Fitting, GrowRoom, FreeBytes;
      var r := At(p.heap, q);
      forall x: nat | x < |heaps|
        ensures ChangedAt(bs[x], m[x], Blocks()[x], Bytes()[x], Mine(p, size, x), Mine(r, got, x))
      {
        if x != p.heap { SameAt(bs[x], m[x]); }
      }
      SlicePrefix(Bytes()[p.heap], q, m[p.heap], p.off,
                  if size < got then size else got, if newsize > size then size else newsize);
    }

    /** The bytes of one payload are copied into one of another heap, as many as both can hold. */
    method Copy(p: Ptr, r: Ptr, newsize: nat, ghost size: int, ghost got: int) returns (ghost k: int)
      requires Valid() && p.At? && r.At? && p.heap < |heaps| && r.heap < |heaps| && p.heap != r.heap && newsize <= got
      requires (p.off, size) in Live(Blocks()[p.heap], ITEM) && (r.off, got) in Live(Blocks()[r.heap], ITEM)
      modifies heaps
      ensures Valid() && Blocks() == old(Blocks()) && k == if newsize > size then size else newsize
      ensures forall x: nat | x < |heaps| && x != r.heap :: Bytes()[x] == old(Bytes())[x]
      ensures Preserved(Live(Blocks()[r.heap], ITEM) - {(r.off, got)}, old(Bytes())[r.heap],
                        Live(Blocks()[r.heap], ITEM), Bytes()[r.heap])
      ensures 0 <= p.off <= p.off + k <= |old(Bytes())[p.heap]| && 0 <= r.off <= r.off + k <= |Bytes()[r.heap]|
      ensures Bytes()[r.heap][r.off..r.off + k] == old(Bytes())[p.heap][p.off..p.off + k]
    {
      hide M.MemHeap.Valid, Live, Preserved;
      ghost var bs, m := Blocks(), Bytes();
      assert bs[p.heap] == heaps[p.heap].blocks && m[p.heap] == heaps[p.heap].bytes;
      assert bs[r.heap] == heaps[r.heap].blocks && m[r.heap] == heaps[r.heap].bytes;
      var oldsize := PayloadSize(heaps[p.heap], p.off, size);
      var n := if newsize > oldsize then oldsize else newsize;
      Store(heaps[r.heap], r.off, heaps[p.heap].bytes[p.off..p.off + n], got);
      k := n;
      assert Bytes()[r.heap] == heaps[r.heap].bytes;
      assert Blocks() == bs;
    }

    /** The payload's own heap cannot serve: another one may. */
    method MoveOut(p: Ptr, newsize: nat, ghost size: int) returns (r: Ptr, ghost got: int)
      requires Valid() && Requestable(newsize)
      requires p.At? && p.heap < |heaps| && p.off != NULL && (p.off, size) in Live(Blocks()[p.heap], ITEM)
      requires !Can(Blocks(), p.heap, Request(newsize))
      modifies heaps
      ensures Valid()
      ensures r == Null <==> forall i: nat | i < |heaps| :: !Can(old(Blocks()), i, Request(newsize))
      ensures r == Null ==> Blocks() == old(Blocks()) && Bytes() == old(Bytes())
      ensures r.At? ==>
              got >= Request(newsize) && Changed(old(Blocks()), old(Bytes()), Blocks(), Bytes(), p, size, r, got)
      ensures r.At? ==> Carried(old(Bytes()), Bytes(), p, r, if newsize > size then size else newsize)
    {
      hide M.MemHeap.Valid, Live, Preserved, Fitting, GrowRoom, FreeBytes, Changed, Carried, Can, Request, AlignUp,
           Tiled, TiledHeap, FreeRing, Fits, HighWater, Merged;
      ghost var b0, m0 := Blocks(), Bytes();
      r, got := Malloc(newsize);
      if r.At? {
        ghost var b1, m1 := Blocks(), Bytes();
        assert r.heap != p.heap && b1[r.heap] == heaps[r.heap].blocks && m1[r.heap] == heaps[r.heap].bytes;
        assert b1[p.heap] == heaps[p.heap].blocks == b0[p.heap] && m1[p.heap] == heaps[p.heap].bytes == m0[p.heap];
        Arrived(b0, m0, b1, m1, r, got);
        ghost var k := Copy(p, r, newsize, size, got);
        ghost var m2 := Bytes();
        Free(p, size);
        MovedOut(b0, m0, b1, m1, m2, Blocks(), Bytes(), p, size, r, got, k);
      }
    }
  }

  lemma Arrived(b0: Lay, m0: Mem, b1: Lay, m1: Mem, r: Ptr, got: int)
    requires Changed(b0, m0, b1, m1, Null, 0, r, got) && r.At?
    ensures r.heap < |b1| && (r.off, got) in Live(b1[r.heap], ITEM)
  {
    assert ChangedAt(b0[r.heap], m0[r.heap], b1[r.heap], m1[r.heap], Mine(Null, 0, r.heap), Mine(r, got, r.heap));
  }

  /** A new payload in another heap, the copy into it, and the release of the old one move the payload. */
  lemma MovedOut(b0: Lay, m0: Mem, b1: Lay, m1: Mem, m2: Mem, b3: Lay, m3: Mem,
                 p: Ptr, size: int, r: Ptr, got: int, k: int)
    requires p.At? && r.At? && p.heap != r.heap && Changed(b0, m0, b1, m1, Null, 0, r, got)
    requires Changed(b1, m2, b3, m3, p, size, Null, 0) && p.heap < |b0| && r.heap < |b0|
    requires forall x: nat | x < |b0| && x != r.heap :: b1[x] == b0[x] && m1[x] == m0[x] && m2[x] == m1[x]
    requires forall x: nat | x < |b0| && x != p.heap :: b3[x] == b1[x] && m3[x] == m2[x]
    requires (r.off, got) !in Live(b0[r.heap], ITEM)
    requires Preserved(Live(b1[r.heap], ITEM) - {(r.off, got)}, m1[r.heap], Live(b1[r.heap], ITEM), m2[r.heap])
    requires 0 <= p.off <= p.off + k <= |m0[p.heap]| && 0 <= r.off <= r.off + k <= |m2[r.heap]|
    requires m2[r.heap][r.off..r.off + k] == m0[p.heap][p.off..p.off + k]
    ensures Changed(b0, m0, b3, m3, p, size, r, got) && Carried(m0, m3, p, r, k)
  {
    hide Live, Preserved, ChangedAt;
    forall x: nat | x < |b0|
      ensures ChangedAt(b0[x], m0[x], b3[x], m3[x], Mine(p, size, x), Mine(r, got, x))
    {
      assert ChangedAt(b0[x], m0[x], b1[x], m1[x], Mine(Null, 0, x), Mine(r, got, x));
      assert ChangedAt(b1[x], m2[x], b3[x], m3[x], Mine(p, size, x), Mine(Null, 0, x));
      if x == r.heap { MoveAcross(b0[x], m0[x], b1[x], m1[x], (r.off, got), m2[x]); }
    }
  }

  lemma NullSize(b0: Lay, m0: Mem, b1: Lay, m1: Mem, size: int, r: Ptr, got: int)
    requires Changed(b0, m0, b1, m1, Null, 0, r, got)
    ensures Changed(b0, m0, b1, m1, Null, size, r, got)
  {
    hide ChangedAt;
    forall x: nat | x < |b0| ensures ChangedAt(b0[x], m0[x], b1[x], m1[x], Mine(Null, size, x), Mine(r, got, x)) {
      assert ChangedAt(b0[x], m0[x], b1[x], m1[x], Mine(Null, 0, x), Mine(r, got, x));
    }
  }

  lemma Nothing(bs: Lay, m: Mem, size: int)
    requires |bs| == |m|
    ensures Changed(bs, m, bs, m, Null, size, Null, 0)
  {
    hide ChangedAt;
    forall x: nat | x < |bs| ensures ChangedAt(bs[x], m[x], bs[x], m[x], {}, {}) { SameAt(bs[x], m[x]); }
  }

  lemma MoreAt(b0: seq<Block>, m0: seq<int>, b1: seq<Block>, m1: seq<int>, x: (int, int))
    requires Live(b1, ITEM) == Live(b0, ITEM) + {x} && Preserved(Live(b0, ITEM), m0, Live(b1, ITEM), m1)
    ensures ChangedAt(b0, m0, b1, m1, {}, {x})
  {
    hide Live, Preserved;
    assert Live(b0, ITEM) - {} == Live(b0, ITEM);
  }

  lemma FewerAt(b0: seq<Block>, m0: seq<int>, b1: seq<Block>, m1: seq<int>, gone: set<(int, int)>)
    requires Live(b1, ITEM) == Live(b0, ITEM) - gone && Preserved(Live(b0, ITEM), m0, Live(b1, ITEM), m1)
    ensures ChangedAt(b0, m0, b1, m1, gone, {})
  {
  }
}
