/** The requests of slab.c: which block serves one, of what size and where it lies. */
module SlabRequest {
  import opened PageList
  import opened Slab
  import opened SlabHeap

  const WORD: nat := 0x1_0000_0000_0000_0000

  /** The size of the zones of a heap of n pages. */
  function ZoneSize(n: nat): (s: nat)
    ensures SizeOk(s)
  {
    var k := n * PAGE / 1024;
    if k <= 65536 then 32768 else if k <= 131072 then 65536 else 131072
  }

  /** The pages of the page table. */
  function TablePages(n: nat): (t: nat) { Up(n * 4, PAGE) / PAGE }

  /** Requests from here on get whole pages. */
  function Limit(size: nat): (l: nat) { if size / 4 > 16384 then 16384 else size / 4 }

  lemma LimitFits(n: nat, size: nat)
    requires SizeOk(size) && 0 < n < Limit(size)
    ensures Fits(n, ZoneIndex(n)) && 4 * ChunkSize(ZoneIndex(n).0) <= size
  {
    hide ZoneIndex, ChunkSize;
    ZoneIndexFits(n);
    IndexBound(n);
  }

  lemma IndexBound(n: nat)
    requires 0 < n < 16384
    ensures ZoneIndex(n).1 <= if n <= 8192 then 8192 else 16384
  {
  }

  /** The pages of a large block; rounding up wraps around at the width of a word. */
  function LargePages(n: nat): (m: nat)
    ensures n <= WORD - PAGE ==> n <= m * PAGE < n + PAGE
  {
    Up(n, PAGE) % WORD / PAGE
  }

  /** Whether a request can be met. */
  predicate CanServe(h: Heap, n: nat)
    requires SizeOk(h.size) && |h.arrays| == NZONES
  {
    if n == 0 then false
    else if n >= Limit(h.size) then LargePages(n) > 0 && FirstFit(h.list, LargePages(n), 0) < |h.list|
    else
      LimitFits(n, h.size);
      h.arrays[ZoneIndex(n).0] != [] || h.retired != [] || FirstFit(h.list, Span(h.size), 0) < |h.list|
  }

  /** The size of the block that serves n bytes. */
  function Served(size: nat, n: nat): (c: nat)
    requires SizeOk(size) && n > 0
    ensures n <= WORD - PAGE ==> c >= n
  {
    if n >= Limit(size) then LargePages(n) * PAGE
    else
      LimitFits(n, size);
      ChunkSize(ZoneIndex(n).0)
  }

  // ---- alignment

  lemma {:induction false} PowersDivide(c: nat, m: nat)
    requires PowerOfTwo(c) && PowerOfTwo(m) && c <= m
    ensures m % c == 0
    decreases m
  {
    if c > 1 {
      PowersDivide(c / 2, m / 2);
      var q := m / 2 / (c / 2);
      assert m == q * c;
      Multiple(q, c);
    }
  }

  lemma Monotone(x: int, y: int, c: nat)
    requires x <= y
    ensures x * c <= y * c
  {
  }

  lemma Remainder(a: int, c: nat, q: int, r: nat)
    requires a == q * c + r && r < c
    ensures a % c == r
  {
    var k, s := a / c, a % c;
    assert a == k * c + s;
    if k > q { Monotone(q + 1, k, c); } else if k < q { Monotone(k + 1, q, c); }
  }

  lemma AddMultiple(a: int, q: int, c: nat)
    requires c > 0
    ensures (a + q * c) % c == a % c
  {
    var k := a / c;
    assert a == k * c + a % c;
    assert (k + q) * c == k * c + q * c;
    Remainder(a + q * c, c, k + q, a % c);
  }

  lemma Multiple(q: int, c: nat)
    requires c > 0
    ensures q * c % c == 0
  {
    Remainder(q * c, c, q, 0);
  }

  lemma UpMultiple(n: nat, c: nat)
    requires c > 0
    ensures Up(n, c) % c == 0
  {
    var m := n + c - 1;
    assert m - m % c == m / c * c;
    Multiple(m / c, c);
  }

  lemma SlotAligned(a: int, x: Zone, k: nat, c: nat)
    requires x.chunk == c && PowerOfTwo(c) && c >= MIN_CHUNK && x.base == a + Offset(c)
    ensures Slot(x, k) % c == a % c
  {
    var off := Offset(c);
    UpMultiple(HDR, c);
    AddMultiple(a + off, k, c);
    var q := off / c;
    assert off == q * c;
    AddMultiple(a, q, c);
  }

  lemma PagesAligned(z: int, c: nat)
    requires c > 0 && PAGE % c == 0
    ensures z * PAGE % c == 0
  {
    var m := PAGE / c;
    assert PAGE == m * c;
    assert z * PAGE == z * m * c;
    Multiple(z * m, c);
  }

  lemma PageIsPower()
    ensures PowerOfTwo(PAGE)
  {
    assert PowerOfTwo(8);
    assert PowerOfTwo(64);
    assert PowerOfTwo(512);
  }

  lemma MultipleUp(n: nat, c: nat)
    requires c > 0 && n % c == 0
    ensures Up(n, c) == n
  {
    var q := n / c;
    assert n == q * c && n + c - 1 == q * c + (c - 1);
    Remainder(n + c - 1, c, q, c - 1);
  }

  /** The chunk for a request of a power of two is of that size, or the smallest one. */
  lemma PowerChunk(n: nat)
    requires PowerOfTwo(n) && n < 16384
    ensures ZoneIndex(n).1 == if n < MIN_CHUNK then MIN_CHUNK else n
  {
    hide Up;
    SmallPowers();
    var g := if n < 128 then 8 else if n < 256 then 16 else if n < 512 then 32 else if n < 1024 then 64
             else if n < 2048 then 128 else if n < 4096 then 256 else if n < 8192 then 512 else 1024;
    if n >= MIN_CHUNK {
      PowersDivide(g, n);
      MultipleUp(n, g);
    } else {
      UpToEight(n);
    }
  }

  lemma UpToEight(n: nat)
    requires 0 < n < 8
    ensures Up(n, 8) == 8
  {
  }

  lemma SmallPowers()
    ensures PowerOfTwo(8) && PowerOfTwo(16) && PowerOfTwo(32) && PowerOfTwo(64)
    ensures PowerOfTwo(128) && PowerOfTwo(256) && PowerOfTwo(512) && PowerOfTwo(1024)
  {
    assert PowerOfTwo(8);
    assert PowerOfTwo(32);
    assert PowerOfTwo(128);
    assert PowerOfTwo(512);
  }

  /** The page at which the zone or the page run starts that will serve a request. */
  function Origin(h: Heap, n: nat): (z: int)
    requires SizeOk(h.size) && |h.arrays| == NZONES && CanServe(h, n)
  {
    if n >= Limit(h.size) then h.list[FirstFit(h.list, LargePages(n), 0)].first
    else
      LimitFits(n, h.size);
      var i := ZoneIndex(n).0;
      if h.arrays[i] != [] then h.arrays[i][0] else WholeZone(h)
  }

  /** The zone that is laid out when no zone has a chunk left. */
  function WholeZone(h: Heap): (z: int)
    requires SizeOk(h.size) && (h.retired != [] || FirstFit(h.list, Span(h.size), 0) < |h.list|)
  {
    if h.retired != [] then h.retired[0] else h.list[FirstFit(h.list, Span(h.size), 0)].first
  }

  /** The block at p was cut from there. */
  ghost predicate ServedFrom(h: Heap, u: Heap, n: nat, p: int)
    requires SizeOk(h.size) && |h.arrays| == NZONES && CanServe(h, n)
  {
    if n >= Limit(h.size) then p == Origin(h, n) * PAGE
    else
      LimitFits(n, h.size);
      ChunkOf(u, Origin(h, n), p, ChunkSize(ZoneIndex(n).0))
  }

  /** The block for a power of two is aligned to it exactly if that is at most a page
      or divides the address at which the zone or the page run starts. */
  lemma AlignedIff(h: Heap, u: Heap, n: nat, p: int)
    requires SizeOk(h.size) && |h.arrays| == NZONES && CanServe(h, n) && HeapInv(u) && ServedFrom(h, u, n, p)
    requires PowerOfTwo(n)
    ensures p % n == 0 <==> n <= PAGE || Origin(h, n) * PAGE % n == 0
  {
    if n < Limit(h.size) {
      LimitFits(n, h.size);
      var z, c := Origin(h, n), ChunkSize(ZoneIndex(n).0);
      PowerChunk(n);
      var k: nat :| ChunkAt(u, z, k, p, c);
      ChunkAligned(u, z, k, p, c, n);
    }
  }

  lemma ChunkAligned(u: Heap, z: int, k: nat, p: int, c: nat, n: nat)
    requires HeapInv(u) && ChunkAt(u, z, k, p, c) && PowerOfTwo(n) && c == if n < MIN_CHUNK then MIN_CHUNK else n
    ensures p % n == 0 <==> z * PAGE % n == 0
    ensures n <= PAGE ==> p % n == 0
  {
    SmallPowers();
    PageIsPower();
    SlotAligned(z * PAGE, u.zones[z], k, c);
    if n <= PAGE {
      PowersDivide(c, PAGE);
      PagesAligned(z, c);
      PowersDivide(n, c);
      Coarser(p, c, n);
      Coarser(z * PAGE, c, n);
    }
  }

  lemma Coarser(p: int, c: nat, n: nat)
    requires n > 0 && c > 0 && p % c == 0 && c % n == 0
    ensures p % n == 0
  {
    var q, r := p / c, c / n;
    assert p == q * c && c == r * n;
    assert p == q * r * n;
    Multiple(q * r, n);
  }

  // ---- a heap as set up

  lemma TableFits(n: nat)
    requires n > 0
    ensures 0 < TablePages(n) <= n
  {
  }

  /** The heap of n pages from page `first` on: the page table takes the first of them. */
  function FreshHeap(first: int, n: nat): (h: Heap)
    requires n > 0
    ensures SizeOk(h.size) && |h.arrays| == NZONES
  {
    TableFits(n);
    var t := TablePages(n);
    Heap(ZoneSize(n), first, Cut([Run(first, n)], 0, t), map[], map[], seq(NZONES, _ => []), [], map[first := t])
  }

  /** Its first block, or the zone of that, starts right behind the page table. */
  lemma FreshOrigin(first: int, n: nat, m: nat)
    requires n > 0 && CanServe(FreshHeap(first, n), m)
    ensures Origin(FreshHeap(first, n), m) == first + TablePages(n)
  {
    hide ZoneIndex, ChunkSize, TablePages;
    TableFits(n);
    if m < Limit(ZoneSize(n)) { LimitFits(m, ZoneSize(n)); }
  }

  /** The free pages of a fresh heap are one run, or none. */
  lemma FreshList(first: int, n: nat)
    requires n > 0 && TablePages(n) < n
    ensures FreshHeap(first, n).list == [Run(first + TablePages(n), n - TablePages(n))]
  {
    hide TablePages;
  }

  /** 8192 bytes, off by a page: a page run of the heap of ten pages from page 2 on. */
  lemma RunOffByAPage()
    ensures var h := FreshHeap(2, 10);
            PowerOfTwo(8192) && 8192 >= Limit(h.size) && CanServe(h, 8192) && Origin(h, 8192) * PAGE % 8192 == PAGE
  {
    hide *;
    PageDoubled();
    TenPages();
    FreshOrigin(2, 10, 8192);
    assert 3 * PAGE % 8192 == PAGE by { ThreePages(); }
  }

  lemma ThreePages()
    ensures 3 * PAGE % 8192 == PAGE
  {
  }

  lemma TenPages()
    ensures TablePages(10) == 1
    ensures var h := FreshHeap(2, 10); 8192 >= Limit(h.size) && CanServe(h, 8192)
  {
    hide ZoneIndex, ChunkSize, FreshHeap;
    FreshList(2, 10);
    var h := FreshHeap(2, 10);
    assert TablePages(10) == 1 && h.size == 32768 by { SmallZones(); }
    assert LargePages(8192) == 2;
    assert FirstFit(h.list, 2, 0) == 0;
  }

  lemma SmallZones()
    ensures TablePages(10) == 1 && FreshHeap(2, 10).size == 32768
  {
  }

  lemma PageDoubled()
    ensures PowerOfTwo(8192)
  {
    PageIsPower();
  }

  /** And a chunk of the heap of 16385 pages from there on. */
  lemma ChunkOffByAPage()
    ensures var h := FreshHeap(2, 16385);
            8192 < Limit(h.size) && CanServe(h, 8192) && Origin(h, 8192) * PAGE % 8192 == PAGE
  {
    hide ZoneIndex, ChunkSize, FreshHeap;
    var h := FreshHeap(2, 16385);
    FreshList(2, 16385);
    assert TablePages(16385) == 17 && h.size == 65536 by { ManyPages(); }
    LimitFits(8192, h.size);
    assert FirstFit(h.list, Span(h.size), 0) == 0;
    FreshOrigin(2, 16385, 8192);
  }

  lemma ManyPages()
    ensures TablePages(16385) == 17 && FreshHeap(2, 16385).size == 65536
  {
  }
}
