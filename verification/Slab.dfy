/** The chunk allocator of slab.c: zones of equal chunks on top of the page allocator. */
module Slab {
  import opened Lists

  const PAGE: nat := 4096
  const HDR: nat := 56        // sizeof(slab_zone) with 64-bit words
  const NZONES: nat := 72
  const THRESH: nat := 2      // ZONE_RELEASE_THRESH
  const MIN_CHUNK: nat := 8

  // ---- chunk sizes

  function Up(n: nat, m: nat): (r: nat)
    requires m > 0
    ensures n <= r < n + m
  {
    n + m - 1 - (n + m - 1) % m
  }

  /** `zoneindex`: the zone and the chunk size that serve n bytes. */
  function ZoneIndex(n: nat): (r: (nat, nat))
    requires 0 < n < 16384
  {
    if n < 128 then (Up(n, 8) / 8 - 1, Up(n, 8))
    else if n < 256 then (Up(n, 16) / 16 + 7, Up(n, 16))
    else if n < 512 then (Up(n, 32) / 32 + 15, Up(n, 32))
    else if n < 1024 then (Up(n, 64) / 64 + 23, Up(n, 64))
    else if n < 2048 then (Up(n, 128) / 128 + 31, Up(n, 128))
    else if n < 4096 then (Up(n, 256) / 256 + 39, Up(n, 256))
    else if n < 8192 then (Up(n, 512) / 512 + 47, Up(n, 512))
    else (Up(n, 1024) / 1024 + 55, Up(n, 1024))
  }

  /** The table of chunk sizes. */
  function ChunkSize(i: nat): (c: nat)
    requires i < NZONES
    ensures c >= MIN_CHUNK
  {
    if i < 16 then 8 * (i + 1)
    else if i < 24 then 16 * (i - 7)
    else if i < 32 then 32 * (i - 15)
    else if i < 40 then 64 * (i - 23)
    else if i < 48 then 128 * (i - 31)
    else if i < 56 then 256 * (i - 39)
    else if i < 64 then 512 * (i - 47)
    else 1024 * (i - 55)
  }

  /** Chunk sizes grow with the zone index, so each belongs to one zone. */
  lemma ChunkSizesGrow(i: nat, j: nat)
    requires i < j < NZONES
    ensures ChunkSize(i) < ChunkSize(j)
  {
  }

  ghost predicate Fits(n: nat, r: (nat, nat)) {
    r.0 < NZONES && r.1 == ChunkSize(r.0) && r.1 >= n && (r.0 > 0 ==> ChunkSize(r.0 - 1) < n)
  }

  /** A request goes to the smallest chunk size that holds it. */
  lemma ZoneIndexFits(n: nat)
    requires 0 < n < 16384
    ensures Fits(n, ZoneIndex(n))
  {
    hide ZoneIndex, Fits;
    if n < 256 { FitsBelow256(n); } else if n < 1024 { FitsBelow1024(n); }
    else if n < 4096 { FitsBelow4096(n); } else { FitsAbove(n); }
  }

  lemma FitsBelow256(n: nat)
    requires 0 < n < 256
    ensures Fits(n, ZoneIndex(n))
  {
  }

  lemma FitsBelow1024(n: nat)
    requires 256 <= n < 1024
    ensures Fits(n, ZoneIndex(n))
  {
  }

  lemma FitsBelow4096(n: nat)
    requires 1024 <= n < 4096
    ensures Fits(n, ZoneIndex(n))
  {
  }

  lemma FitsAbove(n: nat)
    requires 4096 <= n < 16384
    ensures Fits(n, ZoneIndex(n))
  {
  }

  /** From 128 bytes on the waste is below an eighth of the request. */
  lemma ZoneIndexWaste(n: nat)
    requires 0 < n < 16384
    ensures var c := ZoneIndex(n).1;
            (n >= 128 ==> 8 * (c - n) < n) && (n < 128 ==> c - n < 8)
  {
  }

  // ---- one zone

  /** The header of a zone: `free` is its list of freed chunks, by address. */
  datatype Zone = Zone(index: nat, chunk: nat, base: int, nmax: nat, nfree: nat, uindex: nat, free: seq<int>)

  function Slot(x: Zone, k: nat): (p: int) { x.base + k * x.chunk }

  lemma NextSlot(x: Zone, k: nat)
    ensures Slot(x, k + 1) == Slot(x, k) + x.chunk
  {
  }

  lemma {:induction false} SlotsApart(x: Zone, j: nat, k: nat)
    requires j < k
    ensures Slot(x, j) + x.chunk <= Slot(x, k)
    decreases k
  {
    hide Slot;
    NextSlot(x, k - 1);
    if j < k - 1 { SlotsApart(x, j, k - 1); }
  }

  /** The first n slots. */
  ghost function Slots(x: Zone, n: nat): (s: set<int>) {
    if n == 0 then {} else Slots(x, n - 1) + {Slot(x, n - 1)}
  }

  lemma {:induction false} SlotsHold(x: Zone, n: nat, k: nat)
    requires k < n
    ensures Slot(x, k) in Slots(x, n)
  {
    if k < n - 1 { SlotsHold(x, n - 1, k); }
  }

  lemma {:induction false} SlotsCount(x: Zone, n: nat)
    requires x.chunk > 0
    ensures |Slots(x, n)| == n
    ensures forall p | p in Slots(x, n) :: exists k: nat :: k < n && p == Slot(x, k)
  {
    if n > 0 {
      SlotsCount(x, n - 1);
      forall k: nat | k < n - 1 ensures Slot(x, k) != Slot(x, n - 1) { SlotsApart(x, k, n - 1); }
    }
  }

  predicate PowerOfTwo(n: nat) { n == 1 || (n > 1 && n % 2 == 0 && PowerOfTwo(n / 2)) }

  /** Where the chunks of a new zone start: a multiple of the chunk size if that is a power of two. */
  function Offset(c: nat): (off: nat)
    requires c >= MIN_CHUNK
    ensures HDR <= off < HDR + c
  {
    if PowerOfTwo(c) then Up(HDR, c) else Up(HDR, MIN_CHUNK)
  }

  /** The chunks lie inside the zone behind its header, and `nfree` counts the freed and the never used ones. */
  ghost predicate ZoneOk(z: int, x: Zone, size: nat) {
    && x.index < NZONES && x.chunk == ChunkSize(x.index)
    && x.base == z * PAGE + Offset(x.chunk) && x.base + x.nmax * x.chunk <= z * PAGE + size
    && x.uindex < x.nmax
    && x.nfree == |x.free| + (x.nmax - 1 - x.uindex)
    && Distinct(x.free)
    && forall p | p in x.free :: p in Slots(x, x.uindex + 1)
  }

  /** Chunk k is handed out. */
  ghost predicate LiveSlot(x: Zone, k: nat) {
    k <= x.uindex && Slot(x, k) !in x.free
  }

  /** The part of `rt_malloc` that takes a chunk: never used ones first, then the list of freed ones. */
  function Take(x: Zone): (r: (Zone, int))
    requires x.nfree > 0 && (x.uindex + 1 == x.nmax ==> x.free != [])
  {
    if x.uindex + 1 != x.nmax then (x.(nfree := x.nfree - 1, uindex := x.uindex + 1), Slot(x, x.uindex + 1))
    else (x.(nfree := x.nfree - 1, free := x.free[1..]), x.free[0])
  }

  function Put(x: Zone, p: int): (y: Zone) {
    x.(free := [p] + x.free, nfree := x.nfree + 1)
  }

  lemma {:induction false} SameSlots(x: Zone, y: Zone, n: nat)
    requires x.base == y.base && x.chunk == y.chunk
    ensures Slots(x, n) == Slots(y, n)
  {
    if n > 0 { SameSlots(x, y, n - 1); }
  }

  /** A taken chunk was not live; it is now, and nothing else changed. */
  ghost predicate Taken(z: int, x: Zone, size: nat, k: nat)
    requires x.nfree > 0 && (x.uindex + 1 == x.nmax ==> x.free != [])
  {
    var (y, p) := Take(x);
    && ZoneOk(z, y, size) && p == Slot(x, k)
    && !LiveSlot(x, k) && LiveSlot(y, k) && forall j: nat | j != k :: LiveSlot(y, j) <==> LiveSlot(x, j)
  }

  lemma TakeKeeps(z: int, x: Zone, size: nat) returns (k: nat)
    requires ZoneOk(z, x, size) && x.nfree > 0
    ensures x.uindex + 1 == x.nmax ==> x.free != []
    ensures Taken(z, x, size, k)
  {
    hide Take;
    if x.uindex + 1 != x.nmax {
      k := x.uindex + 1;
      TakeNew(z, x, size);
    } else {
      k := TakeFreed(z, x, size);
    }
  }

  lemma TakeNew(z: int, x: Zone, size: nat)
    requires ZoneOk(z, x, size) && x.nfree > 0 && x.uindex + 1 != x.nmax
    ensures Taken(z, x, size, x.uindex + 1)
  {
    hide Slot, Offset, ChunkSize;
    var (y, p) := Take(x);
    var k := x.uindex + 1;
    SameSlots(x, y, k + 1);
    SlotFresh(x, k);
    forall j: nat ensures Slot(x, j) == Slot(y, j) { SameSlot(x, y, j); }
  }

  lemma TakeFreed(z: int, x: Zone, size: nat) returns (k: nat)
    requires ZoneOk(z, x, size) && x.nfree > 0 && x.uindex + 1 == x.nmax
    ensures x.free != [] && Taken(z, x, size, k)
  {
    hide Slot, Slots, Offset, ChunkSize;
    var (y, p) := Take(x);
    SlotsCount(x, x.uindex + 1);
    SameSlots(x, y, x.uindex + 1);
    TailIn(x.free);
    assert p in x.free;
    var i: nat :| i < x.uindex + 1 && p == Slot(x, i);
    k := i;
    forall j: nat ensures Slot(x, j) == Slot(y, j) { SameSlot(x, y, j); }
    forall j: nat | j != k ensures Slot(x, j) != Slot(x, k) { SlotsDiffer(x, j, k); }
  }

  lemma SameSlot(x: Zone, y: Zone, k: nat)
    requires x.base == y.base && x.chunk == y.chunk
    ensures Slot(x, k) == Slot(y, k)
  {
  }

  lemma SlotsDiffer(x: Zone, j: nat, k: nat)
    requires j != k && x.chunk > 0
    ensures Slot(x, j) != Slot(x, k)
  {
    if j < k { SlotsApart(x, j, k); } else { SlotsApart(x, k, j); }
  }

  lemma SlotFresh(x: Zone, k: nat)
    requires x.chunk > 0
    ensures Slot(x, k) !in Slots(x, k)
  {
    SlotsCount(x, k);
    forall j: nat | j < k ensures Slot(x, j) != Slot(x, k) { SlotsDiffer(x, j, k); }
  }

  /** Freeing a live chunk makes that one chunk free. */
  lemma PutKeeps(z: int, x: Zone, size: nat, k: nat)
    requires ZoneOk(z, x, size) && LiveSlot(x, k)
    ensures var y := Put(x, Slot(x, k));
            && ZoneOk(z, y, size) && !LiveSlot(y, k) && (forall j: nat | j != k :: LiveSlot(y, j) <==> LiveSlot(x, j))
            && 0 < y.nfree <= y.nmax
  {
    hide Slot, Slots, Offset, ChunkSize;
    var p := Slot(x, k);
    var y := Put(x, p);
    forall j: nat ensures Slot(x, j) == Slot(y, j) { SameSlot(x, y, j); }
    ConsIn(x.free, p);
    SameSlots(x, y, x.uindex + 1);
    SlotsHold(x, x.uindex + 1, k);
    forall j: nat | j != k ensures Slot(x, j) != p { SlotsDiffer(x, j, k); }
    FreeAtMost(x.free, Slots(x, x.uindex + 1), p);
    SlotsCount(x, x.uindex + 1);
  }

  lemma {:induction false} DistinctCount(s: seq<int>)
    requires Distinct(s)
    ensures |set p | p in s| == |s|
  {
    if s != [] {
      TailIn(s);
      DistinctCount(s[1..]);
      assert (set p | p in s) == (set p | p in s[1..]) + {s[0]};
    }
  }

  lemma FreeAtMost(free: seq<int>, all: set<int>, p: int)
    requires Distinct(free) && p !in free && p in all && forall q | q in free :: q in all
    ensures |free| < |all|
  {
    DistinctCount(free);
    var f := set q | q in free;
    assert f <= all - {p};
    SubsetCount(f, all - {p});
  }

  lemma SubsetCount(a: set<int>, b: set<int>)
    requires a <= b
    ensures |a| <= |b|
  {
    assert b == a + (b - a);
  }

  /** When the counter says that every chunk is free, none is live: the zone may go. */
  lemma AllFreeNoneLive(z: int, x: Zone, size: nat, k: nat)
    requires ZoneOk(z, x, size) && x.nfree == x.nmax
    ensures !LiveSlot(x, k)
  {
    if LiveSlot(x, k) {
      SlotsHold(x, x.uindex + 1, k);
      SlotsCount(x, x.uindex + 1);
      FreeAtMost(x.free, Slots(x, x.uindex + 1), Slot(x, k));
    }
  }
}
