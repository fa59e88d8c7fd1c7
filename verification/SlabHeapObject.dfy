/** `rt_system_heap_init`, `rt_malloc` and `rt_free` of slab.c, on the state they update. */
module SlabHeapObject {
  import opened Lists
  import opened PageList
  import opened Slab
  import opened SlabHeap
  import opened SlabRequest

  class Allocator {
    const pages: Pages
    var size: nat
    var table: int
    var usage: map<int, Usage>
    var zones: map<int, Zone>
    var arrays: seq<seq<int>>
    var retired: seq<int>
    ghost var held: map<int, nat>

    ghost function State(): (h: Heap)
      reads this, pages
    {
      Heap(size, table, pages.list, usage, zones, arrays, retired, held)
    }

    ghost predicate Valid()
      reads this, pages
    {
      HeapInv(State())
    }

    /** `rt_system_heap_init` over n pages from page `first` on: the page table takes the first of them. */
    constructor (first: int, n: nat)
      requires 0 < first && 0 < n && n * PAGE < 0x1_0000_0000
      ensures Valid() && fresh(pages)
      ensures State() == FreshHeap(first, n)
      ensures forall p, c :: !Live(State(), p, c)
      ensures forall x :: Tracked(State(), x) <==> first <= x < first + n
    {
      pages := new Pages(first, n);
      usage, zones, retired, held := map[], map[], [], map[];
      arrays := seq(NZONES, _ => []);
      size, table := 32768, first;
      new;
      var bytes := n * PAGE;
      while size < 131072 && size * 2 < bytes / 1024
        invariant SizeOk(size) && size <= ZoneSize(n)
        invariant zones == map[] && retired == [] && held == map[] && table == first && arrays == seq(NZONES, _ => [])
        invariant pages.Valid() && pages.list == [Run(first, n)] && fresh(pages)
        modifies `size
      {
        size := size * 2;
      }
      TableFits(n);
      var t := TablePages(n);
      var found, a := pages.Alloc(t);
      held := held[a := t];
      table := a;
      StartOk(State(), first, n, t);
      assert State() == FreshHeap(first, n);
    }

    method TakePages(n: nat) returns (found: bool, a: int)
      requires HeldOk(pages.list, held)
      modifies this`held, pages
      ensures found == (n > 0 && FirstFit(old(pages.list), n, 0) < |old(pages.list)|)
      ensures found ==> var k := FirstFit(old(pages.list), n, 0);
                        && a == old(pages.list)[k].first && pages.list == Cut(old(pages.list), k, n)
                        && held == old(held)[a := n] && SamePages(old(State()), State())
      ensures !found ==> pages.list == old(pages.list) && held == old(held)
    {
      ghost var h := State();
      found, a := pages.Alloc(n);
      if found {
        held := held[a := n];
        CutTracks(h, State(), FirstFit(h.list, n, 0), n);
      }
    }

    method GivePages(a: int, n: nat)
      requires HeldOk(pages.list, held) && a in held && n == held[a]
      modifies this`held, pages
      ensures pages.list == Return(old(pages.list), Spot(old(pages.list), a, n, 0), a, n) && held == old(held) - {a}
      ensures SamePages(old(State()), State())
    {
      ghost var h := State();
      pages.Free(a, n);
      held := held - {a};
      ReturnTracks(h, State(), a);
    }

    /** `rt_malloc`; `found` is false for its RT_NULL. */
    method Malloc(n: nat) returns (found: bool, p: int)
      requires Valid() && n < WORD
      modifies this, pages
      ensures Valid() && SamePages(old(State()), State()) && found == CanServe(old(State()), n)
      ensures found ==> Adds(old(State()), State(), p, Served(size, n)) && ServedFrom(old(State()), State(), n, p)
      ensures found && PowerOfTwo(n) ==> (p % n == 0 <==> n <= PAGE || Origin(old(State()), n) * PAGE % n == 0)
      ensures !found ==> SameLive(old(State()), State())
    {
      if n == 0 { return false, 0; }
      if n >= Limit(size) {
        found, p := MallocLarge(LargePages(n));
      } else {
        LimitFits(n, size);
        var (i, _) := ZoneIndex(n);
        if arrays[i] != [] {
          found := true;
          p := MallocChunk(i);
        } else {
          found, p := MallocZone(i);
        }
      }
      if found && PowerOfTwo(n) { AlignedIff(old(State()), State(), n, p); }
    }

    method MallocLarge(m: nat) returns (found: bool, p: int)
      requires Valid()
      modifies this, pages
      ensures Valid() && size == old(size) && SamePages(old(State()), State())
      ensures found == (m > 0 && FirstFit(old(pages.list), m, 0) < |old(pages.list)|)
      ensures found ==> Adds(old(State()), State(), p, m * PAGE)
      ensures found ==> p == old(pages.list)[FirstFit(old(pages.list), m, 0)].first * PAGE
      ensures !found ==> State() == old(State())
    {
      ghost var h := State();
      found, p := TakePages(m);
      if found {
        TakeLargeKeeps(h, m);
        usage := usage[p := Large(m)];
        p := p * PAGE;
        assert State() == TakeLarge(h, m).0;
      }
    }

    /** A chunk of the first zone on list i, the never used ones first. */
    method MallocChunk(i: nat) returns (p: int)
      requires Valid() && i < NZONES && arrays[i] != []
      modifies this`zones, this`arrays
      ensures Valid() && Adds(old(State()), State(), p, ChunkSize(i))
      ensures ChunkOf(State(), old(arrays)[i][0], p, ChunkSize(i))
      ensures old(arrays)[i][0] in old(zones)
      ensures var x := old(zones)[old(arrays)[i][0]];
              if x.uindex + 1 < x.nmax then p == Slot(x, x.uindex + 1) else [p] <= x.free
    {
      ghost var h := State();
      TakeChunkKeeps(h, i);
      var z := arrays[i][0];
      var x := zones[z];
      x := x.(nfree := x.nfree - 1);
      if x.nfree == 0 { arrays := arrays[i := arrays[i][1..]]; }
      if x.uindex + 1 != x.nmax {
        x := x.(uindex := x.uindex + 1);
        p := x.base + x.uindex * x.chunk;
      } else {
        p := x.free[0];
        x := x.(free := x.free[1..]);
      }
      zones := zones[z := x];
      assert State() == TakeChunk(h, i).0 && p == TakeChunk(h, i).1;
    }

    /** A new zone for list i: a retired one, or one from the page allocator. */
    method MallocZone(i: nat) returns (found: bool, p: int)
      requires Valid() && i < NZONES && 4 * ChunkSize(i) <= size
      modifies this, pages
      ensures Valid() && size == old(size) && SamePages(old(State()), State())
      ensures found == (old(retired) != [] || FirstFit(old(pages.list), Span(size), 0) < |old(pages.list)|)
      ensures found ==> Adds(old(State()), State(), p, ChunkSize(i))
      ensures found ==> ChunkOf(State(), WholeZone(old(State())), p, ChunkSize(i))
      ensures !found ==> State() == old(State())
    {
      ghost var h := State();
      var z;
      p := 0;
      found, z := FindZone();
      if found {
        ghost var g := State();
        OpenKeeps(h, g, z, i);
        p := LayOut(z, i);
      }
    }

    method FindZone() returns (found: bool, z: int)
      requires Valid()
      modifies this, pages
      ensures found == (old(retired) != [] || FirstFit(old(pages.list), Span(size), 0) < |old(pages.list)|)
      ensures size == old(size) && SamePages(old(State()), State())
      ensures found ==> z == WholeZone(old(State())) && HeapFor(State(), z) && ForZone(old(State()), State(), z)
      ensures !found ==> State() == old(State())
    {
      ghost var h := State();
      if retired != [] {
        ReuseFor(h);
        found, z := true, retired[0];
        retired := retired[1..];
        assert State() == Reuse(h).0;
      } else {
        found, z := TakePages(size / PAGE);
        if found {
          GrabFor(h);
          MarkPages(z);
          assert State() == Grab(h).0;
        }
      }
    }

    method MarkPages(z: int)
      modifies this`usage
      ensures usage == Mark(old(usage), z, Span(size))
    {
      var off := 0;
      while off < size / PAGE
        invariant off <= size / PAGE && usage == Mark(old(usage), z, off)
      {
        usage := usage[z + off := Small(off)];
        off := off + 1;
      }
    }

    method UnmarkPages(z: int)
      modifies this`usage
      ensures usage == Unmark(old(usage), z, Span(size))
    {
      var i := 0;
      while i < size / PAGE
        invariant i <= size / PAGE && usage == Unmark(old(usage), z, i)
      {
        usage := usage[z + i := Unused];
        i := i + 1;
      }
    }

    /** The header of zone z is written and the zone linked to list i. */
    method LayOut(z: int, i: nat) returns (p: int)
      requires i < NZONES && |arrays| == NZONES && SizeOk(size) && 4 * ChunkSize(i) <= size
      modifies this`zones, this`arrays
      ensures State() == OpenZone(old(State()), z, i).0 && p == OpenZone(old(State()), z, i).1
    {
      hide ChunkSize, Fresh;
      var x := Header(z, i);
      p := x.base + x.uindex * x.chunk;
      zones := zones[z := x];
      arrays := arrays[i := [z] + arrays[i]];
    }

    method Header(z: int, i: nat) returns (x: Zone)
      requires i < NZONES && SizeOk(size) && 4 * ChunkSize(i) <= size
      ensures x == Fresh(z, i, size) && x.uindex == 0
    {
      hide ChunkSize, Up, PowerOfTwo;
      var c := ChunkSize(i);
      var off := HDR;
      if PowerOfTwo(c) { off := Up(off, c); } else { off := Up(off, MIN_CHUNK); }
      x := Zone(i, c, z * PAGE + off, (size - off) / c, 0, 0, []);
      x := x.(nfree := x.nmax - 1);
    }

    /** `rt_free` of a live block, or of RT_NULL. */
    method Free(p: int)
      requires Valid() && (p != 0 ==> exists c :: Live(State(), p, c))
      modifies this, pages
      ensures Valid() && SamePages(old(State()), State())
      ensures if p == 0 then State() == old(State()) else Drops(old(State()), State(), p)
    {
      if p == 0 { return; }
      ghost var h := State();
      ghost var c :| Live(h, p, c);
      Lookup(h, p, c);
      match usage[p / PAGE]
      case Large(n) =>
        FreeLargeKeeps(h, p / PAGE);
        usage := usage[p / PAGE := Large(0)];
        GivePages(p / PAGE, n);
        assert State() == FreeLarge(h, p / PAGE);
      case Small(off) =>
        FreeChunk(p / PAGE - off, p);
    }

    method FreeChunk(z: int, p: int)
      requires Valid() && exists c :: ChunkOf(State(), z, p, c)
      modifies this, pages
      ensures Valid() && SamePages(old(State()), State()) && Drops(old(State()), State(), p)
      ensures z in old(zones) && old(zones)[z].index < |old(arrays)|
      ensures if LastOf(old(State()), z) then Gone(old(State()), State(), z) else Stays(old(State()), State(), z, p)
    {
      hide Stays, Gone, LastOf, Drops, SameLive;
      ghost var h := State();
      ghost var c :| ChunkOf(h, z, p, c);
      ghost var k: nat :| ChunkAt(h, z, k, p, c);
      PutChunkKeeps(h, z, k, p);
      RetiresIff(h, z, p);
      var x := zones[z];
      x := x.(free := [p] + x.free);
      if x.nfree == 0 { arrays := arrays[x.index := [z] + arrays[x.index]]; }
      x := x.(nfree := x.nfree + 1);
      zones := zones[z := x];
      ghost var u := State();
      assert u == PutChunk(h, z, p);
      ZoneIndexOk(z, x, size);
      if x.nfree == x.nmax && |arrays[x.index]| > 1 {
        RetireZone(z);
        RetiredThen(h, u, State(), z, p);
      }
    }

    /** Zone z, none of whose chunks is live, leaves its list; beyond the threshold it returns to the page allocator. */
    method RetireZone(z: int)
      requires Valid() && z in zones && zones[z].index < NZONES && Retires(State(), z)
      modifies this, pages
      ensures Valid() && SamePages(old(State()), State()) && SameLive(old(State()), State())
      ensures Gone(old(State()), State(), z)
    {
      ghost var h := State();
      var i := zones[z].index;
      ListedAt(h, z);
      var k := 0;
      while arrays[i][k] != z
        invariant k <= IndexOf(arrays[i], z) < |arrays[i]|
        decreases |arrays[i]| - k
      {
        k := k + 1;
      }
      arrays := arrays[i := DeleteAt(arrays[i], k)];
      zones := zones - {z};
      retired := [z] + retired;
      assert State() == Retire(h, z);
      if |retired| > THRESH {
        RetireReleaseKeeps(h, z);
        ghost var g := State();
        retired := retired[1..];
        UnmarkPages(z);
        GivePages(z, size / PAGE);
        assert State() == Release(g);
      } else {
        RetireKeeps(h, z);
      }
    }
  }

  lemma ListedAt(h: Heap, z: int)
    requires HeapInv(h) && z in h.zones && h.zones[z].index < NZONES && h.zones[z].nfree == h.zones[z].nmax
    ensures z in h.arrays[h.zones[z].index] && z in h.held && h.held[z] == Span(h.size)
  {
    assert ZoneOk(z, h.zones[z], h.size);
  }

  /** A chunk freed, and its zone retired after that. */
  lemma RetiredThen(h: Heap, u: Heap, w: Heap, z: int, p: int)
    requires Drops(h, u, p) && SameLive(u, w) && Stays(h, u, z, p) && Gone(u, w, z)
    ensures Drops(h, w, p) && Gone(h, w, z)
  {
  }

  /** The heap as set up: the page table is the one held run. */
  lemma StartOk(u: Heap, first: int, n: nat, t: nat)
    requires 0 < t <= n && SizeOk(u.size) && u.table == first && u.zones == map[] && u.retired == []
    requires u.arrays == seq(NZONES, _ => []) && u.list == Cut([Run(first, n)], 0, t) && u.held == map[first := t]
    ensures HeapInv(u) && (forall p, c :: !Live(u, p, c)) && forall x :: Tracked(u, x) <==> first <= x < first + n
  {
    hide Cut, HeldOk;
    var h := u.(list := [Run(first, n)], held := map[]);
    assert HeldOk(h.list, h.held) by { OneRun(first, n); }
    CutHeld(h.list, h.held, 0, t);
    assert u.held == h.held[first := t];
    CutTracks(h, u, 0, t);
    forall x ensures Tracked(h, x) <==> first <= x < first + n { OneTracks(h, first, n, x); }
  }

  lemma OneRun(first: int, n: nat)
    requires n > 0
    ensures HeldOk([Run(first, n)], map[])
  {
  }

  lemma OneTracks(h: Heap, first: int, n: nat, x: int)
    requires h.list == [Run(first, n)] && h.held == map[]
    ensures Tracked(h, x) <==> first <= x < first + n
  {
    assert Covers(h.list[0], x) <==> first <= x < first + n;
  }

  /** The first block of a fresh heap: for a power of two it is aligned or not as the page behind the page table is. */
  method FirstBlock(first: int, n: nat, m: nat) returns (found: bool, p: int)
    requires 0 < first && 0 < n && n * PAGE < 0x1_0000_0000 && PowerOfTwo(m) && m < WORD
    ensures found == CanServe(FreshHeap(first, n), m)
    ensures found ==> (p % m == 0 <==> m <= PAGE || (first + TablePages(n)) * PAGE % m == 0)
  {
    TableFits(n);
    var heap := new Allocator(first, n);
    found, p := heap.Malloc(m);
    if found { FreshOrigin(first, n, m); }
  }
}
