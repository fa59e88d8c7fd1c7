/** The first-fit heap of mem.c with its pointer to the lowest free block. */
module SmallMem {
  import opened Tiling

  const HDR: nat := 32         // SIZEOF_STRUCT_MEM with 64-bit words and trace names
  const MIN_SIZE: nat := 24    // MIN_SIZE_ALIGNED
  const ALIGN: nat := 4        // RT_ALIGN_SIZE; the smallest payload a reallocation can leave
  const WORD: nat := 0x1_0000_0000_0000_0000

  function AlignUp(n: nat): (r: nat)
    ensures n <= r < n + ALIGN && r % ALIGN == 0
  {
    (n + ALIGN - 1) / ALIGN * ALIGN
  }

  ghost predicate Blocks(bs: seq<Block>, pool: nat) { Tiled(bs, pool, HDR, ALIGN) }

  // ---- the headers describe the blocks

  ghost predicate FitsAt(bs: seq<Block>, i: nat, next: map<int, int>, prev: map<int, int>, used: map<int, bool>)
    requires i < |bs|
  {
    var a := bs[i].off;
    && a in used && used[a] == bs[i].used
    && a in next && next[a] == (if i + 1 < |bs| then bs[i + 1].off else a)
    && a in prev && (i + 1 < |bs| ==> prev[a] == if i > 0 then bs[i - 1].off else a)
  }

  /** Next and previous links and used flags; the previous link of the end header is not kept. */
  ghost predicate Fits(bs: seq<Block>, next: map<int, int>, prev: map<int, int>, used: map<int, bool>) {
    forall i | 0 <= i < |bs| :: FitsAt(bs, i, next, prev, used)
  }

  // ---- elementary changes

  function Flag(bs: seq<Block>, i: nat, u: bool): (r: seq<Block>)
    requires i < |bs|
  {
    bs[i := bs[i].(used := u)]
  }

  /** Block i keeps n bytes; the rest becomes a free block behind it. */
  function Split(bs: seq<Block>, i: nat, n: nat): (r: seq<Block>)
    requires i < |bs|
  {
    Splice(bs, i, 1, [bs[i].(size := n), Block(bs[i].off + HDR + n, bs[i].size - HDR - n, false)])
  }

  /** Block i takes in the block behind it. */
  function Join(bs: seq<Block>, i: nat): (r: seq<Block>)
    requires i + 1 < |bs|
  {
    Splice(bs, i, 2, [bs[i].(size := bs[i].size + HDR + bs[i + 1].size)])
  }

  lemma SplitIs(bs: seq<Block>, i: nat, n: nat)
    requires i < |bs|
    ensures |Split(bs, i, n)| == |bs| + 1
    ensures forall k | 0 <= k < i :: Split(bs, i, n)[k] == bs[k]
    ensures Split(bs, i, n)[i] == bs[i].(size := n)
    ensures Split(bs, i, n)[i + 1] == Block(bs[i].off + HDR + n, bs[i].size - HDR - n, false)
    ensures forall k | i + 2 <= k <= |bs| :: Split(bs, i, n)[k] == bs[k - 1]
  {
  }

  lemma JoinIs(bs: seq<Block>, i: nat)
    requires i + 1 < |bs|
    ensures |Join(bs, i)| == |bs| - 1
    ensures forall k | 0 <= k < i :: Join(bs, i)[k] == bs[k]
    ensures Join(bs, i)[i] == bs[i].(size := bs[i].size + HDR + bs[i + 1].size)
    ensures forall k | i + 1 <= k < |bs| - 1 :: Join(bs, i)[k] == bs[k + 1]
  {
  }

  lemma FlagKeeps(bs: seq<Block>, i: nat, u: bool, next: map<int, int>, prev: map<int, int>, used: map<int, bool>,
                  pool: nat)
    requires Blocks(bs, pool) && i + 1 < |bs| && Fits(bs, next, prev, used)
    ensures Blocks(Flag(bs, i, u), pool) && Fits(Flag(bs, i, u), next, prev, used[bs[i].off := u])
  {
    var r, flags := Flag(bs, i, u), used[bs[i].off := u];
    OffsDistinct(bs, pool, HDR, ALIGN);
    forall k | 0 <= k < |r| - 1 ensures Abut(r, k, HDR, ALIGN) { assert Abut(bs, k, HDR, ALIGN); }
    forall k | 0 <= k < |r| ensures FitsAt(r, k, next, prev, flags) {
      assert FitsAt(bs, k, next, prev, used);
    }
  }

  lemma SplitKeeps(bs: seq<Block>, i: nat, n: nat, next: map<int, int>, prev: map<int, int>, used: map<int, bool>,
                   pool: nat)
    requires Blocks(bs, pool) && i + 1 < |bs| && Fits(bs, next, prev, used)
    requires ALIGN <= n && n + HDR + ALIGN <= bs[i].size
    ensures var a, b := bs[i].off, bs[i].off + HDR + n;
            && Blocks(Split(bs, i, n), pool)
            && a in next
            && Fits(Split(bs, i, n), next[b := next[a]][a := b],
                    if i + 2 < |bs| then prev[b := a][next[a] := b] else prev[b := a], used[b := false])
  {
    var b := bs[i].off + HDR + n;
    assert Abut(bs, i, HDR, ALIGN) && FitsAt(bs, i, next, prev, used);
    SpliceTiled(bs, i, 1, [bs[i].(size := n), Block(b, bs[i].size - HDR - n, false)], pool, HDR, ALIGN);
    OffsDistinct(bs, pool, HDR, ALIGN);
    NewOff(bs, i, b, pool);
    SplitFits(bs, i, n, next, prev, used);
  }

  lemma SplitFits(bs: seq<Block>, i: nat, n: nat, next: map<int, int>, prev: map<int, int>, used: map<int, bool>)
    requires i + 1 < |bs| && Fits(bs, next, prev, used) && bs[i].off in next
    requires forall j, k | 0 <= j < |bs| && 0 <= k < |bs| && bs[j].off == bs[k].off :: j == k
    requires forall k | 0 <= k < |bs| :: bs[k].off != bs[i].off + HDR + n
    ensures var a, b := bs[i].off, bs[i].off + HDR + n;
            Fits(Split(bs, i, n), next[b := next[a]][a := b],
                 if i + 2 < |bs| then prev[b := a][next[a] := b] else prev[b := a], used[b := false])
  {
    hide Split;
    var a, b := bs[i].off, bs[i].off + HDR + n;
    var r := Split(bs, i, n);
    SplitIs(bs, i, n);
    assert FitsAt(bs, i, next, prev, used) && FitsAt(bs, i + 1, next, prev, used);
    var next', prev', used' := next[b := next[a]][a := b],
      if i + 2 < |bs| then prev[b := a][next[a] := b] else prev[b := a], used[b := false];
    var c := bs[i + 1].off;
    forall k | 0 <= k < i ensures FitsAt(r, k, next', prev', used') {
      assert FitsAt(bs, k, next, prev, used);
      assert r[k] == bs[k] && bs[k].off != a && bs[k].off != b && bs[k].off != c;
      assert r[k + 1].off == bs[k + 1].off;
      assert k > 0 ==> r[k - 1] == bs[k - 1];
    }
    assert a != b && a != c && b != c;
    assert r[i].off == a && r[i + 1].off == b && r[i + 2] == bs[i + 1];
    assert i > 0 ==> r[i - 1] == bs[i - 1];
    assert FitsAt(r, i, next', prev', used');
    assert FitsAt(r, i + 1, next', prev', used');
    forall k | i + 2 <= k < |r| ensures FitsAt(r, k, next', prev', used') {
      assert FitsAt(bs, k - 1, next, prev, used);
    }
  }

  lemma NewOff(bs: seq<Block>, i: nat, b: int, pool: nat)
    requires Blocks(bs, pool) && i + 1 < |bs| && bs[i].off < b < bs[i + 1].off
    ensures forall k | 0 <= k < |bs| :: bs[k].off != b
  {
    forall k | 0 <= k < |bs| ensures bs[k].off != b {
      if k < i { Ordered(bs, k, i, pool, HDR, ALIGN); InPool(bs, k, pool, HDR, ALIGN); }
      if k > i + 1 { Ordered(bs, i + 1, k, pool, HDR, ALIGN); InPool(bs, i + 1, pool, HDR, ALIGN); }
    }
  }

  lemma JoinKeeps(bs: seq<Block>, i: nat, next: map<int, int>, prev: map<int, int>, used: map<int, bool>, pool: nat)
    requires Blocks(bs, pool) && i + 2 < |bs| && Fits(bs, next, prev, used)
    ensures var a, b := bs[i].off, bs[i + 1].off;
            && Blocks(Join(bs, i), pool)
            && b in next && Fits(Join(bs, i), next[a := next[b]], prev[next[b] := a], used)
  {
    var a, b := bs[i].off, bs[i + 1].off;
    var r := Join(bs, i);
    JoinIs(bs, i);
    OffsDistinct(bs, pool, HDR, ALIGN);
    assert Abut(bs, i, HDR, ALIGN) && Abut(bs, i + 1, HDR, ALIGN);
    assert FitsAt(bs, i, next, prev, used) && FitsAt(bs, i + 1, next, prev, used);
    SpliceTiled(bs, i, 2, [bs[i].(size := bs[i].size + HDR + bs[i + 1].size)], pool, HDR, ALIGN);
    var next', prev' := next[a := next[b]], prev[next[b] := a];
    forall k | 0 <= k < |r| ensures FitsAt(r, k, next', prev', used) {
      assert k < i ==> FitsAt(bs, k, next, prev, used);
      assert k > i ==> FitsAt(bs, k + 1, next, prev, used);
    }
  }

  // ---- what the calls do to the blocks

  /** The first free block from the k-th on, or the end header. */
  function Low(bs: seq<Block>, k: nat): (i: nat)
    requires k < |bs|
    ensures k <= i < |bs| && (i < |bs| - 1 ==> !bs[i].used)
    ensures forall j | k <= j < i :: bs[j].used
    decreases |bs| - k
  {
    if k == |bs| - 1 || !bs[k].used then k else Low(bs, k + 1)
  }

  /** The test of the search loop; its bound on the offset is strict. */
  predicate Suits(b: Block, n: nat, total: nat) {
    !b.used && b.size >= n && b.off < total - n
  }

  function First(bs: seq<Block>, k: nat, n: nat, total: nat): (i: nat)
    requires k < |bs|
    ensures k <= i < |bs| && (i < |bs| - 1 ==> Suits(bs[i], n, total))
    ensures forall j | k <= j < i :: !Suits(bs[j], n, total)
    decreases |bs| - k
  {
    if k == |bs| - 1 || Suits(bs[k], n, total) then k else First(bs, k + 1, n, total)
  }

  /** A request is at least the smallest block. */
  function Least(n: nat): (m: nat) { if n < MIN_SIZE then MIN_SIZE else n }

  function Larger(a: int, b: int): (c: int) { if a < b then b else a }

  /** Where block i is after block j was given out for n bytes. */
  function Behind(bs: seq<Block>, j: nat, i: nat, n: nat): (k: nat)
    requires j < |bs|
  {
    if j < i && bs[j].size >= n + HDR + MIN_SIZE then i + 1 else i
  }

  function Carved(bs: seq<Block>, i: nat, n: nat): (r: seq<Block>)
    requires i < |bs|
  {
    SplitIs(bs, i, n);
    if bs[i].size >= n + HDR + MIN_SIZE then Flag(Split(bs, i, n), i, true) else Flag(bs, i, true)
  }

  /** `plug_holes` on the free block i. */
  function Plugged(bs: seq<Block>, i: nat): (r: seq<Block>)
    requires i + 1 < |bs|
  {
    var a := PluggedRight(bs, i);
    if i > 0 && i < |a| && !a[i - 1].used then Join(a, i - 1) else a
  }

  function PluggedRight(bs: seq<Block>, i: nat): (r: seq<Block>)
    requires i + 1 < |bs|
  {
    if i + 2 < |bs| && !bs[i + 1].used then Join(bs, i) else bs
  }

  /** What `plug_holes` does to a pointer at a block it swallows. */
  function PluggedPtr(bs: seq<Block>, i: nat, p: int): (q: int)
    requires i + 1 < |bs|
  {
    var r := if i + 2 < |bs| && !bs[i + 1].used && p == bs[i + 1].off then bs[i].off else p;
    if i > 0 && !bs[i - 1].used && r == bs[i].off then bs[i - 1].off else r
  }

  function Freed(bs: seq<Block>, i: nat): (r: seq<Block>)
    requires i + 1 < |bs|
  {
    Plugged(Flag(bs, i, false), i)
  }

  function Shrunk(bs: seq<Block>, i: nat, n: nat): (r: seq<Block>)
    requires i + 1 < |bs|
  {
    SplitIs(bs, i, n);
    Plugged(Split(bs, i, n), i + 1)
  }

  /** The search from the lowest free block finds what a search from the start finds. */
  lemma {:induction false} FirstFromLow(bs: seq<Block>, k: nat, n: nat, total: nat)
    requires k < |bs|
    ensures First(bs, Low(bs, k), n, total) == First(bs, k, n, total)
    decreases |bs| - k
  {
    if k < |bs| - 1 && bs[k].used { FirstFromLow(bs, k + 1, n, total); }
  }

  /** The strict bound only ever hides the last block, when it fits exactly. */
  lemma MissedExactly(bs: seq<Block>, i: nat, n: nat, total: nat)
    requires Blocks(bs, total + 2 * HDR) && i + 1 < |bs| && n <= total
    requires !bs[i].used && bs[i].size >= n
    ensures Suits(bs[i], n, total) <==> !(i == |bs| - 2 && bs[i].size == n)
  {
    assert Abut(bs, i, HDR, ALIGN);
    if i < |bs| - 2 {
      assert Abut(bs, i + 1, HDR, ALIGN);
      InPool(bs, i + 1, total + 2 * HDR, HDR, ALIGN);
    }
  }

  /** A request is served exactly when a free block can hold it that is not the last block fitting it to the byte. */
  lemma ServedIff(bs: seq<Block>, n: nat, total: nat)
    requires Blocks(bs, total + 2 * HDR) && n <= total
    ensures First(bs, 0, n, total) < |bs| - 1 <==>
              exists i :: 0 <= i < |bs| - 1 && !bs[i].used && bs[i].size >= n && !(i == |bs| - 2 && bs[i].size == n)
  {
    var f := First(bs, 0, n, total);
    if f < |bs| - 1 { MissedExactly(bs, f, n, total); }
    if i :| 0 <= i < |bs| - 1 && !bs[i].used && bs[i].size >= n && !(i == |bs| - 2 && bs[i].size == n) {
      MissedExactly(bs, i, n, total);
    }
  }

  /** An exact fit of the last block is refused: the freshly started heap does not give out all it has. */
  lemma LastByteRefused(total: nat)
    requires total >= MIN_SIZE
    ensures First([Block(0, total, false), Block(total + HDR, 0, true)], 0, total, total) == 1
  {
  }

  // ---- no two free neighbours

  /** Merged except around block i. */
  ghost predicate MergedAway(bs: seq<Block>, i: int) {
    forall j, k | 0 <= j && k == j + 1 < |bs| && j != i && k != i :: bs[j].used || bs[k].used
  }

  lemma PluggedMerged(bs: seq<Block>, i: nat)
    requires MergedAway(bs, i) && i + 1 < |bs| && bs[|bs| - 1].used && !bs[i].used
    ensures Merged(Plugged(bs, i))
  {
    hide Join;
    var a := PluggedRight(bs, i);
    if i + 2 < |bs| && !bs[i + 1].used { JoinIs(bs, i); }
    assert forall j, k | 0 <= j && k == j + 1 < |a| && k != i :: a[j].used || a[k].used;
    if i > 0 && i < |a| && !a[i - 1].used {
      JoinIs(a, i - 1);
      var r := Join(a, i - 1);
      forall j, k | 0 <= j && k == j + 1 < |r| ensures r[j].used || r[k].used {
        if j >= i { assert a[j + 1].used || a[k + 1].used; }
      }
    }
  }

  lemma CarvedMerged(bs: seq<Block>, i: nat, n: nat)
    requires Merged(bs) && i + 1 < |bs| && !bs[i].used
    ensures Merged(Carved(bs, i, n))
  {
    hide Split;
    SplitIs(bs, i, n);
    var r := Carved(bs, i, n);
    forall j, k | 0 <= j && k == j + 1 < |r| ensures r[j].used || r[k].used {
      if |r| == |bs| {
        assert bs[j].used || bs[k].used;
      } else if j > i + 1 {
        assert bs[j - 1].used || bs[k - 1].used;
      } else if j < i - 1 {
        assert bs[j].used || bs[k].used;
      } else if j == i + 1 {
        assert bs[i].used || bs[i + 1].used;
      }
    }
  }

  lemma FreedMerged(bs: seq<Block>, i: nat)
    requires Merged(bs) && i + 1 < |bs| && bs[|bs| - 1].used
    ensures Merged(Freed(bs, i))
  {
    PluggedMerged(Flag(bs, i, false), i);
  }

  lemma ShrunkMerged(bs: seq<Block>, i: nat, n: nat)
    requires Merged(bs) && i + 1 < |bs| && bs[|bs| - 1].used && bs[i].used
    ensures Merged(Shrunk(bs, i, n))
  {
    hide Split;
    SplitIs(bs, i, n);
    var a := Split(bs, i, n);
    forall j, k | 0 <= j && k == j + 1 < |a| && j != i + 1 && k != i + 1 ensures a[j].used || a[k].used {
      if j > i + 1 { assert bs[j - 1].used || bs[k - 1].used; }
    }
    PluggedMerged(a, i + 1);
  }

  // ---- used bytes and live payloads

  function UsedSize(b: Block): (n: int) { if b.used then HDR + b.size else 0 }

  /** The bytes that used blocks span, headers included. */
  function Span(bs: seq<Block>): (n: int) { SpanTo(bs, |bs|) }

  function SpanTo(bs: seq<Block>, k: nat): (n: int)
    requires k <= |bs|
  {
    if k == 0 then 0 else SpanTo(bs, k - 1) + UsedSize(bs[k - 1])
  }

  lemma {:induction false} SpanPrefix(a: seq<Block>, b: seq<Block>, k: nat)
    requires k <= |a|
    ensures SpanTo(a + b, k) == SpanTo(a, k)
  {
    if k > 0 { SpanPrefix(a, b, k - 1); }
  }

  lemma {:induction false} SpanConcat(a: seq<Block>, b: seq<Block>, k: nat)
    requires k <= |b|
    ensures SpanTo(a + b, |a| + k) == Span(a) + SpanTo(b, k)
  {
    if k == 0 {
      SpanPrefix(a, b, |a|);
    } else {
      SpanConcat(a, b, k - 1);
      assert (a + b)[|a| + k - 1] == b[k - 1];
    }
  }

  lemma SpanSplice(bs: seq<Block>, i: nat, n: nat, mid: seq<Block>)
    requires i + n <= |bs|
    ensures Span(Splice(bs, i, n, mid)) == Span(bs) - Span(bs[i..i + n]) + Span(mid)
  {
    var a, b, c := bs[..i], bs[i..i + n], bs[i + n..];
    assert bs == a + b + c;
    SpanConcat(a + b, c, |c|);
    SpanConcat(a, b, |b|);
    SpanConcat(a + mid, c, |c|);
    SpanConcat(a, mid, |mid|);
  }

  lemma SpanOneTwo(b: Block, c: Block)
    ensures Span([b]) == UsedSize(b) && Span([b, c]) == UsedSize(b) + UsedSize(c)
  {
    assert SpanTo([b], 0) == 0 && SpanTo([b, c], 0) == 0 && SpanTo([b, c], 1) == UsedSize(b);
  }

  ghost predicate Sums(bs: seq<Block>, r: seq<Block>, span: int, gone: set<(int, int)>, come: set<(int, int)>) {
    && Span(r) == Span(bs) + span
    && Live(r, HDR) == Live(bs, HDR) - gone + come
  }

  lemma FlagSums(bs: seq<Block>, i: nat, u: bool, pool: nat)
    requires Blocks(bs, pool) && i < |bs|
    ensures var c := bs[i].(used := u);
            Sums(bs, Flag(bs, i, u), UsedSize(c) - UsedSize(bs[i]), bs[i].LiveOf(HDR), c.LiveOf(HDR))
  {
    var c := bs[i].(used := u);
    assert Flag(bs, i, u) == Splice(bs, i, 1, [c]);
    SpanSplice(bs, i, 1, [c]);
    SpliceSums(bs, i, 1, [c], pool, HDR, ALIGN);
    assert bs[i..i + 1] == [bs[i]];
    SpanOneTwo(bs[i], c);
    SpanOneTwo(c, c);
    SumsOne(bs[i], HDR);
    SumsOne(c, HDR);
  }

  lemma SplitSums(bs: seq<Block>, i: nat, n: nat, pool: nat)
    requires Blocks(bs, pool) && i < |bs|
    ensures var c := bs[i].(size := n);
            Sums(bs, Split(bs, i, n), UsedSize(c) - UsedSize(bs[i]), bs[i].LiveOf(HDR), c.LiveOf(HDR))
  {
    var c, d := bs[i].(size := n), Block(bs[i].off + HDR + n, bs[i].size - HDR - n, false);
    SpanSplice(bs, i, 1, [c, d]);
    SpliceSums(bs, i, 1, [c, d], pool, HDR, ALIGN);
    assert bs[i..i + 1] == [bs[i]];
    SpanOneTwo(bs[i], c);
    SpanOneTwo(c, d);
    SumsOne(bs[i], HDR);
    SumsTwo(c, d, HDR);
  }

  lemma JoinSums(bs: seq<Block>, i: nat, pool: nat)
    requires Blocks(bs, pool) && i + 1 < |bs| && !bs[i].used && !bs[i + 1].used
    ensures Sums(bs, Join(bs, i), 0, {}, {})
  {
    var c := bs[i].(size := bs[i].size + HDR + bs[i + 1].size);
    SpanSplice(bs, i, 2, [c]);
    SpliceSums(bs, i, 2, [c], pool, HDR, ALIGN);
    assert bs[i..i + 2] == [bs[i], bs[i + 1]];
    SpanOneTwo(bs[i], bs[i + 1]);
    SpanOneTwo(c, c);
    SumsTwo(bs[i], bs[i + 1], HDR);
    SumsOne(c, HDR);
  }

  /** Plugging moves no payload and keeps the used bytes. */
  lemma PluggedKeeps(bs: seq<Block>, i: nat, pool: nat)
    requires Blocks(bs, pool) && i + 1 < |bs| && !bs[i].used
    ensures Blocks(Plugged(bs, i), pool) && Sums(bs, Plugged(bs, i), 0, {}, {})
  {
    hide Join, Span, Live, Splice;
    var a := PluggedRight(bs, i);
    if i + 2 < |bs| && !bs[i + 1].used {
      JoinIs(bs, i);
      JoinSums(bs, i, pool);
      JoinTiled(bs, i, pool);
    }
    if i > 0 && i < |a| && !a[i - 1].used {
      JoinSums(a, i - 1, pool);
      JoinTiled(a, i - 1, pool);
    }
  }

  lemma JoinTiled(bs: seq<Block>, i: nat, pool: nat)
    requires Blocks(bs, pool) && i + 2 < |bs|
    ensures Blocks(Join(bs, i), pool)
  {
    assert Abut(bs, i, HDR, ALIGN) && Abut(bs, i + 1, HDR, ALIGN);
    SpliceTiled(bs, i, 2, [bs[i].(size := bs[i].size + HDR + bs[i + 1].size)], pool, HDR, ALIGN);
  }

  // ---- the lowest free block

  lemma {:induction false} LowIs(bs: seq<Block>, k: nat, i: nat)
    requires k <= i < |bs| && (forall j | k <= j < i :: bs[j].used) && (i == |bs| - 1 || !bs[i].used)
    ensures Low(bs, k) == i
    decreases i - k
  {
    if k < i { LowIs(bs, k + 1, i); }
  }

  /** Plugging around block i keeps the lowest free block where it is. */
  lemma PluggedLow(bs: seq<Block>, i: nat)
    requires i + 1 < |bs| && !bs[i].used
    ensures Low(Plugged(bs, i), 0) == Low(bs, 0)
    ensures Low(bs, 0) <= i && |Plugged(bs, i)| > Low(bs, 0)
    ensures Plugged(bs, i)[Low(bs, 0)].off == bs[Low(bs, 0)].off
  {
    hide Join, Low;
    JoinLow(bs, i);
    var a := PluggedRight(bs, i);
    if i + 2 < |bs| && !bs[i + 1].used { JoinIs(bs, i); }
    if i > 0 && i < |a| && !a[i - 1].used { JoinLow(a, i - 1); }
  }

  lemma JoinLow(bs: seq<Block>, i: nat)
    requires i + 1 < |bs| && !bs[i].used
    ensures Low(bs, 0) <= i
    ensures i + 2 < |bs| ==> Low(Join(bs, i), 0) == Low(bs, 0) && Join(bs, i)[Low(bs, 0)].off == bs[Low(bs, 0)].off
  {
    var l := Low(bs, 0);
    assert l <= i;
    if i + 2 < |bs| {
      JoinIs(bs, i);
      LowIs(Join(bs, i), 0, l);
    }
  }

  class SmallHeap {
    const total: nat  // mem_size_aligned
    var next: map<int, int>
    var prev: map<int, int>
    var used: map<int, bool>
    var lfree: int
    var usedMem: int
    var maxMem: int
    ghost var blocks: seq<Block>

    ghost predicate Laid()
      reads this
    {
      Blocks(blocks, total + 2 * HDR) && Fits(blocks, next, prev, used)
    }

    ghost predicate Valid()
      reads this
    {
      && total >= MIN_SIZE
      && Laid()
      && Merged(blocks)
      && lfree == blocks[Low(blocks, 0)].off
      && usedMem == Span(blocks) - HDR <= maxMem
    }

    /** `rt_system_heap_init` over an aligned range with room for two headers and the smallest block. */
    constructor (total: nat)
      requires total >= MIN_SIZE
      ensures Valid() && this.total == total && usedMem == 0
      ensures blocks == [Block(0, total, false), Block(total + HDR, 0, true)]
    {
      this.total := total;
      next, prev := map[0 := total + HDR, total + HDR := total + HDR], map[0 := 0, total + HDR := total + HDR];
      used, lfree, usedMem, maxMem := map[0 := false, total + HDR := true], 0, 0, 0;
      blocks := [Block(0, total, false), Block(total + HDR, 0, true)];
      new;
      assert Abut(blocks, 0, HDR, ALIGN);
      SpanOneTwo(blocks[0], blocks[1]);
    }

    /** The search loop of `rt_malloc`: the first free block from `lfree` on that can hold n bytes. */
    method Search(n: nat) returns (ptr: int, ghost i: nat)
      requires Valid() && n <= total
      ensures i == First(blocks, 0, n, total) && (i < |blocks| - 1 <==> ptr < total - n)
      ensures i < |blocks| - 1 ==> ptr == blocks[i].off
    {
      hide Span;
      FirstFromLow(blocks, 0, n, total);
      ptr, i := lfree, Low(blocks, 0);
      while ptr < total - n
        invariant i < |blocks| && ptr == blocks[i].off
        invariant First(blocks, i, n, total) == First(blocks, 0, n, total)
        decreases |blocks| - i
      {
        assert FitsAt(blocks, i, next, prev, used);
        assert i < |blocks| - 1;
        assert Abut(blocks, i, HDR, ALIGN);
        if !used[ptr] && next[ptr] - (ptr + HDR) >= n {
          return;
        }
        ptr := next[ptr];
        i := i + 1;
      }
      BeyondLimit(blocks, i, n, total);
      i := |blocks| - 1;
    }

    /** Block i is given out: split if the rest can hold another block, else whole. */
    method Carve(mem: int, n: nat, ghost i: nat)
      requires Laid() && i < |blocks| - 1 && blocks[i].off == mem && !blocks[i].used && ALIGN <= n <= blocks[i].size
      modifies `next, `prev, `used, `usedMem, `maxMem, `blocks
      ensures Laid() && blocks == Carved(old(blocks), i, n)
      ensures usedMem == old(usedMem) + HDR + blocks[i].size
      ensures maxMem == if old(maxMem) < usedMem then usedMem else old(maxMem)
    {
      hide Split, Blocks, Fits;
      HeaderOf(blocks, i, next, prev, used, total + 2 * HDR);
      SplitIs(blocks, i, n);
      if next[mem] - (mem + HDR) >= n + HDR + MIN_SIZE {
        SplitKeeps(blocks, i, n, next, prev, used, total + 2 * HDR);
        var ptr2 := mem + HDR + n;
        used := used[ptr2 := false];
        next := next[ptr2 := next[mem]];
        prev := prev[ptr2 := mem];
        next := next[mem := ptr2];
        if next[ptr2] != total + HDR { prev := prev[next[ptr2] := ptr2]; }
        blocks := Split(blocks, i, n);
        FlagKeeps(blocks, i, true, next, prev, used, total + 2 * HDR);
        used := used[mem := true];
        usedMem := usedMem + n + HDR;
      } else {
        FlagKeeps(blocks, i, true, next, prev, used, total + 2 * HDR);
        used := used[mem := true];
        usedMem := usedMem + next[mem] - mem;
      }
      blocks := Flag(blocks, i, true);
      if maxMem < usedMem { maxMem := usedMem; }
    }

    /** `rt_malloc`; 0 is its RT_NULL. */
    method Alloc(size: nat) returns (p: int)
      requires Valid() && size + ALIGN <= WORD
      modifies this
      ensures Valid()
      ensures if size == 0 || AlignUp(size) > total then p == 0 && Unchanged() else Placed(p, AlignUp(size))
    {
      hide Blocks, Fits, Span, Carved, MergedBut;
      if size == 0 { return 0; }
      var n := AlignUp(size);
      if n > total { return 0; }
      if n < MIN_SIZE { n := MIN_SIZE; }
      var ptr, i := Search(n);
      if ptr >= total - n { return 0; }
      HeaderOf(blocks, i, next, prev, used, total + 2 * HDR);
      CarvedSums(blocks, i, n, total + 2 * HDR);
      CarvedMerged(blocks, i, n);
      CarvedLow(blocks, i, n);
      SameOff(blocks, i, Low(blocks, 0), total + 2 * HDR);
      Carve(ptr, n, i);
      if ptr == lfree { NextFree(i); }
      return ptr + HDR;
    }

    /** The loop of `rt_malloc` that moves `lfree` past used blocks. */
    method NextFree(ghost k: nat)
      requires Laid() && k < |blocks| && lfree == blocks[k].off
      modifies `lfree
      ensures lfree == blocks[Low(blocks, k)].off
    {
      ghost var i := k;
      EndHeader(blocks, i, next, prev, used, total + 2 * HDR);
      while used[lfree] && lfree != total + HDR
        invariant i < |blocks| && lfree == blocks[i].off && lfree in used && lfree in next
        invariant lfree == total + HDR <==> i == |blocks| - 1
        invariant Low(blocks, i) == Low(blocks, k) && used[lfree] == blocks[i].used
        decreases |blocks| - i
      {
        EndHeader(blocks, i + 1, next, prev, used, total + 2 * HDR);
        HeaderOf(blocks, i, next, prev, used, total + 2 * HDR);
        lfree := next[lfree];
        i := i + 1;
      }
    }

    /** `plug_holes` on the free block `mem`. */
    method PlugHoles(mem: int, ghost i: nat)
      requires Laid() && i < |blocks| - 1 && blocks[i].off == mem && !blocks[i].used && blocks[|blocks| - 1].used
      modifies `next, `prev, `lfree, `blocks
      ensures Laid() && blocks == Plugged(old(blocks), i) && lfree == PluggedPtr(old(blocks), i, old(lfree))
    {
      hide Blocks, Fits, Join;
      ghost var pool := total + 2 * HDR;
      HeaderOf(blocks, i, next, prev, used, pool);
      var nmem := next[mem];
      if mem != nmem && !used[nmem] && nmem != total + HDR {
        if lfree == nmem { lfree := mem; }
        JoinKeeps(blocks, i, next, prev, used, pool);
        JoinIs(blocks, i);
        next := next[mem := next[nmem]];
        prev := prev[next[mem] := mem];
        blocks := Join(blocks, i);
        HeaderOf(blocks, i, next, prev, used, pool);
      }
      var pmem := prev[mem];
      if i > 0 { HeaderOf(blocks, i - 1, next, prev, used, pool); }
      if pmem != mem && !used[pmem] {
        if lfree == mem { lfree := pmem; }
        JoinKeeps(blocks, i - 1, next, prev, used, pool);
        next := next[pmem := next[mem]];
        prev := prev[next[mem] := pmem];
        blocks := Join(blocks, i - 1);
      }
    }

    /** `rt_free` of RT_NULL or of a live payload, whose block is i. */
    method Free(p: int, ghost i: nat)
      requires Valid() && (p != 0 ==> i < |blocks| - 1 && blocks[i].used && p == blocks[i].off + HDR)
      modifies this
      ensures Valid() && maxMem == old(maxMem)
      ensures if p == 0 then Unchanged() else blocks == Freed(old(blocks), i)
    {
      hide Blocks, Fits, Span, MergedBut, Plugged;
      if p == 0 { return; }
      ghost var pool := total + 2 * HDR;
      var mem := p - HDR;
      HeaderOf(blocks, i, next, prev, used, pool);
      FlagKeeps(blocks, i, false, next, prev, used, pool);
      FreedSums(blocks, i, pool);
      EndUsed(blocks, pool);
      FreedMerged(blocks, i);
      FlagLow(blocks, i, pool);
      used := used[mem := false];
      if mem < lfree { lfree := mem; }
      usedMem := usedMem - (next[mem] - mem);
      blocks := Flag(blocks, i, false);
      PluggedLow(blocks, i);
      LowApart(blocks, i, pool);
      PlugHoles(mem, i);
    }

    /** `rt_realloc`: `i` is the block of a live p. */
    method Realloc(p: int, newsize: nat, ghost i: nat) returns (q: int)
      requires Valid() && newsize + ALIGN <= WORD
      requires 0 < p < total + HDR ==> i < |blocks| - 1 && blocks[i].used && p == blocks[i].off + HDR
      modifies this
      ensures Valid()
      ensures AlignUp(newsize) > total || (newsize == 0 && !(0 < p < total + HDR)) ==> q == 0 && Unchanged()
      ensures newsize == 0 && 0 < p < total + HDR ==>
                q == 0 && blocks == Freed(old(blocks), i) && maxMem == old(maxMem)
      ensures 0 < AlignUp(newsize) <= total && (p < 0 || p >= total + HDR) ==> q == p && Unchanged()
      ensures 0 < AlignUp(newsize) <= total && p == 0 ==> Placed(q, AlignUp(newsize))
      ensures 0 < AlignUp(newsize) <= total && 0 < p < total + HDR ==> Resized(p, q, AlignUp(newsize), i)
      ensures newsize > 0 && 0 < p < total + HDR && q != 0 ==>
                exists m :: m >= AlignUp(newsize) && (q, m) in Live(blocks, HDR) &&
                  Live(blocks, HDR) == old(Live(blocks, HDR)) - {(p, old(blocks)[i].size)} + {(q, m)}
      ensures newsize > 0 && p == 0 && q != 0 ==>
                exists m :: m >= AlignUp(newsize) && Live(blocks, HDR) == old(Live(blocks, HDR)) + {(q, m)}
    {
      hide Blocks, Fits, Span, MergedBut, Live, Carved, Freed, Shrunk;
      var n := AlignUp(newsize);
      if n > total { return 0; }
      if n == 0 {
        if 0 < p < total + HDR { Free(p, i); }
        return 0;
      }
      if p == 0 {
        q := Alloc(n);
        if q != 0 { AllocLive(old(blocks), n, total); }
        return;
      }
      if p < 0 || p >= total + HDR { return p; }
      q := ReallocLive(p, n, i);
    }

    twostate predicate Unchanged()
      reads this
    {
      blocks == old(blocks) && maxMem == old(maxMem) && usedMem == old(usedMem)
    }

    /** The first suitable block is given out, if there is one. */
    twostate predicate Placed(q: int, n: nat)
      requires |old(blocks)| > 0
      reads this
    {
      var j := First(old(blocks), 0, Least(n), total);
      if j == |old(blocks)| - 1 then q == 0 && Unchanged()
      else && q == old(blocks)[j].off + HDR > 0 && blocks == Carved(old(blocks), j, Least(n))
           && j < |blocks| && usedMem == old(usedMem) + HDR + blocks[j].size && maxMem == Larger(old(maxMem), usedMem)
    }

    /** Block i for n bytes: as it is, cut in place, or moved; a move is refused where an allocation is. */
    twostate predicate Resized(p: int, q: int, n: nat, i: nat)
      requires i + 1 < |old(blocks)|
      reads this
    {
      var bs, j := old(blocks), First(old(blocks), 0, Least(n), total);
      if bs[i].size == n then q == p && Unchanged()
      else if n + HDR + MIN_SIZE < bs[i].size then q == p && blocks == Shrunk(bs, i, n) && maxMem == old(maxMem)
      else if j == |bs| - 1 then q == 0 && Unchanged()
      else
        var c, k := Carved(bs, j, Least(n)), Behind(bs, j, i, Least(n));
        && q == bs[j].off + HDR > 0 && k + 1 < |c| && c[k] == bs[i] && j < |c| && blocks == Freed(c, k)
        && maxMem == Larger(old(maxMem), old(usedMem) + HDR + c[j].size)
    }

    /** The part of `rt_realloc` for a live payload and a size in range. */
    method ReallocLive(p: int, n: nat, ghost i: nat) returns (q: int)
      requires Valid() && 0 < n <= total && AlignUp(n) == n && n + ALIGN <= WORD
      requires i < |blocks| - 1 && blocks[i].used && p == blocks[i].off + HDR
      modifies this
      ensures Valid() && Resized(p, q, n, i) && (q == 0 ==> Unchanged())
      ensures q != 0 ==>
                exists m :: m >= n && (q, m) in Live(blocks, HDR) &&
                  Live(blocks, HDR) == old(Live(blocks, HDR)) - {(p, old(blocks)[i].size)} + {(q, m)}
    {
      hide Blocks, Fits, Span, MergedBut, Live, Carved, Freed, Shrunk;
      ghost var pool := total + 2 * HDR;
      HeaderOf(blocks, i, next, prev, used, pool);
      LiveBlock(blocks, i, pool);
      var mem := p - HDR;
      var size := next[mem] - mem - HDR;
      if size == n {
        KeptLive(blocks, (p, size));
        return p;
      }
      if n + HDR + MIN_SIZE < size {
        Shrink(mem, n, i);
        return p;
      }
      ghost var bs := blocks;
      q := Alloc(n);
      if q != 0 {
        ghost var k := Behind(bs, First(bs, 0, Least(n), total), i, Least(n));
        AllocLive(bs, n, total);
        CarvedIndex(bs, First(bs, 0, Least(n), total), i, Least(n));
        FreedSums(blocks, k, pool);
        Free(p, k);
      }
    }

    /** The splitting branch of `rt_realloc`. */
    method Shrink(mem: int, n: nat, ghost i: nat)
      requires Valid() && i < |blocks| - 1 && blocks[i].used && mem == blocks[i].off
      requires ALIGN <= n && n + HDR + MIN_SIZE < blocks[i].size
      modifies this
      ensures Valid() && blocks == Shrunk(old(blocks), i, n) && maxMem == old(maxMem)
      ensures (mem + HDR, n) in Live(blocks, HDR)
      ensures Live(blocks, HDR) == old(Live(blocks, HDR)) - {(mem + HDR, old(blocks)[i].size)} + {(mem + HDR, n)}
    {
      hide Blocks, Fits, Span, MergedBut, Live, Plugged, Split;
      ghost var pool := total + 2 * HDR;
      HeaderOf(blocks, i, next, prev, used, pool);
      SplitKeeps(blocks, i, n, next, prev, used, pool);
      SplitIs(blocks, i, n);
      ShrunkSums(blocks, i, n, pool);
      EndUsed(blocks, pool);
      ShrunkMerged(blocks, i, n);
      SplitLow(blocks, i, n, pool);
      usedMem := usedMem - (next[mem] - mem - HDR - n);
      var ptr2 := mem + HDR + n;
      used := used[ptr2 := false];
      next := next[ptr2 := next[mem]];
      prev := prev[ptr2 := mem];
      next := next[mem := ptr2];
      if next[ptr2] != total + HDR { prev := prev[next[ptr2] := ptr2]; }
      if ptr2 < lfree { lfree := ptr2; }
      blocks := Split(blocks, i, n);
      EndUsed(blocks, pool);
      PluggedLow(blocks, i + 1);
      LowApart(blocks, i + 1, pool);
      PlugHoles(ptr2, i + 1);
    }
  }

  /** What the header at block i says. */
  lemma HeaderOf(bs: seq<Block>, i: nat, next: map<int, int>, prev: map<int, int>, used: map<int, bool>, pool: nat)
    requires Blocks(bs, pool) && Fits(bs, next, prev, used) && i + 1 < |bs|
    ensures bs[i].off in next && next[bs[i].off] == bs[i + 1].off == bs[i].off + HDR + bs[i].size
    ensures bs[i].off in prev && bs[i].off in used && used[bs[i].off] == bs[i].used
    ensures bs[i + 1].off == pool - HDR <==> i + 2 == |bs|
    ensures bs[i + 1].off in used && used[bs[i + 1].off] == bs[i + 1].used
    ensures prev[bs[i].off] == (if i > 0 then bs[i - 1].off else bs[i].off) && bs[i + 1].off > bs[i].off >= 0
    ensures i > 0 ==> bs[i - 1].off < bs[i].off
  {
    assert FitsAt(bs, i, next, prev, used) && FitsAt(bs, i + 1, next, prev, used) && Abut(bs, i, HDR, ALIGN);
    InPool(bs, i, pool, HDR, ALIGN);
    if i + 2 < |bs| { Ordered(bs, i + 1, |bs| - 1, pool, HDR, ALIGN); assert Abut(bs, i + 1, HDR, ALIGN); }
    if i > 0 { assert Abut(bs, i - 1, HDR, ALIGN); }
  }

  /** From an offset past the bound on, nothing suits. */
  lemma BeyondLimit(bs: seq<Block>, i: nat, n: nat, total: nat)
    requires Blocks(bs, total + 2 * HDR) && i < |bs| && bs[i].off >= total - n
    ensures First(bs, i, n, total) == |bs| - 1
  {
    var f := First(bs, i, n, total);
    if i < f { Ordered(bs, i, f, total + 2 * HDR, HDR, ALIGN); }
    if i < |bs| - 1 { assert Abut(bs, i, HDR, ALIGN); }
  }

  lemma EndHeader(bs: seq<Block>, i: nat, next: map<int, int>, prev: map<int, int>, used: map<int, bool>, pool: nat)
    requires Blocks(bs, pool) && Fits(bs, next, prev, used) && i < |bs|
    ensures bs[i].off in next && bs[i].off in used && used[bs[i].off] == bs[i].used
    ensures bs[i].off == pool - HDR <==> i == |bs| - 1
    ensures bs[|bs| - 1].used
  {
    assert FitsAt(bs, i, next, prev, used);
    OffsDistinct(bs, pool, HDR, ALIGN);
  }

  lemma EndUsed(bs: seq<Block>, pool: nat)
    requires Blocks(bs, pool)
    ensures bs[|bs| - 1].used
  {
  }

  lemma SameOff(bs: seq<Block>, i: nat, j: nat, pool: nat)
    requires Blocks(bs, pool) && i < |bs| && j < |bs|
    ensures bs[i].off == bs[j].off <==> i == j
  {
    OffsDistinct(bs, pool, HDR, ALIGN);
  }

  /** The lowest free block is neither a swallowed right neighbour nor block i beside a free left one. */
  lemma LowApart(bs: seq<Block>, i: nat, pool: nat)
    requires Blocks(bs, pool) && i + 1 < |bs| && !bs[i].used
    ensures bs[Low(bs, 0)].off != bs[i + 1].off
    ensures i > 0 && !bs[i - 1].used ==> bs[Low(bs, 0)].off != bs[i].off
  {
    OffsDistinct(bs, pool, HDR, ALIGN);
  }

  lemma CarvedSums(bs: seq<Block>, i: nat, n: nat, pool: nat)
    requires Blocks(bs, pool) && i + 1 < |bs| && !bs[i].used && ALIGN <= n <= bs[i].size
    ensures var c := Carved(bs, i, n);
            && i < |c| && c[i].off == bs[i].off && c[i].used && c[i].size >= n
            && Sums(bs, c, HDR + c[i].size, {}, {(bs[i].off + HDR, c[i].size)})
            && (forall k: nat | k < i :: c[k] == bs[k])
  {
    hide Span, Live, Split;
    SplitIs(bs, i, n);
    SplitSums(bs, i, n, pool);
    SplitTiled(bs, i, n, pool);
    FlagSums(bs, i, true, pool);
    if bs[i].size >= n + HDR + MIN_SIZE { FlagSums(Split(bs, i, n), i, true, pool); }
  }

  lemma SplitTiled(bs: seq<Block>, i: nat, n: nat, pool: nat)
    requires Blocks(bs, pool) && i + 1 < |bs| && ALIGN <= n
    ensures n + HDR + ALIGN <= bs[i].size ==> Blocks(Split(bs, i, n), pool)
  {
    if n + HDR + ALIGN <= bs[i].size {
      assert Abut(bs, i, HDR, ALIGN);
      SpliceTiled(bs, i, 1, [bs[i].(size := n), Block(bs[i].off + HDR + n, bs[i].size - HDR - n, false)], pool, HDR,
          ALIGN);
    }
  }

  /** Giving out block i leaves the lowest free block alone, or makes it the next one after i. */
  lemma CarvedLow(bs: seq<Block>, i: nat, n: nat)
    requires i + 1 < |bs| && !bs[i].used
    ensures var c := Carved(bs, i, n);
            if Low(bs, 0) == i then Low(c, 0) == Low(c, i) else Low(c, 0) == Low(bs, 0) < i
  {
    hide Split;
    SplitIs(bs, i, n);
    var c, l := Carved(bs, i, n), Low(bs, 0);
    if l < i {
      LowIs(c, 0, l);
    } else {
      LowIs(c, 0, Low(c, i));
    }
  }

  lemma FreedSums(bs: seq<Block>, i: nat, pool: nat)
    requires Blocks(bs, pool) && i + 1 < |bs| && bs[i].used
    ensures Blocks(Flag(bs, i, false), pool) && Blocks(Freed(bs, i), pool)
    ensures Sums(bs, Freed(bs, i), -(HDR as int) - bs[i].size, {(bs[i].off + HDR, bs[i].size)}, {})
  {
    hide Span, Live, Plugged;
    var r := Flag(bs, i, false);
    forall k | 0 <= k < |r| - 1 ensures Abut(r, k, HDR, ALIGN) { assert Abut(bs, k, HDR, ALIGN); }
    FlagSums(bs, i, false, pool);
    PluggedKeeps(r, i, pool);
    assert bs[i].size > 0 by { assert Abut(bs, i, HDR, ALIGN); }
  }

  /** After block i is marked free, the lowest free block is the lower of the two. */
  lemma FlagLow(bs: seq<Block>, i: nat, pool: nat)
    requires Blocks(bs, pool) && i + 1 < |bs| && bs[i].used
    ensures var r := Flag(bs, i, false);
            r[Low(r, 0)].off == if bs[i].off < bs[Low(bs, 0)].off then bs[i].off else bs[Low(bs, 0)].off
  {
    var r, l := Flag(bs, i, false), Low(bs, 0);
    if i < l {
      Ordered(bs, i, l, pool, HDR, ALIGN);
      assert Abut(bs, i, HDR, ALIGN);
      LowIs(r, 0, i);
    } else {
      if l < i {
        Ordered(bs, l, i, pool, HDR, ALIGN);
        assert Abut(bs, l, HDR, ALIGN);
      }
      LowIs(r, 0, l);
    }
  }

  lemma ShrunkSums(bs: seq<Block>, i: nat, n: nat, pool: nat)
    requires Blocks(bs, pool) && i + 1 < |bs| && bs[i].used && ALIGN <= n && n + HDR + ALIGN <= bs[i].size
    ensures Blocks(Split(bs, i, n), pool) && Blocks(Shrunk(bs, i, n), pool)
    ensures Sums(bs, Shrunk(bs, i, n), n - bs[i].size, {(bs[i].off + HDR, bs[i].size)}, {(bs[i].off + HDR, n)})
  {
    hide Span, Live, Split, Plugged;
    SplitIs(bs, i, n);
    SplitTiled(bs, i, n, pool);
    SplitSums(bs, i, n, pool);
    PluggedKeeps(Split(bs, i, n), i + 1, pool);
  }

  lemma SplitLow(bs: seq<Block>, i: nat, n: nat, pool: nat)
    requires Blocks(bs, pool) && i + 1 < |bs| && bs[i].used && n + HDR <= bs[i].size
    ensures var r, b := Split(bs, i, n), bs[i].off + HDR + n;
            Low(r, 0) < |r| && r[Low(r, 0)].off == if b < bs[Low(bs, 0)].off then b else bs[Low(bs, 0)].off
  {
    hide Split;
    SplitIs(bs, i, n);
    var r, l := Split(bs, i, n), Low(bs, 0);
    if l < i {
      Ordered(bs, l, i, pool, HDR, ALIGN);
      assert Abut(bs, l, HDR, ALIGN);
      LowIs(r, 0, l);
    } else {
      Ordered(bs, i, l, pool, HDR, ALIGN);
      LowIs(r, 0, i + 1);
    }
  }

  /** An allocation adds one payload, at least as large as asked for and where none was. */
  lemma AllocLive(bs: seq<Block>, size: nat, total: nat)
    requires Blocks(bs, total + 2 * HDR) && 0 < size && AlignUp(size) <= total && total >= MIN_SIZE
    ensures var n := if AlignUp(size) < MIN_SIZE then MIN_SIZE else AlignUp(size);
            var i := First(bs, 0, n, total);
            i < |bs| - 1 ==>
              var m := Carved(bs, i, n)[i].size;
              && m >= n
              && Live(Carved(bs, i, n), HDR) == Live(bs, HDR) + {(bs[i].off + HDR, m)}
              && forall x | x in Live(bs, HDR) :: x.0 != bs[i].off + HDR
  {
    hide Live, Span;
    var n := if AlignUp(size) < MIN_SIZE then MIN_SIZE else AlignUp(size);
    var i := First(bs, 0, n, total);
    if i < |bs| - 1 {
      CarvedSums(bs, i, n, total + 2 * HDR);
      forall x | x in Live(bs, HDR) ensures x.0 != bs[i].off + HDR {
        var k := FindBlock(bs, x, total + 2 * HDR);
        SameOff(bs, i, k, total + 2 * HDR);
      }
    }
  }

  lemma CarvedIndex(bs: seq<Block>, j: nat, i: nat, n: nat)
    requires i < |bs| - 1 && j < |bs| - 1 && bs[i].used && !bs[j].used
    ensures var c, k := Carved(bs, j, n), Behind(bs, j, i, n);
            k < |c| - 1 && c[k] == bs[i] && j < |c| && c[j].off == bs[j].off && c[j].used
  {
    SplitIs(bs, j, n);
  }

  lemma LiveBlock(bs: seq<Block>, i: nat, pool: nat)
    requires Blocks(bs, pool) && i + 1 < |bs| && bs[i].used
    ensures (bs[i].off + HDR, bs[i].size) in Live(bs, HDR)
  {
    assert Abut(bs, i, HDR, ALIGN);
    LiveIn(bs, i, HDR, |bs|);
  }

  lemma KeptLive(bs: seq<Block>, x: (int, int))
    requires x in Live(bs, HDR)
    ensures Live(bs, HDR) == Live(bs, HDR) - {x} + {x}
  {
  }

  lemma FindBlock(bs: seq<Block>, x: (int, int), pool: nat) returns (k: nat)
    requires Blocks(bs, pool) && x in Live(bs, HDR)
    ensures k < |bs| - 1 && bs[k].used && x == (bs[k].off + HDR, bs[k].size)
  {
    k := LiveFrom(bs, x, HDR, |bs|);
  }

  /** With every payload freed, in whatever order, the heap is one free block again. */
  lemma AllFreed(bs: seq<Block>, total: nat)
    requires Blocks(bs, total + 2 * HDR) && Merged(bs) && Live(bs, HDR) == {}
    ensures bs == [Block(0, total, false), Block(total + HDR, 0, true)] && Span(bs) == HDR
  {
    NothingLive(bs, total + 2 * HDR, HDR, ALIGN);
    SpanOneTwo(bs[0], bs[1]);
  }
}
