/** Memory pools seen as a sequence of blocks, each a header followed by its payload. */
module Tiling {
  import opened Lists

  datatype Block = Block(off: int, size: int, used: bool) {
    function Payload(hdr: nat): int { off + hdr }
    function End(hdr: nat): int { off + hdr + size }
    function FreeSize(): int { if used then 0 else size }
    function FreeOff(): set<int> { if used then {} else {off} }
    function LiveOf(hdr: nat): set<(int, int)> { if used && size > 0 then {(off + hdr, size)} else {} }
  }

  /** Block i ends where block i + 1 starts. */
  ghost predicate Abut(bs: seq<Block>, i: nat, hdr: nat, min: nat)
    requires i + 1 < |bs|
  {
    && bs[i + 1].off == bs[i].End(hdr)
    && bs[i].size >= min
  }

  /** The blocks cover [0, pool) exactly; the last one is a used header without payload. */
  ghost predicate Tiled(bs: seq<Block>, pool: nat, hdr: nat, min: nat) {
    && |bs| >= 2
    && bs[0].off == 0
    && bs[|bs| - 1] == Block(pool - hdr, 0, true)
    && forall i | 0 <= i < |bs| - 1 :: Abut(bs, i, hdr, min)
  }

  /** No two neighbouring blocks are both free, except possibly the pair starting at `gap`. */
  ghost predicate MergedBut(bs: seq<Block>, gap: int) {
    forall i, j | 0 <= i && j == i + 1 < |bs| && i != gap :: bs[i].used || bs[j].used
  }

  ghost predicate Merged(bs: seq<Block>) { MergedBut(bs, -1) }

  function Offs(bs: seq<Block>): (s: seq<int>)
    ensures |s| == |bs|
    ensures forall i | 0 <= i < |bs| :: s[i] == bs[i].off
  {
    seq(|bs|, i requires 0 <= i < |bs| => bs[i].off)
  }

  /** The bytes in free payloads. */
  function FreeBytes(bs: seq<Block>): (n: int) { FreeBytesTo(bs, |bs|) }

  function FreeOffs(bs: seq<Block>): (s: set<int>) { FreeOffsTo(bs, |bs|) }

  /** The live allocations, as pairs of payload address and payload size. */
  function Live(bs: seq<Block>, hdr: nat): (s: set<(int, int)>) { LiveTo(bs, hdr, |bs|) }

  function FreeBytesTo(bs: seq<Block>, k: nat): (n: int)
    requires k <= |bs|
  {
    if k == 0 then 0 else FreeBytesTo(bs, k - 1) + bs[k - 1].FreeSize()
  }

  function FreeOffsTo(bs: seq<Block>, k: nat): (s: set<int>)
    requires k <= |bs|
  {
    if k == 0 then {} else FreeOffsTo(bs, k - 1) + bs[k - 1].FreeOff()
  }

  function LiveTo(bs: seq<Block>, hdr: nat, k: nat): (s: set<(int, int)>)
    requires k <= |bs|
  {
    if k == 0 then {} else LiveTo(bs, hdr, k - 1) + bs[k - 1].LiveOf(hdr)
  }

  /** `bs` with its blocks i .. i + n replaced by `mid`. */
  function Splice(bs: seq<Block>, i: nat, n: nat, mid: seq<Block>): (r: seq<Block>)
    requires i + n <= |bs|
  {
    bs[..i] + mid + bs[i + n..]
  }

  lemma {:induction false} SumsPrefix(a: seq<Block>, b: seq<Block>, hdr: nat, k: nat)
    requires k <= |a|
    ensures FreeBytesTo(a + b, k) == FreeBytesTo(a, k)
    ensures FreeOffsTo(a + b, k) == FreeOffsTo(a, k)
    ensures LiveTo(a + b, hdr, k) == LiveTo(a, hdr, k)
  {
    if k > 0 { SumsPrefix(a, b, hdr, k - 1); }
  }

  lemma {:induction false} SumsConcatTo(a: seq<Block>, b: seq<Block>, hdr: nat, k: nat)
    requires k <= |b|
    ensures FreeBytesTo(a + b, |a| + k) == FreeBytes(a) + FreeBytesTo(b, k)
    ensures FreeOffsTo(a + b, |a| + k) == FreeOffs(a) + FreeOffsTo(b, k)
    ensures LiveTo(a + b, hdr, |a| + k) == Live(a, hdr) + LiveTo(b, hdr, k)
  {
    if k == 0 {
      SumsPrefix(a, b, hdr, |a|);
    } else {
      SumsConcatTo(a, b, hdr, k - 1);
      assert (a + b)[|a| + k - 1] == b[k - 1];
    }
  }

  lemma SumsConcat(a: seq<Block>, b: seq<Block>, hdr: nat)
    ensures FreeBytes(a + b) == FreeBytes(a) + FreeBytes(b)
    ensures FreeOffs(a + b) == FreeOffs(a) + FreeOffs(b)
    ensures Live(a + b, hdr) == Live(a, hdr) + Live(b, hdr)
  {
    SumsConcatTo(a, b, hdr, |b|);
  }

  lemma {:induction false} FreeOffsIn(bs: seq<Block>, i: nat, k: nat)
    requires i < k <= |bs| && !bs[i].used
    ensures bs[i].off in FreeOffsTo(bs, k)
  {
    if i < k - 1 { FreeOffsIn(bs, i, k - 1); }
  }

  lemma {:induction false} FreeOffsFrom(bs: seq<Block>, a: int, k: nat) returns (i: nat)
    requires k <= |bs| && a in FreeOffsTo(bs, k)
    ensures i < k && !bs[i].used && bs[i].off == a
  {
    if a in bs[k - 1].FreeOff() { i := k - 1; } else { i := FreeOffsFrom(bs, a, k - 1); }
  }

  lemma {:induction false} LiveIn(bs: seq<Block>, i: nat, hdr: nat, k: nat)
    requires i < k <= |bs| && bs[i].used && bs[i].size > 0
    ensures (bs[i].Payload(hdr), bs[i].size) in LiveTo(bs, hdr, k)
  {
    if i < k - 1 { LiveIn(bs, i, hdr, k - 1); }
  }

  lemma {:induction false} LiveFrom(bs: seq<Block>, p: (int, int), hdr: nat, k: nat) returns (i: nat)
    requires k <= |bs| && p in LiveTo(bs, hdr, k)
    ensures i < k && bs[i].used && p.1 == bs[i].size > 0 && p.0 == bs[i].Payload(hdr)
  {
    if p in bs[k - 1].LiveOf(hdr) { i := k - 1; } else { i := LiveFrom(bs, p, hdr, k - 1); }
  }

  /** Replacing a run of blocks by another run over the same bytes keeps the tiling. */
  lemma SpliceTiled(bs: seq<Block>, i: nat, n: nat, mid: seq<Block>, pool: nat, hdr: nat, min: nat)
    requires Tiled(bs, pool, hdr, min)
    requires n > 0 && i + n < |bs| && |mid| > 0
    requires mid[0].off == bs[i].off && mid[|mid| - 1].End(hdr) == bs[i + n].off
    requires forall k | 0 <= k < |mid| - 1 :: Abut(mid, k, hdr, min)
    requires mid[|mid| - 1].size >= min
    ensures Tiled(Splice(bs, i, n, mid), pool, hdr, min)
  {
    var r := Splice(bs, i, n, mid);
    var d := |mid| - n;
    assert forall k | 0 <= k < |r| :: r[k] == if k < i then bs[k] else if k < i + |mid| then mid[k - i] else bs[k - d];
    forall k | 0 <= k < |r| - 1
      ensures Abut(r, k, hdr, min)
    {
      if k < i {
        assert Abut(bs, k, hdr, min);
      } else if i <= k < i + |mid| - 1 {
        assert Abut(mid, k - i, hdr, min);
      } else if k >= i + |mid| {
        assert Abut(bs, k - d, hdr, min);
      }
    }
  }

  lemma SpliceParts(bs: seq<Block>, i: nat, n: nat, mid: seq<Block>, hdr: nat)
    requires i + n <= |bs|
    ensures var (a, b, c) := (bs[..i], bs[i..i + n], bs[i + n..]);
            && FreeBytes(bs) == FreeBytes(a) + FreeBytes(b) + FreeBytes(c)
            && FreeBytes(Splice(bs, i, n, mid)) == FreeBytes(a) + FreeBytes(mid) + FreeBytes(c)
            && FreeOffs(bs) == FreeOffs(a) + FreeOffs(b) + FreeOffs(c)
            && FreeOffs(Splice(bs, i, n, mid)) == FreeOffs(a) + FreeOffs(mid) + FreeOffs(c)
            && Live(bs, hdr) == Live(a, hdr) + Live(b, hdr) + Live(c, hdr)
            && Live(Splice(bs, i, n, mid), hdr) == Live(a, hdr) + Live(mid, hdr) + Live(c, hdr)
  {
    assert bs == bs[..i] + bs[i..i + n] + bs[i + n..];
    SumsConcat(bs[..i] + bs[i..i + n], bs[i + n..], hdr);
    SumsConcat(bs[..i], bs[i..i + n], hdr);
    SumsConcat(bs[..i] + mid, bs[i + n..], hdr);
    SumsConcat(bs[..i], mid, hdr);
  }

  lemma {:induction false} Ordered(bs: seq<Block>, i: nat, j: nat, pool: nat, hdr: nat, min: nat)
    requires Tiled(bs, pool, hdr, min) && i < j < |bs|
    ensures bs[i].End(hdr) <= bs[j].off
    decreases j
  {
    assert Abut(bs, j - 1, hdr, min);
    if i < j - 1 {
      Ordered(bs, i, j - 1, pool, hdr, min);
    }
  }

  lemma InPool(bs: seq<Block>, i: nat, pool: nat, hdr: nat, min: nat)
    requires Tiled(bs, pool, hdr, min) && i < |bs|
    ensures 0 <= bs[i].off && bs[i].End(hdr) <= pool
    ensures i < |bs| - 1 ==> bs[i].End(hdr) <= pool - hdr && bs[i].size >= min
  {
    if i > 0 {
      assert Abut(bs, 0, hdr, min);
      Ordered(bs, 0, i, pool, hdr, min);
    }
    if i < |bs| - 1 {
      assert Abut(bs, i, hdr, min);
      Ordered(bs, i, |bs| - 1, pool, hdr, min);
    }
  }

  lemma OffsDistinct(bs: seq<Block>, pool: nat, hdr: nat, min: nat)
    requires Tiled(bs, pool, hdr, min) && hdr > 0
    ensures forall i, j | 0 <= i < |bs| && 0 <= j < |bs| && bs[i].off == bs[j].off :: i == j
    ensures Distinct(Offs(bs))
  {
    forall i, j | 0 <= i < j < |bs|
      ensures bs[i].off != bs[j].off
    {
      Ordered(bs, i, j, pool, hdr, min);
      assert Abut(bs, i, hdr, min);
    }
  }

  /** No header of a tiling overlaps a live payload. */
  lemma HeadersAvoidPayloads(bs: seq<Block>, i: nat, a: int, p: (int, int), pool: nat, hdr: nat, min: nat)
    requires Tiled(bs, pool, hdr, min) && i < |bs| && bs[i].off == a && p in Live(bs, hdr)
    ensures a + hdr <= p.0 || p.0 + p.1 <= a
  {
    var j := LiveFrom(bs, p, hdr, |bs|);
    if i < j {
      Ordered(bs, i, j, pool, hdr, min);
      assert Abut(bs, i, hdr, min);
    } else if j < i {
      Ordered(bs, j, i, pool, hdr, min);
    }
  }

  /** Distinct live payloads never overlap, and all lie inside the pool. */
  lemma PayloadsDisjoint(bs: seq<Block>, p: (int, int), q: (int, int), pool: nat, hdr: nat, min: nat)
    requires Tiled(bs, pool, hdr, min) && p in Live(bs, hdr) && q in Live(bs, hdr)
    ensures p == q || p.0 + p.1 + hdr <= q.0 || q.0 + q.1 + hdr <= p.0
    ensures hdr <= p.0 && p.0 + p.1 <= pool - hdr
  {
    var i := LiveFrom(bs, p, hdr, |bs|);
    var j := LiveFrom(bs, q, hdr, |bs|);
    InPool(bs, i, pool, hdr, min);
    if i < j {
      Ordered(bs, i, j, pool, hdr, min);
    } else if j < i {
      Ordered(bs, j, i, pool, hdr, min);
    }
  }

  /** What a splice does to the free bytes, the free offsets and the live allocations. */
  lemma SpliceSums(bs: seq<Block>, i: nat, n: nat, mid: seq<Block>, pool: nat, hdr: nat, min: nat)
    requires Tiled(bs, pool, hdr, min) && hdr > 0 && i + n <= |bs|
    ensures FreeBytes(Splice(bs, i, n, mid)) == FreeBytes(bs) - FreeBytes(bs[i..i + n]) + FreeBytes(mid)
    ensures FreeOffs(Splice(bs, i, n, mid)) == FreeOffs(bs) - FreeOffs(bs[i..i + n]) + FreeOffs(mid)
    ensures Live(Splice(bs, i, n, mid), hdr) == Live(bs, hdr) - Live(bs[i..i + n], hdr) + Live(mid, hdr)
  {
    SpliceParts(bs, i, n, mid, hdr);
    RunsApart(bs, 0, i, i + n, pool, hdr, min);
    RunsApart(bs, i, i + n, |bs|, pool, hdr, min);
    assert bs[0..i] == bs[..i] && bs[i + n..|bs|] == bs[i + n..];
    SetSwap(FreeOffs(bs[..i]), FreeOffs(bs[i..i + n]), FreeOffs(bs[i + n..]), FreeOffs(mid));
    SetSwap(Live(bs[..i], hdr), Live(bs[i..i + n], hdr), Live(bs[i + n..], hdr), Live(mid, hdr));
  }

  lemma SetSwap<T>(a: set<T>, b: set<T>, c: set<T>, m: set<T>)
    requires b !! a && b !! c
    ensures a + m + c == (a + b + c) - b + m
  {
  }

  lemma RunsApart(bs: seq<Block>, i: nat, j: nat, k: nat, pool: nat, hdr: nat, min: nat)
    requires Tiled(bs, pool, hdr, min) && hdr > 0 && i <= j <= k <= |bs|
    ensures Live(bs[i..j], hdr) !! Live(bs[j..k], hdr)
    ensures FreeOffs(bs[i..j]) !! FreeOffs(bs[j..k])
  {
    forall a | a in FreeOffs(bs[i..j]) && a in FreeOffs(bs[j..k])
      ensures false
    {
      var x := FreeOffsFrom(bs[i..j], a, j - i);
      var y := FreeOffsFrom(bs[j..k], a, k - j);
      Ordered(bs, i + x, j + y, pool, hdr, min);
      InPool(bs, i + x, pool, hdr, min);
    }
    forall p | p in Live(bs[i..j], hdr) && p in Live(bs[j..k], hdr)
      ensures false
    {
      var x := LiveFrom(bs[i..j], p, hdr, j - i);
      var y := LiveFrom(bs[j..k], p, hdr, k - j);
      Ordered(bs, i + x, j + y, pool, hdr, min);
    }
  }

  lemma SumsOne(b: Block, hdr: nat)
    ensures FreeBytes([b]) == b.FreeSize() && FreeOffs([b]) == b.FreeOff() && Live([b], hdr) == b.LiveOf(hdr)
  {
    assert FreeBytesTo([b], 0) == 0 && FreeOffsTo([b], 0) == {} && LiveTo([b], hdr, 0) == {};
  }

  lemma SumsTwo(b: Block, c: Block, hdr: nat)
    ensures FreeBytes([b, c]) == b.FreeSize() + c.FreeSize()
    ensures FreeOffs([b, c]) == b.FreeOff() + c.FreeOff()
    ensures Live([b, c], hdr) == b.LiveOf(hdr) + c.LiveOf(hdr)
  {
    SumsConcat([b], [c], hdr);
    SumsOne(b, hdr);
    SumsOne(c, hdr);
    assert [b, c] == [b] + [c];
  }

  /** With nothing allocated a maximally merged tiling is one block and the tail. */
  lemma NothingLive(bs: seq<Block>, pool: nat, hdr: nat, min: nat)
    requires Tiled(bs, pool, hdr, min) && Merged(bs) && min > 0 && Live(bs, hdr) == {}
    ensures bs == [Block(0, pool - 2 * hdr, false), Block(pool - hdr, 0, true)]
  {
    forall i | 0 <= i < |bs| - 1
      ensures !bs[i].used
    {
      assert Abut(bs, i, hdr, min);
      if bs[i].used { LiveIn(bs, i, hdr, |bs|); }
    }
    assert Abut(bs, 0, hdr, min);
  }
}
