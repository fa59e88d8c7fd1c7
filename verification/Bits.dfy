/** Priority bits of the ready group (scheduler.c). */
module Bits {

  function Mask(p: nat): (m: bv32)
    requires p < 32
  {
    (1 as bv32) << p
  }

  function And(a: bv32, b: bv32): (r: bv32) { a & b }

  function Or(a: bv32, b: bv32): (r: bv32) { a | b }

  function AndNot(a: bv32, b: bv32): (r: bv32)
    ensures And(r, a) == r
  {
    a & !b
  }

  predicate Has(g: bv32, p: nat)
    requires p < 32
  {
    And(g, Mask(p)) != 0
  }

  /** `group |= mask`. */
  function SetBit(g: bv32, p: nat): (r: bv32)
    requires p < 32
  {
    Or(g, Mask(p))
  }

  /** `group &= ~mask`. */
  function ClearBit(g: bv32, p: nat): (r: bv32)
    requires p < 32
  {
    AndNot(g, Mask(p))
  }

  predicate OneHot(m: bv32) {
    m != 0 && m & (m - 1) == 0
  }

  lemma HotSet(g: bv32, m: bv32, n: bv32, with: bv32)
    requires OneHot(m) && OneHot(n) && with == g | m
    ensures with & n != 0 <==> m == n || g & n != 0
  {
  }

  lemma HotClear(g: bv32, m: bv32, n: bv32, without: bv32)
    requires OneHot(m) && OneHot(n) && without == g & !m
    ensures without & n != 0 <==> m != n && g & n != 0
  {
  }

  lemma SetAlone(g: bv32, m: bv32, n: bv32, with: bv32, both: bv32, was: bv32)
    requires OneHot(m) && OneHot(n) && with == Or(g, m) && both == And(with, n) && was == And(g, n)
    ensures both != 0 <==> m == n || was != 0
  {
    HotSet(g, m, n, with);
  }

  lemma ClearAlone(g: bv32, m: bv32, n: bv32, without: bv32, both: bv32, was: bv32)
    requires OneHot(m) && OneHot(n) && without == AndNot(g, m) && both == And(without, n) && was == And(g, n)
    ensures both != 0 <==> m != n && was != 0
  {
    HotClear(g, m, n, without);
  }

  lemma MaskOneHot(p: nat)
    requires p < 32
    ensures OneHot(Mask(p))
  {
  }

  lemma MaskInjective(p: nat, q: nat)
    requires p < 32 && q < 32
    ensures Mask(p) == Mask(q) <==> p == q
  {
  }

  /** Setting or clearing one priority bit changes that bit alone. */
  lemma BitAlone(g: bv32, p: nat)
    requires p < 32
    ensures forall q | 0 <= q < 32 :: Has(SetBit(g, p), q) <==> p == q || Has(g, q)
    ensures forall q | 0 <= q < 32 :: Has(ClearBit(g, p), q) <==> p != q && Has(g, q)
  {
    hide Mask, And, Or, AndNot, OneHot;
    MaskOneHot(p);
    forall q | 0 <= q < 32
      ensures Has(SetBit(g, p), q) <==> p == q || Has(g, q)
      ensures Has(ClearBit(g, p), q) <==> p != q && Has(g, q)
    {
      MaskInjective(p, q);
      MaskOneHot(q);
      var m, n := Mask(p), Mask(q);
      SetAlone(g, m, n, Or(g, m), And(Or(g, m), n), And(g, n));
      ClearAlone(g, m, n, AndNot(g, m), And(AndNot(g, m), n), And(g, n));
    }
  }

  lemma NoBits()
    ensures forall p | 0 <= p < 32 :: !Has(0, p)
  {
  }
}

/** The table-driven search for the first set bit (kservice.c). */
module FirstBit {
  import opened Bits

  /** The lowest set bit of every byte, row by row of sixteen. */
  const LOWEST_BIT: seq<seq<nat>> := [
    [0, 0, 1, 0, 2, 0, 1, 0, 3, 0, 1, 0, 2, 0, 1, 0],
    [4, 0, 1, 0, 2, 0, 1, 0, 3, 0, 1, 0, 2, 0, 1, 0],
    [5, 0, 1, 0, 2, 0, 1, 0, 3, 0, 1, 0, 2, 0, 1, 0],
    [4, 0, 1, 0, 2, 0, 1, 0, 3, 0, 1, 0, 2, 0, 1, 0],
    [6, 0, 1, 0, 2, 0, 1, 0, 3, 0, 1, 0, 2, 0, 1, 0],
    [4, 0, 1, 0, 2, 0, 1, 0, 3, 0, 1, 0, 2, 0, 1, 0],
    [5, 0, 1, 0, 2, 0, 1, 0, 3, 0, 1, 0, 2, 0, 1, 0],
    [4, 0, 1, 0, 2, 0, 1, 0, 3, 0, 1, 0, 2, 0, 1, 0],
    [7, 0, 1, 0, 2, 0, 1, 0, 3, 0, 1, 0, 2, 0, 1, 0],
    [4, 0, 1, 0, 2, 0, 1, 0, 3, 0, 1, 0, 2, 0, 1, 0],
    [5, 0, 1, 0, 2, 0, 1, 0, 3, 0, 1, 0, 2, 0, 1, 0],
    [4, 0, 1, 0, 2, 0, 1, 0, 3, 0, 1, 0, 2, 0, 1, 0],
    [6, 0, 1, 0, 2, 0, 1, 0, 3, 0, 1, 0, 2, 0, 1, 0],
    [4, 0, 1, 0, 2, 0, 1, 0, 3, 0, 1, 0, 2, 0, 1, 0],
    [5, 0, 1, 0, 2, 0, 1, 0, 3, 0, 1, 0, 2, 0, 1, 0],
    [4, 0, 1, 0, 2, 0, 1, 0, 3, 0, 1, 0, 2, 0, 1, 0]]

  function Lookup(b: bv32): (k: nat)
    requires b < 256
    ensures k < 8
  {
    TableRows(b >> 4, b & 15);
    LOWEST_BIT[(b >> 4) as nat][(b & 15) as nat]
  }

  /** Bit k is set and no bit below it is. */
  predicate LowestIs(b: bv32, k: nat) {
    k < 8 && b & Mask(k) != 0 && b & (Mask(k) - 1) == 0
  }

  ghost predicate RowRight(hi: bv32, lo: bv32) {
    && hi < 16 && lo < 16
    && |LOWEST_BIT| == 16 && |LOWEST_BIT[hi as nat]| == 16 && LOWEST_BIT[hi as nat][lo as nat] < 8
    && (hi != 0 || lo != 0 ==> LowestIs((hi << 4) | lo, LOWEST_BIT[hi as nat][lo as nat]))
  }

  lemma TableRows(hi: bv32, lo: bv32)
    requires hi < 16 && lo < 16
    ensures RowRight(hi, lo)
  {
    hide *;
    if hi < 8 { LowRows(hi, lo); } else { HighRows(hi, lo); }
  }

  lemma LowRows(hi: bv32, lo: bv32)
    requires hi < 8 && lo < 16
    ensures RowRight(hi, lo)
  {
  }

  lemma HighRows(hi: bv32, lo: bv32)
    requires 8 <= hi < 16 && lo < 16
    ensures RowRight(hi, lo)
  {
  }

  lemma LookupLowest(b: bv32)
    requires 0 < b < 256
    ensures Has(b, Lookup(b)) && forall j | 0 <= j < Lookup(b) :: !Has(b, j)
  {
    var k := Lookup(b);
    TableRows(b >> 4, b & 15);
    assert ((b >> 4) << 4) | (b & 15) == b;
    hide LOWEST_BIT, Lookup;
    forall j | 0 <= j < k ensures !Has(b, j) {
      MaskBelow(j, k);
      assert b & Mask(j) == b & (Mask(k) - 1) & Mask(j);
    }
  }

  lemma MaskBelow(j: nat, k: nat)
    requires j < k < 8
    ensures Mask(j) & (Mask(k) - 1) == Mask(j)
  {
  }

  lemma MaskShifts(j: nat, shift: bv32)
    requires (shift == 0 || shift == 8 || shift == 16 || shift == 24) && j < 8
    ensures Mask(shift as nat + j) == Mask(j) << shift && Mask(j) < 256
  {
    if j == 0 {} else if j == 1 {} else if j == 2 {} else if j == 3 {}
    else if j == 4 {} else if j == 5 {} else if j == 6 {} else {}
  }

  lemma ByteBits(v: bv32, shift: bv32, b: bv32, m: bv32, wide: bv32, low: bv32, high: bv32)
    requires (shift == 0 || shift == 8 || shift == 16 || shift == 24) && m < 256
    requires b == (v >> shift) & 0xff && wide == m << shift && low == And(b, m) && high == And(v, wide)
    ensures low != 0 <==> high != 0
  {
    if shift == 0 {} else if shift == 8 {} else if shift == 16 {} else {}
  }

  /** Bit j of a byte is bit shift + j of the word. */
  lemma ByteHas(v: bv32, shift: bv32, b: bv32, j: nat)
    requires (shift == 0 || shift == 8 || shift == 16 || shift == 24) && j < 8
    requires b == (v >> shift) & 0xff
    ensures Has(b, j) <==> Has(v, shift as nat + j)
  {
    hide Mask, And;
    MaskShifts(j, shift);
    var m, wide := Mask(j), Mask(shift as nat + j);
    ByteBits(v, shift, b, m, wide, And(b, m), And(v, wide));
  }

  lemma ByteClear(v: bv32, shift: bv32)
    requires (shift == 0 || shift == 8 || shift == 16 || shift == 24) && (v >> shift) & 0xff == 0
    ensures forall j | shift as nat <= j < shift as nat + 8 :: !Has(v, j)
  {
    forall j | shift as nat <= j < shift as nat + 8 ensures !Has(v, j) {
      ByteHas(v, shift, 0, j - shift as nat);
    }
  }

  lemma ByteFound(v: bv32, shift: bv32, b: bv32)
    requires (shift == 0 || shift == 8 || shift == 16 || shift == 24)
    requires b == (v >> shift) & 0xff && b != 0
    ensures var k := Lookup(b) + shift as nat;
            k < 32 && Has(v, k) && forall j | shift as nat <= j < k :: !Has(v, j)
  {
    hide Has, Lookup;
    LookupLowest(b);
    var k := Lookup(b) + shift as nat;
    ByteHas(v, shift, b, Lookup(b));
    forall j | shift as nat <= j < k ensures !Has(v, j) {
      ByteHas(v, shift, b, j - shift as nat);
    }
  }

  /** `__rt_ffs`: one more than the index of the lowest set bit, 0 for no bit. */
  function Ffs(v: bv32): (r: nat)
    ensures v == 0 <==> r == 0
  {
    if v == 0 then 0
    else if v & 0xff != 0 then Lookup(v & 0xff) + 1
    else if v & 0xff00 != 0 then Lookup((v & 0xff00) >> 8) + 9
    else if v & 0xff0000 != 0 then Lookup((v & 0xff0000) >> 16) + 17
    else Lookup((v & 0xff000000) >> 24) + 25
  }

  lemma Bytes(v: bv32)
    ensures v & 0xff == (v >> 0) & 0xff
    ensures (v & 0xff00) >> 8 == (v >> 8) & 0xff && (v & 0xff00 == 0 <==> (v >> 8) & 0xff == 0)
    ensures (v & 0xff0000) >> 16 == (v >> 16) & 0xff && (v & 0xff0000 == 0 <==> (v >> 16) & 0xff == 0)
    ensures (v & 0xff000000) >> 24 == (v >> 24) & 0xff
    ensures v != 0 ==> v & 0xff != 0 || v & 0xff00 != 0 || v & 0xff0000 != 0 || v & 0xff000000 != 0
    ensures (v & 0xff000000 == 0 <==> (v >> 24) & 0xff == 0)
  {
  }

  /** The search finds the lowest set bit of the word. */
  lemma FfsLowest(v: bv32)
    requires v != 0
    ensures 1 <= Ffs(v) <= 32 && Has(v, Ffs(v) - 1) && forall j | 0 <= j < Ffs(v) - 1 :: !Has(v, j)
  {
    hide Has, Lookup;
    Bytes(v);
    if v & 0xff != 0 {
      ByteFound(v, 0, v & 0xff);
    } else if v & 0xff00 != 0 {
      ByteClear(v, 0);
      ByteFound(v, 8, (v & 0xff00) >> 8);
    } else if v & 0xff0000 != 0 {
      ByteClear(v, 0);
      ByteClear(v, 8);
      ByteFound(v, 16, (v & 0xff0000) >> 16);
    } else {
      ByteClear(v, 0);
      ByteClear(v, 8);
      ByteClear(v, 16);
      ByteFound(v, 24, (v & 0xff000000) >> 24);
    }
  }
}
