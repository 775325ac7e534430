/** The size index of the dynamic heap: 27 list heads, one per power of two
    (kernel/base/mem/los_multipledlinkhead.c). */
module MultiHead {

  const MIN_LOG2: nat := 4
  const MAX_LOG2: nat := 30
  const LISTS: nat := 27          // MAX_LOG2 - MIN_LOG2 + 1
  const NO_BIT: nat := 0x0fff_ffff // what the decision tree returns when bit 31 is set

  function Pow2(k: nat): (p: nat)
    ensures p >= 1
  {
    if k == 0 then 1 else 2 * Pow2(k - 1)
  }

  /** `w & mask != 0` for the mask of the bits `low .. high - 1`, where `lowWeight == 2^low` and
      `highWeight == 2^high`: exactly the test that the decision tree makes at each of its nodes. */
  predicate Bits(w: nat, lowWeight: nat, highWeight: nat)
    requires lowWeight > 0 && highWeight > 0
  {
    (w % highWeight) / lowWeight != 0
  }

  /** The decision tree of `LOS_Log2`, test by test. */
  function Log2(w: nat): (r: nat)
  {
    if Bits(w, 0x8000_0000, 0x1_0000_0000) then NO_BIT
    else if Bits(w, 0x1_0000, 0x8000_0000) then
      if Bits(w, 0x100_0000, 0x8000_0000) then
        if Bits(w, 0x1000_0000, 0x8000_0000) then
          if Bits(w, 0x4000_0000, 0x8000_0000) then 30
          else if Bits(w, 0x2000_0000, 0x4000_0000) then 29 else 28
        else if Bits(w, 0x400_0000, 0x1000_0000) then
          if Bits(w, 0x800_0000, 0x1000_0000) then 27 else 26
        else if Bits(w, 0x200_0000, 0x400_0000) then 25 else 24
      else if Bits(w, 0x10_0000, 0x100_0000) then
        if Bits(w, 0x40_0000, 0x100_0000) then
          if Bits(w, 0x80_0000, 0x100_0000) then 23 else 22
        else if Bits(w, 0x20_0000, 0x40_0000) then 21 else 20
      else if Bits(w, 0x4_0000, 0x10_0000) then
        if Bits(w, 0x8_0000, 0x10_0000) then 19 else 18
      else if Bits(w, 0x2_0000, 0x4_0000) then 17 else 16
    else if Bits(w, 0x100, 0x1_0000) then
      if Bits(w, 0x1000, 0x1_0000) then
        if Bits(w, 0x4000, 0x1_0000) then
          if Bits(w, 0x8000, 0x1_0000) then 15 else 14
        else if Bits(w, 0x2000, 0x4000) then 13 else 12
      else if Bits(w, 0x400, 0x1000) then
        if Bits(w, 0x800, 0x1000) then 11 else 10
      else if Bits(w, 0x200, 0x400) then 9 else 8
    else if Bits(w, 0x10, 0x100) then
      if Bits(w, 0x40, 0x100) then
        if Bits(w, 0x80, 0x100) then 7 else 6
      else if Bits(w, 0x20, 0x40) then 5 else 4
    else if Bits(w, 4, 0x10) then
      if Bits(w, 8, 0x10) then 3 else 2
    else if Bits(w, 2, 4) then 1 else 0
  }

  /** The list in which a size is filed, or None where `LOS_DLnkMultiHead` returns NULL. */
  function Head(w: nat): (idx: int)
  {
    var l := Log2(w);
    if l > MAX_LOG2 then -1 else if l <= MIN_LOG2 then 0 else l - MIN_LOG2
  }

  lemma Pow2Table()
    ensures forall k: nat {:trigger Pow2(k)} | k <= 32 ::
      Pow2(k) == [1, 2, 4, 8, 0x10, 0x20, 0x40, 0x80, 0x100, 0x200, 0x400, 0x800, 0x1000, 0x2000, 0x4000, 0x8000,
                  0x1_0000, 0x2_0000, 0x4_0000, 0x8_0000, 0x10_0000, 0x20_0000, 0x40_0000, 0x80_0000,
                  0x100_0000, 0x200_0000, 0x400_0000, 0x800_0000, 0x1000_0000, 0x2000_0000, 0x4000_0000,
                  0x8000_0000, 0x1_0000_0000][k]
  {
    assert Pow2(4) == 0x10; assert Pow2(8) == 0x100; assert Pow2(12) == 0x1000; assert Pow2(16) == 0x1_0000;
    assert Pow2(20) == 0x10_0000; assert Pow2(24) == 0x100_0000; assert Pow2(28) == 0x1000_0000;
    assert Pow2(32) == 0x1_0000_0000;
  }

  /** Once the higher bits are known to be clear, a mask test is a comparison. */
  lemma BitsCompare(w: nat, low: nat, high: nat)
    requires 0 < low && w < high
    ensures Bits(w, low, high) <==> w >= low
  {
    assert w % high == w by { ModSmall(w, high); }
    if w < low { DivSmall(w, low); } else { DivLarge(w, low); }
  }

  lemma ModSmall(w: nat, h: nat)
    requires w < h
    ensures w % h == w
  {
  }

  lemma DivSmall(w: nat, l: nat)
    requires w < l
    ensures w / l == 0
  {
  }

  lemma DivLarge(w: nat, l: nat)
    requires 0 < l <= w
    ensures w / l >= 1
  {
  }

  /** On every 31-bit size the tree is the floor of the binary logarithm; above, it says "no bit". */
  lemma Log2IsFloorLog2(w: nat)
    requires w < 0x1_0000_0000
    ensures Log2(w) == NO_BIT <==> w >= 0x8000_0000
    ensures 1 <= w < 0x8000_0000 ==> Log2(w) <= 30 && Pow2(Log2(w)) <= w < Pow2(Log2(w) + 1)
    ensures w == 0 ==> Log2(w) == 0
  {
    forall low: nat, high: nat | 0 < low && w < high
      ensures Bits(w, low, high) <==> w >= low
    {
      BitsCompare(w, low, high);
    }
    Pow2Table();
  }

  lemma {:induction false} Pow2Monotone(i: nat, j: nat)
    requires i <= j
    ensures Pow2(i) <= Pow2(j)
    decreases j
  {
    if i < j { Pow2Monotone(i, j - 1); }
  }

  /** A larger size is never filed in a lower list: this is what makes the upward search complete. */
  lemma HeadMonotone(v: nat, w: nat)
    requires v <= w < 0x8000_0000
    ensures 0 <= Head(v) <= Head(w) < LISTS
  {
    Log2IsFloorLog2(v);
    Log2IsFloorLog2(w);
    if v > 0 && Log2(v) > Log2(w) {
      Pow2Monotone(Log2(w) + 1, Log2(v));
    }
  }
}
