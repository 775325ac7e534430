/** The rounding integer square root of the temperature routine (platform/xmc1100_bootkit/XMC1000_tseRoutine.c). */
module Sqrt {
  import opened MultiHead

  const WORD32: nat := 0x1_0000_0000

  /** `r` is the integer nearest to the square root of `x`. */
  predicate NearestRoot(x: nat, r: nat)
  {
    if x == 0 then r == 0 else r * r - r < x <= r * r + r
  }

  /** The state of the loop when the bit of weight `p` is about to be decided: `r` is the root so far, `xroot` is twice
      their product, and `rest` is what is left of the argument. */
  ghost predicate Deciding(radicand: nat, r: nat, p: nat, xroot: nat, rest: nat, m2: nat)
  {
    && m2 == p * p && xroot == 2 * (r * p) && rest == radicand - r * r
    && r * r <= radicand < (r + 2 * p) * (r + 2 * p) && r + 2 * p <= 65536
  }

  /** The same once the bit has been decided. */
  ghost predicate Decided(radicand: nat, r: nat, p: nat, xroot: nat, rest: nat, m2: nat)
  {
    && m2 == p * p && xroot == r * p && rest == radicand - r * r
    && r * r <= radicand < (r + p) * (r + p) && r + p <= 65536
  }

  /** The bit belongs to the root exactly if `x2` fits in what is left. */
  lemma DecideBit(radicand: nat, r: nat, p: nat, xroot: nat, rest: nat, m2: nat)
    requires Deciding(radicand, r, p, xroot, rest, m2)
    ensures var x2 := xroot + m2;
            && (x2 <= rest ==> Decided(radicand, r + p, p, xroot / 2 + m2, rest - x2, m2))
            && (x2 > rest ==> Decided(radicand, r, p, xroot / 2, rest, m2))
  {
    Expand(r, p);
    Expand(r, 2 * p);
    var s := r * p;
    assert xroot == 2 * s;
    assert (r + p) * p == s + p * p;
    assert r + 2 * p == r + p + p;
  }

  /** The addition never leaves 32 bits. */
  lemma NoOverflow(radicand: nat, r: nat, p: nat, xroot: nat, rest: nat, m2: nat)
    requires Deciding(radicand, r, p, xroot, rest, m2) && p > 0
    ensures xroot + m2 < WORD32
  {
    Expand(r, p);
    SquareBound(r + p);
  }

  lemma NextBit(radicand: nat, r: nat, p: nat, xroot: nat, rest: nat, m2: nat)
    requires Decided(radicand, r, p, xroot, rest, m2) && p % 2 == 0 && p > 0
    ensures Deciding(radicand, r, p / 2, xroot, rest, m2 / 4) && m2 / 4 > 0
  {
    var q := p / 2;
    assert q >= 1 && q * q >= 1;
    assert p == 2 * q;
    assert p * p == 4 * (q * q);
    assert r * p == 2 * (r * q);
  }

  lemma LastBit(radicand: nat, r: nat, xroot: nat, rest: nat, m2: nat)
    requires Decided(radicand, r, 1, xroot, rest, m2)
    ensures m2 / 4 == 0 && NearestRoot(radicand, if xroot < rest then xroot + 1 else xroot)
  {
    Expand(r, 1);
    if r > 0 { assert r * r >= r; }
    var t := r + 1;
    assert t * t - t == r * r + r;
  }

  lemma Expand(a: nat, b: nat)
    ensures (a + b) * (a + b) == a * a + 2 * (a * b) + b * b
  {
  }

  lemma SquareBound(a: nat)
    requires a <= 65536
    ensures a * a <= WORD32
    ensures a < 65536 ==> a * a < WORD32
  {
    Grows(a, 65536);
    if a < 65536 { Grows(a, 65535); }
  }

  lemma Grows(a: nat, b: nat)
    requires a <= b
    ensures a * a <= b * b
  {
    var d := b - a;
    Expand(a, d);
  }

  /** One round of the loop: decide the bit of weight `p`. */
  method Round(x: nat, xroot: nat, m2: nat, ghost radicand: nat, ghost r: nat, ghost p: nat)
    returns (x': nat, xroot': nat, ghost r': nat)
    requires Deciding(radicand, r, p, xroot, x, m2) && p > 0
    ensures Decided(radicand, r', p, xroot', x', m2)
    ensures xroot + m2 < WORD32 && xroot' < WORD32 && x' <= x
  {
    hide *;
    DecideBit(radicand, r, p, xroot, x, m2);
    NoOverflow(radicand, r, p, xroot, x, m2);
    var x2 := xroot + m2;
    x', xroot', r' := x, xroot / 2, r;
    if x2 <= x {
      x', xroot', r' := x - x2, xroot' + m2, r + p;
    }
  }

  /** `sqrt_5`: the nearest integer to the square root of every 32-bit number, without overflow on the way. */
  method Sqrt5(radicand: nat) returns (r: nat)
    requires radicand < WORD32
    ensures NearestRoot(radicand, r)
  {
    hide *;
    var x: nat, xroot: nat, m2: nat := radicand, 0, 0x4000_0000;
    ghost var root: nat, p: nat, k: nat := 0, 0x8000, 15;
    FirstBit(radicand);
    while true
      invariant p == Pow2(k) && p > 0 && Deciding(radicand, root, p, xroot, x, m2)
      decreases k
    {
      x, xroot, root := Round(x, xroot, m2, radicand, root, p);
      Halves(k);
      if k > 0 {
        NextBit(radicand, root, p, xroot, x, m2);
        p, k := p / 2, k - 1;
      } else {
        LastBit(radicand, root, xroot, x, m2);
      }
      m2 := m2 / 4;
      if m2 == 0 {
        break;
      }
    }
    return if xroot < x then xroot + 1 else xroot;
  }

  lemma FirstBit(radicand: nat)
    requires radicand < WORD32
    ensures Pow2(15) == 0x8000 && Deciding(radicand, 0, 0x8000, 0, radicand, 0x4000_0000)
  {
    Pow2Table();
  }

  lemma Halves(k: nat)
    ensures Pow2(0) == 1
    ensures k > 0 ==> Pow2(k) % 2 == 0 && Pow2(k) / 2 == Pow2(k - 1) && Pow2(k - 1) > 0
  {
    if k > 0 { Doubled(k); }
    hide Pow2;
  }

  lemma Doubled(k: nat)
    requires k > 0
    ensures Pow2(k) % 2 == 0 && Pow2(k) / 2 == Pow2(k - 1)
  {
    var x, y := Pow2(k - 1), Pow2(k);
    assert y == 2 * x;
    hide *;
    assert y % 2 == 0 && y / 2 == x;
  }
}
