/** Word-level picture of a dynamic memory pool (kernel/base/mem/los_memory.c, los_memory.inc).

    Memory is a map from 4-aligned byte addresses to 32-bit words.  A node header is four words:
      +0 stFreeNodeInfo.pstPrev   +4 stFreeNodeInfo.pstNext   +8 pstPreNode   +12 uwSizeAndFlag
    and a list head is two words, pstPrev and pstNext.  The pool starts with two words of
    pool information and the 27 list heads. */
module HeapState {
  import opened MultiHead

  const HEAD_SIZE: nat := 16
  const ALIGN_SIZE: nat := 4
  const USED_FLAG: nat := 0x8000_0000
  const ALIGNED_FLAG: nat := 0x4000_0000
  const FIRST_OFFSET: nat := 224     // pool information (8) and 27 list heads (8 each)
  const MIN_POOL_SIZE: nat := 256    // 216 + 2 * 16 + 8
  const WORD: nat := 0x1_0000_0000

  type Mem = map<int, int>

  type word = w: int | 0 <= w < WORD

  /** A node of the chain: header address, size in bytes including the header, used flag. */
  datatype Block = Block(addr: nat, size: nat, used: bool) {
    function End(): nat { addr + size }
    predicate Fits() { HEAD_SIZE <= size < USED_FLAG && size % 4 == 0 && addr % 4 == 0 }
    function Word(): nat { if used then size + USED_FLAG else size }
  }

  // ---------------------------------------------------------------- the chain

  /** The nodes tile the pool from `first` to the end sentinel, which is a used, header-only node. */
  ghost predicate Tiles(c: seq<Block>, first: nat, end: nat)
  {
    && |c| >= 2
    && first > 0 && first % 4 == 0 && end + HEAD_SIZE <= WORD && end - first < USED_FLAG
    && c[0].addr == first
    && c[|c| - 1] == Block(end, HEAD_SIZE, true)
    && (forall i | 0 <= i < |c| :: c[i].Fits())
    && (forall i | 0 <= i < |c| - 1 :: c[i].End() == c[i + 1].addr)
  }

  /** In a tiling, earlier nodes end before later ones start. */
  ghost predicate Apart(c: seq<Block>)
  {
    forall i, j | 0 <= i < j < |c| :: c[i].End() <= c[j].addr
  }

  lemma {:induction false} TilesApartFrom(c: seq<Block>, first: nat, end: nat, i: nat, j: nat)
    requires Tiles(c, first, end) && i < j < |c|
    ensures c[i].End() <= c[j].addr
    decreases j
  {
    if i < j - 1 {
      TilesApartFrom(c, first, end, i, j - 1);
    }
    assert c[j - 1].End() == c[j].addr;
  }

  lemma TilesApart(c: seq<Block>, first: nat, end: nat)
    requires Tiles(c, first, end)
    ensures Apart(c)
  {
    forall i, j | 0 <= i < j < |c| ensures c[i].End() <= c[j].addr {
      TilesApartFrom(c, first, end, i, j);
    }
  }

  ghost predicate NoFreeNeighbours(c: seq<Block>)
  {
    forall i | 0 <= i < |c| - 1 :: c[i].used || c[i + 1].used
  }

  ghost function PreAddr(c: seq<Block>, i: nat): nat
    requires i < |c|
  {
    if i == 0 then 0 else c[i - 1].addr
  }

  /** The two chain words of a header say what the chain says. */
  ghost predicate HeaderAt(mem: Mem, c: seq<Block>, i: nat)
    requires i < |c|
  {
    && c[i].addr + 12 in mem && mem[c[i].addr + 12] == c[i].Word()
    && c[i].addr + 8 in mem && mem[c[i].addr + 8] == PreAddr(c, i)
  }

  ghost predicate HeadersOf(mem: Mem, c: seq<Block>)
  {
    forall i | 0 <= i < |c| :: HeaderAt(mem, c, i)
  }

  ghost function Addrs(c: seq<Block>): set<int>
  {
    set b | b in c :: b.addr
  }

  // ---------------------------------------------------------------- the free lists

  function ListHead(pool: nat, k: nat): nat { pool + 8 + 8 * k }

  /** A circular doubly linked list: the head, the entries in order, and the head again. */
  function RingSeq(h: nat, l: seq<nat>): seq<nat> { [h] + l + [h] }

  /** The next and previous words of the `i`-th and `i + 1`-st members point at each other. */
  ghost predicate LinkAt(mem: Mem, r: seq<nat>, i: nat)
    requires i + 1 < |r|
  {
    && r[i] + 4 in mem && mem[r[i] + 4] == r[i + 1]
    && r[i + 1] in mem && mem[r[i + 1]] == r[i]
  }

  ghost predicate Ring(mem: Mem, h: nat, l: seq<nat>)
  {
    forall i | 0 <= i < |l| + 1 :: LinkAt(mem, RingSeq(h, l), i)
  }

  ghost predicate Rings(mem: Mem, pool: nat, bins: seq<seq<nat>>)
  {
    |bins| == LISTS && forall k | 0 <= k < LISTS :: Ring(mem, ListHead(pool, k), bins[k])
  }

  /** Every entry is the address of a chain node, and no node is entered twice. */
  ghost predicate Entered(c: seq<Block>, bins: seq<seq<nat>>)
  {
    && |bins| == LISTS
    && (forall k, p | 0 <= k < LISTS && 0 <= p < |bins[k]| :: bins[k][p] in Addrs(c))
    && (forall k, p, k', p' | 0 <= k < LISTS && 0 <= p < |bins[k]| && 0 <= k' < LISTS && 0 <= p' < |bins[k']| ::
          bins[k][p] == bins[k'][p'] ==> k == k' && p == p')
  }

  /** The lists hold exactly the free nodes, each in the list of its size. */
  ghost predicate Indexed(c: seq<Block>, bins: seq<seq<nat>>)
  {
    && |bins| == LISTS
    && (forall b | b in c && !b.used :: 0 <= Head(b.size) < LISTS && b.addr in bins[Head(b.size)])
    && (forall k, x | 0 <= k < LISTS && x in bins[k] ::
         exists b :: b in c && !b.used && b.addr == x && Head(b.size) == k)
  }

  // ---------------------------------------------------------------- everything at once

  /** Memory represents the chain `c` and the lists `bins`; used flags and lists need not agree yet. */
  ghost predicate Rep(mem: Mem, pool: nat, end: nat, c: seq<Block>, bins: seq<seq<nat>>)
  {
    && Tiles(c, pool + FIRST_OFFSET, end)
    && HeadersOf(mem, c)
    && Rings(mem, pool, bins)
    && Entered(c, bins)
  }

  /** List heads and node headers: the places whose first two words are list links. */
  ghost predicate Site(pool: nat, c: seq<Block>, s: int)
  {
    (exists k :: 0 <= k < LISTS && s == ListHead(pool, k)) || s in Addrs(c)
  }

  lemma SitesApart(pool: nat, end: nat, c: seq<Block>, s: int, t: int)
    requires Tiles(c, pool + FIRST_OFFSET, end) && Site(pool, c, s) && Site(pool, c, t)
    ensures s == t || s + 8 <= t || t + 8 <= s
    ensures s in Addrs(c) ==> pool + FIRST_OFFSET <= s <= end
    ensures s in Addrs(c) && t in Addrs(c) ==> s == t || s + HEAD_SIZE <= t || t + HEAD_SIZE <= s
    ensures s in Addrs(c) && t !in Addrs(c) ==> t + 8 <= s
  {
    TilesApart(c, pool + FIRST_OFFSET, end);
    NodesInside(c, pool + FIRST_OFFSET, end);
  }

  lemma NodesInside(c: seq<Block>, first: nat, end: nat)
    requires Tiles(c, first, end)
    ensures forall i | 0 <= i < |c| :: first <= c[i].addr <= end
    ensures forall i | 0 <= i < |c| - 1 :: c[i].End() <= end
  {
    TilesApart(c, first, end);
  }

  /** Members of rings are sites; entries of different lists, or at different places of one list, differ. */
  lemma RingMembers(pool: nat, end: nat, c: seq<Block>, bins: seq<seq<nat>>, k: nat, i: nat)
    requires Tiles(c, pool + FIRST_OFFSET, end) && Entered(c, bins) && k < LISTS && i < |bins[k]| + 2
    ensures var r := RingSeq(ListHead(pool, k), bins[k]);
            && Site(pool, c, r[i])
            && (0 < i < |bins[k]| + 1 ==> r[i] == bins[k][i - 1] && r[i] in Addrs(c))
            && (i == 0 || i == |bins[k]| + 1 ==> r[i] == ListHead(pool, k))
  {
  }

  /** A ring none of whose members is a written site is still a ring. */
  lemma OtherRing(m0: Mem, m1: Mem, pool: nat, end: nat, c: seq<Block>, bins: seq<seq<nat>>, k: nat, w: set<int>)
    requires Tiles(c, pool + FIRST_OFFSET, end) && Entered(c, bins) && k < LISTS
    requires Ring(m0, ListHead(pool, k), bins[k])
    requires m0.Keys <= m1.Keys
    requires forall s | s in w :: Site(pool, c, s)
    requires ListHead(pool, k) !in w && forall p | 0 <= p < |bins[k]| :: bins[k][p] !in w
    requires forall a | a in m0 && (forall s | s in w :: a != s && a != s + 4) :: m1[a] == m0[a]
    ensures Ring(m1, ListHead(pool, k), bins[k])
  {
    var r := RingSeq(ListHead(pool, k), bins[k]);
    forall i | 0 <= i < |bins[k]| + 1 ensures LinkAt(m1, r, i) {
      assert LinkAt(m0, r, i);
      RingMembers(pool, end, c, bins, k, i);
      RingMembers(pool, end, c, bins, k, i + 1);
      forall s | s in w ensures r[i] + 4 != s && r[i] + 4 != s + 4 && r[i + 1] != s && r[i + 1] != s + 4 {
        SitesApart(pool, end, c, s, r[i]);
        SitesApart(pool, end, c, s, r[i + 1]);
      }
    }
  }

  /** The members of a list do not overlap. */
  ghost predicate Spread(s: seq<nat>)
  {
    forall i, j | 0 <= i < j < |s| :: s[i] + 8 <= s[j] || s[j] + 8 <= s[i]
  }

  lemma ListSpread(pool: nat, end: nat, c: seq<Block>, bins: seq<seq<nat>>, k: nat, x: seq<nat>)
    requires Tiles(c, pool + FIRST_OFFSET, end) && Entered(c, bins) && k < LISTS
    requires |x| == 1 ==> x[0] in Addrs(c) && x[0] !in bins[k]
    requires |x| <= 1
    ensures Spread([ListHead(pool, k)] + x + bins[k])
  {
    var s := [ListHead(pool, k)] + x + bins[k];
    forall i, j | 0 <= i < j < |s| ensures s[i] + 8 <= s[j] || s[j] + 8 <= s[i] {
      SitesApart(pool, end, c, s[i], s[j]);
    }
  }

  lemma RingInsert(m0: Mem, m1: Mem, h: nat, l: seq<nat>, x: nat)
    requires Spread([h] + [x] + l) && Ring(m0, h, l) && h + 4 in m0
    requires var n := m0[h + 4]; m1 == m0[x + 4 := n][x := h][n := x][h + 4 := x]
    ensures Ring(m1, h, [x] + l)
  {
    var n := m0[h + 4];
    var r := RingSeq(h, l);
    var r' := RingSeq(h, [x] + l);
    var s := [h] + [x] + l;
    assert s[0] == h && s[1] == x && forall i | 2 <= i < |s| :: s[i] == l[i - 2];
    assert LinkAt(m0, r, 0);
    assert n == r[1] && (l == [] ==> n == h) && (l != [] ==> n == s[2]);
    assert r'[0] == h && r'[1] == x && r'[2] == n;
    assert x + 4 != n && h + 4 != n && h + 4 != x + 4 && x != n;
    assert m1[h + 4] == x && m1[x] == h && m1[x + 4] == n && m1[n] == x;
    forall i | 0 <= i < |l| + 2 ensures LinkAt(m1, r', i) {
      if i >= 2 {
        assert r'[i] == r[i - 1] && r'[i + 1] == r[i];
        assert LinkAt(m0, r, i - 1);
        assert r[i - 1] == s[i];
        assert i < |l| + 1 ==> r[i] == s[i + 1];
      }
    }
  }

  lemma RingDelete(m0: Mem, m1: Mem, h: nat, l: seq<nat>, p: nat)
    requires Spread([h] + l) && Ring(m0, h, l) && p < |l|
    requires l[p] in m0 && l[p] + 4 in m0
    requires var x := l[p]; var before := m0[x]; var after := m0[x + 4];
             m1 == m0[after := before][before + 4 := after][x + 4 := 0][x := 0]
    ensures Ring(m1, h, l[..p] + l[p + 1..])
  {
    var x := l[p];
    var r := RingSeq(h, l);
    var l' := l[..p] + l[p + 1..];
    var r' := RingSeq(h, l');
    var s := [h] + l;
    assert s[0] == h && forall i | 1 <= i < |s| :: s[i] == l[i - 1];
    assert LinkAt(m0, r, p) && LinkAt(m0, r, p + 1);
    assert r[p + 1] == x && m0[x] == r[p] && m0[x + 4] == r[p + 2];
    forall i | 0 <= i < |l'| + 1 ensures LinkAt(m1, r', i) {
      if i == p {
        assert r'[i] == r[p] && r'[i + 1] == r[p + 2];
      } else {
        var j := if i < p then i else i + 1;
        assert r'[i] == r[j] && r'[i + 1] == r[j + 1];
        assert LinkAt(m0, r, j);
        assert r[j] == s[j] && (j + 1 < |s| ==> r[j + 1] == s[j + 1]) && r[p] == s[p];
      }
    }
  }

  function Insert(bins: seq<seq<nat>>, k: nat, x: nat): seq<seq<nat>>
    requires k < |bins|
  {
    bins[k := [x] + bins[k]]
  }

  function Remove(bins: seq<seq<nat>>, k: nat, p: nat): seq<seq<nat>>
    requires k < |bins| && p < |bins[k]|
  {
    bins[k := bins[k][..p] + bins[k][p + 1..]]
  }

  ghost predicate NotEntered(bins: seq<seq<nat>>, x: nat)
  {
    forall k | 0 <= k < |bins| :: x !in bins[k]
  }

  lemma InsertEntered(c: seq<Block>, bins: seq<seq<nat>>, k: nat, x: nat)
    requires Entered(c, bins) && k < LISTS && x in Addrs(c) && NotEntered(bins, x)
    ensures Entered(c, Insert(bins, k, x))
  {
    var b := Insert(bins, k, x);
    forall k1, p1, k2, p2 | 0 <= k1 < LISTS && 0 <= p1 < |b[k1]| && 0 <= k2 < LISTS && 0 <= p2 < |b[k2]|
      && b[k1][p1] == b[k2][p2]
      ensures k1 == k2 && p1 == p2
    {
      if b[k1][p1] == x {
        assert x in b[k1] && x in b[k2];
        assert k1 == k && k2 == k by {
          assert x !in bins[k1] && x !in bins[k2];
        }
        assert p1 == 0 && p2 == 0 by {
          assert forall p | 0 < p < |b[k]| :: b[k][p] in bins[k];
        }
      }
    }
  }

  lemma RemoveEntered(c: seq<Block>, bins: seq<seq<nat>>, k: nat, p: nat)
    requires Entered(c, bins) && k < LISTS && p < |bins[k]|
    ensures Entered(c, Remove(bins, k, p)) && NotEntered(Remove(bins, k, p), bins[k][p])
  {
  }

  /** No member of one list is a member of another. */
  lemma ForeignMember(pool: nat, end: nat, c: seq<Block>, bins: seq<seq<nat>>, k: nat, i: nat, other: nat)
    requires Tiles(c, pool + FIRST_OFFSET, end) && Entered(c, bins)
    requires k < LISTS && i < |bins[k]| + 2 && other < LISTS && other != k
    ensures var x := RingSeq(ListHead(pool, k), bins[k])[i];
            x != ListHead(pool, other) && forall p | 0 <= p < |bins[other]| :: bins[other][p] != x
  {
    NodesInside(c, pool + FIRST_OFFSET, end);
    RingMembers(pool, end, c, bins, k, i);
    var x := RingSeq(ListHead(pool, k), bins[k])[i];
    forall p | 0 <= p < |bins[other]| ensures bins[other][p] != x {
      assert bins[other][p] in Addrs(c);
    }
  }

  lemma HeadsNotEntered(pool: nat, end: nat, c: seq<Block>, k: nat)
    requires Tiles(c, pool + FIRST_OFFSET, end) && k < LISTS
    ensures ListHead(pool, k) !in Addrs(c)
  {
    NodesInside(c, pool + FIRST_OFFSET, end);
  }

  /** `LOS_ListAdd`: enter `x` right behind the head of list `k`. */
  lemma ListAddRings(m0: Mem, m1: Mem, pool: nat, end: nat, c: seq<Block>, bins: seq<seq<nat>>, k: nat, x: nat)
    requires Tiles(c, pool + FIRST_OFFSET, end) && Rings(m0, pool, bins) && Entered(c, bins) && k < LISTS
    requires x in Addrs(c) && NotEntered(bins, x)
    requires ListHead(pool, k) + 4 in m0
    requires var h := ListHead(pool, k); var n := m0[h + 4];
             m1 == m0[x + 4 := n][x := h][n := x][h + 4 := x]
    ensures Rings(m1, pool, Insert(bins, k, x))
  {
    var h := ListHead(pool, k);
    var n := m0[h + 4];
    ListSpread(pool, end, c, bins, k, [x]);
    RingInsert(m0, m1, h, bins[k], x);
    assert n == RingSeq(h, bins[k])[1] by { assert LinkAt(m0, RingSeq(h, bins[k]), 0); }
    RingMembers(pool, end, c, bins, k, 1);
    forall k' | 0 <= k' < LISTS && k' != k ensures Ring(m1, ListHead(pool, k'), bins[k']) {
      ForeignMember(pool, end, c, bins, k, 0, k');
      ForeignMember(pool, end, c, bins, k, 1, k');
      HeadsNotEntered(pool, end, c, k');
      OtherRing(m0, m1, pool, end, c, bins, k', {x, h, n});
    }
  }

  /** What unlinking does to the other lists. */
  lemma DeleteOtherRing(m0: Mem, m1: Mem, pool: nat, end: nat, c: seq<Block>, bins: seq<seq<nat>>, k: nat, p: nat,
                        other: nat)
    requires Tiles(c, pool + FIRST_OFFSET, end) && Entered(c, bins) && k < LISTS && p < |bins[k]|
    requires other < LISTS && other != k && Ring(m0, ListHead(pool, other), bins[other])
    requires var r := RingSeq(ListHead(pool, k), bins[k]);
             m1 == m0[r[p + 2] := r[p]][r[p] + 4 := r[p + 2]][r[p + 1] + 4 := 0][r[p + 1] := 0]
    ensures Ring(m1, ListHead(pool, other), bins[other])
  {
    var r := RingSeq(ListHead(pool, k), bins[k]);
    RingMembers(pool, end, c, bins, k, p);
    RingMembers(pool, end, c, bins, k, p + 1);
    RingMembers(pool, end, c, bins, k, p + 2);
    ForeignMember(pool, end, c, bins, k, p, other);
    ForeignMember(pool, end, c, bins, k, p + 1, other);
    ForeignMember(pool, end, c, bins, k, p + 2, other);
    OtherRing(m0, m1, pool, end, c, bins, other, {r[p], r[p + 1], r[p + 2]});
  }

  /** `LOS_ListDelete`: unlink the `p`-th entry of list `k`. */
  lemma ListDeleteRings(m0: Mem, m1: Mem, pool: nat, end: nat, c: seq<Block>, bins: seq<seq<nat>>, k: nat, p: nat)
    requires Tiles(c, pool + FIRST_OFFSET, end) && Rings(m0, pool, bins) && Entered(c, bins)
    requires k < LISTS && p < |bins[k]|
    requires bins[k][p] in m0 && bins[k][p] + 4 in m0
    requires var x := bins[k][p]; var before := m0[x]; var after := m0[x + 4];
             m1 == m0[after := before][before + 4 := after][x + 4 := 0][x := 0]
    ensures Rings(m1, pool, Remove(bins, k, p))
  {
    var h := ListHead(pool, k);
    var r := RingSeq(h, bins[k]);
    assert r[p + 1] == bins[k][p];
    assert m0[r[p + 1]] == r[p] && m0[r[p + 1] + 4] == r[p + 2] by {
      assert LinkAt(m0, r, p) && LinkAt(m0, r, p + 1);
    }
    assert Ring(m1, h, bins[k][..p] + bins[k][p + 1..]) by {
      ListSpread(pool, end, c, bins, k, []);
      assert [h] + [] + bins[k] == [h] + bins[k];
      RingDelete(m0, m1, h, bins[k], p);
    }
    forall other | 0 <= other < LISTS && other != k ensures Ring(m1, ListHead(pool, other), bins[other]) {
      DeleteOtherRing(m0, m1, pool, end, c, bins, k, p, other);
    }
  }

  // ---------------------------------------------------------------- what header writes do

  /** List heads and entries: the places whose first two words must not be disturbed. */
  ghost predicate Member(pool: nat, bins: seq<seq<nat>>, s: nat)
  {
    exists k :: 0 <= k < |bins| && (s == ListHead(pool, k) || s in bins[k])
  }

  ghost predicate SameLinks(m0: Mem, m1: Mem, s: nat)
  {
    && (s in m0 ==> s in m1 && m1[s] == m0[s])
    && (s + 4 in m0 ==> s + 4 in m1 && m1[s + 4] == m0[s + 4])
  }

  lemma RingsKept(m0: Mem, m1: Mem, pool: nat, bins: seq<seq<nat>>)
    requires Rings(m0, pool, bins)
    requires forall s | Member(pool, bins, s) :: SameLinks(m0, m1, s)
    ensures Rings(m1, pool, bins)
  {
    forall k, i | 0 <= k < LISTS && 0 <= i < |bins[k]| + 1
      ensures LinkAt(m1, RingSeq(ListHead(pool, k), bins[k]), i)
    {
      var r := RingSeq(ListHead(pool, k), bins[k]);
      assert LinkAt(m0, r, i);
      assert r[i] == ListHead(pool, k) || r[i] in bins[k];
      assert r[i + 1] == ListHead(pool, k) || r[i + 1] in bins[k];
      assert Member(pool, bins, r[i]) && Member(pool, bins, r[i + 1]);
      assert SameLinks(m0, m1, r[i]) && SameLinks(m0, m1, r[i + 1]);
    }
  }

  lemma AddrIn(c: seq<Block>, i: nat)
    requires i < |c|
    ensures c[i].addr in Addrs(c)
  {
  }

  lemma AddrIndex(c: seq<Block>, x: nat) returns (i: nat)
    requires x in Addrs(c)
    ensures i < |c| && c[i].addr == x
  {
    i :| 0 <= i < |c| && c[i].addr == x;
  }

  /** Link words of sites are not chain words. */
  lemma ChainWordsAway(pool: nat, end: nat, c: seq<Block>, i: nat, s: int)
    requires Tiles(c, pool + FIRST_OFFSET, end) && Site(pool, c, s) && i < |c|
    ensures c[i].addr + 8 != s && c[i].addr + 8 != s + 4 && c[i].addr + 12 != s && c[i].addr + 12 != s + 4
  {
    AddrIn(c, i);
    SitesApart(pool, end, c, s, c[i].addr);
    SitesApart(pool, end, c, c[i].addr, s);
  }

  /** List operations on sites leave the chain words alone. */
  lemma HeadersKept(m0: Mem, m1: Mem, pool: nat, end: nat, c: seq<Block>, w: set<int>)
    requires Tiles(c, pool + FIRST_OFFSET, end) && HeadersOf(m0, c)
    requires m0.Keys <= m1.Keys && forall s | s in w :: Site(pool, c, s)
    requires forall a | a in m0 && (forall s | s in w :: a != s && a != s + 4) :: m1[a] == m0[a]
    ensures HeadersOf(m1, c)
  {
    forall i | 0 <= i < |c| ensures HeaderAt(m1, c, i) {
      assert HeaderAt(m0, c, i);
      forall s | s in w
        ensures c[i].addr + 8 != s && c[i].addr + 8 != s + 4 && c[i].addr + 12 != s && c[i].addr + 12 != s + 4
      {
        ChainWordsAway(pool, end, c, i, s);
      }
    }
  }

  /** The node `c[i]` swallowed by the node before it. */
  function Merged(c: seq<Block>, i: nat): seq<Block>
    requires 0 < i < |c|
  {
    c[..i - 1] + [Block(c[i - 1].addr, c[i - 1].size + c[i].size, false)] + c[i + 1..]
  }

  /** The node `c[i]` cut down to `s` bytes, and the rest of it as a new free node. */
  function Cut(c: seq<Block>, i: nat, s: nat): seq<Block>
    requires i < |c| && s <= c[i].size
  {
    c[..i] + [Block(c[i].addr, s, false), Block(c[i].addr + s, c[i].size - s, false)] + c[i + 1..]
  }

  function Flagged(c: seq<Block>, i: nat, used: bool): seq<Block>
    requires i < |c|
  {
    c[i := c[i].(used := used)]
  }

  lemma MergedElements(c: seq<Block>, i: nat)
    requires 0 < i < |c|
    ensures var m := Merged(c, i);
            && |m| == |c| - 1
            && (forall j | 0 <= j < i - 1 :: m[j] == c[j])
            && m[i - 1] == Block(c[i - 1].addr, c[i - 1].size + c[i].size, false)
            && (forall j | i <= j < |m| :: m[j] == c[j + 1])
  {
  }

  lemma MergedNear(c: seq<Block>, i: nat)
    requires 0 < i < |c| - 1
    ensures |Merged(c, i)| == |c| - 1
    ensures Merged(c, i)[i - 1] == Block(c[i - 1].addr, c[i - 1].size + c[i].size, false) && Merged(c, i)[i] == c[i + 1]
  {
    MergedElements(c, i);
  }

  lemma MergedTiles(c: seq<Block>, first: nat, end: nat, i: nat)
    requires Tiles(c, first, end) && 0 < i < |c| - 1
    ensures Tiles(Merged(c, i), first, end)
  {
    MergedElements(c, i);
    NodesInside(c, first, end);
    var m := Merged(c, i);
    hide Merged;
    assert c[i - 1].End() == c[i].addr && c[i].End() == c[i + 1].addr;
    assert m[i - 1].End() == m[i].addr;
    assert m[i - 1].Fits();
    forall j | 0 <= j < |m| - 1 ensures m[j].End() == m[j + 1].addr {
      if j < i - 1 { assert c[j].End() == c[j + 1].addr; }
      else if j >= i { assert c[j + 1].End() == c[j + 2].addr; }
    }
  }

  lemma MergedAddrs(c: seq<Block>, first: nat, end: nat, i: nat)
    requires Tiles(c, first, end) && 0 < i < |c| - 1
    ensures Addrs(Merged(c, i)) == Addrs(c) - {c[i].addr}
  {
    MergedElements(c, i);
    TilesApart(c, first, end);
    var m := Merged(c, i);
    forall x | x in Addrs(c) - {c[i].addr} ensures x in Addrs(m) {
      var j := AddrIndex(c, x);
      AddrIn(m, if j < i then j else j - 1);
    }
    forall x | x in Addrs(m) ensures x in Addrs(c) && x != c[i].addr {
      var j := AddrIndex(m, x);
      AddrIn(c, if j < i then j else j + 1);
      assert c[i - 1].End() <= c[i].addr;
    }
  }

  lemma CutElements(c: seq<Block>, i: nat, s: nat)
    requires i < |c| && s <= c[i].size
    ensures var m := Cut(c, i, s);
            && |m| == |c| + 1
            && (forall j | 0 <= j < i :: m[j] == c[j])
            && m[i] == Block(c[i].addr, s, false)
            && m[i + 1] == Block(c[i].addr + s, c[i].size - s, false)
            && (forall j | i + 2 <= j < |m| :: m[j] == c[j - 1])
  {
  }

  lemma CutTiles(c: seq<Block>, first: nat, end: nat, i: nat, s: nat)
    requires Tiles(c, first, end) && i < |c| - 1
    requires HEAD_SIZE <= s && s + HEAD_SIZE <= c[i].size && s % 4 == 0
    ensures Tiles(Cut(c, i, s), first, end)
  {
    CutElements(c, i, s);
    var m := Cut(c, i, s);
    assert c[i].End() == c[i + 1].addr && c[i].Fits();
    assert m[i].Fits() && m[i + 1].Fits();
    forall j | 0 <= j < |m| - 1 ensures m[j].End() == m[j + 1].addr {
      if j < i { assert c[j].End() == c[j + 1].addr; }
      else if j >= i + 2 { assert c[j - 1].End() == c[j].addr; }
    }
    assert m[|m| - 1] == c[|c| - 1];
  }

  lemma CutAddrs(c: seq<Block>, i: nat, s: nat)
    requires i < |c| && s <= c[i].size
    ensures Addrs(Cut(c, i, s)) == Addrs(c) + {c[i].addr + s}
  {
    CutElements(c, i, s);
    var m := Cut(c, i, s);
    forall x | x in Addrs(c) + {c[i].addr + s} ensures x in Addrs(m) {
      if x == c[i].addr + s { assert m[i + 1] in m; }
      else {
        var j :| 0 <= j < |c| && c[j].addr == x;
        var j' := if j <= i then j else j + 1;
        assert m[j'].addr == x && m[j'] in m;
      }
    }
    forall x | x in Addrs(m) ensures x in Addrs(c) + {c[i].addr + s} {
      var j :| 0 <= j < |m| && m[j].addr == x;
      if j != i + 1 {
        var j' := if j <= i then j else j - 1;
        assert c[j'].addr == x && c[j'] in c;
      }
    }
  }

  /** A member is a site other than any node that is not entered. */
  lemma MemberSite(pool: nat, end: nat, c: seq<Block>, bins: seq<seq<nat>>, s: nat, i: nat)
    requires Tiles(c, pool + FIRST_OFFSET, end) && Entered(c, bins) && Member(pool, bins, s) && i < |c|
    ensures s < pool + FIRST_OFFSET - 4 || s in Addrs(c)
    ensures s <= c[i].addr - 8 || s == c[i].addr || s >= c[i].End()
    ensures NotEntered(bins, c[i].addr) ==> s != c[i].addr
  {
    NodesInside(c, pool + FIRST_OFFSET, end);
    TilesApart(c, pool + FIRST_OFFSET, end);
    var k :| 0 <= k < |bins| && (s == ListHead(pool, k) || s in bins[k]);
    if s != ListHead(pool, k) {
      var j := AddrIndex(c, s);
      assert j < i ==> c[j].End() <= c[i].addr;
      assert i < j ==> c[i].End() <= c[j].addr;
      assert c[j].Fits();
    }
  }

  lemma Adjacent(c: seq<Block>, first: nat, end: nat, i: nat)
    requires Tiles(c, first, end) && i < |c| - 1
    ensures c[i].addr + c[i].size == c[i + 1].addr <= end && end + HEAD_SIZE <= WORD
  {
    NodesInside(c, first, end);
    assert c[i].End() == c[i + 1].addr;
  }

  lemma Apart2(c: seq<Block>, first: nat, end: nat, i: nat, j: nat)
    requires Tiles(c, first, end) && i < |c| - 1 && j < |c| - 1 && i != j
    ensures c[i].addr + c[i].size <= c[j].addr || c[j].addr + c[j].size <= c[i].addr
    ensures c[i].addr + c[i].size <= end && c[j].addr + c[j].size <= end
  {
    Two(c, first, end, i, j);
    NodesInside(c, first, end);
  }

  /** Different nodes are apart, and the next one is adjacent. */
  lemma Two(c: seq<Block>, first: nat, end: nat, i: nat, j: nat)
    requires Tiles(c, first, end) && i < |c| && j < |c|
    ensures c[i].Fits() && c[j].Fits()
    ensures i < j ==> c[i].End() <= c[j].addr
    ensures j < i ==> c[j].End() <= c[i].addr
    ensures i + 1 == j ==> c[i].End() == c[j].addr
  {
    if i < j { TilesApartFrom(c, first, end, i, j); }
    if j < i { TilesApartFrom(c, first, end, j, i); }
  }

  function MergeWrites(m: Mem, pre: nat, node: nat, next: nat, size: nat): Mem
  {
    m[pre + 12 := size][next + 8 := pre][node := 0][node + 4 := 0][node + 8 := 0]
  }

  function CutWrites(m: Mem, node: nat, newNode: nat, next: nat, size: nat, rest: nat): Mem
  {
    m[newNode + 8 := node][newNode + 12 := rest][node + 12 := size][next + 8 := newNode]
  }

  lemma MergeWritesAt(m: Mem, pre: nat, node: nat, next: nat, size: nat, x: nat)
    requires pre + 16 <= node && node + 16 <= next && x + 8 in m && x + 12 in m
    requires x + 16 <= node || node + 16 <= x
    requires x == pre || x + 16 <= pre || pre + 16 <= x
    requires x == next || x + 16 <= next || next + 16 <= x
    ensures var m1 := MergeWrites(m, pre, node, next, size);
            && x + 8 in m1 && m1[x + 8] == (if x == next then pre else m[x + 8])
            && x + 12 in m1 && m1[x + 12] == (if x == pre then size else m[x + 12])
  {
  }

  lemma MergeHeaders(m0: Mem, first: nat, end: nat, c: seq<Block>, i: nat)
    requires Tiles(c, first, end) && HeadersOf(m0, c)
    requires 0 < i < |c| - 1 && !c[i - 1].used && !c[i].used
    ensures HeadersOf(MergeWrites(m0, c[i - 1].addr, c[i].addr, c[i + 1].addr, c[i - 1].size + c[i].size), Merged(c, i))
  {
    var m := Merged(c, i);
    var m1 := MergeWrites(m0, c[i - 1].addr, c[i].addr, c[i + 1].addr, c[i - 1].size + c[i].size);
    MergedElements(c, i);
    Two(c, first, end, i - 1, i);
    Two(c, first, end, i, i + 1);
    Two(c, first, end, i - 1, i + 1);
    hide Merged, Tiles, MergeWrites;
    forall j | 0 <= j < |m| ensures HeaderAt(m1, m, j) {
      var j' := if j < i then j else j + 1;
      assert HeaderAt(m0, c, j');
      Two(c, first, end, i - 1, j');
      Two(c, first, end, i, j');
      Two(c, first, end, i + 1, j');
      MergeWritesAt(m0, c[i - 1].addr, c[i].addr, c[i + 1].addr, c[i - 1].size + c[i].size, c[j'].addr);
    }
  }

  lemma CutHeaders(m0: Mem, first: nat, end: nat, c: seq<Block>, i: nat, s: nat)
    requires Tiles(c, first, end) && HeadersOf(m0, c)
    requires i < |c| - 1 && HEAD_SIZE <= s && s + HEAD_SIZE <= c[i].size
    ensures HeadersOf(CutWrites(m0, c[i].addr, c[i].addr + s, c[i + 1].addr, s, c[i].size - s), Cut(c, i, s))
  {
    var m := Cut(c, i, s);
    var m1 := CutWrites(m0, c[i].addr, c[i].addr + s, c[i + 1].addr, s, c[i].size - s);
    CutElements(c, i, s);
    Two(c, first, end, i, i + 1);
    forall j | 0 <= j < |m| ensures HeaderAt(m1, m, j) {
      if j != i + 1 {
        var j' := if j <= i then j else j - 1;
        assert HeaderAt(m0, c, j');
        Two(c, first, end, i, j');
        Two(c, first, end, i + 1, j');
      }
    }
  }

  lemma MergeRings(m0: Mem, pool: nat, end: nat, c: seq<Block>, bins: seq<seq<nat>>, i: nat)
    requires Tiles(c, pool + FIRST_OFFSET, end) && Rings(m0, pool, bins) && Entered(c, bins)
    requires 0 < i < |c| - 1 && NotEntered(bins, c[i].addr)
    ensures Rings(MergeWrites(m0, c[i - 1].addr, c[i].addr, c[i + 1].addr, c[i - 1].size + c[i].size), pool, bins)
  {
    var m1 := MergeWrites(m0, c[i - 1].addr, c[i].addr, c[i + 1].addr, c[i - 1].size + c[i].size);
    Two(c, pool + FIRST_OFFSET, end, i - 1, i);
    Two(c, pool + FIRST_OFFSET, end, i, i + 1);
    forall s | Member(pool, bins, s) ensures SameLinks(m0, m1, s) {
      MemberSite(pool, end, c, bins, s, i - 1);
      MemberSite(pool, end, c, bins, s, i);
      MemberSite(pool, end, c, bins, s, i + 1);
    }
    RingsKept(m0, m1, pool, bins);
  }

  lemma CutRings(m0: Mem, pool: nat, end: nat, c: seq<Block>, bins: seq<seq<nat>>, i: nat, s: nat)
    requires Tiles(c, pool + FIRST_OFFSET, end) && Rings(m0, pool, bins) && Entered(c, bins)
    requires i < |c| - 1 && HEAD_SIZE <= s && s + HEAD_SIZE <= c[i].size
    ensures Rings(CutWrites(m0, c[i].addr, c[i].addr + s, c[i + 1].addr, s, c[i].size - s), pool, bins)
  {
    var m1 := CutWrites(m0, c[i].addr, c[i].addr + s, c[i + 1].addr, s, c[i].size - s);
    Two(c, pool + FIRST_OFFSET, end, i, i + 1);
    forall t | Member(pool, bins, t) ensures SameLinks(m0, m1, t) {
      MemberSite(pool, end, c, bins, t, i);
      MemberSite(pool, end, c, bins, t, i + 1);
    }
    RingsKept(m0, m1, pool, bins);
  }

  lemma FlagHeaders(m0: Mem, first: nat, end: nat, c: seq<Block>, i: nat, used: bool)
    requires Tiles(c, first, end) && HeadersOf(m0, c) && i < |c| - 1
    ensures HeadersOf(m0[c[i].addr + 12 := Flagged(c, i, used)[i].Word()], Flagged(c, i, used))
  {
    var c' := Flagged(c, i, used);
    var m1 := m0[c[i].addr + 12 := c'[i].Word()];
    forall j | 0 <= j < |c'| ensures HeaderAt(m1, c', j) {
      assert HeaderAt(m0, c, j);
      Two(c, first, end, i, j);
    }
  }

  lemma FlagRep(m0: Mem, pool: nat, end: nat, c: seq<Block>, bins: seq<seq<nat>>, i: nat, used: bool)
    requires Rep(m0, pool, end, c, bins) && i < |c| - 1
    ensures Rep(m0[c[i].addr + 12 := Flagged(c, i, used)[i].Word()], pool, end, Flagged(c, i, used), bins)
  {
    var m1 := m0[c[i].addr + 12 := Flagged(c, i, used)[i].Word()];
    FlagHeaders(m0, pool + FIRST_OFFSET, end, c, i, used);
    FlaggedTiles(c, pool + FIRST_OFFSET, end, i, used);
    forall s | Member(pool, bins, s) ensures SameLinks(m0, m1, s) {
      MemberSite(pool, end, c, bins, s, i);
    }
    RingsKept(m0, m1, pool, bins);
  }

  lemma FlaggedTiles(c: seq<Block>, first: nat, end: nat, i: nat, used: bool)
    requires Tiles(c, first, end) && i < |c| - 1
    ensures Tiles(Flagged(c, i, used), first, end)
    ensures Addrs(Flagged(c, i, used)) == Addrs(c)
  {
    var m := Flagged(c, i, used);
    forall j | 0 <= j < |m| ensures m[j].Fits() { assert c[j].Fits(); }
    forall j | 0 <= j < |m| - 1 ensures m[j].End() == m[j + 1].addr { assert c[j].End() == c[j + 1].addr; }
    forall x | x in Addrs(c) ensures x in Addrs(m) { var j := AddrIndex(c, x); AddrIn(m, j); }
    forall x | x in Addrs(m) ensures x in Addrs(c) { var j := AddrIndex(m, x); AddrIn(c, j); }
  }

  // ---------------------------------------------------------------- what may change

  /** Addresses that belong to no list head and to no header in `nodes`. */
  ghost predicate Outside(pool: nat, nodes: set<int>, a: int)
  {
    (a < pool + 8 || pool + FIRST_OFFSET <= a) && forall x | x in nodes :: a < x || x + HEAD_SIZE <= a
  }

  /** Only list heads and headers in `nodes` may differ. */
  ghost predicate Frame(m0: Mem, m1: Mem, pool: nat, nodes: set<int>)
  {
    m1.Keys == m0.Keys && forall a | a in m0 && Outside(pool, nodes, a) :: m1[a] == m0[a]
  }

  /** `a` is a payload address of the node `b`. */
  predicate InPayload(b: Block, a: int)
  {
    b.addr + HEAD_SIZE <= a < b.End()
  }

  /** Payload addresses lie outside every header of the chain and outside the list heads. */
  lemma PayloadOutside(c: seq<Block>, pool: nat, end: nat, i: nat, a: int)
    requires Tiles(c, pool + FIRST_OFFSET, end) && i < |c| && InPayload(c[i], a)
    ensures Outside(pool, Addrs(c), a)
  {
    NodesInside(c, pool + FIRST_OFFSET, end);
    forall x | x in Addrs(c) ensures a < x || x + HEAD_SIZE <= a {
      var j := AddrIndex(c, x);
      Two(c, pool + FIRST_OFFSET, end, i, j);
    }
  }

  /** Link words of sites are all that list operations touch. */
  lemma LinksFrame(m0: Mem, m1: Mem, pool: nat, end: nat, c: seq<Block>, w: set<int>)
    requires Tiles(c, pool + FIRST_OFFSET, end)
    requires m1.Keys == m0.Keys && forall s | s in w :: Site(pool, c, s)
    requires forall a | a in m0 && (forall s | s in w :: a != s && a != s + 4) :: m1[a] == m0[a]
    ensures Frame(m0, m1, pool, Addrs(c))
  {
    forall a | a in m0 && Outside(pool, Addrs(c), a) ensures m1[a] == m0[a] {
      forall s | s in w ensures a != s && a != s + 4 {
        if s !in Addrs(c) {
          NodesInside(c, pool + FIRST_OFFSET, end);
        }
      }
    }
  }

  /** The two words of pool information lie in front of the list heads and the nodes. */
  lemma InfoFrame(m0: Mem, m1: Mem, pool: nat, end: nat, c: seq<Block>)
    requires Tiles(c, pool + FIRST_OFFSET, end) && Frame(m0, m1, pool, Addrs(c)) && pool in m0 && pool + 4 in m0
    ensures pool in m1 && pool + 4 in m1 && m1[pool] == m0[pool] && m1[pool + 4] == m0[pool + 4]
  {
    NodesInside(c, pool + FIRST_OFFSET, end);
    assert Outside(pool, Addrs(c), pool) && Outside(pool, Addrs(c), pool + 4);
  }

  lemma InfoPayload(c: seq<Block>, pool: nat, end: nat, i: nat)
    requires Tiles(c, pool + FIRST_OFFSET, end) && i < |c|
    ensures !InPayload(c[i], pool) && !InPayload(c[i], pool + 4)
  {
    NodesInside(c, pool + FIRST_OFFSET, end);
    AddrIn(c, i);
  }

  lemma FrameTrans(m0: Mem, m1: Mem, m2: Mem, pool: nat, n1: set<int>, n2: set<int>, n: set<int>)
    requires Frame(m0, m1, pool, n1) && Frame(m1, m2, pool, n2) && n1 <= n && n2 <= n
    ensures Frame(m0, m2, pool, n)
  {
    forall a | a in m0 && Outside(pool, n, a) ensures m2[a] == m0[a] {
      assert Outside(pool, n1, a) && Outside(pool, n2, a);
    }
  }

  lemma HeadInRange(size: nat)
    requires HEAD_SIZE <= size < USED_FLAG
    ensures 0 <= Head(size) < LISTS
  {
    HeadMonotone(HEAD_SIZE, size);
  }

  // ---------------------------------------------------------------- the index after an operation

  ghost function FreeSet(c: seq<Block>): set<Block>
  {
    set b | b in c && !b.used
  }

  ghost function PlaceOf(l: seq<nat>, x: nat): (p: nat)
    requires x in l
    ensures p < |l| && l[p] == x
  {
    var p :| 0 <= p < |l| && l[p] == x; p
  }

  /** The lists without the entry `x` of list `k`. */
  ghost function Unlist(bins: seq<seq<nat>>, k: nat, x: nat): seq<seq<nat>>
    requires k < |bins| && x in bins[k]
  {
    Remove(bins, k, PlaceOf(bins[k], x))
  }

  lemma UnlistMembers(c: seq<Block>, bins: seq<seq<nat>>, k: nat, x: nat)
    requires Entered(c, bins) && k < LISTS && x in bins[k]
    ensures forall j, y | 0 <= j < LISTS :: y in Unlist(bins, k, x)[j] <==> y in bins[j] && y != x
  {
    var p := PlaceOf(bins[k], x);
    var u := Unlist(bins, k, x);
    forall j, y | 0 <= j < LISTS ensures y in u[j] <==> y in bins[j] && y != x {
      if y in bins[j] && y != x && j == k {
        var q :| 0 <= q < |bins[j]| && bins[j][q] == y;
        assert u[j][if q < p then q else q - 1] == y;
      }
      if y in u[j] && j == k {
        var q :| 0 <= q < |u[j]| && u[j][q] == y;
        assert bins[k][if q < p then q else q + 1] == y;
      }
    }
  }

  lemma InsertMembers(bins: seq<seq<nat>>, k: nat, x: nat)
    requires k < |bins|
    ensures forall j, y | 0 <= j < |bins| :: y in Insert(bins, k, x)[j] <==> y in bins[j] || (j == k && y == x)
  {
  }

  /** One address, one block. */
  lemma SameBlock(c: seq<Block>, first: nat, end: nat, a: Block, b: Block)
    requires Tiles(c, first, end) && a in c && b in c && a.addr == b.addr
    ensures a == b
  {
    var i :| 0 <= i < |c| && c[i] == a;
    var j :| 0 <= j < |c| && c[j] == b;
    Two(c, first, end, i, j);
  }

  ghost predicate Filed(added: set<Block>, k: int, y: nat)
  {
    exists b :: b in added && b.addr == y && Head(b.size) == k
  }

  /** If the free blocks lose `gone` and gain `added`, and the lists follow suit, they still agree. */
  lemma IndexedAfter(c: seq<Block>, c': seq<Block>, bins: seq<seq<nat>>, bins': seq<seq<nat>>, gone: set<Block>,
                     added: set<Block>, first: nat, end: nat)
    requires Tiles(c, first, end) && Indexed(c, bins) && |bins'| == LISTS
    requires gone <= FreeSet(c) && FreeSet(c') == FreeSet(c) - gone + added
    requires forall b | b in added :: b.Fits()
    requires forall k, y | 0 <= k < LISTS :: y in bins'[k] <==>
               (y in bins[k] && forall b | b in gone :: y != b.addr) || Filed(added, k, y)
    ensures Indexed(c', bins')
  {
    forall b | b in c' && !b.used ensures 0 <= Head(b.size) < LISTS && b.addr in bins'[Head(b.size)] {
      assert b in FreeSet(c');
      if b in added {
        HeadInRange(b.size);
      } else {
        forall g | g in gone ensures b.addr != g.addr {
          if b.addr == g.addr { SameBlock(c, first, end, b, g); }
        }
      }
    }
    forall k, x | 0 <= k < LISTS
      && x in bins'[k] ensures exists b :: b in c' && !b.used && b.addr == x && Head(b.size) == k {
      if b :| b in added && b.addr == x && Head(b.size) == k {
        assert b in FreeSet(c');
      } else {
        var b :| b in c && !b.used && b.addr == x && Head(b.size) == k;
        assert b in FreeSet(c) && b !in gone;
        assert b in FreeSet(c');
      }
    }
  }

  lemma MergeRep(m: Mem, pool: nat, end: nat, c: seq<Block>, bins: seq<seq<nat>>, i: nat)
    requires Rep(m, pool, end, c, bins)
    requires 0 < i < |c| - 1 && !c[i - 1].used && !c[i].used && NotEntered(bins, c[i].addr)
    ensures Rep(MergeWrites(m, c[i - 1].addr, c[i].addr, c[i + 1].addr, c[i - 1].size + c[i].size), pool, end,
            Merged(c, i), bins)
    ensures Addrs(Merged(c, i)) == Addrs(c) - {c[i].addr}
    ensures c[i - 1].size + c[i].size < USED_FLAG && c[i].End() == c[i + 1].addr
  {
    MergedTiles(c, pool + FIRST_OFFSET, end, i);
    MergedElements(c, i);
    assert Merged(c, i)[i - 1].Fits();
    MergeHeaders(m, pool + FIRST_OFFSET, end, c, i);
    MergeRings(m, pool, end, c, bins, i);
    MergedAddrs(c, pool + FIRST_OFFSET, end, i);
  }

  lemma CutRep(m: Mem, pool: nat, end: nat, c: seq<Block>, bins: seq<seq<nat>>, i: nat, s: nat)
    requires Rep(m, pool, end, c, bins)
    requires i < |c| - 1 && !c[i].used && HEAD_SIZE <= s && s + HEAD_SIZE <= c[i].size && s % 4 == 0
    ensures Rep(CutWrites(m, c[i].addr, c[i].addr + s, c[i + 1].addr, s, c[i].size - s), pool, end, Cut(c, i, s), bins)
    ensures Addrs(Cut(c, i, s)) == Addrs(c) + {c[i].addr + s} && c[i].addr + s !in Addrs(c)
    ensures c[i].End() == c[i + 1].addr && NotEntered(bins, c[i].addr + s)
  {
    CutTiles(c, pool + FIRST_OFFSET, end, i, s);
    CutHeaders(m, pool + FIRST_OFFSET, end, c, i, s);
    CutRings(m, pool, end, c, bins, i, s);
    CutAddrs(c, i, s);
    if c[i].addr + s in Addrs(c) {
      var j := AddrIndex(c, c[i].addr + s);
      Two(c, pool + FIRST_OFFSET, end, i, j);
    }
    assert c[i].End() == c[i + 1].addr;
  }

  /** Writes inside headers of the chain. */
  lemma NodeFrame(m0: Mem, m1: Mem, pool: nat, c: seq<Block>, w: set<int>)
    requires m1.Keys == m0.Keys && w <= Addrs(c)
    requires forall a | a in m0 && (forall x | x in w :: a < x || x + 16 <= a) :: m1[a] == m0[a]
    ensures Frame(m0, m1, pool, Addrs(c))
  {
  }

  lemma MergeFrame(m: Mem, pool: nat, c: seq<Block>, i: nat)
    requires 0 < i < |c| - 1
    requires c[i - 1].addr + 12 in m && c[i + 1].addr + 8 in m && c[i].addr in m && c[i].addr + 4 in m
             && c[i].addr + 8 in m
    ensures Frame(m, MergeWrites(m, c[i - 1].addr, c[i].addr, c[i + 1].addr, c[i - 1].size + c[i].size), pool, Addrs(c))
  {
    var m1 := MergeWrites(m, c[i - 1].addr, c[i].addr, c[i + 1].addr, c[i - 1].size + c[i].size);
    assert m1.Keys == m.Keys;
    NodeFrame(m, m1, pool, c, {c[i - 1].addr, c[i].addr, c[i + 1].addr});
  }

  // ---------------------------------------------------------------- what splitting and freeing compute

  ghost predicate ListedUnder(bins: seq<seq<nat>>, b: Block)
  {
    |bins| == LISTS && 0 <= Head(b.size) < LISTS && b.addr in bins[Head(b.size)]
  }

  /** Enter a node of the given size; take one off its list. */
  ghost function FileIn(bins: seq<seq<nat>>, size: nat, x: nat): seq<seq<nat>>
  {
    if 0 <= Head(size) < |bins| then Insert(bins, Head(size), x) else bins
  }

  ghost function TakeOff(bins: seq<seq<nat>>, b: Block): seq<seq<nat>>
  {
    if 0 <= Head(b.size) < |bins| && b.addr in bins[Head(b.size)] then Unlist(bins, Head(b.size), b.addr) else bins
  }

  /** The chain and the lists once `c[j]` has absorbed a free successor. */
  function AbsorbChain(c: seq<Block>, j: nat): seq<Block>
    requires j + 1 < |c|
  {
    if c[j + 1].used then c else Merged(c, j + 1)
  }

  ghost function AbsorbBins(c: seq<Block>, bins: seq<seq<nat>>, j: nat): seq<seq<nat>>
    requires j + 1 < |c|
  {
    if c[j + 1].used then bins else TakeOff(bins, c[j + 1])
  }

  /** The lists once `c[j]` has also been entered in the list of its new size. */
  ghost function JoinBins(c: seq<Block>, bins: seq<seq<nat>>, j: nat): seq<seq<nat>>
    requires j + 1 < |c|
  {
    FileIn(AbsorbBins(c, bins, j), c[j].size + (if c[j + 1].used then 0 else c[j + 1].size), c[j].addr)
  }

  lemma AbsorbElements(c: seq<Block>, j: nat)
    requires j + 1 < |c| && !c[j].used && c[|c| - 1].used
    ensures j < |AbsorbChain(c, j)| - 1
    ensures AbsorbChain(c, j)[j] == Block(c[j].addr, c[j].size + (if c[j + 1].used then 0 else c[j + 1].size), false)
  {
    if !c[j + 1].used { MergedElements(c, j + 1); }
  }

  lemma JoinBinsForm(c: seq<Block>, bins: seq<seq<nat>>, j: nat)
    requires j + 1 < |c| && !c[j].used && c[|c| - 1].used
    ensures j < |AbsorbChain(c, j)| && AbsorbChain(c, j)[j].addr == c[j].addr
    ensures JoinBins(c, bins, j) == FileIn(AbsorbBins(c, bins, j), AbsorbChain(c, j)[j].size, c[j].addr)
  {
    AbsorbElements(c, j);
  }

  lemma AbsorbLeaves(c: seq<Block>, bins: seq<seq<nat>>, j: nat, x: nat)
    requires j + 1 < |c| && NotEntered(bins, x)
    ensures NotEntered(AbsorbBins(c, bins, j), x)
  {
  }

  /** The chain and the lists once `c[i]` has been cut to `s` bytes and the rest filed. */
  function SplitChain(c: seq<Block>, i: nat, s: nat): seq<Block>
    requires i + 1 < |c| && s <= c[i].size
  {
    CutElements(c, i, s);
    AbsorbChain(Cut(c, i, s), i + 1)
  }

  ghost function SplitBins(c: seq<Block>, bins: seq<seq<nat>>, i: nat, s: nat): seq<seq<nat>>
    requires i + 1 < |c| && s <= c[i].size
  {
    CutElements(c, i, s);
    JoinBins(Cut(c, i, s), bins, i + 1)
  }

  lemma SplitElements(c: seq<Block>, i: nat, s: nat)
    requires i + 1 < |c| && s <= c[i].size && c[|c| - 1].used
    ensures var m := Cut(c, i, s);
            |m| == |c| + 1 && m[i + 2] == c[i + 1] && m[i + 1] == Block(c[i].addr + s, c[i].size - s, false)
              && m[|m| - 1].used
    ensures var m := SplitChain(c, i, s);
            && i + 2 < |m| && m[i] == Block(c[i].addr, s, false)
            && m[i + 1] == Block(c[i].addr + s, c[i].size - s + (if c[i + 1].used then 0 else c[i + 1].size), false)
  {
    CutElements(c, i, s);
    if !c[i + 1].used { MergedElements(Cut(c, i, s), i + 2); }
  }

  lemma SplitForms(c: seq<Block>, bins: seq<seq<nat>>, i: nat, s: nat)
    requires i + 1 < |c| && s <= c[i].size
    ensures i + 2 < |Cut(c, i, s)|
    ensures SplitChain(c, i, s) == AbsorbChain(Cut(c, i, s), i + 1)
            && SplitBins(c, bins, i, s) == JoinBins(Cut(c, i, s), bins, i + 1)
  {
    CutElements(c, i, s);
  }

  lemma CutFrame(m: Mem, pool: nat, c: seq<Block>, i: nat, s: nat)
    requires i < |c| - 1 && s <= c[i].size
    requires c[i].addr + 12 in m && c[i + 1].addr + 8 in m && c[i].addr + s + 8 in m && c[i].addr + s + 12 in m
    ensures Frame(m, CutWrites(m, c[i].addr, c[i].addr + s, c[i + 1].addr, s, c[i].size - s), pool,
            Addrs(c) + {c[i].addr + s})
  {
    var m1 := CutWrites(m, c[i].addr, c[i].addr + s, c[i + 1].addr, s, c[i].size - s);
    assert m1.Keys == m.Keys;
    AddrIn(c, i);
    AddrIn(c, i + 1);
  }

  lemma FrameRefl(m: Mem, pool: nat, nodes: set<int>)
    ensures Frame(m, m, pool, nodes)
  {
  }

  lemma EndUsed(c: seq<Block>, first: nat, end: nat)
    requires Tiles(c, first, end)
    ensures |c| >= 2 && c[|c| - 1].used && forall i | 0 <= i < |c| && !c[i].used :: i < |c| - 1
  {
  }

  // ---------------------------------------------------------------- freeing

  /** First node of the run that freeing `c[i]` joins, and the node after the run. */
  function RunStart(c: seq<Block>, i: nat): (lo: nat)
    requires i < |c|
    ensures lo <= i
  {
    if i > 0 && !c[i - 1].used then i - 1 else i
  }

  function RunEnd(c: seq<Block>, i: nat): (hi: nat)
    requires i + 1 < |c|
    ensures i < hi <= |c|
  {
    if c[i + 1].used then i + 1 else i + 2
  }

  /** The free node that freeing `c[i]` leaves behind. */
  function Run(c: seq<Block>, i: nat): Block
    requires i + 1 < |c|
  {
    Block(c[RunStart(c, i)].addr,
          (if RunStart(c, i) < i then c[i - 1].size else 0) + c[i].size + (if c[i + 1].used then 0 else c[i + 1].size),
            false)
  }

  /** The chain after freeing `c[i]`: the freed node and its free neighbours are one free node. */
  function Coalesced(c: seq<Block>, i: nat): seq<Block>
    requires i + 1 < |c|
  {
    c[..RunStart(c, i)] + [Run(c, i)] + c[RunEnd(c, i)..]
  }

  /** The merges that `osMemFreeNode` performs amount to one coalescing. */
  lemma MergesCoalesce(c: seq<Block>, i: nat)
    requires i < |c| - 1 && c[|c| - 1].used
    ensures var f := Flagged(c, i, false);
            Coalesced(c, i) == if RunStart(c, i) < i then AbsorbChain(Merged(f, i), i - 1) else AbsorbChain(f, i)
  {
    var f := Flagged(c, i, false);
    if RunStart(c, i) < i {
      MergedElements(f, i);
      var m := Merged(f, i);
      if !c[i + 1].used {
        MergedElements(m, i);
        assert Merged(m, i) == Coalesced(c, i);
      } else {
        assert m == Coalesced(c, i);
      }
    } else if !c[i + 1].used {
      MergedElements(f, i + 1);
      assert Merged(f, i + 1) == Coalesced(c, i);
    } else {
      assert f == Coalesced(c, i);
    }
  }

  lemma CoalescedElements(c: seq<Block>, i: nat)
    requires i < |c| - 1 && c[|c| - 1].used
    ensures RunEnd(c, i) < |c|
    ensures var m, lo, hi := Coalesced(c, i), RunStart(c, i), RunEnd(c, i);
            && |m| == |c| - (hi - lo) + 1
            && (forall j | 0 <= j < lo :: m[j] == c[j])
            && m[lo] == Run(c, i)
            && (forall j | lo < j < |m| :: m[j] == c[j + (hi - lo) - 1])
  {
    var b := Run(c, i);
    assert RunEnd(c, i) < |c|;
    hide Run, RunStart, RunEnd;
    Spliced(c, RunStart(c, i), RunEnd(c, i), b);
  }

  lemma Spliced(c: seq<Block>, lo: nat, hi: nat, b: Block)
    requires lo < hi <= |c|
    ensures var m := c[..lo] + [b] + c[hi..];
            && |m| == |c| - (hi - lo) + 1 && (forall j | 0 <= j < lo :: m[j] == c[j]) && m[lo] == b
            && (forall j | lo < j < |m| :: m[j] == c[j + (hi - lo) - 1])
  {
  }

  /** The free neighbours that freeing `c[i]` absorbs. */
  ghost function Absorbed(c: seq<Block>, i: nat): set<Block>
    requires i + 1 < |c|
  {
    (if RunStart(c, i) < i then {c[i - 1]} else {}) + (if c[i + 1].used then {} else {c[i + 1]})
  }

  lemma CoalescedFree(c: seq<Block>, first: nat, end: nat, i: nat)
    requires Tiles(c, first, end) && i < |c| - 1 && c[i].used
    ensures FreeSet(Coalesced(c, i)) == FreeSet(c) - Absorbed(c, i) + {Run(c, i)}
    ensures Absorbed(c, i) <= FreeSet(c)
  {
    CoalescedElements(c, i);
    var m, lo, hi := Coalesced(c, i), RunStart(c, i), RunEnd(c, i);
    hide Tiles, Coalesced, RunStart, RunEnd, Absorbed, Run;
    forall b | b in FreeSet(m) ensures b == Run(c, i) || (b in FreeSet(c) && b !in Absorbed(c, i)) {
      var j :| 0 <= j < |m| && m[j] == b;
      if j != lo {
        OutsideRun(c, first, end, i, if j < lo then j else j + (hi - lo) - 1);
      }
    }
    AbsorbedPlaces(c, first, end, i);
    forall b | b in FreeSet(c) && b !in Absorbed(c, i) ensures b in FreeSet(m) {
      var j :| 0 <= j < |c| && c[j] == b;
      assert j < lo || j >= hi;
      assert m[if j < lo then j else j - (hi - lo) + 1] == b;
    }
    assert m[lo] in m;
  }

  lemma AbsorbedPlaces(c: seq<Block>, first: nat, end: nat, i: nat)
    requires Tiles(c, first, end) && i < |c| - 1 && c[i].used
    ensures forall j | RunStart(c, i) <= j < RunEnd(c, i) && !c[j].used :: c[j] in Absorbed(c, i)
    ensures Absorbed(c, i) <= FreeSet(c) && !Run(c, i).used
  {
  }

  lemma OutsideRun(c: seq<Block>, first: nat, end: nat, i: nat, j: nat)
    requires Tiles(c, first, end) && i < |c| - 1 && j < |c| && (j < RunStart(c, i) || RunEnd(c, i) <= j)
    ensures c[j] in c && c[j] !in Absorbed(c, i)
  {
    Two(c, first, end, j, i + 1);
    if RunStart(c, i) < i { Two(c, first, end, j, i - 1); }
  }

  lemma CoalescedNeighbours(c: seq<Block>, first: nat, end: nat, i: nat)
    requires Tiles(c, first, end) && i < |c| - 1 && c[i].used && NoFreeNeighbours(c)
    ensures NoFreeNeighbours(Coalesced(c, i))
  {
    CoalescedElements(c, i);
    var m, lo, hi := Coalesced(c, i), RunStart(c, i), RunEnd(c, i);
    if lo > 0 && lo < i { assert c[lo - 1].used || c[lo].used; }
    if hi == i + 2 { assert c[i + 1].used || c[i + 2].used; }
    forall j | 0 <= j < |m| - 1 ensures m[j].used || m[j + 1].used {
      if j + 1 < lo { assert c[j].used || c[j + 1].used; }
      else if j > lo { assert c[j + (hi - lo) - 1].used || c[j + (hi - lo)].used; }
    }
  }

  lemma IndexedListed(c: seq<Block>, bins: seq<seq<nat>>, j: nat)
    requires Indexed(c, bins) && j < |c| && !c[j].used
    ensures ListedUnder(bins, c[j])
  {
  }

  lemma UsedNotEntered(c: seq<Block>, first: nat, end: nat, bins: seq<seq<nat>>, i: nat)
    requires Tiles(c, first, end) && Indexed(c, bins) && i < |c| && c[i].used
    ensures NotEntered(bins, c[i].addr)
  {
    forall k | 0 <= k < LISTS ensures c[i].addr !in bins[k] {
      if c[i].addr in bins[k] {
        var b :| b in c && !b.used && b.addr == c[i].addr && Head(b.size) == k;
        SameBlock(c, first, end, b, c[i]);
      }
    }
  }

  /** The lists after freeing `c[i]`: absorbed neighbours leave, the joined node enters. */
  ghost predicate FreedBins(c: seq<Block>, bins: seq<seq<nat>>, bins': seq<seq<nat>>, i: nat)
    requires i + 1 < |c|
  {
    && |bins| == LISTS && |bins'| == LISTS
    && forall k, y | 0 <= k < LISTS :: y in bins'[k] <==>
         (y in bins[k] && forall b | b in Absorbed(c, i) :: y != b.addr)
           || (y == Run(c, i).addr && k == Head(Run(c, i).size))
  }

  lemma FreedIndexed(c: seq<Block>, first: nat, end: nat, bins: seq<seq<nat>>, bins': seq<seq<nat>>, i: nat)
    requires Tiles(c, first, end) && Indexed(c, bins) && i < |c| - 1 && c[i].used
    requires FreedBins(c, bins, bins', i) && Run(c, i).Fits()
    ensures Indexed(Coalesced(c, i), bins')
  {
    CoalescedFree(c, first, end, i);
    var added := {Run(c, i)};
    forall k, y | 0 <= k < LISTS
      ensures Filed(added, k, y) <==> (y == Run(c, i).addr && k == Head(Run(c, i).size))
    {
      assert Run(c, i) in added;
    }
    IndexedAfter(c, Coalesced(c, i), bins, bins', Absorbed(c, i), added, first, end);
  }

  lemma TakenOffMembers(c: seq<Block>, bins: seq<seq<nat>>, b: Block)
    requires Entered(c, bins) && ListedUnder(bins, b)
    ensures Entered(c, TakeOff(bins, b)) && NotEntered(TakeOff(bins, b), b.addr)
    ensures forall k, y | 0 <= k < LISTS :: y in TakeOff(bins, b)[k] <==> y in bins[k] && y != b.addr
  {
    UnlistMembers(c, bins, Head(b.size), b.addr);
    RemoveEntered(c, bins, Head(b.size), PlaceOf(bins[Head(b.size)], b.addr));
  }

  lemma FiledMembers(bins: seq<seq<nat>>, b: Block)
    requires |bins| == LISTS && b.Fits()
    ensures |FileIn(bins, b.size, b.addr)| == LISTS
    ensures forall k, y | 0 <= k < LISTS ::
              y in FileIn(bins, b.size, b.addr)[k] <==> y in bins[k] || (k == Head(b.size) && y == b.addr)
  {
    HeadInRange(b.size);
    InsertMembers(bins, Head(b.size), b.addr);
  }

  lemma TakeOffOther(c: seq<Block>, bins: seq<seq<nat>>, b: Block, other: Block)
    requires Entered(c, bins) && ListedUnder(bins, b) && ListedUnder(bins, other) && b.addr != other.addr
    ensures ListedUnder(TakeOff(bins, b), other)
  {
    TakenOffMembers(c, bins, b);
  }

  /** The lists that `osMemFreeNode` leaves when the node before is free. */
  lemma FreedBinsIntoPre(c: seq<Block>, bins: seq<seq<nat>>, i: nat)
    requires 0 < i < |c| - 1 && Entered(c, bins) && !c[i - 1].used && ListedUnder(bins, c[i - 1])
    requires c[i - 1].addr != c[i + 1].addr && (!c[i + 1].used ==> ListedUnder(bins, c[i + 1]))
    requires Run(c, i).Fits()
    ensures var b := TakeOff(if c[i + 1].used then bins else TakeOff(bins, c[i + 1]), c[i - 1]);
            FreedBins(c, bins, FileIn(b, Run(c, i).size, c[i - 1].addr), i)
  {
    var b1 := if c[i + 1].used then bins else TakeOff(bins, c[i + 1]);
    if !c[i + 1].used {
      TakenOffMembers(c, bins, c[i + 1]);
      TakeOffOther(c, bins, c[i + 1], c[i - 1]);
    }
    TakenOffMembers(c, b1, c[i - 1]);
    FiledMembers(TakeOff(b1, c[i - 1]), Run(c, i));
    assert RunStart(c, i) == i - 1;
    hide TakeOff, FileIn, Entered, NotEntered, ListedUnder;
  }

  /** The lists that `osMemFreeNode` leaves when the node before is used or missing. */
  lemma FreedBinsAlone(c: seq<Block>, bins: seq<seq<nat>>, i: nat)
    requires i < |c| - 1 && Entered(c, bins) && RunStart(c, i) == i
    requires !c[i + 1].used ==> ListedUnder(bins, c[i + 1])
    requires Run(c, i).Fits()
    ensures FreedBins(c, bins,
            FileIn(if c[i + 1].used then bins else TakeOff(bins, c[i + 1]), Run(c, i).size, c[i].addr), i)
  {
    var b1 := if c[i + 1].used then bins else TakeOff(bins, c[i + 1]);
    if !c[i + 1].used {
      TakenOffMembers(c, bins, c[i + 1]);
    }
    FiledMembers(b1, Run(c, i));
    hide TakeOff, FileIn, Entered, NotEntered, ListedUnder;
  }

  /** The lists that `osMemFreeNode` leaves when it joins the node before. */
  ghost function PreBins(c: seq<Block>, bins: seq<seq<nat>>, i: nat): seq<seq<nat>>
    requires 0 < i && i + 1 < |c|
  {
    FileIn(TakeOff(if c[i + 1].used then bins else TakeOff(bins, c[i + 1]), c[i - 1]), Run(c, i).size, c[i - 1].addr)
  }

  /** ... and in either branch. */
  ghost function FreeBins(c: seq<Block>, bins: seq<seq<nat>>, i: nat): seq<seq<nat>>
    requires i + 1 < |c|
  {
    if RunStart(c, i) < i then PreBins(c, bins, i) else JoinBins(c, bins, i)
  }

  lemma PreBinsForm(c: seq<Block>, bins: seq<seq<nat>>, i: nat)
    requires 0 < i < |c| - 1 && !c[i - 1].used && c[|c| - 1].used
    ensures |Merged(c, i)| == |c| - 1 && !Merged(c, i)[i - 1].used
    ensures i < |AbsorbChain(Merged(c, i), i - 1)|
    ensures var m := AbsorbChain(Merged(c, i), i - 1)[i - 1];
            && m.addr == c[i - 1].addr && !m.used
            && PreBins(c, bins, i) == FileIn(TakeOff(AbsorbBins(Merged(c, i), bins, i - 1), c[i - 1]), m.size,
               c[i - 1].addr)
  {
    MergedElements(c, i);
    AbsorbElements(Merged(c, i), i - 1);
    hide TakeOff, FileIn;
  }

  lemma PreStays(c: seq<Block>, pool: nat, end: nat, bins: seq<seq<nat>>, i: nat)
    requires Tiles(c, pool + FIRST_OFFSET, end) && Entered(c, bins) && 0 < i < |c| - 1
    requires ListedUnder(bins, c[i - 1]) && (!c[i + 1].used ==> ListedUnder(bins, c[i + 1]))
    ensures |Merged(c, i)| == |c| - 1 && ListedUnder(AbsorbBins(Merged(c, i), bins, i - 1), c[i - 1])
  {
    MergedElements(c, i);
    Two(c, pool + FIRST_OFFSET, end, i - 1, i + 1);
    if !c[i + 1].used { TakeOffOther(c, bins, c[i + 1], c[i - 1]); }
  }

  lemma FreeBinsFlag(c: seq<Block>, bins: seq<seq<nat>>, i: nat)
    requires i + 1 < |c|
    ensures FreeBins(Flagged(c, i, false), bins, i) == FreeBins(c, bins, i)
  {
    hide TakeOff, FileIn;
    var f := Flagged(c, i, false);
    assert RunStart(f, i) == RunStart(c, i) && Run(f, i) == Run(c, i) && f[i + 1] == c[i + 1];
    assert i > 0 ==> f[i - 1] == c[i - 1];
  }

  lemma Mod4Sum(a: nat, b: nat, c: nat)
    requires a % 4 == 0 && b % 4 == 0 && c % 4 == 0
    ensures (a + b + c) % 4 == 0
  {
  }

  lemma RunFits(c: seq<Block>, first: nat, end: nat, i: nat)
    requires Tiles(c, first, end) && i < |c| - 1
    ensures Run(c, i).Fits()
  {
    EndUsed(c, first, end);
    var lo, hi := RunStart(c, i), RunEnd(c, i);
    var p := if lo < i then c[i - 1].size else 0;
    var n := if c[i + 1].used then 0 else c[i + 1].size;
    Two(c, first, end, i, i + 1);
    Two(c, first, end, lo, i);
    Two(c, first, end, i + 1, hi);
    assert first <= c[lo].addr && c[hi].addr <= end && end - first < USED_FLAG by { NodesInside(c, first, end); }
    hide Tiles;
    assert c[lo].addr + p == c[i].addr && c[i].End() + n == c[hi].addr;
    Mod4Sum(p, c[i].size, n);
  }

  lemma FreeBinsFreed(c: seq<Block>, pool: nat, end: nat, bins: seq<seq<nat>>, i: nat)
    requires Tiles(c, pool + FIRST_OFFSET, end) && Entered(c, bins) && Indexed(c, bins) && i < |c| - 1 && c[i].used
    ensures FreedBins(c, bins, FreeBins(c, bins, i), i)
  {
    hide FreedBins, TakeOff, FileIn, Indexed, Entered, ListedUnder;
    RunFits(c, pool + FIRST_OFFSET, end, i);
    if !c[i + 1].used { IndexedListed(c, bins, i + 1); }
    if RunStart(c, i) < i {
      IndexedListed(c, bins, i - 1);
      Two(c, pool + FIRST_OFFSET, end, i - 1, i + 1);
      FreedBinsIntoPre(c, bins, i);
    } else {
      FreedBinsAlone(c, bins, i);
    }
  }

  /** Freeing a used node keeps the index exact and leaves no two free neighbours. */
  lemma FreeKeepsIndex(c: seq<Block>, pool: nat, end: nat, bins: seq<seq<nat>>, i: nat)
    requires Tiles(c, pool + FIRST_OFFSET, end) && Entered(c, bins) && Indexed(c, bins) && NoFreeNeighbours(c)
    requires i < |c| - 1 && c[i].used
    ensures Indexed(Coalesced(c, i), FreeBins(c, bins, i)) && NoFreeNeighbours(Coalesced(c, i))
  {
    hide *;
    RunFits(c, pool + FIRST_OFFSET, end, i);
    FreeBinsFreed(c, pool, end, bins, i);
    FreedIndexed(c, pool + FIRST_OFFSET, end, bins, FreeBins(c, bins, i), i);
    CoalescedNeighbours(c, pool + FIRST_OFFSET, end, i);
  }

  // ---------------------------------------------------------------- searching

  /** No entry of `l` is a node of at least `need` bytes. */
  ghost predicate Small(c: seq<Block>, l: seq<nat>, need: nat)
  {
    forall b | b in c && b.addr in l :: b.size < need
  }

  ghost predicate NoFit(c: seq<Block>, need: nat)
  {
    forall b | b in c && !b.used :: b.size < need
  }

  /** The `p`-th entry of list `k` is the first that is large enough, counting from the list of `need` upwards. */
  ghost predicate FirstFit(c: seq<Block>, bins: seq<seq<nat>>, need: nat, k: nat, p: nat)
  {
    && |bins| == LISTS && 0 <= Head(need) <= k < LISTS && p < |bins[k]|
    && (forall b | b in c && b.addr == bins[k][p] :: b.size >= need)
    && Small(c, bins[k][..p], need)
    && (forall j | Head(need) <= j < k :: Small(c, bins[j], need))
  }

  /** The node at `a` is the one that the search from the list of `need` upwards meets first. */
  ghost predicate MetFirst(c: seq<Block>, bins: seq<seq<nat>>, need: nat, a: nat)
  {
    exists k: nat, p: nat :: FirstFit(c, bins, need, k, p) && bins[k][p] == a
  }

  /** The lists below the one of `need` cannot hold a fit, so an upward search without success means there is none. */
  lemma SearchComplete(c: seq<Block>, first: nat, end: nat, bins: seq<seq<nat>>, need: nat)
    requires Tiles(c, first, end) && Indexed(c, bins) && need < WORD
    requires Head(need) >= 0 ==> forall j | Head(need) <= j < LISTS :: Small(c, bins[j], need)
    ensures NoFit(c, need)
  {
    Log2IsFloorLog2(need);
    forall b | b in c && !b.used ensures b.size < need {
      var i :| 0 <= i < |c| && c[i] == b;
      assert c[i].Fits();
      HeadInRange(b.size);
      if 0 <= Head(need) <= Head(b.size) {
        assert Small(c, bins[Head(b.size)], need);
      } else if need <= b.size {
        HeadMonotone(need, b.size);
      }
    }
  }

  /** An entry is the address of exactly one block of the chain, and that block is free. */
  lemma EntryFree(c: seq<Block>, first: nat, end: nat, bins: seq<seq<nat>>, k: nat, p: nat)
    requires Tiles(c, first, end) && Indexed(c, bins) && k < LISTS && p < |bins[k]|
    ensures forall b | b in c && b.addr == bins[k][p] :: !b.used && Head(b.size) == k
    ensures bins[k][p] >= first
  {
    assert bins[k][p] in bins[k];
    var f :| f in c && !f.used && f.addr == bins[k][p] && Head(f.size) == k;
    forall b | b in c && b.addr == bins[k][p] ensures b == f {
      SameBlock(c, first, end, b, f);
    }
    var i :| 0 <= i < |c| && c[i] == f;
    NodesInside(c, first, end);
  }

  lemma SmallGrows(c: seq<Block>, l: seq<nat>, p: nat, need: nat)
    requires p < |l| && Small(c, l[..p], need) && forall b | b in c && b.addr == l[p] :: b.size < need
    ensures Small(c, l[..p + 1], need)
  {
    assert l[..p + 1] == l[..p] + [l[p]];
  }

  lemma SmallEmpty(c: seq<Block>, l: seq<nat>, need: nat)
    requires l == []
    ensures Small(c, l, need)
  {
  }

  // ---------------------------------------------------------------- allocating

  /** `OS_MEM_ALIGN(uwSize + OS_MEM_NODE_HEAD_SIZE, OS_MEM_ALIGN_SIZE)` in 32-bit arithmetic. */
  function AllocSize(uwSize: nat): (s: nat)
    ensures s % 4 == 0 && s < WORD
    ensures uwSize + HEAD_SIZE + 3 < WORD ==> uwSize + HEAD_SIZE <= s < uwSize + HEAD_SIZE + 4
  {
    ((uwSize + HEAD_SIZE + ALIGN_SIZE - 1) % WORD) / 4 * 4
  }

  predicate Splits(size: nat, need: nat) { need + HEAD_SIZE + ALIGN_SIZE <= size }

  /** The chain after allocating `need` bytes from the free node `c[i]`. */
  function AllocChain(c: seq<Block>, i: nat, need: nat): seq<Block>
    requires i < |c|
  {
    if Splits(c[i].size, need)
    then c[..i] + [Block(c[i].addr, need, true), Block(c[i].addr + need, c[i].size - need, false)] + c[i + 1..]
    else Flagged(c, i, true)
  }

  /** An allocated node has room for what was asked for, and not another node's worth more. */
  lemma AllocFits(c: seq<Block>, i: nat, need: nat)
    requires i < |c| && need <= c[i].size
    ensures i < |AllocChain(c, i, need)|
    ensures need <= AllocChain(c, i, need)[i].size < need + HEAD_SIZE + ALIGN_SIZE
  {
  }

  ghost function AllocBins(c: seq<Block>, bins: seq<seq<nat>>, i: nat, need: nat): seq<seq<nat>>
    requires i < |c|
  {
    TakeOff(if Splits(c[i].size, need) then FileIn(bins, c[i].size - need, c[i].addr + need) else bins, c[i])
  }

  lemma AllocElements(c: seq<Block>, i: nat, need: nat)
    requires i < |c|
    ensures Splits(c[i].size, need) ==>
              var m := AllocChain(c, i, need);
              && |m| == |c| + 1 && (forall j | 0 <= j < i :: m[j] == c[j])
              && m[i] == Block(c[i].addr, need, true) && m[i + 1] == Block(c[i].addr + need, c[i].size - need, false)
              && (forall j | i + 2 <= j < |m| :: m[j] == c[j - 1])
  {
  }

  ghost function AllocRest(c: seq<Block>, i: nat, need: nat): set<Block>
    requires i < |c|
  {
    if Splits(c[i].size, need) then {Block(c[i].addr + need, c[i].size - need, false)} else {}
  }

  lemma AllocFree(c: seq<Block>, first: nat, end: nat, i: nat, need: nat)
    requires Tiles(c, first, end) && i < |c| && !c[i].used
    ensures FreeSet(AllocChain(c, i, need)) == FreeSet(c) - {c[i]} + AllocRest(c, i, need)
  {
    AllocElements(c, i, need);
    var m := AllocChain(c, i, need);
    var s := if Splits(c[i].size, need) then 1 else 0;
    hide Tiles;
    forall b | b in FreeSet(m) ensures b in FreeSet(c) - {c[i]} + AllocRest(c, i, need) {
      var j :| 0 <= j < |m| && m[j] == b;
      if j < i || j > i + s {
        var j' := if j < i then j else j - s;
        assert c[j'] == b;
        Two(c, first, end, j', i);
      }
    }
    forall b | b in FreeSet(c) && b != c[i] ensures b in FreeSet(m) {
      var j :| 0 <= j < |c| && c[j] == b;
      assert m[if j < i then j else j + s] == b;
    }
    if Splits(c[i].size, need) { assert m[i + 1] in m; }
  }

  lemma AllocNeighbours(c: seq<Block>, i: nat, need: nat)
    requires i < |c| - 1 && !c[i].used && NoFreeNeighbours(c)
    ensures c[i + 1].used && NoFreeNeighbours(AllocChain(c, i, need))
  {
    AllocElements(c, i, need);
    assert c[i].used || c[i + 1].used;
    var m := AllocChain(c, i, need);
    var s := if Splits(c[i].size, need) then 1 else 0;
    forall j | 0 <= j < |m| - 1 ensures m[j].used || m[j + 1].used {
      if j + 1 < i { assert c[j].used || c[j + 1].used; }
      else if j > i + s { assert c[j - s].used || c[j - s + 1].used; }
    }
  }

  lemma AllocBinsMembers(c: seq<Block>, first: nat, end: nat, bins: seq<seq<nat>>, i: nat, need: nat)
    requires Tiles(c, first, end) && Entered(c, bins) && i < |c| - 1 && ListedUnder(bins, c[i])
    requires HEAD_SIZE <= need && need % 4 == 0
    ensures |AllocBins(c, bins, i, need)| == LISTS
    ensures forall k, y | 0 <= k < LISTS :: y in AllocBins(c, bins, i, need)[k] <==>
              (y in bins[k] && y != c[i].addr) || Filed(AllocRest(c, i, need), k, y)
  {
    hide *;
    EnteredLists(c, bins);
    NodeFitsAt(c, first, end, i);
    SplitsForms(c, bins, i, need);
    if Splits(c[i].size, need) {
      var r := Block(c[i].addr + need, c[i].size - need, false);
      RestFits(c[i], need);
      CutEntered(c, first, end, bins, i, need);
      FiledMembers(bins, r);
      FileInKeeps(c, bins, r.size, r.addr, c[i]);
      TakenOffMembers(Cut(c, i, need), FileIn(bins, r.size, r.addr), c[i]);
      FiledOne(r);
    } else {
      TakenOffMembers(c, bins, c[i]);
      FiledNone();
    }
  }

  lemma EnteredLists(c: seq<Block>, bins: seq<seq<nat>>)
    requires Entered(c, bins)
    ensures |bins| == LISTS
  {
  }

  lemma NodeFitsAt(c: seq<Block>, first: nat, end: nat, i: nat)
    requires Tiles(c, first, end) && i < |c|
    ensures c[i].Fits()
  {
  }

  lemma RestFits(b: Block, need: nat)
    requires b.Fits() && Splits(b.size, need) && HEAD_SIZE <= need && need % 4 == 0
    ensures need + HEAD_SIZE <= b.size && Block(b.addr + need, b.size - need, false).Fits() && b.addr + need != b.addr
  {
  }

  lemma SplitsForms(c: seq<Block>, bins: seq<seq<nat>>, i: nat, need: nat)
    requires i < |c|
    ensures Splits(c[i].size, need) ==>
              && need <= c[i].size
              && AllocBins(c, bins, i, need) == TakeOff(FileIn(bins, c[i].size - need, c[i].addr + need), c[i])
              && AllocRest(c, i, need) == {Block(c[i].addr + need, c[i].size - need, false)}
    ensures !Splits(c[i].size, need) ==>
              AllocBins(c, bins, i, need) == TakeOff(bins, c[i]) && AllocRest(c, i, need) == {}
  {
    hide TakeOff, FileIn;
  }

  lemma FiledNone()
    ensures forall k: int, y: nat :: !Filed({}, k, y)
  {
  }

  lemma FiledOne(b: Block)
    ensures forall k: int, y: nat :: Filed({b}, k, y) <==> y == b.addr && k == Head(b.size)
  {
    assert b in {b};
  }

  lemma CutEntered(c: seq<Block>, first: nat, end: nat, bins: seq<seq<nat>>, i: nat, s: nat)
    requires Tiles(c, first, end) && Entered(c, bins) && i < |c| - 1
    requires HEAD_SIZE <= s && s + HEAD_SIZE <= c[i].size && s % 4 == 0
    ensures Entered(Cut(c, i, s), bins)
    ensures Entered(Cut(c, i, s), FileIn(bins, c[i].size - s, c[i].addr + s))
    ensures NotEntered(bins, c[i].addr + s)
  {
    CutAddrs(c, i, s);
    if c[i].addr + s in Addrs(c) {
      var j := AddrIndex(c, c[i].addr + s);
      Two(c, first, end, i, j);
    }
    assert NotEntered(bins, c[i].addr + s);
    HeadInRange(c[i].size - s) by { assert c[i].Fits(); }
    InsertEntered(Cut(c, i, s), bins, Head(c[i].size - s), c[i].addr + s);
  }

  /** Allocating keeps the index exact and leaves no two free neighbours. */
  lemma AllocKeepsIndex(c: seq<Block>, first: nat, end: nat, bins: seq<seq<nat>>, i: nat, need: nat)
    requires Tiles(c, first, end) && Entered(c, bins) && Indexed(c, bins) && NoFreeNeighbours(c)
    requires i < |c| - 1 && !c[i].used && HEAD_SIZE <= need && need % 4 == 0
    ensures Indexed(AllocChain(c, i, need), AllocBins(c, bins, i, need)) && NoFreeNeighbours(AllocChain(c, i, need))
    ensures c[i + 1].used
  {
    IndexedListed(c, bins, i);
    AllocBinsMembers(c, first, end, bins, i, need);
    AllocFree(c, first, end, i, need);
    AllocNeighbours(c, i, need);
    AllocRestFits(c, first, end, i, need);
    assert c[i] in FreeSet(c);
    hide AllocBins, AllocChain, Indexed, Entered, NoFreeNeighbours, AllocRest, FreeSet, Tiles, ListedUnder;
    IndexedAfter(c, AllocChain(c, i, need), bins, AllocBins(c, bins, i, need), {c[i]}, AllocRest(c, i, need), first,
      end);
  }

  lemma AllocRestFits(c: seq<Block>, first: nat, end: nat, i: nat, need: nat)
    requires Tiles(c, first, end) && i < |c| && need % 4 == 0
    ensures forall b | b in AllocRest(c, i, need) :: b.Fits()
  {
    assert c[i].Fits();
  }

  lemma SplitIsCut(c: seq<Block>, bins: seq<seq<nat>>, i: nat, need: nat)
    requires i + 1 < |c| && c[i + 1].used && Splits(c[i].size, need)
    ensures SplitChain(c, i, need) == Cut(c, i, need)
    ensures SplitBins(c, bins, i, need) == FileIn(bins, c[i].size - need, c[i].addr + need)
    ensures |Cut(c, i, need)| == |c| + 1 && Cut(c, i, need)[i].addr == c[i].addr
    ensures Flagged(Cut(c, i, need), i, true) == AllocChain(c, i, need)
  {
    CutElements(c, i, need);
    hide FileIn, TakeOff;
  }

  lemma FileInKeeps(c: seq<Block>, bins: seq<seq<nat>>, size: nat, x: nat, b: Block)
    requires ListedUnder(bins, b)
    ensures ListedUnder(FileIn(bins, size, x), b)
  {
  }

  /** Blocks in use, other than one, are still there with the same payload. */
  ghost predicate OthersKept(m0: Mem, c0: seq<Block>, m1: Mem, c1: seq<Block>, except: nat)
  {
    forall b | b in c0 && b.used && b.addr != except ::
      b in c1 && forall a | InPayload(b, a) && a in m0 :: a in m1 && m1[a] == m0[a]
  }

  lemma PayloadAvoids(c: seq<Block>, pool: nat, end: nat, nodes: set<int>, x: nat, b: Block, a: int)
    requires Tiles(c, pool + FIRST_OFFSET, end) && b in c && InPayload(b, a)
    requires nodes <= Addrs(c) + {x} && (a < x || x + HEAD_SIZE <= a)
    ensures Outside(pool, nodes, a)
  {
    var i :| 0 <= i < |c| && c[i] == b;
    PayloadOutside(c, pool, end, i, a);
  }

  /** The link words of a node that is on no list are free for other use. */
  lemma MagicRep(m: Mem, pool: nat, end: nat, c: seq<Block>, bins: seq<seq<nat>>, i: nat, v: nat, w: nat)
    requires Rep(m, pool, end, c, bins) && i < |c| && NotEntered(bins, c[i].addr)
    requires c[i].addr in m && c[i].addr + 4 in m
    ensures Rep(m[c[i].addr := v][c[i].addr + 4 := w], pool, end, c, bins)
    ensures Frame(m, m[c[i].addr := v][c[i].addr + 4 := w], pool, Addrs(c))
  {
    var x := c[i].addr;
    var m1 := m[x := v][x + 4 := w];
    AddrIn(c, i);
    assert Site(pool, c, x);
    assert m1.Keys == m.Keys;
    HeadersKept(m, m1, pool, end, c, {x});
    LinksFrame(m, m1, pool, end, c, {x});
    forall s | Member(pool, bins, s) ensures SameLinks(m, m1, s) {
      MemberSite(pool, end, c, bins, s, i);
      assert c[i].Fits();
    }
    RingsKept(m, m1, pool, bins);
  }

  /** Allocating from `c[i]` reaches no payload in use. */
  lemma AllocOthers(m0: Mem, c: seq<Block>, m1: Mem, pool: nat, end: nat, i: nat, need: nat)
    requires Tiles(c, pool + FIRST_OFFSET, end) && i < |c| - 1 && !c[i].used && HEAD_SIZE <= need <= c[i].size
    requires Frame(m0, m1, pool, Addrs(c) + {c[i].addr + need})
    ensures OthersKept(m0, c, m1, AllocChain(c, i, need), 0)
  {
    var c1 := AllocChain(c, i, need);
    AllocElements(c, i, need);
    forall b | b in c && b.used
      ensures b in c1 && forall a | InPayload(b, a) && a in m0 :: a in m1 && m1[a] == m0[a]
    {
      var j :| 0 <= j < |c| && c[j] == b;
      assert c1[if j < i || !Splits(c[i].size, need) then j else j + 1] == b;
      Two(c, pool + FIRST_OFFSET, end, i, j);
      if i < j { Two(c, pool + FIRST_OFFSET, end, i, i + 1); Two(c, pool + FIRST_OFFSET, end, i + 1, j); }
      forall a | InPayload(b, a) && a in m0 ensures a in m1 && m1[a] == m0[a] {
        PayloadAvoids(c, pool, end, Addrs(c) + {c[i].addr + need}, c[i].addr + need, b, a);
      }
    }
  }

  /** Chain and lists after the optional cut, before the node is taken. */
  function CutIfWorth(c: seq<Block>, i: nat, need: nat): seq<Block>
    requires i < |c|
  {
    if Splits(c[i].size, need) then Cut(c, i, need) else c
  }

  ghost function CutBins(c: seq<Block>, bins: seq<seq<nat>>, i: nat, need: nat): seq<seq<nat>>
    requires i < |c|
  {
    if Splits(c[i].size, need) then FileIn(bins, c[i].size - need, c[i].addr + need) else bins
  }

  lemma TakeForms(c: seq<Block>, bins: seq<seq<nat>>, i: nat, need: nat)
    requires i + 1 < |c| && c[i + 1].used
    ensures var m := CutIfWorth(c, i, need);
            && i + 1 < |m| && m[i].addr == c[i].addr && Flagged(m, i, true) == AllocChain(c, i, need)
    ensures TakeOff(CutBins(c, bins, i, need), c[i]) == AllocBins(c, bins, i, need)
  {
    hide FileIn, TakeOff;
    if Splits(c[i].size, need) { SplitIsCut(c, bins, i, need); }
  }

  lemma CutForms(c: seq<Block>, bins: seq<seq<nat>>, i: nat, need: nat, b: Block)
    requires i + 1 < |c| && c[i + 1].used && ListedUnder(bins, b)
    ensures Splits(c[i].size, need) ==>
              need <= c[i].size && CutIfWorth(c, i, need) == SplitChain(c, i, need)
              && CutBins(c, bins, i, need) == SplitBins(c, bins, i, need)
    ensures !Splits(c[i].size, need) ==> CutIfWorth(c, i, need) == c && CutBins(c, bins, i, need) == bins
    ensures ListedUnder(CutBins(c, bins, i, need), b)
  {
    if Splits(c[i].size, need) {
      SplitIsCut(c, bins, i, need);
      FileInKeeps(c, bins, c[i].size - need, c[i].addr + need, b);
    }
  }

  /** Writing inside one payload disturbs neither chain nor lists. */
  lemma PayloadRep(m0: Mem, m1: Mem, pool: nat, end: nat, c: seq<Block>, bins: seq<seq<nat>>, j: nat)
    requires Rep(m0, pool, end, c, bins) && j < |c| && m1.Keys == m0.Keys
    requires forall a | a in m0 && !InPayload(c[j], a) :: m1[a] == m0[a]
    ensures Rep(m1, pool, end, c, bins)
  {
    forall i | 0 <= i < |c| ensures HeaderAt(m1, c, i) {
      assert HeaderAt(m0, c, i);
      Two(c, pool + FIRST_OFFSET, end, i, j);
    }
    forall s | Member(pool, bins, s) ensures SameLinks(m0, m1, s) {
      MemberSite(pool, end, c, bins, s, j);
    }
    RingsKept(m0, m1, pool, bins);
  }

  // ---------------------------------------------------------------- a fresh pool

  ghost predicate EmptyHeads(m: Mem, pool: nat, n: nat)
  {
    forall k | 0 <= k < n :: ListHead(pool, k) in m && ListHead(pool, k) + 4 in m
                             && m[ListHead(pool, k)] == ListHead(pool, k)
                                && m[ListHead(pool, k) + 4] == ListHead(pool, k)
  }

  function FreshChain(pool: nat, end: nat): seq<Block>
    requires pool + FIRST_OFFSET <= end
  {
    [Block(pool + FIRST_OFFSET, end - pool - FIRST_OFFSET, false), Block(end, HEAD_SIZE, true)]
  }

  function FreshBins(pool: nat, k: nat): seq<seq<nat>>
  {
    seq(LISTS, j => if j == k then [pool + FIRST_OFFSET] else [])
  }

  lemma FreshPool(m: Mem, pool: nat, end: nat, k: nat)
    requires pool > 0 && pool % 4 == 0 && end % 4 == 0 && pool + FIRST_OFFSET + HEAD_SIZE <= end
             && end + HEAD_SIZE <= WORD
    requires var size := end - pool - FIRST_OFFSET; size < USED_FLAG && Head(size) == k
    requires k < LISTS
    requires forall j | 0 <= j < LISTS && j != k :: ListHead(pool, j) in m && ListHead(pool, j) + 4 in m
                             && m[ListHead(pool, j)] == ListHead(pool, j)
                                && m[ListHead(pool, j) + 4] == ListHead(pool, j)
    requires var h, x := ListHead(pool, k), pool + FIRST_OFFSET;
             && h in m && h + 4 in m && x in m && x + 4 in m && m[h] == x && m[h + 4] == x && m[x] == h && m[x + 4] == h
    requires var x := pool + FIRST_OFFSET; x + 8 in m && x + 12 in m && m[x + 8] == 0 && m[x + 12] == end - x
    requires end + 8 in m && end + 12 in m && m[end + 8] == pool + FIRST_OFFSET && m[end + 12] == HEAD_SIZE + USED_FLAG
    ensures Rep(m, pool, end, FreshChain(pool, end), FreshBins(pool, k))
    ensures Indexed(FreshChain(pool, end), FreshBins(pool, k)) && NoFreeNeighbours(FreshChain(pool, end))
  {
    var c, bins := FreshChain(pool, end), FreshBins(pool, k);
    FreshTiles(pool, end);
    FreshEntered(pool, end, k);
    hide Head, Tiles, Entered, Indexed;
    forall j | 0 <= j < LISTS ensures Ring(m, ListHead(pool, j), bins[j]) {
      forall i | 0 <= i < |bins[j]| + 1 ensures LinkAt(m, RingSeq(ListHead(pool, j), bins[j]), i) {
      }
    }
    assert HeaderAt(m, c, 0) && HeaderAt(m, c, 1);
  }

  lemma FreshTiles(pool: nat, end: nat)
    requires pool % 4 == 0 && end % 4 == 0 && pool + FIRST_OFFSET + HEAD_SIZE <= end && end + HEAD_SIZE <= WORD
    requires end - pool - FIRST_OFFSET < USED_FLAG
    ensures Tiles(FreshChain(pool, end), pool + FIRST_OFFSET, end) && NoFreeNeighbours(FreshChain(pool, end))
  {
    var c := FreshChain(pool, end);
    Mod4Less(end, pool + FIRST_OFFSET);
    assert c[0].End() == c[1].addr;
  }

  lemma FreshEntered(pool: nat, end: nat, k: nat)
    requires pool + FIRST_OFFSET <= end && k < LISTS && Head(end - pool - FIRST_OFFSET) == k
    ensures Entered(FreshChain(pool, end), FreshBins(pool, k)) && Indexed(FreshChain(pool, end), FreshBins(pool, k))
  {
    hide Head;
    var c, bins := FreshChain(pool, end), FreshBins(pool, k);
    assert c[0] in c && c[1] in c && c[0].addr in Addrs(c);
    assert bins[k] == [c[0].addr];
  }

  ghost predicate HeaderWords(m: Mem, a: nat)
  {
    a in m && a + 4 in m && a + 8 in m && a + 12 in m
  }

  /** What `LOS_MemInit` has written once the lists have been initialised: the one free node `x` is on the list
      headed by `h`, and `end` is the sentinel. */
  ghost predicate InitWritten(m0: Mem, m1: Mem, h: nat, x: nat, end: nat)
  {
    && m1.Keys == m0.Keys && HeaderWords(m0, x) && HeaderWords(m0, end) && h in m0 && h + 4 in m0
    && m1[h] == x && m1[h + 4] == x && m1[x] == h && m1[x + 4] == h
    && m1[end + 8] == x && m1[end + 12] == HEAD_SIZE + USED_FLAG
    && forall a | a in m0 && (a < h || h + 8 <= a) && (a < x || x + 8 <= a) && (a < end || end + 16 <= a) ::
         m1[a] == m0[a]
  }

  lemma InitWords(m0: Mem, m1: Mem, pool: nat, end: nat, k: nat)
    requires pool > 0 && pool % 4 == 0 && end % 4 == 0 && pool + FIRST_OFFSET + HEAD_SIZE <= end
             && end + HEAD_SIZE <= WORD
    requires var size := end - pool - FIRST_OFFSET; size < USED_FLAG && Head(size) == k
    requires k < LISTS && EmptyHeads(m0, pool, LISTS)
    requires InitWritten(m0, m1, ListHead(pool, k), pool + FIRST_OFFSET, end)
    requires var x := pool + FIRST_OFFSET; m0[x + 8] == 0 && m0[x + 12] == end - x
    ensures Rep(m1, pool, end, FreshChain(pool, end), FreshBins(pool, k))
    ensures Indexed(FreshChain(pool, end), FreshBins(pool, k)) && NoFreeNeighbours(FreshChain(pool, end))
  {
    hide Rep, Indexed, FreshChain, FreshBins, Head;
    forall j | 0 <= j < LISTS && j != k
      ensures ListHead(pool, j) in m1 && ListHead(pool, j) + 4 in m1
      ensures m1[ListHead(pool, j)] == ListHead(pool, j) && m1[ListHead(pool, j) + 4] == ListHead(pool, j)
    {
      assert ListHead(pool, j) in m0 && ListHead(pool, j) + 4 in m0;
    }
    FreshPool(m1, pool, end, k);
  }

  // ---------------------------------------------------------------- from a pointer back to its node

  predicate WordAt(mem: Mem, a: int) { a in mem && 0 <= mem[a] < WORD }

  predicate AlignedFlag(w: nat) { (w / ALIGNED_FLAG) % 2 == 1 }

  /** The header address that `LOS_MemFree` computes from a pointer, in 32-bit arithmetic: the word before the
      pointer is either the size word of the header or, with the aligned flag, the gap to step back over. */
  function Recovered(mem: Mem, pMem: nat): nat
    requires pMem >= 4 && pMem < WORD && WordAt(mem, pMem - 4)
  {
    var w := mem[pMem - 4];
    var base := if AlignedFlag(w) then (pMem + WORD - (w - ALIGNED_FLAG)) % WORD else pMem;
    (base + WORD - HEAD_SIZE) % WORD
  }

  /** For a pointer straight behind a used header, the header is recovered exactly when the size does not reach
      into the aligned flag; from there on another address is, in 32-bit arithmetic. */
  lemma PlainRecovery(mem: Mem, b: Block)
    requires b.used && b.Fits() && b.addr + HEAD_SIZE < WORD
    requires b.addr + 12 in mem && mem[b.addr + 12] == b.Word()
    ensures Recovered(mem, b.addr + HEAD_SIZE) == b.addr <==> b.size < ALIGNED_FLAG
    ensures b.size >= ALIGNED_FLAG ==> Recovered(mem, b.addr + HEAD_SIZE) == (b.addr + 3 * ALIGNED_FLAG - b.size) % WORD
  {
    var w := b.size + USED_FLAG;
    if b.size < ALIGNED_FLAG {
      assert w / ALIGNED_FLAG == 2;
    } else {
      assert w / ALIGNED_FLAG == 3;
    }
  }

  /** For a pointer behind a gap word, the header is recovered. */
  lemma GapRecovery(mem: Mem, a: nat, gap: nat)
    requires 0 < gap < ALIGNED_FLAG && a + HEAD_SIZE + gap < WORD
    requires a + HEAD_SIZE + gap - 4 in mem && mem[a + HEAD_SIZE + gap - 4] == gap + ALIGNED_FLAG
    ensures Recovered(mem, a + HEAD_SIZE + gap) == a
  {
    var w := gap + ALIGNED_FLAG;
    assert w / ALIGNED_FLAG == 1;
  }

  // ---------------------------------------------------------------- alignment

  ghost predicate PowerOfTwo(n: nat) { exists k: nat :: n == Pow2(k) }

  /** `OS_MEM_ALIGN` for a power of two: the mask form is rounding up to a multiple. */
  function AlignUp(p: nat, boundary: nat): (r: nat)
    requires boundary > 0
    ensures p <= r < p + boundary && r % boundary == 0
  {
    AlignUpBounds(p, boundary);
    (p + boundary - 1) / boundary * boundary
  }

  lemma AlignUpBounds(p: nat, boundary: nat)
    requires boundary > 0
    ensures var r := (p + boundary - 1) / boundary * boundary; p <= r < p + boundary && r % boundary == 0
  {
    var q := (p + boundary - 1) / boundary;
    DivMul(p + boundary - 1, boundary);
    MulMod(q, boundary);
  }

  lemma DivMul(x: nat, n: nat)
    requires n > 0
    ensures x / n * n <= x < x / n * n + n
  {
  }

  lemma MulMod(q: nat, n: nat)
    requires n > 0
    ensures (q * n) % n == 0
  {
    var x := q * n;
    var d := q - x / n;
    assert x == x / n * n + x % n;
    assert d * n == x % n;
    MulBound(d, n);
  }

  lemma MulBound(d: int, n: int)
    requires n > 0
    ensures d >= 1 ==> d * n >= n
    ensures d <= -1 ==> d * n <= -n
  {
  }

  /** Multiples of a power of two from 4 upwards are multiples of 4. */
  lemma AlignedMod4(r: nat, boundary: nat)
    requires PowerOfTwo(boundary) && boundary >= 4 && r % boundary == 0
    ensures r % 4 == 0
  {
    var k: nat :| boundary == Pow2(k);
    assert Pow2(0) == 1 && Pow2(1) == 2;
    assert k >= 2;
    assert Pow2(k) == 2 * Pow2(k - 1) && Pow2(k - 1) == 2 * Pow2(k - 2);
    var m := Pow2(k - 2);
    hide *;
    assert boundary == 4 * m;
    DivExact(r, boundary);
    MulFour(r / boundary, m);
  }

  lemma MulFour(q: nat, m: nat)
    ensures (q * (4 * m)) % 4 == 0
  {
    assert q * (4 * m) == (q * m) * 4;
    MulMod(q * m, 4);
  }

  lemma DivExact(r: nat, n: nat)
    requires n > 0 && r % n == 0
    ensures r == r / n * n
  {
  }

  /** Freeing one block reaches no other payload in use. */
  lemma FreeOthers(m0: Mem, c: seq<Block>, m1: Mem, pool: nat, end: nat, i: nat)
    requires Tiles(c, pool + FIRST_OFFSET, end) && i < |c| - 1 && c[i].used
    requires Frame(m0, m1, pool, Addrs(c))
    ensures OthersKept(m0, c, m1, Coalesced(c, i), c[i].addr)
  {
    EndUsed(c, pool + FIRST_OFFSET, end);
    CoalescedElements(c, i);
    var m, lo, hi := Coalesced(c, i), RunStart(c, i), RunEnd(c, i);
    forall b | b in c && b.used && b.addr != c[i].addr
      ensures b in m && forall a | InPayload(b, a) && a in m0 :: a in m1 && m1[a] == m0[a]
    {
      var j :| 0 <= j < |c| && c[j] == b;
      assert j < lo || j >= hi;
      assert m[if j < lo then j else j - (hi - lo) + 1] == b;
      forall a | InPayload(b, a) && a in m0 ensures a in m1 && m1[a] == m0[a] {
        PayloadOutside(c, pool, end, j, a);
      }
    }
  }

  /** Payloads of different nodes are disjoint: all live payloads are. */
  lemma PayloadsDisjoint(c: seq<Block>, first: nat, end: nat, i: nat, j: nat, a: int)
    requires Tiles(c, first, end) && i < |c| && j < |c| && InPayload(c[i], a) && InPayload(c[j], a)
    ensures i == j && first + HEAD_SIZE <= a < end
  {
    Two(c, first, end, i, j);
    NodesInside(c, first, end);
  }

  lemma OthersKeptByPayload(m0: Mem, c0: seq<Block>, m1: Mem, m2: Mem, c: seq<Block>, first: nat, end: nat, j: nat,
                            except: nat)
    requires Tiles(c, first, end) && j < |c| && OthersKept(m0, c0, m1, c, except)
    requires m2.Keys == m1.Keys && forall a | a in m1 && !InPayload(c[j], a) :: m2[a] == m1[a]
    requires forall b | b in c0 && b.used && b.addr != except :: b != c[j]
    ensures OthersKept(m0, c0, m2, c, except)
  {
    forall b | b in c0 && b.used && b.addr != except
      ensures b in c && forall a | InPayload(b, a) && a in m0 :: a in m2 && m2[a] == m0[a]
    {
      var i :| 0 <= i < |c| && c[i] == b;
      Two(c, first, end, i, j);
    }
  }

  /** A power of two below 2^31 is at most 2^30, and those that move a 4-aligned pointer are multiples of 4. */
  lemma BoundarySteps(p: nat, boundary: nat)
    requires PowerOfTwo(boundary) && boundary < USED_FLAG && p % 4 == 0
    ensures var r := AlignUp(p, boundary);
            r != p ==> 4 <= r - p < ALIGNED_FLAG && r % 4 == 0
  {
    var r := AlignUp(p, boundary);
    var k: nat :| boundary == Pow2(k);
    Pow2Table();
    assert Pow2(31) == USED_FLAG && Pow2(30) == ALIGNED_FLAG;
    if k >= 31 { Pow2Monotone(31, k); } else { Pow2Monotone(k, 30); }
    assert Pow2(0) == 1 && Pow2(1) == 2 && Pow2(2) == 4;
    if k >= 2 {
      Pow2Monotone(2, k);
      AlignedMod4(r, boundary);
    }
  }

  lemma Multiples(a: nat, b: nat)
    requires a % 4 == 0 && b % 4 == 0
    ensures (a + b - HEAD_SIZE) % 4 == 0 && (a + b + HEAD_SIZE) % 4 == 0 && (a + HEAD_SIZE) % 4 == 0
  {
  }

  /** The used node of the chain that is recovered from a pointer. */
  ghost predicate Owns(c: seq<Block>, m: Mem, pMem: nat, i: nat)
  {
    && i < |c| - 1 && c[i].used
    && 4 <= pMem < WORD && WordAt(m, pMem - 4) && c[i].addr == Recovered(m, pMem)
  }

  ghost predicate Owned(c: seq<Block>, m: Mem, pMem: nat)
  {
    exists i :: Owns(c, m, pMem, i)
  }

  lemma NullOwnsNothing(c: seq<Block>, m: Mem)
    ensures !Owned(c, m, 0)
  {
  }

  lemma OwnsNode(c: seq<Block>, m: Mem, pMem: nat, i: nat)
    requires Owns(c, m, pMem, i)
    ensures i < |c| - 1 && c[i].used
  {
  }

  // ---------------------------------------------------------------- resizing in place

  /** Bytes that the used node `c[i]` can have without moving. */
  function Total(c: seq<Block>, i: nat): nat
    requires i + 1 < |c|
  {
    c[i].size + if c[i + 1].used then 0 else c[i + 1].size
  }

  predicate KeepsSize(c: seq<Block>, i: nat, need: nat)
    requires i < |c|
  {
    need <= c[i].size && !Splits(c[i].size, need)
  }

  /** The chain after resizing the used node `c[i]` to `need` bytes in place. */
  function Resized(c: seq<Block>, i: nat, need: nat): seq<Block>
    requires i + 1 < |c|
  {
    if KeepsSize(c, i, need) then c else c[..i] + ResizeMiddle(c, i, need) + c[RunEnd(c, i)..]
  }

  ghost function ResizedBins(c: seq<Block>, bins: seq<seq<nat>>, i: nat, need: nat): seq<seq<nat>>
    requires i + 1 < |c|
  {
    if KeepsSize(c, i, need) then bins
    else
      var b := if c[i + 1].used then bins else TakeOff(bins, c[i + 1]);
      if Splits(Total(c, i), need) then FileIn(b, Total(c, i) - need, c[i].addr + need) else b
  }

  lemma ResizedElements(c: seq<Block>, i: nat, need: nat)
    requires i + 1 < |c| && !KeepsSize(c, i, need)
    ensures var m := Resized(c, i, need);
            var s := if Splits(Total(c, i), need) then 1 else 0; var d := RunEnd(c, i) - i - 1;
            && |m| == |c| + s - d
            && (forall j | 0 <= j < i :: m[j] == c[j])
            && m[i] == Block(c[i].addr, if s == 1 then need else Total(c, i), true)
            && (s == 1 ==> m[i + 1] == Block(c[i].addr + need, Total(c, i) - need, false))
            && (forall j | i + s < j < |m| :: m[j] == c[j - s + d])
  {
    SpliceElements(c, i, ResizeMiddle(c, i, need), RunEnd(c, i));
  }

  /** What stands in the chain for a resized node. */
  function ResizeMiddle(c: seq<Block>, i: nat, need: nat): seq<Block>
    requires i + 1 < |c|
  {
    if Splits(Total(c, i), need)
    then [Block(c[i].addr, need, true), Block(c[i].addr + need, Total(c, i) - need, false)]
    else [Block(c[i].addr, Total(c, i), true)]
  }

  lemma SpliceElements(c: seq<Block>, lo: nat, mid: seq<Block>, hi: nat)
    requires lo <= hi <= |c|
    ensures var m := c[..lo] + mid + c[hi..];
            && |m| == lo + |mid| + |c| - hi
            && (forall j | 0 <= j < lo :: m[j] == c[j])
            && (forall j | lo <= j < lo + |mid| :: m[j] == mid[j - lo])
            && (forall j | lo + |mid| <= j < |m| :: m[j] == c[j - lo - |mid| + hi])
  {
  }

  ghost function ResizeGone(c: seq<Block>, i: nat): set<Block>
    requires i + 1 < |c|
  {
    if c[i + 1].used then {} else {c[i + 1]}
  }

  ghost function ResizeRest(c: seq<Block>, i: nat, need: nat): set<Block>
    requires i + 1 < |c|
  {
    if Splits(Total(c, i), need) then {Block(c[i].addr + need, Total(c, i) - need, false)} else {}
  }

  lemma ResizedFreeIn(c: seq<Block>, first: nat, end: nat, i: nat, need: nat, b: Block)
    requires Tiles(c, first, end) && i < |c| - 1 && c[i].used && !KeepsSize(c, i, need)
             && b in FreeSet(Resized(c, i, need))
    ensures b in ResizeRest(c, i, need) || (b in FreeSet(c) && b !in ResizeGone(c, i))
  {
    ResizedElements(c, i, need);
    var m := Resized(c, i, need);
    var s := if Splits(Total(c, i), need) then 1 else 0;
    var d := RunEnd(c, i) - i - 1;
    var j :| 0 <= j < |m| && m[j] == b;
    hide Tiles, Resized, KeepsSize;
    if j < i || j > i + s {
      var j' := if j < i then j else j - s + d;
      assert c[j'] == b;
      Two(c, first, end, j', i + 1);
    }
  }

  lemma ResizedFreeOut(c: seq<Block>, i: nat, need: nat, b: Block)
    requires i < |c| - 1 && c[i].used && !KeepsSize(c, i, need)
    requires b in ResizeRest(c, i, need) || (b in FreeSet(c) && b !in ResizeGone(c, i))
    ensures b in FreeSet(Resized(c, i, need))
  {
    ResizedElements(c, i, need);
    var m := Resized(c, i, need);
    var s := if Splits(Total(c, i), need) then 1 else 0;
    var d := RunEnd(c, i) - i - 1;
    if b in ResizeRest(c, i, need) {
      assert m[i + 1] in m;
    } else {
      var j :| 0 <= j < |c| && c[j] == b;
      assert m[if j < i then j else j + s - d] == b;
    }
  }

  lemma ResizedFree(c: seq<Block>, first: nat, end: nat, i: nat, need: nat)
    requires Tiles(c, first, end) && i < |c| - 1 && c[i].used && !KeepsSize(c, i, need)
    ensures FreeSet(Resized(c, i, need)) == FreeSet(c) - ResizeGone(c, i) + ResizeRest(c, i, need)
    ensures ResizeGone(c, i) <= FreeSet(c)
  {
    assert ResizeGone(c, i) <= FreeSet(c);
    hide *;
    forall b | b in FreeSet(Resized(c, i, need)) ensures b in FreeSet(c) - ResizeGone(c, i) + ResizeRest(c, i, need) {
      ResizedFreeIn(c, first, end, i, need, b);
    }
    forall b | b in FreeSet(c) - ResizeGone(c, i) + ResizeRest(c, i, need) ensures b in FreeSet(Resized(c, i, need)) {
      ResizedFreeOut(c, i, need, b);
    }
  }

  lemma ResizedNeighbours(c: seq<Block>, first: nat, end: nat, i: nat, need: nat)
    requires Tiles(c, first, end) && i < |c| - 1 && c[i].used && NoFreeNeighbours(c)
    ensures NoFreeNeighbours(Resized(c, i, need))
  {
    EndUsed(c, first, end);
    if !KeepsSize(c, i, need) {
      ResizedElements(c, i, need);
      hide Tiles;
      var m := Resized(c, i, need);
      var s := if Splits(Total(c, i), need) then 1 else 0;
      var d := RunEnd(c, i) - i - 1;
      if d == 1 { assert c[i + 1].used || c[i + 2].used; }
      forall j | 0 <= j < |m| - 1 ensures m[j].used || m[j + 1].used {
        if j + 1 < i { assert c[j].used || c[j + 1].used; }
        else if j > i + s { assert c[j - s + d].used || c[j - s + d + 1].used; }
      }
    }
  }

  lemma ResizedBinsMembers(c: seq<Block>, bins: seq<seq<nat>>, i: nat, need: nat)
    requires i < |c| - 1 && Entered(c, bins) && !KeepsSize(c, i, need)
    requires !c[i + 1].used ==> ListedUnder(bins, c[i + 1])
    requires forall b | b in ResizeRest(c, i, need) :: b.Fits()
    ensures |ResizedBins(c, bins, i, need)| == LISTS
    ensures forall k, y | 0 <= k < LISTS :: y in ResizedBins(c, bins, i, need)[k] <==>
              (y in bins[k] && forall b | b in ResizeGone(c, i) :: y != b.addr) || Filed(ResizeRest(c, i, need), k, y)
  {
    var b1 := if c[i + 1].used then bins else TakeOff(bins, c[i + 1]);
    assert |bins| == LISTS;
    if !c[i + 1].used { TakenOffMembers(c, bins, c[i + 1]); }
    assert |b1| == LISTS;
    if Splits(Total(c, i), need) {
      var r := Block(c[i].addr + need, Total(c, i) - need, false);
      assert r in ResizeRest(c, i, need);
      FiledMembers(b1, r);
      FiledOne(r);
    }
    hide TakeOff, FileIn, Entered, ListedUnder;
  }

  lemma ResizeRestFits(c: seq<Block>, first: nat, end: nat, i: nat, need: nat)
    requires Tiles(c, first, end) && i < |c| - 1 && need % 4 == 0
    ensures forall b | b in ResizeRest(c, i, need) :: b.Fits()
    ensures Total(c, i) < USED_FLAG && Total(c, i) % 4 == 0
  {
    hide *;
    Adjacent(c, first, end, i);
    InsideRange(c, first, end, i);
    InsideRange(c, first, end, i + 1);
    TotalCovers(c, i);
    if !c[i + 1].used {
      EndUsed(c, first, end);
      Adjacent(c, first, end, i + 1);
      Mod4Less(c[i].size, c[i + 1].size);
    }
    Mod4Less(Total(c, i), need);
    Mod4Less(c[i].addr, need);
    ResizeRestHas(c, i, need);
  }

  lemma TotalCovers(c: seq<Block>, i: nat)
    requires i + 1 < |c|
    ensures c[i].size <= Total(c, i)
    ensures c[i + 1].used ==> Total(c, i) == c[i].size
    ensures !c[i + 1].used ==> Total(c, i) == c[i].size + c[i + 1].size
  {
  }

  lemma ResizeRestHas(c: seq<Block>, i: nat, need: nat)
    requires i + 1 < |c| && Total(c, i) < USED_FLAG && (Total(c, i) - need) % 4 == 0 && (c[i].addr + need) % 4 == 0
    ensures forall b | b in ResizeRest(c, i, need) :: b.Fits()
  {
  }

  lemma InsideRange(c: seq<Block>, first: nat, end: nat, i: nat)
    requires Tiles(c, first, end) && i < |c|
    ensures first <= c[i].addr <= end && c[i].addr % 4 == 0 && c[i].size % 4 == 0 && end - first < USED_FLAG
  {
    NodesInside(c, first, end);
    assert c[i].Fits();
  }

  lemma HeadMod4(a: nat)
    requires a % 4 == 0
    ensures (a + HEAD_SIZE) % 4 == 0 && (a - HEAD_SIZE) % 4 == 0
  {
  }

  lemma Mod4Less(a: nat, b: nat)
    requires a % 4 == 0 && b % 4 == 0
    ensures (a - b) % 4 == 0 && (a + b) % 4 == 0
  {
  }

  /** Resizing in place keeps the index exact and leaves no two free neighbours. */
  lemma ResizeKeepsIndex(c: seq<Block>, first: nat, end: nat, bins: seq<seq<nat>>, i: nat, need: nat)
    requires Tiles(c, first, end) && Entered(c, bins) && Indexed(c, bins) && NoFreeNeighbours(c)
    requires i < |c| - 1 && c[i].used && need % 4 == 0
    ensures Indexed(Resized(c, i, need), ResizedBins(c, bins, i, need)) && NoFreeNeighbours(Resized(c, i, need))
  {
    ResizedNeighbours(c, first, end, i, need);
    if !KeepsSize(c, i, need) {
      if !c[i + 1].used { IndexedListed(c, bins, i + 1); }
      hide *;
      ResizeRestFits(c, first, end, i, need);
      ResizedBinsMembers(c, bins, i, need);
      ResizedFree(c, first, end, i, need);
      IndexedAfter(c, Resized(c, i, need), bins, ResizedBins(c, bins, i, need), ResizeGone(c, i),
        ResizeRest(c, i, need), first, end);
    }
  }

  /** The steps of `osMemReAllocSmaller`: clear the flag, split, set the flag again. */
  lemma ShrinkChain(c: seq<Block>, i: nat, need: nat)
    requires i < |c| - 1 && c[i].used && c[|c| - 1].used && Splits(c[i].size, need)
    ensures var m := SplitChain(Flagged(c, i, false), i, need);
            && i < |m| - 1 && m[i].addr == c[i].addr && Flagged(m, i, true) == Resized(c, i, need)
  {
    var f := Flagged(c, i, false);
    CutElements(f, i, need);
    ResizedElements(c, i, need);
    var t := Cut(f, i, need);
    if !c[i + 1].used { MergedElements(t, i + 2); }
    var m := SplitChain(f, i, need);
    hide SplitChain, Merged, Cut, Resized;
    assert Flagged(m, i, true) == Resized(c, i, need);
  }

  lemma ShrinkBins(c: seq<Block>, bins: seq<seq<nat>>, i: nat, need: nat)
    requires i < |c| - 1 && Splits(c[i].size, need)
    ensures SplitBins(Flagged(c, i, false), bins, i, need) == ResizedBins(c, bins, i, need)
  {
    hide TakeOff, FileIn;
    CutElements(Flagged(c, i, false), i, need);
  }

  /** The steps of `osMemMergeNodeForReAllocBigger`: clear the flag, absorb the next node, perhaps cut, set the flag. */
  lemma GrowChain(c: seq<Block>, i: nat, need: nat)
    requires i < |c| - 1 && c[i].used && c[|c| - 1].used && !c[i + 1].used && NoFreeNeighbours(c) && c[i].size < need
    ensures var a := AbsorbChain(Flagged(c, i, false), i);
            && i < |a| - 1 && a[i] == Block(c[i].addr, Total(c, i), false) && a[i + 1].used
            && i < |CutIfWorth(a, i, need)| - 1 && CutIfWorth(a, i, need)[i].addr == c[i].addr
            && Flagged(CutIfWorth(a, i, need), i, true) == Resized(c, i, need)
  {
    GrowAbsorbs(c, i);
    var a := AbsorbChain(Flagged(c, i, false), i);
    hide AbsorbChain, Merged, Resized, NoFreeNeighbours;
    ResizedElements(c, i, need);
    if Splits(Total(c, i), need) {
      CutElements(a, i, need);
      var m := Cut(a, i, need);
      hide Cut;
      assert Flagged(m, i, true) == Resized(c, i, need);
    } else {
      assert Flagged(a, i, true) == Resized(c, i, need);
    }
  }

  lemma GrowAbsorbs(c: seq<Block>, i: nat)
    requires i < |c| - 1 && c[i].used && c[|c| - 1].used && !c[i + 1].used && NoFreeNeighbours(c)
    ensures var a := AbsorbChain(Flagged(c, i, false), i);
            && |a| == |c| - 1 && i < |a| - 1 && a[i] == Block(c[i].addr, Total(c, i), false) && a[i + 1].used
            && (forall j | 0 <= j < i :: a[j] == c[j]) && (forall j | i < j < |a| :: a[j] == c[j + 1])
  {
    assert c[i + 1].used || c[i + 2].used;
    MergedElements(Flagged(c, i, false), i + 1);
    hide Merged;
  }

  lemma GrowBins(c: seq<Block>, bins: seq<seq<nat>>, i: nat, need: nat)
    requires i < |c| - 1 && c[|c| - 1].used && !c[i + 1].used && c[i].size < need
    ensures i < |AbsorbChain(Flagged(c, i, false), i)|
    ensures CutBins(AbsorbChain(Flagged(c, i, false), i), AbsorbBins(Flagged(c, i, false), bins, i), i, need)
            == ResizedBins(c, bins, i, need)
  {
    hide TakeOff, FileIn;
    AbsorbElements(Flagged(c, i, false), i);
  }

  /** Resizing in place reaches no other payload. */
  lemma ResizeOthers(m0: Mem, c: seq<Block>, m1: Mem, pool: nat, end: nat, i: nat, need: nat)
    requires Tiles(c, pool + FIRST_OFFSET, end) && i < |c| - 1 && c[i].used && HEAD_SIZE <= need <= Total(c, i)
    requires Frame(m0, m1, pool, Addrs(c) + {c[i].addr + need})
    ensures OthersKept(m0, c, m1, Resized(c, i, need), c[i].addr)
  {
    hide InPayload, Tiles, Frame, Resized, Total, Addrs;
    forall b | b in c && b.used && b.addr != c[i].addr
      ensures b in Resized(c, i, need) && forall a | InPayload(b, a) && a in m0 :: a in m1 && m1[a] == m0[a]
    {
      ResizeOther(m0, c, m1, pool, end, i, need, b);
    }
  }

  lemma ResizeWord(m0: Mem, c: seq<Block>, m1: Mem, pool: nat, end: nat, i: nat, need: nat, j: nat, a: int)
    requires Tiles(c, pool + FIRST_OFFSET, end) && i < |c| - 1 && c[i].used && HEAD_SIZE <= need <= Total(c, i)
    requires Frame(m0, m1, pool, Addrs(c) + {c[i].addr + need}) && j < |c| && c[j].used && j != i && InPayload(c[j], a)
             && a in m0
    ensures a in m1 && m1[a] == m0[a]
  {
    hide Tiles, Frame, Total, Addrs, InPayload, Outside;
    ResizeAway(c, pool + FIRST_OFFSET, end, i, need, j, a);
    PayloadAvoids(c, pool, end, Addrs(c) + {c[i].addr + need}, c[i].addr + need, c[j], a);
    FrameKeeps(m0, m1, pool, Addrs(c) + {c[i].addr + need}, a);
  }

  lemma ResizeOther(m0: Mem, c: seq<Block>, m1: Mem, pool: nat, end: nat, i: nat, need: nat, b: Block)
    requires Tiles(c, pool + FIRST_OFFSET, end) && i < |c| - 1 && c[i].used && HEAD_SIZE <= need <= Total(c, i)
    requires Frame(m0, m1, pool, Addrs(c) + {c[i].addr + need}) && b in c && b.used && b.addr != c[i].addr
    ensures b in Resized(c, i, need) && forall a | InPayload(b, a) && a in m0 :: a in m1 && m1[a] == m0[a]
  {
    var j :| 0 <= j < |c| && c[j] == b;
    hide *;
    StillInResized(c, i, need, j);
    forall a | InPayload(b, a) && a in m0 ensures a in m1 && m1[a] == m0[a] {
      ResizeWord(m0, c, m1, pool, end, i, need, j, a);
    }
  }

  lemma FrameKeeps(m0: Mem, m1: Mem, pool: nat, nodes: set<int>, a: int)
    requires Frame(m0, m1, pool, nodes) && Outside(pool, nodes, a) && a in m0
    ensures a in m1 && m1[a] == m0[a]
  {
  }

  lemma StillInResized(c: seq<Block>, i: nat, need: nat, j: nat)
    requires i + 1 < |c| && j < |c| && j != i && c[j].used
    ensures c[j] in Resized(c, i, need)
  {
    if !KeepsSize(c, i, need) {
      ResizedElements(c, i, need);
      var m := Resized(c, i, need);
      var s := if Splits(Total(c, i), need) then 1 else 0;
      var d := RunEnd(c, i) - i - 1;
      hide Resized, Splits;
      assert m[if j < i then j else j + s - d] == c[j];
    }
  }

  lemma ResizedIn(c: seq<Block>, i: nat, need: nat) returns (k: Block)
    requires i + 1 < |c| && c[i].used && need <= Total(c, i)
    ensures k in Resized(c, i, need) && k.used && k.addr == c[i].addr && k.size >= need
  {
    if !KeepsSize(c, i, need) { ResizedElements(c, i, need); }
    k := Resized(c, i, need)[i];
  }

  lemma StillInCoalesced(c: seq<Block>, i: nat, j: nat)
    requires i + 1 < |c| && j < |c| && j != i && c[j].used && c[|c| - 1].used
    ensures c[j] in Coalesced(c, i)
  {
    CoalescedElements(c, i);
    var m, lo, hi := Coalesced(c, i), RunStart(c, i), RunEnd(c, i);
    assert j < lo || j >= hi;
    assert m[if j < lo then j else j - (hi - lo) + 1] == c[j];
  }

  /** ... and keeps what fits of its own. */
  lemma ResizeOwn(m0: Mem, c: seq<Block>, m1: Mem, pool: nat, end: nat, i: nat, need: nat)
    requires Tiles(c, pool + FIRST_OFFSET, end) && i < |c| - 1
    requires Frame(m0, m1, pool, Addrs(c) + {c[i].addr + need})
    ensures forall a | InPayload(c[i], a) && a < c[i].addr + need && a in m0 :: a in m1 && m1[a] == m0[a]
  {
    assert c[i] in c;
    hide *;
    forall a | InPayload(c[i], a) && a < c[i].addr + need && a in m0 ensures a in m1 && m1[a] == m0[a] {
      PayloadAvoids(c, pool, end, Addrs(c) + {c[i].addr + need}, c[i].addr + need, c[i], a);
      FrameKeeps(m0, m1, pool, Addrs(c) + {c[i].addr + need}, a);
    }
  }

  lemma ResizeAway(c: seq<Block>, first: nat, end: nat, i: nat, need: nat, j: nat, a: int)
    requires Tiles(c, first, end) && i < |c| - 1 && j < |c| && c[j].used && j != i && InPayload(c[j], a)
    requires HEAD_SIZE <= need <= Total(c, i)
    ensures a < c[i].addr + need || c[i].addr + need + HEAD_SIZE <= a
  {
    EndUsed(c, first, end);
    var hi := RunEnd(c, i);
    Two(c, first, end, i, i + 1);
    Two(c, first, end, i + 1, hi);
    Two(c, first, end, i, j);
    Two(c, first, end, hi, j);
  }

  lemma CutFormsOf(c: seq<Block>, bins: seq<seq<nat>>, i: nat, need: nat)
    requires i + 1 < |c| && c[i + 1].used
    ensures Splits(c[i].size, need) ==>
              need <= c[i].size && CutIfWorth(c, i, need) == SplitChain(c, i, need)
              && CutBins(c, bins, i, need) == SplitBins(c, bins, i, need)
    ensures !Splits(c[i].size, need) ==> CutIfWorth(c, i, need) == c && CutBins(c, bins, i, need) == bins
  {
    if Splits(c[i].size, need) { SplitIsCut(c, bins, i, need); }
  }

  // ---------------------------------------------------------------- reallocating

  /** The words of `b` below the limit are found again behind `p`. */
  ghost predicate PrefixKept(m0: Mem, b: Block, limit: nat, m1: Mem, p: nat)
  {
    forall a | InPayload(b, a) && a % 4 == 0 && a in m0 && a < b.addr + limit ::
      p + (a - b.addr - HEAD_SIZE) in m1 && m1[p + (a - b.addr - HEAD_SIZE)] == m0[a]
  }

  /** Where the node `c[i]` stands once `need` bytes have been allocated from `c[j]`. */
  function Shifted(c: seq<Block>, j: nat, need: nat, i: nat): nat
    requires j < |c|
  {
    if j < i && Splits(c[j].size, need) then i + 1 else i
  }

  /** What a successful or failed reallocation of the used node `c0[i]` to `need` bytes is: in place whenever the node
      and a free successor are large enough, else moved to the first fit `c0[j]`, else refused without any change. */
  ghost predicate Reallocated(m0: Mem, c0: seq<Block>, b0: seq<seq<nat>>, m1: Mem, c1: seq<Block>, need: nat, i: nat,
                              pNew: nat, j: nat)
    requires i + 1 < |c0|
  {
    if need <= Total(c0, i) then
      && pNew == c0[i].addr + HEAD_SIZE && c1 == Resized(c0, i, need)
      && OthersKept(m0, c0, m1, c1, c0[i].addr) && PrefixKept(m0, c0[i], need, m1, pNew)
    else if pNew == 0 then
      NoFit(c0, need) && m1 == m0 && c1 == c0
    else
      && j < |c0| - 1 && !c0[j].used && need <= c0[j].size && pNew == c0[j].addr + HEAD_SIZE
         && MetFirst(c0, b0, need, c0[j].addr)
      && Shifted(c0, j, need, i) + 1 < |AllocChain(c0, j, need)|
      && c1 == Coalesced(AllocChain(c0, j, need), Shifted(c0, j, need, i))
      && OthersKept(m0, c0, m1, c1, c0[i].addr) && PrefixKept(m0, c0[i], need, m1, pNew)
  }

  lemma PrefixSame(m0: Mem, b: Block, limit: nat, m1: Mem)
    requires forall a | InPayload(b, a) && a < b.addr + limit && a in m0 :: a in m1 && m1[a] == m0[a]
    ensures PrefixKept(m0, b, limit, m1, b.addr + HEAD_SIZE)
  {
    hide InPayload;
    forall a | InPayload(b, a) && a % 4 == 0 && a in m0 && a < b.addr + limit
      ensures b.addr + HEAD_SIZE + (a - b.addr - HEAD_SIZE) == a && a in m1 && m1[a] == m0[a]
    {
    }
  }

  lemma InPlace(m0: Mem, c: seq<Block>, bins: seq<seq<nat>>, m1: Mem, pool: nat, end: nat, need: nat, i: nat, j: nat)
    requires Tiles(c, pool + FIRST_OFFSET, end) && NoFreeNeighbours(c) && i < |c| - 1 && c[i].used
             && HEAD_SIZE <= need <= Total(c, i)
    requires Frame(m0, m1, pool, Addrs(c) + {c[i].addr + need})
    ensures Reallocated(m0, c, bins, m1, Resized(c, i, need), need, i, c[i].addr + HEAD_SIZE, j)
  {
    ResizeOthers(m0, c, m1, pool, end, i, need);
    ResizeOwn(m0, c, m1, pool, end, i, need);
    PrefixSame(m0, c[i], need, m1);
    hide OthersKept, PrefixKept, Resized, Frame, Tiles, InPayload, NoFreeNeighbours;
  }

  lemma ShiftedNode(c: seq<Block>, first: nat, end: nat, j: nat, need: nat, i: nat)
    requires Tiles(c, first, end) && i < |c| - 1 && j < |c| - 1 && c[i].used && !c[j].used
             && HEAD_SIZE <= need <= c[j].size && need > c[i].size
    ensures var m := AllocChain(c, j, need); var i' := Shifted(c, j, need, i);
            && i' + 1 < |m| && m[i'] == c[i] && i' != j && j < |m| - 1
            && m[j].used && m[j].addr == c[j].addr && need <= m[j].size
    ensures forall b | b in c && b.used :: b != AllocChain(c, j, need)[j]
    ensures c[i].addr != c[j].addr && c[j].addr > 0
  {
    AllocAt(c, j, need);
    Two(c, first, end, i, j);
    NodesInside(c, first, end);
    var u := AllocChain(c, j, need)[j];
    hide Tiles, AllocChain, Splits;
    forall b | b in c && b.used ensures b != u {
      if b.addr == c[j].addr { SameBlock(c, first, end, b, c[j]); }
    }
    ShiftedAt(c, j, need, i);
  }

  lemma AllocAt(c: seq<Block>, j: nat, need: nat)
    requires j < |c| - 1 && need <= c[j].size
    ensures var m := AllocChain(c, j, need);
            j < |m| - 1 && m[j].used && m[j].addr == c[j].addr && need <= m[j].size
  {
    AllocElements(c, j, need);
  }

  lemma ShiftedAt(c: seq<Block>, j: nat, need: nat, i: nat)
    requires i < |c| - 1 && j < |c| - 1 && i != j
    ensures var m := AllocChain(c, j, need); var i' := Shifted(c, j, need, i); i' + 1 < |m| && m[i'] == c[i] && i' != j
  {
    var m := AllocChain(c, j, need);
    if Splits(c[j].size, need) {
      var front, mid := c[..j], [Block(c[j].addr, need, true), Block(c[j].addr + need, c[j].size - need, false)];
      assert m == front + mid + c[j + 1..];
      hide AllocChain, Splits;
      Stretched(c, j, mid, i);
    }
  }

  lemma Stretched(c: seq<Block>, j: nat, mid: seq<Block>, i: nat)
    requires i < |c| && j < |c| && i != j && |mid| == 2
    ensures var m := c[..j] + mid + c[j + 1..]; |m| == |c| + 1 && (if i < j then m[i] else m[i + 1]) == c[i]
  {
  }

  lemma OthersKeptTrans(m0: Mem, c0: seq<Block>, m1: Mem, c1: seq<Block>, m2: Mem, c2: seq<Block>, except: nat)
    requires OthersKept(m0, c0, m1, c1, 0) && OthersKept(m1, c1, m2, c2, except)
    requires forall b | b in c0 :: b.addr > 0
    ensures OthersKept(m0, c0, m2, c2, except)
  {
  }

  lemma AddrsPositive(c: seq<Block>, first: nat, end: nat)
    requires Tiles(c, first, end)
    ensures forall b | b in c :: b.addr > 0
  {
    NodesInside(c, first, end);
  }

  /** The words of the old node, copied behind the new header and then kept while the old node is freed. */
  lemma CopiedPrefix(m0: Mem, c0: seq<Block>, m1: Mem, c1: seq<Block>, m2: Mem, m3: Mem, c3: seq<Block>, b: Block,
                     n: Block, need: nat)
    requires OthersKept(m0, c0, m1, c1, 0) && b in c0 && b.used && b.addr > 0 && b.size < need
    requires PrefixKept(m1, b, need, m2, n.addr + HEAD_SIZE)
    requires OthersKept(m2, c1, m3, c3, b.addr) && n in c1 && n.used && n.addr != b.addr && need <= n.size
    ensures PrefixKept(m0, b, need, m3, n.addr + HEAD_SIZE)
  {
    forall a | InPayload(b, a) && a % 4 == 0 && a in m0 && a < b.addr + need
      ensures var p := n.addr + HEAD_SIZE + (a - b.addr - HEAD_SIZE); p in m3 && m3[p] == m0[a]
    {
      assert a in m1 && m1[a] == m0[a];
      assert InPayload(n, n.addr + HEAD_SIZE + (a - b.addr - HEAD_SIZE));
    }
  }

  lemma Moved(m0: Mem, c0: seq<Block>, b0: seq<seq<nat>>, m1: Mem, need: nat, i: nat, j: nat)
    requires i + 1 < |c0| && need > Total(c0, i)
    requires j < |c0| - 1 && !c0[j].used && need <= c0[j].size && MetFirst(c0, b0, need, c0[j].addr)
    requires Shifted(c0, j, need, i) + 1 < |AllocChain(c0, j, need)|
    requires OthersKept(m0, c0, m1, Coalesced(AllocChain(c0, j, need), Shifted(c0, j, need, i)), c0[i].addr)
    requires PrefixKept(m0, c0[i], need, m1, c0[j].addr + HEAD_SIZE)
    ensures Reallocated(m0, c0, b0, m1, Coalesced(AllocChain(c0, j, need), Shifted(c0, j, need, i)), need, i,
            c0[j].addr + HEAD_SIZE, j)
  {
  }

  lemma Refused(m: Mem, c: seq<Block>, bins: seq<seq<nat>>, need: nat, i: nat, j: nat)
    requires i + 1 < |c| && need > Total(c, i) && NoFit(c, need)
    ensures Reallocated(m, c, bins, m, c, need, i, 0, j)
  {
  }

  // ---------------------------------------------------------------- laws of whole chains

  function Bytes(c: seq<Block>): nat
  {
    if c == [] then 0 else Bytes(c[..|c| - 1]) + c[|c| - 1].size
  }

  lemma {:induction false} PrefixBytes(c: seq<Block>, first: nat, end: nat, n: nat)
    requires Tiles(c, first, end) && n < |c|
    ensures first + Bytes(c[..n]) == c[n].addr
    decreases n
  {
    if n > 0 {
      PrefixBytes(c, first, end, n - 1);
      assert c[..n][..n - 1] == c[..n - 1];
      assert c[n - 1].End() == c[n].addr;
    }
  }

  /** No byte is lost: used and free nodes together always cover the pool up to its end. */
  lemma BytesConserved(c: seq<Block>, first: nat, end: nat)
    requires Tiles(c, first, end)
    ensures first + Bytes(c) == end + HEAD_SIZE
  {
    PrefixBytes(c, first, end, |c| - 1);
    assert c[..|c|] == c;
  }

  /** Freeing what has just been allocated brings the chain back. */
  lemma AllocThenFree(c: seq<Block>, i: nat, need: nat)
    requires i + 1 < |c| && !c[i].used && c[|c| - 1].used && NoFreeNeighbours(c)
    ensures i + 1 < |AllocChain(c, i, need)| && Coalesced(AllocChain(c, i, need), i) == c
  {
    AllocElements(c, i, need);
    var m := AllocChain(c, i, need);
    assert c[i].used || c[i + 1].used;
    if i > 0 { assert c[i - 1].used; }
    assert m[..i] == c[..i];
    if Splits(c[i].size, need) {
      assert m[i + 2..] == c[i + 1..];
    } else {
      assert m[i + 1..] == c[i + 1..];
    }
    assert Run(m, i) == c[i];
    assert c == c[..i] + [c[i]] + c[i + 1..];
  }
}
