/** Fixed-block memory pools with the magic check (kernel/base/mem/los_membox.c, kernel/include/los_membox.h), and the
    mail interface of the queue module on top of them (kernel/base/ipc/los_queue.c). */
module Membox {
  const WORD32: nat := 0x1_0000_0000
  const MAGIC: nat := 0xa55a_5aa5
  const INFO_SIZE: nat := 12         // uwBlkSize, uwBlkNum, stFreeList
  const MAGIC_SIZE: nat := 4

  type Mem = map<int, int>

  /** Address of the `i`-th block. */
  function Addr(pool: nat, size: nat, i: nat): nat { pool + INFO_SIZE + i * size }

  lemma AddrStep(pool: nat, size: nat, i: nat)
    ensures Addr(pool, size, i + 1) == Addr(pool, size, i) + size
  {
    assert (i + 1) * size == i * size + size;
  }

  lemma AddrPositive(pool: nat, size: nat, i: nat)
    ensures Addr(pool, size, i) >= INFO_SIZE
  {
  }

  lemma {:induction false} AddrMonotone(pool: nat, size: nat, i: nat, j: nat)
    requires i < j
    ensures Addr(pool, size, i) + size <= Addr(pool, size, j)
    decreases j
  {
    AddrStep(pool, size, j - 1);
    if i < j - 1 { AddrMonotone(pool, size, i, j - 1); }
  }

  lemma SumAligned(a: nat, b: nat)
    requires a % 4 == 0 && b % 4 == 0
    ensures (a + b) % 4 == 0
  {
  }

  lemma {:induction false} AddrAligned(pool: nat, size: nat, i: nat)
    requires pool % 4 == 0 && size % 4 == 0
    ensures Addr(pool, size, i) % 4 == 0
    decreases i
  {
    assert Addr(pool, size, 0) == pool + INFO_SIZE;
    hide Addr;
    if i > 0 {
      AddrAligned(pool, size, i - 1);
      AddrStep(pool, size, i - 1);
      SumAligned(Addr(pool, size, i - 1), size);
    }
  }

  /** Where the `p`-th link of the free list is stored, and what it says: the next block, or NULL at the end. */
  function LinkPlace(pool: nat, size: nat, free: seq<nat>, p: nat): nat
    requires p <= |free|
  {
    if p == 0 then pool + 8 else Addr(pool, size, free[p - 1])
  }

  function LinkValue(pool: nat, size: nat, free: seq<nat>, p: nat): nat
    requires p <= |free|
  {
    if p < |free| then Addr(pool, size, free[p]) else 0
  }

  ghost predicate LinkOk(mem: Mem, pool: nat, size: nat, free: seq<nat>, p: nat)
    requires p <= |free|
  {
    LinkPlace(pool, size, free, p) in mem && mem[LinkPlace(pool, size, free, p)] == LinkValue(pool, size, free, p)
  }

  /** The free list visits every unallocated block once, and nothing else. */
  ghost predicate FreeList(mem: Mem, pool: nat, size: nat, num: nat, free: seq<nat>)
  {
    && (forall i, j | 0 <= i < j < |free| :: free[i] != free[j])
    && (forall p | 0 <= p < |free| :: free[p] < num)
    && (forall p | 0 <= p <= |free| :: LinkOk(mem, pool, size, free, p))
  }

  ghost predicate MagicAt(mem: Mem, a: int) { a in mem && mem[a] == MAGIC }

  /** Every allocated block carries the magic word. */
  ghost predicate Marked(mem: Mem, pool: nat, size: nat, num: nat, free: seq<nat>)
  {
    forall i: nat | i < num && i !in free :: MagicAt(mem, Addr(pool, size, i))
  }

  ghost predicate Geometry(mem: Mem, pool: nat, size: nat, num: nat)
  {
    && pool > 0 && pool % 4 == 0 && size % 4 == 0 && size >= 4 && num > 0
    && Addr(pool, size, num) <= WORD32
    && pool + 8 in mem
    && forall i: nat | i < num :: Addr(pool, size, i) in mem
  }

  /** Distinct blocks have distinct first words, and none of them is the list head. */
  lemma BlocksApart(pool: nat, size: nat, i: nat, j: nat)
    requires size >= 4
    ensures Addr(pool, size, i) == Addr(pool, size, j) <==> i == j
    ensures Addr(pool, size, i) != pool + 8 && Addr(pool, size, j) != pool + 8
  {
    if i < j { AddrMonotone(pool, size, i, j); }
    if j < i { AddrMonotone(pool, size, j, i); }
    if i > 0 { AddrMonotone(pool, size, 0, i); }
    if j > 0 { AddrMonotone(pool, size, 0, j); }
  }

  /** A link is never the magic word: links are multiples of four and the magic word is odd. */
  lemma LinkIsNotMagic(pool: nat, size: nat, free: seq<nat>, p: nat)
    requires pool % 4 == 0 && size % 4 == 0 && p <= |free|
    ensures LinkValue(pool, size, free, p) != MAGIC
  {
    if p < |free| { AddrAligned(pool, size, free[p]); }
  }

  /** So the magic word tells allocated blocks from free ones. */
  lemma MagicMeansAllocated(mem: Mem, pool: nat, size: nat, num: nat, free: seq<nat>, i: nat)
    requires Geometry(mem, pool, size, num) && FreeList(mem, pool, size, num, free)
             && Marked(mem, pool, size, num, free) && i < num
    ensures MagicAt(mem, Addr(pool, size, i)) <==> i !in free
  {
    if i in free {
      var p :| 0 <= p < |free| && free[p] == i;
      assert LinkOk(mem, pool, size, free, p + 1);
      LinkIsNotMagic(pool, size, free, p + 1);
    }
  }

  /** `osCheckBoxMem` without the magic test: the offset is a multiple of the block size and not past the last block. */
  predicate OnBlock(pool: nat, size: nat, num: nat, node: nat)
    requires size > 0
  {
    var offset := (node + WORD32 - (pool + INFO_SIZE)) % WORD32;
    offset % size == 0 && offset / size < num
  }

  lemma OnBlockMeaning(pool: nat, size: nat, num: nat, node: nat)
    requires size >= 4 && Addr(pool, size, num) <= WORD32 && node < WORD32
    ensures OnBlock(pool, size, num, node) <==> exists i: nat :: i < num && node == Addr(pool, size, i)
    ensures OnBlock(pool, size, num, node) ==>
              node == Addr(pool, size, (node + WORD32 - (pool + INFO_SIZE)) % WORD32 / size)
  {
    var base := pool + INFO_SIZE;
    var offset := (node + WORD32 - base) % WORD32;
    assert Addr(pool, size, 0) == base;
    if num > 0 { AddrMonotone(pool, size, 0, num); }
    assert base <= WORD32;
    assert offset == if node >= base then node - base else node + WORD32 - base by { Wrapped(node, base); }
    if OnBlock(pool, size, num, node) {
      var i := offset / size;
      assert offset == i * size by { ExactDivision(offset, size); }
      AddrMonotone(pool, size, i, num);
      assert i < num && node == Addr(pool, size, i);
    }
    if i: nat :| i < num && node == Addr(pool, size, i) {
      Multiple(i, size);
    }
  }

  lemma Wrapped(node: nat, base: nat)
    requires node < WORD32 && base <= WORD32
    ensures (node + WORD32 - base) % WORD32 == if node >= base then node - base else node + WORD32 - base
  {
  }

  lemma ExactDivision(x: nat, n: nat)
    requires n > 0 && x % n == 0
    ensures x == x / n * n
  {
  }

  lemma {:induction false} Multiple(i: nat, n: nat)
    requires n > 0
    ensures (i * n) % n == 0 && i * n / n == i
  {
    if i > 0 {
      Multiple(i - 1, n);
      OneMore(i - 1, n);
    }
  }

  lemma OneMore(i: nat, n: nat)
    requires n > 0 && (i * n) % n == 0 && i * n / n == i
    ensures ((i + 1) * n) % n == 0 && (i + 1) * n / n == i + 1
  {
    assert (i + 1) * n == i * n + n;
    QuotientStep(i * n, n);
  }

  lemma QuotientStep(x: nat, n: nat)
    requires n > 0
    ensures (x + n) / n == x / n + 1 && (x + n) % n == x % n
  {
    var q, r := x / n, x % n;
    assert x == q * n + r;
    assert x + n == (q + 1) * n + r;
    UniqueQuotient(x + n, n, q + 1, r);
  }

  lemma UniqueQuotient(x: nat, n: nat, q: nat, r: nat)
    requires r < n && x == q * n + r
    ensures x / n == q && x % n == r
  {
    var a, b := x / n, x % n;
    assert x == a * n + b;
    if a > q { MulBound(a, q, n); }
    if q > a { MulBound(q, a, n); }
  }

  lemma {:induction false} MulBound(a: nat, b: nat, n: nat)
    requires a > b
    ensures a * n >= b * n + n
    decreases a
  {
    assert a * n == (a - 1) * n + n;
    if a > b + 1 { MulBound(a - 1, b, n); }
  }

  // ---------------------------------------------------------------- what the operations do to the list

  lemma TakeList(m0: Mem, m1: Mem, pool: nat, size: nat, num: nat, free: seq<nat>)
    requires Geometry(m0, pool, size, num) && FreeList(m0, pool, size, num, free) && Marked(m0, pool, size, num, free)
             && free != []
    requires m1 == m0[pool + 8 := LinkValue(pool, size, free, 1)][Addr(pool, size, free[0]) := MAGIC]
    ensures Geometry(m1, pool, size, num) && FreeList(m1, pool, size, num, free[1..])
            && Marked(m1, pool, size, num, free[1..])
  {
    hide Addr;
    var rest := free[1..];
    BlocksApart(pool, size, free[0], free[0]);
    forall p | 0 <= p <= |rest| ensures LinkOk(m1, pool, size, rest, p) {
      assert LinkOk(m0, pool, size, free, p + 1);
      if p > 0 { BlocksApart(pool, size, free[0], rest[p - 1]); }
    }
    forall i: nat | i < num && i !in rest ensures MagicAt(m1, Addr(pool, size, i)) {
      BlocksApart(pool, size, free[0], i);
      if i != free[0] {
        assert i !in free;
        assert MagicAt(m0, Addr(pool, size, i));
      }
    }
  }

  lemma GiveList(m0: Mem, m1: Mem, pool: nat, size: nat, num: nat, free: seq<nat>, i: nat)
    requires Geometry(m0, pool, size, num) && FreeList(m0, pool, size, num, free) && Marked(m0, pool, size, num, free)
    requires i < num && i !in free
    requires m1 == m0[Addr(pool, size, i) := LinkValue(pool, size, free, 0)][pool + 8 := Addr(pool, size, i)]
    ensures Geometry(m1, pool, size, num) && FreeList(m1, pool, size, num, [i] + free)
            && Marked(m1, pool, size, num, [i] + free)
  {
    hide Addr;
    var all := [i] + free;
    BlocksApart(pool, size, i, i);
    forall p | 0 <= p <= |all| ensures LinkOk(m1, pool, size, all, p) {
      if p > 0 {
        assert LinkOk(m0, pool, size, free, p - 1);
        if p > 1 { BlocksApart(pool, size, i, free[p - 2]); }
      }
    }
    forall j: nat | j < num && j !in all ensures MagicAt(m1, Addr(pool, size, j)) {
      BlocksApart(pool, size, i, j);
      assert j !in free;
      assert MagicAt(m0, Addr(pool, size, j));
    }
  }

  // ---------------------------------------------------------------- counting blocks

  ghost function Upto(num: nat): (r: set<nat>)
    ensures |r| == num && forall i: nat :: i in r <==> i < num
  {
    if num == 0 then {} else Upto(num - 1) + {num - 1}
  }

  ghost function Elements(l: seq<nat>): (r: set<nat>)
    ensures forall i :: i in r <==> i in l
  {
    if l == [] then {} else {l[0]} + Elements(l[1..])
  }

  lemma {:induction false} ElementsCount(l: seq<nat>)
    requires forall i, j | 0 <= i < j < |l| :: l[i] != l[j]
    ensures |Elements(l)| == |l|
  {
    if l != [] {
      ElementsCount(l[1..]);
      assert l[0] !in Elements(l[1..]);
    }
  }

  ghost function AllocatedBlocks(num: nat, free: seq<nat>): set<nat> { Upto(num) - Elements(free) }

  /** Free and allocated blocks are always all the blocks. */
  lemma BlocksConserved(mem: Mem, pool: nat, size: nat, num: nat, free: seq<nat>)
    requires FreeList(mem, pool, size, num, free)
    ensures |free| + |AllocatedBlocks(num, free)| == num
  {
    ElementsCount(free);
    assert Elements(free) <= Upto(num);
    assert Upto(num) == Elements(free) + AllocatedBlocks(num, free);
  }

  // ---------------------------------------------------------------- the initial list

  /** The link of block `j` leads to block `j + 1`. */
  ghost predicate Chained(mem: Mem, pool: nat, size: nat, j: nat)
  {
    Addr(pool, size, j) in mem && mem[Addr(pool, size, j)] == Addr(pool, size, j + 1)
  }

  ghost predicate ChainedTo(mem: Mem, pool: nat, size: nat, n: nat)
  {
    && pool + 8 in mem && mem[pool + 8] == Addr(pool, size, 0)
    && forall j: nat | j < n :: Chained(mem, pool, size, j)
  }

  lemma ChainStep(m0: Mem, m1: Mem, pool: nat, size: nat, num: nat, i: nat)
    requires Geometry(m0, pool, size, num) && ChainedTo(m0, pool, size, i) && i < num
    requires m1 == m0[Addr(pool, size, i) := Addr(pool, size, i + 1)]
    ensures Geometry(m1, pool, size, num) && ChainedTo(m1, pool, size, i + 1)
  {
    BlocksApart(pool, size, i, i);
    forall j: nat | j < i + 1 ensures Chained(m1, pool, size, j) {
      BlocksApart(pool, size, i, j);
      if j < i { assert Chained(m0, pool, size, j); }
    }
  }

  function Counting(num: nat): (r: seq<nat>)
    ensures |r| == num && forall i | 0 <= i < num :: r[i] == i
  {
    if num == 0 then [] else Counting(num - 1) + [num - 1]
  }

  lemma ChainEnd(m0: Mem, m1: Mem, pool: nat, size: nat, num: nat)
    requires Geometry(m0, pool, size, num) && ChainedTo(m0, pool, size, num - 1)
    requires m1 == m0[Addr(pool, size, num - 1) := 0]
    ensures Geometry(m1, pool, size, num) && FreeList(m1, pool, size, num, Counting(num))
            && Marked(m1, pool, size, num, Counting(num))
  {
    var free := Counting(num);
    BlocksApart(pool, size, num - 1, num - 1);
    forall p | 0 <= p <= |free| ensures LinkOk(m1, pool, size, free, p) {
      if 0 < p < |free| {
        assert Chained(m0, pool, size, p - 1);
        BlocksApart(pool, size, p - 1, num - 1);
      }
    }
    forall i: nat | i < num ensures i in free { assert free[i] == i; }
  }

  ghost predicate Words(mem: Mem, pool: nat, boxSize: nat)
  {
    forall a | pool <= a < pool + boxSize && a % 4 == 0 :: a in mem
  }

  function Blocks(boxSize: nat, size: nat): nat
    requires size > 0 && boxSize >= INFO_SIZE
  {
    (boxSize - INFO_SIZE) / size
  }

  lemma InitGeometry(mem: Mem, pool: nat, boxSize: nat, size: nat, num: nat)
    requires pool > 0 && pool % 4 == 0 && pool + boxSize <= WORD32 && size % 4 == 0 && size >= 4 && boxSize >= INFO_SIZE
    requires num == Blocks(boxSize, size) && num > 0 && Words(mem, pool, boxSize)
    ensures Geometry(mem, pool, size, num)
  {
    assert num * size <= boxSize - INFO_SIZE;
    forall i: nat | i < num ensures Addr(pool, size, i) in mem {
      AddrMonotone(pool, size, i, num);
      AddrAligned(pool, size, i);
    }
    assert (pool + 8) % 4 == 0;
  }

  /** What a block of `blkSize` bytes takes: its magic word and its bytes, rounded up to words. */
  function Footprint(blkSize: nat): nat { (blkSize + MAGIC_SIZE + 3) / 4 * 4 }

  lemma FootprintFits(blkSize: nat)
    ensures blkSize + MAGIC_SIZE <= Footprint(blkSize) < blkSize + MAGIC_SIZE + 4 && Footprint(blkSize) % 4 == 0
  {
  }

  /** As many blocks as there is room for. */
  lemma BlocksFit(pool: nat, boxSize: nat, size: nat)
    requires size > 0 && boxSize >= INFO_SIZE
    ensures Addr(pool, size, Blocks(boxSize, size)) <= pool + boxSize < Addr(pool, size, Blocks(boxSize, size) + 1)
  {
    var n := Blocks(boxSize, size);
    assert n * size <= boxSize - INFO_SIZE < n * size + size;
    AddrStep(pool, size, n);
  }

  // ---------------------------------------------------------------- what the user of a block may write

  /** Byte `b` belongs to the user of block `i`: it lies behind the magic word and in front of the next block. */
  predicate InUser(pool: nat, size: nat, i: nat, b: nat)
  {
    Addr(pool, size, i) + MAGIC_SIZE <= b < Addr(pool, size, i) + size
  }

  /** The bytes of a block lie inside of the pool; they are nobody else's, they are not in the first word of any block,
      where the link or the magic word stands, and not in the header with the list head. */
  lemma UserBytesApart(pool: nat, size: nat, num: nat, i: nat, j: nat, b: nat)
    requires size >= 4 && i < num && j < num && InUser(pool, size, i, b)
    ensures pool + INFO_SIZE <= b < Addr(pool, size, num)
    ensures InUser(pool, size, j, b) ==> j == i
    ensures !(Addr(pool, size, j) <= b < Addr(pool, size, j) + 4)
  {
    AddrMonotone(pool, size, i, num);
    if i < j { AddrMonotone(pool, size, i, j); }
    if j < i { AddrMonotone(pool, size, j, i); }
  }

  /** The word that byte `b` lies in. */
  function WordOf(b: nat): nat { b / 4 * 4 }

  /** Whatever the user of a block stores into its bytes, the pool stays in order. */
  lemma UserStoreKeeps(mem: Mem, pool: nat, size: nat, num: nat, free: seq<nat>, i: nat, b: nat, v: int)
    requires Geometry(mem, pool, size, num) && FreeList(mem, pool, size, num, free)
             && Marked(mem, pool, size, num, free)
    requires i < num && InUser(pool, size, i, b)
    ensures var m := mem[WordOf(b) := v];
            Geometry(m, pool, size, num) && FreeList(m, pool, size, num, free) && Marked(m, pool, size, num, free)
  {
    var m := mem[WordOf(b) := v];
    UserBytesApart(pool, size, num, i, i, b);
    forall j: nat | j < num ensures Addr(pool, size, j) != WordOf(b) {
      UserBytesApart(pool, size, num, i, j, b);
      AddrAligned(pool, size, j);
    }
    assert pool + 8 != WordOf(b);
    hide Addr, WordOf;
    forall p | 0 <= p <= |free| ensures LinkOk(m, pool, size, free, p) {
      assert LinkOk(mem, pool, size, free, p);
    }
    forall j: nat | j < num && j !in free ensures MagicAt(m, Addr(pool, size, j)) {
      assert MagicAt(mem, Addr(pool, size, j));
    }
  }

  class Pool {
    var mem: Mem
    const pool: nat
    var uwBlkSize: nat
    var uwBlkNum: nat
    ghost var free: seq<nat>        // the free list, as block numbers

    ghost predicate Valid()
      reads this
    {
      && Geometry(mem, pool, uwBlkSize, uwBlkNum) && FreeList(mem, pool, uwBlkSize, uwBlkNum, free)
      && Marked(mem, pool, uwBlkSize, uwBlkNum, free)
    }

    constructor (pool: nat, mem: Mem)
      ensures this.pool == pool && this.mem == mem
    {
      this.pool, this.mem := pool, mem;
      uwBlkSize, uwBlkNum, free := 0, 0, [];
    }

    /** `LOS_MemboxInit`: true for OS_OK.  Afterwards every block is free, lowest address first. */
    method MemboxInit(uwBoxSize: nat, blkSize: nat) returns (ok: bool)
      requires pool % 4 == 0 && pool + uwBoxSize <= WORD32 && blkSize + MAGIC_SIZE + 3 < WORD32
               && Words(mem, pool, uwBoxSize)
      modifies this
      ensures ok <==> pool != 0 && blkSize != 0 && uwBoxSize >= INFO_SIZE && Blocks(uwBoxSize, Footprint(blkSize)) != 0
      ensures ok ==>
                Valid() && uwBlkSize == Footprint(blkSize) && uwBlkNum == Blocks(uwBoxSize, uwBlkSize)
                && free == Counting(uwBlkNum)
      ensures ok ==> blkSize + MAGIC_SIZE <= uwBlkSize < blkSize + MAGIC_SIZE + 4 && uwBlkSize % 4 == 0
      ensures ok ==> Addr(pool, uwBlkSize, uwBlkNum) <= pool + uwBoxSize < Addr(pool, uwBlkSize, uwBlkNum + 1)
    {
      if pool == 0 || blkSize == 0 || uwBoxSize < INFO_SIZE {
        return false;
      }
      FootprintFits(blkSize);
      uwBlkSize := Footprint(blkSize);
      BlocksFit(pool, uwBoxSize, uwBlkSize);
      uwBlkNum := Blocks(uwBoxSize, uwBlkSize);
      if uwBlkNum == 0 {
        return false;
      }
      InitGeometry(mem, pool, uwBoxSize, uwBlkSize, uwBlkNum);
      LinkBlocks();
      free := Counting(uwBlkNum);
      ok := true;
    }

    /** The loop of `LOS_MemboxInit`, with the stores before and after it. */
    method LinkBlocks()
      requires Geometry(mem, pool, uwBlkSize, uwBlkNum)
      modifies this`mem
      ensures Geometry(mem, pool, uwBlkSize, uwBlkNum) && FreeList(mem, pool, uwBlkSize, uwBlkNum, Counting(uwBlkNum))
      ensures Marked(mem, pool, uwBlkSize, uwBlkNum, Counting(uwBlkNum))
    {
      hide FreeList, Marked, Counting;
      var pstNode := pool + INFO_SIZE;
      assert pstNode == Addr(pool, uwBlkSize, 0);
      mem := mem[pool + 8 := pstNode];
      var i := 0;
      while i < uwBlkNum - 1
        invariant i <= uwBlkNum - 1 && pstNode == Addr(pool, uwBlkSize, i)
        invariant Geometry(mem, pool, uwBlkSize, uwBlkNum) && ChainedTo(mem, pool, uwBlkSize, i)
      {
        ghost var m := mem;
        AddrStep(pool, uwBlkSize, i);
        mem := mem[pstNode := pstNode + uwBlkSize];
        ChainStep(m, mem, pool, uwBlkSize, uwBlkNum, i);
        pstNode := pstNode + uwBlkSize;
        i := i + 1;
      }
      ghost var m := mem;
      mem := mem[pstNode := 0];
      ChainEnd(m, mem, pool, uwBlkSize, uwBlkNum);
    }

    /** The list head says whether a block is free. */
    predicate Empty()
      requires Valid()
      reads this
      ensures Empty() <==> free == []
    {
      assert LinkOk(mem, pool, uwBlkSize, free, 0);
      assert free != [] ==> Addr(pool, uwBlkSize, free[0]) > 0 by {
        if free != [] { AddrPositive(pool, uwBlkSize, free[0]); }
      }
      mem[pool + 8] == 0
    }

    /** `LOS_MemboxAlloc`: the user address of the first free block, 0 for NULL. */
    method MemboxAlloc() returns (pBox: nat)
      requires Valid()
      modifies this`mem, this`free
      ensures Valid()
      ensures pBox == 0 <==> old(free) == []
      ensures pBox == 0 ==> mem == old(mem) && free == old(free)
      ensures pBox != 0 ==>
                var i := old(free)[0];
                && pBox == Addr(pool, uwBlkSize, i) + MAGIC_SIZE && free == old(free)[1..]
                && mem == old(mem)[pool + 8 := LinkValue(pool, uwBlkSize, old(free), 1)][Addr(pool, uwBlkSize,
                   i) := MAGIC]
    {
      assert LinkOk(mem, pool, uwBlkSize, free, 0);
      if free != [] { AddrPositive(pool, uwBlkSize, free[0]); }
      hide Addr;
      if mem[pool + 8] == 0 {
        return 0;
      }
      assert free != [] && LinkOk(mem, pool, uwBlkSize, free, 1);
      ghost var m0 := mem;
      var pstRet: nat := mem[pool + 8];
      BlocksApart(pool, uwBlkSize, free[0], free[0]);
      mem := mem[pool + 8 := mem[pstRet]];
      mem := mem[pstRet := MAGIC];
      TakeList(m0, mem, pool, uwBlkSize, uwBlkNum, free);
      free := free[1..];
      pBox := pstRet + MAGIC_SIZE;
    }

    /** Is this the user address of an allocated block? */
    ghost predicate Live(pBox: nat)
      reads this
    {
      exists i: nat :: i < uwBlkNum && i !in free && pBox == Addr(pool, uwBlkSize, i) + MAGIC_SIZE
    }

    /** `LOS_MemboxFree`: true for OS_OK.  It succeeds exactly on allocated blocks, so freeing twice is refused. */
    method MemboxFree(pBox: nat) returns (ok: bool, ghost i: nat)
      requires Valid() && pBox < WORD32
      modifies this`mem, this`free
      ensures Valid()
      ensures ok <==> old(Live(pBox))
      ensures ok ==>
                && i < uwBlkNum && pBox == Addr(pool, uwBlkSize, i) + MAGIC_SIZE && i !in old(free)
                   && free == [i] + old(free)
                && mem == old(mem)[Addr(pool, uwBlkSize, i) := LinkValue(pool, uwBlkSize, old(free),
                   0)][pool + 8 := Addr(pool, uwBlkSize, i)]
      ensures !ok ==> mem == old(mem) && free == old(free)
    {
      hide Addr;
      i := 0;
      if pBox == 0 {
        return false, 0;
      }
      var pstNode := (pBox + WORD32 - MAGIC_SIZE) % WORD32;
      NodeOf(pBox, pstNode);
      OnBlockMeaning(pool, uwBlkSize, uwBlkNum, pstNode);
      if !OnBlock(pool, uwBlkSize, uwBlkNum, pstNode) {
        return false, 0;
      }
      i := (pstNode + WORD32 - (pool + INFO_SIZE)) % WORD32 / uwBlkSize;
      assert i < uwBlkNum && pstNode == Addr(pool, uwBlkSize, i);
      SameBlock(pBox, i);
      MagicMeansAllocated(mem, pool, uwBlkSize, uwBlkNum, free, i);
      if mem[pstNode] != MAGIC {
        return false, i;
      }
      ghost var m0 := mem;
      assert LinkOk(mem, pool, uwBlkSize, free, 0);
      mem := mem[pstNode := mem[pool + 8]];
      mem := mem[pool + 8 := pstNode];
      GiveList(m0, mem, pool, uwBlkSize, uwBlkNum, free, i);
      free := [i] + free;
      ok := true;
    }

    lemma NodeOf(pBox: nat, node: nat)
      requires Valid() && 0 < pBox < WORD32 && node == (pBox + WORD32 - MAGIC_SIZE) % WORD32
      ensures forall i: nat | i < uwBlkNum ::
                pBox == Addr(pool, uwBlkSize, i) + MAGIC_SIZE <==> node == Addr(pool, uwBlkSize, i)
    {
      forall i: nat | i < uwBlkNum ensures pBox == Addr(pool, uwBlkSize, i) + MAGIC_SIZE <==>
          node == Addr(pool, uwBlkSize, i) {
        AddrMonotone(pool, uwBlkSize, i, uwBlkNum);
      }
    }

    lemma SameBlock(pBox: nat, i: nat)
      requires Valid() && i < uwBlkNum && pBox == Addr(pool, uwBlkSize, i) + MAGIC_SIZE
      ensures Live(pBox) <==> i !in free
    {
      if Live(pBox) {
        var j: nat :| j < uwBlkNum && j !in free && pBox == Addr(pool, uwBlkSize, j) + MAGIC_SIZE;
        BlocksApart(pool, uwBlkSize, i, j);
      }
    }
  }
}
