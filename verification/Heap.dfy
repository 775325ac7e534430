/** The dynamic memory pool of kernel/base/mem/los_memory.c, rewritten in place word by word. */
module Heap {
  import opened MultiHead
  import opened HeapState

  predicate UsedFlag(w: int) { (w / USED_FLAG) % 2 == 1 }

  function SizeOf(w: int): int { if UsedFlag(w) then w - USED_FLAG else w }

  ghost predicate InfoOf(mem: Mem, pool: nat, uwPoolSize: nat)
  {
    pool in mem && pool + 4 in mem && mem[pool] == pool && mem[pool + 4] == uwPoolSize
  }

  class MemPool {
    var mem: Mem
    const pool: nat
    const uwPoolSize: nat
    ghost const end: nat := if uwPoolSize >= MIN_POOL_SIZE then pool + uwPoolSize - HEAD_SIZE else 0
    ghost var chain: seq<Block>        // the nodes in address order, the end sentinel last
    ghost var bins: seq<seq<nat>>      // the 27 free lists, head to tail

    /** Every word of the pool can be read and written. */
    ghost predicate Readable()
      reads this
    {
      && pool > 0 && pool % 4 == 0 && MIN_POOL_SIZE <= uwPoolSize && uwPoolSize % 4 == 0
      && pool + uwPoolSize <= WORD
      && forall a | pool <= a < pool + uwPoolSize && a % 4 == 0 :: a in mem
    }

    /** The two words of pool information hold the address and the size of the pool. */
    ghost predicate Info()
      reads this
    {
      InfoOf(mem, pool, uwPoolSize)
    }

    ghost predicate State()
      reads this
    {
      Readable() && Info() && Rep(mem, pool, end, chain, bins)
    }

    /** The invariant between operations. */
    ghost predicate Valid()
      reads this
    {
      State() && Indexed(chain, bins) && NoFreeNeighbours(chain)
    }

    // -------------------------------------------------------------- list operations

    /** The statements of `LOS_ListAdd`, for any memory in which the words exist. */
    method AddStores(pstList: nat, pstNode: nat, ghost h: nat, ghost n: nat)
      requires pstList == h && h + 4 in mem && pstNode in mem && pstNode + 4 in mem && n in mem && mem[h + 4] == n
      requires pstNode < WORD && h < WORD
      modifies this`mem
      ensures mem == old(mem)[pstNode + 4 := n][pstNode := h][n := pstNode][h + 4 := pstNode]
      ensures mem.Keys == old(mem).Keys
    {
      var pstFirst := mem[pstList + 4];
      mem := mem[pstNode + 4 := pstFirst];
      mem := mem[pstNode := pstList];
      mem := mem[pstFirst := pstNode];
      mem := mem[pstList + 4 := pstNode];
    }

    /** The statements of `LOS_ListDelete`, for any memory in which the words exist. */
    method DeleteStores(pstNode: nat)
      requires pstNode in mem && pstNode + 4 in mem
      requires mem[pstNode + 4] in mem && mem[pstNode] + 4 in mem
      modifies this`mem
      ensures var before, after := old(mem)[pstNode], old(mem)[pstNode + 4];
              mem == old(mem)[after := before][before + 4 := after][pstNode + 4 := 0][pstNode := 0]
      ensures mem.Keys == old(mem).Keys
    {
      var pstPrev, pstNext := mem[pstNode], mem[pstNode + 4];
      mem := mem[pstNext := pstPrev];
      mem := mem[pstPrev + 4 := pstNext];
      mem := mem[pstNode + 4 := 0];
      mem := mem[pstNode := 0];
    }

    /** `LOS_ListAdd`. */
    method ListAdd(pstList: nat, pstNode: nat, ghost k: nat)
      requires State() && k < LISTS && pstList == ListHead(pool, k)
      requires pstNode in Addrs(chain) && NotEntered(bins, pstNode)
      modifies this`mem, this`bins
      ensures State() && bins == Insert(old(bins), k, pstNode)
      ensures Frame(old(mem), mem, pool, Addrs(chain))
    {
      assert |bins| == LISTS;
      hide Frame, Ring, Rings, Entered, HeadersOf, NotEntered, Tiles, Site, Addrs, InfoOf;
      ghost var m0 := mem;
      ListWords(k, pstNode);
      ghost var pstFirst: nat := mem[pstList + 4];
      AddStores(pstList, pstNode, pstList, pstFirst);
      ListAddRings(m0, mem, pool, end, chain, bins, k, pstNode);
      InsertEntered(chain, bins, k, pstNode);
      HeadersKept(m0, mem, pool, end, chain, {pstNode, pstFirst, pstList});
      LinksFrame(m0, mem, pool, end, chain, {pstNode, pstFirst, pstList});
      InfoKept(m0);
      bins := Insert(bins, k, pstNode);
    }

    /** `LOS_ListDelete` of the `p`-th entry of list `k`. */
    method ListDelete(pstNode: nat, ghost k: nat, ghost p: nat)
      requires State() && k < LISTS && p < |bins[k]| && bins[k][p] == pstNode
      modifies this`mem, this`bins
      ensures State() && bins == Remove(old(bins), k, p) && NotEntered(bins, pstNode)
      ensures Frame(old(mem), mem, pool, Addrs(chain))
    {
      assert |bins| == LISTS;
      hide Frame, Ring, Rings, Entered, HeadersOf, NotEntered, Tiles, Site, Addrs, InfoOf;
      ghost var m0 := mem;
      EntryWords(k, p);
      ghost var pstPrev: nat, pstNext: nat := mem[pstNode], mem[pstNode + 4];
      DeleteStores(pstNode);
      ListDeleteRings(m0, mem, pool, end, chain, bins, k, p);
      RemoveEntered(chain, bins, k, p);
      HeadersKept(m0, mem, pool, end, chain, {pstNode, pstPrev, pstNext});
      LinksFrame(m0, mem, pool, end, chain, {pstNode, pstPrev, pstNext});
      InfoKept(m0);
      bins := Remove(bins, k, p);
    }

    /** The pool information, after stores that keep to list heads and headers. */
    lemma InfoKept(m0: Mem)
      requires Tiles(chain, pool + FIRST_OFFSET, end) && Frame(m0, mem, pool, Addrs(chain))
      requires InfoOf(m0, pool, uwPoolSize)
      ensures Info()
    {
      InfoFrame(m0, mem, pool, end, chain);
    }

    lemma NodeWords(i: nat)
      requires State() && i < |chain|
      ensures var a := chain[i].addr;
              && a % 4 == 0 && pool + FIRST_OFFSET <= a && a + HEAD_SIZE <= WORD
              && a in mem && a + 4 in mem && a + 8 in mem && a + 12 in mem
              && mem[a + 12] == chain[i].Word() && mem[a + 8] == PreAddr(chain, i)
    {
      NodesInside(chain, pool + FIRST_OFFSET, end);
      assert chain[i].Fits() && HeaderAt(mem, chain, i);
    }

    lemma SiteWords(s: nat)
      requires State() && Site(pool, chain, s)
      ensures s % 4 == 0 && s in mem && s + 4 in mem && s + HEAD_SIZE <= WORD
    {
      if s in Addrs(chain) {
        var i := AddrIndex(chain, s);
        NodeWords(i);
      } else {
        NodesInside(chain, pool + FIRST_OFFSET, end);
        assert chain[0].addr == pool + FIRST_OFFSET;
      }
    }

    lemma ListWords(k: nat, x: nat)
      requires State() && k < LISTS && x in Addrs(chain)
      ensures var h := ListHead(pool, k);
              && h in mem && h + 4 in mem && mem[h + 4] >= 0 && Site(pool, chain, mem[h + 4]) && mem[h + 4] in mem
              && x in mem && x + 4 in mem && x < WORD && h < WORD && Site(pool, chain, h) && Site(pool, chain, x)
    {
      assert LinkAt(mem, RingSeq(ListHead(pool, k), bins[k]), 0);
      RingMembers(pool, end, chain, bins, k, 1);
      SiteWords(mem[ListHead(pool, k) + 4]);
      SiteWords(x);
      SiteWords(ListHead(pool, k));
    }

    lemma EntryWords(k: nat, p: nat)
      requires State() && k < LISTS && p < |bins[k]|
      ensures var x := bins[k][p]; x in mem && x + 4 in mem && Site(pool, chain, x)
      ensures var before := mem[bins[k][p]];
              before >= 0 && Site(pool, chain, before) && before in mem && before + 4 in mem && before + 4 < WORD
      ensures var after := mem[bins[k][p] + 4];
              after >= 0 && Site(pool, chain, after) && after in mem && after + 4 in mem
    {
      var r := RingSeq(ListHead(pool, k), bins[k]);
      assert LinkAt(mem, r, p) && LinkAt(mem, r, p + 1);
      RingMembers(pool, end, chain, bins, k, p);
      RingMembers(pool, end, chain, bins, k, p + 1);
      RingMembers(pool, end, chain, bins, k, p + 2);
      SiteWords(r[p]);
      SiteWords(r[p + 1]);
      SiteWords(r[p + 2]);
    }
  
    // -------------------------------------------------------------- chain operations

    /** `OS_MEM_HEAD`: the list head for a size, 0 for NULL. */
    method MemHead(uwSize: nat) returns (pstListHead: nat)
      requires pool + FIRST_OFFSET <= WORD
      ensures pstListHead == if Head(uwSize) < 0 then 0 else ListHead(pool, Head(uwSize))
    {
      var idx := Log2(uwSize);
      if idx > MAX_LOG2 {
        return 0;
      }
      if idx <= MIN_LOG2 {
        idx := MIN_LOG2;
      }
      return pool + 8 + 8 * (idx - MIN_LOG2);
    }

    /** The statements of `osMemMergeNode`, for any memory in which the words exist. */
    method MergeStores(pstNode: nat, ghost pre: nat, ghost next: nat, ghost s0: nat, ghost s1: nat)
      requires pstNode + 12 in mem && pstNode + 8 in mem && pstNode + 4 in mem && pstNode in mem
      requires pre + 12 in mem && next + 8 in mem && pre + 16 <= pstNode && pstNode + 16 <= next
      requires mem[pstNode + 8] == pre && mem[pre + 12] == s0 && mem[pstNode + 12] == s1
      requires pstNode + s1 == next && s0 + s1 < WORD
      modifies this`mem
      ensures mem == MergeWrites(old(mem), pre, pstNode, next, s0 + s1)
      ensures mem.Keys == old(mem).Keys
    {
      var pstPre: nat := mem[pstNode + 8];
      mem := mem[pstPre + 12 := mem[pstPre + 12] + mem[pstNode + 12]];
      var pstNext: nat := pstNode + mem[pstNode + 12];
      mem := mem[pstNext + 8 := mem[pstNode + 8]];
      mem := mem[pstNode := 0];
      mem := mem[pstNode + 4 := 0];
      mem := mem[pstNode + 8 := 0];
    }

    lemma MergeWords(i: nat)
      requires State() && 0 < i < |chain| - 1 && !chain[i - 1].used && !chain[i].used
      ensures var pre, node, next, s0, s1 := chain[i - 1].addr, chain[i].addr, chain[i + 1].addr, chain[i - 1].size,
              chain[i].size;
              && node + 12 in mem && node + 8 in mem && node + 4 in mem && node in mem
              && pre + 12 in mem && next + 8 in mem && pre + 16 <= node && node + 16 <= next
              && mem[node + 8] == pre && mem[pre + 12] == s0 && mem[node + 12] == s1
              && node + s1 == next
    {
      NodeWords(i - 1);
      NodeWords(i);
      NodeWords(i + 1);
      Two(chain, pool + FIRST_OFFSET, end, i - 1, i);
      Two(chain, pool + FIRST_OFFSET, end, i, i + 1);
    }

    /** `osMemMergeNode`: the node before swallows this one. */
    method MergeNode(pstNode: nat, ghost i: nat)
      requires State() && 0 < i < |chain| - 1 && pstNode == chain[i].addr
      requires !chain[i - 1].used && !chain[i].used && NotEntered(bins, pstNode)
      modifies this`mem, this`chain
      ensures State() && chain == Merged(old(chain), i)
      ensures Addrs(chain) == Addrs(old(chain)) - {pstNode}
      ensures Frame(old(mem), mem, pool, Addrs(old(chain)))
    {
      hide Frame, Rings, Entered, HeadersOf, Tiles, NotEntered;
      MergeWords(i);
      MergeRep(mem, pool, end, chain, bins, i);
      MergeFrame(mem, pool, chain, i);
      ghost var m0 := mem;
      MergeStores(pstNode, chain[i - 1].addr, chain[i + 1].addr, chain[i - 1].size, chain[i].size);
      InfoFrame(m0, mem, pool, end, chain);
      chain := Merged(chain, i);
    }
  
    /** The chain statements of `osMemSpitNode`, for any memory in which the words exist. */
    method CutStores(pstAllocNode: nat, uwAllocSize: nat, ghost next: nat, ghost size: nat)
      returns (pstNewFreeNode: nat, pstNextNode: nat)
      requires pstAllocNode + 12 in mem && next + 8 in mem
      requires pstAllocNode + uwAllocSize + 8 in mem && pstAllocNode + uwAllocSize + 12 in mem
      requires 16 <= uwAllocSize && uwAllocSize + 16 <= size && pstAllocNode + size == next && next < WORD
      requires mem[pstAllocNode + 12] == size && size < USED_FLAG
      modifies this`mem
      ensures pstNewFreeNode == pstAllocNode + uwAllocSize && pstNextNode == next
      ensures mem == CutWrites(old(mem), pstAllocNode, pstNewFreeNode, next, uwAllocSize, size - uwAllocSize)
      ensures mem.Keys == old(mem).Keys
    {
      pstNewFreeNode := pstAllocNode + uwAllocSize;
      mem := mem[pstNewFreeNode + 8 := pstAllocNode];
      mem := mem[pstNewFreeNode + 12 := mem[pstAllocNode + 12] - uwAllocSize];
      mem := mem[pstAllocNode + 12 := uwAllocSize];
      pstNextNode := pstNewFreeNode + SizeOf(mem[pstNewFreeNode + 12]);
      mem := mem[pstNextNode + 8 := pstNewFreeNode];
    }

    lemma CutWords(i: nat, s: nat)
      requires State() && i < |chain| - 1 && !chain[i].used
      requires HEAD_SIZE <= s && s + HEAD_SIZE <= chain[i].size && s % 4 == 0
      ensures var a, next, size := chain[i].addr, chain[i + 1].addr, chain[i].size;
              && a + 12 in mem && next + 8 in mem && a + s + 8 in mem && a + s + 12 in mem
              && a + size == next && next < WORD && mem[a + 12] == size && size < USED_FLAG
    {
      hide *;
      StateFacts();
      Adjacent(chain, pool + FIRST_OFFSET, end, i);
      NodeWords(i);
      NodeWords(i + 1);
      NodeSize(i);
      Mod4Less(chain[i].addr, s);
      WordsInside(chain[i].addr + s, chain[i + 1].addr);
    }

    lemma WordsInside(a: nat, limit: nat)
      requires Readable() && pool <= a && a + HEAD_SIZE <= limit <= end && a % 4 == 0
      ensures a + 8 in mem && a + 12 in mem && limit < WORD
    {
      assert (a + 8) % 4 == 0 && (a + 12) % 4 == 0;
    }

    method CutNode(pstAllocNode: nat, uwAllocSize: nat, ghost i: nat) returns (pstNewFreeNode: nat, pstNextNode: nat)
      requires State() && i < |chain| - 1 && pstAllocNode == chain[i].addr && !chain[i].used
      requires HEAD_SIZE <= uwAllocSize && uwAllocSize + HEAD_SIZE <= chain[i].size && uwAllocSize % 4 == 0
      modifies this`mem, this`chain
      ensures State() && chain == Cut(old(chain), i, uwAllocSize)
      ensures pstNewFreeNode == pstAllocNode + uwAllocSize && pstNextNode == old(chain)[i + 1].addr
      ensures Addrs(chain) == Addrs(old(chain)) + {pstNewFreeNode} && NotEntered(bins, pstNewFreeNode)
      ensures Frame(old(mem), mem, pool, Addrs(chain))
    {
      hide Frame, Rings, Entered, HeadersOf, Tiles, NotEntered;
      CutWords(i, uwAllocSize);
      CutRep(mem, pool, end, chain, bins, i, uwAllocSize);
      CutFrame(mem, pool, chain, i, uwAllocSize);
      ghost var m0 := mem;
      pstNewFreeNode, pstNextNode := CutStores(pstAllocNode, uwAllocSize, chain[i + 1].addr, chain[i].size);
      chain := Cut(chain, i, uwAllocSize);
      InfoFrame(m0, mem, pool, end, chain);
    }

    /** Join `c[j]` with the next node if that is free, taking the next node off its list first. */
    method AbsorbNext(pstNextNode: nat, ghost j: nat)
      requires State() && j < |chain| - 1 && !chain[j].used && pstNextNode == chain[j + 1].addr
      requires !chain[j + 1].used ==> ListedUnder(bins, chain[j + 1])
      modifies this`mem, this`chain, this`bins
      ensures State() && chain == AbsorbChain(old(chain), j) && bins == AbsorbBins(old(chain), old(bins), j)
      ensures Addrs(chain) <= Addrs(old(chain))
      ensures Frame(old(mem), mem, pool, Addrs(old(chain)))
    {
      hide Frame, Rings, Entered, HeadersOf, NotEntered, LinkAt, HeaderAt;
      NodeWords(j + 1);
      FrameRefl(mem, pool, Addrs(chain));
      if !UsedFlag(mem[pstNextNode + 12]) {
        ghost var m0, c0 := mem, chain;
        ghost var k := Head(chain[j + 1].size);
        ListDelete(pstNextNode, k, PlaceOf(bins[k], pstNextNode));
        ghost var m1 := mem;
        MergeNode(pstNextNode, j + 1);
        FrameTrans(m0, m1, mem, pool, Addrs(c0), Addrs(c0), Addrs(c0));
      }
    }

    /** Enter a free node in the list of its size. */
    method FileNode(pstNode: nat, ghost j: nat)
      requires State() && j < |chain| - 1 && !chain[j].used && pstNode == chain[j].addr && NotEntered(bins, pstNode)
      modifies this`mem, this`bins
      ensures State() && bins == FileIn(old(bins), chain[j].size, pstNode)
      ensures Frame(old(mem), mem, pool, Addrs(chain))
    {
      assert |bins| == LISTS && chain[j].Fits();
      hide Frame, Rings, Entered, HeadersOf, NotEntered, LinkAt, HeaderAt, Tiles;
      NodeWords(j);
      AddrIn(chain, j);
      HeadInRange(chain[j].size);
      var pstListHead := MemHead(mem[pstNode + 12]);
      if pstListHead == 0 {
        return;
      }
      ListAdd(pstListHead, pstNode, Head(chain[j].size));
    }

    /** Join `c[j]` with a free successor and enter it in the list of its size: the common tail of
        `osMemSpitNode` and `osMemFreeNode`. */
    method JoinAndFile(pstNode: nat, pstNextNode: nat, ghost j: nat)
      requires State() && j < |chain| - 1 && !chain[j].used && pstNode == chain[j].addr
               && pstNextNode == chain[j + 1].addr
      requires NotEntered(bins, pstNode) && (!chain[j + 1].used ==> ListedUnder(bins, chain[j + 1]))
      modifies this`mem, this`chain, this`bins
      ensures State() && chain == AbsorbChain(old(chain), j)
      ensures bins == JoinBins(old(chain), old(bins), j)
      ensures Addrs(chain) <= Addrs(old(chain))
      ensures Frame(old(mem), mem, pool, Addrs(old(chain)))
    {
      hide *;
      ghost var m0, nodes := mem, Addrs(chain);
      StateFacts();
      EndUsed(chain, pool + FIRST_OFFSET, end);
      AbsorbElements(chain, j);
      AbsorbLeaves(chain, bins, j, pstNode);
      JoinBinsForm(chain, bins, j);
      AbsorbNext(pstNextNode, j);
      ghost var m1 := mem;
      FileNode(pstNode, j);
      FrameTrans(m0, m1, mem, pool, nodes, Addrs(chain), nodes);
    }

    /** `osMemSpitNode`: cut `c[i]` to `uwAllocSize` bytes and file the rest, joined with a free successor. */
    method SplitNode(pstAllocNode: nat, uwAllocSize: nat, ghost i: nat)
      requires State() && i < |chain| - 1 && pstAllocNode == chain[i].addr && !chain[i].used
      requires HEAD_SIZE <= uwAllocSize && uwAllocSize + HEAD_SIZE <= chain[i].size && uwAllocSize % 4 == 0
      requires !chain[i + 1].used ==> ListedUnder(bins, chain[i + 1])
      modifies this`mem, this`chain, this`bins
      ensures State() && chain == SplitChain(old(chain), i, uwAllocSize)
      ensures bins == SplitBins(old(chain), old(bins), i, uwAllocSize)
      ensures Addrs(chain) <= Addrs(old(chain)) + {pstAllocNode + uwAllocSize}
      ensures Frame(old(mem), mem, pool, Addrs(old(chain)) + {pstAllocNode + uwAllocSize})
    {
      hide *;
      ghost var m0 := mem;
      StateFacts();
      EndUsed(chain, pool + FIRST_OFFSET, end);
      SplitElements(chain, i, uwAllocSize);
      SplitForms(chain, bins, i, uwAllocSize);
      var pstNewFreeNode, pstNextNode := CutNode(pstAllocNode, uwAllocSize, i);
      ghost var m1, nodes := mem, Addrs(chain);
      JoinAndFile(pstNewFreeNode, pstNextNode, i + 1);
      FrameTrans(m0, m1, mem, pool, nodes, nodes, nodes);
    }

    /** `OS_MEM_NODE_SET_USED_FLAG` and `OS_MEM_NODE_GET_SIZE` written back. */
    method SetFlag(pstNode: nat, used: bool, ghost i: nat)
      requires State() && i < |chain| - 1 && pstNode == chain[i].addr
      modifies this`mem, this`chain
      ensures State() && chain == Flagged(old(chain), i, used) && Addrs(chain) == Addrs(old(chain))
      ensures Frame(old(mem), mem, pool, Addrs(chain))
    {
      ghost var m0 := mem;
      assert chain[i].Fits();
      hide Frame, Rings, Entered, HeadersOf, NotEntered, LinkAt, HeaderAt, Tiles;
      NodeWords(i);
      FlagRep(mem, pool, end, chain, bins, i, used);
      FlaggedTiles(chain, pool + FIRST_OFFSET, end, i, used);
      AddrIn(chain, i);
      mem := mem[pstNode + 12 := SizeOf(mem[pstNode + 12]) + if used then USED_FLAG else 0];
      NodeFrame(m0, mem, pool, chain, {pstNode});
      chain := Flagged(chain, i, used);
    }

    lemma LastUsed()
      requires State()
      ensures |chain| >= 2 && chain[|chain| - 1].used
    {
      EndUsed(chain, pool + FIRST_OFFSET, end);
    }

    /** Fold a free node into the free node before it, and that one with a free successor. */
    method FoldIntoPre(pstNode: nat, pstPreNode: nat, ghost i: nat)
      requires State() && 0 < i < |chain| - 1 && !chain[i - 1].used && !chain[i].used && NotEntered(bins, pstNode)
      requires pstNode == chain[i].addr && pstPreNode == chain[i - 1].addr
      requires !chain[i + 1].used ==> ListedUnder(bins, chain[i + 1])
      modifies this`mem, this`chain, this`bins
      ensures State() && chain == AbsorbChain(Merged(old(chain), i), i - 1)
      ensures bins == AbsorbBins(Merged(old(chain), i), old(bins), i - 1)
      ensures Addrs(chain) <= Addrs(old(chain)) && Frame(old(mem), mem, pool, Addrs(old(chain)))
    {
      hide *;
      ghost var m0, nodes := mem, Addrs(chain);
      LastUsed();
      MergedNear(chain, i);
      MergeNode(pstNode, i);
      ghost var m1, n1 := mem, Addrs(chain);
      var pstNextNode := NextNode(pstPreNode, i - 1);
      AbsorbNext(pstNextNode, i - 1);
      FrameTrans(m0, m1, mem, pool, nodes, n1, nodes);
    }

    /** The branch of `osMemFreeNode` in which the node before is free. */
    method FreeIntoPre(pstNode: nat, pstPreNode: nat, ghost i: nat)
      requires State() && 0 < i < |chain| - 1 && !chain[i - 1].used && !chain[i].used
      requires pstNode == chain[i].addr && pstPreNode == chain[i - 1].addr
      requires NotEntered(bins, pstNode) && ListedUnder(bins, chain[i - 1])
      requires !chain[i + 1].used ==> ListedUnder(bins, chain[i + 1])
      modifies this`mem, this`chain, this`bins
      ensures State() && chain == AbsorbChain(Merged(old(chain), i), i - 1)
      ensures bins == PreBins(old(chain), old(bins), i)
      ensures Frame(old(mem), mem, pool, Addrs(old(chain)))
    {
      ghost var m0, nodes, pre := mem, Addrs(chain), chain[i - 1];
      EndUsed(chain, pool + FIRST_OFFSET, end);
      PreBinsForm(chain, bins, i);
      PreStays(chain, pool, end, bins, i);
      hide *;
      FoldIntoPre(pstNode, pstPreNode, i);
      ghost var m1, n1 := mem, Addrs(chain);
      Refile(pstPreNode, pre, i - 1);
      FrameTrans(m0, m1, mem, pool, nodes, n1, nodes);
    }

    /** `OS_MEM_NEXT_NODE`. */
    method NextNode(pstNode: nat, ghost i: nat) returns (pstNextNode: nat)
      requires State() && i < |chain| - 1 && pstNode == chain[i].addr
      ensures pstNextNode == chain[i + 1].addr
    {
      NodeWords(i);
      Two(chain, pool + FIRST_OFFSET, end, i, i + 1);
      pstNextNode := pstNode + SizeOf(mem[pstNode + 12]);
    }

    /** Take a node off the list in which the block `b` is entered and enter it in the list of its size. */
    method Refile(pstNode: nat, ghost b: Block, ghost i: nat)
      requires State() && i < |chain| - 1 && pstNode == b.addr == chain[i].addr && !chain[i].used
               && ListedUnder(bins, b)
      modifies this`mem, this`bins
      ensures State() && bins == FileIn(TakeOff(old(bins), b), chain[i].size, pstNode)
      ensures Frame(old(mem), mem, pool, Addrs(chain))
    {
      ghost var m0, nodes := mem, Addrs(chain);
      hide Frame, Rep, Readable, NotEntered, Addrs;
      ListDelete(pstNode, Head(b.size), PlaceOf(bins[Head(b.size)], pstNode));
      ghost var m1 := mem;
      FileNode(pstNode, i);
      FrameTrans(m0, m1, mem, pool, nodes, nodes, nodes);
    }

    /** `osMemFreeNode`. */
    method FreeNode(pstNode: nat, ghost i: nat)
      requires Valid() && i < |chain| - 1 && chain[i].used && pstNode == chain[i].addr
      modifies this`mem, this`chain, this`bins
      ensures Valid() && chain == Coalesced(old(chain), i)
      ensures Frame(old(mem), mem, pool, Addrs(old(chain)))
    {
      hide *;
      ghost var m0, nodes := mem, Addrs(chain);
      ValidFacts();
      FreeKeepsIndex(chain, pool, end, bins, i);
      FreeFacts(i);
      SetFlag(pstNode, false, i);
      ghost var m1 := mem;
      var pstPreNode, free := PreFree(pstNode, i);
      if free {
        FreeIntoPre(pstNode, pstPreNode, i);
      } else {
        var pstNextNode := NextNode(pstNode, i);
        JoinAndFile(pstNode, pstNextNode, i);
      }
      FrameTrans(m0, m1, mem, pool, nodes, nodes, nodes);
      ValidFrom();
    }

    /** The two branches of `osMemFreeNode` compute the coalesced chain and the lists that go with it. */
    lemma FreeFacts(i: nat)
      requires Valid() && i < |chain| - 1 && chain[i].used
      ensures var f := Flagged(chain, i, false);
              && |f| == |chain| && !f[i].used && f[i].addr == chain[i].addr && f[i + 1] == chain[i + 1]
              && (i > 0 ==> f[i - 1] == chain[i - 1])
              && RunStart(f, i) == RunStart(chain, i)
              && (RunStart(chain, i) < i ==>
                    && i > 0 && !chain[i - 1].used && ListedUnder(bins, chain[i - 1])
                       && PreAddr(f, i) == chain[i - 1].addr
                    && |Merged(f, i)| == |f| - 1
                    && AbsorbChain(Merged(f, i), i - 1) == Coalesced(chain, i)
                       && PreBins(f, bins, i) == FreeBins(chain, bins, i))
              && (RunStart(chain, i) >= i ==>
                    AbsorbChain(f, i) == Coalesced(chain, i) && JoinBins(f, bins, i) == FreeBins(chain, bins, i))
      ensures NotEntered(bins, chain[i].addr)
      ensures !chain[i + 1].used ==> ListedUnder(bins, chain[i + 1])
    {
      FreeListed(i);
      hide Rep, Readable, Indexed, NoFreeNeighbours, NotEntered, ListedUnder, PreBins, JoinBins, Coalesced, AbsorbChain,
        TakeOff, FileIn, State, FreeBins;
      MergesCoalesce(chain, i);
      FreeBinsFlag(chain, bins, i);
    }

    /** The node to be freed is on no list yet; free neighbours are on theirs. */
    lemma FreeListed(i: nat)
      requires Valid() && i < |chain| - 1 && chain[i].used
      ensures i > 0 && !chain[i - 1].used ==> ListedUnder(bins, chain[i - 1])
      ensures !chain[i + 1].used ==> ListedUnder(bins, chain[i + 1])
      ensures NotEntered(bins, chain[i].addr) && chain[|chain| - 1].used
    {
      UsedNotEntered(chain, pool + FIRST_OFFSET, end, bins, i);
      if i > 0 && !chain[i - 1].used { IndexedListed(chain, bins, i - 1); }
      if !chain[i + 1].used { IndexedListed(chain, bins, i + 1); }
      hide Readable, Indexed, NoFreeNeighbours, NotEntered, ListedUnder;
    }

    /** Is there a node before, and is it free? */
    method PreFree(pstNode: nat, ghost i: nat) returns (pstPreNode: nat, free: bool)
      requires State() && i < |chain| - 1 && pstNode == chain[i].addr
      ensures pstPreNode == PreAddr(chain, i)
      ensures free <==> RunStart(chain, i) < i
    {
      NodeWords(i);
      if i > 0 { NodeWords(i - 1); }
      hide Rep, Readable;
      pstPreNode := mem[pstNode + 8];
      free := pstPreNode != 0 && !UsedFlag(mem[pstPreNode + 12]);
    }
  
    // -------------------------------------------------------------- searching and allocating

    /** Following the next link of the head or of an entry leads to the next entry, and at the end to the head. */
    lemma NextLink(k: nat, p: nat)
      requires State() && k < LISTS && p <= |bins[k]|
      ensures var x: nat := if p == 0 then ListHead(pool, k) else bins[k][p - 1];
              && x + 4 in mem
              && mem[x + 4] == if p < |bins[k]| then bins[k][p] else ListHead(pool, k)
    {
      var r := RingSeq(ListHead(pool, k), bins[k]);
      assert LinkAt(mem, r, p);
      assert r[p + 1] == if p < |bins[k]| then bins[k][p] else ListHead(pool, k);
    }

    lemma EntrySize(k: nat, p: nat)
      requires Valid() && k < LISTS && p < |bins[k]|
      ensures bins[k][p] != ListHead(pool, k) && bins[k][p] > 0 && bins[k][p] + 12 in mem
      ensures forall b | b in chain && b.addr == bins[k][p] :: mem[bins[k][p] + 12] == b.size
    {
      HeadsNotEntered(pool, end, chain, k);
      EntryFree(chain, pool + FIRST_OFFSET, end, bins, k, p);
      var i := AddrIndex(chain, bins[k][p]);
      NodeWords(i);
      assert chain[i] in chain;
      forall b | b in chain && b.addr == bins[k][p] ensures b == chain[i] {
        SameBlock(chain, pool + FIRST_OFFSET, end, b, chain[i]);
      }
    }

    /** `osMemFindSuitableFreeBlock`: first fit, from the list of the size upwards; 0 for NULL. */
    method FindSuitableFreeBlock(uwAllocSize: nat) returns (pstNode: nat, ghost k: nat, ghost p: nat)
      requires Valid() && uwAllocSize < WORD
      ensures pstNode == 0 ==> NoFit(chain, uwAllocSize)
      ensures pstNode != 0 ==> FirstFit(chain, bins, uwAllocSize, k, p) && bins[k][p] == pstNode
    {
      SearchFacts(uwAllocSize);
      hide Valid, Tiles, Indexed, Small, Head, FirstFit, NoFit, BigEnough, Searched;
      p := 0;
      k := if Head(uwAllocSize) < 0 then LISTS else Head(uwAllocSize);
      var pstListHead := MemHead(uwAllocSize);
      while pstListHead != 0
        invariant k <= LISTS && pstListHead == if k < LISTS then ListHead(pool, k) else 0
        invariant Searched(uwAllocSize, k)
        decreases LISTS - k
      {
        var found: bool;
        found, pstNode, p := SearchList(pstListHead, uwAllocSize, k);
        if found {
          FoundFit(uwAllocSize, k, p, pstNode);
          return;
        }
        SearchedNext(uwAllocSize, k);
        pstListHead := if pstListHead == ListHead(pool, LISTS - 1) then 0 else pstListHead + 8;
        k := k + 1;
      }
      SearchedAll(uwAllocSize);
      pstNode := 0;
    }

    /** The lists from the one of the size up to, but not including, list `k` hold nothing large enough. */
    ghost predicate Searched(uwAllocSize: nat, k: nat)
      reads this
    {
      && |bins| == LISTS && k <= LISTS
      && if Head(uwAllocSize) < 0 then k == LISTS
         else Head(uwAllocSize) <= k && forall j | Head(uwAllocSize) <= j < k :: Small(chain, bins[j], uwAllocSize)
    }

    lemma SearchedNext(uwAllocSize: nat, k: nat)
      requires Searched(uwAllocSize, k) && k < LISTS && Small(chain, bins[k], uwAllocSize)
      ensures Searched(uwAllocSize, k + 1)
    {
      hide Head, Small;
    }

    lemma SearchedAll(uwAllocSize: nat)
      requires Valid() && Searched(uwAllocSize, LISTS) && uwAllocSize < WORD
      ensures NoFit(chain, uwAllocSize)
    {
      SearchComplete(chain, pool + FIRST_OFFSET, end, bins, uwAllocSize);
      hide Rep, Readable, Tiles, Indexed, NoFreeNeighbours, Small, Head;
    }

    lemma SearchFacts(uwAllocSize: nat)
      requires Valid()
      ensures |bins| == LISTS && pool + FIRST_OFFSET <= WORD && pool > 0 && Head(uwAllocSize) < LISTS
      ensures Searched(uwAllocSize, if Head(uwAllocSize) < 0 then LISTS else Head(uwAllocSize))
    {
      hide Small;
    }

    ghost predicate BigEnough(pstNode: nat, uwAllocSize: nat)
      reads this
    {
      forall b | b in chain && b.addr == pstNode :: b.size >= uwAllocSize
    }

    lemma FoundFit(uwAllocSize: nat, k: nat, p: nat, pstNode: nat)
      requires Searched(uwAllocSize, k) && k < LISTS && p < |bins[k]| && bins[k][p] == pstNode
      requires BigEnough(pstNode, uwAllocSize) && Small(chain, bins[k][..p], uwAllocSize)
      ensures FirstFit(chain, bins, uwAllocSize, k, p)
    {
      hide Head, Small;
    }

    /** The inner loop of the search: walk one list along its next links. */
    method SearchList(pstListHead: nat, uwAllocSize: nat, ghost k: nat) returns (found: bool, pstTmp: nat, ghost p: nat)
      requires Valid() && k < LISTS && pstListHead == ListHead(pool, k)
      ensures !found ==> Small(chain, bins[k], uwAllocSize)
      ensures found ==> p < |bins[k]| && bins[k][p] == pstTmp && pstTmp > 0 && Small(chain, bins[k][..p], uwAllocSize)
      ensures found ==> BigEnough(pstTmp, uwAllocSize)
    {
      assert State() && |bins| == LISTS;
      hide State, Indexed, NoFreeNeighbours, Small, RingSeq;
      p := 0;
      NextLink(k, 0);
      pstTmp := mem[pstListHead + 4];
      SmallEmpty(chain, bins[k][..0], uwAllocSize);
      while pstTmp != pstListHead
        invariant p <= |bins[k]| && pstTmp == if p < |bins[k]| then bins[k][p] else pstListHead
        invariant Small(chain, bins[k][..p], uwAllocSize)
        decreases |bins[k]| - p
      {
        EntrySize(k, p);
        if mem[pstTmp + 12] >= uwAllocSize {
          return true, pstTmp, p;
        }
        SmallGrows(chain, bins[k], p, uwAllocSize);
        NextLink(k, p + 1);
        pstTmp := mem[pstTmp + 4];
        p := p + 1;
      }
      if p < |bins[k]| { EntrySize(k, p); }
      assert bins[k][..p] == bins[k];
      found := false;
    }
  
    /** Take a node off the list in which the block `b` is entered. */
    method Unfile(pstNode: nat, ghost b: Block)
      requires State() && pstNode == b.addr && ListedUnder(bins, b)
      modifies this`mem, this`bins
      ensures State() && bins == TakeOff(old(bins), b) && NotEntered(bins, pstNode)
      ensures Frame(old(mem), mem, pool, Addrs(chain))
    {
      hide State, Frame, NotEntered, Addrs;
      ListDelete(pstNode, Head(b.size), PlaceOf(bins[Head(b.size)], pstNode));
    }

    /** `osMemSetMagicNumAndTaskid`: the two link words of a used node carry a magic number and the owner. */
    method SetMagicNumAndTaskid(pstNode: nat, uwTaskID: word, ghost i: nat)
      requires State() && i < |chain| && pstNode == chain[i].addr && NotEntered(bins, pstNode)
      modifies this`mem
      ensures State() && Frame(old(mem), mem, pool, Addrs(chain))
      ensures pstNode in mem && mem[pstNode] == WORD - 1 - pstNode
    {
      NodeWords(i);
      MagicRep(mem, pool, end, chain, bins, i, WORD - 1 - pstNode, uwTaskID);
      hide Rep, Frame, NotEntered;
      mem := mem[pstNode := WORD - 1 - pstNode];
      mem := mem[pstNode + 4 := uwTaskID];
    }

    /** `osMemAllocWithCheck`: the payload address, 0 for NULL; `i` is the node that was used. */
    method AllocWithCheck(uwSize: nat, uwTaskID: word) returns (pPtr: nat, ghost i: nat)
      requires Valid() && HEAD_SIZE <= AllocSize(uwSize)
      modifies this`mem, this`chain, this`bins
      ensures Valid()
      ensures pPtr == 0 ==>
                NoFit(chain, AllocSize(uwSize)) && mem == old(mem) && chain == old(chain) && bins == old(bins)
      ensures pPtr != 0 ==> Allocated(old(mem), old(chain), old(bins), mem, chain, AllocSize(uwSize), i, pPtr)
    {
      var uwAllocSize := AllocSize(uwSize);
      var pstAllocNode: nat;
      ghost var k, p;
      i := 0;
      pstAllocNode, k, p := FindSuitableFreeBlock(uwAllocSize);
      if pstAllocNode == 0 {
        return 0, 0;
      }
      hide *;
      i := TakeFound(pstAllocNode, uwAllocSize, uwTaskID, k, p);
      pPtr := pstAllocNode + HEAD_SIZE;
    }

    method TakeFound(pstAllocNode: nat, uwAllocSize: nat, uwTaskID: word, ghost k: nat, ghost p: nat)
      returns (ghost i: nat)
      requires Valid() && FirstFit(chain, bins, uwAllocSize, k, p) && bins[k][p] == pstAllocNode
      requires HEAD_SIZE <= uwAllocSize && uwAllocSize % 4 == 0
      modifies this`mem, this`chain, this`bins
      ensures Valid() && Allocated(old(mem), old(chain), old(bins), mem, chain, uwAllocSize, i,
              pstAllocNode + HEAD_SIZE)
    {
      i := FoundNode(uwAllocSize, k, p);
      ghost var m0, c0, b0 := mem, chain, bins;
      assert Tiles(chain, pool + FIRST_OFFSET, end);
      hide State, Indexed, NoFreeNeighbours, FirstFit, Frame, AllocChain, OthersKept, Tiles, Addrs, Allocated;
      TakeNode(pstAllocNode, uwAllocSize, uwTaskID, i);
      AllocOthers(m0, c0, mem, pool, end, i, uwAllocSize);
      MakeAllocated(m0, c0, b0, mem, uwAllocSize, i, k, p);
    }

    /** What a successful allocation is: first fit, cut to size, every block in use untouched. */
    ghost predicate Allocated(m0: Mem, c0: seq<Block>, bins0: seq<seq<nat>>, m1: Mem, c1: seq<Block>, need: nat, i: nat,
                              pPtr: nat)
    {
      && i < |c0| - 1 && !c0[i].used && need <= c0[i].size && pPtr == c0[i].addr + HEAD_SIZE
      && MetFirst(c0, bins0, need, c0[i].addr)
      && c1 == AllocChain(c0, i, need)
      && OthersKept(m0, c0, m1, c1, 0)
      && Frame(m0, m1, pool, Addrs(c0) + {c0[i].addr + need})
    }

    lemma MakeAllocated(m0: Mem, c0: seq<Block>, b0: seq<seq<nat>>, m1: Mem, need: nat, i: nat, k: nat, p: nat)
      requires i < |c0| - 1 && !c0[i].used && need <= c0[i].size
      requires FirstFit(c0, b0, need, k, p) && b0[k][p] == c0[i].addr
      requires OthersKept(m0, c0, m1, AllocChain(c0, i, need), 0)
      requires Frame(m0, m1, pool, Addrs(c0) + {c0[i].addr + need})
      ensures Allocated(m0, c0, b0, m1, AllocChain(c0, i, need), need, i, c0[i].addr + HEAD_SIZE)
    {
    }

    /** The node that the search has found, as a position in the chain. */
    lemma FoundNode(need: nat, k: nat, p: nat) returns (i: nat)
      requires Valid() && FirstFit(chain, bins, need, k, p)
      ensures i < |chain| - 1 && !chain[i].used && need <= chain[i].size && bins[k][p] == chain[i].addr
    {
      i := AddrIndex(chain, bins[k][p]);
      assert chain[i] in chain;
      EntryFree(chain, pool + FIRST_OFFSET, end, bins, k, p);
      EndUsed(chain, pool + FIRST_OFFSET, end);
    }

    /** Cut a free node whose successor is used, if the rest is worth a node. */
    method CutIfLarge(pstNode: nat, uwAllocSize: nat, ghost i: nat)
      requires State() && i < |chain| - 1 && !chain[i].used && chain[i + 1].used && pstNode == chain[i].addr
      requires HEAD_SIZE <= uwAllocSize && uwAllocSize % 4 == 0
      modifies this`mem, this`chain, this`bins
      ensures State() && chain == CutIfWorth(old(chain), i, uwAllocSize)
              && bins == CutBins(old(chain), old(bins), i, uwAllocSize)
      ensures Addrs(chain) <= Addrs(old(chain)) + {pstNode + uwAllocSize}
      ensures Frame(old(mem), mem, pool, Addrs(old(chain)) + {pstNode + uwAllocSize})
    {
      NodeWords(i);
      FrameRefl(mem, pool, Addrs(chain) + {pstNode + uwAllocSize});
      var split := uwAllocSize + HEAD_SIZE + ALIGN_SIZE <= mem[pstNode + 12];
      CutFormsOf(chain, bins, i, uwAllocSize);
      assert split <==> Splits(chain[i].size, uwAllocSize);
      assert split ==> uwAllocSize + HEAD_SIZE <= chain[i].size;
      hide *;
      if split {
        SplitNode(pstNode, uwAllocSize, i);
      }
    }

    /** Take a node off its list and mark it used. */
    method MarkUsed(pstNode: nat, uwTaskID: word, ghost b: Block, ghost i: nat)
      requires State() && i < |chain| - 1 && pstNode == chain[i].addr == b.addr && ListedUnder(bins, b)
      modifies this`mem, this`chain, this`bins
      ensures State() && chain == Flagged(old(chain), i, true) && bins == TakeOff(old(bins), b)
      ensures Frame(old(mem), mem, pool, Addrs(old(chain)))
    {
      ghost var m0, nodes := mem, Addrs(chain);
      hide *;
      Unfile(pstNode, b);
      ghost var m1 := mem;
      SetMagicNumAndTaskid(pstNode, uwTaskID, i);
      ghost var m2 := mem;
      FrameTrans(m0, m1, m2, pool, nodes, nodes, nodes);
      SetFlag(pstNode, true, i);
      FrameTrans(m0, m2, mem, pool, nodes, nodes, nodes);
    }

    /** Cut the free node `c[i]` if it is worth it, take it off its list and mark it used. */
    method TakeNode(pstAllocNode: nat, uwAllocSize: nat, uwTaskID: word, ghost i: nat)
      requires State() && Indexed(chain, bins) && NoFreeNeighbours(chain) && i < |chain| - 1 && !chain[i].used
               && pstAllocNode == chain[i].addr
      requires HEAD_SIZE <= uwAllocSize <= chain[i].size && uwAllocSize % 4 == 0
      modifies this`mem, this`chain, this`bins
      ensures State() && Indexed(chain, bins) && NoFreeNeighbours(chain)
      ensures chain == AllocChain(old(chain), i, uwAllocSize)
      ensures Frame(old(mem), mem, pool, Addrs(old(chain)) + {pstAllocNode + uwAllocSize})
    {
      ghost var m0, c0, b0, b := mem, chain, bins, chain[i];
      ghost var nodes := Addrs(chain) + {pstAllocNode + uwAllocSize};
      AllocKeepsIndex(chain, pool + FIRST_OFFSET, end, bins, i, uwAllocSize);
      IndexedListed(chain, bins, i);
      TakeForms(chain, bins, i, uwAllocSize);
      CutForms(chain, bins, i, uwAllocSize, b);
      hide *;
      CutIfLarge(pstAllocNode, uwAllocSize, i);
      ghost var m1, n1 := mem, Addrs(chain);
      MarkUsed(pstAllocNode, uwTaskID, b, i);
      FrameTrans(m0, m1, mem, pool, nodes, n1, nodes);
    }
  
    // -------------------------------------------------------------- the interface

    /** The raw memory region; `MemInit` makes a pool of it. */
    constructor (pool: nat, uwPoolSize: nat, mem: Mem)
      ensures this.pool == pool && this.uwPoolSize == uwPoolSize && this.mem == mem
    {
      this.pool := pool;
      this.uwPoolSize := uwPoolSize;
      this.mem := mem;
      chain := [];
      bins := [];
    }

    /** What the caller of `LOS_MemInit` hands over: a 4-aligned region of readable words. */
    ghost predicate Region()
      reads this
    {
      && pool % 4 == 0 && uwPoolSize % 4 == 0 && pool + uwPoolSize <= WORD
      && forall a | pool <= a < pool + uwPoolSize && a % 4 == 0 :: a in mem
    }

    /** `LOS_DLnkInitMultiHead`. */
    method InitMultiHead()
      requires Region() && uwPoolSize >= MIN_POOL_SIZE
      modifies this`mem
      ensures Region() && EmptyHeads(mem, pool, LISTS)
      ensures mem.Keys == old(mem).Keys
      ensures forall a | a in mem && (a < pool + 8 || pool + FIRST_OFFSET <= a) :: mem[a] == old(mem)[a]
    {
      var i := 0;
      var pstListHead := pool + 8;
      while i < LISTS
        invariant i <= LISTS && pstListHead == ListHead(pool, i)
        invariant mem.Keys == old(mem).Keys && EmptyHeads(mem, pool, i)
        invariant forall a | a in mem && (a < pool + 8 || pool + FIRST_OFFSET <= a) :: mem[a] == old(mem)[a]
      {
        assert pstListHead in mem && pstListHead + 4 in mem;
        mem := mem[pstListHead := pstListHead];
        mem := mem[pstListHead + 4 := pstListHead];
        i, pstListHead := i + 1, pstListHead + 8;
      }
    }

    /** `LOS_MemInit`: true for OS_OK. */
    method MemInit(uwTaskID: word) returns (ok: bool)
      requires Region()
      modifies this`mem, this`chain, this`bins
      ensures ok <==> pool != 0 && uwPoolSize >= MIN_POOL_SIZE && uwPoolSize - FIRST_OFFSET - HEAD_SIZE < USED_FLAG
      ensures ok ==> Valid() && chain == FreshChain(pool, end)
      ensures ok ==> pool in mem && pool + 4 in mem && mem[pool] == pool && mem[pool + 4] == uwPoolSize
    {
      if pool == 0 || uwPoolSize < MIN_POOL_SIZE {
        return false;
      }
      RegionWords();
      PoolInfo();
      InitMultiHead();
      var pstNewNode := pool + FIRST_OFFSET;
      var size := uwPoolSize - FIRST_OFFSET - HEAD_SIZE;
      FirstHead(size);
      hide Head, EmptyHeads, Region, Valid;
      var pstListHead := MemHead(size);
      FirstNode(pstNewNode, size);
      if pstListHead == 0 {
        return false;
      }
      EnterFirst(pstListHead, pstNewNode, size, uwTaskID);
      ok := true;
    }

    /** The header of the one node that covers the pool. */
    method FirstNode(pstNewNode: nat, size: nat)
      requires Region() && uwPoolSize >= MIN_POOL_SIZE && EmptyHeads(mem, pool, LISTS) && Info()
               && pstNewNode == pool + FIRST_OFFSET && size < WORD
      modifies this`mem
      ensures Region() && EmptyHeads(mem, pool, LISTS) && Info()
      ensures HeaderWords(mem, pstNewNode) && mem[pstNewNode + 8] == 0 && mem[pstNewNode + 12] == size
    {
      RegionWords();
      mem := mem[pstNewNode + 12 := size];
      mem := mem[pstNewNode + 8 := 0];
    }

    method EnterFirst(pstListHead: nat, pstNewNode: nat, size: nat, uwTaskID: word)
      requires Region() && uwPoolSize >= MIN_POOL_SIZE && pool > 0 && EmptyHeads(mem, pool, LISTS)
               && pstNewNode == pool + FIRST_OFFSET
      requires HeaderWords(mem, pstNewNode) && mem[pstNewNode + 8] == 0
               && mem[pstNewNode + 12] == size == end - pstNewNode
      requires size < USED_FLAG && 0 <= Head(size) < LISTS && pstListHead == ListHead(pool, Head(size)) && Info()
      modifies this`mem, this`chain, this`bins
      ensures Valid() && chain == FreshChain(pool, end)
    {
      ghost var k, m0 := Head(size), mem;
      Multiples(pool, uwPoolSize);
      hide Head, Rep, Indexed, NoFreeNeighbours, FreshChain, FreshBins;
      HeadWords(k);
      FinishInit(pstListHead, pstNewNode, uwTaskID);
      InitWords(m0, mem, pool, end, k);
      chain := FreshChain(pool, end);
      bins := FreshBins(pool, k);
    }

    lemma HeadWords(k: nat)
      requires EmptyHeads(mem, pool, LISTS) && k < LISTS
      ensures var h := ListHead(pool, k); h in mem && h + 4 in mem && mem[h] == h && mem[h + 4] == h
      ensures pool + 8 <= ListHead(pool, k) && ListHead(pool, k) + 8 <= pool + FIRST_OFFSET
    {
    }

    lemma FirstHead(size: nat)
      requires HEAD_SIZE <= size < WORD
      ensures Head(size) < LISTS && (Head(size) < 0 <==> size >= USED_FLAG)
    {
      Log2IsFloorLog2(size);
      if size < USED_FLAG { HeadInRange(size); }
    }

    /** The two words of pool information. */
    method PoolInfo()
      requires Region() && uwPoolSize >= MIN_POOL_SIZE && pool > 0
      modifies this`mem
      ensures Region() && mem.Keys == old(mem).Keys && Info()
    {
      RegionWords();
      mem := mem[pool := pool];
      mem := mem[pool + 4 := uwPoolSize];
    }

    lemma RegionWords()
      requires Region() && uwPoolSize >= MIN_POOL_SIZE
      ensures pool in mem && pool + 4 in mem && pool < WORD && uwPoolSize <= WORD
      ensures HeaderWords(mem, pool + FIRST_OFFSET) && HeaderWords(mem, end)
    {
    }

    /** The end of `LOS_MemInit`: enter the one free node and write the end sentinel. */
    method FinishInit(pstListHead: nat, pstNewNode: nat, uwTaskID: word)
      requires Region() && uwPoolSize >= MIN_POOL_SIZE && pool > 0 && pstNewNode == pool + FIRST_OFFSET
      requires pstListHead in mem && pstListHead + 4 in mem && pool + 8 <= pstListHead && pstListHead + 8 <= pstNewNode
      requires mem[pstListHead] == pstListHead && mem[pstListHead + 4] == pstListHead
      modifies this`mem
      ensures InitWritten(old(mem), mem, pstListHead, pstNewNode, end)
    {
      RegionWords();
      var pstTail := mem[pstListHead];
      AddStores(pstTail, pstNewNode, pstListHead, pstListHead);
      var pstEndNode := pool + uwPoolSize - HEAD_SIZE;
      assert HeaderWords(mem, pstEndNode) && pstEndNode < WORD;
      hide Region;
      EndNode(pstEndNode, pstNewNode, uwTaskID);
    }

    /** The end sentinel: a used node that consists of a header only. */
    method EndNode(pstEndNode: nat, pstNewNode: nat, uwTaskID: word)
      requires HeaderWords(mem, pstEndNode) && pstEndNode < WORD && pstNewNode < WORD
      modifies this`mem
      ensures mem.Keys == old(mem).Keys
      ensures mem[pstEndNode + 8] == pstNewNode && mem[pstEndNode + 12] == HEAD_SIZE + USED_FLAG
      ensures forall a | a in mem && (a < pstEndNode || pstEndNode + 16 <= a) :: mem[a] == old(mem)[a]
    {
      ClearNode(pstEndNode);
      mem := mem[pstEndNode + 8 := pstNewNode];
      mem := mem[pstEndNode + 12 := HEAD_SIZE];
      mem := mem[pstEndNode + 12 := mem[pstEndNode + 12] + USED_FLAG];
      mem := mem[pstEndNode := WORD - 1 - pstEndNode];
      mem := mem[pstEndNode + 4 := uwTaskID];
    }

    /** `memset` of one header. */
    method ClearNode(pstNode: nat)
      requires HeaderWords(mem, pstNode)
      modifies this`mem
      ensures mem.Keys == old(mem).Keys
      ensures forall a | a in mem && (a < pstNode || pstNode + 16 <= a) :: mem[a] == old(mem)[a]
    {
      mem := mem[pstNode := 0];
      mem := mem[pstNode + 4 := 0];
      mem := mem[pstNode + 8 := 0];
      mem := mem[pstNode + 12 := 0];
    }
  
    /** `LOS_MemAlloc`: the payload address, 0 for NULL. */
    method MemAlloc(uwSize: word, uwTaskID: word) returns (pPtr: nat, ghost i: nat)
      requires Valid()
      modifies this`mem, this`chain, this`bins
      ensures Valid()
      ensures pPtr == 0 ==> mem == old(mem) && chain == old(chain) && bins == old(bins)
      ensures pPtr == 0 ==> uwSize == 0 || uwSize >= USED_FLAG || NoFit(chain, AllocSize(uwSize))
      ensures pPtr != 0 ==>
                uwSize > 0 && Allocated(old(mem), old(chain), old(bins), mem, chain, AllocSize(uwSize), i, pPtr)
      ensures pPtr != 0 ==> HasRoom(chain, i, pPtr, uwSize)
    {
      hide *;
      pPtr, i := 0, 0;
      if uwSize == 0 {
        return;
      }
      UsedFlagIsTop(uwSize);
      AllocSizeCovers(uwSize);
      if UsedFlag(uwSize) {
        return;
      }
      ghost var m0, c0, b0 := mem, chain, bins;
      pPtr, i := AllocWithCheck(uwSize, uwTaskID);
      if pPtr != 0 { RoomFor(m0, c0, b0, uwSize, i, pPtr); }
    }

    /** The pointer leads to a used node with room for `uwSize` bytes behind its header, and not for another node
        more. */
    ghost predicate HasRoom(c: seq<Block>, i: nat, pPtr: nat, uwSize: nat)
    {
      && i < |c| - 1 && c[i].used && pPtr == c[i].addr + HEAD_SIZE
      && uwSize <= c[i].size - HEAD_SIZE < uwSize + ALIGN_SIZE + HEAD_SIZE + ALIGN_SIZE
    }

    lemma RoomFor(m0: Mem, c0: seq<Block>, b0: seq<seq<nat>>, uwSize: nat, i: nat, pPtr: nat)
      requires Allocated(m0, c0, b0, mem, chain, AllocSize(uwSize), i, pPtr) && uwSize < USED_FLAG
      ensures HasRoom(chain, i, pPtr, uwSize)
    {
      AllocFits(c0, i, AllocSize(uwSize));
      hide AllocSize, Frame, OthersKept, MetFirst;
    }

    lemma WalkFacts()
      requires State()
      ensures |chain| >= 2 && chain[0].addr == pool + FIRST_OFFSET && end == pool + uwPoolSize - HEAD_SIZE
    {
    }

    lemma WalkEnds(i: nat)
      requires State() && i < |chain|
      ensures chain[i].addr < end <==> i < |chain| - 1
      ensures chain[i].addr + 12 in mem && (UsedFlag(mem[chain[i].addr + 12]) <==> chain[i].used)
    {
      NodeWords(i);
      NodesInside(chain, pool + FIRST_OFFSET, end);
      Two(chain, pool + FIRST_OFFSET, end, i, |chain| - 1);
    }

    /** Once the walk is past an address, no later node has it. */
    lemma WalkPassed(i: nat, a: nat)
      requires State() && i < |chain| && chain[i].addr > a
      ensures forall j | i <= j < |chain| :: chain[j].addr != a
    {
      forall j | i <= j < |chain| ensures chain[j].addr != a {
        Two(chain, pool + FIRST_OFFSET, end, i, j);
      }
    }

    /** `osMemCheckUsedNode`, safe-check variant: walk the chain from the first node. */
    method CheckUsedNode(pstNode: nat) returns (ok: bool, ghost i: nat)
      requires State()
      ensures ok ==> i < |chain| - 1 && chain[i].addr == pstNode && chain[i].used
      ensures !ok ==> forall j | 0 <= j < |chain| - 1 && chain[j].addr == pstNode :: !chain[j].used
    {
      i := 0;
      var pstTmp := pool + FIRST_OFFSET;
      var pstEnd := pool + uwPoolSize - HEAD_SIZE;
      StateFacts();
      WalkFacts();
      hide State, Rep, Tiles, Apart;
      while pstTmp < pstEnd
        invariant i < |chain| && pstTmp == chain[i].addr
        invariant forall j | 0 <= j < i && chain[j].addr == pstNode :: !chain[j].used
        decreases |chain| - i
      {
        NodeWords(i);
        if pstTmp == pstNode && UsedFlag(mem[pstTmp + 12]) {
          WalkEnds(i);
          return true, i;
        } else if pstTmp > pstNode {
          WalkPassed(i, pstNode);
          return false, i;
        }
        WalkEnds(i);
        pstTmp := NextNode(pstTmp, i);
        i := i + 1;
      }
      WalkEnds(i);
      ok := false;
    }
  
    /** The common head of `LOS_MemFree` and `LOS_MemRealloc`: step back over a gap and look the header up. */
    method FindNode(pMem: word) returns (pstNode: nat, pBase: nat, ok: bool, ghost i: nat)
      requires State() && pMem >= 4 && WordAt(mem, pMem - 4)
      ensures ok <==> Owned(chain, mem, pMem)
      ensures ok ==> Owns(chain, mem, pMem, i) && pstNode == chain[i].addr && pBase == pstNode + HEAD_SIZE
    {
      var uwGapSize := mem[pMem - 4];
      pBase := pMem;
      if AlignedFlag(uwGapSize) {
        var gap := uwGapSize - ALIGNED_FLAG;
        pBase := (pMem + WORD - gap) % WORD;
      }
      pstNode := (pBase + WORD - HEAD_SIZE) % WORD;
      ok, i := CheckUsedNode(pstNode);
      if ok {
        NodesInside(chain, pool + FIRST_OFFSET, end);
        assert Owns(chain, mem, pMem, i);
      }
    }

    /** `LOS_MemFree`: succeeds exactly on pointers from which a used node of the chain is recovered. */
    method MemFree(pMem: word) returns (ok: bool, ghost i: nat)
      requires Valid() && (pMem != 0 ==> pMem >= 4 && WordAt(mem, pMem - 4))
      modifies this`mem, this`chain, this`bins
      ensures Valid()
      ensures ok <==> Owned(old(chain), old(mem), pMem)
      ensures ok ==> Owns(old(chain), old(mem), pMem, i) && chain == Coalesced(old(chain), i)
      ensures ok ==> OthersKept(old(mem), old(chain), mem, chain, old(chain)[i].addr)
      ensures !ok ==> mem == old(mem) && chain == old(chain) && bins == old(bins)
    {
      NullOwnsNothing(chain, mem);
      ValidFacts();
      hide *;
      ok, i := false, 0;
      if pMem == 0 {
        return;
      }
      var pstNode, pBase;
      pstNode, pBase, ok, i := FindNode(pMem);
      if ok {
        OwnsNode(chain, mem, pMem, i);
        FreeFound(pstNode, i);
      }
    }

    /** A pointer straight behind a used header is accepted by `MemFree` exactly when the node is smaller than 2^30
        bytes: from there on its size word is taken for a gap word. */
    lemma UsedPointerOwned(i: nat)
      requires State() && i < |chain| - 1 && chain[i].used
      ensures Owns(chain, mem, chain[i].addr + HEAD_SIZE, i) <==> chain[i].size < ALIGNED_FLAG
    {
      NodeWords(i);
      assert chain[i].Fits();
      Adjacent(chain, pool + FIRST_OFFSET, end, i);
      hide State;
      PlainRecovery(mem, chain[i]);
    }

    /** Which node a plain pointer frees: its own below 2^30 bytes; from there on whatever used node stands at an
        address that has nothing to do with it, if one does. */
    lemma PlainPointerFrees(i: nat, j: nat)
      requires State() && i < |chain| - 1 && chain[i].used
      ensures Owns(chain, mem, chain[i].addr + HEAD_SIZE, j) <==>
                && j < |chain| - 1 && chain[j].used
                && chain[j].addr == if chain[i].size < ALIGNED_FLAG then chain[i].addr
                   else (chain[i].addr + 3 * ALIGNED_FLAG - chain[i].size) % WORD
    {
      NodeWords(i);
      assert chain[i].Fits();
      Adjacent(chain, pool + FIRST_OFFSET, end, i);
      hide State;
      PlainRecovery(mem, chain[i]);
    }

    /** For a node of 3 * 2^29 bytes it is the next node. */
    lemma OversizedFreesNext(i: nat)
      requires State() && i < |chain| - 2 && chain[i].used && chain[i].size == 0x6000_0000 && chain[i + 1].used
      ensures Owns(chain, mem, chain[i].addr + HEAD_SIZE, i + 1)
    {
      PlainPointerFrees(i, i + 1);
      assert chain[i].End() == chain[i + 1].addr;
      Adjacent(chain, pool + FIRST_OFFSET, end, i);
      hide Rep, Readable;
    }

    method FreeFound(pstNode: nat, ghost i: nat)
      requires Valid() && i < |chain| - 1 && chain[i].used && pstNode == chain[i].addr
      modifies this`mem, this`chain, this`bins
      ensures Valid() && chain == Coalesced(old(chain), i) && OthersKept(old(mem), old(chain), mem, chain, pstNode)
    {
      ghost var m0, c0 := mem, chain;
      ValidFacts();
      hide *;
      FreeNode(pstNode, i);
      FreeOthers(m0, c0, mem, pool, end, i);
    }

    lemma StateFacts()
      requires State()
      ensures Readable() && Rep(mem, pool, end, chain, bins) && Tiles(chain, pool + FIRST_OFFSET, end)
              && Entered(chain, bins)
    {
    }

    /** The parts of the invariant, one by one. */
    lemma ValidFacts()
      requires Valid()
      ensures State() && Indexed(chain, bins) && NoFreeNeighbours(chain)
      ensures Rep(mem, pool, end, chain, bins) && Tiles(chain, pool + FIRST_OFFSET, end) && Entered(chain, bins)
    {
    }

    lemma AllocSizeCovers(uwSize: word)
      requires uwSize > 0
      ensures uwSize < USED_FLAG ==> HEAD_SIZE <= AllocSize(uwSize)
    {
    }

    lemma UsedFlagIsTop(w: word)
      ensures UsedFlag(w) <==> w >= USED_FLAG
    {
    }

    /** `LOS_MemAllocAlign`: an address that is a multiple of `uwBoundary`, 0 for NULL. */
    method MemAllocAlign(uwSize: word, uwBoundary: word, uwTaskID: word) returns (pPtr: nat, ghost i: nat)
      requires Valid() && PowerOfTwo(uwBoundary) && uwSize + uwBoundary + 4 < WORD
      modifies this`mem, this`chain, this`bins
      ensures Valid()
      ensures pPtr == 0 ==> mem == old(mem) && chain == old(chain) && bins == old(bins)
      ensures pPtr == 0 ==>
                uwSize == 0 || uwSize + uwBoundary + 4 >= USED_FLAG || NoFit(chain, AllocSize(uwSize + uwBoundary + 4))
      ensures pPtr != 0 ==> AlignAllocated(old(mem), old(chain), old(bins), mem, chain, uwSize, uwBoundary, i, pPtr)
    {
      hide *;
      ghost var m0, c0, b0 := mem, chain, bins;
      ValidFacts();
      var uwUseSize := uwSize + uwBoundary + 4;
      UsedFlagIsTop(uwUseSize);
      AllocSizeCovers(uwUseSize);
      pPtr, i := 0, 0;
      if uwSize == 0 {
        return;
      }
      if UsedFlag(uwUseSize) {
        return;
      }
      pPtr, i := AllocWithCheck(uwUseSize, uwTaskID);
      if pPtr == 0 {
        return;
      }
      pPtr := AlignTail(m0, c0, b0, pPtr, uwSize, uwBoundary, i);
    }

    /** What `MemAllocAlign` does once it has a node. */
    method AlignTail(ghost m0: Mem, ghost c0: seq<Block>, ghost b0: seq<seq<nat>>, pPtr: nat, uwSize: nat,
                     uwBoundary: nat, ghost i: nat)
      returns (pAlignedPtr: nat)
      requires Valid() && Tiles(c0, pool + FIRST_OFFSET, end) && uwSize > 0
      requires PowerOfTwo(uwBoundary) && uwSize + uwBoundary + 4 < USED_FLAG
      requires Allocated(m0, c0, b0, mem, chain, AllocSize(uwSize + uwBoundary + 4), i, pPtr)
      modifies this`mem
      ensures Valid() && pAlignedPtr > 0 && AlignAllocated(m0, c0, b0, mem, chain, uwSize, uwBoundary, i, pAlignedPtr)
    {
      ghost var m1 := mem;
      ValidFacts();
      AlignFacts(m0, c0, b0, uwSize + uwBoundary + 4, i, pPtr);
      hide *;
      pAlignedPtr := AlignPointer(pPtr, uwSize, uwBoundary, i);
      OthersKeptByPayload(m0, c0, m1, mem, chain, pool + FIRST_OFFSET, end, i, 0);
      MakeAlignAllocated(m0, c0, b0, mem, chain, uwSize, uwBoundary, i, pAlignedPtr);
    }

    lemma MakeAlignAllocated(m0: Mem, c0: seq<Block>, b0: seq<seq<nat>>, m1: Mem, c1: seq<Block>, uwSize: nat,
                             uwBoundary: nat, i: nat, pPtr: nat)
      requires uwBoundary > 0
      requires i < |c0| - 1 && !c0[i].used && AllocSize(uwSize + uwBoundary + 4) <= c0[i].size
      requires MetFirst(c0, b0, AllocSize(uwSize + uwBoundary + 4), c0[i].addr)
      requires c1 == AllocChain(c0, i, AllocSize(uwSize + uwBoundary + 4)) && i < |c1| - 1
      requires OthersKept(m0, c0, m1, c1, 0) && AlignedIn(m1, c1[i], pPtr, uwSize, uwBoundary)
      ensures AlignAllocated(m0, c0, b0, m1, c1, uwSize, uwBoundary, i, pPtr)
    {
    }

    /** What a successful aligned allocation is. */
    ghost predicate AlignAllocated(m0: Mem, c0: seq<Block>, b0: seq<seq<nat>>, m1: Mem, c1: seq<Block>, uwSize: nat,
                                   uwBoundary: nat, i: nat, pPtr: nat)
      requires uwBoundary > 0
    {
      && i < |c0| - 1 && !c0[i].used && AllocSize(uwSize + uwBoundary + 4) <= c0[i].size
      && MetFirst(c0, b0, AllocSize(uwSize + uwBoundary + 4), c0[i].addr)
      && c1 == AllocChain(c0, i, AllocSize(uwSize + uwBoundary + 4)) && i < |c1| - 1
      && OthersKept(m0, c0, m1, c1, 0)
      && AlignedIn(m1, c1[i], pPtr, uwSize, uwBoundary)
    }

    /** The node that an allocation has produced, as a node of the new chain. */
    lemma AlignFacts(m0: Mem, c0: seq<Block>, b0: seq<seq<nat>>, uwSize: nat, i: nat, pPtr: nat)
      requires Valid() && uwSize + HEAD_SIZE + 3 < WORD && Tiles(c0, pool + FIRST_OFFSET, end)
      requires Allocated(m0, c0, b0, mem, chain, AllocSize(uwSize), i, pPtr)
      ensures i < |c0| - 1 && !c0[i].used && AllocSize(uwSize) <= c0[i].size
      ensures i < |chain| - 1 && chain[i].used && chain[i].addr == c0[i].addr && uwSize + HEAD_SIZE <= chain[i].size
      ensures pPtr == chain[i].addr + HEAD_SIZE && chain == AllocChain(c0, i, AllocSize(uwSize))
              && OthersKept(m0, c0, mem, chain, 0)
      ensures MetFirst(c0, b0, AllocSize(uwSize), c0[i].addr)
      ensures forall b | b in c0 && b.used && b.addr != 0 :: b != chain[i]
    {
      AllocElements(c0, i, AllocSize(uwSize));
      forall b | b in c0 && b.used ensures b != chain[i] {
        if b.addr == c0[i].addr { SameBlock(c0, pool + FIRST_OFFSET, end, b, c0[i]); }
      }
    }

    /** The pointer is aligned, the bytes and the gap word lie in the payload, and the header is recovered. */
    ghost predicate AlignedIn(m: Mem, b: Block, pPtr: nat, uwSize: nat, uwBoundary: nat)
      requires uwBoundary > 0
    {
      && b.used && pPtr % uwBoundary == 0
      && b.addr + HEAD_SIZE <= pPtr && pPtr + uwSize <= b.End()
      && pPtr < WORD && pPtr >= 4 && WordAt(m, pPtr - 4)
      && (pPtr != b.addr + HEAD_SIZE ==> InPayload(b, pPtr - 4) && Recovered(m, pPtr) == b.addr)
      && (pPtr == b.addr + HEAD_SIZE ==> (Recovered(m, pPtr) == b.addr <==> b.size < ALIGNED_FLAG))
    }
  
    /** Move the pointer up to the boundary and leave the gap in the word before it. */
    method AlignPointer(pPtr: nat, uwSize: nat, uwBoundary: nat, ghost i: nat) returns (pAlignedPtr: nat)
      requires Valid() && i < |chain| - 1 && chain[i].used && pPtr == chain[i].addr + HEAD_SIZE
      requires PowerOfTwo(uwBoundary) && uwBoundary < USED_FLAG && uwSize + uwBoundary + 4 + HEAD_SIZE <= chain[i].size
               && uwSize > 0
      modifies this`mem
      ensures Valid() && mem.Keys == old(mem).Keys && pAlignedPtr > 0
      ensures forall a | a in mem && !InPayload(chain[i], a) :: mem[a] == old(mem)[a]
      ensures AlignedIn(mem, chain[i], pAlignedPtr, uwSize, uwBoundary)
    {
      ghost var m0 := mem;
      AlignWords(uwBoundary, i);
      hide *;
      pAlignedPtr := AlignUp(pPtr, uwBoundary);
      if pPtr == pAlignedPtr {
        PlainIn(mem, chain[i], uwSize, uwBoundary);
        return;
      }
      var uwGapSize := pAlignedPtr - pPtr;
      PointerWord(pAlignedPtr, chain[i].addr);
      mem := mem[pAlignedPtr - 4 := uwGapSize + ALIGNED_FLAG];
      GapIn(mem, chain[i], pAlignedPtr, uwSize, uwBoundary);
      PayloadRep(m0, mem, pool, end, chain, bins, i);
    }

    lemma AlignWords(uwBoundary: nat, i: nat)
      requires Valid() && i < |chain| - 1 && chain[i].used && PowerOfTwo(uwBoundary) && uwBoundary < USED_FLAG
      ensures var p := chain[i].addr + HEAD_SIZE; var r := AlignUp(p, uwBoundary);
              && uwBoundary > 0 && p <= r < p + uwBoundary && r % uwBoundary == 0
              && (r != p ==> 4 <= r - p < ALIGNED_FLAG && r % 4 == 0)
      ensures WordAt(mem, chain[i].addr + 12) && mem[chain[i].addr + 12] == chain[i].Word()
      ensures chain[i].Fits() && pool <= chain[i].addr && chain[i].End() <= end < WORD
      ensures Rep(mem, pool, end, chain, bins)
    {
      NodeWords(i);
      assert chain[i].Fits() && chain[i].End() <= end < WORD && pool <= chain[i].addr by {
        NodesInside(chain, pool + FIRST_OFFSET, end);
      }
      hide State, Rep, Tiles, PowerOfTwo, AlignUp;
      Multiples(chain[i].addr, 0);
      BoundarySteps(chain[i].addr + HEAD_SIZE, uwBoundary);
    }

    /** No gap: the pointer stands right behind the header. */
    lemma PlainIn(m: Mem, b: Block, uwSize: nat, uwBoundary: nat)
      requires b.used && b.Fits() && b.End() < WORD && uwBoundary > 0 && (b.addr + HEAD_SIZE) % uwBoundary == 0
      requires WordAt(m, b.addr + 12) && m[b.addr + 12] == b.Word() && uwSize + HEAD_SIZE <= b.size
      ensures AlignedIn(m, b, b.addr + HEAD_SIZE, uwSize, uwBoundary)
    {
      PlainRecovery(m, b);
    }

    lemma GapIn(m: Mem, b: Block, p: nat, uwSize: nat, uwBoundary: nat)
      requires b.used && b.End() < WORD && uwBoundary > 0 && p % uwBoundary == 0
      requires b.addr + HEAD_SIZE + 4 <= p < b.addr + HEAD_SIZE + uwBoundary && p - b.addr - HEAD_SIZE < ALIGNED_FLAG
      requires uwSize + uwBoundary + 4 + HEAD_SIZE <= b.size
      requires p - 4 in m && m[p - 4] == p - b.addr - HEAD_SIZE + ALIGNED_FLAG
      ensures AlignedIn(m, b, p, uwSize, uwBoundary) && InPayload(b, p - 4)
    {
      GapRecovery(m, b.addr, p - b.addr - HEAD_SIZE);
    }

    lemma PointerWord(p: nat, a: nat)
      requires Valid() && pool <= a && a + HEAD_SIZE + 4 <= p <= end && p % 4 == 0
      ensures p - 4 in mem
    {
    }
  
    // -------------------------------------------------------------- reallocating

    /** `osMemReAllocSmaller`: the node is large enough; cut it if the rest is worth a node. */
    method ReAllocSmaller(uwAllocSize: nat, pstNode: nat, uwNodeSize: nat, ghost i: nat)
      requires Valid() && i < |chain| - 1 && chain[i].used && pstNode == chain[i].addr && uwNodeSize == chain[i].size
      requires HEAD_SIZE <= uwAllocSize <= uwNodeSize && uwAllocSize % 4 == 0
      modifies this`mem, this`chain, this`bins
      ensures Valid() && chain == Resized(old(chain), i, uwAllocSize)
      ensures Frame(old(mem), mem, pool, Addrs(old(chain)) + {pstNode + uwAllocSize})
    {
      ghost var m0, nodes := mem, Addrs(chain) + {pstNode + uwAllocSize};
      hide *;
      ValidFacts();
      ResizeKeepsIndex(chain, pool + FIRST_OFFSET, end, bins, i, uwAllocSize);
      FrameRefl(mem, pool, nodes);
      var split := uwAllocSize + HEAD_SIZE + ALIGN_SIZE <= uwNodeSize;
      SplitTest(uwAllocSize, i);
      if split {
        SmallerFacts(uwAllocSize, i);
        SetFlag(pstNode, false, i);
        ghost var m1, n1 := mem, Addrs(chain);
        SplitNode(pstNode, uwAllocSize, i);
        ghost var m2, n2 := mem, Addrs(chain);
        SetFlag(pstNode, true, i);
        FrameTrans(m0, m1, m2, pool, n1, nodes, nodes);
        FrameTrans(m0, m2, mem, pool, nodes, n2, nodes);
        ValidFrom();
      }
    }

    lemma SplitTest(need: nat, i: nat)
      requires i + 1 < |chain| && need <= chain[i].size
      ensures Splits(chain[i].size, need) <==> need + HEAD_SIZE + ALIGN_SIZE <= chain[i].size
      ensures !Splits(chain[i].size, need) ==> Resized(chain, i, need) == chain
    {
    }

    lemma SmallerFacts(need: nat, i: nat)
      requires Valid() && i < |chain| - 1 && chain[i].used && Splits(chain[i].size, need) && HEAD_SIZE <= need
               && need % 4 == 0
      ensures var f := Flagged(chain, i, false);
              && |f| == |chain| && f[i] == Block(chain[i].addr, chain[i].size, false) && f[i + 1] == chain[i + 1]
              && need + HEAD_SIZE <= chain[i].size
              && (var m := SplitChain(f, i, need);
                 i < |m| - 1 && m[i].addr == chain[i].addr && Flagged(m, i, true) == Resized(chain, i, need))
              && SplitBins(f, bins, i, need) == ResizedBins(chain, bins, i, need)
      ensures !chain[i + 1].used ==> ListedUnder(bins, chain[i + 1])
    {
      EndUsed(chain, pool + FIRST_OFFSET, end);
      ShrinkChain(chain, i, need);
      ShrinkBins(chain, bins, i, need);
      if !chain[i + 1].used { IndexedListed(chain, bins, i + 1); }
    }

    lemma ValidFrom()
      requires State() && Indexed(chain, bins) && NoFreeNeighbours(chain)
      ensures Valid()
    {
    }

    /** `osMemMergeNodeForReAllocBigger`: take the free node behind in, and cut off what is not needed. */
    method MergeNodeForReAllocBigger(uwAllocSize: nat, pstNode: nat, uwNodeSize: nat, pstNextNode: nat, ghost i: nat)
      requires Valid() && i < |chain| - 1 && chain[i].used && pstNode == chain[i].addr && uwNodeSize == chain[i].size
      requires !chain[i + 1].used && pstNextNode == chain[i + 1].addr
      requires HEAD_SIZE <= uwAllocSize && uwNodeSize < uwAllocSize <= Total(chain, i) && uwAllocSize % 4 == 0
      modifies this`mem, this`chain, this`bins
      ensures Valid() && chain == Resized(old(chain), i, uwAllocSize)
      ensures Frame(old(mem), mem, pool, Addrs(old(chain)) + {pstNode + uwAllocSize})
    {
      ghost var m0, n0, nodes := mem, Addrs(chain), Addrs(chain) + {pstNode + uwAllocSize};
      hide *;
      ValidFacts();
      ResizeKeepsIndex(chain, pool + FIRST_OFFSET, end, bins, i, uwAllocSize);
      BiggerFacts(uwAllocSize, i);
      ClearAndAbsorb(pstNode, pstNextNode, i);
      ghost var m2, n2 := mem, Addrs(chain);
      CutIfLarge(pstNode, uwAllocSize, i);
      ghost var m3, n3 := mem, Addrs(chain);
      FrameTrans(m0, m2, m3, pool, n0, n2 + {pstNode + uwAllocSize}, nodes);
      SetFlag(pstNode, true, i);
      FrameTrans(m0, m3, mem, pool, nodes, n3, nodes);
      ValidFrom();
    }

    method ClearAndAbsorb(pstNode: nat, pstNextNode: nat, ghost i: nat)
      requires State() && i < |chain| - 1 && pstNode == chain[i].addr && pstNextNode == chain[i + 1].addr
      requires !chain[i + 1].used ==> ListedUnder(bins, chain[i + 1])
      modifies this`mem, this`chain, this`bins
      ensures State() && chain == AbsorbChain(Flagged(old(chain), i, false), i)
      ensures bins == AbsorbBins(Flagged(old(chain), i, false), old(bins), i)
      ensures Addrs(chain) <= Addrs(old(chain)) && Frame(old(mem), mem, pool, Addrs(old(chain)))
    {
      ghost var m0, n0 := mem, Addrs(chain);
      assert Flagged(chain, i, false)[i + 1] == chain[i + 1] && !Flagged(chain, i, false)[i].used;
      assert Flagged(chain, i, false)[i].addr == chain[i].addr && |Flagged(chain, i, false)| == |chain|;
      hide *;
      SetFlag(pstNode, false, i);
      ghost var m1, n1 := mem, Addrs(chain);
      AbsorbNext(pstNextNode, i);
      FrameTrans(m0, m1, mem, pool, n0, n0, n0);
    }

    lemma BiggerFacts(need: nat, i: nat)
      requires Valid() && i < |chain| - 1 && chain[i].used && !chain[i + 1].used && chain[i].size < need
      ensures var f := Flagged(chain, i, false);
              && |f| == |chain| && f[i] == Block(chain[i].addr, chain[i].size, false) && f[i + 1] == chain[i + 1]
              && (var a := AbsorbChain(f, i);
                  && i < |a| - 1 && a[i] == Block(chain[i].addr, Total(chain, i), false) && a[i + 1].used
                  && i < |CutIfWorth(a, i, need)| - 1 && CutIfWorth(a, i, need)[i].addr == chain[i].addr
                  && Flagged(CutIfWorth(a, i, need), i, true) == Resized(chain, i, need)
                  && CutBins(a, AbsorbBins(f, bins, i), i, need) == ResizedBins(chain, bins, i, need))
      ensures ListedUnder(bins, chain[i + 1])
    {
      EndUsed(chain, pool + FIRST_OFFSET, end);
      GrowChain(chain, i, need);
      GrowBins(chain, bins, i, need);
      IndexedListed(chain, bins, i + 1);
    }

    lemma NodeSize(i: nat)
      requires State() && i < |chain|
      ensures chain[i].addr + 12 in mem && SizeOf(mem[chain[i].addr + 12]) == chain[i].size
      ensures UsedFlag(mem[chain[i].addr + 12]) <==> chain[i].used
      ensures !chain[i].used ==> mem[chain[i].addr + 12] == chain[i].size
      ensures HEAD_SIZE <= chain[i].size < USED_FLAG && chain[i].size % 4 == 0
    {
      NodeWords(i);
      assert chain[i].Fits();
    }

    /** The first `k` bytes behind `src` are found behind `dst`, and nothing else has changed. */
    ghost predicate Copied(m0: Mem, m1: Mem, dst: nat, src: nat, k: nat)
    {
      && m1.Keys == m0.Keys
      && (forall a | a in m0 && (a < dst || dst + k <= a) :: m1[a] == m0[a])
      && (forall a | a in m0 && src <= a < src + k && a % 4 == 0 :: CopiedWord(m0, m1, dst, src, a))
    }

    ghost predicate CopiedWord(m0: Mem, m1: Mem, dst: nat, src: nat, a: int)
    {
      a in m0 && dst + (a - src) in m1 && m1[dst + (a - src)] == m0[a]
    }

    lemma CopyStep(m0: Mem, m1: Mem, dst: nat, src: nat, k: nat, size: nat)
      requires Copied(m0, m1, dst, src, k) && k + 4 <= size && src % 4 == 0 && k % 4 == 0
      requires src + size <= dst || dst + size <= src
      requires src + k in m0 && dst + k in m0
      ensures Copied(m0, m1[dst + k := m1[src + k]], dst, src, k + 4)
    {
      var m2 := m1[dst + k := m1[src + k]];
      assert m2.Keys == m0.Keys;
      forall a | a in m0 && src <= a < src + k + 4 && a % 4 == 0 ensures CopiedWord(m0, m2, dst, src, a) {
        LastWord(src, k, a);
        if a < src + k { assert CopiedWord(m0, m1, dst, src, a); }
      }
    }

    lemma LastWord(src: nat, k: nat, a: int)
      requires src % 4 == 0 && k % 4 == 0 && a % 4 == 0 && a < src + k + 4
      ensures a < src + k || a == src + k
    {
    }

    lemma RoomForWord(k: nat, size: nat)
      requires k < size && k % 4 == 0 && size % 4 == 0
      ensures k + 4 <= size && (k + 4) % 4 == 0
    {
    }

    lemma WordThere(m: Mem, base: nat, size: nat, k: nat)
      requires base % 4 == 0 && k % 4 == 0 && k < size && forall a | base <= a < base + size && a % 4 == 0 :: a in m
      ensures base + k in m
    {
      assert (base + k) % 4 == 0;
    }

    /** `memcpy` between two ranges of words that do not overlap. */
    method CopyStores(dst: nat, src: nat, size: nat)
      requires dst % 4 == 0 && src % 4 == 0 && size % 4 == 0 && (src + size <= dst || dst + size <= src)
      requires forall a | src <= a < src + size && a % 4 == 0 :: a in mem
      requires forall a | dst <= a < dst + size && a % 4 == 0 :: a in mem
      modifies this`mem
      ensures Copied(old(mem), mem, dst, src, size)
    {
      ghost var m0 := mem;
      var k := 0;
      while k < size
        invariant k <= size && k % 4 == 0 && mem.Keys == m0.Keys && Copied(m0, mem, dst, src, k)
      {
        hide *;
        RoomForWord(k, size);
        WordThere(m0, src, size, k);
        WordThere(m0, dst, size, k);
        CopyStep(m0, mem, dst, src, k, size);
        mem := mem[dst + k := mem[src + k]];
        k := k + 4;
      }
    }

    /** `memcpy` from one payload to another. */
    method CopyPayload(pNewPtr: nat, pPtr: nat, size: nat, ghost j: nat, ghost i: nat)
      requires Valid() && i < |chain| - 1 && j < |chain| - 1 && i != j
      requires pNewPtr == chain[j].addr + HEAD_SIZE && pPtr == chain[i].addr + HEAD_SIZE
      requires size + HEAD_SIZE == chain[i].size && chain[i].size <= chain[j].size
      modifies this`mem
      ensures Valid() && mem.Keys == old(mem).Keys
      ensures forall a | a in old(mem) && !InPayload(chain[j], a) :: mem[a] == old(mem)[a]
      ensures PrefixKept(old(mem), chain[i], chain[j].size, mem, pNewPtr)
    {
      hide *;
      ghost var m0 := mem;
      ValidFacts();
      CopyWords(i, j);
      InfoFacts();
      CopyStores(pNewPtr, pPtr, size);
      CopyMeans(m0, mem, chain[j], chain[i], pNewPtr, pPtr, size);
      PayloadRep(m0, mem, pool, end, chain, bins, j);
      StillInformed(m0, j);
      StillReadable(m0);
    }

    lemma InfoFacts()
      requires State()
      ensures pool in mem && pool + 4 in mem && mem[pool] == pool && mem[pool + 4] == uwPoolSize
      ensures Tiles(chain, pool + FIRST_OFFSET, end)
    {
    }

    lemma StillInformed(m0: Mem, j: nat)
      requires pool in m0 && pool + 4 in m0 && m0[pool] == pool && m0[pool + 4] == uwPoolSize
      requires Tiles(chain, pool + FIRST_OFFSET, end) && j < |chain|
      requires mem.Keys == m0.Keys && forall a | a in m0 && !InPayload(chain[j], a) :: mem[a] == m0[a]
      ensures Info()
    {
      InfoPayload(chain, pool, end, j);
    }

    lemma StillReadable(m0: Mem)
      requires pool > 0 && pool % 4 == 0 && MIN_POOL_SIZE <= uwPoolSize && uwPoolSize % 4 == 0
               && pool + uwPoolSize <= WORD
      requires (forall a | pool <= a < pool + uwPoolSize && a % 4 == 0 :: a in m0) && mem.Keys == m0.Keys && Info()
      requires Rep(mem, pool, end, chain, bins) && Indexed(chain, bins) && NoFreeNeighbours(chain)
      ensures Valid()
    {
    }

    lemma CopyMeans(m0: Mem, m1: Mem, n: Block, b: Block, dst: nat, src: nat, size: nat)
      requires dst == n.addr + HEAD_SIZE && src == b.addr + HEAD_SIZE && size + HEAD_SIZE == b.size && b.size <= n.size
      requires Copied(m0, m1, dst, src, size)
      ensures m1.Keys == m0.Keys
      ensures forall a | a in m0 && !InPayload(n, a) :: m1[a] == m0[a]
      ensures PrefixKept(m0, b, n.size, m1, dst)
    {
      forall a | InPayload(b, a) && a % 4 == 0 && a in m0
        && a < b.addr + n.size ensures CopiedWord(m0, m1, dst, src, a) {
      }
    }

    lemma CopyWords(i: nat, j: nat)
      requires State() && i < |chain| - 1 && j < |chain| - 1 && i != j && chain[i].size <= chain[j].size
      ensures var dst, src, size := chain[j].addr + HEAD_SIZE, chain[i].addr + HEAD_SIZE, chain[i].size - HEAD_SIZE;
              && dst % 4 == 0 && src % 4 == 0 && size % 4 == 0 && (src + size <= dst || dst + size <= src)
              && (forall a | src <= a < src + size && a % 4 == 0 :: a in mem)
              && (forall a | dst <= a < dst + size && a % 4 == 0 :: a in mem)
      ensures pool > 0 && pool % 4 == 0 && MIN_POOL_SIZE <= uwPoolSize && uwPoolSize % 4 == 0
              && pool + uwPoolSize <= WORD
      ensures forall a | pool <= a < pool + uwPoolSize && a % 4 == 0 :: a in mem
    {
      hide *;
      StateFacts();
      NodeWords(i);
      NodeWords(j);
      NodeSize(i);
      NodeSize(j);
      Apart2(chain, pool + FIRST_OFFSET, end, i, j);
      HeadMod4(chain[i].addr);
      HeadMod4(chain[j].addr);
      HeadMod4(chain[i].size);
      WordsIn(chain[i].addr + HEAD_SIZE, chain[i].size - HEAD_SIZE);
      WordsIn(chain[j].addr + HEAD_SIZE, chain[i].size - HEAD_SIZE);
      ReadableFacts();
    }

    lemma WordsIn(lo: nat, n: nat)
      requires State() && pool <= lo && lo + n <= end
      ensures forall a | lo <= a < lo + n && a % 4 == 0 :: a in mem
    {
      ReadableFacts();
    }

    lemma ReadableFacts()
      requires State()
      ensures pool > 0 && pool % 4 == 0 && MIN_POOL_SIZE <= uwPoolSize && uwPoolSize % 4 == 0
              && pool + uwPoolSize <= WORD
      ensures forall a | pool <= a < pool + uwPoolSize && a % 4 == 0 :: a in mem
      ensures end == pool + uwPoolSize - HEAD_SIZE
    {
    }

    /** The move of `LOS_MemRealloc`: copy the whole old payload into the new node, then free the old node. */
    method MoveNode(pNewPtr: nat, pPtr: nat, pstNode: nat, uwNodeSize: nat, ghost m0: Mem, ghost c0: seq<Block>,
                    ghost b0: seq<seq<nat>>,
                    ghost need: nat, ghost i: nat, ghost j: nat)
      requires Valid() && Tiles(c0, pool + FIRST_OFFSET, end) && i < |c0| - 1 && c0[i].used && need > Total(c0, i)
               && HEAD_SIZE <= need
      requires Allocated(m0, c0, b0, mem, chain, need, j, pNewPtr)
      requires pstNode == c0[i].addr && pPtr == pstNode + HEAD_SIZE && uwNodeSize == c0[i].size
      modifies this`mem, this`chain, this`bins
      ensures Valid() && Reallocated(m0, c0, b0, mem, chain, need, i, pNewPtr, j)
    {
      hide *;
      ghost var m1, c1 := mem, chain;
      AllocatedParts(m0, c0, b0, m1, c1, need, j, pNewPtr);
      TotalCovers(c0, i);
      ShiftedNode(c0, pool + FIRST_OFFSET, end, j, need, i);
      ghost var i' := Shifted(c0, j, need, i);
      AddrsPositive(c0, pool + FIRST_OFFSET, end);
      NodeIn(c0, i);
      NodeIn(c1, j);
      NodeFits(c0, pool + FIRST_OFFSET, end, i);
      CopyPayload(pNewPtr, pPtr, uwNodeSize - HEAD_SIZE, j, i');
      ghost var m2 := mem;
      ValidFacts();
      PrefixShorter(m1, c0[i], c1[j].size, need, m2, pNewPtr);
      OthersKeptByPayload(m0, c0, m1, m2, c1, pool + FIRST_OFFSET, end, j, 0);
      FreeNode(pstNode, i');
      FreeOthers(m2, c1, mem, pool, end, i');
      OthersKeptTrans(m0, c0, m2, c1, mem, chain, pstNode);
      CopiedPrefix(m0, c0, m1, c1, m2, mem, chain, c0[i], c1[j], need);
      Moved(m0, c0, b0, mem, need, i, j);
    }

    lemma AllocatedParts(m0: Mem, c0: seq<Block>, b0: seq<seq<nat>>, m1: Mem, c1: seq<Block>, need: nat, j: nat,
                         pPtr: nat)
      requires Allocated(m0, c0, b0, m1, c1, need, j, pPtr)
      ensures j < |c0| - 1 && !c0[j].used && need <= c0[j].size && pPtr == c0[j].addr + HEAD_SIZE
      ensures c1 == AllocChain(c0, j, need) && OthersKept(m0, c0, m1, c1, 0) && MetFirst(c0, b0, need, c0[j].addr)
    {
    }

    lemma NodeFits(c: seq<Block>, first: nat, end: nat, i: nat)
      requires Tiles(c, first, end) && i < |c|
      ensures HEAD_SIZE <= c[i].size
    {
      assert c[i].Fits();
    }

    lemma NodeIn(c: seq<Block>, i: nat)
      requires i < |c|
      ensures c[i] in c
    {
    }

    lemma PrefixShorter(m0: Mem, b: Block, limit: nat, need: nat, m1: Mem, p: nat)
      requires PrefixKept(m0, b, limit, m1, p) && b.size < need <= limit
      ensures PrefixKept(m0, b, need, m1, p)
    {
    }

    /** `LOS_MemRealloc` once the node has been found. */
    method ReallocNode(pstNode: nat, pPtr: nat, uwSize: word, uwTaskID: word, ghost i: nat)
      returns (pNewPtr: nat, ghost j: nat)
      requires Valid() && i < |chain| - 1 && chain[i].used && pstNode == chain[i].addr && pPtr == pstNode + HEAD_SIZE
      requires 0 < uwSize && uwSize + HEAD_SIZE + 3 < WORD
      modifies this`mem, this`chain, this`bins
      ensures Valid() && Reallocated(old(mem), old(chain), old(bins), mem, chain, AllocSize(uwSize), i, pNewPtr, j)
    {
      hide *;
      ghost var m0, c0, b0 := mem, chain, bins;
      j := 0;
      var uwAllocSize := AllocSize(uwSize);
      ValidFacts();
      NodeSize(i);
      NodeSize(i + 1);
      TotalCovers(c0, i);
      var uwNodeSize := SizeOf(mem[pstNode + 12]);
      if uwNodeSize >= uwAllocSize {
        ReAllocSmaller(uwAllocSize, pstNode, uwNodeSize, i);
        InPlace(m0, c0, b0, mem, pool, end, uwAllocSize, i, j);
        return pPtr, j;
      }
      var pstNextNode := NextNode(pstNode, i);
      if !UsedFlag(mem[pstNextNode + 12]) && mem[pstNextNode + 12] + uwNodeSize >= uwAllocSize {
        MergeNodeForReAllocBigger(uwAllocSize, pstNode, uwNodeSize, pstNextNode, i);
        InPlace(m0, c0, b0, mem, pool, end, uwAllocSize, i, j);
        return pPtr, j;
      }
      pNewPtr, j := AllocWithCheck(uwSize, uwTaskID);
      if pNewPtr != 0 {
        MoveNode(pNewPtr, pPtr, pstNode, uwNodeSize, m0, c0, b0, uwAllocSize, i, j);
      } else {
        Refused(m0, c0, b0, uwAllocSize, i, j);
      }
    }

    /** `LOS_MemRealloc`: without a pointer it allocates, with size 0 it frees, and otherwise it resizes the node. */
    method MemRealloc(pPtr: word, uwSize: word, uwTaskID: word) returns (pNewPtr: nat, ghost i: nat, ghost j: nat)
      requires Valid() && uwSize + HEAD_SIZE + 3 < WORD
      requires pPtr != 0 ==> pPtr >= 4 && WordAt(mem, pPtr - 4)
      modifies this`mem, this`chain, this`bins
      ensures Valid()
      ensures pPtr == 0 && pNewPtr != 0 ==>
                uwSize > 0 && Allocated(old(mem), old(chain), old(bins), mem, chain, AllocSize(uwSize), i, pNewPtr)
      ensures pPtr == 0 && pNewPtr == 0 ==> uwSize == 0 || uwSize >= USED_FLAG || NoFit(chain, AllocSize(uwSize))
      ensures pPtr == 0 && pNewPtr == 0 ==> mem == old(mem) && chain == old(chain) && bins == old(bins)
      ensures pPtr != 0 && !Owned(old(chain), old(mem), pPtr) ==>
                pNewPtr == 0 && mem == old(mem) && chain == old(chain) && bins == old(bins)
      ensures pPtr != 0 && Owned(old(chain), old(mem), pPtr) ==>
                Owns(old(chain), old(mem), pPtr, i) && i + 1 < |old(chain)|
      ensures pPtr != 0 && Owned(old(chain), old(mem), pPtr) && uwSize == 0 ==>
                && pNewPtr == 0 && chain == Coalesced(old(chain), i)
                && OthersKept(old(mem), old(chain), mem, chain, old(chain)[i].addr)
      ensures pPtr != 0 && Owned(old(chain), old(mem), pPtr) && uwSize > 0 ==>
                Reallocated(old(mem), old(chain), old(bins), mem, chain, AllocSize(uwSize), i, pNewPtr, j)
    {
      hide *;
      pNewPtr, i, j := 0, 0, 0;
      if pPtr == 0 {
        pNewPtr, i := MemAlloc(uwSize, uwTaskID);
        return;
      }
      ValidFacts();
      var ok;
      if uwSize == 0 {
        ok, i := MemFree(pPtr);
        if ok { OwnsNode(old(chain), old(mem), pPtr, i); }
        return;
      }
      var pstNode, pBase;
      pstNode, pBase, ok, i := FindNode(pPtr);
      if ok {
        OwnsNode(chain, mem, pPtr, i);
        pNewPtr, j := ReallocNode(pstNode, pBase, uwSize, uwTaskID, i);
      }
    }
  }
}
