/** Whole runs of the dynamic heap: any sequence of allocations, frees, reallocations and stores through payload
    pointers. */
module HeapRuns {
  import opened MultiHead
  import opened HeapState
  import opened Heap

  /** `AllocAlign` names its boundary as a power of two; `Store` writes a word `offset` bytes into the payload of a
      node. */
  datatype Request =
    | Alloc(uwSize: word)
    | AllocAlign(uwSize: word, log2: nat)
    | Free(pMem: word)
    | Realloc(pPtr: word, uwNew: word)
    | Store(node: nat, offset: nat, value: word)

  datatype Snapshot = Snapshot(mem: Mem, chain: seq<Block>, bins: seq<seq<nat>>)

  /** The pointer returned, the node that was allocated, freed or reallocated, and the free node that a move went to. */
  datatype Reply = Reply(p: nat, i: nat, j: nat)

  /** The request is aimed at the node `k`: a pointer from which `k` is recovered is freed or reallocated, or `k` is
      written. */
  predicate Aimed(m: Mem, r: Request, k: Block)
  {
    match r
    case Free(p) => Recovers(m, p, k.addr)
    case Realloc(p, _) => Recovers(m, p, k.addr)
    case Store(node, _, _) => node == k.addr
    case _ => false
  }

  predicate Recovers(m: Mem, p: nat, a: nat)
  {
    4 <= p < WORD && WordAt(m, p - 4) && Recovered(m, p) == a
  }

  /** The node is where it was, with the size and the payload that it had. */
  ghost predicate StillThere(k: Block, m0: Mem, s: Snapshot)
  {
    k in s.chain && forall a | InPayload(k, a) && a in m0 :: a in s.mem && s.mem[a] == m0[a]
  }

  /** No request reaches a live node that it is not aimed at. */
  ghost predicate Step(s0: Snapshot, r: Request, s1: Snapshot)
  {
    forall k | k in s0.chain && k.used && !Aimed(s0.mem, r, k) :: StillThere(k, s0.mem, s1)
  }

  /** The words mean the chain and the free lists, the lists hold exactly the free nodes by size, and no two neighbours
      are free. */
  ghost predicate WellFormed(s: Snapshot, pool: nat, end: nat)
  {
    Rep(s.mem, pool, end, s.chain, s.bins) && Indexed(s.chain, s.bins) && NoFreeNeighbours(s.chain)
  }

  /** A pointer that may be looked behind: NULL, or one with a word before it. */
  predicate Legal(m: Mem, p: nat) { p == 0 || (p >= 4 && WordAt(m, p - 4)) }

  ghost predicate Writable(s: Snapshot, node: nat, offset: nat)
  {
    && node + HEAD_SIZE + offset in s.mem
    && exists i ::
         0 <= i < |s.chain| - 1 && s.chain[i].used && s.chain[i].addr == node && HEAD_SIZE + offset < s.chain[i].size
  }

  ghost predicate AllocEffect(h: MemPool, s0: Snapshot, uwSize: word, a: Reply, s1: Snapshot)
  {
    if a.p == 0 then s1 == s0 && (uwSize == 0 || uwSize >= USED_FLAG || NoFit(s0.chain, AllocSize(uwSize)))
    else uwSize > 0 && h.Allocated(s0.mem, s0.chain, s0.bins, s1.mem, s1.chain, AllocSize(uwSize), a.i, a.p)
  }

  ghost predicate FreeEffect(s0: Snapshot, pMem: word, a: Reply, s1: Snapshot)
  {
    && Owns(s0.chain, s0.mem, pMem, a.i) && s1.chain == Coalesced(s0.chain, a.i)
    && OthersKept(s0.mem, s0.chain, s1.mem, s1.chain, s0.chain[a.i].addr)
  }

  /** What a request that is answered with `a` does: an allocation at the first fit, or none because nothing fits; a
      free of exactly the node recovered from the pointer, joined with its free neighbours; a reallocation in place or
      by a move; a store. */
  ghost predicate Effect(h: MemPool, s0: Snapshot, r: Request, a: Reply, s1: Snapshot)
  {
    match r
    case Alloc(uwSize) => AllocEffect(h, s0, uwSize, a, s1)
    case AllocAlign(uwSize, log2) =>
      var need := uwSize + Pow2(log2) + 4;
      if need >= WORD then s1 == s0 && a.p == 0
      else if a.p == 0 then s1 == s0 && (uwSize == 0 || need >= USED_FLAG || NoFit(s0.chain, AllocSize(need)))
      else h.AlignAllocated(s0.mem, s0.chain, s0.bins, s1.mem, s1.chain, uwSize, Pow2(log2), a.i, a.p)
    case Free(pMem) => if Legal(s0.mem, pMem) && Owned(s0.chain, s0.mem, pMem) then FreeEffect(s0, pMem, a, s1)
      else s1 == s0
    case Realloc(pPtr, uwNew) =>
      if !Legal(s0.mem, pPtr) || uwNew + HEAD_SIZE + 3 >= WORD then s1 == s0 && a.p == 0
      else if pPtr == 0 then AllocEffect(h, s0, uwNew, a, s1)
      else if !Owned(s0.chain, s0.mem, pPtr) then s1 == s0 && a.p == 0
      else if uwNew == 0 then FreeEffect(s0, pPtr, a, s1) && a.p == 0
      else
        && Owns(s0.chain, s0.mem, pPtr, a.i)
        && a.i + 1 < |s0.chain| && Reallocated(s0.mem, s0.chain, s0.bins, s1.mem, s1.chain, AllocSize(uwNew), a.i, a.p,
           a.j)
    case Store(node, offset, value) =>
      s1 == if Writable(s0, node, offset) then s0.(mem := s0.mem[node + HEAD_SIZE + offset := value]) else s0
  }

  ghost predicate AllWell(trace: seq<Snapshot>, pool: nat, end: nat)
  {
    forall i | 0 <= i < |trace| :: WellFormed(trace[i], pool, end)
  }

  ghost predicate Steps(trace: seq<Snapshot>, requests: seq<Request>)
  {
    |trace| == |requests| + 1 && forall i | 0 <= i < |requests| :: Step(trace[i], requests[i], trace[i + 1])
  }

  ghost predicate Effects(h: MemPool, trace: seq<Snapshot>, requests: seq<Request>, replies: seq<Reply>)
  {
    |trace| == |requests| + 1 == |replies| + 1
      && forall i | 0 <= i < |requests| :: Effect(h, trace[i], requests[i], replies[i], trace[i + 1])
  }

  /** A live node that no request of a run is aimed at comes out of the run unmoved, with its payload as it was. */
  lemma {:induction false} KeptThroughRun(trace: seq<Snapshot>, requests: seq<Request>, k: Block)
    requires Steps(trace, requests) && k in trace[0].chain && k.used
    requires forall i | 0 <= i < |requests| :: !Aimed(trace[i].mem, requests[i], k)
    ensures StillThere(k, trace[0].mem, trace[|requests|])
    decreases |requests|
  {
    if requests != [] {
      var n := |requests| - 1;
      KeptThroughRun(trace[..n + 1], requests[..n], k);
      assert trace[..n + 1][n] == trace[n] && trace[..n + 1][0] == trace[0];
      assert Step(trace[n], requests[n], trace[n + 1]);
    }
  }

  lemma StepSame(s: Snapshot, r: Request)
    ensures Step(s, r, s)
  {
  }

  lemma StepOthers(s0: Snapshot, r: Request, s1: Snapshot, except: nat)
    requires OthersKept(s0.mem, s0.chain, s1.mem, s1.chain, except)
    requires forall k | k in s0.chain && k.used && k.addr == except :: Aimed(s0.mem, r, k)
    ensures Step(s0, r, s1)
  {
    hide Aimed, InPayload;
  }

  ghost function Seen(h: MemPool): Snapshot
    reads h
  {
    Snapshot(h.mem, h.chain, h.bins)
  }

  lemma SeenWell(h: MemPool)
    requires h.Valid()
    ensures WellFormed(Seen(h), h.pool, h.end)
  {
  }

  /** Any one request; one that breaks the rules of the interface does nothing. */
  method Perform(h: MemPool, r: Request, uwTaskID: word) returns (ghost a: Reply)
    requires h.Valid()
    modifies h`mem, h`chain, h`bins
    ensures h.Valid() && Step(old(Seen(h)), r, Seen(h)) && WellFormed(Seen(h), h.pool, h.end)
    ensures Effect(h, old(Seen(h)), r, a, Seen(h))
  {
    hide *;
    ghost var s0 := Seen(h);
    SeenIs(h);
    StepSame(s0, r);
    SeenWell(h);
    match r {
      case Alloc(uwSize) => a := PerformAlloc(h, r, uwTaskID);
      case AllocAlign(uwSize, log2) => a := PerformAlign(h, r, uwTaskID);
      case Free(pMem) => a := PerformFree(h, r);
      case Realloc(pPtr, uwNew) => a := PerformRealloc(h, r, uwTaskID);
      case Store(node, offset, value) => a := PerformStore(h, r);
    }
    SeenWell(h);
  }

  lemma SeenIs(h: MemPool)
    ensures Seen(h) == Snapshot(h.mem, h.chain, h.bins)
  {
  }

  method PerformAlloc(h: MemPool, r: Request, uwTaskID: word) returns (ghost a: Reply)
    requires h.Valid() && r.Alloc?
    modifies h`mem, h`chain, h`bins
    ensures h.Valid() && Step(old(Seen(h)), r, Seen(h)) && Effect(h, old(Seen(h)), r, a, Seen(h))
  {
    ghost var s0 := Seen(h);
    NobodyAtZero(h);
    StepSame(s0, r);
    hide MemPool.Valid, Step, OthersKept, Aimed, FirstFit, Frame, AllocChain, NoFit, MemPool.Allocated;
    var p, i := h.MemAlloc(r.uwSize, uwTaskID);
    a := Reply(p, i, 0);
    AllocatedFrame(h, s0, Seen(h), r.uwSize, i, p);
    if p != 0 {
      StepOthers(s0, r, Seen(h), 0);
    }
  }

  lemma AllocatedFrame(h: MemPool, s0: Snapshot, s1: Snapshot, uwSize: word, i: nat, p: nat)
    ensures h.Allocated(s0.mem, s0.chain, s0.bins, s1.mem, s1.chain, AllocSize(uwSize), i, p) ==>
              OthersKept(s0.mem, s0.chain, s1.mem, s1.chain, 0)
  {
    hide OthersKept, AllocChain, FirstFit, Frame;
  }

  method PerformAlign(h: MemPool, r: Request, uwTaskID: word) returns (ghost a: Reply)
    requires h.Valid() && r.AllocAlign?
    modifies h`mem, h`chain, h`bins
    ensures h.Valid() && Step(old(Seen(h)), r, Seen(h)) && Effect(h, old(Seen(h)), r, a, Seen(h))
  {
    ghost var s0 := Seen(h);
    NobodyAtZero(h);
    StepSame(s0, r);
    hide MemPool.Valid, Step, OthersKept, Aimed, AllocChain, MemPool.AlignedIn, Pow2, NoFit;
    var uwBoundary := Pow2(r.log2);
    a := Reply(0, 0, 0);
    if r.uwSize + uwBoundary + 4 < WORD {
      var p, i := h.MemAllocAlign(r.uwSize, uwBoundary, uwTaskID);
      a := Reply(p, i, 0);
      if p != 0 {
        StepOthers(s0, r, Seen(h), 0);
      }
    }
  }

  /** Live nodes have addresses above zero. */
  lemma NobodyAtZero(h: MemPool)
    requires h.Valid()
    ensures forall k | k in h.chain :: k.addr != 0
  {
    h.ValidFacts();
    AddrsPositive(h.chain, h.pool + FIRST_OFFSET, h.end);
  }

  lemma OwnedIsAimed(c: seq<Block>, m: Mem, p: nat, i: nat, r: Request)
    requires Owns(c, m, p, i) && ((r.Free? && r.pMem == p) || (r.Realloc? && r.pPtr == p))
    ensures i < |c| && forall k: Block | k.addr == c[i].addr :: Aimed(m, r, k)
  {
  }

  method PerformFree(h: MemPool, r: Request) returns (ghost a: Reply)
    requires h.Valid() && r.Free?
    modifies h`mem, h`chain, h`bins
    ensures h.Valid() && Step(old(Seen(h)), r, Seen(h)) && Effect(h, old(Seen(h)), r, a, Seen(h))
  {
    ghost var s0 := Seen(h);
    StepSame(s0, r);
    hide MemPool.Valid, Step, OthersKept, Aimed, Owns, Owned, Coalesced, WordAt;
    a := Reply(0, 0, 0);
    if r.pMem == 0 || (r.pMem >= 4 && WordAt(h.mem, r.pMem - 4)) {
      var ok, i := h.MemFree(r.pMem);
      a := Reply(0, i, 0);
      if ok {
        OwnedIsAimed(s0.chain, s0.mem, r.pMem, i, r);
        StepOthers(s0, r, Seen(h), s0.chain[i].addr);
      }
    }
  }

  method PerformRealloc(h: MemPool, r: Request, uwTaskID: word) returns (ghost a: Reply)
    requires h.Valid() && r.Realloc?
    modifies h`mem, h`chain, h`bins
    ensures h.Valid() && Step(old(Seen(h)), r, Seen(h)) && Effect(h, old(Seen(h)), r, a, Seen(h))
  {
    ghost var s0 := Seen(h);
    NobodyAtZero(h);
    SeenIs(h);
    hide *;
    a := Reply(0, 0, 0);
    if (r.pPtr == 0 || (r.pPtr >= 4 && WordAt(h.mem, r.pPtr - 4))) && r.uwNew + HEAD_SIZE + 3 < WORD {
      var p, i, j := h.MemRealloc(r.pPtr, r.uwNew, uwTaskID);
      a := Reply(p, i, j);
      SeenIs(h);
      if r.pPtr == 0 { NullStep(h, s0, r, a, Seen(h)); } else { ReallocStep(h, s0, r, a, Seen(h)); }
    } else {
      BarredStep(h, s0, r, a);
    }
  }

  lemma BarredStep(h: MemPool, s0: Snapshot, r: Request, a: Reply)
    requires r.Realloc? && !((r.pPtr == 0 || (r.pPtr >= 4 && WordAt(s0.mem, r.pPtr - 4)))
             && r.uwNew + HEAD_SIZE + 3 < WORD)
    requires a.p == 0
    ensures Step(s0, r, s0) && Effect(h, s0, r, a, s0)
  {
    StepSame(s0, r);
    hide Step;
  }

  /** A reallocation of NULL is an allocation. */
  lemma NullStep(h: MemPool, s0: Snapshot, r: Request, a: Reply, s1: Snapshot)
    requires r.Realloc? && r.pPtr == 0 && r.uwNew + HEAD_SIZE + 3 < WORD
    requires if a.p == 0 then s1 == s0 && (r.uwNew == 0 || r.uwNew >= USED_FLAG || NoFit(s1.chain, AllocSize(r.uwNew)))
             else r.uwNew > 0 && h.Allocated(s0.mem, s0.chain, s0.bins, s1.mem, s1.chain, AllocSize(r.uwNew), a.i, a.p)
    requires forall k | k in s0.chain :: k.addr != 0
    ensures Step(s0, r, s1) && Effect(h, s0, r, a, s1)
  {
    StepSame(s0, r);
    AllocatedFrame(h, s0, s1, r.uwNew, a.i, a.p);
    if a.p != 0 { StepOthers(s0, r, s1, 0); }
    hide Step, OthersKept, MemPool.Allocated, NoFit;
  }

  lemma ReallocStep(h: MemPool, s0: Snapshot, r: Request, a: Reply, s1: Snapshot)
    requires r.Realloc? && r.pPtr != 0 && (r.pPtr == 0 || (r.pPtr >= 4 && WordAt(s0.mem, r.pPtr - 4)))
             && r.uwNew + HEAD_SIZE + 3 < WORD
    requires if !Owned(s0.chain, s0.mem, r.pPtr) then s1 == s0 && a.p == 0
             else && Owns(s0.chain, s0.mem, r.pPtr, a.i) && a.i + 1 < |s0.chain|
                  && (if r.uwNew == 0 then
                        && a.p == 0 && s1.chain == Coalesced(s0.chain, a.i)
                        && OthersKept(s0.mem, s0.chain, s1.mem, s1.chain, s0.chain[a.i].addr)
                      else Reallocated(s0.mem, s0.chain, s0.bins, s1.mem, s1.chain, AllocSize(r.uwNew), a.i, a.p, a.j))
    ensures Step(s0, r, s1) && Effect(h, s0, r, a, s1)
  {
    hide Step, OthersKept, Aimed, Owns, Owned, Coalesced, WordAt, Reallocated;
    StepSame(s0, r);
    if Owned(s0.chain, s0.mem, r.pPtr) {
      OwnedIsAimed(s0.chain, s0.mem, r.pPtr, a.i, r);
      if r.uwNew > 0 { ReallocatedOthers(s0, s1, AllocSize(r.uwNew), a.i, a.p, a.j); }
      StepOthers(s0, r, s1, s0.chain[a.i].addr);
    }
  }

  lemma ReallocatedOthers(s0: Snapshot, s1: Snapshot, need: nat, i: nat, pNew: nat, j: nat)
    requires i + 1 < |s0.chain| && Reallocated(s0.mem, s0.chain, s0.bins, s1.mem, s1.chain, need, i, pNew, j)
    ensures OthersKept(s0.mem, s0.chain, s1.mem, s1.chain, s0.chain[i].addr)
  {
    hide InPayload, PrefixKept;
  }

  /** A store through a payload pointer: the walk of the safe check decides whether there is such a node. */
  method PerformStore(h: MemPool, r: Request) returns (ghost a: Reply)
    requires h.Valid() && r.Store?
    modifies h`mem
    ensures h.Valid() && Step(old(Seen(h)), r, Seen(h)) && Effect(h, old(Seen(h)), r, a, Seen(h))
  {
    ghost var s0 := Seen(h);
    StepSame(s0, r);
    h.ValidFacts();
    a := Reply(0, 0, 0);
    var ok, i := h.CheckUsedNode(r.node);
    NotStored(h, s0, r, a);
    hide Effect, Step, Writable;
    if ok {
      h.NodeSize(i);
      WritableHere(h, i, r.offset);
      var size := SizeOf(h.mem[r.node + 12]);
      var pWord := r.node + HEAD_SIZE + r.offset;
      if r.offset + HEAD_SIZE < size && pWord in h.mem {
        StillInformed(h, i, pWord);
        h.mem := h.mem[pWord := r.value];
        Stored(h, s0, i, pWord, r);
        StoreDone(h, s0, r, a, Seen(h));
      }
    }
  }

  lemma NotStored(h: MemPool, s0: Snapshot, r: Request, a: Reply)
    requires r.Store?
    ensures !Writable(s0, r.node, r.offset) ==> Effect(h, s0, r, a, s0)
    ensures (forall j | 0 <= j < |s0.chain| - 1 && s0.chain[j].addr == r.node :: !s0.chain[j].used) ==>
              !Writable(s0, r.node, r.offset)
  {
  }

  lemma StoreDone(h: MemPool, s0: Snapshot, r: Request, a: Reply, s1: Snapshot)
    requires r.Store? && Writable(s0, r.node, r.offset)
             && s1 == s0.(mem := s0.mem[r.node + HEAD_SIZE + r.offset := r.value])
    ensures Effect(h, s0, r, a, s1)
  {
    hide Writable;
  }

  lemma WritableHere(h: MemPool, i: nat, offset: nat)
    requires h.Valid() && i < |h.chain| - 1 && h.chain[i].used
    ensures var node := h.chain[i].addr;
            Writable(Seen(h), node, offset) <==>
                node + HEAD_SIZE + offset in h.mem && HEAD_SIZE + offset < h.chain[i].size
  {
    h.ValidFacts();
    var c := h.chain;
    forall j | 0 <= j < |c| && c[j].addr == c[i].addr ensures j == i {
      Two(c, h.pool + FIRST_OFFSET, h.end, i, j);
    }
    hide MemPool.Valid;
  }

  /** A store into a payload is not one into the pool information. */
  lemma StillInformed(h: MemPool, i: nat, a: nat)
    requires h.Valid() && i < |h.chain| && InPayload(h.chain[i], a)
    ensures a != h.pool && a != h.pool + 4
  {
    h.InfoFacts();
    InfoPayload(h.chain, h.pool, h.end, i);
  }

  lemma Stored(h: MemPool, s0: Snapshot, i: nat, a: nat, r: Request)
    requires Rep(s0.mem, h.pool, h.end, s0.chain, h.bins) && h.Readable() && h.Info() && Indexed(s0.chain, h.bins)
             && NoFreeNeighbours(s0.chain)
    requires h.chain == s0.chain && i < |s0.chain| && InPayload(s0.chain[i], a) && r.Store?
             && r.node == s0.chain[i].addr
    requires a in s0.mem && h.mem == s0.mem[a := r.value]
    ensures h.Valid() && Step(s0, r, Seen(h))
  {
    PayloadRep(s0.mem, h.mem, h.pool, h.end, h.chain, h.bins, i);
    hide Rep, Indexed, NoFreeNeighbours, MemPool.Readable, MemPool.Info;
    forall k | k in s0.chain && k.used && !Aimed(s0.mem, r, k) ensures StillThere(k, s0.mem, Seen(h)) {
      if InPayload(k, a) { OneOwner(s0.mem, h.pool, h.end, s0.chain, h.bins, i, k, a); }
    }
  }

  lemma OneOwner(m: Mem, pool: nat, end: nat, c: seq<Block>, bins: seq<seq<nat>>, i: nat, k: Block, a: nat)
    requires Rep(m, pool, end, c, bins) && i < |c| && k in c && InPayload(c[i], a) && InPayload(k, a)
    ensures k.addr == c[i].addr
  {
    var j :| 0 <= j < |c| && c[j] == k;
    PayloadsDisjoint(c, pool + FIRST_OFFSET, end, i, j, a);
  }

  /** Every sequence of requests, from any state in order: the pool stays in order throughout, and the states passed
      through form a run in the sense of `Steps`. */
  method Run(h: MemPool, requests: seq<Request>, uwTaskID: word)
    returns (ghost trace: seq<Snapshot>, ghost replies: seq<Reply>)
    requires h.Valid()
    modifies h`mem, h`chain, h`bins
    ensures h.Valid() && Steps(trace, requests) && trace[0] == old(Seen(h)) && trace[|requests|] == Seen(h)
    ensures AllWell(trace, h.pool, h.end) && Effects(h, trace, requests, replies)
  {
    SeenWell(h);
    trace, replies := [Seen(h)], [];
    assert Steps(trace, requests[..0]);
    for n := 0 to |requests|
      invariant h.Valid() && Steps(trace, requests[..n]) && trace[0] == old(Seen(h)) && trace[n] == Seen(h)
      invariant AllWell(trace, h.pool, h.end) && Effects(h, trace, requests[..n], replies)
    {
      hide *;
      TraceLength(trace, requests[..n]);
      ghost var a := Perform(h, requests[n], uwTaskID);
      OneMoreStep(trace, requests[..n], requests[n], Seen(h));
      OneMoreEffect(h, trace, requests[..n], replies, requests[n], a, Seen(h));
      OneMoreWell(trace, Seen(h), h.pool, h.end);
      OneMoreRequest(requests, n);
      trace, replies := trace + [Seen(h)], replies + [a];
    }
    assert requests[..|requests|] == requests;
  }

  lemma OneMoreEffect(h: MemPool, trace: seq<Snapshot>, requests: seq<Request>, replies: seq<Reply>, r: Request,
                      a: Reply, s: Snapshot)
    requires Effects(h, trace, requests, replies) && Effect(h, trace[|requests|], r, a, s)
    ensures Effects(h, trace + [s], requests + [r], replies + [a])
  {
    hide Effect;
    var t, q, l := trace + [s], requests + [r], replies + [a];
    forall i | 0 <= i < |q| ensures Effect(h, t[i], q[i], l[i], t[i + 1]) {
      if i < |requests| {
        assert t[i] == trace[i] && t[i + 1] == trace[i + 1] && q[i] == requests[i] && l[i] == replies[i];
      }
    }
  }

  lemma OneMoreRequest(requests: seq<Request>, n: nat)
    requires n < |requests|
    ensures requests[..n] + [requests[n]] == requests[..n + 1]
  {
  }

  lemma OneMoreWell(trace: seq<Snapshot>, s: Snapshot, pool: nat, end: nat)
    requires AllWell(trace, pool, end) && WellFormed(s, pool, end)
    ensures AllWell(trace + [s], pool, end)
  {
  }

  lemma TraceLength(trace: seq<Snapshot>, requests: seq<Request>)
    requires Steps(trace, requests)
    ensures |trace| == |requests| + 1
  {
  }

  lemma OneMoreStep(trace: seq<Snapshot>, requests: seq<Request>, r: Request, s: Snapshot)
    requires Steps(trace, requests) && Step(trace[|requests|], r, s)
    ensures Steps(trace + [s], requests + [r])
  {
    hide Step;
    var t, q := trace + [s], requests + [r];
    forall i | 0 <= i < |q| ensures Step(t[i], q[i], t[i + 1]) {
      if i < |requests| {
        assert t[i] == trace[i] && t[i + 1] == trace[i + 1] && q[i] == requests[i];
      }
    }
  }

  /** The pointer returned leads into the payload of the block `k`, which is as large as was asked for. */
  ghost predicate Gives(h: MemPool, r: Request, a: Reply, k: Block, m: Mem)
  {
    && k.used && a.p != 0
    && match r
       case Alloc(uwSize) => a.p == k.addr + HEAD_SIZE && AllocSize(uwSize) <= k.size
       case AllocAlign(uwSize, log2) => h.AlignedIn(m, k, a.p, uwSize, Pow2(log2))
       case Realloc(_, uwNew) => a.p == k.addr + HEAD_SIZE && AllocSize(uwNew) <= k.size
       case _ => false
  }

  /** A block that an allocation, an aligned one or a reallocation returned in a run is still there at the end, with the
      payload that it had at first, unless a later request was aimed at it. */
  lemma AllocatedStays(h: MemPool, trace: seq<Snapshot>, requests: seq<Request>, replies: seq<Reply>, n: nat)
    returns (k: Block)
    requires Steps(trace, requests) && AllWell(trace, h.pool, h.end) && Effects(h, trace, requests, replies)
    requires n < |requests| && !requests[n].Free? && !requests[n].Store? && replies[n].p != 0
    requires forall x: Block, i | x in trace[n + 1].chain && Gives(h, requests[n], replies[n], x, trace[n + 1].mem)
             && n < i < |requests| ::
               !Aimed(trace[i].mem, requests[i], x)
    ensures Gives(h, requests[n], replies[n], k, trace[n + 1].mem)
    ensures k in trace[n + 1].chain && StillThere(k, trace[n + 1].mem, trace[|requests|])
  {
    assert Effect(h, trace[n], requests[n], replies[n], trace[n + 1]) && WellFormed(trace[n], h.pool, h.end);
    hide *;
    k := GivenBlock(h, trace[n], requests[n], replies[n], trace[n + 1]);
    UsedBlock(h, requests[n], replies[n], k, trace[n + 1].mem);
    Later(trace, requests, n, k);
  }

  lemma UsedBlock(h: MemPool, r: Request, a: Reply, k: Block, m: Mem)
    requires Gives(h, r, a, k, m)
    ensures k.used
  {
  }

  lemma GivenBlock(h: MemPool, s0: Snapshot, r: Request, a: Reply, s1: Snapshot) returns (k: Block)
    requires Effect(h, s0, r, a, s1) && WellFormed(s0, h.pool, h.end) && !r.Free? && !r.Store? && a.p != 0
    ensures k in s1.chain && Gives(h, r, a, k, s1.mem)
  {
    hide AllocEffect, Reallocated, WellFormed, WordAt, InPayload, Recovered, Owned, MetFirst, OthersKept, AllocChain;
    match r {
      case Alloc(uwSize) => k := NewBlock(h, s0, uwSize, a, s1);
      case AllocAlign(uwSize, log2) => k := s1.chain[a.i];
      case Realloc(pPtr, uwNew) =>
        if pPtr == 0 {
          k := NewBlock(h, s0, uwNew, a, s1);
        } else if uwNew > 0 {
          k := ResizedBlock(h, s0, AllocSize(uwNew), a, s1);
        }
    }
  }

  lemma NewBlock(h: MemPool, s0: Snapshot, uwSize: word, a: Reply, s1: Snapshot) returns (k: Block)
    requires AllocEffect(h, s0, uwSize, a, s1) && a.p != 0
    ensures k in s1.chain && k.used && k.addr + HEAD_SIZE == a.p && k.size >= AllocSize(uwSize)
  {
    var need := AllocSize(uwSize);
    AllocElements(s0.chain, a.i, need);
    k := s1.chain[a.i];
    hide OthersKept, Frame, MetFirst, NoFit;
  }

  /** The node that a reallocation has resized in place, or moved to. */
  lemma ResizedBlock(h: MemPool, s0: Snapshot, need: nat, a: Reply, s1: Snapshot) returns (k: Block)
    requires a.i + 1 < |s0.chain| && s0.chain[a.i].used && a.p != 0 && HEAD_SIZE <= need
             && WellFormed(s0, h.pool, h.end)
    requires Reallocated(s0.mem, s0.chain, s0.bins, s1.mem, s1.chain, need, a.i, a.p, a.j)
    ensures k in s1.chain && k.used && k.addr + HEAD_SIZE == a.p && k.size >= need
  {
    TilesHere(s0, h.pool, h.end);
    hide *;
    if need <= Total(s0.chain, a.i) {
      StaysIn(s0, need, a, s1);
      k := ResizedIn(s0.chain, a.i, need);
    } else {
      MovesTo(s0, need, a, s1);
      k := MovedIn(s0.chain, h.pool + FIRST_OFFSET, h.end, a.j, need, a.i);
    }
  }

  lemma StaysIn(s0: Snapshot, need: nat, a: Reply, s1: Snapshot)
    requires a.i + 1 < |s0.chain| && Reallocated(s0.mem, s0.chain, s0.bins, s1.mem, s1.chain, need, a.i, a.p, a.j)
    requires need <= Total(s0.chain, a.i)
    ensures s1.chain == Resized(s0.chain, a.i, need) && a.p == s0.chain[a.i].addr + HEAD_SIZE
  {
    hide Resized, Total, OthersKept, PrefixKept;
  }

  lemma MovesTo(s0: Snapshot, need: nat, a: Reply, s1: Snapshot)
    requires a.i + 1 < |s0.chain| && Reallocated(s0.mem, s0.chain, s0.bins, s1.mem, s1.chain, need, a.i, a.p, a.j)
    requires need > Total(s0.chain, a.i) && a.p != 0
    ensures a.j < |s0.chain| - 1 && !s0.chain[a.j].used && need <= s0.chain[a.j].size
            && a.p == s0.chain[a.j].addr + HEAD_SIZE
    ensures Shifted(s0.chain, a.j, need, a.i) + 1 < |AllocChain(s0.chain, a.j, need)|
    ensures s1.chain == Coalesced(AllocChain(s0.chain, a.j, need), Shifted(s0.chain, a.j, need, a.i))
  {
    hide Resized, Total, OthersKept, PrefixKept, Coalesced, AllocChain, Shifted, MetFirst, NoFit;
  }

  /** The node allocated for a move stands when the old one has been freed. */
  lemma MovedIn(c: seq<Block>, first: nat, end: nat, j: nat, need: nat, i: nat) returns (k: Block)
    requires Tiles(c, first, end) && i < |c| - 1 && j < |c| - 1 && c[i].used && !c[j].used
             && HEAD_SIZE <= need <= c[j].size
    requires need > Total(c, i) && Shifted(c, j, need, i) + 1 < |AllocChain(c, j, need)|
    ensures k in Coalesced(AllocChain(c, j, need), Shifted(c, j, need, i)) && k.used && k.addr == c[j].addr
            && k.size >= need
  {
    hide *;
    TotalCovers(c, i);
    ShiftedNode(c, first, end, j, need, i);
    LastUsed(c, first, end, j, need);
    k := AllocChain(c, j, need)[j];
    StillInCoalesced(AllocChain(c, j, need), Shifted(c, j, need, i), j);
  }

  lemma LastUsed(c: seq<Block>, first: nat, end: nat, j: nat, need: nat)
    requires Tiles(c, first, end) && j < |c| - 1 && need <= c[j].size
    ensures var m := AllocChain(c, j, need); m != [] && m[|m| - 1].used
  {
    EndUsed(c, first, end);
    AllocElements(c, j, need);
    hide Tiles;
  }

  lemma TilesHere(s: Snapshot, pool: nat, end: nat)
    requires WellFormed(s, pool, end)
    ensures Tiles(s.chain, pool + FIRST_OFFSET, end)
  {
  }

  /** The rest of the run leaves the block alone. */
  lemma Later(trace: seq<Snapshot>, requests: seq<Request>, n: nat, k: Block)
    requires Steps(trace, requests) && n < |requests| && k in trace[n + 1].chain && k.used
    requires forall i | n < i < |requests| :: !Aimed(trace[i].mem, requests[i], k)
    ensures StillThere(k, trace[n + 1].mem, trace[|requests|])
  {
    hide Step, Aimed;
    var t, q := trace[n + 1..], requests[n + 1..];
    assert Steps(t, q) by {
      forall i | 0 <= i < |q| ensures Step(t[i], q[i], t[i + 1]) {
        assert Step(trace[n + 1 + i], requests[n + 1 + i], trace[n + 2 + i]);
      }
    }
    forall i | 0 <= i < |q| ensures !Aimed(t[i].mem, q[i], k) {
      assert t[i] == trace[n + 1 + i] && q[i] == requests[n + 1 + i];
    }
    KeptThroughRun(t, q, k);
    assert t[|q|] == trace[|requests|];
  }
}
