/** Recursive mutexes with priority inheritance and direct hand-over (kernel/base/ipc/los_mux.c). */
module Mutex {
  import opened DeltaList
  import opened Errno
  import opened Steps
  import opened Tasks
  import opened TaskSystem

  const COUNT_LIMIT: nat := 0x1_0000       // usMuxCount has 16 bits

  /** A control block; the owner means something only while the count is not 0. */
  datatype Mux = Mux(used: bool, usMuxCount: nat, pstOwner: Task, usPriority: nat)

  predicate Held(m: Mux) { m.used && m.usMuxCount > 0 }

  function DepthOf(depth: map<Task, int>, t: Task): int
  {
    if t in depth then depth[t] else 0
  }

  /** The ledger with `n` more for `t`: 1 for a pend that is granted, -1 for a post. */
  function Counted(depth: map<Task, int>, t: Task, n: int): map<Task, int>
  {
    depth[t := DepthOf(depth, t) + n]
  }

  // ---------------------------------------------------------------- one mutex

  /** By the ledger the owner has pended exactly `usMuxCount` times more than it has posted, and nobody else has pended
      more than posted; the count fits in its field; a free mutex has no waiters; and whoever has been handed the mutex
      and has not resumed is the owner already. */
  ghost predicate MuxOk(m: Mux, depth: map<Task, int>, waiters: seq<Task>, given: set<Task>, tasks: set<Task>)
  {
    && m.usMuxCount < COUNT_LIMIT
    && (Held(m) ==> m.usPriority < PRIORITIES && m.pstOwner in tasks && m.pstOwner !in waiters && given <= {m.pstOwner})
    && (!Held(m) ==> waiters == [] && given == {})
    && forall t :: DepthOf(depth, t) == if Held(m) && t == m.pstOwner then m.usMuxCount else 0
  }

  ghost predicate OneOk(cbs: seq<Mux>, depth: seq<map<Task, int>>, c: Core, k: nat)
    requires k < |cbs| && |depth| == |cbs|
  {
    MuxOk(cbs[k], depth[k], At(c.lists, MuxL(k)), Flying(c.flight, MuxL(k)), c.tcb.Keys)
  }

  ghost predicate MuxesOk(cbs: seq<Mux>, depth: seq<map<Task, int>>, c: Core)
  {
    |depth| == |cbs| && forall k | 0 <= k < |cbs| :: OneOk(cbs, depth, c, k)
  }

  lemma OneKept(cbs: seq<Mux>, depth: seq<map<Task, int>>, c: Core, c': Core, mine: set<ListId>, k: nat)
    requires |depth| == |cbs| && k < |cbs| && OneOk(cbs, depth, c, k) && Kept(c, c', mine) && MuxL(k) !in mine
    ensures OneOk(cbs, depth, c', k)
  {
    assert KeptAt(c, c', MuxL(k));
    StillEmpty(At(c'.lists, MuxL(k)), At(c.lists, MuxL(k)));
  }

  lemma MuxesKept(cbs: seq<Mux>, depth: seq<map<Task, int>>, c: Core, c': Core, mine: set<ListId>)
    requires MuxesOk(cbs, depth, c) && Kept(c, c', mine) && forall o | o in mine :: !o.MuxL?
    ensures MuxesOk(cbs, depth, c')
  {
    forall k | 0 <= k < |cbs| ensures OneOk(cbs, depth, c', k) {
      OneKept(cbs, depth, c, c', mine, k);
    }
  }

  lemma OthersKept(cbs: seq<Mux>, depth: seq<map<Task, int>>, cbs': seq<Mux>, depth': seq<map<Task, int>>, c: Core,
                   c': Core, k: nat)
    requires MuxesOk(cbs, depth, c) && k < |cbs| && Kept(c, c', {MuxL(k)})
    requires |cbs'| == |cbs| && |depth'| == |depth|
             && forall j | 0 <= j < |cbs| && j != k :: cbs'[j] == cbs[j] && depth'[j] == depth[j]
    requires OneOk(cbs', depth', c', k)
    ensures MuxesOk(cbs', depth', c')
  {
    forall j | 0 <= j < |cbs'| ensures OneOk(cbs', depth', c', j) {
      assert OneOk(cbs, depth, c, j);
      if j != k { OneKept(cbs, depth, c, c', {MuxL(k)}, j); }
    }
  }

  lemma TakenOk(cbs: seq<Mux>, depth: seq<map<Task, int>>, c: Core, k: nat, t: Task, p: nat)
    requires MuxesOk(cbs, depth, c) && k < |cbs| && cbs[k].used && !Held(cbs[k]) && t in c.tcb && p < PRIORITIES
    ensures OneOk(cbs[k := Mux(true, 1, t, p)], depth[k := Counted(depth[k], t, 1)], c, k)
  {
    assert OneOk(cbs, depth, c, k);
    CountedOthers(depth[k], t, 1);
  }

  lemma CountedOthers(depth: map<Task, int>, t: Task, n: int)
    ensures forall u :: DepthOf(Counted(depth, t, n), u) == DepthOf(depth, u) + if u == t then n else 0
  {
  }

  /** A nested pend keeps the mutex in order if and only if it is not the 65536th: then the 16-bit count would be back
      at 0, and the mutex free for everybody while its owner still owes 65536 posts. */
  lemma NestedPendFits(m: Mux, depth: map<Task, int>, waiters: seq<Task>, given: set<Task>, tasks: set<Task>)
    requires MuxOk(m, depth, waiters, given, tasks) && Held(m)
    ensures MuxOk(m.(usMuxCount := (m.usMuxCount + 1) % COUNT_LIMIT), Counted(depth, m.pstOwner, 1), waiters, given,
            tasks)
            <==> m.usMuxCount < COUNT_LIMIT - 1
  {
    CountedOthers(depth, m.pstOwner, 1);
    assert DepthOf(Counted(depth, m.pstOwner, 1), m.pstOwner) == m.usMuxCount + 1;
  }

  /** It happens: the 65536th pend of task 1 leaves the mutex free by its count, with 65536 posts owed. */
  lemma NestedTooOften()
    ensures var m, depth := Mux(true, COUNT_LIMIT - 1, 1, 5), map[1 := COUNT_LIMIT - 1];
            var m', depth' := m.(usMuxCount := (m.usMuxCount + 1) % COUNT_LIMIT), Counted(depth, 1, 1);
            MuxOk(m, depth, [], {}, {1}) && !Held(m') && DepthOf(depth', 1) == COUNT_LIMIT
              && !MuxOk(m', depth', [], {}, {1})
  {
    NestedPendFits(Mux(true, COUNT_LIMIT - 1, 1, 5), map[1 := COUNT_LIMIT - 1], [], {}, {1});
  }

  lemma UnnestedOk(cbs: seq<Mux>, depth: seq<map<Task, int>>, c: Core, k: nat)
    requires MuxesOk(cbs, depth, c) && k < |cbs| && Held(cbs[k]) && cbs[k].usMuxCount > 1
    ensures OneOk(cbs[k := cbs[k].(usMuxCount := cbs[k].usMuxCount - 1)],
            depth[k := Counted(depth[k], cbs[k].pstOwner, -1)], c, k)
  {
    assert OneOk(cbs, depth, c, k);
    CountedOthers(depth[k], cbs[k].pstOwner, -1);
  }

  lemma ResumedOk(cbs: seq<Mux>, depth: seq<map<Task, int>>, c: Core, c': Core, t: Task, timedOut: bool)
    requires MuxesOk(cbs, depth, c) && FinishStep(c, c', t, timedOut) && c.tcb[t].wait.id.MuxL?
    ensures MuxesOk(cbs, depth, c')
    ensures var k := c.tcb[t].wait.id.m; k < |cbs| && !timedOut ==> Held(cbs[k]) && cbs[k].pstOwner == t
  {
    var k := c.tcb[t].wait.id.m;
    if k < |cbs| {
      assert OneOk(cbs, depth, c, k);
      OthersKept(cbs, depth, cbs, depth, c, c', k);
    } else {
      forall j | 0 <= j < |cbs| ensures OneOk(cbs, depth, c', j) {
        OneKept(cbs, depth, c, c', {MuxL(k)}, j);
      }
    }
  }

  /** The ledger when the owner has given up the mutex. */
  function GivenUp(cbs: seq<Mux>, depth: seq<map<Task, int>>, k: nat): seq<map<Task, int>>
    requires k < |cbs| && |depth| == |cbs|
  {
    depth[k := Counted(depth[k], cbs[k].pstOwner, -1)]
  }

  lemma HandedOk(cbs: seq<Mux>, depth: seq<map<Task, int>>, c: Core, c': Core, k: nat, w: Task, p: nat)
    requires MuxesOk(cbs, depth, c) && k < |cbs| && Held(cbs[k]) && c.tcb.Keys <= c'.tcb.Keys && w in c'.tcb
             && p < PRIORITIES
    requires cbs[k].usMuxCount == 1 && w in At(c.lists, MuxL(k)) && Different(At(c.lists, MuxL(k)))
    requires At(c'.lists, MuxL(k)) == Without(At(c.lists, MuxL(k)), w)
    requires Flying(c'.flight, MuxL(k)) == Flying(c.flight, MuxL(k)) + {w} && Flying(c.flight, MuxL(k)) == {}
    ensures var d := GivenUp(cbs, depth, k); OneOk(cbs[k := Mux(true, 1, w, p)], d[k := Counted(d[k], w, 1)], c', k)
  {
    assert OneOk(cbs, depth, c, k);
    WithoutElements(At(c.lists, MuxL(k)), w);
    var d := GivenUp(cbs, depth, k);
    CountedOthers(depth[k], cbs[k].pstOwner, -1);
    CountedOthers(d[k], w, 1);
  }

  lemma GivenUpLength(cbs: seq<Mux>, depth: seq<map<Task, int>>, k: nat)
    requires k < |cbs| && |depth| == |cbs|
    ensures |GivenUp(cbs, depth, k)| == |depth|
  {
  }

  lemma HandedMuxes(cbs: seq<Mux>, depth: seq<map<Task, int>>, c: Core, c': Core, k: nat, w: Task, p: nat)
    requires MuxesOk(cbs, depth, c) && k < |cbs| == |depth| && Held(cbs[k]) && Kept(c, c', {MuxL(k)}) && w in c'.tcb
             && p < PRIORITIES
    requires cbs[k].usMuxCount == 1 && w in At(c.lists, MuxL(k)) && Different(At(c.lists, MuxL(k)))
    requires At(c'.lists, MuxL(k)) == Without(At(c.lists, MuxL(k)), w)
    requires Flying(c'.flight, MuxL(k)) == Flying(c.flight, MuxL(k)) + {w} && Flying(c.flight, MuxL(k)) == {}
    ensures var d := GivenUp(cbs, depth, k);
            |d| == |cbs| && MuxesOk(cbs[k := Mux(true, 1, w, p)], d[k := Counted(d[k], w, 1)], c')
  {
    hide MuxesOk, OneOk, Counted, Kept, At, Flying;
    var d := GivenUp(cbs, depth, k);
    KeptKeys(c, c', {MuxL(k)});
    HandedOk(cbs, depth, c, c', k, w, p);
    OthersKept(cbs, depth, cbs[k := Mux(true, 1, w, p)], d[k := Counted(d[k], w, 1)], c, c', k);
  }

  lemma KeptKeys(c: Core, c': Core, mine: set<ListId>)
    requires Kept(c, c', mine)
    ensures c.tcb.Keys <= c'.tcb.Keys
  {
  }

  lemma FreedMuxes(cbs: seq<Mux>, depth: seq<map<Task, int>>, c: Core, k: nat)
    requires WF(c) && MuxesOk(cbs, depth, c) && k < |cbs| == |depth| && Held(cbs[k]) && At(c.lists, MuxL(k)) == []
    requires Flying(c.flight, MuxL(k)) == {} && cbs[k].usMuxCount == 1
    ensures MuxesOk(cbs[k := cbs[k].(usMuxCount := 0)], GivenUp(cbs, depth, k), c)
  {
    hide MuxesOk, OneOk, Counted, Kept, At, Flying, WF;
    FreedOk(cbs, depth, c, k);
    KeptRefl(c, {MuxL(k)});
    OthersKept(cbs, depth, cbs[k := cbs[k].(usMuxCount := 0)], GivenUp(cbs, depth, k), c, c, k);
  }

  lemma FreedOk(cbs: seq<Mux>, depth: seq<map<Task, int>>, c: Core, k: nat)
    requires MuxesOk(cbs, depth, c) && k < |cbs| && Held(cbs[k]) && At(c.lists, MuxL(k)) == []
             && Flying(c.flight, MuxL(k)) == {}
    requires cbs[k].usMuxCount == 1
    ensures OneOk(cbs[k := cbs[k].(usMuxCount := 0)], GivenUp(cbs, depth, k), c, k)
  {
    assert OneOk(cbs, depth, c, k);
    CountedOthers(depth[k], cbs[k].pstOwner, -1);
  }

  lemma SavedSmall(cbs: seq<Mux>, depth: seq<map<Task, int>>, c: Core, k: nat)
    requires MuxesOk(cbs, depth, c) && k < |cbs| && Held(cbs[k])
    ensures cbs[k].usPriority <= PRIORITY_LOWEST
  {
    assert OneOk(cbs, depth, c, k);
  }

  /** An owner in the middle of its own code has resumed from its pend. */
  lemma RunnerNotGiven(cbs: seq<Mux>, depth: seq<map<Task, int>>, c: Core, k: nat, t: Task)
    requires WF(c) && MuxesOk(cbs, depth, c) && k < |cbs| && Held(cbs[k]) && cbs[k].pstOwner == t && t in c.tcb
             && c.tcb[t].wait.NoWait?
    ensures Flying(c.flight, MuxL(k)) == {}
  {
    assert OneOk(cbs, depth, c, k);
    assert Flights(c.tcb, c.flight);
  }

  lemma PrioritySmall(x: Tcb)
    requires TcbOk(x)
    ensures x.usPriority <= PRIORITY_LOWEST
  {
  }

  lemma KeptMore(c: Core, c': Core, mine: set<ListId>, more: set<ListId>)
    requires Kept(c, c', mine) && mine <= more
    ensures Kept(c, c', more)
  {
  }

  lemma OwnerThere(cbs: seq<Mux>, depth: seq<map<Task, int>>, c: Core, k: nat)
    requires MuxesOk(cbs, depth, c) && k < |cbs| && Held(cbs[k])
    ensures cbs[k].pstOwner in c.tcb && cbs[k].pstOwner !in At(c.lists, MuxL(k))
  {
    assert OneOk(cbs, depth, c, k);
  }

  lemma OneThere(cbs: seq<Mux>, depth: seq<map<Task, int>>, c: Core, k: nat)
    requires MuxesOk(cbs, depth, c) && k < |cbs|
    ensures |depth| == |cbs| && OneOk(cbs, depth, c, k)
    ensures MuxOk(cbs[k], depth[k], At(c.lists, MuxL(k)), Flying(c.flight, MuxL(k)), c.tcb.Keys)
  {
  }

  lemma WaiterOk(cbs: seq<Mux>, depth: seq<map<Task, int>>, c: Core, c': Core, k: nat, t: Task)
    requires MuxesOk(cbs, depth, c) && k < |cbs| && Held(cbs[k]) && t != cbs[k].pstOwner && c.tcb.Keys <= c'.tcb.Keys
    requires At(c'.lists, MuxL(k)) == At(c.lists, MuxL(k)) + [t]
             && Flying(c'.flight, MuxL(k)) == Flying(c.flight, MuxL(k))
    ensures OneOk(cbs, depth, c', k)
  {
    assert OneOk(cbs, depth, c, k);
  }

  // ---------------------------------------------------------------- priorities

  /** The priorities saved by the mutexes that a task holds, in the order in which it got them: they start from its own
      priority and only become more urgent (smaller), and the task is at least as urgent as the last one says. */
  predicate Ladder(saved: seq<nat>, prio: nat, base: nat)
  {
    if saved == [] then prio == base
    else saved[0] == base && prio <= saved[|saved| - 1] && forall i | 0 <= i < |saved| - 1 :: saved[i + 1] <= saved[i]
  }

  lemma {:induction false} LadderFalls(saved: seq<nat>, prio: nat, base: nat, i: nat, j: nat)
    requires Ladder(saved, prio, base) && i <= j < |saved|
    ensures saved[j] <= saved[i]
    decreases j
  {
    if i < j { LadderFalls(saved, prio, base, i, j - 1); }
  }

  /** No task is ever less urgent than its own priority, and a task that holds nothing is exactly at it. */
  lemma NeverLessUrgent(saved: seq<nat>, prio: nat, base: nat)
    requires Ladder(saved, prio, base)
    ensures prio <= base
    ensures saved == [] ==> prio == base
  {
    if saved != [] { LadderFalls(saved, prio, base, 0, |saved| - 1); }
  }

  function Dropped(saved: seq<nat>, i: nat): seq<nat>
    requires i < |saved|
  {
    saved[..i] + saved[i + 1..]
  }

  /** Releasing the `i`-th mutex puts the task back to the priority saved there.  The ladder survives exactly if that is
      the priority saved last: always in last-in-first-out order.  (A broken ladder may mend again; what matters to a
      task that holds nothing is said in module `Runs`.) */
  lemma ReleaseKeepsLadder(saved: seq<nat>, prio: nat, base: nat, i: nat)
    requires Ladder(saved, prio, base) && i < |saved|
    ensures Ladder(Dropped(saved, i), saved[i], base) <==> saved[i] == saved[|saved| - 1]
  {
    var n := |saved|;
    var d := Dropped(saved, i);
    assert forall j | 0 <= j < n - 1 :: d[j] == if j < i then saved[j] else saved[j + 1];
    LadderFalls(saved, prio, base, i, n - 1);
    if i < n - 1 {
      LadderFalls(saved, prio, base, 0, n - 1);
      assert d[|d| - 1] == saved[n - 1];
      if i > 0 { assert saved[i + 1] <= saved[i] <= saved[i - 1]; }
    } else if n > 1 {
      assert d[|d| - 1] == saved[n - 2] && saved[n - 1] <= saved[n - 2];
    }
    hide Dropped;
    if saved[i] == saved[n - 1] && d != [] {
      if i == 0 { LadderFalls(saved, prio, base, 0, 1); LadderFalls(saved, prio, base, 1, n - 1); }
      forall j | 0 <= j < |d| - 1 ensures d[j + 1] <= d[j] {
        LadderFalls(saved, prio, base, j, j + 1);
        if j + 2 < n { LadderFalls(saved, prio, base, j + 1, j + 2); }
      }
    }
  }

  /** Out of order it can go wrong: a task of priority 10 takes a mutex, is lifted to 5 by a waiter, takes a second
      mutex and releases the first one first; after both releases it holds nothing and runs at 5. */
  lemma OutOfOrderStaysLifted()
    ensures Ladder([10, 5], 5, 10) && !Ladder(Dropped([10, 5], 0), 10, 10)
    ensures Dropped(Dropped([10, 5], 0), 0) == [] && !Ladder([], 5, 10)
  {
    assert Dropped([10, 5], 0) == [5];
  }

  lemma LadderPush(saved: seq<nat>, prio: nat, base: nat)
    requires Ladder(saved, prio, base)
    ensures Ladder(saved + [prio], prio, base)
  {
    var s := saved + [prio];
    forall i | 0 <= i < |s| - 1 ensures s[i + 1] <= s[i] {
      if i + 1 < |saved| { assert saved[i + 1] <= saved[i]; }
    }
  }

  lemma LadderBoost(saved: seq<nat>, prio: nat, base: nat, p: nat)
    requires Ladder(saved, prio, base) && saved != [] && p <= prio
    ensures Ladder(saved, p, base)
  {
  }

  function StackOf(stack: map<Task, seq<nat>>, t: Task): seq<nat>
  {
    if t in stack then stack[t] else []
  }

  function Saved(cbs: seq<Mux>, st: seq<nat>): seq<nat>
  {
    seq(|st|, i requires 0 <= i < |st| => if st[i] < |cbs| then cbs[st[i]].usPriority else 0)
  }

  predicate Owns(cbs: seq<Mux>, t: Task, k: nat)
  {
    k < |cbs| && Held(cbs[k]) && cbs[k].pstOwner == t
  }

  /** The stacks hold exactly the mutexes that are held, each once. */
  ghost predicate Stacks(cbs: seq<Mux>, stack: map<Task, seq<nat>>)
  {
    && (forall t, k :: k in StackOf(stack, t) <==> Owns(cbs, t, k))
    && (forall t :: Different(StackOf(stack, t)))
  }

  ghost predicate LadderAt(cbs: seq<Mux>, stack: map<Task, seq<nat>>, tcb: map<Task, Tcb>, base: map<Task, nat>,
                           t: Task)
    requires t in tcb
  {
    t in base && Ladder(Saved(cbs, StackOf(stack, t)), tcb[t].usPriority, base[t])
  }

  ghost predicate Ladders(cbs: seq<Mux>, stack: map<Task, seq<nat>>, tcb: map<Task, Tcb>, base: map<Task, nat>)
  {
    forall t | t in tcb :: LadderAt(cbs, stack, tcb, base, t)
  }

  /** The task `t` gets the free mutex `k`. */
  lemma AcquireStacks(cbs: seq<Mux>, stack: map<Task, seq<nat>>, k: nat, t: Task, p: nat)
    requires Stacks(cbs, stack) && k < |cbs| && cbs[k].used && !Held(cbs[k])
    ensures var cbs' := cbs[k := Mux(true, 1, t, p)];
            Stacks(cbs', stack[t := StackOf(stack, t) + [k]])
  {
    var cbs' := cbs[k := Mux(true, 1, t, p)];
    var stack' := stack[t := StackOf(stack, t) + [k]];
    assert k !in StackOf(stack, t);
    forall u, j ensures j in StackOf(stack', u) <==> Owns(cbs', u, j) {
      assert j in StackOf(stack, u) <==> Owns(cbs, u, j);
    }
    forall u ensures Different(StackOf(stack', u)) {
      assert Different(StackOf(stack, u));
    }
  }

  lemma AcquireLadders(cbs: seq<Mux>, stack: map<Task, seq<nat>>, tcb: map<Task, Tcb>, base: map<Task, nat>, k: nat,
                       t: Task)
    requires Stacks(cbs, stack) && Ladders(cbs, stack, tcb, base) && k < |cbs| && cbs[k].used && !Held(cbs[k])
             && t in tcb
    ensures var p := tcb[t].usPriority;
            Ladders(cbs[k := Mux(true, 1, t, p)], stack[t := StackOf(stack, t) + [k]], tcb, base)
  {
    var p := tcb[t].usPriority;
    var cbs', stack' := cbs[k := Mux(true, 1, t, p)], stack[t := StackOf(stack, t) + [k]];
    forall u | u in tcb ensures LadderAt(cbs', stack', tcb, base, u) {
      assert LadderAt(cbs, stack, tcb, base, u);
      var st := StackOf(stack, u);
      SavedElsewhere(cbs, stack, k, u, cbs');
      if u == t {
        assert Saved(cbs', st + [k]) == Saved(cbs, st) + [p];
        LadderPush(Saved(cbs, st), p, base[u]);
      }
    }
  }

  /** Changing a mutex that a task does not hold does not change its ladder. */
  lemma SavedElsewhere(cbs: seq<Mux>, stack: map<Task, seq<nat>>, k: nat, u: Task, cbs': seq<Mux>)
    requires Stacks(cbs, stack) && k < |cbs| && |cbs'| == |cbs|
             && forall j | 0 <= j < |cbs| && j != k :: cbs'[j] == cbs[j]
    requires !(Held(cbs[k]) && cbs[k].pstOwner == u) || cbs'[k].usPriority == cbs[k].usPriority
    ensures Saved(cbs', StackOf(stack, u)) == Saved(cbs, StackOf(stack, u))
  {
    var st := StackOf(stack, u);
    assert forall i | 0 <= i < |st| :: st[i] in st;
  }

  /** A new count does not matter. */
  lemma CountStacks(cbs: seq<Mux>, stack: map<Task, seq<nat>>, k: nat, n: nat)
    requires Stacks(cbs, stack) && k < |cbs| && Held(cbs[k]) && n > 0
    ensures Stacks(cbs[k := cbs[k].(usMuxCount := n)], stack)
  {
    var cbs' := cbs[k := cbs[k].(usMuxCount := n)];
    forall t, j ensures j in StackOf(stack, t) <==> Owns(cbs', t, j) {
      assert j in StackOf(stack, t) <==> Owns(cbs, t, j);
    }
  }

  lemma SameLadders(cbs: seq<Mux>, cbs': seq<Mux>, stack: map<Task, seq<nat>>, tcb: map<Task, Tcb>,
                    tcb': map<Task, Tcb>, base: map<Task, nat>)
    requires Ladders(cbs, stack, tcb, base) && tcb'.Keys == tcb.Keys
             && forall t | t in tcb :: tcb'[t].usPriority == tcb[t].usPriority
    requires |cbs'| == |cbs| && forall k | 0 <= k < |cbs| :: cbs'[k].usPriority == cbs[k].usPriority
    ensures Ladders(cbs', stack, tcb', base)
  {
    forall t | t in tcb' ensures LadderAt(cbs', stack, tcb', base, t) {
      assert LadderAt(cbs, stack, tcb, base, t);
      assert Saved(cbs', StackOf(stack, t)) == Saved(cbs, StackOf(stack, t));
    }
  }

  lemma BoostLadders(cbs: seq<Mux>, stack: map<Task, seq<nat>>, tcb: map<Task, Tcb>, base: map<Task, nat>, k: nat,
                     p: nat)
    requires Stacks(cbs, stack) && Ladders(cbs, stack, tcb, base) && k < |cbs| && Held(cbs[k]) && cbs[k].pstOwner in tcb
    requires p <= tcb[cbs[k].pstOwner].usPriority
    ensures var o := cbs[k].pstOwner; Ladders(cbs, stack, tcb[o := tcb[o].(usPriority := p)], base)
  {
    var o := cbs[k].pstOwner;
    var tcb' := tcb[o := tcb[o].(usPriority := p)];
    forall t | t in tcb' ensures LadderAt(cbs, stack, tcb', base, t) {
      assert LadderAt(cbs, stack, tcb, base, t);
      if t == o {
        assert k in StackOf(stack, o);
        LadderBoost(Saved(cbs, StackOf(stack, o)), tcb[o].usPriority, base[o], p);
      }
    }
  }

  /** The owner of `k` gives it up. */
  lemma ReleaseStacks(cbs: seq<Mux>, stack: map<Task, seq<nat>>, k: nat)
    requires Stacks(cbs, stack) && k < |cbs| && Held(cbs[k])
    ensures var o := cbs[k].pstOwner;
            Stacks(cbs[k := cbs[k].(usMuxCount := 0)], stack[o := Without(StackOf(stack, o), k)])
  {
    var o := cbs[k].pstOwner;
    var cbs' := cbs[k := cbs[k].(usMuxCount := 0)];
    var stack' := stack[o := Without(StackOf(stack, o), k)];
    WithoutElements(StackOf(stack, o), k);
    forall u, j ensures j in StackOf(stack', u) <==> Owns(cbs', u, j) {
      assert j in StackOf(stack, u) <==> Owns(cbs, u, j);
    }
    forall u ensures Different(StackOf(stack', u)) {
      assert Different(StackOf(stack, u));
    }
  }

  /** ... and goes back to the priority saved in it. */
  lemma ReleaseLadders(cbs: seq<Mux>, stack: map<Task, seq<nat>>, tcb: map<Task, Tcb>, base: map<Task, nat>, k: nat)
    requires Stacks(cbs, stack) && Ladders(cbs, stack, tcb, base) && k < |cbs| && Held(cbs[k]) && cbs[k].pstOwner in tcb
    requires var st := StackOf(stack, cbs[k].pstOwner);
             st != [] && st[|st| - 1] < |cbs| && cbs[st[|st| - 1]].usPriority == cbs[k].usPriority
    ensures var o := cbs[k].pstOwner;
            Ladders(cbs[k := cbs[k].(usMuxCount := 0)], stack[o := Without(StackOf(stack, o), k)],
              tcb[o := tcb[o].(usPriority := cbs[k].usPriority)], base)
  {
    var o := cbs[k].pstOwner;
    var cbs' := cbs[k := cbs[k].(usMuxCount := 0)];
    var st := StackOf(stack, o);
    var stack', tcb' := stack[o := Without(st, k)], tcb[o := tcb[o].(usPriority := cbs[k].usPriority)];
    assert Owns(cbs, o, k) && k in st;
    assert LadderAt(cbs, stack, tcb, base, o);
    hide Ladder, Stacks, Held, Without, Saved;
    ReleaseOwn(cbs, cbs', st, tcb[o].usPriority, base[o], k);
    forall t | t in tcb' ensures LadderAt(cbs', stack', tcb', base, t) {
      assert LadderAt(cbs, stack, tcb, base, t);
      SavedSame(cbs, cbs', StackOf(stack, t));
    }
  }

  lemma SavedSame(cbs: seq<Mux>, cbs': seq<Mux>, st: seq<nat>)
    requires |cbs'| == |cbs| && forall j | 0 <= j < |cbs| :: cbs'[j].usPriority == cbs[j].usPriority
    ensures Saved(cbs', st) == Saved(cbs, st)
  {
  }

  lemma ReleaseOwn(cbs: seq<Mux>, cbs': seq<Mux>, st: seq<nat>, prio: nat, base: nat, k: nat)
    requires |cbs'| == |cbs| && (forall j | 0 <= j < |cbs| :: cbs'[j].usPriority == cbs[j].usPriority) && k in st
             && k < |cbs|
    requires Ladder(Saved(cbs, st), prio, base) && st[|st| - 1] < |cbs|
             && cbs[st[|st| - 1]].usPriority == cbs[k].usPriority
    ensures Ladder(Saved(cbs', Without(st, k)), cbs[k].usPriority, base)
  {
    hide *;
    SavedWithout(cbs, cbs', st, k);
    SavedLast(cbs, st);
    ReleaseKeepsLadder(Saved(cbs, st), prio, base, IndexOf(st, k));
  }

  lemma SavedLast(cbs: seq<Mux>, st: seq<nat>)
    requires st != [] && st[|st| - 1] < |cbs|
    ensures |Saved(cbs, st)| == |st| && Saved(cbs, st)[|st| - 1] == cbs[st[|st| - 1]].usPriority
  {
  }

  lemma SavedWithout(cbs: seq<Mux>, cbs': seq<Mux>, st: seq<nat>, k: nat)
    requires |cbs'| == |cbs| && (forall j | 0 <= j < |cbs| :: cbs'[j].usPriority == cbs[j].usPriority) && k in st
             && k < |cbs|
    ensures var i := IndexOf(st, k);
            Saved(cbs', Without(st, k)) == Dropped(Saved(cbs, st), i) && Saved(cbs, st)[i] == cbs[k].usPriority
  {
    var i := IndexOf(st, k);
    RemovedElements(st, i);
    hide IndexOf, Removed;
    assert Saved(cbs', Removed(st, i)) == Dropped(Saved(cbs, st), i);
  }

  /** Setting the priority of a task that holds nothing, or creating one, starts its ladder anew. */
  lemma SetLadders(cbs: seq<Mux>, stack: map<Task, seq<nat>>, tcb: map<Task, Tcb>, tcb': map<Task, Tcb>,
                   base: map<Task, nat>, t: Task, p: nat)
    requires Ladders(cbs, stack, tcb, base) && StackOf(stack, t) == [] && tcb'.Keys == tcb.Keys + {t}
             && tcb'[t].usPriority == p
    requires forall u | u in tcb && u != t :: tcb'[u] == tcb[u]
    ensures Ladders(cbs, stack, tcb', base[t := p])
  {
    forall u | u in tcb' ensures LadderAt(cbs, stack, tcb', base[t := p], u) {
      if u != t { assert LadderAt(cbs, stack, tcb, base, u); }
    }
  }

  /** A task that does not exist yet holds nothing. */
  lemma NewcomerHoldsNothing(cbs: seq<Mux>, depth: seq<map<Task, int>>, stack: map<Task, seq<nat>>, c: Core, t: Task)
    requires MuxesOk(cbs, depth, c) && Stacks(cbs, stack)
    ensures t !in c.tcb ==> StackOf(stack, t) == []
  {
    if StackOf(stack, t) != [] {
      var k := StackOf(stack, t)[0];
      assert k in StackOf(stack, t);
      assert Owns(cbs, t, k);
      assert OneOk(cbs, depth, c, k);
    }
  }

  /** ... so any first priority is mild. */
  lemma NewcomerIsMild(cbs: seq<Mux>, depth: seq<map<Task, int>>, c: Core, t: Task, p: nat)
    requires MuxesOk(cbs, depth, c)
    ensures t !in c.tcb ==> MildSet(cbs, t, p)
  {
    forall k | 0 <= k < |cbs| && Owns(cbs, t, k) ensures t in c.tcb {
      assert OneOk(cbs, depth, c, k);
    }
  }

  /** What a ladder says about its task. */
  lemma LadderHere(cbs: seq<Mux>, stack: map<Task, seq<nat>>, tcb: map<Task, Tcb>, base: map<Task, nat>, t: Task)
    requires Stacks(cbs, stack) && Ladders(cbs, stack, tcb, base) && t in tcb
    ensures t in base && tcb[t].usPriority <= base[t]
    ensures (forall k :: !Owns(cbs, t, k)) ==> tcb[t].usPriority == base[t]
  {
    assert LadderAt(cbs, stack, tcb, base, t);
    NeverLessUrgent(Saved(cbs, StackOf(stack, t)), tcb[t].usPriority, base[t]);
    if StackOf(stack, t) != [] {
      assert StackOf(stack, t)[0] in StackOf(stack, t);
      assert Owns(cbs, t, StackOf(stack, t)[0]);
    }
  }

  // ---------------------------------------------------------------- never less urgent, in any order of release

  /** No task is less urgent than its own priority, and none will be after a release: no saved priority is less urgent
      than its owner's own. */
  ghost predicate Bounded(cbs: seq<Mux>, tcb: map<Task, Tcb>, base: map<Task, nat>)
  {
    && (forall t | t in tcb :: t in base && tcb[t].usPriority <= base[t])
    && (forall k | 0 <= k < |cbs| && Held(cbs[k]) ::
         cbs[k].pstOwner in base && cbs[k].usPriority <= base[cbs[k].pstOwner])
  }

  /** Setting the priority of `t` to `p` leaves no mutex of `t` with a less urgent saved priority. */
  predicate MildSet(cbs: seq<Mux>, t: Task, p: nat)
  {
    forall k | 0 <= k < |cbs| && Owns(cbs, t, k) :: cbs[k].usPriority <= p
  }

  /** The bound survives an explicit priority if and only if no saved priority is less urgent than it. */
  lemma SetKeepsBound(cbs: seq<Mux>, tcb: map<Task, Tcb>, tcb': map<Task, Tcb>, base: map<Task, nat>, t: Task, p: nat)
    requires Bounded(cbs, tcb, base) && tcb'.Keys == tcb.Keys + {t} && tcb'[t].usPriority == p
    requires forall u | u in tcb && u != t :: tcb'[u].usPriority == tcb[u].usPriority
    ensures Bounded(cbs, tcb', base[t := p]) <==> MildSet(cbs, t, p)
  {
    if Bounded(cbs, tcb', base[t := p]) {
      forall k | 0 <= k < |cbs| && Owns(cbs, t, k) ensures cbs[k].usPriority <= p {
        assert Held(cbs[k]);
      }
    }
    if MildSet(cbs, t, p) {
      forall k | 0 <= k < |cbs| && Held(cbs[k]) ensures cbs[k].pstOwner in base[t := p]
        && cbs[k].usPriority <= base[t := p][cbs[k].pstOwner] {
        if cbs[k].pstOwner == t { assert Owns(cbs, t, k); }
      }
    }
  }

  /** It happens: task 1, whose own priority is 10, holds a mutex that has saved 10 when it is given priority 5.  On
      giving up the mutex it is back at 10, less urgent than the 5 that is now its own. */
  lemma SetAboveSaved()
    ensures var m, x := Mux(true, 1, 1, 10), Tcb(true, false, false, false, false, false, 10, NoWait);
            && Bounded([m], map[1 := x], map[1 := 10])
            && !Bounded([m], map[1 := x.(usPriority := 5)], map[1 := 5])
            && !Bounded([m.(usMuxCount := 0)], map[1 := x.(usPriority := m.usPriority)], map[1 := 5])
  {
    var m, x := Mux(true, 1, 1, 10), Tcb(true, false, false, false, false, false, 10, NoWait);
    var tcb, tcb', base := map[1 := x], map[1 := x.(usPriority := 5)], map[1 := 10];
    SetKeepsBound([m], tcb, tcb', base, 1, 5);
    assert Owns([m], 1, 0);
    assert base[1 := 5] == map[1 := 5];
  }

  lemma SameBound(cbs: seq<Mux>, cbs': seq<Mux>, tcb: map<Task, Tcb>, tcb': map<Task, Tcb>, base: map<Task, nat>)
    requires Bounded(cbs, tcb, base) && tcb'.Keys == tcb.Keys
             && forall t | t in tcb :: tcb'[t].usPriority <= tcb[t].usPriority
    requires |cbs'| == |cbs|
    requires forall k | 0 <= k < |cbs| && Held(cbs'[k]) ::
               Held(cbs[k]) && cbs'[k].pstOwner == cbs[k].pstOwner && cbs'[k].usPriority == cbs[k].usPriority
    ensures Bounded(cbs', tcb', base)
  {
  }

  /** A task may take a mutex: it saves its present priority. */
  lemma AcquireBound(cbs: seq<Mux>, tcb: map<Task, Tcb>, base: map<Task, nat>, k: nat, t: Task)
    requires Bounded(cbs, tcb, base) && k < |cbs| && t in tcb
    ensures Bounded(cbs[k := Mux(true, 1, t, tcb[t].usPriority)], tcb, base)
  {
  }

  /** Any held mutex may be given up, in whatever order. */
  lemma ReleaseBound(cbs: seq<Mux>, tcb: map<Task, Tcb>, base: map<Task, nat>, k: nat)
    requires Bounded(cbs, tcb, base) && k < |cbs| && Held(cbs[k]) && cbs[k].pstOwner in tcb
    ensures var o := cbs[k].pstOwner;
            Bounded(cbs[k := cbs[k].(usMuxCount := 0)], tcb[o := tcb[o].(usPriority := cbs[k].usPriority)], base)
  {
  }

  // ---------------------------------------------------------------- both at once

  /** As long as every release and every explicit priority was in order (`orderly`), the ladders stand; as long as every
      explicit priority was mild, the bound does. */
  ghost predicate Discipline(cbs: seq<Mux>, stack: map<Task, seq<nat>>, tcb: map<Task, Tcb>, base: map<Task, nat>,
                             orderly: bool, mild: bool)
  {
    (orderly ==> Ladders(cbs, stack, tcb, base)) && (mild ==> Bounded(cbs, tcb, base))
  }

  lemma SameDiscipline(cbs: seq<Mux>, stack: map<Task, seq<nat>>, tcb: map<Task, Tcb>, tcb': map<Task, Tcb>,
                       base: map<Task, nat>, orderly: bool, mild: bool)
    requires Discipline(cbs, stack, tcb, base, orderly, mild)
    requires tcb'.Keys == tcb.Keys && forall t | t in tcb :: tcb'[t].usPriority == tcb[t].usPriority
    ensures Discipline(cbs, stack, tcb', base, orderly, mild)
  {
    hide Ladders, Bounded;
    if orderly { SameLadders(cbs, cbs, stack, tcb, tcb', base); }
    if mild { SameBound(cbs, cbs, tcb, tcb', base); }
  }

  /** A new count, or another use, changes nothing. */
  lemma CountDiscipline(cbs: seq<Mux>, cbs': seq<Mux>, stack: map<Task, seq<nat>>, tcb: map<Task, Tcb>,
                        base: map<Task, nat>, orderly: bool, mild: bool)
    requires Discipline(cbs, stack, tcb, base, orderly, mild) && |cbs'| == |cbs|
    requires forall k | 0 <= k < |cbs| ::
               cbs'[k].usPriority == cbs[k].usPriority && cbs'[k].pstOwner == cbs[k].pstOwner
               && (Held(cbs'[k]) ==> Held(cbs[k]))
    ensures Discipline(cbs', stack, tcb, base, orderly, mild)
  {
    hide Ladders, Bounded;
    if orderly { SameLadders(cbs, cbs', stack, tcb, tcb, base); }
    if mild { SameBound(cbs, cbs', tcb, tcb, base); }
  }

  lemma AcquireDiscipline(cbs: seq<Mux>, stack: map<Task, seq<nat>>, tcb: map<Task, Tcb>, base: map<Task, nat>, k: nat,
                          t: Task, orderly: bool, mild: bool)
    requires Stacks(cbs, stack) && Discipline(cbs, stack, tcb, base, orderly, mild) && k < |cbs| && cbs[k].used
             && !Held(cbs[k]) && t in tcb
    ensures Discipline(cbs[k := Mux(true, 1, t, tcb[t].usPriority)], stack[t := StackOf(stack, t) + [k]], tcb, base,
            orderly, mild)
  {
    hide Ladders, Bounded, Stacks;
    if orderly { AcquireLadders(cbs, stack, tcb, base, k, t); }
    if mild { AcquireBound(cbs, tcb, base, k, t); }
  }

  lemma BoostDiscipline(cbs: seq<Mux>, stack: map<Task, seq<nat>>, tcb: map<Task, Tcb>, base: map<Task, nat>, k: nat,
                        p: nat, orderly: bool, mild: bool)
    requires Stacks(cbs, stack) && Discipline(cbs, stack, tcb, base, orderly, mild) && k < |cbs| && Held(cbs[k])
             && cbs[k].pstOwner in tcb
    requires p <= tcb[cbs[k].pstOwner].usPriority
    ensures var o := cbs[k].pstOwner; Discipline(cbs, stack, tcb[o := tcb[o].(usPriority := p)], base, orderly, mild)
  {
    var o := cbs[k].pstOwner;
    hide Ladders, Bounded, Stacks;
    if orderly { BoostLadders(cbs, stack, tcb, base, k, p); }
    if mild { SameBound(cbs, cbs, tcb, tcb[o := tcb[o].(usPriority := p)], base); }
  }

  /** Setting a priority, or creating a task: the ladders stand if the task holds nothing, the bound if the priority is
      mild. */
  lemma SetDiscipline(cbs: seq<Mux>, stack: map<Task, seq<nat>>, tcb: map<Task, Tcb>, tcb': map<Task, Tcb>,
                      base: map<Task, nat>, t: Task, p: nat,
                      orderly: bool, mild: bool)
    requires Discipline(cbs, stack, tcb, base, orderly, mild) && tcb'.Keys == tcb.Keys + {t} && tcb'[t].usPriority == p
    requires forall u | u in tcb && u != t :: tcb'[u] == tcb[u]
    ensures Discipline(cbs, stack, tcb', base[t := p], orderly && StackOf(stack, t) == [], mild && MildSet(cbs, t, p))
  {
    hide Ladders, Bounded, MildSet;
    if orderly && StackOf(stack, t) == [] { SetLadders(cbs, stack, tcb, tcb', base, t, p); }
    if mild { SetKeepsBound(cbs, tcb, tcb', base, t, p); }
  }

  /** The list of unused blocks is empty. */
  predicate AllBusy(cbs: seq<Mux>)
  {
    forall k | 0 <= k < |cbs| :: cbs[k].used
  }

  class Mutexes {
    const tasks: TaskSystem
    var cbs: seq<Mux>                        // g_pstAllMux
    ghost var depth: seq<map<Task, int>>     // the ledger: granted pends of each task, less its posts
    ghost var stack: map<Task, seq<nat>>     // what each task holds, in the order in which it got it
    ghost var orderly: bool                  // every release kept the ladder, no priority set over a held mutex
    ghost var mild: bool                     // no priority set that is more urgent than one its task has saved

    ghost predicate Valid()
      reads this, tasks, tasks.wheel
    {
      && tasks.Valid() && |depth| == |cbs| && MuxesOk(cbs, depth, tasks.State()) && Stacks(cbs, stack)
      && Discipline(cbs, stack, tasks.tcb, tasks.base, orderly, mild)
    }

    constructor (tasks: TaskSystem, limit: nat)
      requires tasks.Valid() && tasks.State().lists == map[] && tasks.State().flight == map[] && tasks.tcb == map[]
      ensures Valid() && this.tasks == tasks && |cbs| == limit && orderly && mild && stack == map[]
      ensures forall k | 0 <= k < limit :: !cbs[k].used && depth[k] == map[]
    {
      this.tasks := tasks;
      cbs := seq(limit, (k: nat) => Mux(false, 0, 0, 0));
      depth := seq(limit, (k: nat) => map[]);
      stack, orderly, mild := map[], true, true;
    }

    /** As long as every explicit priority was mild, no task is ever less urgent than its own priority, in whatever
        order mutexes are released. */
    lemma NeverBelowOwn(t: Task)
      requires Valid() && mild && t in tasks.tcb
      ensures t in tasks.base && tasks.tcb[t].usPriority <= tasks.base[t]
    {
      hide MuxesOk, Stacks, Ladders, WF;
    }

    /** In every state that has been reached by orderly releases, a task that holds no mutex is exactly at its own
        priority. */
    lemma PriorityDiscipline(t: Task)
      requires Valid() && orderly && t in tasks.tcb
      ensures t in tasks.base && tasks.tcb[t].usPriority <= tasks.base[t]
      ensures (forall k :: !Owns(cbs, t, k)) ==> tasks.tcb[t].usPriority == tasks.base[t]
    {
      LadderHere(cbs, stack, tasks.tcb, tasks.base, t);
    }

    /** Somebody sets the priority of `t` to `p` from outside. */
    ghost method NotePriority(t: Task, p: nat)
      modifies this`orderly, this`mild
      ensures orderly == (old(orderly) && StackOf(stack, t) == []) && mild == (old(mild) && MildSet(cbs, t, p))
    {
      orderly := orderly && StackOf(stack, t) == [];
      mild := mild && MildSet(cbs, t, p);
    }

    /** `LOS_MuxCreate`; `k` is the head of the list of unused blocks, if there is one. */
    method MuxCreate(hasHandle: bool, k: nat) returns (uwRet: nat)
      requires Valid() && (AllBusy(cbs) || (k < |cbs| && !cbs[k].used))
      modifies this
      ensures Valid() && depth == old(depth) && stack == old(stack) && orderly == old(orderly) && mild == old(mild)
      ensures uwRet == if !hasHandle then ERRNO_MUX_PTR_NULL
              else if AllBusy(old(cbs)) then ERRNO_MUX_ALL_BUSY else OS_OK
      ensures uwRet == OS_OK ==> k < |old(cbs)| && cbs == old(cbs)[k := Mux(true, 0, 0, 0)]
      ensures uwRet != OS_OK ==> cbs == old(cbs)
    {
      if !hasHandle {
        return ERRNO_MUX_PTR_NULL;
      }
      if AllBusy(cbs) {
        return ERRNO_MUX_ALL_BUSY;
      }
      ghost var c := tasks.State();
      assert OneOk(cbs, depth, c, k);
      FreshMux(cbs, stack, tasks.tcb, tasks.base, k);
      if mild { SameBound(cbs, cbs[k := Mux(true, 0, 0, 0)], tasks.tcb, tasks.tcb, tasks.base); }
      cbs := cbs[k := Mux(true, 0, 0, 0)];
      forall j | 0 <= j < |cbs| ensures OneOk(cbs, depth, c, j) {
        assert OneOk(old(cbs), old(depth), c, j);
      }
      uwRet := OS_OK;
    }

    lemma FreshMux(cbs: seq<Mux>, stack: map<Task, seq<nat>>, tcb: map<Task, Tcb>, base: map<Task, nat>, k: nat)
      requires Stacks(cbs, stack) && k < |cbs| && !cbs[k].used
      ensures Stacks(cbs[k := Mux(true, 0, 0, 0)], stack)
      ensures Ladders(cbs, stack, tcb, base) ==> Ladders(cbs[k := Mux(true, 0, 0, 0)], stack, tcb, base)
    {
      var cbs' := cbs[k := Mux(true, 0, 0, 0)];
      forall t, j ensures j in StackOf(stack, t) <==> Owns(cbs', t, j) {
        assert j in StackOf(stack, t) <==> Owns(cbs, t, j);
      }
      if Ladders(cbs, stack, tcb, base) {
        forall t | t in tcb ensures LadderAt(cbs', stack, tcb, base, t) {
          assert LadderAt(cbs, stack, tcb, base, t);
          SavedElsewhere(cbs, stack, k, t, cbs');
        }
      }
    }

    /** `LOS_MuxDelete`. */
    method MuxDelete(k: nat) returns (uwRet: nat)
      requires Valid()
      modifies this
      ensures Valid() && depth == old(depth) && stack == old(stack) && orderly == old(orderly) && mild == old(mild)
      ensures uwRet == if k >= |old(cbs)| || !old(cbs)[k].used then ERRNO_MUX_INVALID
                       else if At(tasks.lists, MuxL(k)) != [] || old(cbs)[k].usMuxCount != 0 then ERRNO_MUX_PENDED
                         else OS_OK
      ensures uwRet == OS_OK ==>
                cbs == old(cbs)[k := old(cbs)[k].(used := false)] && Flying(tasks.flight, MuxL(k)) == {}
      ensures uwRet != OS_OK ==> cbs == old(cbs)
    {
      if k >= |cbs| || !cbs[k].used {
        return ERRNO_MUX_INVALID;
      }
      ghost var c := tasks.State();
      assert OneOk(cbs, depth, c, k);
      if At(tasks.lists, MuxL(k)) != [] || cbs[k].usMuxCount != 0 {
        return ERRNO_MUX_PENDED;
      }
      cbs := cbs[k := cbs[k].(used := false)];
      forall j | 0 <= j < |cbs| ensures OneOk(cbs, depth, c, j) {
        assert OneOk(old(cbs), old(depth), c, j);
      }
      forall t, j ensures j in StackOf(stack, t) <==> Owns(cbs, t, j) {
        assert j in StackOf(stack, t) <==> Owns(old(cbs), t, j);
      }
      CountDiscipline(old(cbs), cbs, stack, tasks.tcb, tasks.base, orderly, mild);
      uwRet := OS_OK;
    }

    /** The free mutex `k` becomes the task's. */
    method Take(k: nat, t: Task)
      requires tasks.Valid() && Stacks(cbs, stack) && Discipline(cbs, stack, tasks.tcb, tasks.base, orderly, mild)
      requires k < |cbs| == |depth| && cbs[k].used && !Held(cbs[k]) && t in tasks.tcb
      modifies this`cbs, this`depth, this`stack
      ensures Stacks(cbs, stack) && Discipline(cbs, stack, tasks.tcb, tasks.base, orderly, mild)
      ensures cbs == old(cbs)[k := Mux(true, 1, t, tasks.tcb[t].usPriority)]
      ensures stack == old(stack)[t := StackOf(old(stack), t) + [k]]
              && depth == old(depth)[k := Counted(old(depth)[k], t, 1)]
    {
      hide Discipline, Stacks;
      AcquireStacks(cbs, stack, k, t, tasks.tcb[t].usPriority);
      AcquireDiscipline(cbs, stack, tasks.tcb, tasks.base, k, t, orderly, mild);
      cbs := cbs[k := cbs[k].(usMuxCount := 1, pstOwner := t, usPriority := tasks.tcb[t].usPriority)];
      stack := stack[t := StackOf(stack, t) + [k]];
      depth := depth[k := Counted(depth[k], t, 1)];
    }

    /** A nested pend by the owner is not its 65536th. */
    predicate CountFits(k: nat, isr: bool)
      reads this, tasks
    {
      !isr && k < |cbs| && Held(cbs[k]) && cbs[k].pstOwner == tasks.pstRunTask ==> cbs[k].usMuxCount < COUNT_LIMIT - 1
    }

    /** `LOS_MuxPend` up to `LOS_Schedule`: None when the caller is now waiting.  Only the 65536th pend of one owner
        puts the mutex out of order. */
    method MuxPend(k: nat, uwTimeout: nat, isr: bool) returns (uwRet: Option<nat>)
      requires Valid() && (!isr ==> tasks.Running()) && uwTimeout <= WAIT_FOREVER
      modifies this, tasks`tcb, tasks`lists, tasks`out, tasks`stamp, tasks`clock, tasks.wheel
      ensures Valid() <==> old(CountFits(k, isr))
      ensures orderly == old(orderly) && mild == old(mild)
      ensures uwRet == if k >= |old(cbs)| || !old(cbs)[k].used then Some(ERRNO_MUX_INVALID)
                       else if isr then Some(ERRNO_MUX_PEND_INTERR)
                       else if old(cbs)[k].usMuxCount == 0 || old(cbs)[k].pstOwner == tasks.pstRunTask then Some(OS_OK)
                       else if uwTimeout == 0 then Some(ERRNO_MUX_UNAVAILABLE)
                       else if tasks.usLosTaskLock != 0 then Some(ERRNO_MUX_PEND_IN_LOCK) else None
      ensures uwRet == Some(OS_OK) ==>
                var t := tasks.pstRunTask;
                && t in tasks.tcb && |old(depth)| == |old(cbs)|
                   && depth == old(depth)[k := Counted(old(depth)[k], t, 1)]
                && cbs == (if old(cbs)[k].usMuxCount == 0
                           then old(cbs)[k := Mux(true, 1, t, tasks.tcb[t].usPriority)]
                           else old(cbs)[k := old(cbs)[k].(usMuxCount := (old(cbs)[k].usMuxCount + 1) % COUNT_LIMIT)])
                && stack == (if old(cbs)[k].usMuxCount == 0 then old(stack)[t := StackOf(old(stack), t) + [k]]
                   else old(stack))
      ensures uwRet != Some(OS_OK) ==> cbs == old(cbs) && depth == old(depth) && stack == old(stack)
      ensures uwRet.Some? ==> tasks.State() == old(tasks.State())
      ensures uwRet.None? ==>
                var o, t := cbs[k].pstOwner, tasks.pstRunTask;
                && Kept(old(tasks.State()), tasks.State(), {MuxL(k)})
                && o in tasks.tcb && t in tasks.tcb && o != t && t in old(tasks.tcb) && o in old(tasks.tcb)
                && At(tasks.lists, MuxL(k)) == At(old(tasks.lists), MuxL(k)) + [t]
                && OnePriority(old(tasks.State()), tasks.State(), o, Lifted(old(tasks.tcb), o, t))
                && Inherits(old(tasks.State()), tasks.State(), o, t)
                && Began(old(tasks.State()), tasks.State(), t, Waiting(MuxL(k), Plain), Timeout(uwTimeout),
                   MovedUp(old(tasks.State()), o, t))
    {
      hide WF, Kept, Stacks, Discipline, MuxOk, Began, OnePriority, Counted, Inherits, MovedUp;
      ghost var c, t := tasks.State(), tasks.pstRunTask;
      if k >= |cbs| || !cbs[k].used {
        return Some(ERRNO_MUX_INVALID);
      }
      if isr {
        return Some(ERRNO_MUX_PEND_INTERR);
      }
      tasks.RunFacts();
      if cbs[k].usMuxCount == 0 {
        PrioritySmall(tasks.tcb[t]);
        TakenOk(cbs, depth, c, k, t, tasks.tcb[t].usPriority);
        Take(k, tasks.pstRunTask);
        KeptRefl(c, {MuxL(k)});
        OthersKept(old(cbs), old(depth), cbs, depth, c, c, k);
        return Some(OS_OK);
      }
      if cbs[k].pstOwner == tasks.pstRunTask {
        NestPend(k);
        return Some(OS_OK);
      }
      if uwTimeout == 0 {
        return Some(ERRNO_MUX_UNAVAILABLE);
      }
      if tasks.usLosTaskLock != 0 {
        return Some(ERRNO_MUX_PEND_IN_LOCK);
      }
      OwnerThere(cbs, depth, c, k);
      WaitFor(k, uwTimeout);
      return None;
    }

    /** The owner pends again. */
    method NestPend(k: nat)
      requires Valid() && tasks.Running() && k < |cbs| && Held(cbs[k]) && cbs[k].pstOwner == tasks.pstRunTask
      modifies this`cbs, this`depth
      ensures Valid() <==> old(CountFits(k, false))
      ensures cbs == old(cbs)[k := old(cbs)[k].(usMuxCount := (old(cbs)[k].usMuxCount + 1) % COUNT_LIMIT)]
      ensures |old(depth)| == |old(cbs)| && depth == old(depth)[k := Counted(old(depth)[k], tasks.pstRunTask, 1)]
    {
      hide WF, Kept, Stacks, Discipline, MuxOk, Counted;
      ghost var c := tasks.State();
      OneThere(cbs, depth, c, k);
      NestedPendFits(cbs[k], depth[k], At(c.lists, MuxL(k)), Flying(c.flight, MuxL(k)), c.tcb.Keys);
      cbs := cbs[k := cbs[k].(usMuxCount := (cbs[k].usMuxCount + 1) % COUNT_LIMIT)];
      depth := depth[k := Counted(depth[k], tasks.pstRunTask, 1)];
      if old(CountFits(k, false)) {
        CountStacks(old(cbs), stack, k, old(cbs)[k].usMuxCount + 1);
        KeptRefl(c, {MuxL(k)});
        OthersKept(old(cbs), old(depth), cbs, depth, c, c, k);
        CountDiscipline(old(cbs), cbs, stack, tasks.tcb, tasks.base, orderly, mild);
      } else {
        assert !OneOk(cbs, depth, c, k);
      }
    }

    /** The blocking part of `LOS_MuxPend`: lift the owner if need be, and wait. */
    method WaitFor(k: nat, uwTimeout: nat)
      requires Valid() && tasks.Running() && 0 < uwTimeout <= WAIT_FOREVER && k < |cbs| && Held(cbs[k])
      requires cbs[k].pstOwner != tasks.pstRunTask && cbs[k].pstOwner in tasks.tcb
      modifies tasks`tcb, tasks`lists, tasks`out, tasks`stamp, tasks`clock, tasks.wheel
      ensures Valid()
      ensures var o, t := cbs[k].pstOwner, tasks.pstRunTask;
              && Kept(old(tasks.State()), tasks.State(), {MuxL(k)})
              && o in tasks.tcb && t in tasks.tcb && t in old(tasks.tcb)
              && At(tasks.lists, MuxL(k)) == At(old(tasks.lists), MuxL(k)) + [t]
              && OnePriority(old(tasks.State()), tasks.State(), o, Lifted(old(tasks.tcb), o, t))
              && Inherits(old(tasks.State()), tasks.State(), o, t)
              && Began(old(tasks.State()), tasks.State(), t, Waiting(MuxL(k), Plain), Timeout(uwTimeout),
                 MovedUp(old(tasks.State()), o, t))
    {
      hide WF, Kept, Stacks, Discipline, MuxesOk, Held, TcbOk, PendStep, At, Where, Calm, Began, OnePriority, Lifted,
        Inherits, MovedUp;
      ghost var c, t := tasks.State(), tasks.pstRunTask;
      tasks.RunFacts();
      LiftOwner(k);
      ghost var c1 := tasks.State();
      tasks.RunFacts();
      tasks.PendTail(MuxL(k), Plain, uwTimeout);
      ghost var c2 := tasks.State();
      WaitParts(c1, c2, t, MuxL(k), Timeout(uwTimeout));
      PendBegan(c1, c2, t, MuxL(k), Plain, |At(c1.lists, MuxL(k))|, Timeout(uwTimeout));
      MoversAsReady(c, c1, c2, cbs[k].pstOwner, t);
      CalmThenBegan(c, c1, c2, t, Waiting(MuxL(k), Plain), Timeout(uwTimeout), MovedUp(c, cbs[k].pstOwner, t));
      StillOnePriority(c, c1, c2, cbs[k].pstOwner, Lifted(c.tcb, cbs[k].pstOwner, t));
      StillInherits(c, c1, c2, cbs[k].pstOwner, t);
      KeptMore(c, c1, {}, {MuxL(k)});
      KeptTrans(c, c1, c2, {MuxL(k)});
      WaiterOk(cbs, depth, c1, c2, k, t);
      OthersKept(cbs, depth, cbs, depth, c1, c2, k);
      SameDiscipline(cbs, stack, c1.tcb, c2.tcb, tasks.base, orderly, mild);
    }

    /** `osTaskPriModify` of the owner when it is less urgent than the caller. */
    method LiftOwner(k: nat)
      requires Valid() && tasks.Running() && k < |cbs| && Held(cbs[k])
      requires cbs[k].pstOwner != tasks.pstRunTask && cbs[k].pstOwner in tasks.tcb
      modifies tasks`tcb, tasks`lists
      ensures Valid() && tasks.Running() && Kept(old(tasks.State()), tasks.State(), {})
      ensures var o, t := cbs[k].pstOwner, tasks.pstRunTask;
              && o in tasks.tcb && tasks.tcb[t] == old(tasks.tcb)[t]
                 && At(tasks.lists, MuxL(k)) == At(old(tasks.lists), MuxL(k))
              && OnePriority(old(tasks.State()), tasks.State(), o, Lifted(old(tasks.tcb), o, t))
              && Inherits(old(tasks.State()), tasks.State(), o, t)
              && Calm(old(tasks.State()), tasks.State(), [], MovedUp(old(tasks.State()), o, t))
    {
      hide WF, Kept, Stacks, Discipline, MuxesOk, Held, TcbOk, At, Where, Calm, Settled;
      ghost var c, t, o := tasks.State(), tasks.pstRunTask, cbs[k].pstOwner;
      tasks.RunFacts();
      KeptRefl(c, {});
      CalmRefl(c);
      if tasks.tcb[cbs[k].pstOwner].usPriority > tasks.tcb[tasks.pstRunTask].usPriority {
        BoostDiscipline(cbs, stack, tasks.tcb, tasks.base, k, tasks.tcb[t].usPriority, orderly, mild);
        PrioritySmall(tasks.tcb[t]);
        tasks.PriModify(cbs[k].pstOwner, tasks.tcb[tasks.pstRunTask].usPriority);
        assert SameWait(c, tasks.State(), MuxL(k));
      }
      MuxesKept(cbs, depth, c, tasks.State(), {});
    }

    lemma WaitParts(c: Core, c': Core, t: Task, id: ListId, timeout: Option<nat>)
      requires PendStep(c, c', t, id, Plain, |At(c.lists, id)|, timeout)
      ensures Kept(c, c', {id}) && Flying(c'.flight, id) == Flying(c.flight, id) && SamePriorities(c, c')
              && OnlyTask(c, c', t)
      ensures t in c'.tcb && c'.tcb[t].wait == Waiting(id, Plain) && At(c'.lists, id) == At(c.lists, id) + [t]
              && c.tcb.Keys <= c'.tcb.Keys
    {
      AtTail(c, c', t, id, Plain, timeout);
    }

    /** The end of `LOS_MuxPend` after `LOS_Schedule`: whoever was not timed out owns the mutex already. */
    method MuxPendResume() returns (uwRet: nat)
      requires Valid() && tasks.pstRunTask in tasks.tcb && tasks.tcb[tasks.pstRunTask].ready
      requires tasks.tcb[tasks.pstRunTask].wait.Waiting? && tasks.tcb[tasks.pstRunTask].wait.id.MuxL?
      modifies tasks`tcb, tasks`flight
      ensures Valid() && FinishStep(old(tasks.State()), tasks.State(), tasks.pstRunTask, uwRet != OS_OK)
      ensures tasks.pstRunTask in tasks.out && old(tasks.out) == tasks.out
      ensures uwRet == if old(tasks.tcb)[tasks.pstRunTask].timeout then ERRNO_MUX_TIMEOUT else OS_OK
      ensures uwRet == OS_OK <==> tasks.out[tasks.pstRunTask] == [Given]
      ensures uwRet == ERRNO_MUX_TIMEOUT <==> tasks.out[tasks.pstRunTask] == [TimedOut]
      ensures var k := old(tasks.tcb)[tasks.pstRunTask].wait.id.m;
              k < |cbs| && uwRet == OS_OK ==> Held(cbs[k]) && cbs[k].pstOwner == tasks.pstRunTask
    {
      hide WF, Kept, Stacks, Discipline, MuxesOk, Held, FinishStep;
      ghost var c, t := tasks.State(), tasks.pstRunTask;
      ghost var k := tasks.tcb[t].wait.id.m;
      assert TcbOk(c.tcb[t]) by { tasks.TcbFacts(t); }
      var timedOut := tasks.Finish();
      ghost var c' := tasks.State();
      ResumedOk(cbs, depth, c, c', t, timedOut);
      SameDiscipline(cbs, stack, c.tcb, c'.tcb, tasks.base, orderly, mild);
      uwRet := if timedOut then ERRNO_MUX_TIMEOUT else OS_OK;
    }

    /** `LOS_MuxPost`: the last post puts the owner back to the priority saved in the mutex and hands the mutex to the
        task that has waited longest. */
    method MuxPost(k: nat, isr: bool) returns (uwRet: nat, ghost woken: Option<Task>)
      requires Valid() && (!isr ==> tasks.Running())
      modifies this, tasks`tcb, tasks`lists, tasks`flight, tasks`out, tasks.wheel
      ensures Valid() && mild == old(mild)
      ensures uwRet == if k >= |old(cbs)| || !old(cbs)[k].used then ERRNO_MUX_INVALID
                       else if isr then ERRNO_MUX_PEND_INTERR
                       else if !Owns(old(cbs), tasks.pstRunTask, k) then ERRNO_MUX_INVALID else OS_OK
      ensures uwRet != OS_OK ==>
                && cbs == old(cbs) && depth == old(depth) && stack == old(stack) && orderly == old(orderly)
                && tasks.State() == old(tasks.State()) && woken.None?
      ensures uwRet == OS_OK && old(cbs)[k].usMuxCount > 1 ==>
                && cbs == old(cbs)[k := old(cbs)[k].(usMuxCount := old(cbs)[k].usMuxCount - 1)]
                && |old(depth)| == |old(cbs)| && depth == old(depth)[k := Counted(old(depth)[k], tasks.pstRunTask, -1)]
                && stack == old(stack) && tasks.State() == old(tasks.State()) && orderly == old(orderly) && woken.None?
      ensures uwRet == OS_OK && old(cbs)[k].usMuxCount == 1 ==>
                && (woken.None? <==> At(old(tasks.lists), MuxL(k)) == [])
                && tasks.pstRunTask in tasks.tcb
                && Kept(old(tasks.State()), tasks.State(), {MuxL(k)})
                && (orderly <==> old(orderly) && ReleasedInOrder(old(cbs), old(stack), tasks.pstRunTask, k))
                && Passed(old(cbs), old(depth), old(stack), cbs, depth, stack, old(tasks.State()), tasks.State(),
                   tasks.pstRunTask, k, woken)
      ensures woken.Some? ==>
                && At(old(tasks.lists), MuxL(k)) != [] && woken.value == At(old(tasks.lists), MuxL(k))[0]
                && forall u | u in At(old(tasks.lists), MuxL(k)) ::
                     StampOf(old(tasks.stamp), woken.value) <= StampOf(old(tasks.stamp), u)
    {
      hide WF, Kept, Stacks, Discipline, MuxesOk, Passed, Counted;
      woken := None;
      ghost var c, t := tasks.State(), tasks.pstRunTask;
      if k >= |cbs| || !cbs[k].used {
        return ERRNO_MUX_INVALID, None;
      }
      if isr {
        return ERRNO_MUX_PEND_INTERR, None;
      }
      if cbs[k].usMuxCount == 0 || cbs[k].pstOwner != tasks.pstRunTask {
        return ERRNO_MUX_INVALID, None;
      }
      if cbs[k].usMuxCount != 1 {
        CountStacks(cbs, stack, k, cbs[k].usMuxCount - 1);
        UnnestedOk(cbs, depth, c, k);
        cbs := cbs[k := cbs[k].(usMuxCount := cbs[k].usMuxCount - 1)];
        depth := depth[k := Counted(depth[k], t, -1)];
        KeptRefl(c, {MuxL(k)});
        OthersKept(old(cbs), old(depth), cbs, depth, c, c, k);
        CountDiscipline(old(cbs), cbs, stack, tasks.tcb, tasks.base, orderly, mild);
        return OS_OK, None;
      }
      if At(tasks.lists, MuxL(k)) != [] { HeadCameFirst(c, MuxL(k)); }
      woken := HandOver(k);
      uwRet := OS_OK;
    }

    /** The last post of the owner. */
    method HandOver(k: nat) returns (ghost woken: Option<Task>)
      requires Valid() && tasks.Running() && k < |cbs| && Held(cbs[k]) && cbs[k].usMuxCount == 1
               && cbs[k].pstOwner == tasks.pstRunTask
      modifies this, tasks`tcb, tasks`lists, tasks`flight, tasks`out, tasks.wheel
      ensures Valid() && mild == old(mild)
      ensures woken.None? <==> At(old(tasks.lists), MuxL(k)) == []
      ensures woken.Some? ==> At(old(tasks.lists), MuxL(k)) != [] && woken.value == At(old(tasks.lists), MuxL(k))[0]
      ensures tasks.pstRunTask in tasks.tcb && Kept(old(tasks.State()), tasks.State(), {MuxL(k)})
      ensures orderly <==> old(orderly) && ReleasedInOrder(old(cbs), old(stack), tasks.pstRunTask, k)
      ensures Passed(old(cbs), old(depth), old(stack), cbs, depth, stack, old(tasks.State()), tasks.State(),
              tasks.pstRunTask, k, woken)
    {
      hide WF, Kept, Stacks, Discipline, MuxesOk, At, Flying, ReleasedInOrder, Held, Passed, Calm, OnePriority,
        SamePriorities, NewOwner;
      ghost var c, cbs0, depth0, stack0 := tasks.State(), cbs, depth, stack;
      RunnerNotGiven(cbs, depth, c, k, tasks.pstRunTask);
      GiveUp(k);
      ghost var c1, stack1 := tasks.State(), stack;
      woken := PassOn(k, cbs0, depth0);
      RunnerAsReady(c, c1, tasks.State(), tasks.pstRunTask, k, woken);
      MakePassed(cbs0, depth0, stack0, cbs, depth, stack, c, c1, tasks.State(), tasks.pstRunTask, k, woken, stack1);
      KeptMore(c, c1, {}, {MuxL(k)});
      KeptTrans(c, c1, tasks.State(), {MuxL(k)});
    }

    /** The task that gives up the mutex is not among its waiters. */
    lemma RunnerAsReady(c: Core, c1: Core, c2: Core, t: Task, k: nat, woken: Option<Task>)
      requires WF(c) && t in c.tcb && c.tcb[t].ready && t in c1.tcb
      requires woken.Some? ==> woken.value in At(c.lists, MuxL(k))
      requires forall u | u in c1.tcb && woken != Some(u) :: AsReady(c1, c2, u)
      ensures AsReady(c1, c2, t)
    {
      BitsAt(c.tcb, t);
      NotReadyHere(c, t, MuxL(k));
      hide WF, AsReady, At;
    }

    /** Hand the mutex that has just been given up to its first waiter, if there is one. */
    method PassOn(k: nat, ghost cbs0: seq<Mux>, ghost depth0: seq<map<Task, int>>) returns (ghost woken: Option<Task>)
      requires JustGivenUp(cbs0, depth0, k)
      modifies this`cbs, this`depth, this`stack, tasks`tcb, tasks`lists, tasks`flight, tasks`out, tasks.wheel
      ensures Valid() && Kept(old(tasks.State()), tasks.State(), {MuxL(k)})
              && SamePriorities(old(tasks.State()), tasks.State())
      ensures woken.None? <==> At(old(tasks.lists), MuxL(k)) == []
      ensures woken.Some? ==> At(old(tasks.lists), MuxL(k)) != [] && woken.value == At(old(tasks.lists), MuxL(k))[0]
      ensures NewOwner(cbs0, old(depth), old(stack), cbs, depth, stack, tasks.State(), k, woken)
      ensures Calm(old(tasks.State()), tasks.State(), Only(woken), [])
      ensures forall u | u in old(tasks.tcb) && woken != Some(u) :: AsReady(old(tasks.State()), tasks.State(), u)
    {
      hide WF, Kept, Stacks, Discipline, MuxesOk, At, Flying, OneOk, Calm, Counted, GivenUp;
      ghost var c := tasks.State();
      if At(tasks.lists, MuxL(k)) != [] {
        woken := HandToFirst(k, cbs0, depth0);
      } else {
        FreedMuxes(cbs0, depth0, c, k);
        KeptRefl(c, {MuxL(k)});
        CalmRefl(c);
        GivenUpLength(cbs0, depth0, k);
        woken := None;
      }
    }

    ghost predicate JustGivenUp(cbs0: seq<Mux>, depth0: seq<map<Task, int>>, k: nat)
      reads this, tasks, tasks.wheel
    {
      && tasks.Valid() && |depth0| == |cbs0| && MuxesOk(cbs0, depth0, tasks.State()) && Stacks(cbs, stack)
      && Discipline(cbs, stack, tasks.tcb, tasks.base, orderly, mild)
      && k < |cbs0| && Held(cbs0[k]) && cbs0[k].usMuxCount == 1 && cbs == cbs0[k := cbs0[k].(usMuxCount := 0)]
         && depth == GivenUp(cbs0, depth0, k)
      && Flying(tasks.flight, MuxL(k)) == {}
    }

    /** The task that has waited longest gets the mutex. */
    method HandToFirst(k: nat, ghost cbs0: seq<Mux>, ghost depth0: seq<map<Task, int>>)
      returns (ghost woken: Option<Task>)
      requires JustGivenUp(cbs0, depth0, k) && At(tasks.lists, MuxL(k)) != []
      modifies this`cbs, this`depth, this`stack, tasks`tcb, tasks`lists, tasks`flight, tasks`out, tasks.wheel
      ensures Valid() && Kept(old(tasks.State()), tasks.State(), {MuxL(k)})
              && SamePriorities(old(tasks.State()), tasks.State())
      ensures woken == Some(At(old(tasks.lists), MuxL(k))[0])
      ensures NewOwner(cbs0, old(depth), old(stack), cbs, depth, stack, tasks.State(), k, woken)
      ensures Calm(old(tasks.State()), tasks.State(), Only(woken), [])
      ensures forall u | u in old(tasks.tcb) && woken != Some(u) :: AsReady(old(tasks.State()), tasks.State(), u)
    {
      hide WF, Kept, Stacks, Discipline, MuxesOk, At, Flying, WakeStep, OneOk, TcbOk, Calm, Counted, GivenUp, Different,
        Without, SamePriorities;
      ghost var c := tasks.State();
      GivenUpLength(cbs0, depth0, k);
      var w := tasks.WakeFirst(MuxL(k));
      ghost var c' := tasks.State();
      WakeParts(c, c', w, MuxL(k));
      WakeCalm(c, c', w, MuxL(k));
      OthersAsReady(c, c', w);
      SameUrgency(c, c');
      SameDiscipline(cbs, stack, c.tcb, c'.tcb, tasks.base, orderly, mild);
      tasks.TcbFacts(w);
      PrioritySmall(tasks.tcb[w]);
      Take(k, w);
      HandedMuxes(cbs0, depth0, c, c', k, w, tasks.tcb[w].usPriority);
      assert cbs == cbs0[k := Mux(true, 1, w, tasks.tcb[w].usPriority)];
      woken := Some(w);
    }

    lemma SameUrgency(c: Core, c': Core)
      requires SamePriorities(c, c')
      ensures c'.tcb.Keys == c.tcb.Keys && forall t | t in c.tcb :: c'.tcb[t].usPriority == c.tcb[t].usPriority
    {
    }

    lemma OthersAsReady(c: Core, c': Core, w: Task)
      requires OnlyTask(c, c', w)
      ensures forall u | u in c.tcb && u != w :: AsReady(c, c', u)
    {
    }

    lemma WakeParts(c: Core, c': Core, t: Task, id: ListId)
      requires WakeStep(c, c', t, id)
      ensures Kept(c, c', {id}) && SamePriorities(c, c') && OnlyTask(c, c', t) && t in c.tcb && t in c'.tcb
      ensures t in At(c.lists, id) && At(c'.lists, id) == Without(At(c.lists, id), t) && Different(At(c.lists, id))
      ensures Flying(c'.flight, id) == Flying(c.flight, id) + {t} && t !in Flying(c.flight, id)
    {
    }

    /** The owner's count goes to 0 and its priority back to what was saved; the waiters are not looked at yet. */
    method GiveUp(k: nat)
      requires Valid() && k < |cbs| && Held(cbs[k]) && cbs[k].pstOwner == tasks.pstRunTask && tasks.Running()
      modifies this`cbs, this`depth, this`stack, this`orderly, tasks`tcb, tasks`lists
      ensures tasks.Valid() && |old(depth)| == |old(cbs)| && MuxesOk(old(cbs), old(depth), tasks.State())
              && Stacks(cbs, stack)
      ensures Discipline(cbs, stack, tasks.tcb, tasks.base, orderly, mild)
      ensures Kept(old(tasks.State()), tasks.State(), {}) && SameWait(old(tasks.State()), tasks.State(), MuxL(k))
      ensures cbs == old(cbs)[k := old(cbs)[k].(usMuxCount := 0)] && depth == GivenUp(old(cbs), old(depth), k)
      ensures stack == old(stack)[tasks.pstRunTask := Without(StackOf(old(stack), tasks.pstRunTask), k)]
      ensures tasks.pstRunTask in tasks.tcb && tasks.pstRunTask in old(tasks.tcb)
              && old(tasks.tcb)[tasks.pstRunTask].ready
      ensures OnePriority(old(tasks.State()), tasks.State(), tasks.pstRunTask, old(cbs)[k].usPriority)
      ensures Calm(old(tasks.State()), tasks.State(), [],
              MovedBack(old(tasks.State()), tasks.pstRunTask, old(cbs)[k].usPriority))
      ensures orderly <==> old(orderly) && ReleasedInOrder(old(cbs), old(stack), tasks.pstRunTask, k)
    {
      hide *;
      MuxParts();
      tasks.RunFacts();
      ghost var c, t, cbs0 := tasks.State(), tasks.pstRunTask, cbs;
      GiveUpBooks(cbs, stack, tasks.tcb, tasks.base, k, orderly, mild);
      SavedSmall(cbs, depth, c, k);
      orderly := orderly && ReleasedInOrder(cbs, stack, t, k);
      depth := GivenUp(cbs, depth, k);
      cbs := cbs[k := cbs[k].(usMuxCount := 0)];
      stack := stack[t := Without(StackOf(stack, t), k)];
      Restore(cbs[k].pstOwner, cbs[k].usPriority, k);
      MuxesKept(cbs0, old(depth), c, tasks.State(), {});
    }

    lemma MuxParts()
      requires Valid()
      ensures tasks.Valid() && |depth| == |cbs| && MuxesOk(cbs, depth, tasks.State()) && Stacks(cbs, stack)
      ensures Discipline(cbs, stack, tasks.tcb, tasks.base, orderly, mild)
    {
    }

    /** Back to a saved priority. */
    method Restore(t: Task, usPriority: nat, ghost k: nat)
      requires tasks.Valid() && t in tasks.tcb && usPriority <= PRIORITY_LOWEST
      modifies tasks`tcb, tasks`lists
      ensures tasks.Valid() && Kept(old(tasks.State()), tasks.State(), {})
              && SameWait(old(tasks.State()), tasks.State(), MuxL(k))
      ensures tasks.tcb == old(tasks.tcb)[t := old(tasks.tcb)[t].(usPriority := usPriority)]
      ensures OnePriority(old(tasks.State()), tasks.State(), t, usPriority)
      ensures Calm(old(tasks.State()), tasks.State(), [], MovedBack(old(tasks.State()), t, usPriority))
    {
      hide WF, Kept, At, Flying, Calm, Settled;
      ghost var c := tasks.State();
      KeptRefl(c, {});
      CalmRefl(c);
      if tasks.tcb[t].usPriority != usPriority {
        tasks.PriModify(t, usPriority);
      } else {
        assert tasks.tcb[t := tasks.tcb[t].(usPriority := usPriority)] == tasks.tcb;
      }
    }

    lemma GiveUpBooks(cbs: seq<Mux>, stack: map<Task, seq<nat>>, tcb: map<Task, Tcb>, base: map<Task, nat>, k: nat,
                      orderly: bool, mild: bool)
      requires Stacks(cbs, stack) && k < |cbs| && Held(cbs[k]) && cbs[k].pstOwner in tcb
               && Discipline(cbs, stack, tcb, base, orderly, mild)
      ensures var o := cbs[k].pstOwner;
              var cbs', stack' := cbs[k := cbs[k].(usMuxCount := 0)], stack[o := Without(StackOf(stack, o), k)];
              && Stacks(cbs', stack')
              && Discipline(cbs', stack', tcb[o := tcb[o].(usPriority := cbs[k].usPriority)], base, orderly
                 && ReleasedInOrder(cbs, stack, o, k), mild)
    {
      ReleaseStacks(cbs, stack, k);
      hide Stacks, Ladders, Held, Without, Bounded;
      if orderly && ReleasedInOrder(cbs, stack, cbs[k].pstOwner, k) {
        ReleaseLadders(cbs, stack, tcb, base, k);
      }
      if mild { ReleaseBound(cbs, tcb, base, k); }
    }
  }

  /** The owner's priority as `LOS_MuxPend` leaves it: lifted to the caller's if that is more urgent. */
  function Lifted(tcb: map<Task, Tcb>, o: Task, t: Task): nat
  {
    if o in tcb && t in tcb then (if tcb[o].usPriority > tcb[t].usPriority then tcb[t].usPriority
      else tcb[o].usPriority) else 0
  }

  /** The owner `o` is now at least as urgent as the caller `t` and as it was before, and not more than need be. */
  ghost predicate Inherits(c: Core, c': Core, o: Task, t: Task)
  {
    && PriorityOf(c', o) <= PriorityOf(c, t) && PriorityOf(c', o) <= PriorityOf(c, o)
    && (PriorityOf(c', o) == PriorityOf(c, t) || PriorityOf(c', o) == PriorityOf(c, o))
  }

  /** An owner that is lifted goes to the end of its new ready list. */
  function MovedUp(c: Core, o: Task, t: Task): seq<Task>
  {
    if PriorityOf(c, o) > PriorityOf(c, t) then [o] else []
  }

  /** ... and so does a task that is put back to its saved priority. */
  function MovedBack(c: Core, t: Task, saved: nat): seq<Task>
  {
    if PriorityOf(c, t) != saved then [t] else []
  }

  lemma MoversAsReady(c: Core, c1: Core, c2: Core, o: Task, t: Task)
    requires OnlyTask(c1, c2, t) && o != t && o in c1.tcb
    ensures t !in MovedUp(c, o, t) && forall u | u in MovedUp(c, o, t) :: AsReady(c1, c2, u)
  {
  }

  lemma StillInherits(c: Core, c1: Core, c2: Core, o: Task, t: Task)
    requires Inherits(c, c1, o, t) && SamePriorities(c1, c2)
    ensures Inherits(c, c2, o, t)
  {
  }

  /** The mutex that was given up has gone to `woken`, or is free. */
  ghost predicate NewOwner(cbs0: seq<Mux>, depth1: seq<map<Task, int>>, stack1: map<Task, seq<nat>>,
                         cbs: seq<Mux>, depth: seq<map<Task, int>>, stack: map<Task, seq<nat>>, c: Core, k: nat,
                           woken: Option<Task>)
  {
    k < |cbs0| && k < |depth1| &&
    if woken.Some? then
      && woken.value in c.tcb && cbs == cbs0[k := Mux(true, 1, woken.value, c.tcb[woken.value].usPriority)]
      && depth == depth1[k := Counted(depth1[k], woken.value, 1)]
         && stack == stack1[woken.value := StackOf(stack1, woken.value) + [k]]
    else
      cbs == cbs0[k := cbs0[k].(usMuxCount := 0)] && depth == depth1 && stack == stack1
  }

  /** The last post of `t`: its ledger goes down by one and its stack loses `k`, its priority is the saved one, and
      `woken`, if there is one, is the new owner with one pend granted. */
  ghost predicate Passed(cbs0: seq<Mux>, depth0: seq<map<Task, int>>, stack0: map<Task, seq<nat>>,
                         cbs: seq<Mux>, depth: seq<map<Task, int>>, stack: map<Task, seq<nat>>, c: Core, c': Core,
                           t: Task, k: nat, woken: Option<Task>)
  {
    && k < |cbs0| && |depth0| == |cbs0| && cbs0[k].pstOwner == t
    && NewOwner(cbs0, GivenUp(cbs0, depth0, k), stack0[t := Without(StackOf(stack0, t), k)], cbs, depth, stack, c', k,
       woken)
    && OnePriority(c, c', t, cbs0[k].usPriority) && Calm(c, c', Only(woken), MovedBack(c, t, cbs0[k].usPriority))
  }

  lemma MakePassed(cbs0: seq<Mux>, depth0: seq<map<Task, int>>, stack0: map<Task, seq<nat>>,
                   cbs: seq<Mux>, depth: seq<map<Task, int>>, stack: map<Task, seq<nat>>, c: Core, c1: Core, c': Core,
                     t: Task, k: nat,
                   woken: Option<Task>, stack1: map<Task, seq<nat>>)
    requires k < |cbs0| && |depth0| == |cbs0| && cbs0[k].pstOwner == t
             && stack1 == stack0[t := Without(StackOf(stack0, t), k)]
    requires NewOwner(cbs0, GivenUp(cbs0, depth0, k), stack1, cbs, depth, stack, c', k, woken)
    requires OnePriority(c, c1, t, cbs0[k].usPriority) && Calm(c, c1, [], MovedBack(c, t, cbs0[k].usPriority))
    requires SamePriorities(c1, c') && Calm(c1, c', Only(woken), []) && t in c.tcb && c.tcb[t].ready
    requires AsReady(c1, c', t)
    ensures Passed(cbs0, depth0, stack0, cbs, depth, stack, c, c', t, k, woken)
  {
    hide NewOwner, GivenUp, Without, Calm, AsReady;
    var moved := MovedBack(c, t, cbs0[k].usPriority);
    assert moved + [] == moved && [] + Only(woken) == Only(woken);
    CalmThen(c, c1, c', [], moved, Only(woken));
  }

  lemma StillOnePriority(c: Core, c1: Core, c2: Core, o: Task, p: nat)
    requires OnePriority(c, c1, o, p) && SamePriorities(c1, c2)
    ensures OnePriority(c, c2, o, p)
  {
  }

  /** The mutex being released has saved the same priority as the one that its owner got last: always so in
      last-in-first-out order. */
  predicate ReleasedInOrder(cbs: seq<Mux>, stack: map<Task, seq<nat>>, t: Task, k: nat)
  {
    var st := StackOf(stack, t);
    st != [] && st[|st| - 1] < |cbs| && k < |cbs| && cbs[st[|st| - 1]].usPriority == cbs[k].usPriority
  }

  /** A task that gives up the mutex that it got last keeps every ladder, its own and those of the others. */
  lemma LifoKeepsLadders(cbs: seq<Mux>, stack: map<Task, seq<nat>>, tcb: map<Task, Tcb>, base: map<Task, nat>, k: nat)
    requires Stacks(cbs, stack) && Ladders(cbs, stack, tcb, base) && k < |cbs| && Held(cbs[k]) && cbs[k].pstOwner in tcb
    requires var st := StackOf(stack, cbs[k].pstOwner); st != [] && st[|st| - 1] == k
    ensures var o := cbs[k].pstOwner;
            && ReleasedInOrder(cbs, stack, o, k)
            && Ladders(cbs[k := cbs[k].(usMuxCount := 0)], stack[o := Without(StackOf(stack, o), k)],
               tcb[o := tcb[o].(usPriority := cbs[k].usPriority)], base)
  {
    hide Stacks, Ladders, Held, Without;
    ReleaseLadders(cbs, stack, tcb, base, k);
  }
}
