/** Mail blocks: a fixed-block pool shared by the users of a queue, with waiting (kernel/base/ipc/los_queue.c,
    `osQueueMailAlloc` and `osQueueMailFree`). */
module Mail {
  import opened DeltaList
  import opened Errno
  import opened Steps
  import opened Tasks
  import opened TaskSystem
  import opened Membox

  /** `puwMsg` of a task: 0 for NULL. */
  function MsgOf(msg: map<Task, nat>, t: Task): nat
  {
    if t in msg then msg[t] else 0
  }

  function UserAddr(pool: nat, size: nat, i: nat): nat { Addr(pool, size, i) + MAGIC_SIZE }

  /** The block that a woken task will find in `puwMsg`. */
  ghost predicate Promised(msg: map<Task, nat>, pool: nat, size: nat, num: nat, free: seq<nat>, t: Task)
  {
    t in msg && exists i: nat :: i < num && i !in free && msg[t] == UserAddr(pool, size, i)
  }

  /** Nobody waits while a block is free, and exactly the woken tasks have been promised blocks, each its own. */
  ghost predicate MailOk(msg: map<Task, nat>, pool: nat, size: nat, num: nat, free: seq<nat>, waiters: seq<Task>,
                         given: set<Task>)
  {
    && (waiters != [] ==> free == [])
    && (forall t | t in msg :: t in given)
    && (forall t | t in given :: Promised(msg, pool, size, num, free, t))
    && (forall t, u | t in given && u in given && t != u :: msg[t] != msg[u])
  }

  /** A block freed and handed on at once leaves the pool word for word as it was. */
  lemma HandOver(m0: Mem, m1: Mem, m2: Mem, pool: nat, size: nat, num: nat, free: seq<nat>, i: nat)
    requires Geometry(m0, pool, size, num) && FreeList(m0, pool, size, num, free) && Marked(m0, pool, size, num, free)
             && i < num && i !in free
    requires m1 == m0[Addr(pool, size, i) := LinkValue(pool, size, free, 0)][pool + 8 := Addr(pool, size, i)]
    requires m2 == m1[pool + 8 := LinkValue(pool, size, [i] + free, 1)][Addr(pool, size, i) := MAGIC]
    ensures m2 == m0
  {
    BlocksApart(pool, size, i, i);
    assert LinkOk(m0, pool, size, free, 0) && MagicAt(m0, Addr(pool, size, i));
    hide Addr;
    if free != [] { assert ([i] + free)[1] == free[0]; }
  }

  /** A woken task has been promised this block and has not picked it up yet. */
  ghost predicate IsPromised(msg: map<Task, nat>, flight: map<ListId, set<Task>>, q: nat, p: nat)
  {
    exists t :: t in Flying(flight, MemL(q)) && t in msg && msg[t] == p
  }

  /** The block goes to the first waiter: in order if and only if it had not been promised before. */
  lemma HandedOn(msg: map<Task, nat>, pool: nat, size: nat, num: nat, free: seq<nat>, c: Core, c': Core, q: nat,
                 w: Task, i: nat)
    requires MailOk(msg, pool, size, num, free, At(c.lists, MemL(q)), Flying(c.flight, MemL(q)))
             && WakeStep(c, c', w, MemL(q))
    requires i < num && i !in free
    ensures MailOk(msg[w := UserAddr(pool, size, i)], pool, size, num, free, At(c'.lists, MemL(q)),
            Flying(c'.flight, MemL(q)))
            <==> !IsPromised(msg, c.flight, q, UserAddr(pool, size, i))
  {
    hide Addr, Kept, UserAddr;
    var p := UserAddr(pool, size, i);
    var msg' := msg[w := p];
    assert free == [];
    if IsPromised(msg, c.flight, q, p) {
      var t :| t in Flying(c.flight, MemL(q)) && t in msg && msg[t] == p;
      assert t in Flying(c'.flight, MemL(q)) && w in Flying(c'.flight, MemL(q)) && msg'[t] == msg'[w];
    } else {
      forall t | t in Flying(c'.flight, MemL(q)) ensures Promised(msg', pool, size, num, free, t) {
        if t != w { assert Promised(msg, pool, size, num, free, t); }
      }
      forall t, u | t in Flying(c'.flight, MemL(q)) && u in Flying(c'.flight, MemL(q))
        && t != u ensures msg'[t] != msg'[u] {
        assert t != w ==> Promised(msg, pool, size, num, free, t);
        assert u != w ==> Promised(msg, pool, size, num, free, u);
      }
    }
  }

  /** Tasks 1 and 2 wait for mail. */
  function TwoWaiting(): Core
  {
    var x := Tcb(false, false, true, false, false, false, 5, Waiting(MemL(0), Plain));
    Core(map[1 := x, 2 := x], map[MemL(0) := [1, 2]], map[], map[], map[1 := [], 2 := []], map[], 0)
  }

  /** It happens: task 1 has been woken with the only block and has not run yet when that block is freed again; then it
      goes to task 2 as well. */
  lemma SharedOnce()
    ensures WF(TwoWaiting()) && 1 in TwoWaiting().tcb && TwoWaiting().tcb[1].wait.Waiting?
    ensures var p, c := UserAddr(0x1000, 8, 0), Woken(TwoWaiting(), 1);
            && WF(c) && 2 in At(c.lists, MemL(0)) && 2 in c.tcb && c.tcb[2].wait.Waiting?
            && MailOk(map[1 := p], 0x1000, 8, 1, [], At(c.lists, MemL(0)), Flying(c.flight, MemL(0)))
            && var c' := Woken(c, 2);
               !MailOk(map[1 := p, 2 := p], 0x1000, 8, 1, [], At(c'.lists, MemL(0)), Flying(c'.flight, MemL(0)))
  {
    var c0, p := TwoWaiting(), UserAddr(0x1000, 8, 0);
    BothThere();
    hide *;
    WokenWF(c0, 1, MemL(0));
    FirstWoken(c0, p);
    var c := Woken(c0, 1);
    WokenWF(c, 2, MemL(0));
    WokenStep(c, 2, MemL(0));
    OnlyBlock(p);
    NowPromised(c, p);
    HandedOn(map[1 := p], 0x1000, 8, 1, [], c, Woken(c, 2), 0, 2, 0);
    assert map[1 := p][2 := p] == map[1 := p, 2 := p];
  }

  lemma FirstWoken(c0: Core, p: nat)
    requires WF(c0) && At(c0.lists, MemL(0)) == [1, 2] && Flying(c0.flight, MemL(0)) == {}
             && p == UserAddr(0x1000, 8, 0)
    ensures 1 in c0.tcb && c0.tcb[1].wait.Waiting?
    ensures var c := Woken(c0, 1); 2 in At(c.lists, MemL(0)) && Flying(c.flight, MemL(0)) == {1}
  {
    hide WF, Woken, UserAddr, Kept;
    WokenStep(c0, 1, MemL(0));
  }

  lemma OnlyBlock(p: nat)
    requires p == UserAddr(0x1000, 8, 0)
    ensures Promised(map[1 := p], 0x1000, 8, 1, [], 1)
  {
  }

  lemma NowPromised(c: Core, p: nat)
    requires Flying(c.flight, MemL(0)) == {1} && Promised(map[1 := p], 0x1000, 8, 1, [], 1)
    ensures IsPromised(map[1 := p], c.flight, 0, p)
    ensures MailOk(map[1 := p], 0x1000, 8, 1, [], At(c.lists, MemL(0)), Flying(c.flight, MemL(0)))
  {
    hide Promised, Flying, At;
  }

  lemma BothThere()
    ensures WF(TwoWaiting()) && At(TwoWaiting().lists, MemL(0)) == [1, 2] && Flying(TwoWaiting().flight, MemL(0)) == {}
  {
  }

  /** Nobody waits and the block goes back to the pool: in order if and only if it had not been promised. */
  lemma OneMoreFree(msg: map<Task, nat>, pool: nat, size: nat, num: nat, free: seq<nat>, flight: map<ListId, set<Task>>,
                    q: nat, i: nat)
    requires MailOk(msg, pool, size, num, free, [], Flying(flight, MemL(q))) && 4 <= size
    ensures MailOk(msg, pool, size, num, [i] + free, [], Flying(flight, MemL(q))) <==>
              !IsPromised(msg, flight, q, UserAddr(pool, size, i))
  {
    var given := Flying(flight, MemL(q));
    forall j: nat ensures UserAddr(pool, size, j) == UserAddr(pool, size, i) <==> j == i {
      BlocksApart(pool, size, i, j);
    }
    hide Addr, UserAddr;
    forall t | t in given ensures Promised(msg, pool, size, num, [i] + free, t) <==> msg[t] != UserAddr(pool, size, i) {
      assert Promised(msg, pool, size, num, free, t);
      var j: nat :| j < num && j !in free && msg[t] == UserAddr(pool, size, j);
      assert j in [i] + free <==> j == i;
    }
  }

  lemma Resumed(msg: map<Task, nat>, pool: nat, size: nat, num: nat, free: seq<nat>, c: Core, c': Core, q: nat, t: Task,
                timedOut: bool)
    requires MailOk(msg, pool, size, num, free, At(c.lists, MemL(q)), Flying(c.flight, MemL(q)))
             && FinishStep(c, c', t, timedOut)
    requires c.tcb[t].wait.id == MemL(q)
    ensures timedOut ==> MailOk(msg, pool, size, num, free, At(c'.lists, MemL(q)), Flying(c'.flight, MemL(q)))
    ensures !timedOut ==>
              && Promised(msg, pool, size, num, free, t)
              && MailOk(msg - {t}, pool, size, num, free, At(c'.lists, MemL(q)), Flying(c'.flight, MemL(q)))
    ensures !timedOut ==> forall u | u in Flying(c'.flight, MemL(q)) :: u != t && u in msg && msg[u] != msg[t]
  {
    hide Addr, Kept;
    if !timedOut {
      forall u | u in Flying(c'.flight, MemL(q)) ensures Promised(msg - {t}, pool, size, num, free, u) {
        assert Promised(msg, pool, size, num, free, u);
      }
    }
  }

  /** The tasks when a call of `osQueueMailAlloc` has reached its `LOS_Schedule` for good: waiting there, or past its
      end.  It is the one blocking call that does not ask whether scheduling is locked; under the lock `LOS_Schedule`
      returns at once and the rest of the call runs while the caller is still a waiter. */
  function MailCall(c: Core, t: Task, q: nat, p: nat, usLosTaskLock: nat, free: seq<nat>, uwTimeOut: nat,
                    isr: bool): Core
    requires !isr ==> t in c.tcb && p <= |At(c.lists, MemL(q))|
  {
    if isr || free != [] || uwTimeOut == 0 then c
    else
      var c1 := Pended(c, t, MemL(q), Plain, p, Timeout(uwTimeOut));
      if usLosTaskLock == 0 then c1 else Finished(c1, t)
  }

  predicate MayWait(usLosTaskLock: nat, free: seq<nat>, uwTimeOut: nat, isr: bool)
  {
    usLosTaskLock == 0 || free != [] || uwTimeOut == 0 || isr
  }

  /** The call leaves the tasks in order if and only if scheduling is not locked, or it has no need or no leave to wait.
      Otherwise the caller returns and is still on the list of waiters; if the wait was timed, its timer runs on
      although its TIMEOUT bit says otherwise. */
  lemma LockedWaitStrands(c: Core, t: Task, q: nat, p: nat, usLosTaskLock: nat, free: seq<nat>, uwTimeOut: nat,
                          isr: bool)
    requires WF(c) && (!isr ==> t in c.tcb && c.tcb[t].ready && c.tcb[t].wait.NoWait? && p <= |At(c.lists, MemL(q))|)
    ensures WF(MailCall(c, t, q, p, usLosTaskLock, free, uwTimeOut, isr)) <==>
              MayWait(usLosTaskLock, free, uwTimeOut, isr)
    ensures !MayWait(usLosTaskLock, free, uwTimeOut, isr) ==>
              var c' := MailCall(c, t, q, p, usLosTaskLock, free, uwTimeOut, isr);
              && t in At(c'.lists, MemL(q)) && t in c'.tcb && c'.tcb[t].wait.NoWait?
              && (uwTimeOut != WAIT_FOREVER ==> t in c'.rem && !c'.tcb[t].timeout && !Timers(c'.tcb, c'.rem))
  {
    hide WF, Pended, Finished, Timers;
    if !isr && free == [] && uwTimeOut != 0 {
      if usLosTaskLock == 0 {
        PendedWF(c, t, MemL(q), Plain, p, Timeout(uwTimeOut));
      } else {
        Stranded(c, t, q, p, Timeout(uwTimeOut));
      }
    }
  }

  /** A pend followed at once by the end of the call. */
  lemma Stranded(c: Core, t: Task, q: nat, p: nat, timeout: Option<nat>)
    requires WF(c) && t in c.tcb && c.tcb[t].ready && c.tcb[t].wait.NoWait? && p <= |At(c.lists, MemL(q))|
    ensures var c' := Finished(Pended(c, t, MemL(q), Plain, p, timeout), t);
            && t in At(c'.lists, MemL(q)) && t in c'.tcb && c'.tcb[t].wait.NoWait? && !WF(c')
            && (timeout.Some? ==> t in c'.rem && !c'.tcb[t].timeout && !Timers(c'.tcb, c'.rem))
  {
    var c1 := Pended(c, t, MemL(q), Plain, p, timeout);
    PendedEffect(c, t, MemL(q), Plain, p, timeout);
    InsertedElements(At(c.lists, MemL(q)), p, t);
    assert TcbOk(c.tcb[t]);
    assert At(c1.lists, MemL(q))[p] == t;
    hide Relocated, Inserted, At, Placed, Fifo;
    assert !TcbOk(Finished(c1, t).tcb[t]);
  }

  /** It happens: the only task locks scheduling and asks an empty pool for a block within 10 ticks. */
  lemma StrandedOnce()
    ensures var t, none := 1, Core(map[], map[], map[], map[], map[], map[], 0);
            var c := Replaced(none, t, Tcb(true, false, false, false, false, false, 5, NoWait));
            WF(c) && t in c.tcb && c.tcb[t].ready && !WF(MailCall(c, t, 0, 0, 1, [], 10, false))
  {
    var t, none := 1, Core(map[], map[], map[], map[], map[], map[], 0);
    var x := Tcb(true, false, false, false, false, false, 5, NoWait);
    var c := Replaced(none, t, x);
    assert WF(none);
    ReplacedWF(none, t, x);
    hide WF, Relocated;
    LockedWaitStrands(c, t, 0, 0, 1, [], 10, false);
  }

  class Mails {
    const tasks: TaskSystem
    const pool: Pool
    const q: nat
    var puwMsg: map<Task, nat>

    ghost predicate Valid()
      reads this, tasks, tasks.wheel, pool
    {
      && tasks.Valid() && pool.Valid()
      && MailOk(puwMsg, pool.pool, pool.uwBlkSize, pool.uwBlkNum, pool.free, At(tasks.lists, MemL(q)),
         Flying(tasks.flight, MemL(q)))
    }

    constructor (tasks: TaskSystem, pool: Pool, q: nat)
      requires tasks.Valid() && pool.Valid() && At(tasks.lists, MemL(q)) == [] && Flying(tasks.flight, MemL(q)) == {}
      ensures Valid() && this.tasks == tasks && this.pool == pool && this.q == q
    {
      this.tasks, this.pool, this.q, puwMsg := tasks, pool, q, map[];
    }

    /** Steps of the other modules, and the tick, keep the mail in order. */
    lemma MailKept(c: Core, mine: set<ListId>)
      requires MailOk(puwMsg, pool.pool, pool.uwBlkSize, pool.uwBlkNum, pool.free, At(c.lists, MemL(q)),
               Flying(c.flight, MemL(q)))
      requires tasks.Valid() && pool.Valid() && Kept(c, tasks.State(), mine) && MemL(q) !in mine
      ensures Valid()
    {
      assert KeptAt(c, tasks.State(), MemL(q));
      StillEmpty(At(tasks.lists, MemL(q)), At(c.lists, MemL(q)));
    }

    /** `osQueueMailAlloc`: None when the caller is now waiting at `LOS_Schedule`, otherwise the block, or 0 for NULL.
        Only waiting under the lock puts things out of order. */
    method MailAlloc(inRange: bool, hasPool: bool, uwTimeOut: nat, isr: bool) returns (pMem: Option<nat>)
      requires Valid() && (!isr ==> tasks.Running()) && uwTimeOut <= WAIT_FOREVER
      modifies this`puwMsg, pool`mem, pool`free, tasks`tcb, tasks`lists, tasks`flight, tasks`out, tasks`stamp,
               tasks`clock, tasks.wheel
      ensures Valid() <==> !inRange || !hasPool || MayWait(tasks.usLosTaskLock, old(pool.free), uwTimeOut, isr)
      ensures pMem == if !inRange || !hasPool || (uwTimeOut != 0 && isr) then Some(0)
                      else if old(pool.free) != [] then Some(UserAddr(pool.pool, pool.uwBlkSize, old(pool.free)[0]))
                      else if uwTimeOut == 0 then Some(0)
                      else if tasks.usLosTaskLock == 0 then None
                      else if uwTimeOut != WAIT_FOREVER then Some(0) else Some(MsgOf(old(puwMsg), tasks.pstRunTask))
      ensures !inRange || !hasPool || isr || old(pool.free) != [] || uwTimeOut == 0 ==>
                tasks.State() == old(tasks.State())
      ensures inRange && hasPool && !isr && old(pool.free) == [] && uwTimeOut != 0 ==>
                exists p :: PlacedBy(old(tasks.State()), tasks.pstRunTask, q, p)
                            && tasks.State() == MailCall(old(tasks.State()), tasks.pstRunTask, q, p,
                               tasks.usLosTaskLock, old(pool.free), uwTimeOut, isr)
      ensures pMem.None? ==>
                && Kept(old(tasks.State()), tasks.State(), {MemL(q)})
                   && SamePriorities(old(tasks.State()), tasks.State())
                && Began(old(tasks.State()), tasks.State(), tasks.pstRunTask, Waiting(MemL(q), Plain),
                   Timeout(uwTimeOut), [])
      ensures !inRange || !hasPool || MayWait(tasks.usLosTaskLock, old(pool.free), uwTimeOut, isr) ==>
                puwMsg == old(puwMsg)
      ensures if inRange && hasPool && !(uwTimeOut != 0 && isr) && old(pool.free) != []
              then pool.free == old(pool.free)[1..]
              else pool.mem == old(pool.mem) && pool.free == old(pool.free)
    {
      hide WF, Kept, PendStep, Addr, MailOk, Pended, PlacedBy, Began, SamePriorities;
      if !inRange {
        return Some(0);
      }
      if !hasPool {
        return Some(0);
      }
      if uwTimeOut != 0 && isr {
        return Some(0);
      }
      ghost var free := pool.free;
      var p := pool.MemboxAlloc();
      if p != 0 || uwTimeOut == 0 {
        StillPromised(free);
        return Some(p);
      }
      ghost var c, t := tasks.State(), tasks.pstRunTask;
      tasks.RunFacts();
      var place := tasks.QueuePend(MemL(q), Plain, uwTimeOut);
      MakePlaced(c, t, q, place);
      if tasks.usLosTaskLock == 0 {
        NowWaiting(c, tasks.State(), place, uwTimeOut);
        return None;
      }
      PendedCall(c, t, q, place, Timeout(uwTimeOut));
      pMem := RunOn();
      LockedWaitStrands(c, t, q, place, tasks.usLosTaskLock, free, uwTimeOut, isr);
    }

    /** The place of a newcomer by priority. */
    ghost predicate PlacedBy(c: Core, t: Task, q: nat, p: nat)
      ensures PlacedBy(c, t, q, p) ==> p <= |At(c.lists, MemL(q))|
    {
      FirstLessUrgent(c, At(c.lists, MemL(q)), t, p)
    }

    lemma MakePlaced(c: Core, t: Task, q: nat, p: nat)
      requires FirstLessUrgent(c, At(c.lists, MemL(q)), t, p)
      ensures PlacedBy(c, t, q, p)
    {
    }

    lemma PendedCall(c: Core, t: Task, q: nat, p: nat, timeout: Option<nat>)
      requires t in c.tcb && p <= |At(c.lists, MemL(q))|
      ensures var c' := Pended(c, t, MemL(q), Plain, p, timeout);
              t in c'.tcb && c'.tcb[t].wait == Waiting(MemL(q), Plain) && (c'.tcb[t].timeout <==> timeout.Some?)
    {
      hide Relocated;
    }

    /** The rest of the call when `LOS_Schedule` has returned at once. */
    method RunOn() returns (pMem: Option<nat>)
      requires tasks.pstRunTask in tasks.tcb && tasks.tcb[tasks.pstRunTask].wait == Waiting(MemL(q), Plain)
      modifies this`puwMsg, tasks`tcb, tasks`flight
      ensures tasks.State() == Finished(old(tasks.State()), tasks.pstRunTask)
      ensures pMem == Some(if old(tasks.tcb)[tasks.pstRunTask].timeout then 0 else MsgOf(old(puwMsg), tasks.pstRunTask))
    {
      ghost var c, t := tasks.State(), tasks.pstRunTask;
      var timedOut := tasks.tcb[tasks.pstRunTask].timeout;
      tasks.tcb := tasks.tcb[tasks.pstRunTask := tasks.tcb[tasks.pstRunTask].(timeout := false, wait := NoWait)];
      tasks.flight := tasks.flight[MemL(q) := Flying(tasks.flight, MemL(q)) - {t}];
      assert tasks.State() == Finished(c, t);
      if timedOut {
        return Some(0);
      }
      pMem := Some(MsgOf(puwMsg, tasks.pstRunTask));
      puwMsg := puwMsg - {tasks.pstRunTask};
    }

    /** Blocks promised to woken tasks are not on the free list, so handing out its head touches none of them. */
    lemma StillPromised(free: seq<nat>)
      requires MailOk(puwMsg, pool.pool, pool.uwBlkSize, pool.uwBlkNum, free, At(tasks.lists, MemL(q)),
               Flying(tasks.flight, MemL(q)))
      requires tasks.Valid() && pool.Valid() && (pool.free == free || (free != [] && pool.free == free[1..]))
      ensures Valid()
    {
      forall t | t in Flying(tasks.flight, MemL(q)) ensures Promised(puwMsg, pool.pool, pool.uwBlkSize, pool.uwBlkNum,
        pool.free, t) {
        assert Promised(puwMsg, pool.pool, pool.uwBlkSize, pool.uwBlkNum, free, t);
      }
    }

    lemma NowWaiting(c: Core, c': Core, p: nat, uwTimeOut: nat)
      requires MailOk(puwMsg, pool.pool, pool.uwBlkSize, pool.uwBlkNum, pool.free, At(c.lists, MemL(q)),
               Flying(c.flight, MemL(q)))
      requires PendStep(c, c', tasks.pstRunTask, MemL(q), Plain, p, Timeout(uwTimeOut)) && pool.free == []
      requires tasks.pstRunTask in c.tcb && c.tcb[tasks.pstRunTask].ready
      ensures MailOk(puwMsg, pool.pool, pool.uwBlkSize, pool.uwBlkNum, pool.free, At(c'.lists, MemL(q)),
              Flying(c'.flight, MemL(q)))
      ensures Kept(c, c', {MemL(q)}) && SamePriorities(c, c')
              && Began(c, c', tasks.pstRunTask, Waiting(MemL(q), Plain), Timeout(uwTimeOut), [])
      ensures tasks.pstRunTask in c'.tcb && c'.tcb[tasks.pstRunTask].wait == Waiting(MemL(q), Plain)
    {
      PendBegan(c, c', tasks.pstRunTask, MemL(q), Plain, p, Timeout(uwTimeOut));
      hide Kept, SamePriorities, Began, Inserted;
    }

    /** `osQueueMailFree`.  With somebody waiting, the block freed goes to the first waiter, whatever block it is, and
        the pool is left as it was.  Only freeing a block that a woken task has been promised and has not picked up yet
        puts things out of order: that task then shares it, or finds it on the free list. */
    method MailFree(inRange: bool, hasPool: bool, pMailMem: nat) returns (uwRet: nat)
      requires Valid() && pMailMem < WORD32
      modifies this, pool`mem, pool`free, tasks`tcb, tasks`lists, tasks`flight, tasks`out, tasks.wheel
      ensures Valid() <==> !inRange || !hasPool || !IsPromised(old(puwMsg), old(tasks.flight), q, pMailMem)
      ensures uwRet == if !inRange then ERRNO_QUEUE_MAIL_HANDLE_INVALID
                       else if !hasPool then ERRNO_QUEUE_MAIL_PTR_INVALID
                       else if old(pool.Live(pMailMem)) then OS_OK else ERRNO_QUEUE_MAIL_FREE_ERROR
      ensures uwRet != OS_OK ==>
                pool.mem == old(pool.mem) && pool.free == old(pool.free) && puwMsg == old(puwMsg)
                && tasks.State() == old(tasks.State())
      ensures uwRet == OS_OK && At(old(tasks.lists), MemL(q)) == [] ==>
                && puwMsg == old(puwMsg) && tasks.State() == old(tasks.State()) && |pool.free| == |old(pool.free)| + 1
                   && pool.free[1..] == old(pool.free)
                && pMailMem == UserAddr(pool.pool, pool.uwBlkSize, pool.free[0])
      ensures uwRet == OS_OK && At(old(tasks.lists), MemL(q)) != [] ==>
                var w := At(old(tasks.lists), MemL(q))[0];
                && WakeStep(old(tasks.State()), tasks.State(), w, MemL(q)) && puwMsg == old(puwMsg)[w := pMailMem]
                && Calm(old(tasks.State()), tasks.State(), [w], [])
                && pool.mem == old(pool.mem) && pool.free == old(pool.free)
    {
      hide WF, Kept, WakeStep, Addr, FreeList, Marked, Geometry, MailOk, LinkValue, IsPromised, Calm;
      ghost var m0, free := pool.mem, pool.free;
      ghost var c := tasks.State();
      PromisedLive(pMailMem);
      if !inRange {
        return ERRNO_QUEUE_MAIL_HANDLE_INVALID;
      }
      if !hasPool {
        return ERRNO_QUEUE_MAIL_PTR_INVALID;
      }
      var ok, i := pool.MemboxFree(pMailMem);
      if !ok {
        return ERRNO_QUEUE_MAIL_FREE_ERROR;
      }
      if At(tasks.lists, MemL(q)) != [] {
        ghost var m1 := pool.mem;
        var w := tasks.WakeFirst(MemL(q));
        WakeCalm(c, tasks.State(), w, MemL(q));
        var p := pool.MemboxAlloc();
        puwMsg := puwMsg[w := p];
        assert pool.free == free;
        HandOver(m0, m1, pool.mem, pool.pool, pool.uwBlkSize, pool.uwBlkNum, free, i);
        HandedOn(old(puwMsg), pool.pool, pool.uwBlkSize, pool.uwBlkNum, free, c, tasks.State(), q, w, i);
      } else {
        OneMoreFree(puwMsg, pool.pool, pool.uwBlkSize, pool.uwBlkNum, free, tasks.flight, q, i);
      }
      uwRet := OS_OK;
    }

    /** A block has been promised exactly if it stands in some `puwMsg`. */
    lemma PromisedMsg(p: nat)
      requires Valid()
      ensures IsPromised(puwMsg, tasks.flight, q, p) <==> p in puwMsg.Values
    {
      hide WF, Addr;
      if IsPromised(puwMsg, tasks.flight, q, p) {
        var t :| t in Flying(tasks.flight, MemL(q)) && t in puwMsg && puwMsg[t] == p;
        assert t in puwMsg.Keys;
      }
      if p in puwMsg.Values {
        var t :| t in puwMsg && puwMsg[t] == p;
      }
    }

    /** What has been promised is allocated. */
    lemma PromisedLive(p: nat)
      requires Valid()
      ensures 4 <= pool.uwBlkSize && (IsPromised(puwMsg, tasks.flight, q, p) ==> pool.Live(p))
    {
      hide Addr;
      if IsPromised(puwMsg, tasks.flight, q, p) {
        var t :| t in Flying(tasks.flight, MemL(q)) && t in puwMsg && puwMsg[t] == p;
        assert Promised(puwMsg, pool.pool, pool.uwBlkSize, pool.uwBlkNum, pool.free, t);
        var i: nat :| i < pool.uwBlkNum && i !in pool.free && p == UserAddr(pool.pool, pool.uwBlkSize, i);
      }
    }

    /** The rest of `osQueueMailAlloc` after `LOS_Schedule`: the block promised by whoever freed it, or NULL when time
        ran out. */
    method MailAllocResume() returns (pMem: nat)
      requires Valid() && tasks.pstRunTask in tasks.tcb && tasks.tcb[tasks.pstRunTask].ready
      requires tasks.tcb[tasks.pstRunTask].wait.Waiting? && tasks.tcb[tasks.pstRunTask].wait.id == MemL(q)
      modifies this, tasks`tcb, tasks`flight
      ensures Valid() && FinishStep(old(tasks.State()), tasks.State(), tasks.pstRunTask, pMem == 0)
      ensures tasks.pstRunTask in tasks.out && tasks.out[tasks.pstRunTask] == [if pMem == 0 then TimedOut else Given]
      ensures tasks.pstRunTask in old(tasks.tcb) && (pMem == 0 <==> old(tasks.tcb)[tasks.pstRunTask].timeout)
      ensures puwMsg == (if pMem == 0 then old(puwMsg) else old(puwMsg) - {tasks.pstRunTask})
      ensures pMem != 0 ==> pMem == MsgOf(old(puwMsg), tasks.pstRunTask)
      ensures pMem != 0 ==>
                pool.Live(pMem) && forall t | t in Flying(tasks.flight, MemL(q)) :: t in puwMsg && puwMsg[t] != pMem
    {
      hide WF, Kept, FinishStep, Addr;
      ghost var c, t := tasks.State(), tasks.pstRunTask;
      var timedOut := tasks.Finish();
      Resumed(puwMsg, pool.pool, pool.uwBlkSize, pool.uwBlkNum, pool.free, c, tasks.State(), q, t, timedOut);
      if timedOut {
        return 0;
      }
      pMem := puwMsg[tasks.pstRunTask];
      puwMsg := puwMsg - {tasks.pstRunTask};
    }
  }
}
