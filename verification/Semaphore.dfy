/** Counting semaphores (kernel/base/ipc/los_sem.c). */
module Semaphore {
  import opened Errno
  import opened Steps
  import opened Tasks
  import opened TaskSystem

  const COUNT_MAX: nat := 0xFFFE

  /** A control block; `life` counts how often it has been created. */
  datatype Sem = Sem(used: bool, uwSemCount: nat, life: nat)

  /** What has happened to a semaphore since it was created: posts that succeeded, and pends that have returned
      OS_OK. */
  datatype History = History(initial: nat, posts: nat, taken: nat)

  function ListOf(k: nat, s: Sem): ListId { SemL(k, s.life) }

  /** No count is lost: everything put in is in the counter, has been taken, or has been handed to a task that has not
      resumed yet; and nobody waits while there is something to take. */
  ghost predicate SemOk(s: Sem, h: History, waiters: seq<Task>, given: set<Task>)
  {
    s.used ==>
      && s.uwSemCount <= COUNT_MAX
      && (s.uwSemCount > 0 ==> waiters == [])
      && h.initial + h.posts == s.uwSemCount + h.taken + |given|
  }

  /** Lives that have not begun have left no trace. */
  ghost predicate Unborn(k: nat, s: Sem, c: Core)
  {
    forall n: nat | n > s.life :: At(c.lists, SemL(k, n)) == [] && Flying(c.flight, SemL(k, n)) == {}
  }

  ghost predicate OneOk(cbs: seq<Sem>, hist: seq<History>, c: Core, k: nat)
    requires k < |cbs| && |hist| == |cbs|
  {
    SemOk(cbs[k], hist[k], At(c.lists, ListOf(k, cbs[k])), Flying(c.flight, ListOf(k, cbs[k]))) && Unborn(k, cbs[k], c)
  }

  ghost predicate SemsOk(cbs: seq<Sem>, hist: seq<History>, c: Core)
  {
    |hist| == |cbs| && forall k | 0 <= k < |cbs| :: OneOk(cbs, hist, c, k)
  }

  /** Steps of other modules, and the tick, keep the semaphores in order. */
  lemma SemsKept(cbs: seq<Sem>, hist: seq<History>, c: Core, c': Core, mine: set<ListId>)
    requires SemsOk(cbs, hist, c) && Kept(c, c', mine) && forall o | o in mine :: !o.SemL?
    ensures SemsOk(cbs, hist, c')
  {
    forall k | 0 <= k < |cbs| ensures OneOk(cbs, hist, c', k) {
      OneKept(cbs, hist, c, c', mine, k);
    }
  }

  lemma OneKept(cbs: seq<Sem>, hist: seq<History>, c: Core, c': Core, mine: set<ListId>, k: nat)
    requires |hist| == |cbs| && k < |cbs| && OneOk(cbs, hist, c, k) && Kept(c, c', mine)
             && forall n: nat :: SemL(k, n) !in mine
    ensures OneOk(cbs, hist, c', k)
  {
    assert KeptAt(c, c', ListOf(k, cbs[k]));
    StillEmpty(At(c'.lists, ListOf(k, cbs[k])), At(c.lists, ListOf(k, cbs[k])));
    forall n: nat | n > cbs[k].life ensures At(c'.lists, SemL(k, n)) == [] && Flying(c'.flight, SemL(k, n)) == {} {
      assert KeptAt(c, c', SemL(k, n));
      StillEmpty(At(c'.lists, SemL(k, n)), At(c.lists, SemL(k, n)));
    }
  }

  /** A step on one semaphore's current life keeps the others, and the lives to come, in order. */
  lemma OthersKept(cbs: seq<Sem>, hist: seq<History>, cbs': seq<Sem>, hist': seq<History>, c: Core, c': Core, k: nat)
    requires SemsOk(cbs, hist, c) && k < |cbs| && Kept(c, c', {ListOf(k, cbs[k])})
    requires |cbs'| == |cbs| && |hist'| == |hist|
             && forall j | 0 <= j < |cbs| && j != k :: cbs'[j] == cbs[j] && hist'[j] == hist[j]
    requires cbs'[k].life == cbs[k].life
    requires SemOk(cbs'[k], hist'[k], At(c'.lists, ListOf(k, cbs[k])), Flying(c'.flight, ListOf(k, cbs[k])))
    ensures SemsOk(cbs', hist', c')
  {
    forall j | 0 <= j < |cbs'| ensures OneOk(cbs', hist', c', j) {
      assert OneOk(cbs, hist, c, j);
      if j != k {
        OneKept(cbs, hist, c, c', {ListOf(k, cbs[k])}, j);
      } else {
        forall n: nat | n > cbs[k].life ensures At(c'.lists, SemL(k, n)) == [] && Flying(c'.flight, SemL(k, n)) == {} {
          assert KeptAt(c, c', SemL(k, n));
          StillEmpty(At(c'.lists, SemL(k, n)), At(c.lists, SemL(k, n)));
        }
      }
    }
  }

  /** The list of unused blocks is empty. */
  predicate AllBusy(cbs: seq<Sem>)
  {
    forall k | 0 <= k < |cbs| :: cbs[k].used
  }

  class Semaphores {
    const tasks: TaskSystem
    var cbs: seq<Sem>               // g_pstAllSem
    ghost var hist: seq<History>

    ghost predicate Valid()
      reads this, tasks, tasks.wheel
    {
      tasks.Valid() && SemsOk(cbs, hist, tasks.State())
    }

    constructor (tasks: TaskSystem, limit: nat)
      requires tasks.Valid() && tasks.State().lists == map[] && tasks.State().flight == map[]
      ensures Valid() && this.tasks == tasks && |cbs| == limit && forall k | 0 <= k < limit :: !cbs[k].used
    {
      this.tasks := tasks;
      cbs := seq(limit, (k: nat) => Sem(false, 0, 0));
      hist := seq(limit, (k: nat) => History(0, 0, 0));
    }

    /** `LOS_SemCreate`; `k` is the head of the list of unused blocks, if there is one. */
    method SemCreate(hasHandle: bool, usCount: nat, k: nat) returns (uwRet: nat)
      requires Valid() && (AllBusy(cbs) || (k < |cbs| && !cbs[k].used))
      modifies this
      ensures Valid()
      ensures uwRet == if !hasHandle then ERRNO_SEM_PTR_NULL
                       else if usCount > COUNT_MAX then ERRNO_SEM_OVERFLOW
                       else if AllBusy(old(cbs)) then ERRNO_SEM_ALL_BUSY else OS_OK
      ensures uwRet == OS_OK ==>
                && k < |old(cbs)| == |old(hist)| && cbs == old(cbs)[k := Sem(true, usCount, old(cbs)[k].life + 1)]
                && hist == old(hist)[k := History(usCount, 0, 0)]
      ensures uwRet != OS_OK ==> cbs == old(cbs) && hist == old(hist)
    {
      if !hasHandle {
        return ERRNO_SEM_PTR_NULL;
      }
      if usCount > COUNT_MAX {
        return ERRNO_SEM_OVERFLOW;
      }
      if AllBusy(cbs) {
        return ERRNO_SEM_ALL_BUSY;
      }
      ghost var c := tasks.State();
      assert OneOk(cbs, hist, c, k);
      cbs := cbs[k := Sem(true, usCount, cbs[k].life + 1)];
      hist := hist[k := History(usCount, 0, 0)];
      forall j | 0 <= j < |cbs| ensures OneOk(cbs, hist, c, j) {
        assert OneOk(old(cbs), old(hist), c, j);
      }
      uwRet := OS_OK;
    }

    /** `LOS_SemDelete`. */
    method SemDelete(k: nat) returns (uwRet: nat)
      requires Valid()
      modifies this
      ensures Valid() && hist == old(hist)
      ensures uwRet == if k >= |old(cbs)| || !old(cbs)[k].used then ERRNO_SEM_INVALID
                       else if At(tasks.lists, ListOf(k, old(cbs)[k])) != [] then ERRNO_SEM_PENDED else OS_OK
      ensures uwRet == OS_OK ==> cbs == old(cbs)[k := old(cbs)[k].(used := false)]
      ensures uwRet != OS_OK ==> cbs == old(cbs)
    {
      if k >= |cbs| || !cbs[k].used {
        return ERRNO_SEM_INVALID;
      }
      if At(tasks.lists, ListOf(k, cbs[k])) != [] {
        return ERRNO_SEM_PENDED;
      }
      ghost var c := tasks.State();
      cbs := cbs[k := cbs[k].(used := false)];
      forall j | 0 <= j < |cbs| ensures OneOk(cbs, hist, c, j) {
        assert OneOk(old(cbs), hist, c, j);
      }
      uwRet := OS_OK;
    }

    /** `LOS_SemPend` up to `LOS_Schedule`: None when the caller is now waiting. */
    method SemPend(k: nat, uwTimeout: nat, isr: bool) returns (uwRet: Option<nat>)
      requires Valid() && (!isr ==> tasks.Running()) && uwTimeout <= WAIT_FOREVER
      modifies this, tasks`tcb, tasks`lists, tasks`out, tasks`stamp, tasks`clock, tasks.wheel
      ensures Valid()
      ensures uwRet == if k >= |old(cbs)| || !old(cbs)[k].used then Some(ERRNO_SEM_INVALID)
                       else if old(cbs)[k].uwSemCount > 0 then Some(OS_OK)
                       else if uwTimeout == 0 then Some(ERRNO_SEM_UNAVAILABLE)
                       else if isr then Some(ERRNO_SEM_PEND_INTERR)
                       else if tasks.usLosTaskLock != 0 then Some(ERRNO_SEM_PEND_IN_LOCK) else None
      ensures uwRet == Some(OS_OK) ==>
                && cbs == old(cbs)[k := old(cbs)[k].(uwSemCount := old(cbs)[k].uwSemCount - 1)]
                && hist == old(hist)[k := old(hist)[k].(taken := old(hist)[k].taken + 1)]
      ensures uwRet != Some(OS_OK) ==> cbs == old(cbs) && hist == old(hist)
      ensures uwRet.Some? ==> tasks.State() == old(tasks.State())
      ensures uwRet.None? ==>
                var id := ListOf(k, cbs[k]);
                && Kept(old(tasks.State()), tasks.State(), {id}) && SamePriorities(old(tasks.State()), tasks.State())
                && At(tasks.lists, id) == At(old(tasks.lists), id) + [tasks.pstRunTask]
                && Began(old(tasks.State()), tasks.State(), tasks.pstRunTask, Waiting(id, Plain), Timeout(uwTimeout),
                   [])
    {
      hide WF, Kept, Unborn, PendStep, Began;
      ghost var c := tasks.State();
      if k >= |cbs| || !cbs[k].used {
        return Some(ERRNO_SEM_INVALID);
      }
      assert OneOk(cbs, hist, c, k);
      KeptRefl(c, {ListOf(k, cbs[k])});
      if cbs[k].uwSemCount > 0 {
        cbs := cbs[k := cbs[k].(uwSemCount := cbs[k].uwSemCount - 1)];
        hist := hist[k := hist[k].(taken := hist[k].taken + 1)];
        OthersKept(old(cbs), old(hist), cbs, hist, c, c, k);
        return Some(OS_OK);
      }
      if uwTimeout == 0 {
        return Some(ERRNO_SEM_UNAVAILABLE);
      }
      if isr {
        return Some(ERRNO_SEM_PEND_INTERR);
      }
      if tasks.usLosTaskLock != 0 {
        return Some(ERRNO_SEM_PEND_IN_LOCK);
      }
      var id := ListOf(k, cbs[k]);
      tasks.PendTail(id, Plain, uwTimeout);
      WaitParts(c, tasks.State(), tasks.pstRunTask, id, Timeout(uwTimeout));
      OthersKept(cbs, hist, cbs, hist, c, tasks.State(), k);
      return None;
    }

    lemma WaitParts(c: Core, c': Core, t: Task, id: ListId, timeout: Option<nat>)
      requires PendStep(c, c', t, id, Plain, |At(c.lists, id)|, timeout) && t in c.tcb && c.tcb[t].ready
      ensures Kept(c, c', {id}) && SamePriorities(c, c') && Flying(c'.flight, id) == Flying(c.flight, id)
      ensures Began(c, c', t, Waiting(id, Plain), timeout, [])
    {
      AtTail(c, c', t, id, Plain, timeout);
      PendBegan(c, c', t, id, Plain, |At(c.lists, id)|, timeout);
    }

    /** The end of `LOS_SemPend` after `LOS_Schedule`. */
    method SemPendResume() returns (uwRet: nat)
      requires Valid() && tasks.pstRunTask in tasks.tcb && tasks.tcb[tasks.pstRunTask].ready
      requires tasks.tcb[tasks.pstRunTask].wait.Waiting? && tasks.tcb[tasks.pstRunTask].wait.id.SemL?
      modifies this`hist, tasks`tcb, tasks`flight
      ensures Valid() && tasks.State() == Finished(old(tasks.State()), tasks.pstRunTask)
              && SamePriorities(old(tasks.State()), tasks.State())
      ensures tasks.pstRunTask in tasks.out
      ensures uwRet == if old(tasks.tcb)[tasks.pstRunTask].timeout then ERRNO_SEM_TIMEOUT else OS_OK
      ensures uwRet == OS_OK <==> old(tasks.out)[tasks.pstRunTask] == [Given]
      ensures uwRet == ERRNO_SEM_TIMEOUT <==> old(tasks.out)[tasks.pstRunTask] == [TimedOut]
      ensures Kept(old(tasks.State()), tasks.State(), {old(tasks.tcb)[tasks.pstRunTask].wait.id})
      ensures Ended(old(tasks.State()), tasks.State(), tasks.pstRunTask, [])
      ensures var id := old(tasks.tcb)[tasks.pstRunTask].wait.id;
              hist == if !old(tasks.tcb)[tasks.pstRunTask].timeout && id.s < |cbs| && cbs[id.s].life == id.life
                      then old(hist)[id.s := old(hist)[id.s].(taken := old(hist)[id.s].taken + 1)] else old(hist)
    {
      hide WF, Kept, Unborn;
      ghost var c, t := tasks.State(), tasks.pstRunTask;
      ghost var id := tasks.tcb[t].wait.id;
      assert TcbOk(c.tcb[t]) by { tasks.TcbFacts(t); }
      FinishedKept(c, t);
      FinishedEffect(c, t);
      GivenIsFlying(c, t);
      var timedOut := tasks.Finish();
      FinishEnded(c, tasks.State(), t, timedOut);
      if !timedOut && id.s < |cbs| && cbs[id.s].life == id.life {
        hist := hist[id.s := hist[id.s].(taken := hist[id.s].taken + 1)];
      }
      ResumeKeeps(old(hist), c, t);
      uwRet := if timedOut then ERRNO_SEM_TIMEOUT else OS_OK;
    }

    lemma GivenIsFlying(c: Core, t: Task)
      requires WF(c) && t in c.tcb && c.tcb[t].wait.Waiting? && !Blocked(c.tcb[t])
      ensures t in Flying(c.flight, c.tcb[t].wait.id) <==> !c.tcb[t].timeout
    {
      assert Flights(c.tcb, c.flight);
    }

    lemma ResumeKeeps(hist0: seq<History>, c: Core, t: Task)
      requires SemsOk(cbs, hist0, c) && t in c.tcb && c.tcb[t].wait.Waiting? && c.tcb[t].wait.id.SemL?
      requires var id := c.tcb[t].wait.id;
               && Kept(c, tasks.State(), {id}) && At(tasks.lists, id) == At(c.lists, id)
               && Flying(tasks.flight, id) == Flying(c.flight, id) - {t}
                  && (t in Flying(c.flight, id) <==> !c.tcb[t].timeout)
               && hist == (if !c.tcb[t].timeout && id.s < |cbs| && cbs[id.s].life == id.life
                           then hist0[id.s := hist0[id.s].(taken := hist0[id.s].taken + 1)] else hist0)
      ensures SemsOk(cbs, hist, tasks.State())
    {
      var id := c.tcb[t].wait.id;
      var c' := tasks.State();
      if id.s < |cbs| && cbs[id.s].life == id.life {
        assert OneOk(cbs, hist0, c, id.s);
        OthersKept(cbs, hist0, cbs, hist, c, c', id.s);
      } else {
        forall k | 0 <= k < |cbs| ensures OneOk(cbs, hist0, c', k) {
          assert OneOk(cbs, hist0, c, k);
          OldLife(hist0, c, c', id, k);
        }
      }
    }

    /** A resumed call of an earlier life. */
    lemma OldLife(hist0: seq<History>, c: Core, c': Core, id: ListId, k: nat)
      requires |hist0| == |cbs| && k < |cbs| && OneOk(cbs, hist0, c, k) && Kept(c, c', {id}) && id.SemL?
               && (id.s == k ==> id.life != cbs[k].life)
      requires At(c'.lists, id) == At(c.lists, id) && Flying(c'.flight, id) <= Flying(c.flight, id)
      ensures OneOk(cbs, hist0, c', k)
    {
      assert KeptAt(c, c', ListOf(k, cbs[k]));
      StillEmpty(At(c'.lists, ListOf(k, cbs[k])), At(c.lists, ListOf(k, cbs[k])));
      forall n: nat | n > cbs[k].life ensures At(c'.lists, SemL(k, n)) == [] && Flying(c'.flight, SemL(k, n)) == {} {
        if SemL(k, n) != id {
          assert KeptAt(c, c', SemL(k, n));
          StillEmpty(At(c'.lists, SemL(k, n)), At(c.lists, SemL(k, n)));
        }
      }
    }

    /** `LOS_SemPost`: the task that came first gets the count, without a detour through the counter. */
    method SemPost(k: nat) returns (uwRet: nat, ghost woken: Option<Task>)
      requires Valid()
      modifies this, tasks`tcb, tasks`lists, tasks`flight, tasks`out, tasks.wheel
      ensures Valid() && SamePriorities(old(tasks.State()), tasks.State())
      ensures Calm(old(tasks.State()), tasks.State(), Only(woken), [])
      ensures uwRet == if k >= |old(cbs)| || !old(cbs)[k].used then ERRNO_SEM_INVALID
                       else if old(cbs)[k].uwSemCount == COUNT_MAX then ERRNO_SEM_OVERFLOW else OS_OK
      ensures uwRet != OS_OK ==>
                cbs == old(cbs) && hist == old(hist) && tasks.State() == old(tasks.State()) && woken.None?
      ensures uwRet == OS_OK ==>
                var id := ListOf(k, old(cbs)[k]);
                && (woken.None? <==> At(old(tasks.lists), id) == [])
                && hist == old(hist)[k := old(hist)[k].(posts := old(hist)[k].posts + 1)]
                && Kept(old(tasks.State()), tasks.State(), {id})
      ensures uwRet == OS_OK && woken.None? ==>
                cbs == old(cbs)[k := old(cbs)[k].(uwSemCount := old(cbs)[k].uwSemCount + 1)]
                  && tasks.State() == old(tasks.State())
      ensures woken.Some? ==>
                var id, w := ListOf(k, old(cbs)[k]), woken.value;
                && cbs == old(cbs) && w in old(tasks.tcb) && old(tasks.tcb)[w].wait.Waiting?
                   && tasks.State() == Woken(old(tasks.State()), w)
                && At(old(tasks.lists), id) != [] && w == At(old(tasks.lists), id)[0]
                && forall u | u in At(old(tasks.lists), id) ::
                     StampOf(old(tasks.stamp), w) <= StampOf(old(tasks.stamp), u)
    {
      hide WF, Kept, Unborn, Calm, WakeStep;
      woken := None;
      ghost var c := tasks.State();
      CalmRefl(c);
      if k >= |cbs| || !cbs[k].used {
        return ERRNO_SEM_INVALID, None;
      }
      assert OneOk(cbs, hist, c, k);
      if cbs[k].uwSemCount == COUNT_MAX {
        return ERRNO_SEM_OVERFLOW, None;
      }
      var id := ListOf(k, cbs[k]);
      hist := hist[k := hist[k].(posts := hist[k].posts + 1)];
      if At(tasks.lists, id) != [] {
        var w := At(tasks.lists, id)[0];
        assert w in At(tasks.lists, id);
        HeadCameFirst(c, id);
        tasks.Wake(w, id);
        WokenKept(c, w, id);
        WokenEffect(c, w, id);
        WokenStep(c, w, id);
        WakeCalm(c, tasks.State(), w, id);
        woken := Some(w);
      } else {
        cbs := cbs[k := cbs[k].(uwSemCount := cbs[k].uwSemCount + 1)];
        KeptRefl(c, {id});
      }
      OthersKept(old(cbs), old(hist), cbs, hist, c, tasks.State(), k);
      uwRet := OS_OK;
    }
  }
}
