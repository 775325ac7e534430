/** The task module as steps on shared state (kernel/base/core/los_task.c, los_priqueue.c): each section between
    `LOS_IntLock` and `LOS_IntRestore` is one method, and `LOS_Schedule` is a step of its own. */
module TaskSystem {
  import opened DeltaList
  import opened Errno
  import opened Steps
  import opened Tasks
  import Wheel

  const WAIT_FOREVER: nat := 0xFFFF_FFFF
  const PRIORITY_LOWEST: nat := 31

  function Timeout(uwTimeout: nat): Option<nat>
  {
    if uwTimeout == WAIT_FOREVER then None else Some(uwTimeout)
  }

  /** The task has the new bits.  If it was or is ready, it stands at the tail of its priority, or in no list; otherwise
      its place and its timer are as before. */
  ghost predicate Settled(c: Core, c': Core, t: Task, x: Tcb)
  {
    t in c.tcb && c'.tcb == c.tcb[t := x]
      && c' == if c.tcb[t].ready || x.ready then Replaced(c, t, x) else Amended(c, t, x)
  }

  /** New bits that keep the call, or a task that is new. */
  lemma OneChanged(c: Core, c': Core, t: Task, x: Tcb)
    requires c'.tcb == c.tcb[t := x]
    requires if t in c.tcb then StageOf(x) == StageOf(c.tcb[t]) && x.wait == c.tcb[t].wait else x.wait.NoWait?
    ensures CallsStay(c, c', {}, []) && Suspension(c, c', map[t := x.suspend])
    ensures (if t in c.tcb then x.suspend == c.tcb[t].suspend else !x.suspend) ==> Suspension(c, c', map[])
  {
    hide StageOf;
  }

  /** New bits that keep the call: a task that was or is ready goes to the end of its ready list, or leaves it. */
  lemma SettledTurned(c: Core, c': Core, t: Task, x: Tcb)
    requires WF(c) && Settled(c, c', t, x) && TcbOk(x) && StageOf(x) == StageOf(c.tcb[t]) && x.wait == c.tcb[t].wait
    ensures Turned(c, c', t, x.suspend) && OnePriority(c, c', t, x.usPriority)
  {
    OneChanged(c, c', t, x);
    if c.tcb[t].ready || x.ready {
      StageReady(c, t, x);
      ReplacedLined(c, t, x);
    } else {
      AmendedLined(c, t, x);
    }
    hide WF, Relocated, Lined, CallsStay, Suspension, TcbOk, StageOf;
  }

  lemma StageReady(c: Core, t: Task, x: Tcb)
    requires WF(c) && t in c.tcb && (c.tcb[t].ready || x.ready) && TcbOk(x) && StageOf(x) == StageOf(c.tcb[t])
             && x.wait == c.tcb[t].wait
    ensures !Blocked(x)
  {
    BitsAt(c.tcb, t);
    hide WF;
  }

  /** ... and if they keep the suspend bit, too, that is all that happens. */
  lemma SettledCalm(c: Core, c': Core, t: Task, x: Tcb)
    requires WF(c) && Settled(c, c', t, x) && TcbOk(x) && StageOf(x) == StageOf(c.tcb[t]) && x.wait == c.tcb[t].wait
    requires x.suspend == c.tcb[t].suspend
    ensures Calm(c, c', [], [t]) && OnePriority(c, c', t, x.usPriority)
  {
    SettledTurned(c, c', t, x);
    TurnedCalm(c, c', t);
    hide *;
  }

  lemma TurnedCalm(c: Core, c': Core, t: Task)
    requires t in c.tcb && Turned(c, c', t, c.tcb[t].suspend)
    ensures Calm(c, c', [], [t])
  {
    NoMembers();
    assert Members([t]) == {t} && [t] + [] == [t] && c.rem - {} == c.rem;
    hide Lined, StageOf, Members;
  }

  lemma ReplacedCalm(c: Core, t: Task, x: Tcb)
    requires WF(c) && TcbOk(x) && !Blocked(x)
    requires if t in c.tcb then x.wait == c.tcb[t].wait && StageOf(x) == StageOf(c.tcb[t])
               && x.suspend == c.tcb[t].suspend else x.wait.NoWait? && !x.suspend
    ensures Calm(c, Replaced(c, t, x), [], [t])
  {
    ReplacedLined(c, t, x);
    OneChanged(c, Replaced(c, t, x), t, x);
    NoMembers();
    assert Members([t]) == {t} && [t] + [] == [t] && c.rem - {} == c.rem;
    hide WF, Relocated, Lined, CallsStay, Suspension, TcbOk, StageOf, Members;
  }

  /** The task that `LOS_PriqueueTop` finds: the first one of the most urgent ready ones. */
  ghost predicate MostUrgent(c: Core, t: Task)
  {
    && t in c.tcb && c.tcb[t].ready
    && (var l := At(c.lists, Ready(c.tcb[t].usPriority)); l != [] && l[0] == t)
    && forall u | u in c.tcb && c.tcb[u].ready :: c.tcb[t].usPriority <= c.tcb[u].usPriority
  }

  class TaskSystem {
    const wheel: Wheel.TimerWheel
    const idle: Task
    const swtmr: Task
    const maxNum: nat
    var tcb: map<Task, Tcb>                  // the task control blocks in use
    var lists: map<ListId, seq<Task>>        // every list that stPendList can be linked to
    var pstRunTask: Task
    var usLosTaskLock: nat
    ghost var flight: map<ListId, set<Task>>
    ghost var out: map<Task, seq<Outcome>>
    ghost var stamp: map<Task, nat>
    ghost var clock: nat
    ghost var base: map<Task, nat>           // the priority that a task was created with, or last given explicitly

    ghost function State(): Core
      reads this, wheel
    {
      Core(tcb, lists, wheel.rem, flight, out, stamp, clock)
    }

    ghost predicate Valid()
      reads this, wheel
    {
      wheel.Valid() && WF(State())
    }

    constructor (idle: Task, swtmr: Task, maxNum: nat)
      ensures Valid() && State() == Core(map[], map[], map[], map[], map[], map[], 0) && fresh(wheel) && base == map[]
    {
      wheel := new Wheel.TimerWheel();
      this.idle, this.swtmr, this.maxNum := idle, swtmr, maxNum;
      tcb, lists, flight, out, stamp, clock := map[], map[], map[], map[], map[], 0;
      pstRunTask, usLosTaskLock := idle, 0;
      base := map[];
    }

    // -------------------------------------------------------------- the ready queue

    /** `LOS_PriqueueEnqueue`. */
    method PriqueueEnqueue(t: Task, uwPri: nat)
      modifies this`lists
      ensures lists == old(lists)[Ready(uwPri) := Inserted(At(old(lists), Ready(uwPri)), |At(old(lists), Ready(uwPri))|,
              t)]
    {
      assert At(lists, Ready(uwPri)) + [t] == Inserted(At(lists, Ready(uwPri)), |At(lists, Ready(uwPri))|, t);
      lists := lists[Ready(uwPri) := At(lists, Ready(uwPri)) + [t]];
    }

    /** `LOS_PriqueueDequeue`, and `LOS_ListDelete` of a pend link. */
    method Unlink(t: Task, id: ListId)
      requires t in At(lists, id)
      modifies this`lists
      ensures lists == old(lists)[id := Without(At(old(lists), id), t)]
    {
      lists := lists[id := Removed(At(lists, id), IndexOf(At(lists, id), t))];
    }

    /** `LOS_PriqueueTop`: the first task of the most urgent non-empty priority. */
    method PriqueueTop() returns (top: Option<Task>)
      requires Valid()
      ensures top.None? ==> forall t | t in tcb :: !tcb[t].ready
      ensures top.Some? ==> MostUrgent(State(), top.value)
    {
      var uwPri := 0;
      assert Placed(tcb, lists) && Bits(tcb);
      while uwPri < PRIORITIES
        invariant uwPri <= PRIORITIES && forall p: nat | p < uwPri :: At(lists, Ready(p)) == []
      {
        if At(lists, Ready(uwPri)) != [] {
          var t := At(lists, Ready(uwPri))[0];
          assert t in At(lists, Ready(uwPri));
          forall u | u in tcb && tcb[u].ready ensures tcb[t].usPriority <= tcb[u].usPriority {
            assert u in At(lists, Ready(tcb[u].usPriority));
          }
          return Some(t);
        }
        uwPri := uwPri + 1;
      }
      forall t | t in tcb ensures !tcb[t].ready {
        BitsAt(tcb, t);
        var p := tcb[t].usPriority;
        assert Where(tcb[t]) == Some(Ready(p)) ==> t in At(lists, Ready(p));
      }
      return None;
    }

    /** `LOS_Schedule`: unless scheduling is locked, the most urgent ready task runs. */
    method Schedule()
      requires Valid()
      modifies this`pstRunTask
      ensures Valid() && State() == old(State())
      ensures usLosTaskLock == 0 && (exists t :: t in tcb && tcb[t].ready) ==> MostUrgent(State(), pstRunTask)
      ensures usLosTaskLock != 0 || (forall t | t in tcb :: !tcb[t].ready) ==> pstRunTask == old(pstRunTask)
    {
      var pstNewTask := PriqueueTop();
      if usLosTaskLock == 0 && pstNewTask.Some? {
        pstRunTask := pstNewTask.value;
      }
    }

    /** A task is in the middle of its own code: it runs, and it is not inside a blocking call. */
    predicate Running()
      reads this
    {
      pstRunTask in tcb && tcb[pstRunTask].ready && tcb[pstRunTask].wait.NoWait?
    }

    // -------------------------------------------------------------- what the protocols are made of

    /** The statements of a pend: out of the ready queue, onto place `p` of a wait list, and on the timer list unless
        the call waits forever. */
    method PendStores(t: Task, id: ListId, call: Call, p: nat, uwTimeout: nat)
      requires t in tcb && t in At(lists, Ready(tcb[t].usPriority)) && t !in wheel.rem && wheel.Valid()
               && 0 < uwTimeout <= WAIT_FOREVER
      requires !tcb[t].pend && !tcb[t].pendQueue && !tcb[t].timeout && !id.Ready? && p <= |At(lists, id)|
      modifies this`tcb, this`lists, wheel
      ensures wheel.Valid() && tcb == old(tcb)[t := PendTcb(old(tcb)[t], id, call, Timeout(uwTimeout).Some?)]
      ensures lists == Relocated(old(lists), Some(Ready(old(tcb)[t].usPriority)), Some(id), p, t)
      ensures wheel.rem == if Timeout(uwTimeout).Some? then old(wheel.rem)[t := uwTimeout] else old(wheel.rem)
    {
      hide Wheel.TimerWheel.Valid, Without, Inserted;
      var x := tcb[t];
      Unlink(t, Ready(x.usPriority));
      x := x.(ready := false, wait := Waiting(id, call));
      if IsQueue(id) {
        x := x.(pendQueue := true);
      } else {
        x := x.(pend := true);
      }
      lists := lists[id := Inserted(At(lists, id), p, t)];
      if uwTimeout != WAIT_FOREVER {
        x := x.(timeout := true);
        wheel.Add(t, uwTimeout);
      }
      tcb := tcb[t := x];
    }

    /** The pend part of a blocking call. */
    method PendOn(id: ListId, call: Call, p: nat, uwTimeout: nat)
      requires Valid() && Running() && !id.Ready? && 0 < uwTimeout <= WAIT_FOREVER
      requires p <= |At(lists, id)| && (IsFifo(id) ==> p == |At(lists, id)|)
      modifies this`tcb, this`lists, this`out, this`stamp, this`clock, wheel
      ensures Valid() && State() == Pended(old(State()), pstRunTask, id, call, p, Timeout(uwTimeout))
    {
      hide WF, Relocated, TcbOk, At, Where, PendTcb, Running, IsQueue, IsFifo;
      ghost var c, t := State(), pstRunTask;
      RunFacts();
      PendedWF(c, t, id, call, p, Timeout(uwTimeout));
      PendStores(pstRunTask, id, call, p, uwTimeout);
      out := out[t := []];
      if IsFifo(id) {
        stamp, clock := stamp[t := clock + 1], clock + 1;
      }
      assert State() == Pended(c, t, id, call, p, Timeout(uwTimeout));
    }

    lemma RunFacts()
      requires Valid() && Running()
      ensures pstRunTask in tcb && tcb[pstRunTask].ready && tcb[pstRunTask].wait.NoWait?
      ensures TcbOk(tcb[pstRunTask]) && Where(tcb[pstRunTask]) == Some(Ready(tcb[pstRunTask].usPriority))
      ensures pstRunTask in At(lists, Ready(tcb[pstRunTask].usPriority)) && pstRunTask !in wheel.rem
      ensures !tcb[pstRunTask].pend && !tcb[pstRunTask].pendQueue && !tcb[pstRunTask].timeout
    {
      BitsAt(tcb, pstRunTask);
    }

    /** The statements of a waker: take a waiter off its list and make it ready unless it is suspended. */
    method WakeStores(t: Task, id: ListId)
      requires t in tcb && t in At(lists, id) && !id.Ready? && wheel.Valid() && (tcb[t].timeout <==> t in wheel.rem)
      requires !tcb[t].ready && (IsQueue(id) ==> !tcb[t].pend) && (!IsQueue(id) ==> !tcb[t].pendQueue)
      modifies this`tcb, this`lists, wheel
      ensures wheel.Valid() && wheel.rem == old(wheel.rem) - {t} && tcb == old(tcb)[t := WakeTcb(old(tcb)[t])]
      ensures var x := WakeTcb(old(tcb)[t]);
              lists == Relocated(old(lists), Some(id), if x.ready then Some(Ready(x.usPriority))
                else None, Tail(old(lists), x), t)
    {
      var x := tcb[t];
      Unlink(t, id);
      if IsQueue(id) {
        x := x.(pendQueue := false);
      } else {
        x := x.(pend := false);
      }
      if x.timeout {
        wheel.Delete(t);
        x := x.(timeout := false);
      } else {
        assert wheel.rem - {t} == wheel.rem;
      }
      if !x.suspend {
        x := x.(ready := true);
        PriqueueEnqueue(t, x.usPriority);
      }
      tcb := tcb[t := x];
    }

    /** The waker's part of a hand-over. */
    method Wake(t: Task, id: ListId)
      requires Valid() && t in At(lists, id) && !id.Ready?
      modifies this`tcb, this`lists, this`flight, this`out, wheel
      ensures t in old(tcb) && old(tcb)[t].wait.Waiting? && old(tcb)[t].wait.id == id
      ensures Valid() && State() == Woken(old(State()), t)
    {
      hide WF, Relocated, TcbOk, At, Where, WakeTcb, Tail, Flying, Blocked, IsQueue, IsFifo;
      ghost var c := State();
      BlockedOnList(c, t, id);
      WokenWF(c, t, id);
      WokenPlace(c.tcb[t]);
      WaitKind(c.tcb[t]);
      WakeStores(t, id);
      flight := flight[id := Flying(flight, id) + {t}];
      out := out[t := (if t in out then out[t] else []) + [Given]];
      assert State() == Woken(c, t);
    }

    lemma WokenPlace(x: Tcb)
      ensures WakeTcb(x).usPriority == x.usPriority
      ensures Where(WakeTcb(x)) == if WakeTcb(x).ready then Some(Ready(x.usPriority)) else None
    {
    }

    lemma WaitKind(x: Tcb)
      requires TcbOk(x) && Blocked(x) && x.wait.Waiting?
      ensures !x.ready && (IsQueue(x.wait.id) ==> !x.pend) && (!IsQueue(x.wait.id) ==> !x.pendQueue)
    {
    }

    /** The pend part of a call that waits in order of arrival. */
    method PendTail(id: ListId, call: Call, uwTimeout: nat)
      requires Valid() && Running() && IsFifo(id) && 0 < uwTimeout <= WAIT_FOREVER
      modifies this`tcb, this`lists, this`out, this`stamp, this`clock, wheel
      ensures Valid() && PendStep(old(State()), State(), pstRunTask, id, call, |At(old(lists), id)|, Timeout(uwTimeout))
      ensures At(lists, id) == At(old(lists), id) + [pstRunTask]
    {
      hide WF, PendStep, Pended, Running;
      ghost var c := State();
      RunFacts();
      PendedStep(c, pstRunTask, id, call, |At(lists, id)|, Timeout(uwTimeout));
      PendOn(id, call, |At(lists, id)|, uwTimeout);
      AtTail(c, State(), pstRunTask, id, call, Timeout(uwTimeout));
    }

    /** `osQueuePend`: wait on a queue in front of the first task that is less urgent. */
    method QueuePend(id: ListId, call: Call, uwTimeOut: nat) returns (p: nat)
      requires Valid() && Running() && IsQueue(id) && 0 < uwTimeOut <= WAIT_FOREVER
      modifies this`tcb, this`lists, this`out, this`stamp, this`clock, wheel
      ensures Valid() && PendStep(old(State()), State(), pstRunTask, id, call, p, Timeout(uwTimeOut))
      ensures p <= |At(old(lists), id)| && FirstLessUrgent(old(State()), At(old(lists), id), pstRunTask, p)
      ensures pstRunTask in old(tcb) && State() == Pended(old(State()), pstRunTask, id, call, p, Timeout(uwTimeOut))
    {
      hide WF, PendStep, Pended, Running, FirstLessUrgent;
      ghost var c := State();
      RunFacts();
      p := PlaceFor(id);
      PendedStep(c, pstRunTask, id, call, p, Timeout(uwTimeOut));
      PendOn(id, call, p, uwTimeOut);
    }

    /** The walk of `osQueuePend`. */
    method PlaceFor(id: ListId) returns (p: nat)
      requires Valid() && pstRunTask in tcb && !id.Ready?
      ensures p <= |At(lists, id)| && FirstLessUrgent(State(), At(lists, id), pstRunTask, p)
    {
      WaitersThere(State(), id);
      hide WF;
      p := 0;
      while p < |At(lists, id)|
        invariant p <= |At(lists, id)|
        invariant forall i | 0 <= i < p :: PriorityOf(State(), At(lists, id)[i]) <= PriorityOf(State(), pstRunTask)
      {
        assert At(lists, id)[p] in At(lists, id);
        if tcb[pstRunTask].usPriority < tcb[At(lists, id)[p]].usPriority {
          return;
        }
        p := p + 1;
      }
    }

    /** Wake the first waiter. */
    method WakeFirst(id: ListId) returns (t: Task)
      requires Valid() && At(lists, id) != [] && !id.Ready?
      modifies this`tcb, this`lists, this`flight, this`out, wheel
      ensures Valid() && t == At(old(lists), id)[0] && WakeStep(old(State()), State(), t, id)
    {
      hide WF, WakeStep;
      t := At(lists, id)[0];
      WakeWaiter(t, id);
    }

    /** Wake one waiter. */
    method WakeWaiter(t: Task, id: ListId)
      requires Valid() && t in At(lists, id) && !id.Ready?
      modifies this`tcb, this`lists, this`flight, this`out, wheel
      ensures Valid() && WakeStep(old(State()), State(), t, id)
    {
      hide WF, WakeStep, Woken;
      WokenStep(State(), t, id);
      Wake(t, id);
    }

    /** The end of a blocking call: was the timeout bit left standing by the tick? */
    method Finish() returns (timedOut: bool)
      requires Valid() && pstRunTask in tcb && tcb[pstRunTask].ready && tcb[pstRunTask].wait.Waiting?
      modifies this`tcb, this`flight
      ensures Valid() && State() == Finished(old(State()), pstRunTask)
      ensures pstRunTask in out && out[pstRunTask] == [if timedOut then TimedOut else Given]
      ensures timedOut == old(tcb)[pstRunTask].timeout
      ensures FinishStep(old(State()), State(), pstRunTask, timedOut)
    {
      ghost var c, t := State(), pstRunTask;
      ghost var id := tcb[t].wait.id;
      assert TcbOk(tcb[t]) && Resolved(tcb, out);
      FinishedWF(c, t);
      FinishedStep(c, t);
      hide FinishStep;
      timedOut := tcb[pstRunTask].timeout;
      tcb := tcb[pstRunTask := tcb[pstRunTask].(timeout := false, wait := NoWait)];
      flight := flight[id := Flying(flight, id) - {t}];
    }

    // -------------------------------------------------------------- the task interface

    /** The stores of a task that leaves or joins the ready queue. */
    method ReplaceStores(t: Task, x: Tcb)
      requires t in tcb && tcb[t].ready ==> t in At(lists, Ready(tcb[t].usPriority))
      requires x.ready && !(t in tcb && tcb[t].ready && tcb[t].usPriority == x.usPriority) ==>
                 Without(At(lists, Ready(x.usPriority)), t) == At(lists, Ready(x.usPriority))
      modifies this`tcb, this`lists
      ensures tcb == old(tcb)[t := x]
      ensures lists == Relocated(old(lists), PlainPlace(old(tcb), t), ReadyPlace(x),
                                 if x.ready then |Without(At(old(lists), Ready(x.usPriority)), t)| else 0, t)
    {
      hide Without, Inserted;
      if t in tcb && tcb[t].ready {
        Unlink(t, Ready(tcb[t].usPriority));
      }
      tcb := tcb[t := x];
      if x.ready {
        PriqueueEnqueue(t, x.usPriority);
      }
    }

    function ReadyPlace(x: Tcb): Option<ListId> { if x.ready then Some(Ready(x.usPriority)) else None }

    function PlainPlace(tcb: map<Task, Tcb>, t: Task): Option<ListId> { if t in tcb then ReadyPlace(tcb[t]) else None }

    lemma NotWaiting(x: Tcb)
      requires !Blocked(x)
      ensures Where(x) == ReadyPlace(x)
    {
    }

    /** Give a task that is on no wait list new bits, at the tail of the ready queue if it is ready. */
    method Replace(t: Task, x: Tcb)
      requires Valid() && TcbOk(x) && !Blocked(x) && !x.delay && (t in tcb ==> !Blocked(tcb[t]) && !tcb[t].delay)
      requires if t in tcb then x.wait == tcb[t].wait && x.timeout == tcb[t].timeout else x.wait == NoWait
      modifies this`tcb, this`lists
      ensures Valid() && State() == Replaced(old(State()), t, x) && Kept(old(State()), State(), {})
              && tcb == old(tcb)[t := x]
    {
      hide WF, Without, Inserted, Placed, TcbOk, Relocated, Where, At, Blocked, Kept;
      ghost var c := State();
      ReplacedWF(c, t, x);
      ReplacedKept(c, t, x);
      ReplaceFacts(t, x);
      NotWaiting(x);
      if t in tcb { NotWaiting(tcb[t]); }
      ReplaceStores(t, x);
      assert State() == Replaced(c, t, x);
    }

    lemma ReplaceFacts(t: Task, x: Tcb)
      requires Valid() && !Blocked(x) && (t in tcb ==> !Blocked(tcb[t]))
      ensures t in tcb && tcb[t].ready ==> t in At(lists, Ready(tcb[t].usPriority))
      ensures x.ready && !(t in tcb && tcb[t].ready && tcb[t].usPriority == x.usPriority) ==>
                Without(At(lists, Ready(x.usPriority)), t) == At(lists, Ready(x.usPriority))
    {
      assert Placed(tcb, lists);
    }

    /** New bits in place. */
    method Amend(t: Task, x: Tcb)
      requires Valid() && t in tcb && TcbOk(x) && Where(x) == Where(tcb[t]) && Blocked(x) == Blocked(tcb[t])
               && x.delay == tcb[t].delay
      requires x.wait == tcb[t].wait && x.timeout == tcb[t].timeout
      modifies this`tcb
      ensures Valid() && State() == Amended(old(State()), t, x) && Kept(old(State()), State(), {})
              && tcb == old(tcb)[t := x]
    {
      hide WF, Kept, Where, TcbOk;
      AmendedWF(State(), t, x);
      AmendedKept(State(), t, x);
      tcb := tcb[t := x];
    }

    /** `osTaskPriModify`. */
    method PriModify(t: Task, usPriority: nat)
      requires Valid() && t in tcb && usPriority <= PRIORITY_LOWEST
      modifies this`tcb, this`lists
      ensures Valid() && Settled(old(State()), State(), t, old(tcb)[t].(usPriority := usPriority))
      ensures Kept(old(State()), State(), {}) && forall o: ListId | !o.Ready? :: SameWait(old(State()), State(), o)
      ensures tcb == old(tcb)[t := old(tcb)[t].(usPriority := usPriority)]
      ensures old(tcb)[t].ready ==>
                && At(lists, Ready(usPriority)) == Without(At(old(lists), Ready(usPriority)), t) + [t]
                && forall q: nat | q != usPriority :: At(lists, Ready(q)) == Without(At(old(lists), Ready(q)), t)
      ensures Calm(old(State()), State(), [], [t])
    {
      TcbFacts(t);
      var x := tcb[t].(usPriority := usPriority);
      hide WF, Kept, Relocated, Calm, At, Without;
      ghost var c := State();
      if tcb[t].ready {
        ReplacedEffect(State(), t, x);
        Replace(t, x);
      } else {
        Amend(t, x);
      }
      Reprioritised(c, State(), t, usPriority);
    }

    lemma TcbFacts(t: Task)
      requires Valid() && t in tcb
      ensures TcbOk(tcb[t])
    {
      BitsAt(tcb, t);
    }

    /** `LOS_TaskDelay`. */
    method TaskDelay(uwTick: nat, isr: bool) returns (uwRet: nat)
      requires Valid() && (!isr ==> Running()) && uwTick < WAIT_FOREVER + 1
      modifies this`tcb, this`lists, wheel
      ensures Valid() && Kept(old(State()), State(), {}) && SamePriorities(old(State()), State())
      ensures isr ==> uwRet == ERRNO_TSK_DELAY_IN_INT
      ensures !isr && usLosTaskLock != 0 ==> uwRet == ERRNO_TSK_DELAY_IN_LOCK
      ensures !isr && usLosTaskLock == 0 && uwTick > 0 ==>
                uwRet == OS_OK && State() == Delayed(old(State()), pstRunTask, uwTick)
      ensures isr || usLosTaskLock != 0 ==> State() == old(State())
      ensures !isr && usLosTaskLock == 0 && uwTick == 0 ==>
                && tcb == old(tcb)
                && uwRet == (if pstRunTask >= maxNum then ERRNO_TSK_ID_INVALID
                             else if |At(old(lists), Ready(tcb[pstRunTask].usPriority))| > 1 then OS_OK
                               else ERRNO_TSK_YIELD_NOT_ENOUGH_TASK)
                && State() == (if uwRet == OS_OK then Replaced(old(State()), pstRunTask, tcb[pstRunTask])
                   else old(State()))
      ensures if !isr && usLosTaskLock == 0 && uwTick > 0 then Slept(old(State()), State(), pstRunTask, uwTick)
              else Calm(old(State()), State(), [], if uwRet == OS_OK then [pstRunTask] else [])
    {
      hide WF, Kept, Relocated, Calm, Slept;
      KeptRefl(State(), {});
      CalmRefl(State());
      if isr {
        return ERRNO_TSK_DELAY_IN_INT;
      }
      if usLosTaskLock != 0 {
        return ERRNO_TSK_DELAY_IN_LOCK;
      }
      if uwTick == 0 {
        uwRet := TaskYield();
        return;
      }
      ghost var c := State();
      DelayedWF(c, pstRunTask, uwTick);
      RunFacts();
      var x := tcb[pstRunTask];
      Unlink(pstRunTask, Ready(x.usPriority));
      x := x.(ready := false);
      wheel.Add(pstRunTask, uwTick);
      x := x.(delay := true);
      tcb := tcb[pstRunTask := x];
      DelayedForm(c, pstRunTask, uwTick);
      DelayedSlept(c, pstRunTask, uwTick);
      assert State() == Delayed(c, pstRunTask, uwTick);
      uwRet := OS_OK;
    }

    lemma DelayedForm(c: Core, t: Task, uwTick: nat)
      requires t in c.tcb && c.tcb[t].ready
      ensures var id := Ready(c.tcb[t].usPriority);
              Delayed(c, t, uwTick).lists == c.lists[id := Without(At(c.lists, id), t)]
    {
    }

    lemma DelayedSlept(c: Core, t: Task, uwTick: nat)
      requires WF(c) && t in c.tcb && c.tcb[t].ready
      ensures Slept(c, Delayed(c, t, uwTick), t, uwTick)
    {
      DelayedLined(c, t, uwTick);
      NotStarted(c, t);
      OneChanged(c, Delayed(c, t, uwTick), t, DelayTcb(c.tcb[t]));
      hide WF, Relocated, Lined, CallsStay, Suspension, StageOf;
    }

    lemma NotStarted(c: Core, t: Task)
      requires WF(c) && t in c.tcb && c.tcb[t].ready
      ensures !Blocked(c.tcb[t])
    {
      BitsAt(c.tcb, t);
    }

    /** One task goes to the end of a ready list, the others keep their order. */
    lemma AtTheEndOf(c: Core, c': Core, t: Task, p: nat)
      requires WF(c) && Calm(c, c', [], [t]) && ReadyAt(c'.tcb, t, p)
      ensures At(c'.lists, Ready(p)) == Without(At(c.lists, Ready(p)), t) + [t]
      ensures forall q: nat | q != p :: At(c'.lists, Ready(q)) == Without(At(c.lists, Ready(q)), t)
    {
      assert [t] + [] == [t] && Members([t]) == {t} && Lined(c, c', {t}, [t]);
      hide WF, Without, At, Calm, ReadyAt;
      forall q: nat ensures At(c'.lists, Ready(q)) == Without(At(c.lists, Ready(q)), t) + if q == p then [t] else [] {
        ReadyListed(c, t, q);
        LessOne(At(c.lists, Ready(q)), t);
        JoiningLast(c'.tcb, [], t, q);
        assert [] + [t] == [t];
      }
    }

    /** `LOS_TaskYield`: to the tail of its own priority, if somebody else is there. */
    method TaskYield() returns (uwRet: nat)
      requires Valid() && Running()
      modifies this`tcb, this`lists
      ensures Valid() && Kept(old(State()), State(), {}) && tcb == old(tcb)
      ensures uwRet == if pstRunTask >= maxNum then ERRNO_TSK_ID_INVALID
                       else if |At(old(lists), Ready(tcb[pstRunTask].usPriority))| > 1 then OS_OK
                         else ERRNO_TSK_YIELD_NOT_ENOUGH_TASK
      ensures uwRet == OS_OK ==> State() == Replaced(old(State()), pstRunTask, tcb[pstRunTask])
      ensures uwRet != OS_OK ==> State() == old(State())
      ensures uwRet == OS_OK ==>
                var p := tcb[pstRunTask].usPriority;
                && At(lists, Ready(p)) == Without(At(old(lists), Ready(p)), pstRunTask) + [pstRunTask]
                && forall q: nat | q != p :: At(lists, Ready(q)) == At(old(lists), Ready(q))
      ensures Calm(old(State()), State(), [], if uwRet == OS_OK then [pstRunTask] else [])
    {
      hide WF, Kept, Relocated, Calm, Without, At;
      RunFacts();
      KeptRefl(State(), {});
      CalmRefl(State());
      if pstRunTask >= maxNum {
        return ERRNO_TSK_ID_INVALID;
      }
      var uwTskCount := PriqueueSize(tcb[pstRunTask].usPriority);
      if uwTskCount > 1 {
        ghost var c := State();
        Replace(pstRunTask, tcb[pstRunTask]);
        ReplacedCalm(c, pstRunTask, c.tcb[pstRunTask]);
        assert tcb == c.tcb;
        AtTheEndOf(c, State(), pstRunTask, tcb[pstRunTask].usPriority);
        OnlyItsOwn(c, pstRunTask);
        return OS_OK;
      }
      return ERRNO_TSK_YIELD_NOT_ENOUGH_TASK;
    }

    lemma OnlyItsOwn(c: Core, t: Task)
      requires WF(c) && t in c.tcb
      ensures forall q: nat | q != c.tcb[t].usPriority :: Without(At(c.lists, Ready(q)), t) == At(c.lists, Ready(q))
    {
      hide WF, At;
      forall q: nat | q != c.tcb[t].usPriority ensures t !in At(c.lists, Ready(q)) { ReadyListed(c, t, q); }
    }

    /** `LOS_PriqueueSize`. */
    method PriqueueSize(uwPri: nat) returns (uwItemCnt: nat)
      ensures uwItemCnt == |At(lists, Ready(uwPri))|
    {
      uwItemCnt := 0;
      while uwItemCnt < |At(lists, Ready(uwPri))|
        invariant uwItemCnt <= |At(lists, Ready(uwPri))|
      {
        uwItemCnt := uwItemCnt + 1;
      }
    }

    /** `LOS_TaskSuspend`. */
    method TaskSuspend(t: Task) returns (uwRet: nat)
      requires Valid()
      modifies this`tcb, this`lists
      ensures Valid() && Kept(old(State()), State(), {}) && SamePriorities(old(State()), State())
      ensures uwRet == if t == idle then ERRNO_TSK_OPERATE_IDLE
                       else if t == swtmr then ERRNO_TSK_SUSPEND_SWTMR_NOT_ALLOWED
                       else if t >= maxNum then ERRNO_TSK_ID_INVALID
                       else if t !in old(tcb) then ERRNO_TSK_NOT_CREATED
                       else if old(tcb)[t].suspend then ERRNO_TSK_ALREADY_SUSPENDED
                       else if t == pstRunTask && usLosTaskLock != 0 then ERRNO_TSK_SUSPEND_LOCKED else OS_OK
      ensures uwRet == OS_OK ==>
                && Settled(old(State()), State(), t, old(tcb)[t].(ready := false, suspend := true))
                && Turned(old(State()), State(), t, true)
      ensures uwRet != OS_OK ==> State() == old(State())
    {
      hide WF, Kept, Relocated, Turned;
      KeptRefl(State(), {});
      ghost var c := State();
      if t == idle {
        return ERRNO_TSK_OPERATE_IDLE;
      }
      if t == swtmr {
        return ERRNO_TSK_SUSPEND_SWTMR_NOT_ALLOWED;
      }
      if t >= maxNum {
        return ERRNO_TSK_ID_INVALID;
      }
      if t !in tcb {
        return ERRNO_TSK_NOT_CREATED;
      }
      if tcb[t].suspend {
        return ERRNO_TSK_ALREADY_SUSPENDED;
      }
      if t == pstRunTask && usLosTaskLock != 0 {
        return ERRNO_TSK_SUSPEND_LOCKED;
      }
      TcbFacts(t);
      var x := tcb[t].(ready := false, suspend := true);
      if tcb[t].ready {
        Replace(t, x);
      } else {
        Amend(t, x);
      }
      SettledTurned(c, State(), t, x);
      uwRet := OS_OK;
    }

    /** `LOS_TaskResume`: ready again only if nothing else blocks the task. */
    method TaskResume(t: Task) returns (uwRet: nat)
      requires Valid()
      modifies this`tcb, this`lists
      ensures Valid() && Kept(old(State()), State(), {}) && SamePriorities(old(State()), State())
      ensures uwRet == if t > maxNum then ERRNO_TSK_ID_INVALID
                       else if t !in old(tcb) then ERRNO_TSK_NOT_CREATED
                       else if !old(tcb)[t].suspend then ERRNO_TSK_NOT_SUSPENDED else OS_OK
      ensures uwRet == OS_OK ==>
                var x := old(tcb)[t].(suspend := false);
                && Settled(old(State()), State(), t, x.(ready := !CheckTaskBlock(x)))
                && Turned(old(State()), State(), t, false)
      ensures uwRet != OS_OK ==> State() == old(State())
    {
      hide WF, Kept, Relocated, Turned;
      KeptRefl(State(), {});
      ghost var c := State();
      if t > maxNum {
        return ERRNO_TSK_ID_INVALID;
      }
      if t !in tcb {
        return ERRNO_TSK_NOT_CREATED;
      }
      if !tcb[t].suspend {
        return ERRNO_TSK_NOT_SUSPENDED;
      }
      TcbFacts(t);
      var x := tcb[t].(suspend := false);
      if !CheckTaskBlock(x) {
        x := x.(ready := true);
        Replace(t, x);
      } else {
        Amend(t, x);
      }
      SettledTurned(c, State(), t, x);
      uwRet := OS_OK;
    }

    /** `LOS_TaskPriSet`. */
    method TaskPriSet(t: Task, usTaskPrio: nat) returns (uwRet: nat)
      requires Valid()
      modifies this`tcb, this`lists, this`base
      ensures Valid() && Kept(old(State()), State(), {})
      ensures uwRet == if usTaskPrio > PRIORITY_LOWEST then ERRNO_TSK_PRIOR_ERROR
                       else if t == idle then ERRNO_TSK_OPERATE_IDLE
                       else if t >= maxNum then ERRNO_TSK_ID_INVALID
                       else if t !in old(tcb) then ERRNO_TSK_NOT_CREATED else OS_OK
      ensures uwRet == OS_OK ==>
                Settled(old(State()), State(), t, old(tcb)[t].(usPriority := usTaskPrio))
                && base == old(base)[t := usTaskPrio]
      ensures uwRet == OS_OK && old(tcb)[t].ready ==>
                && At(lists, Ready(usTaskPrio)) == Without(At(old(lists), Ready(usTaskPrio)), t) + [t]
                && forall q: nat | q != usTaskPrio :: At(lists, Ready(q)) == Without(At(old(lists), Ready(q)), t)
      ensures uwRet != OS_OK ==> State() == old(State()) && base == old(base)
      ensures Calm(old(State()), State(), [], if uwRet == OS_OK then [t] else [])
    {
      hide WF, Kept, Relocated, Calm, Settled, Without, At;
      KeptRefl(State(), {});
      CalmRefl(State());
      if usTaskPrio > PRIORITY_LOWEST {
        return ERRNO_TSK_PRIOR_ERROR;
      }
      if t == idle {
        return ERRNO_TSK_OPERATE_IDLE;
      }
      if t >= maxNum {
        return ERRNO_TSK_ID_INVALID;
      }
      if t !in tcb {
        return ERRNO_TSK_NOT_CREATED;
      }
      PriModify(t, usTaskPrio);
      base := base[t := usTaskPrio];
      uwRet := OS_OK;
    }

    /** A new priority. */
    lemma Reprioritised(c: Core, c': Core, t: Task, p: nat)
      requires WF(c) && t in c.tcb && p <= PRIORITY_LOWEST
               && Settled(c, c', t, c.tcb[t].(usPriority := p)) && c'.tcb == c.tcb[t := c.tcb[t].(usPriority := p)]
      ensures Calm(c, c', [], [t]) && OnePriority(c, c', t, p)
      ensures c.tcb[t].ready ==>
                && At(c'.lists, Ready(p)) == Without(At(c.lists, Ready(p)), t) + [t]
                && forall q: nat | q != p :: At(c'.lists, Ready(q)) == Without(At(c.lists, Ready(q)), t)
    {
      BitsAt(c.tcb, t);
      hide WF, Settled, Calm, At, Without;
      SettledCalm(c, c', t, c.tcb[t].(usPriority := p));
      if c.tcb[t].ready { AtTheEndOf(c, c', t, p); }
    }

    lemma NewcomerLast(c: Core, t: Task, x0: Tcb, x: Tcb)
      requires WF(c) && t !in c.tcb && !x0.ready && !Blocked(x0) && x.ready && !Blocked(x)
      ensures At(Replaced(Replaced(c, t, x0), t, x).lists, Ready(x.usPriority))
              == At(c.lists, Ready(x.usPriority)) + [t]
    {
      var id := Ready(x.usPriority);
      assert Placed(c.tcb, c.lists);
      hide WF;
      assert t !in At(c.lists, id);
      assert Replaced(c, t, x0).lists == c.lists;
      InsertedElements(At(c.lists, id), |At(c.lists, id)|, t);
    }

    lemma NewcomerCalm(c: Core, t: Task, x0: Tcb, x: Tcb)
      requires WF(c) && t !in c.tcb && !x0.ready && !Blocked(x0) && !x0.delay && TcbOk(x0) && x0.wait.NoWait?
      requires x.ready && !Blocked(x) && TcbOk(x) && x.wait.NoWait? && !x.suspend
      ensures Calm(c, Replaced(Replaced(c, t, x0), t, x), [], [t])
    {
      var c1 := Replaced(c, t, x0);
      ReplacedWF(c, t, x0);
      ReplacedLined(c1, t, x);
      var c2 := Replaced(c1, t, x);
      assert c1.lists == c.lists;
      assert c2.tcb == c.tcb[t := x];
      OneChanged(c, c2, t, x);
      SameLists(c1, c2, c, c2, {t}, [t]);
      NoMembers();
      assert Members([t]) == {t} && [t] + [] == [t] && c.rem - {} == c.rem;
      hide WF, Relocated, Lined, CallsStay, Suspension, TcbOk, StageOf, Members;
    }

    /** The two locked sections of `LOS_TaskCreate` on a free control block: created suspended, then made ready. */
    method TaskCreate(t: Task, usTaskPrio: nat) returns (uwRet: nat)
      requires Valid() && t !in tcb
      modifies this`tcb, this`lists, this`base
      ensures Valid() && Kept(old(State()), State(), {})
      ensures uwRet == if usTaskPrio > PRIORITY_LOWEST then ERRNO_TSK_PRIOR_ERROR else OS_OK
      ensures uwRet == OS_OK ==>
                tcb == old(tcb)[t := Tcb(true, false, false, false, false, false, usTaskPrio, NoWait)]
                && base == old(base)[t := usTaskPrio]
      ensures uwRet == OS_OK ==> At(lists, Ready(usTaskPrio)) == At(old(lists), Ready(usTaskPrio)) + [t]
      ensures uwRet != OS_OK ==> State() == old(State()) && base == old(base)
      ensures Calm(old(State()), State(), [], if uwRet == OS_OK then [t] else [])
    {
      hide WF, Kept, Relocated, Calm;
      KeptRefl(State(), {});
      CalmRefl(State());
      if usTaskPrio > PRIORITY_LOWEST {
        return ERRNO_TSK_PRIOR_ERROR;
      }
      ghost var c := State();
      var x := Tcb(false, false, false, false, true, false, usTaskPrio, NoWait);
      NewcomerLast(c, t, x, x.(suspend := false, ready := true));
      Replace(t, x);
      ghost var c1 := State();
      x := x.(suspend := false, ready := true);
      Replace(t, x);
      KeptTrans(c, c1, State(), {});
      NewcomerCalm(c, t, x.(suspend := true, ready := false), x);
      base := base[t := usTaskPrio];
      uwRet := OS_OK;
    }

    // -------------------------------------------------------------- the tick

    /** The statements of the scan for one expired task, which the wheel has taken off already. */
    method ExpireStores(t: Task)
      requires t in tcb && TcbOk(tcb[t]) && Timed(tcb[t]) && (Blocked(tcb[t]) ==> t in At(lists, tcb[t].wait.id))
      modifies this`tcb, this`lists
      ensures tcb == old(tcb)[t := ExpireTcb(old(tcb)[t])]
      ensures var x := ExpireTcb(old(tcb)[t]);
              lists == Relocated(old(lists), if Blocked(old(tcb)[t]) then Some(old(tcb)[t].wait.id) else None,
                                 if x.ready then Some(Ready(x.usPriority)) else None, Tail(old(lists), x), t)
    {
      var x := tcb[t];
      if x.pend {
        x := x.(pend := false);
        Unlink(t, x.wait.id);
      } else if x.pendQueue {
        Unlink(t, x.wait.id);
        x := x.(pendQueue := false);
      } else {
        x := x.(delay := false);
      }
      if !x.suspend {
        x := x.(ready := true);
        PriqueueEnqueue(t, x.usPriority);
      }
      tcb := tcb[t := x];
    }

    /** One expired task. */
    method ExpireOne(t: Task, ghost extra: map<Task, int>)
      requires t in extra && WF(State().(rem := wheel.rem + extra)) && t !in wheel.rem
      modifies this`tcb, this`lists, this`out
      ensures t in old(tcb) && tcb == old(tcb)[t := ExpireTcb(old(tcb)[t])]
      ensures var c := old(State()).(rem := wheel.rem + extra);
              var c' := State().(rem := wheel.rem + (extra - {t}));
              WF(c') && Kept(c, c', {})
      ensures !old(tcb)[t].ready && (tcb[t].ready <==> !old(tcb)[t].suspend) && Lined(old(State()), State(), {}, [t])
      ensures wheel.born == old(wheel.born)
    {
      hide WF, Relocated, TcbOk, Timed, ExpireTcb, Blocked, Tail, At, Where, Kept, Expired, Lined;
      ghost var c, c0 := State().(rem := wheel.rem + extra), State();
      ExpireFacts(c, t);
      ExpireStores(t);
      if Blocked(c.tcb[t]) {
        out := out[t := (if t in out then out[t] else []) + [TimedOut]];
      }
      RestOfTimers(wheel.rem, extra, t);
      ExpiredForm(c, t, State().(rem := wheel.rem + (extra - {t})));
      SameLists(c, Expired(c, t), c0, State(), {}, [t]);
    }

    lemma RestOfTimers(rem: map<Task, int>, extra: map<Task, int>, t: Task)
      requires t !in rem
      ensures (rem + extra) - {t} == rem + (extra - {t})
    {
    }

    /** What is known about a task whose time is up. */
    lemma ExpireFacts(c: Core, t: Task)
      requires WF(c) && t in c.rem
      ensures t in c.tcb && !c.tcb[t].ready && TcbOk(c.tcb[t]) && Timed(c.tcb[t])
              && (Blocked(c.tcb[t]) ==> c.tcb[t].wait.Waiting? && t in At(c.lists, c.tcb[t].wait.id))
      ensures Where(c.tcb[t]) == if Blocked(c.tcb[t]) then Some(c.tcb[t].wait.id) else None
      ensures var x := ExpireTcb(c.tcb[t]);
              && Where(x) == (if x.ready then Some(Ready(x.usPriority)) else None)
              && (x.ready <==> !c.tcb[t].suspend)
      ensures WF(Expired(c, t)) && Kept(c, Expired(c, t), {}) && Lined(c, Expired(c, t), {}, [t])
    {
      ExpiredWF(c, t);
      ExpiredKept(c, t);
      ExpireKind(c, t);
      ExpiredLined(c, t);
      hide *;
    }

    /** Timers have no part in the ready lists. */
    lemma SameLists(c: Core, c': Core, b: Core, b': Core, gone: set<Task>, come: seq<Task>)
      requires Lined(c, c', gone, come) && b.lists == c.lists && b'.lists == c'.lists && b'.tcb == c'.tcb
      ensures Lined(b, b', gone, come)
    {
    }

    /** The ready lists once the time of `t` is up. */
    lemma ExpiredLined(c: Core, t: Task)
      requires WF(c) && t in c.rem && t in c.tcb
      ensures Lined(c, Expired(c, t), {}, [t]) && !c.tcb[t].ready
              && (ExpireTcb(c.tcb[t]).ready <==> !c.tcb[t].suspend)
    {
      var x := ExpireTcb(c.tcb[t]);
      ExpireKind(c, t);
      TailPlace(c, t, x);
      hide WF, Relocated, Without, At, Tail, Lined, TcbOk;
      RelocatedLined(c, Expired(c, t), t, x, Tail(c.lists, x));
      LinedAbsent(c, Expired(c, t), {t}, [t]);
    }

    lemma ExpiredForm(c: Core, t: Task, c': Core)
      requires t in c.tcb && c'.tcb == c.tcb[t := ExpireTcb(c.tcb[t])] && c'.rem == c.rem - {t}
      requires c'.lists == Relocated(c.lists, Where(c.tcb[t]), Where(ExpireTcb(c.tcb[t])),
               Tail(c.lists, ExpireTcb(c.tcb[t])), t)
      requires c'.out == if Blocked(c.tcb[t]) then c.out[t := (if t in c.out then c.out[t] else []) + [TimedOut]]
               else c.out
      requires c'.flight == c.flight && c'.stamp == c.stamp && c'.clock == c.clock
      ensures c' == Expired(c, t)
    {
      hide Relocated, Where, ExpireTcb, Tail, Blocked;
    }

    lemma ExpireKind(c: Core, t: Task)
      requires WF(c) && t in c.rem && t in c.tcb
      ensures TcbOk(c.tcb[t]) && Timed(c.tcb[t]) && !c.tcb[t].ready
              && (Blocked(c.tcb[t]) ==> c.tcb[t].wait.Waiting? && t in At(c.lists, c.tcb[t].wait.id))
      ensures Where(c.tcb[t]) == if Blocked(c.tcb[t]) then Some(c.tcb[t].wait.id) else None
      ensures var x := ExpireTcb(c.tcb[t]); Where(x) == if x.ready then Some(Ready(x.usPriority)) else None
    {
      BitsAt(c.tcb, t);
      assert Timers(c.tcb, c.rem) && Placed(c.tcb, c.lists);
    }

    /** `osTaskScan`: exactly the tasks whose last tick this is expire, and join the ready lists in the order in which
        their timers were started; everybody else is one tick nearer. */
    method TaskScan() returns (ghost expired: seq<Task>)
      requires Valid()
      modifies this`tcb, this`lists, this`out, wheel
      ensures Valid() && Kept(old(State()), State(), {}) && SamePriorities(old(State()), State())
      ensures wheel.rem == Wheel.Ticked(old(wheel.rem))
      ensures tcb == ExpiredTcbs(old(tcb), Wheel.Due(old(wheel.rem)))
      ensures (forall t :: t in expired <==> t in Wheel.Due(old(wheel.rem)))
              && Wheel.EnteredInOrder(expired, old(wheel.born))
      ensures forall t | t in expired :: t in old(tcb) && t in tcb && (tcb[t].ready <==> !old(tcb)[t].suspend)
      ensures Suspension(old(State()), State(), map[]) && Lined(old(State()), State(), {}, expired)
    {
      hide WF, Kept, ExpiredTcbs, Zeros, Different, Wheel.EnteredInOrder, Lined;
      ghost var c0 := State();
      var found := wheel.Scan();
      expired := found;
      ScanKeys(c0.rem, wheel.rem, found);
      RemWF(c0, wheel.rem + Zeros(found));
      DifferentSeq(found);
      ghost var due := ExpireAll(found, c0);
      assert due == Wheel.Due(c0.rem);
      PrioritiesKept(c0.tcb, due);
    }

    lemma DifferentSeq(ts: seq<Task>)
      requires forall i, j | 0 <= i < j < |ts| :: ts[i] != ts[j]
      ensures Different(ts)
    {
    }

    /** The loop of the scan over the tasks that the wheel has found due. */
    method ExpireAll(expired: seq<Task>, ghost c0: Core) returns (ghost done: set<Task>)
      requires WF(State().(rem := wheel.rem + Zeros(expired)))
               && Kept(c0, State().(rem := wheel.rem + Zeros(expired)), {})
      requires tcb == c0.tcb && lists == c0.lists && Different(expired) && forall t | t in expired :: t !in wheel.rem
      modifies this`tcb, this`lists, this`out
      ensures WF(State()) && Kept(c0, State(), {}) && tcb == ExpiredTcbs(c0.tcb, done)
              && forall t :: t in done <==> t in expired
      ensures Raised(c0.tcb, tcb, expired) && Lined(c0, State(), {}, expired)
    {
      hide WF, Kept, ExpiredTcbs, Zeros, Different, Lined, Raised;
      var rest := expired;
      done := {};
      ExpiredNone(c0.tcb);
      NobodyRaised(c0, State());
      while rest != []
        invariant WF(State().(rem := wheel.rem + Zeros(rest))) && Kept(c0, State().(rem := wheel.rem + Zeros(rest)), {})
        invariant tcb == ExpiredTcbs(c0.tcb, done) && Different(rest)
        invariant forall t :: t in rest ==> t !in done
        invariant forall t :: t in expired <==> t in rest || t in done
        invariant |rest| <= |expired| && rest == expired[|expired| - |rest|..]
        invariant forall t | t in expired[..|expired| - |rest|] :: t in done
        invariant Raised(c0.tcb, tcb, expired[..|expired| - |rest|])
        invariant Lined(c0, State(), {}, expired[..|expired| - |rest|])
      {
        var t := rest[0];
        ghost var n := |expired| - |rest|;
        ghost var c1 := State();
        ghost var c1' := State().(rem := wheel.rem + Zeros(rest));
        ZerosRest(rest);
        ExpireOne(t, Zeros(rest));
        OneMoreExpired(c0.tcb, done, t);
        assert expired[..n + 1] == expired[..n] + [t];
        OneMoreRaised(c0, c1, State(), expired[..n], t);
        KeptTrans(c0, c1', State().(rem := wheel.rem + Zeros(rest[1..])), {});
        done := done + {t};
        rest := rest[1..];
      }
      ZerosNone();
      assert State().(rem := wheel.rem + Zeros([])) == State();
      assert expired[..|expired|] == expired;
    }

    /** Those in `ts` are ready unless they are suspended. */
    ghost predicate Raised(tcb0: map<Task, Tcb>, tcb1: map<Task, Tcb>, ts: seq<Task>)
    {
      forall t | t in ts :: t in tcb0 && t in tcb1 && (tcb1[t].ready <==> !tcb0[t].suspend)
    }

    lemma NobodyRaised(c0: Core, c: Core)
      requires c.lists == c0.lists
      ensures Raised(c0.tcb, c.tcb, []) && Lined(c0, c, {}, [])
    {
      LinedSame(c0, c);
    }

    lemma OneMoreRaised(c0: Core, c1: Core, c2: Core, ts: seq<Task>, t: Task)
      requires Raised(c0.tcb, c1.tcb, ts) && Lined(c0, c1, {}, ts) && Lined(c1, c2, {}, [t]) && t !in ts
      requires t in c0.tcb && t in c1.tcb && c1.tcb[t].suspend == c0.tcb[t].suspend
               && c2.tcb.Keys == c1.tcb.Keys && forall u | u in c1.tcb && u != t :: c2.tcb[u] == c1.tcb[u]
      requires c2.tcb[t].ready <==> !c1.tcb[t].suspend
      ensures Raised(c0.tcb, c2.tcb, ts + [t]) && Lined(c0, c2, {}, ts + [t])
    {
      LinedThenMore(c0, c1, c2, {}, ts, [t]);
    }

    lemma ZerosNone()
      ensures Zeros([]) == map[]
    {
    }

    lemma ExpiredNone(tcb0: map<Task, Tcb>)
      ensures ExpiredTcbs(tcb0, {}) == tcb0
    {
    }

    lemma ScanKeys(rem: map<Task, int>, rem1: map<Task, int>, expired: seq<Task>)
      requires rem1 == Wheel.Ticked(rem) && forall t :: t in expired <==> t in Wheel.Due(rem)
      ensures (rem1 + Zeros(expired)).Keys == rem.Keys
    {
    }

    lemma ZerosRest(ts: seq<Task>)
      requires ts != [] && Different(ts)
      ensures Zeros(ts) - {ts[0]} == Zeros(ts[1..]) && ts[0] in Zeros(ts)
      ensures forall t :: t in ts <==> t == ts[0] || t in ts[1..]
      ensures ts[0] !in ts[1..] && Different(ts[1..])
    {
      assert ts == [ts[0]] + ts[1..];
    }

    lemma OneMoreExpired(tcb0: map<Task, Tcb>, done: set<Task>, t: Task)
      requires t !in done && t in ExpiredTcbs(tcb0, done)
      ensures ExpiredTcbs(tcb0, done + {t}) == ExpiredTcbs(tcb0, done)[t := ExpireTcb(ExpiredTcbs(tcb0, done)[t])]
      ensures t in tcb0 && ExpiredTcbs(tcb0, done)[t] == tcb0[t]
    {
    }

    lemma PrioritiesKept(tcb0: map<Task, Tcb>, due: set<Task>)
      ensures ExpiredTcbs(tcb0, due).Keys == tcb0.Keys
      ensures forall t | t in tcb0 ::
                && ExpiredTcbs(tcb0, due)[t].usPriority == tcb0[t].usPriority
                && ExpiredTcbs(tcb0, due)[t].suspend == tcb0[t].suspend
    {
    }
  }
}
