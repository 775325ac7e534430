/** Tasks, their status bits, and the lists they stand on (kernel/base/core/los_task.c, los_priqueue.c,
    kernel/include/los_task.h): the state that every blocking protocol shares, and what one step may do to it. */
module Tasks {
  import opened DeltaList

  const PRIORITIES: nat := 32

  type Task = nat

  /** A list head on which a task's `stPendList` can be linked.  A semaphore block that is deleted and created again
      starts a new life, with a new list. */
  datatype ListId =
    | Ready(p: nat)
    | SemL(s: nat, life: nat)
    | MuxL(m: nat)
    | EvL(e: nat)
    | RdL(q: nat)
    | WrL(q: nat)
    | MemL(q: nat)

  datatype Option<T> = None | Some(value: T)

  /** What a blocked call still has to do when it resumes. */
  datatype Call = Plain | EventArgs(uwEventMask: bv32, uwEventMode: bv32) | Message(data: int)

  /** The call that a task is inside of: from its pend step until its resume step. */
  datatype Wait = NoWait | Waiting(id: ListId, call: Call)

  datatype Outcome = Given | TimedOut

  /** The status bits of `usTaskStatus`, the priority, and the call in progress. */
  datatype Tcb = Tcb(ready: bool, pend: bool, pendQueue: bool, delay: bool, suspend: bool, timeout: bool,
    usPriority: nat, wait: Wait)

  predicate IsQueue(id: ListId) { id.RdL? || id.WrL? || id.MemL? }

  predicate IsFifo(id: ListId) { id.SemL? || id.MuxL? || id.EvL? }

  predicate Blocked(x: Tcb) { x.pend || x.pendQueue }

  /** `OS_CHECK_TASK_BLOCK`. */
  predicate CheckTaskBlock(x: Tcb) { x.delay || x.pend || x.suspend || x.pendQueue }

  predicate TcbOk(x: Tcb)
  {
    && (x.ready <==> !CheckTaskBlock(x))
    && (x.pend ==> !x.pendQueue && !x.delay && x.wait.Waiting? && IsFifo(x.wait.id))
    && (x.pendQueue ==> !x.delay && x.wait.Waiting? && IsQueue(x.wait.id))
    && (x.delay ==> x.wait.NoWait?)
    && (x.timeout ==> x.wait.Waiting?)
    && (x.wait.Waiting? ==> !x.wait.id.Ready?)
    && x.usPriority < PRIORITIES
  }

  /** The one list that the status bits put a task on. */
  function Where(x: Tcb): Option<ListId>
  {
    if x.ready then Some(Ready(x.usPriority)) else if Blocked(x) && x.wait.Waiting? then Some(x.wait.id) else None
  }

  predicate Timed(x: Tcb) { x.delay || (x.timeout && Blocked(x)) }

  /** Woken by a waker and not resumed yet. */
  predicate Granted(x: Tcb) { x.wait.Waiting? && !Blocked(x) && !x.timeout }

  /** How a call has been resolved so far. */
  function Outcomes(x: Tcb): seq<Outcome>
  {
    if Blocked(x) then [] else if x.timeout then [TimedOut] else [Given]
  }

  /** The shared state.  `rem` is the map that the timing wheel refines; `flight` holds the tasks that have been given
      what they waited for and have not resumed, `out` how each call in progress has been resolved, `stamp` when it
      began. */
  datatype Core = Core(tcb: map<Task, Tcb>, lists: map<ListId, seq<Task>>, rem: map<Task, int>,
                       flight: map<ListId, set<Task>>, out: map<Task, seq<Outcome>>, stamp: map<Task, nat>, clock: nat)

  function At(lists: map<ListId, seq<Task>>, id: ListId): seq<Task>
  {
    if id in lists then lists[id] else []
  }

  function Flying(flight: map<ListId, set<Task>>, id: ListId): set<Task>
  {
    if id in flight then flight[id] else {}
  }

  // ---------------------------------------------------------------- the invariant

  ghost predicate Bits(tcb: map<Task, Tcb>)
  {
    forall t | t in tcb :: TcbOk(tcb[t])
  }

  /** A task is on the list that its bits say, once, and on no other. */
  ghost predicate Placed(tcb: map<Task, Tcb>, lists: map<ListId, seq<Task>>)
  {
    && (forall id, t :: t in At(lists, id) <==> t in tcb && Where(tcb[t]) == Some(id))
    && (forall id :: Different(At(lists, id)))
  }

  ghost predicate Different(l: seq<Task>)
  {
    forall i, j | 0 <= i < j < |l| :: l[i] != l[j]
  }

  /** The timer link is in use exactly while delaying, or while blocked with a timeout. */
  ghost predicate Timers(tcb: map<Task, Tcb>, rem: map<Task, int>)
  {
    forall t :: t in rem <==> t in tcb && Timed(tcb[t])
  }

  ghost predicate Flights(tcb: map<Task, Tcb>, flight: map<ListId, set<Task>>)
  {
    forall id, t :: t in Flying(flight, id) <==> t in tcb && Granted(tcb[t]) && tcb[t].wait.id == id
  }

  /** Every call in progress has been resolved not at all while blocked, and exactly once after that. */
  ghost predicate Resolved(tcb: map<Task, Tcb>, out: map<Task, seq<Outcome>>)
  {
    forall t | t in tcb && tcb[t].wait.Waiting? :: t in out && out[t] == Outcomes(tcb[t])
  }

  function StampOf(stamp: map<Task, nat>, t: Task): nat
  {
    if t in stamp then stamp[t] else 0
  }

  /** Waiters on semaphores, mutexes and events stand in the order in which they came. */
  ghost predicate Fifo(lists: map<ListId, seq<Task>>, stamp: map<Task, nat>, clock: nat)
  {
    && (forall id | IsFifo(id) :: InOrder(At(lists, id), stamp))
    && (forall t | t in stamp :: stamp[t] <= clock)
  }

  ghost predicate InOrder(l: seq<Task>, stamp: map<Task, nat>)
  {
    forall i, j | 0 <= i < j < |l| :: StampOf(stamp, l[i]) < StampOf(stamp, l[j])
  }

  ghost predicate WF(c: Core)
  {
    && Bits(c.tcb) && Placed(c.tcb, c.lists) && Timers(c.tcb, c.rem) && Flights(c.tcb, c.flight)
       && Resolved(c.tcb, c.out)
    && Fifo(c.lists, c.stamp, c.clock)
  }

  // ---------------------------------------------------------------- moving between lists

  function Without(l: seq<Task>, t: Task): seq<Task>
  {
    if t in l then Removed(l, IndexOf(l, t)) else l
  }

  /** Unlink `t`, then link it at place `p` of the other list. */
  function Relocated(lists: map<ListId, seq<Task>>, from: Option<ListId>, to: Option<ListId>, p: nat,
                     t: Task): map<ListId, seq<Task>>
  {
    var l1 := if from.Some? then lists[from.value := Without(At(lists, from.value), t)] else lists;
    if to.Some? && p <= |At(l1, to.value)| then l1[to.value := Inserted(At(l1, to.value), p, t)] else l1
  }

  lemma WithoutElements(l: seq<Task>, t: Task)
    requires Different(l)
    ensures Different(Without(l, t))
    ensures forall u :: u in Without(l, t) <==> u in l && u != t
    ensures |Without(l, t)| <= |l|
  {
    if t in l {
      var p := IndexOf(l, t);
      var m := Removed(l, p);
      RemovedElements(l, p);
      hide Removed;
      forall u | u in l && u != t ensures u in m {
        var i :| 0 <= i < |l| && l[i] == u;
        assert m[if i < p then i else i - 1] == u;
      }
    }
  }

  lemma InsertedDifferent(l: seq<Task>, p: nat, t: Task)
    requires Different(l) && t !in l && p <= |l|
    ensures Different(Inserted(l, p, t))
    ensures forall u :: u in Inserted(l, p, t) <==> u in l || u == t
  {
    var m := Inserted(l, p, t);
    InsertedElements(l, p, t);
    hide Inserted;
    assert m[p] == t;
    forall u | u in l ensures u in m {
      var i :| 0 <= i < |l| && l[i] == u;
      assert m[if i < p then i else i + 1] == u;
    }
  }

  lemma RelocatedPlaces(tcb: map<Task, Tcb>, lists: map<ListId, seq<Task>>, t: Task, x: Tcb, p: nat,
                        from: Option<ListId>)
    requires Placed(tcb, lists)
    requires from == if t in tcb then Where(tcb[t]) else None
    requires Where(x).Some? ==> p <= |Without(At(lists, Where(x).value), t)|
    ensures Placed(tcb[t := x], Relocated(lists, from, Where(x), p, t))
  {
    var l1 := if from.Some? then lists[from.value := Without(At(lists, from.value), t)] else lists;
    var l2 := Relocated(lists, from, Where(x), p, t);
    forall id ensures Different(At(l1, id)) && At(l1, id) == Without(At(lists, id), t) {
      WithoutElements(At(lists, id), t);
      hide Where, Relocated;
    }
    hide Without, Different;
    forall id
      ensures Different(At(l2, id))
      ensures forall u :: u in At(l2, id) <==> (u != t && u in At(lists, id)) || (u == t && Where(x) == Some(id))
    {
      WithoutElements(At(lists, id), t);
      if Where(x) == Some(id) { InsertedDifferent(At(l1, id), p, t); }
      hide Where;
    }
    hide Where, Relocated, At;
  }

  lemma RelocatedOthers(lists: map<ListId, seq<Task>>, from: Option<ListId>, to: Option<ListId>, p: nat, t: Task,
                        id: ListId)
    requires from != Some(id) && to != Some(id)
    ensures At(Relocated(lists, from, to, p, t), id) == At(lists, id)
  {
  }

  lemma InOrderAt(l: seq<Task>, stamp: map<Task, nat>, i: nat, j: nat)
    requires InOrder(l, stamp) && i < j < |l|
    ensures StampOf(stamp, l[i]) < StampOf(stamp, l[j])
  {
  }

  lemma DifferentAt(l: seq<Task>, i: nat, j: nat)
    requires Different(l) && i < |l| && j < |l| && i != j
    ensures l[i] != l[j]
  {
  }

  lemma WithoutOrder(l: seq<Task>, t: Task, stamp: map<Task, nat>, stamp': map<Task, nat>)
    requires InOrder(l, stamp) && forall u | u in l && u != t :: StampOf(stamp', u) == StampOf(stamp, u)
    ensures Different(l) ==> InOrder(Without(l, t), stamp')
  {
    if Different(l) && t in l {
      RemovedOrder(l, IndexOf(l, t), stamp, stamp');
    }
  }

  lemma RemovedPair(l: seq<Task>, p: nat, stamp: map<Task, nat>, stamp': map<Task, nat>, i: nat, j: nat)
    requires InOrder(l, stamp) && p < |l| && Different(l)
             && forall u | u in l && u != l[p] :: StampOf(stamp', u) == StampOf(stamp, u)
    requires i < j < |l| && i != p && j != p
    ensures StampOf(stamp', l[i]) < StampOf(stamp', l[j])
  {
    DifferentAt(l, i, p);
    DifferentAt(l, j, p);
    InOrderAt(l, stamp, i, j);
    hide *;
  }

  lemma RemovedOrder(l: seq<Task>, p: nat, stamp: map<Task, nat>, stamp': map<Task, nat>)
    requires InOrder(l, stamp) && p < |l| && Different(l)
             && forall u | u in l && u != l[p] :: StampOf(stamp', u) == StampOf(stamp, u)
    ensures InOrder(Removed(l, p), stamp')
  {
    var m := Removed(l, p);
    RemovedElements(l, p);
    hide Different, Removed, StampOf;
    forall i, j | 0 <= i < j < |m| ensures StampOf(stamp', m[i]) < StampOf(stamp', m[j]) {
      hide InOrder;
      RemovedPair(l, p, stamp, stamp', if i < p then i else i + 1, if j < p then j else j + 1);
    }
  }

  /** Whoever comes last stands last. */
  lemma RelocatedOrder(tcb: map<Task, Tcb>, lists: map<ListId, seq<Task>>, stamp: map<Task, nat>, clock: nat, t: Task,
                       x: Tcb, p: nat, from: Option<ListId>,
                       stamp': map<Task, nat>, clock': nat)
    requires Placed(tcb, lists) && Fifo(lists, stamp, clock)
    requires from == if t in tcb then Where(tcb[t]) else None
    requires Where(x).Some? ==> p <= |Without(At(lists, Where(x).value), t)|
    requires if Where(x).Some? && IsFifo(Where(x).value)
             then p == |Without(At(lists, Where(x).value), t)| && clock' == clock + 1 && stamp' == stamp[t := clock']
             else clock' == clock && stamp' == stamp
    ensures Fifo(Relocated(lists, from, Where(x), p, t), stamp', clock')
  {
    hide Placed, Where, Without, Relocated, At;
    forall id | IsFifo(id) ensures InOrder(At(Relocated(lists, from, Where(x), p, t), id), stamp') {
      var l := At(lists, id);
      var w := Without(l, t);
      RelocatedAt(tcb, lists, t, x, p, from, id);
      assert InOrder(l, stamp);
      WithoutElements(l, t);
      WithoutOrder(l, t, stamp, stamp');
      if Where(x) == Some(id) {
        assert p == |w|;
        AppendOrder(w, t, stamp', clock');
      }
    }
  }

  /** What unlinking and linking makes of each list. */
  lemma RelocatedAt(tcb: map<Task, Tcb>, lists: map<ListId, seq<Task>>, t: Task, x: Tcb, p: nat, from: Option<ListId>,
                    id: ListId)
    requires Placed(tcb, lists)
    requires from == if t in tcb then Where(tcb[t]) else None
    requires Where(x).Some? ==> p <= |Without(At(lists, Where(x).value), t)|
    ensures Different(At(lists, id))
    ensures At(Relocated(lists, from, Where(x), p, t), id)
            == if Where(x) == Some(id) then Inserted(Without(At(lists, id), t), p, t) else Without(At(lists, id), t)
  {
    OnlyThere(tcb, lists, t, id);
    hide Placed, Different, Where, Inserted, Without;
    var l1 := if from.Some? then lists[from.value := Without(At(lists, from.value), t)] else lists;
    assert At(l1, id) == Without(At(lists, id), t);
  }

  /** A task is not on a list that its bits do not name. */
  lemma OnlyThere(tcb: map<Task, Tcb>, lists: map<ListId, seq<Task>>, t: Task, id: ListId)
    requires Placed(tcb, lists)
    ensures Different(At(lists, id))
    ensures !(t in tcb && Where(tcb[t]) == Some(id)) ==> Without(At(lists, id), t) == At(lists, id)
  {
    hide Where, Different, At;
  }

  lemma AppendOrder(w: seq<Task>, t: Task, stamp: map<Task, nat>, clock: nat)
    requires InOrder(w, stamp) && t !in w && StampOf(stamp, t) == clock
             && forall u | u in w :: StampOf(stamp, u) < clock
    ensures InOrder(Inserted(w, |w|, t), stamp)
  {
    InsertedElements(w, |w|, t);
    hide Inserted, StampOf;
  }

  /** One step on one task: new bits, a new place, and the bookkeeping that goes with them. */
  ghost predicate Shifts(c: Core, c': Core, t: Task, x: Tcb, p: nat)
  {
    && c'.tcb == c.tcb[t := x] && TcbOk(x)
    && (Where(x).Some? ==> p <= |Without(At(c.lists, Where(x).value), t)|)
    && c'.lists == Relocated(c.lists, if t in c.tcb then Where(c.tcb[t]) else None, Where(x), p, t)
    && Books(c, c', t, x)
    && (if Where(x).Some? && IsFifo(Where(x).value)
        then p == |Without(At(c.lists, Where(x).value), t)| && c'.clock == c.clock + 1
          && c'.stamp == c.stamp[t := c'.clock]
        else c'.clock == c.clock && c'.stamp == c.stamp)
  }

  /** Timers, flights and outcomes of `t` follow its bits; nobody else's change. */
  ghost predicate Books(c: Core, c': Core, t: Task, x: Tcb)
  {
    && (forall u :: u in c'.rem <==> if u == t then Timed(x) else u in c.rem)
    && (forall id, u ::
         u in Flying(c'.flight, id) <==> if u == t then Granted(x) && x.wait.id == id else u in Flying(c.flight, id))
    && (forall u | u in c.out && u != t :: u in c'.out && c'.out[u] == c.out[u])
    && (x.wait.Waiting? ==> t in c'.out && c'.out[t] == Outcomes(x))
  }

  lemma BooksWF(c: Core, c': Core, t: Task, x: Tcb)
    requires WF(c) && Books(c, c', t, x) && c'.tcb == c.tcb[t := x] && TcbOk(x)
    ensures Bits(c'.tcb) && Timers(c'.tcb, c'.rem) && Flights(c'.tcb, c'.flight) && Resolved(c'.tcb, c'.out)
  {
    hide TcbOk, Timed, Granted, Outcomes, Placed, Fifo;
  }

  lemma ShiftWF(c: Core, c': Core, t: Task, x: Tcb, p: nat)
    requires WF(c) && Shifts(c, c', t, x, p)
    ensures WF(c')
  {
    hide Bits, Placed, Timers, Flights, Resolved, Fifo, Where, Relocated, Books, Without;
    var from := if t in c.tcb then Where(c.tcb[t]) else None;
    BooksWF(c, c', t, x);
    RelocatedPlaces(c.tcb, c.lists, t, x, p, from);
    RelocatedOrder(c.tcb, c.lists, c.stamp, c.clock, t, x, p, from, c'.stamp, c'.clock);
  }

  /** A step that leaves the task where it is. */
  ghost predicate Amends(c: Core, c': Core, t: Task, x: Tcb)
  {
    && t in c.tcb && c'.tcb == c.tcb[t := x] && TcbOk(x) && Where(x) == Where(c.tcb[t])
    && c'.lists == c.lists && Books(c, c', t, x) && c'.clock == c.clock && c'.stamp == c.stamp
  }

  lemma SamePlaces(tcb: map<Task, Tcb>, lists: map<ListId, seq<Task>>, t: Task, x: Tcb)
    requires Placed(tcb, lists) && t in tcb && Where(x) == Where(tcb[t])
    ensures Placed(tcb[t := x], lists)
  {
    hide Where, Different, At;
  }

  lemma AmendWF(c: Core, c': Core, t: Task, x: Tcb)
    requires WF(c) && Amends(c, c', t, x)
    ensures WF(c')
  {
    hide Bits, Timers, Flights, Resolved, Placed, Fifo, Books, Where, TcbOk;
    BooksWF(c, c', t, x);
    SamePlaces(c.tcb, c.lists, t, x);
  }

  // ---------------------------------------------------------------- what the steps do

  /** The list that a task is linked to when it becomes ready: the tail of its priority. */
  function Tail(lists: map<ListId, seq<Task>>, x: Tcb): nat
  {
    if x.ready then |At(lists, Ready(x.usPriority))| else 0
  }

  /** Pend: out of the ready queue, onto a wait list at place `p`, with a timer unless the call waits forever. */
  function PendTcb(x: Tcb, id: ListId, call: Call, timed: bool): Tcb
  {
    x.(ready := false, pend := !IsQueue(id), pendQueue := IsQueue(id), timeout := timed, wait := Waiting(id, call))
  }

  function Pended(c: Core, t: Task, id: ListId, call: Call, p: nat, timeout: Option<nat>): Core
    requires t in c.tcb && p <= |At(c.lists, id)|
  {
    var x := PendTcb(c.tcb[t], id, call, timeout.Some?);
    Core(c.tcb[t := x], Relocated(c.lists, Where(c.tcb[t]), Some(id), p, t),
         if timeout.Some? then c.rem[t := timeout.value] else c.rem, c.flight, c.out[t := []],
         if IsFifo(id) then c.stamp[t := c.clock + 1] else c.stamp, if IsFifo(id) then c.clock + 1 else c.clock)
  }

  /** Wake by a waker: everything it waited with is cleared, and unless suspended it is ready. */
  function WakeTcb(x: Tcb): Tcb
  {
    x.(pend := false, pendQueue := false, timeout := false, ready := !x.suspend)
  }

  function Woken(c: Core, t: Task): Core
    requires t in c.tcb && c.tcb[t].wait.Waiting?
  {
    var x, id := WakeTcb(c.tcb[t]), c.tcb[t].wait.id;
    Core(c.tcb[t := x], Relocated(c.lists, Some(id), Where(x), Tail(c.lists, x), t), c.rem - {t},
         c.flight[id := Flying(c.flight, id) + {t}], c.out[t := (if t in c.out then c.out[t] else []) + [Given]],
           c.stamp, c.clock)
  }

  /** Wake by the tick: the timeout bit stays as the mark of what happened. */
  function ExpireTcb(x: Tcb): Tcb
  {
    x.(pend := false, pendQueue := false, delay := false, ready := !x.suspend)
  }

  function Expired(c: Core, t: Task): Core
    requires t in c.tcb
  {
    var x := ExpireTcb(c.tcb[t]);
    Core(c.tcb[t := x], Relocated(c.lists, Where(c.tcb[t]), Where(x), Tail(c.lists, x), t), c.rem - {t}, c.flight,
         if Blocked(c.tcb[t]) then c.out[t := (if t in c.out then c.out[t] else []) + [TimedOut]]
           else c.out, c.stamp, c.clock)
  }

  /** The resumed call takes note of the outcome and is over. */
  function FinishTcb(x: Tcb): Tcb
  {
    x.(timeout := false, wait := NoWait)
  }

  function Finished(c: Core, t: Task): Core
    requires t in c.tcb && c.tcb[t].wait.Waiting?
  {
    var id := c.tcb[t].wait.id;
    c.(tcb := c.tcb[t := FinishTcb(c.tcb[t])], flight := c.flight[id := Flying(c.flight, id) - {t}])
  }

  /** A step on tasks that are in no wait list: delay, suspend, resume, yield, a new priority, a new task. */
  function Replaced(c: Core, t: Task, x: Tcb): Core
  {
    c.(tcb := c.tcb[t := x],
       lists := Relocated(c.lists, if t in c.tcb then Where(c.tcb[t]) else None, Where(x),
                          if Where(x).Some? then |Without(At(c.lists, Where(x).value), t)| else 0, t))
  }

  lemma PendedWF(c: Core, t: Task, id: ListId, call: Call, p: nat, timeout: Option<nat>)
    requires WF(c) && t in c.tcb && c.tcb[t].ready && c.tcb[t].wait.NoWait? && !id.Ready?
    requires p <= |At(c.lists, id)| && (IsFifo(id) ==> p == |At(c.lists, id)|)
    ensures WF(Pended(c, t, id, call, p, timeout))
  {
    var x := PendTcb(c.tcb[t], id, call, timeout.Some?);
    var c' := Pended(c, t, id, call, p, timeout);
    assert TcbOk(c.tcb[t]) && t !in At(c.lists, id);
    assert Where(x) == Some(id) && TcbOk(x);
    PendedBooks(c, t, id, call, p, timeout);
    hide Books, Relocated, Where, TcbOk, At;
    ShiftWF(c, c', t, x, p);
  }

  lemma PendedBooks(c: Core, t: Task, id: ListId, call: Call, p: nat, timeout: Option<nat>)
    requires WF(c) && t in c.tcb && c.tcb[t].ready && c.tcb[t].wait.NoWait? && p <= |At(c.lists, id)|
    ensures Books(c, Pended(c, t, id, call, p, timeout), t, PendTcb(c.tcb[t], id, call, timeout.Some?))
  {
    hide Relocated, At, Placed, Fifo, Bits, Resolved;
    assert TcbOk(c.tcb[t]) by { assert Bits(c.tcb); BitsAt(c.tcb, t); }
  }

  lemma BitsAt(tcb: map<Task, Tcb>, t: Task)
    requires Bits(tcb) && t in tcb
    ensures TcbOk(tcb[t])
  {
  }

  lemma BlockedOnList(c: Core, t: Task, id: ListId)
    requires WF(c) && t in At(c.lists, id) && !id.Ready?
    ensures t in c.tcb && TcbOk(c.tcb[t]) && Blocked(c.tcb[t]) && c.tcb[t].wait.Waiting? && c.tcb[t].wait.id == id
    ensures !c.tcb[t].ready && !c.tcb[t].delay && Where(c.tcb[t]) == Some(id)
    ensures t in c.out && c.out[t] == []
    ensures c.tcb[t].timeout <==> t in c.rem
  {
    assert Placed(c.tcb, c.lists) && Bits(c.tcb) && Resolved(c.tcb, c.out) && Timers(c.tcb, c.rem);
    hide WF, Fifo, Flights;
    BitsAt(c.tcb, t);
  }

  /** A task that becomes ready joins the tail of its priority, where it was not before. */
  lemma TailPlace(c: Core, t: Task, x: Tcb)
    requires WF(c) && t in c.tcb && !c.tcb[t].ready && (Where(x).Some? ==> x.ready)
    ensures Where(x).Some? ==> Tail(c.lists, x) == |Without(At(c.lists, Where(x).value), t)|
  {
    assert Placed(c.tcb, c.lists);
    hide WF, Bits, Timers, Flights, Resolved, Fifo;
    if Where(x).Some? {
      var id := Where(x).value;
      assert id == Ready(x.usPriority);
      assert t !in At(c.lists, id);
    }
  }

  /** Nothing blocks the task any more but a suspension, which it keeps, like its call and its priority; unless it is
      suspended it is ready. */
  predicate Unblocked(x: Tcb, y: Tcb)
  {
    && !y.pend && !y.pendQueue && !y.delay && y.suspend == x.suspend && (y.ready <==> !x.suspend)
    && y.wait == x.wait && y.usPriority == x.usPriority
  }

  lemma WokenWF(c: Core, t: Task, id: ListId)
    requires WF(c) && t in At(c.lists, id) && !id.Ready?
    ensures t in c.tcb && c.tcb[t].wait == Waiting(id, c.tcb[t].wait.call) && WF(Woken(c, t))
    ensures t in Woken(c, t).tcb && Unblocked(c.tcb[t], Woken(c, t).tcb[t])
  {
    BlockedOnList(c, t, id);
    var x := WakeTcb(c.tcb[t]);
    var c' := Woken(c, t);
    TailPlace(c, t, x);
    WokenBooks(c, t, id);
    assert Where(x).Some? ==> !IsFifo(Where(x).value);
    hide WF, Books, Relocated, Where, At, Without;
    ShiftWF(c, c', t, x, Tail(c.lists, x));
  }

  lemma WokenBooks(c: Core, t: Task, id: ListId)
    requires WF(c) && t in c.tcb && c.tcb[t].wait.Waiting? && c.tcb[t].wait.id == id && Blocked(c.tcb[t])
             && !c.tcb[t].delay && t in c.out && c.out[t] == []
    ensures Books(c, Woken(c, t), t, WakeTcb(c.tcb[t]))
  {
    WokenFlights(c, t, id);
    WokenBits(c.tcb[t]);
    hide WF, Relocated, At, Tail, Where, Flying, WakeTcb, Granted, Timed, Outcomes, Blocked;
    assert c.out[t] + [Given] == [Given];
  }

  lemma WokenBits(x: Tcb)
    requires x.wait.Waiting? && Blocked(x) && !x.delay
    ensures Outcomes(WakeTcb(x)) == [Given] && !Timed(WakeTcb(x))
  {
  }

  lemma WokenFlights(c: Core, t: Task, id: ListId)
    requires WF(c) && t in c.tcb && c.tcb[t].wait.Waiting? && c.tcb[t].wait.id == id && Blocked(c.tcb[t])
    ensures var x := WakeTcb(c.tcb[t]);
            forall i, u ::
                u in Flying(Woken(c, t).flight, i) <==>
                  if u == t then Granted(x) && x.wait.id == i else u in Flying(c.flight, i)
  {
    assert Flights(c.tcb, c.flight);
    hide WF, Relocated, At, Tail, Where;
    var c', x := Woken(c, t), WakeTcb(c.tcb[t]);
    assert !Granted(c.tcb[t]);
    forall i, u ensures u in Flying(c'.flight, i) <==>
        if u == t then Granted(x) && x.wait.id == i else u in Flying(c.flight, i) {
      if i == id {
        assert Flying(c'.flight, i) == Flying(c.flight, i) + {t};
      } else {
        assert Flying(c'.flight, i) == Flying(c.flight, i);
        assert t !in Flying(c.flight, i);
      }
    }
  }

  lemma ExpiredWF(c: Core, t: Task)
    requires WF(c) && t in c.rem
    ensures t in c.tcb && WF(Expired(c, t)) && t in Expired(c, t).tcb && Unblocked(c.tcb[t], Expired(c, t).tcb[t])
    ensures Blocked(c.tcb[t]) ==>
              c.tcb[t].wait.Waiting? && !c.tcb[t].wait.id.Ready? && t in At(c.lists, c.tcb[t].wait.id)
              && c.tcb[t].timeout
    ensures !Blocked(c.tcb[t]) ==> c.tcb[t].delay && Where(c.tcb[t]) == None
  {
    assert Timers(c.tcb, c.rem) && Bits(c.tcb) && Placed(c.tcb, c.lists);
    hide WF, Fifo, Flights, Resolved, At;
    BitsAt(c.tcb, t);
    var x := ExpireTcb(c.tcb[t]);
    var c' := Expired(c, t);
    TailPlace(c, t, x);
    ExpiredBooks(c, t);
    assert TcbOk(x) && (Where(x).Some? ==> !IsFifo(Where(x).value));
    if Blocked(c.tcb[t]) { assert Where(c.tcb[t]) == Some(c.tcb[t].wait.id); }
    hide Books, Relocated, Where, At, Without, TcbOk, Placed;
    ShiftWF(c, c', t, x, Tail(c.lists, x));
  }

  lemma ExpiredBooks(c: Core, t: Task)
    requires WF(c) && t in c.tcb && Timed(c.tcb[t]) && TcbOk(c.tcb[t])
    ensures Books(c, Expired(c, t), t, ExpireTcb(c.tcb[t]))
  {
    assert Flights(c.tcb, c.flight) && Resolved(c.tcb, c.out);
    hide WF, Relocated, At, Tail, Where, Placed, Fifo, Timers;
  }

  lemma FinishedWF(c: Core, t: Task)
    requires WF(c) && t in c.tcb && c.tcb[t].wait.Waiting? && !Blocked(c.tcb[t])
    ensures WF(Finished(c, t))
  {
    assert Bits(c.tcb);
    BitsAt(c.tcb, t);
    hide WF, Fifo, Placed, Resolved, Timers, Flights, Bits, Books, Flying;
    var x := FinishTcb(c.tcb[t]);
    FinishedBooks(c, t);
    assert Where(x) == Where(c.tcb[t]) && TcbOk(x);
    AmendWF(c, Finished(c, t), t, x);
  }

  lemma FinishedBooks(c: Core, t: Task)
    requires WF(c) && t in c.tcb && c.tcb[t].wait.Waiting? && !Blocked(c.tcb[t])
    ensures Books(c, Finished(c, t), t, FinishTcb(c.tcb[t]))
  {
    var c', x, id := Finished(c, t), FinishTcb(c.tcb[t]), c.tcb[t].wait.id;
    assert Bits(c.tcb) && Flights(c.tcb, c.flight) && Timers(c.tcb, c.rem);
    BitsAt(c.tcb, t);
    hide WF, Fifo, Placed, Resolved;
    forall i, u ensures u in Flying(c'.flight, i) <==>
        if u == t then Granted(x) && x.wait.id == i else u in Flying(c.flight, i) {
      if i != id { assert Flying(c'.flight, i) == Flying(c.flight, i); }
    }
  }

  /** A task that is not in a wait list gets new bits that put it in no wait list either. */
  lemma ReplacedWF(c: Core, t: Task, x: Tcb)
    requires WF(c) && TcbOk(x) && !Blocked(x) && !x.delay && (t in c.tcb ==> !Blocked(c.tcb[t]) && !c.tcb[t].delay)
    requires if t in c.tcb then x.wait == c.tcb[t].wait && x.timeout == c.tcb[t].timeout else x.wait == NoWait
    ensures WF(Replaced(c, t, x))
  {
    assert Flights(c.tcb, c.flight) && Timers(c.tcb, c.rem) && Resolved(c.tcb, c.out);
    assert Books(c, Replaced(c, t, x), t, x);
    var p := if Where(x).Some? then |Without(At(c.lists, Where(x).value), t)| else 0;
    assert Where(x).Some? ==> !IsFifo(Where(x).value);
    hide WF, Books, Relocated, Where, At, Without, TcbOk;
    ShiftWF(c, Replaced(c, t, x), t, x, p);
  }

  /** New bits that leave a task on its list and its timer alone: suspending a blocked task, a priority while not
      ready. */
  function Amended(c: Core, t: Task, x: Tcb): Core
  {
    c.(tcb := c.tcb[t := x])
  }

  lemma AmendedWF(c: Core, t: Task, x: Tcb)
    requires WF(c) && t in c.tcb && TcbOk(x) && Where(x) == Where(c.tcb[t]) && Blocked(x) == Blocked(c.tcb[t])
             && x.delay == c.tcb[t].delay
    requires x.wait == c.tcb[t].wait && x.timeout == c.tcb[t].timeout
    ensures WF(Amended(c, t, x))
  {
    assert Flights(c.tcb, c.flight) && Timers(c.tcb, c.rem) && Resolved(c.tcb, c.out);
    assert Books(c, Amended(c, t, x), t, x);
    hide WF, Books, Where, TcbOk;
    AmendWF(c, Amended(c, t, x), t, x);
  }

  // ---------------------------------------------------------------- what the steps do to wait lists and flights

  ghost predicate SameWait(c: Core, c': Core, id: ListId)
  {
    At(c'.lists, id) == At(c.lists, id) && Flying(c'.flight, id) == Flying(c.flight, id)
  }

  lemma PendedEffect(c: Core, t: Task, id: ListId, call: Call, p: nat, timeout: Option<nat>)
    requires WF(c) && t in c.tcb && c.tcb[t].ready && !id.Ready? && p <= |At(c.lists, id)|
    ensures var c' := Pended(c, t, id, call, p, timeout);
            && At(c'.lists, id) == Inserted(At(c.lists, id), p, t) && Flying(c'.flight, id) == Flying(c.flight, id)
            && t !in At(c.lists, id)
            && forall o: ListId | o != id && !o.Ready? :: SameWait(c, c', o)
  {
    assert Placed(c.tcb, c.lists);
    hide WF, Inserted;
  }

  lemma WokenEffect(c: Core, t: Task, id: ListId)
    requires WF(c) && t in At(c.lists, id) && !id.Ready? && t in c.tcb && c.tcb[t].wait.Waiting?
             && c.tcb[t].wait.id == id
    ensures var c' := Woken(c, t);
            && At(c'.lists, id) == Without(At(c.lists, id), t) && Flying(c'.flight, id) == Flying(c.flight, id) + {t}
            && t !in Flying(c.flight, id)
            && forall o: ListId | o != id && !o.Ready? :: SameWait(c, c', o)
  {
    BlockedOnList(c, t, id);
    assert Flights(c.tcb, c.flight);
    hide WF, Inserted, Without;
  }

  lemma ExpiredEffect(c: Core, t: Task)
    requires WF(c) && t in c.rem && t in c.tcb
    ensures forall o: ListId | !o.Ready? ::
              At(Expired(c, t).lists, o)
              == (if Where(c.tcb[t]) == Some(o) then Without(At(c.lists, o), t) else At(c.lists, o))
    ensures forall o :: Flying(Expired(c, t).flight, o) == Flying(c.flight, o)
  {
    hide WF, Inserted, Without, Where, At;
    var x := ExpireTcb(c.tcb[t]);
    ExpiredWF(c, t);
    WhereReady(x);
    forall o: ListId | !o.Ready? ensures At(Expired(c, t).lists, o)
      == (if Where(c.tcb[t]) == Some(o) then Without(At(c.lists, o), t) else At(c.lists, o)) {
      RelocatedFrom(c.lists, Where(c.tcb[t]), Where(x), Tail(c.lists, x), t, o);
    }
  }

  lemma WhereReady(x: Tcb)
    requires !Blocked(x)
    ensures Where(x).Some? ==> Where(x).value.Ready?
  {
  }

  lemma RelocatedFrom(lists: map<ListId, seq<Task>>, from: Option<ListId>, to: Option<ListId>, p: nat, t: Task,
                      o: ListId)
    requires to != Some(o)
    ensures At(Relocated(lists, from, to, p, t), o) == if from == Some(o) then Without(At(lists, o), t)
            else At(lists, o)
  {
    hide Without;
  }

  lemma FinishedEffect(c: Core, t: Task)
    requires WF(c) && t in c.tcb && c.tcb[t].wait.Waiting?
    ensures var id := c.tcb[t].wait.id;
            && At(Finished(c, t).lists, id) == At(c.lists, id)
               && Flying(Finished(c, t).flight, id) == Flying(c.flight, id) - {t}
            && forall o | o != id :: SameWait(c, Finished(c, t), o)
  {
  }

  lemma ReplacedEffect(c: Core, t: Task, x: Tcb)
    requires WF(c) && !Blocked(x) && (t in c.tcb ==> !Blocked(c.tcb[t]))
    ensures forall o: ListId | !o.Ready? :: SameWait(c, Replaced(c, t, x), o)
  {
    hide WF, Inserted, Without, At;
    WhereReady(x);
    if t in c.tcb { WhereReady(c.tcb[t]); }
    forall o: ListId | !o.Ready? ensures SameWait(c, Replaced(c, t, x), o) {
      RelocatedFrom(c.lists, if t in c.tcb then Where(c.tcb[t]) else None, Where(x),
                    if Where(x).Some? then |Without(At(c.lists, Where(x).value), t)| else 0, t, o);
    }
  }

  /** Outside `mine`, a step begins no call, gives nobody anything and adds nobody to a wait list: waiters may only
      leave, with their calls unchanged. */
  ghost predicate Kept(c: Core, c': Core, mine: set<ListId>)
  {
    && c.tcb.Keys <= c'.tcb.Keys && NoNewCalls(c, c', mine)
    && forall o: ListId | !o.Ready? && o !in mine :: KeptAt(c, c', o)
  }

  ghost predicate NoNewCalls(c: Core, c': Core, mine: set<ListId>)
  {
    forall t | t in c'.tcb && c'.tcb[t].wait.Waiting? && c'.tcb[t].wait.id !in mine ::
        t in c.tcb && c'.tcb[t].wait == c.tcb[t].wait
  }

  ghost predicate KeptAt(c: Core, c': Core, o: ListId)
  {
    && Flying(c'.flight, o) == Flying(c.flight, o)
    && forall t | t in At(c'.lists, o) ::
         t in At(c.lists, o) && t in c.tcb && t in c'.tcb && c'.tcb[t].wait == c.tcb[t].wait
  }

  lemma StillEmpty(l': seq<Task>, l: seq<Task>)
    requires forall t | t in l' :: t in l
    ensures l == [] ==> l' == []
  {
    if l' != [] { assert l'[0] in l; }
  }

  lemma KeptTrans(c0: Core, c1: Core, c2: Core, mine: set<ListId>)
    requires Kept(c0, c1, mine) && Kept(c1, c2, mine)
    ensures Kept(c0, c2, mine)
  {
    forall o: ListId | !o.Ready? && o !in mine ensures KeptAt(c0, c2, o) {
      assert KeptAt(c0, c1, o) && KeptAt(c1, c2, o);
    }
  }

  lemma KeptRefl(c: Core, mine: set<ListId>)
    requires WF(c)
    ensures Kept(c, c, mine)
  {
    forall o: ListId | !o.Ready? && o !in mine ensures KeptAt(c, c, o) {
      WaitersThere(c, o);
    }
  }

  lemma WaitersThere(c: Core, o: ListId)
    requires WF(c) && !o.Ready?
    ensures forall t | t in At(c.lists, o) ::
              t in c.tcb && Where(c.tcb[t]) == Some(o) && Blocked(c.tcb[t]) && c.tcb[t].wait.Waiting?
              && c.tcb[t].wait.id == o
  {
    forall t | t in At(c.lists, o) ensures t in c.tcb && Where(c.tcb[t]) == Some(o) && Blocked(c.tcb[t])
      && c.tcb[t].wait.Waiting? && c.tcb[t].wait.id == o {
      BlockedOnList(c, t, o);
    }
  }

  /** A step that changes only `t`'s bits and leaves the lists in `o` as they were, or without `t`. */
  lemma KeptOne(c: Core, c': Core, t: Task, o: ListId)
    requires WF(c) && !o.Ready? && Flying(c'.flight, o) == Flying(c.flight, o) && c'.tcb.Keys == c.tcb.Keys + {t}
    requires forall u | u in c.tcb && u != t :: c'.tcb[u] == c.tcb[u]
    requires forall u | u in At(c'.lists, o) ::
               u in At(c.lists, o) && (u == t ==> t in c.tcb && c'.tcb[t].wait == c.tcb[t].wait)
    ensures KeptAt(c, c', o)
  {
    WaitersThere(c, o);
  }

  lemma PendedKept(c: Core, t: Task, id: ListId, call: Call, p: nat, timeout: Option<nat>)
    requires WF(c) && t in c.tcb && c.tcb[t].ready && !id.Ready? && p <= |At(c.lists, id)|
    ensures Kept(c, Pended(c, t, id, call, p, timeout), {id})
  {
    var c' := Pended(c, t, id, call, p, timeout);
    PendedEffect(c, t, id, call, p, timeout);
    hide Kept, KeptAt, WF, Relocated;
    forall o: ListId | !o.Ready? && o != id ensures KeptAt(c, c', o) {
      assert SameWait(c, c', o);
      NotReadyHere(c, t, o);
      KeptOne(c, c', t, o);
    }
    MakeKept(c, c', {id});
  }

  lemma NotReadyHere(c: Core, t: Task, o: ListId)
    requires WF(c) && t in c.tcb && !Blocked(c.tcb[t]) && !o.Ready?
    ensures t !in At(c.lists, o)
  {
    WaitersThere(c, o);
  }

  lemma MakeKept(c: Core, c': Core, mine: set<ListId>)
    requires c.tcb.Keys <= c'.tcb.Keys && NoNewCalls(c, c', mine)
             && forall o: ListId | !o.Ready? && o !in mine :: KeptAt(c, c', o)
    ensures Kept(c, c', mine)
  {
  }

  lemma WokenKept(c: Core, t: Task, id: ListId)
    requires WF(c) && t in At(c.lists, id) && !id.Ready? && t in c.tcb && c.tcb[t].wait.Waiting?
             && c.tcb[t].wait.id == id
    ensures Kept(c, Woken(c, t), {id})
  {
    var c' := Woken(c, t);
    WokenEffect(c, t, id);
    hide Kept, KeptAt, WF, Relocated;
    forall o: ListId | !o.Ready? && o != id ensures KeptAt(c, c', o) {
      assert SameWait(c, c', o);
      KeptOne(c, c', t, o);
    }
    MakeKept(c, c', {id});
  }

  lemma ExpiredKept(c: Core, t: Task)
    requires WF(c) && t in c.rem && t in c.tcb
    ensures Kept(c, Expired(c, t), {})
  {
    var c' := Expired(c, t);
    ExpiredEffect(c, t);
    assert Different(At(c.lists, Ready(0)));
    hide Kept, KeptAt, WF, Relocated, At, Where, Without;
    forall o: ListId | !o.Ready? ensures KeptAt(c, c', o) {
      ListDifferent(c, o);
      WithoutElements(At(c.lists, o), t);
      KeptOne(c, c', t, o);
    }
    MakeKept(c, c', {});
  }

  lemma ListDifferent(c: Core, o: ListId)
    requires WF(c)
    ensures Different(At(c.lists, o))
  {
    assert Placed(c.tcb, c.lists);
    hide WF;
  }

  lemma FinishedKept(c: Core, t: Task)
    requires WF(c) && t in c.tcb && c.tcb[t].wait.Waiting? && !Blocked(c.tcb[t])
    ensures Kept(c, Finished(c, t), {c.tcb[t].wait.id})
    ensures c.tcb[t].timeout ==> Kept(c, Finished(c, t), {})
  {
    var c', id := Finished(c, t), c.tcb[t].wait.id;
    FinishedEffect(c, t);
    assert c.tcb[t].timeout ==> t !in Flying(c.flight, id) by { assert Flights(c.tcb, c.flight); }
    assert Bits(c.tcb);
    BitsAt(c.tcb, t);
    hide Kept, KeptAt, WF, Bits;
    forall o: ListId | !o.Ready? && (o != id || c.tcb[t].timeout) ensures KeptAt(c, c', o) {
      if o != id { assert SameWait(c, c', o); }
      NotReadyHere(c, t, o);
      KeptOne(c, c', t, o);
    }
    MakeKept(c, c', {id});
    if c.tcb[t].timeout { MakeKept(c, c', {}); }
  }

  lemma ReplacedKept(c: Core, t: Task, x: Tcb)
    requires WF(c) && !Blocked(x) && (t in c.tcb ==> !Blocked(c.tcb[t]))
    requires if t in c.tcb then x.wait == c.tcb[t].wait else x.wait == NoWait
    ensures Kept(c, Replaced(c, t, x), {})
  {
    var c' := Replaced(c, t, x);
    ReplacedEffect(c, t, x);
    hide Kept, KeptAt, WF, Relocated;
    forall o: ListId | !o.Ready? ensures KeptAt(c, c', o) {
      assert SameWait(c, c', o);
      WaitersThere(c, o);
      KeptOne(c, c', t, o);
    }
    MakeKept(c, c', {});
  }

  lemma AmendedKept(c: Core, t: Task, x: Tcb)
    requires WF(c) && t in c.tcb && x.wait == c.tcb[t].wait
    ensures Kept(c, Amended(c, t, x), {})
  {
    var c' := Amended(c, t, x);
    hide Kept, KeptAt, WF;
    forall o: ListId | !o.Ready? ensures KeptAt(c, c', o) {
      KeptOne(c, c', t, o);
    }
    MakeKept(c, c', {});
  }

  // ---------------------------------------------------------------- delay and tick

  function DelayTcb(x: Tcb): Tcb { x.(ready := false, delay := true) }

  function Delayed(c: Core, t: Task, uwTick: nat): Core
    requires t in c.tcb
  {
    c.(tcb := c.tcb[t := DelayTcb(c.tcb[t])], lists := Relocated(c.lists, Where(c.tcb[t]), None, 0, t),
      rem := c.rem[t := uwTick])
  }

  lemma DelayedWF(c: Core, t: Task, uwTick: nat)
    requires WF(c) && t in c.tcb && c.tcb[t].ready && c.tcb[t].wait.NoWait?
    ensures WF(Delayed(c, t, uwTick)) && Kept(c, Delayed(c, t, uwTick), {})
  {
    var c', x := Delayed(c, t, uwTick), DelayTcb(c.tcb[t]);
    assert Bits(c.tcb) && Flights(c.tcb, c.flight) && Timers(c.tcb, c.rem);
    BitsAt(c.tcb, t);
    assert Books(c, c', t, x) && TcbOk(x) && Where(x) == None && Where(c.tcb[t]) == Some(Ready(c.tcb[t].usPriority));
    hide WF, Bits, Flights, Timers, Books, Relocated, TcbOk, Where, Kept, KeptAt;
    ShiftWF(c, c', t, x, 0);
    forall o: ListId | !o.Ready? ensures KeptAt(c, c', o) {
      RelocatedOthers(c.lists, Where(c.tcb[t]), None, 0, t, o);
      NotReadyHere(c, t, o);
      KeptOne(c, c', t, o);
    }
    MakeKept(c, c', {});
  }

  /** Only which tasks have timers matters, not how much time they have. */
  lemma RemWF(c: Core, rem: map<Task, int>)
    requires WF(c) && rem.Keys == c.rem.Keys
    ensures WF(c.(rem := rem)) && Kept(c, c.(rem := rem), {})
  {
    assert Timers(c.tcb, rem);
    KeptRefl(c, {});
    hide Bits, Placed, Timers, Flights, Resolved, Fifo, Flying, At;
    forall o: ListId | !o.Ready? ensures KeptAt(c, c.(rem := rem), o) {
      assert KeptAt(c, c, o);
    }
  }

  /** What a tick does to the bits: the tasks in `due` expire, the others are left alone. */
  function ExpiredTcbs(tcb: map<Task, Tcb>, due: set<Task>): map<Task, Tcb>
  {
    map t | t in tcb :: if t in due then ExpireTcb(tcb[t]) else tcb[t]
  }

  function Zeros(ts: seq<Task>): map<Task, int>
  {
    map t | t in ts :: 0
  }

  /** On a first-come-first-served list the head came first. */
  lemma HeadCameFirst(c: Core, id: ListId)
    requires WF(c) && IsFifo(id) && At(c.lists, id) != []
    ensures forall u | u in At(c.lists, id) :: StampOf(c.stamp, At(c.lists, id)[0]) <= StampOf(c.stamp, u)
  {
    assert InOrder(At(c.lists, id), c.stamp);
  }

  /** Granted or timed out, never both, and not before the call is over: the call in progress of `t` tells which. */
  lemma OneOutcome(c: Core, t: Task)
    requires WF(c) && t in c.tcb && c.tcb[t].wait.Waiting?
    ensures t in c.out
    ensures c.out[t] == [] <==> t in At(c.lists, c.tcb[t].wait.id)
    ensures c.out[t] == [Given] <==> t in Flying(c.flight, c.tcb[t].wait.id)
    ensures c.out[t] == [TimedOut] <==> c.tcb[t].timeout && t !in At(c.lists, c.tcb[t].wait.id)
    ensures c.out[t] == [] || c.out[t] == [Given] || c.out[t] == [TimedOut]
  {
    assert Resolved(c.tcb, c.out) && Placed(c.tcb, c.lists) && Flights(c.tcb, c.flight) && Bits(c.tcb);
    BitsAt(c.tcb, t);
    assert Where(c.tcb[t]) == Some(c.tcb[t].wait.id) <==> Blocked(c.tcb[t]);
    hide WF, Fifo, Timers;
  }
  ghost predicate SamePriorities(c: Core, c': Core)
  {
    c'.tcb.Keys == c.tcb.Keys && forall t | t in c.tcb :: c'.tcb[t].usPriority == c.tcb[t].usPriority
  }

  ghost predicate OnlyTask(c: Core, c': Core, t: Task)
  {
    forall u | u in c.tcb && u != t :: u in c'.tcb && c'.tcb[u] == c.tcb[u]
  }

  // ---------------------------------------------------------------- waiting in order of priority

  function PriorityOf(c: Core, t: Task): nat
  {
    if t in c.tcb then c.tcb[t].usPriority else 0
  }

  /** Place `p` is in front of the first waiter that is less urgent than `t`. */
  ghost predicate FirstLessUrgent(c: Core, l: seq<Task>, t: Task, p: nat)
  {
    && p <= |l| && (forall i | 0 <= i < p :: PriorityOf(c, l[i]) <= PriorityOf(c, t))
    && (p < |l| ==> PriorityOf(c, t) < PriorityOf(c, l[p]))
  }

  ghost predicate ByPriority(c: Core, l: seq<Task>)
  {
    forall i, j | 0 <= i < j < |l| :: PriorityOf(c, l[i]) <= PriorityOf(c, l[j])
  }

  /** As long as no waiter's priority changes, waiters stand in order of priority, and among equals the newcomer stands
      last. */
  lemma InsertedByPriority(c: Core, l: seq<Task>, t: Task, p: nat)
    requires ByPriority(c, l) && FirstLessUrgent(c, l, t, p)
    ensures ByPriority(c, Inserted(l, p, t))
    ensures forall i | p < i < |l| + 1 ::
              |Inserted(l, p, t)| == |l| + 1 && PriorityOf(c, Inserted(l, p, t)[i]) > PriorityOf(c, t)
  {
    InsertedElements(l, p, t);
    hide Inserted, PriorityOf;
    assert forall i | p <= i < |l| :: PriorityOf(c, l[i]) >= PriorityOf(c, l[p]);
  }
}
