/** Message queues (kernel/base/ipc/los_queue.c): a ring of slots, two counters, and two wait lists.  A task that is
    woken has been handed a slot that neither counter shows; it uses the slot when it resumes. */
module Queue {
  import opened DeltaList
  import opened Errno
  import opened Steps
  import opened Tasks
  import opened TaskSystem

  const UINT16_MAX: nat := 0xFFFF

  datatype QueueCb = QueueCb(used: bool, usQueueLen: nat, usQueueSize: nat, usQueueHead: nat, usQueueTail: nat,
                             usReadableCnt: nat, usWritableCnt: nat, ring: seq<int>)

  /** All messages written to a queue since it was created, how many of them have been read, and what the readers
      got. */
  datatype History = History(written: seq<int>, nRead: nat, got: seq<int>)

  function WroteOne(h: History, d: int): History { h.(written := h.written + [d]) }

  function ReadOne(h: History, d: int): History { h.(nRead := h.nRead + 1, got := h.got + [d]) }

  /** The slot `i` places behind the head. */
  function Slot(q: QueueCb, i: nat): nat
  {
    if q.usQueueHead + i < q.usQueueLen then q.usQueueHead + i else q.usQueueHead + i - q.usQueueLen
  }

  /** What the next reader will get. */
  function HeadSlot(q: QueueCb): int
  {
    if q.usQueueHead < |q.ring| then q.ring[q.usQueueHead] else 0
  }

  /** The ring holds exactly the messages written and not read yet, in the order in which they were written; the others
      have been read, in that order. */
  ghost predicate RingOk(q: QueueCb, h: History)
  {
    && 0 < q.usQueueLen == |q.ring| && q.usQueueHead < q.usQueueLen && q.usQueueTail < q.usQueueLen
    && h.nRead <= |h.written| <= h.nRead + q.usQueueLen && h.got == h.written[..h.nRead]
    && q.usQueueTail == (if |h.written| == h.nRead + q.usQueueLen then q.usQueueHead
       else Slot(q, |h.written| - h.nRead))
    && forall i | 0 <= i < |h.written| - h.nRead :: SlotOk(q, h, i)
  }

  ghost predicate SlotOk(q: QueueCb, h: History, i: nat)
    requires q.usQueueHead < q.usQueueLen == |q.ring| && i < q.usQueueLen && h.nRead + i < |h.written|
  {
    q.ring[Slot(q, i)] == h.written[h.nRead + i]
  }

  /** Full slots are those that a reader may take at once and those that a woken reader will; empty ones likewise. */
  ghost predicate CountsOk(q: QueueCb, h: History, readers: nat, writers: nat)
  {
    && |h.written| - h.nRead == q.usReadableCnt + readers
    && q.usQueueLen - (|h.written| - h.nRead) == q.usWritableCnt + writers
  }

  ghost predicate WaitersOk(q: QueueCb, waitingReaders: seq<Task>, waitingWriters: seq<Task>)
  {
    && (waitingReaders != [] ==> q.usReadableCnt == 0)
    && (waitingWriters != [] ==> q.usWritableCnt == 0)
  }

  ghost predicate OneOk(cbs: seq<QueueCb>, hist: seq<History>, c: Core, k: nat)
    requires k < |cbs| && |hist| == |cbs|
  {
    var q, h := cbs[k], hist[k];
    if q.used then
      && RingOk(q, h) && CountsOk(q, h, |Flying(c.flight, RdL(k))|, |Flying(c.flight, WrL(k))|)
      && WaitersOk(q, At(c.lists, RdL(k)), At(c.lists, WrL(k)))
    else
      && At(c.lists, RdL(k)) == [] && At(c.lists, WrL(k)) == [] && Flying(c.flight, RdL(k)) == {}
         && Flying(c.flight, WrL(k)) == {}
  }

  /** A blocked or woken write knows its message. */
  ghost predicate CallsOk(c: Core)
  {
    forall t | t in c.tcb && c.tcb[t].wait.Waiting? && c.tcb[t].wait.id.WrL? :: c.tcb[t].wait.call.Message?
  }

  ghost predicate QueuesOk(cbs: seq<QueueCb>, hist: seq<History>, c: Core)
  {
    |hist| == |cbs| && CallsOk(c) && forall k | 0 <= k < |cbs| :: OneOk(cbs, hist, c, k)
  }

  lemma OneKept(cbs: seq<QueueCb>, hist: seq<History>, c: Core, c': Core, mine: set<ListId>, k: nat)
    requires |hist| == |cbs| && k < |cbs| && OneOk(cbs, hist, c, k) && Kept(c, c', mine) && RdL(k) !in mine
             && WrL(k) !in mine
    ensures OneOk(cbs, hist, c', k)
  {
    assert KeptAt(c, c', RdL(k)) && KeptAt(c, c', WrL(k));
    StillEmpty(At(c'.lists, RdL(k)), At(c.lists, RdL(k)));
    StillEmpty(At(c'.lists, WrL(k)), At(c.lists, WrL(k)));
  }

  lemma QueuesKept(cbs: seq<QueueCb>, hist: seq<History>, c: Core, c': Core, mine: set<ListId>)
    requires QueuesOk(cbs, hist, c) && Kept(c, c', mine) && forall o | o in mine :: !o.RdL? && !o.WrL?
    ensures QueuesOk(cbs, hist, c')
  {
    forall k | 0 <= k < |cbs| ensures OneOk(cbs, hist, c', k) {
      OneKept(cbs, hist, c, c', mine, k);
    }
  }

  lemma OthersKept(cbs: seq<QueueCb>, hist: seq<History>, cbs': seq<QueueCb>, hist': seq<History>, c: Core, c': Core,
                   k: nat)
    requires QueuesOk(cbs, hist, c) && k < |cbs| && Kept(c, c', {RdL(k), WrL(k)}) && CallsOk(c')
    requires |cbs'| == |cbs| && |hist'| == |hist|
             && forall j | 0 <= j < |cbs| && j != k :: cbs'[j] == cbs[j] && hist'[j] == hist[j]
    requires OneOk(cbs', hist', c', k)
    ensures QueuesOk(cbs', hist', c')
  {
    forall j | 0 <= j < |cbs'| ensures OneOk(cbs', hist', c', j) {
      assert OneOk(cbs, hist, c, j);
      if j != k { OneKept(cbs, hist, c, c', {RdL(k), WrL(k)}, j); }
    }
  }

  // ---------------------------------------------------------------- the ring

  function Next(q: QueueCb, i: nat): nat
  {
    if i + 1 == q.usQueueLen then 0 else i + 1
  }

  function TakeSlot(q: QueueCb): QueueCb { q.(usQueueHead := Next(q, q.usQueueHead)) }

  function PutSlot(q: QueueCb, d: int): QueueCb
    requires q.usQueueTail < |q.ring|
  {
    q.(ring := q.ring[q.usQueueTail := d], usQueueTail := Next(q, q.usQueueTail))
  }

  /** Reading at the head gives the oldest message that has not been read. */
  lemma TakeRing(q: QueueCb, h: History)
    requires RingOk(q, h) && h.nRead < |h.written|
    ensures q.ring[q.usQueueHead] == h.written[h.nRead] && RingOk(TakeSlot(q), ReadOne(h, HeadSlot(q)))
  {
    assert SlotOk(q, h, 0);
    var q', h' := TakeSlot(q), ReadOne(h, HeadSlot(q));
    forall i | 0 <= i < |h'.written| - h'.nRead ensures SlotOk(q', h', i) {
      assert SlotOk(q, h, i + 1);
    }
  }

  lemma PutRing(q: QueueCb, h: History, d: int)
    requires RingOk(q, h) && |h.written| < h.nRead + q.usQueueLen
    ensures RingOk(PutSlot(q, d), WroteOne(h, d))
  {
    var q', h' := PutSlot(q, d), WroteOne(h, d);
    forall i | 0 <= i < |h'.written| - h'.nRead ensures SlotOk(q', h', i) {
      if i < |h.written| - h.nRead { assert SlotOk(q, h, i); }
    }
  }

  /** The count test of `LOS_QueueDelete` passes exactly if no woken reader and no woken writer is in flight. */
  lemma DeleteTest(q: QueueCb, h: History, readers: nat, writers: nat)
    requires CountsOk(q, h, readers, writers)
    ensures q.usWritableCnt + q.usReadableCnt == q.usQueueLen <==> readers == 0 && writers == 0
  {
  }

  /** Queue `k` while a call is at work on it: it owes a read (`dr`) or a write (`dw`) that its counters no longer
      show. */
  ghost predicate Owed(cbs: seq<QueueCb>, hist: seq<History>, c: Core, k: nat, dr: nat, dw: nat)
    requires k < |cbs| && |hist| == |cbs|
  {
    var q, h := cbs[k], hist[k];
    && q.used && RingOk(q, h) && CountsOk(q, h, |Flying(c.flight, RdL(k))| + dr, |Flying(c.flight, WrL(k))| + dw)
    && WaitersOk(q, At(c.lists, RdL(k)), At(c.lists, WrL(k)))
  }

  lemma OwedUsed(cbs: seq<QueueCb>, hist: seq<History>, c: Core, k: nat)
    requires k < |cbs| && |hist| == |cbs| && (Owed(cbs, hist, c, k, 1, 0) || Owed(cbs, hist, c, k, 0, 1))
    ensures cbs[k].used
  {
  }

  ghost predicate RestOk(cbs: seq<QueueCb>, hist: seq<History>, c: Core, k: nat)
  {
    |hist| == |cbs| && CallsOk(c) && forall j | 0 <= j < |cbs| && j != k :: OneOk(cbs, hist, c, j)
  }

  lemma RestKept(cbs: seq<QueueCb>, hist: seq<History>, cbs': seq<QueueCb>, hist': seq<History>, c: Core, c': Core,
                 k: nat)
    requires RestOk(cbs, hist, c, k) && Kept(c, c', {RdL(k), WrL(k)}) && CallsOk(c')
    requires |cbs'| == |cbs| && |hist'| == |hist|
             && forall j | 0 <= j < |cbs| && j != k :: cbs'[j] == cbs[j] && hist'[j] == hist[j]
    ensures RestOk(cbs', hist', c', k)
  {
    forall j | 0 <= j < |cbs'| && j != k ensures OneOk(cbs', hist', c', j) {
      assert OneOk(cbs, hist, c, j);
      OneKept(cbs, hist, c, c', {RdL(k), WrL(k)}, j);
    }
  }

  lemma MakeQueues(cbs: seq<QueueCb>, hist: seq<History>, c: Core, k: nat)
    requires RestOk(cbs, hist, c, k) && (k < |cbs| ==> OneOk(cbs, hist, c, k))
    ensures QueuesOk(cbs, hist, c)
  {
  }

  lemma RestOf(cbs: seq<QueueCb>, hist: seq<History>, c: Core, k: nat)
    requires QueuesOk(cbs, hist, c)
    ensures RestOk(cbs, hist, c, k) && (k < |cbs| ==> OneOk(cbs, hist, c, k))
  {
  }

  /** Taking one of the slots that the counter shows. */
  lemma TakeReadable(cbs: seq<QueueCb>, hist: seq<History>, c: Core, k: nat)
    requires QueuesOk(cbs, hist, c) && k < |cbs| && cbs[k].used && cbs[k].usReadableCnt > 0
    ensures var cbs' := cbs[k := cbs[k].(usReadableCnt := cbs[k].usReadableCnt - 1)];
            Owed(cbs', hist, c, k, 1, 0) && RestOk(cbs', hist, c, k)
  {
    assert OneOk(cbs, hist, c, k);
    var q, q' := cbs[k], cbs[k].(usReadableCnt := cbs[k].usReadableCnt - 1);
    SameRing(q, q', hist[k]);
    var cbs' := cbs[k := q'];
    forall j | 0 <= j < |cbs'| && j != k ensures OneOk(cbs', hist, c, j) { assert OneOk(cbs, hist, c, j); }
  }

  lemma TakeWritable(cbs: seq<QueueCb>, hist: seq<History>, c: Core, k: nat)
    requires QueuesOk(cbs, hist, c) && k < |cbs| && cbs[k].used && cbs[k].usWritableCnt > 0
    ensures var cbs' := cbs[k := cbs[k].(usWritableCnt := cbs[k].usWritableCnt - 1)];
            Owed(cbs', hist, c, k, 0, 1) && RestOk(cbs', hist, c, k)
  {
    assert OneOk(cbs, hist, c, k);
    var q, q' := cbs[k], cbs[k].(usWritableCnt := cbs[k].usWritableCnt - 1);
    SameRing(q, q', hist[k]);
    var cbs' := cbs[k := q'];
    forall j | 0 <= j < |cbs'| && j != k ensures OneOk(cbs', hist, c, j) { assert OneOk(cbs, hist, c, j); }
  }

  lemma SameRing(q: QueueCb, q': QueueCb, h: History)
    requires RingOk(q, h) && q'.usQueueLen == q.usQueueLen && q'.usQueueHead == q.usQueueHead
             && q'.usQueueTail == q.usQueueTail && q'.ring == q.ring
    ensures RingOk(q', h)
  {
    forall i | 0 <= i < |h.written| - h.nRead ensures SlotOk(q', h, i) { assert SlotOk(q, h, i); }
  }

  /** A woken call takes over the slot that it was handed. */
  lemma ResumeOwes(cbs: seq<QueueCb>, hist: seq<History>, c: Core, c': Core, t: Task, k: nat)
    requires QueuesOk(cbs, hist, c) && FinishStep(c, c', t, false) && k < |cbs|
             && (c.tcb[t].wait.id == RdL(k) || c.tcb[t].wait.id == WrL(k))
    ensures Kept(c, c', {RdL(k), WrL(k)}) && RestOk(cbs, hist, c', k) && cbs[k].used
    ensures c.tcb[t].wait.id == RdL(k) ==> Owed(cbs, hist, c', k, 1, 0)
    ensures c.tcb[t].wait.id == WrL(k) ==> Owed(cbs, hist, c', k, 0, 1) && c.tcb[t].wait.call.Message?
  {
    var id := c.tcb[t].wait.id;
    var other := if id == RdL(k) then WrL(k) else RdL(k);
    assert OneOk(cbs, hist, c, k);
    KeptWider(c, c', {id}, {RdL(k), WrL(k)});
    CallsFinished(c, c', t);
    RestOf(cbs, hist, c, k);
    RestKept(cbs, hist, cbs, hist, c, c', k);
    OtherList(c, c', id, other);
    assert t in Flying(c.flight, id);
    assert |Flying(c'.flight, id)| == |Flying(c.flight, id)| - 1;
  }

  lemma CallsFinished(c: Core, c': Core, t: Task)
    requires CallsOk(c) && OnlyTask(c, c', t) && SamePriorities(c, c') && t in c'.tcb && c'.tcb[t].wait.NoWait?
    ensures CallsOk(c')
  {
  }

  lemma KeptWider(c: Core, c': Core, mine: set<ListId>, more: set<ListId>)
    requires Kept(c, c', mine) && mine <= more
    ensures Kept(c, c', more)
  {
  }

  /** The other list of the queue loses nobody and gains nobody. */
  lemma OtherList(c: Core, c': Core, id: ListId, other: ListId)
    requires Kept(c, c', {id}) && other != id && !other.Ready?
    ensures Flying(c'.flight, other) == Flying(c.flight, other)
            && (At(c.lists, other) == [] ==> At(c'.lists, other) == [])
  {
    assert KeptAt(c, c', other);
    StillEmpty(At(c'.lists, other), At(c.lists, other));
  }

  /** A timed-out call has been handed nothing. */
  lemma TimeoutKeeps(cbs: seq<QueueCb>, hist: seq<History>, c: Core, c': Core, t: Task)
    requires QueuesOk(cbs, hist, c) && FinishStep(c, c', t, true) && (c.tcb[t].wait.id.RdL? || c.tcb[t].wait.id.WrL?)
    ensures QueuesOk(cbs, hist, c')
  {
    var id := c.tcb[t].wait.id;
    var k := id.q;
    var other := if id.RdL? then WrL(k) else RdL(k);
    KeptWider(c, c', {id}, {RdL(k), WrL(k)});
    CallsFinished(c, c', t);
    RestOf(cbs, hist, c, k);
    RestKept(cbs, hist, cbs, hist, c, c', k);
    OtherList(c, c', id, other);
    assert Flying(c'.flight, id) == Flying(c.flight, id);
    MakeQueues(cbs, hist, c', k);
  }

  /** The read itself, when no writer waits: the slot shows in the writable counter. */
  lemma ReadFree(cbs: seq<QueueCb>, hist: seq<History>, c: Core, k: nat)
    requires |hist| == |cbs| && k < |cbs| && Owed(cbs, hist, c, k, 1, 0) && RestOk(cbs, hist, c, k)
             && At(c.lists, WrL(k)) == []
    ensures hist[k].nRead < |hist[k].written| && cbs[k].usQueueHead < |cbs[k].ring|
            && cbs[k].ring[cbs[k].usQueueHead] == hist[k].written[hist[k].nRead]
    ensures var q, h := cbs[k], hist[k];
            QueuesOk(cbs[k := TakeSlot(q).(usWritableCnt := q.usWritableCnt + 1)], hist[k := ReadOne(h, HeadSlot(q))],
              c)
  {
    var q, h := cbs[k], hist[k];
    TakeRing(q, h);
    var q', h' := TakeSlot(q).(usWritableCnt := q.usWritableCnt + 1), ReadOne(h, HeadSlot(q));
    SameRing(TakeSlot(q), q', h');
    RestChanged(cbs, hist, c, k, q', h');
  }

  lemma RestChanged(cbs: seq<QueueCb>, hist: seq<History>, c: Core, k: nat, q: QueueCb, h: History)
    requires RestOk(cbs, hist, c, k) && k < |cbs| && OneOk(cbs[k := q], hist[k := h], c, k)
    ensures QueuesOk(cbs[k := q], hist[k := h], c)
  {
    var cbs', hist' := cbs[k := q], hist[k := h];
    forall j | 0 <= j < |cbs| && j != k ensures OneOk(cbs', hist', c, j) { assert OneOk(cbs, hist, c, j); }
  }

  /** The read itself, when a writer waits: the slot goes to it. */
  lemma ReadHanded(cbs: seq<QueueCb>, hist: seq<History>, c: Core, c': Core, k: nat, w: Task)
    requires |hist| == |cbs| && k < |cbs| && Owed(cbs, hist, c, k, 1, 0) && RestOk(cbs, hist, c, k)
             && WakeStep(c, c', w, WrL(k))
    ensures hist[k].nRead < |hist[k].written| && cbs[k].usQueueHead < |cbs[k].ring|
            && cbs[k].ring[cbs[k].usQueueHead] == hist[k].written[hist[k].nRead]
    ensures var q, h := cbs[k], hist[k]; QueuesOk(cbs[k := TakeSlot(q)], hist[k := ReadOne(h, HeadSlot(q))], c')
  {
    var q, h := cbs[k], hist[k];
    TakeRing(q, h);
    WokenCounts(c, c', w, WrL(k), RdL(k));
    KeptWider(c, c', {WrL(k)}, {RdL(k), WrL(k)});
    CallsWoken(c, c', w);
    RestKept(cbs, hist, cbs, hist, c, c', k);
    RestChanged(cbs, hist, c', k, TakeSlot(q), ReadOne(h, HeadSlot(q)));
  }

  lemma WokenCounts(c: Core, c': Core, w: Task, id: ListId, other: ListId)
    requires WakeStep(c, c', w, id) && other != id && !other.Ready?
    ensures At(c.lists, id) != [] && |Flying(c'.flight, id)| == |Flying(c.flight, id)| + 1
    ensures Flying(c'.flight, other) == Flying(c.flight, other)
            && (At(c.lists, other) == [] ==> At(c'.lists, other) == [])
  {
    OtherList(c, c', id, other);
  }

  lemma CallsWoken(c: Core, c': Core, w: Task)
    requires CallsOk(c) && OnlyTask(c, c', w) && SamePriorities(c, c') && w in c.tcb && w in c'.tcb
             && c'.tcb[w] == WakeTcb(c.tcb[w])
    ensures CallsOk(c')
  {
  }

  lemma WriteFree(cbs: seq<QueueCb>, hist: seq<History>, c: Core, k: nat, d: int)
    requires |hist| == |cbs| && k < |cbs| && Owed(cbs, hist, c, k, 0, 1) && RestOk(cbs, hist, c, k)
             && At(c.lists, RdL(k)) == []
    ensures cbs[k].usQueueTail < |cbs[k].ring|
    ensures var q, h := cbs[k], hist[k];
            QueuesOk(cbs[k := PutSlot(q, d).(usReadableCnt := q.usReadableCnt + 1)], hist[k := WroteOne(h, d)], c)
  {
    var q, h := cbs[k], hist[k];
    PutRing(q, h, d);
    var q', h' := PutSlot(q, d).(usReadableCnt := q.usReadableCnt + 1), WroteOne(h, d);
    SameRing(PutSlot(q, d), q', h');
    RestChanged(cbs, hist, c, k, q', h');
  }

  lemma WriteHanded(cbs: seq<QueueCb>, hist: seq<History>, c: Core, c': Core, k: nat, w: Task, d: int)
    requires |hist| == |cbs| && k < |cbs| && Owed(cbs, hist, c, k, 0, 1) && RestOk(cbs, hist, c, k)
             && WakeStep(c, c', w, RdL(k))
    ensures cbs[k].usQueueTail < |cbs[k].ring|
    ensures var q, h := cbs[k], hist[k]; QueuesOk(cbs[k := PutSlot(q, d)], hist[k := WroteOne(h, d)], c')
  {
    var q, h := cbs[k], hist[k];
    PutRing(q, h, d);
    WokenCounts(c, c', w, RdL(k), WrL(k));
    KeptWider(c, c', {RdL(k)}, {RdL(k), WrL(k)});
    CallsWoken(c, c', w);
    RestKept(cbs, hist, cbs, hist, c, c', k);
    RestChanged(cbs, hist, c', k, PutSlot(q, d), WroteOne(h, d));
  }

  /** A new waiter finds nothing to take. */
  lemma WaitKeeps(cbs: seq<QueueCb>, hist: seq<History>, c: Core, c': Core, t: Task, id: ListId, call: Call, p: nat,
                  timeout: Option<nat>, k: nat)
    requires QueuesOk(cbs, hist, c) && k < |cbs| && cbs[k].used && PendStep(c, c', t, id, call, p, timeout)
    requires (id == RdL(k) && cbs[k].usReadableCnt == 0) || (id == WrL(k) && cbs[k].usWritableCnt == 0 && call.Message?)
    ensures QueuesOk(cbs, hist, c') && Kept(c, c', {RdL(k), WrL(k)})
  {
    var other := if id == RdL(k) then WrL(k) else RdL(k);
    assert OneOk(cbs, hist, c, k);
    KeptWider(c, c', {id}, {RdL(k), WrL(k)});
    CallsPended(c, c', t);
    RestOf(cbs, hist, c, k);
    RestKept(cbs, hist, cbs, hist, c, c', k);
    OtherList(c, c', id, other);
    MakeQueues(cbs, hist, c', k);
  }

  lemma CallsPended(c: Core, c': Core, t: Task)
    requires CallsOk(c) && OnlyTask(c, c', t) && SamePriorities(c, c') && t in c'.tcb && c'.tcb[t].wait.Waiting?
    requires c'.tcb[t].wait.id.WrL? ==> c'.tcb[t].wait.call.Message?
    ensures CallsOk(c')
  {
  }

  /** If anybody waited on `id`, the first waiter, and nobody else, has been handed what it waited for. */
  ghost predicate FirstServed(c: Core, c': Core, id: ListId)
  {
    var l := At(c.lists, id);
    if l == [] then
      At(c'.lists, id) == [] && Flying(c'.flight, id) == Flying(c.flight, id)
    else
      At(c'.lists, id) == l[1..] && Flying(c'.flight, id) == Flying(c.flight, id) + {l[0]} && l[0] in c'.out
        && c'.out[l[0]] == [Given]
  }

  lemma Served(c: Core, c': Core, w: Task, id: ListId)
    requires WakeStep(c, c', w, id) && At(c.lists, id) != [] && w == At(c.lists, id)[0]
    ensures FirstServed(c, c', id)
  {
    hide Kept, OnlyTask, SamePriorities, Different;
    assert IndexOf(At(c.lists, id), w) == 0;
  }

  lemma NobodyServed(c: Core, id: ListId)
    requires At(c.lists, id) == []
    ensures FirstServed(c, c, id)
  {
  }

  lemma ServedAfter(c: Core, c1: Core, c2: Core, t: Task, id: ListId)
    requires FinishStep(c, c1, t, false) && c.tcb[t].wait.id != id && !id.Ready? && FirstServed(c1, c2, id)
    ensures FirstServed(c, c2, id)
  {
    assert KeptAt(c, c1, id);
    hide Kept, KeptAt, OnlyTask, SamePriorities, At, Flying;
  }

  /** The first unused block, if there is one. */
  function FirstUnused(cbs: seq<QueueCb>): nat
  {
    if cbs == [] || !cbs[0].used then 0 else 1 + FirstUnused(cbs[1..])
  }

  lemma {:induction false} FirstUnusedIs(cbs: seq<QueueCb>, k: nat)
    requires k <= |cbs| && (forall j | 0 <= j < k :: cbs[j].used) && (k < |cbs| ==> !cbs[k].used)
    ensures FirstUnused(cbs) == k
  {
    if k > 0 { FirstUnusedIs(cbs[1..], k - 1); }
  }

  /** A block filled with zeros. */
  function NoQueue(): QueueCb { QueueCb(false, 0, 0, 0, 0, 0, 0, []) }

  function CreateCode(cbs: seq<QueueCb>, hasHandle: bool, usLen: nat, usMaxMsgSize: nat, hasMemory: bool): nat
  {
    if !hasHandle then ERRNO_QUEUE_CREAT_PTR_NULL
    else if usMaxMsgSize > UINT16_MAX - 4 then ERRNO_QUEUE_SIZE_TOO_BIG
    else if usLen == 0 || usMaxMsgSize == 0 then ERRNO_QUEUE_PARA_ISZERO
    else if FirstUnused(cbs) >= |cbs| then ERRNO_QUEUE_CB_UNAVAILABLE
    else if !hasMemory then ERRNO_QUEUE_CREATE_NO_MEMORY else OS_OK
  }

  class Queues {
    const tasks: TaskSystem
    var cbs: seq<QueueCb>           // g_pstAllQueue
    ghost var hist: seq<History>

    ghost predicate Valid()
      reads this, tasks, tasks.wheel
    {
      tasks.Valid() && |hist| == |cbs| && QueuesOk(cbs, hist, tasks.State())
    }

    constructor (tasks: TaskSystem, limit: nat)
      requires tasks.Valid() && tasks.State().lists == map[] && tasks.State().flight == map[] && tasks.tcb == map[]
      ensures Valid() && this.tasks == tasks && |cbs| == limit && forall k | 0 <= k < limit :: !cbs[k].used
    {
      this.tasks := tasks;
      cbs := seq(limit, (k: nat) => NoQueue());
      hist := seq(limit, (k: nat) => History([], 0, []));
    }

    /** `LOS_QueueCreate`: the search of `osQueueCreate` for an unused block, and a ring if there is memory for it. */
    method QueueCreate(hasHandle: bool, usLen: nat, usMaxMsgSize: nat, hasMemory: bool) returns (uwRet: nat)
      requires Valid()
      modifies this
      ensures Valid()
      ensures uwRet == CreateCode(old(cbs), hasHandle, usLen, usMaxMsgSize, hasMemory)
      ensures uwRet != OS_OK && uwRet != ERRNO_QUEUE_CREATE_NO_MEMORY ==> cbs == old(cbs)
      ensures uwRet != OS_OK ==> hist == old(hist)
      ensures var k := FirstUnused(old(cbs));
              && (uwRet == ERRNO_QUEUE_CREATE_NO_MEMORY ==> k < |old(cbs)| && cbs == old(cbs)[k := NoQueue()])
              && (uwRet == OS_OK ==>
                    && k < |old(cbs)| == |cbs| && |cbs[k].ring| == usLen
                    && cbs == old(cbs)[k := QueueCb(true, usLen, usMaxMsgSize + 4, 0, 0, 0, usLen, cbs[k].ring)]
                    && hist == old(hist)[k := History([], 0, [])])
    {
      hide WF, Kept;
      if !hasHandle {
        return ERRNO_QUEUE_CREAT_PTR_NULL;
      }
      if usMaxMsgSize > UINT16_MAX - 4 {
        return ERRNO_QUEUE_SIZE_TOO_BIG;
      }
      if usLen == 0 || usMaxMsgSize == 0 {
        return ERRNO_QUEUE_PARA_ISZERO;
      }
      var k := 0;
      while k < |cbs| && cbs[k].used
        invariant k <= |cbs| && forall j | 0 <= j < k :: cbs[j].used
      {
        k := k + 1;
      }
      FirstUnusedIs(cbs, k);
      if k == |cbs| {
        return ERRNO_QUEUE_CB_UNAVAILABLE;
      }
      ghost var c := tasks.State();
      assert OneOk(cbs, hist, c, k);
      KeptRefl(c, {RdL(k), WrL(k)});
      cbs := cbs[k := NoQueue()];
      if hasMemory {
        var ring := seq(usLen, (i: nat) => 0);
        cbs := cbs[k := QueueCb(true, usLen, usMaxMsgSize + 4, 0, 0, 0, usLen, ring)];
        hist := hist[k := History([], 0, [])];
      }
      OthersKept(old(cbs), old(hist), cbs, hist, c, c, k);
      uwRet := if hasMemory then OS_OK else ERRNO_QUEUE_CREATE_NO_MEMORY;
    }

    /** `LOS_QueueDelete`: refused while anybody waits, and while anybody has been woken and has not resumed.  `uwFreed`
        is what `LOS_MemFree` says about the memory of the ring. */
    method QueueDelete(k: nat, uwFreed: nat) returns (uwRet: nat)
      requires Valid()
      modifies this
      ensures Valid() && hist == old(hist)
      ensures k < |old(cbs)| && old(cbs)[k].used ==>
                uwRet == if At(tasks.lists, RdL(k)) != [] || At(tasks.lists, WrL(k)) != []
                  || At(tasks.lists, MemL(k)) != [] then ERRNO_QUEUE_IN_TSKUSE
                         else if Flying(tasks.flight, RdL(k)) != {} || Flying(tasks.flight, WrL(k)) != {}
                           then ERRNO_QUEUE_IN_TSKWRITE
                         else uwFreed
      ensures !(k < |old(cbs)| && old(cbs)[k].used) ==>
                uwRet == if k >= |old(cbs)| then ERRNO_QUEUE_NOT_FOUND else ERRNO_QUEUE_NOT_CREATE
      ensures uwRet == OS_OK ==> k < |old(cbs)| && cbs == old(cbs)[k := old(cbs)[k].(used := false)]
      ensures uwRet != OS_OK ==> cbs == old(cbs)
    {
      hide WF, Kept;
      if k >= |cbs| {
        return ERRNO_QUEUE_NOT_FOUND;
      }
      if !cbs[k].used {
        return ERRNO_QUEUE_NOT_CREATE;
      }
      ghost var c := tasks.State();
      assert OneOk(cbs, hist, c, k);
      DeleteTest(cbs[k], hist[k], |Flying(c.flight, RdL(k))|, |Flying(c.flight, WrL(k))|);
      if At(tasks.lists, RdL(k)) != [] {
        return ERRNO_QUEUE_IN_TSKUSE;
      }
      if At(tasks.lists, WrL(k)) != [] {
        return ERRNO_QUEUE_IN_TSKUSE;
      }
      if At(tasks.lists, MemL(k)) != [] {
        return ERRNO_QUEUE_IN_TSKUSE;
      }
      if cbs[k].usWritableCnt + cbs[k].usReadableCnt != cbs[k].usQueueLen {
        return ERRNO_QUEUE_IN_TSKWRITE;
      }
      if uwFreed != OS_OK {
        return uwFreed;
      }
      KeptRefl(c, {RdL(k), WrL(k)});
      cbs := cbs[k := cbs[k].(used := false)];
      OthersKept(old(cbs), hist, cbs, hist, c, c, k);
      uwRet := OS_OK;
    }

    /** The common end of both ways through `LOS_QueueRead`: copy the slot at the head, and pass the slot on to the
        first waiting writer if there is one. */
    method ReadSlot(k: nat) returns (buffer: int)
      requires tasks.Valid() && |hist| == |cbs| && k < |cbs| && Owed(cbs, hist, tasks.State(), k, 1, 0)
               && RestOk(cbs, hist, tasks.State(), k)
      modifies this, tasks`tcb, tasks`lists, tasks`flight, tasks`out, tasks.wheel
      ensures Valid() && Kept(old(tasks.State()), tasks.State(), {RdL(k), WrL(k)})
              && SamePriorities(old(tasks.State()), tasks.State())
      ensures |cbs| == |old(cbs)| && cbs[k].used && OldestRead(old(hist), hist, k, buffer)
      ensures FirstServed(old(tasks.State()), tasks.State(), WrL(k)) && buffer == HeadSlot(old(cbs)[k])
      ensures Calm(old(tasks.State()), tasks.State(), Firsts(At(old(tasks.lists), WrL(k))), [])
    {
      hide FirstServed, WF, Kept, QueuesOk, RestOk, Owed, WakeStep, At, Flying, SamePriorities, Calm;
      OwedUsed(cbs, hist, tasks.State(), k);
      ghost var c := tasks.State();
      if At(tasks.lists, WrL(k)) != [] {
        var w := tasks.WakeFirst(WrL(k));
        ReadHanded(cbs, hist, c, tasks.State(), k, w);
        WakeFacts(c, tasks.State(), w, WrL(k), {RdL(k), WrL(k)});
        Served(c, tasks.State(), w, WrL(k));
        WakeCalm(c, tasks.State(), w, WrL(k));
        buffer := cbs[k].ring[cbs[k].usQueueHead];
        cbs := cbs[k := TakeSlot(cbs[k])];
      } else {
        ReadFree(cbs, hist, c, k);
        NobodyServed(c, WrL(k));
        CalmRefl(c);
        StayFacts(c, {RdL(k), WrL(k)});
        buffer := cbs[k].ring[cbs[k].usQueueHead];
        cbs := cbs[k := TakeSlot(cbs[k]).(usWritableCnt := cbs[k].usWritableCnt + 1)];
      }
      hist := hist[k := ReadOne(hist[k], buffer)];
    }

    lemma WakeFacts(c: Core, c': Core, w: Task, id: ListId, mine: set<ListId>)
      requires WakeStep(c, c', w, id) && id in mine
      ensures Kept(c, c', mine) && SamePriorities(c, c')
    {
      KeptWider(c, c', {id}, mine);
    }

    lemma StayFacts(c: Core, mine: set<ListId>)
      requires WF(c)
      ensures Kept(c, c, mine) && SamePriorities(c, c)
    {
      KeptRefl(c, mine);
    }

    /** The common end of both ways through `LOS_QueueWrite`. */
    method WriteSlot(k: nat, data: int)
      requires tasks.Valid() && |hist| == |cbs| && k < |cbs| && Owed(cbs, hist, tasks.State(), k, 0, 1)
               && RestOk(cbs, hist, tasks.State(), k)
      modifies this, tasks`tcb, tasks`lists, tasks`flight, tasks`out, tasks.wheel
      ensures Valid() && Kept(old(tasks.State()), tasks.State(), {RdL(k), WrL(k)})
              && SamePriorities(old(tasks.State()), tasks.State())
      ensures |cbs| == |old(cbs)| && cbs[k].used && hist == old(hist)[k := WroteOne(old(hist)[k], data)]
      ensures FirstServed(old(tasks.State()), tasks.State(), RdL(k))
      ensures Calm(old(tasks.State()), tasks.State(), Firsts(At(old(tasks.lists), RdL(k))), [])
    {
      hide FirstServed, WF, Kept, QueuesOk, RestOk, Owed, WakeStep, At, Flying, SamePriorities, Calm;
      OwedUsed(cbs, hist, tasks.State(), k);
      ghost var c := tasks.State();
      if At(tasks.lists, RdL(k)) != [] {
        var w := tasks.WakeFirst(RdL(k));
        WriteHanded(cbs, hist, c, tasks.State(), k, w, data);
        WakeFacts(c, tasks.State(), w, RdL(k), {RdL(k), WrL(k)});
        Served(c, tasks.State(), w, RdL(k));
        WakeCalm(c, tasks.State(), w, RdL(k));
        cbs := cbs[k := PutSlot(cbs[k], data)];
      } else {
        WriteFree(cbs, hist, c, k, data);
        NobodyServed(c, RdL(k));
        CalmRefl(c);
        StayFacts(c, {RdL(k), WrL(k)});
        cbs := cbs[k := PutSlot(cbs[k], data).(usReadableCnt := cbs[k].usReadableCnt + 1)];
      }
      hist := hist[k := WroteOne(hist[k], data)];
    }

    /** `LOS_QueueRead` of queue number `k + 1` up to `LOS_Schedule`: None when the caller is now waiting. */
    method QueueRead(k: nat, hasBuffer: bool, uwBufferSize: nat, uwTimeOut: nat, isr: bool)
      returns (uwRet: Option<nat>, buffer: int)
      requires Valid() && (!isr ==> tasks.Running()) && uwTimeOut <= WAIT_FOREVER
      modifies this, tasks`tcb, tasks`lists, tasks`flight, tasks`out, tasks`stamp, tasks`clock, tasks.wheel
      ensures Valid() && Kept(old(tasks.State()), tasks.State(), {RdL(k), WrL(k)})
              && SamePriorities(old(tasks.State()), tasks.State())
      ensures |cbs| == |old(cbs)|
      ensures uwRet == if k >= |old(cbs)| then Some(ERRNO_QUEUE_READ_INVALID)
                       else if !hasBuffer then Some(ERRNO_QUEUE_READ_PTR_NULL)
                       else if uwBufferSize == 0 then Some(ERRNO_QUEUE_READSIZE_ISZERO)
                       else if uwTimeOut != 0 && isr then Some(ERRNO_QUEUE_READ_IN_INTERRUPT)
                       else if !old(cbs)[k].used then Some(ERRNO_QUEUE_READ_NOT_CREATE)
                       else if old(cbs)[k].usReadableCnt > 0 then Some(OS_OK)
                       else if uwTimeOut == 0 then Some(ERRNO_QUEUE_ISEMPTY)
                       else if tasks.usLosTaskLock != 0 then Some(ERRNO_QUEUE_PEND_IN_LOCK) else None
      ensures uwRet == Some(OS_OK) ==>
                && OldestRead(old(hist), hist, k, buffer) && FirstServed(old(tasks.State()), tasks.State(), WrL(k))
                   && buffer == HeadSlot(old(cbs)[k])
                && Calm(old(tasks.State()), tasks.State(), Firsts(At(old(tasks.lists), WrL(k))), [])
      ensures uwRet != Some(OS_OK) ==> cbs == old(cbs) && hist == old(hist)
      ensures uwRet.Some? && uwRet != Some(OS_OK) ==> tasks.State() == old(tasks.State())
      ensures uwRet.None? ==>
                QueuedFor(old(tasks.State()), tasks.State(), tasks.pstRunTask, RdL(k), Plain, Timeout(uwTimeOut))
    {
      hide FirstServed, WF, Kept, QueuesOk, RestOk, Owed, PendStep, At, Flying, SamePriorities, OldestRead, QueuedFor,
        Calm, Firsts;
      buffer := 0;
      ghost var c := tasks.State();
      StayFacts(c, {RdL(k), WrL(k)});
      if k >= |cbs| {
        return Some(ERRNO_QUEUE_READ_INVALID), 0;
      }
      if !hasBuffer {
        return Some(ERRNO_QUEUE_READ_PTR_NULL), 0;
      }
      if uwBufferSize == 0 {
        return Some(ERRNO_QUEUE_READSIZE_ISZERO), 0;
      }
      if uwTimeOut != 0 && isr {
        return Some(ERRNO_QUEUE_READ_IN_INTERRUPT), 0;
      }
      if !cbs[k].used {
        return Some(ERRNO_QUEUE_READ_NOT_CREATE), 0;
      }
      if cbs[k].usReadableCnt == 0 {
        if uwTimeOut == 0 {
          return Some(ERRNO_QUEUE_ISEMPTY), 0;
        }
        if tasks.usLosTaskLock != 0 {
          return Some(ERRNO_QUEUE_PEND_IN_LOCK), 0;
        }
        var p := tasks.QueuePend(RdL(k), Plain, uwTimeOut);
        WaitKeeps(cbs, hist, c, tasks.State(), tasks.pstRunTask, RdL(k), Plain, p, Timeout(uwTimeOut), k);
        QueuedFacts(c, tasks.State(), tasks.pstRunTask, RdL(k), Plain, p, Timeout(uwTimeOut));
        return None, 0;
      }
      TakeReadable(cbs, hist, c, k);
      cbs := cbs[k := cbs[k].(usReadableCnt := cbs[k].usReadableCnt - 1)];
      buffer := ReadSlot(k);
      return Some(OS_OK), buffer;
    }

    lemma QueuedFacts(c: Core, c': Core, t: Task, id: ListId, call: Call, p: nat, timeout: Option<nat>)
      requires PendStep(c, c', t, id, call, p, timeout) && FirstLessUrgent(c, At(c.lists, id), t, p) && t in c.tcb
               && c.tcb[t].ready
      ensures QueuedFor(c, c', t, id, call, timeout) && SamePriorities(c, c')
    {
      PendBegan(c, c', t, id, call, p, timeout);
      hide Kept, OnlyTask, Inserted, Began;
    }

    /** The end of a `LOS_QueueRead` that had to wait. */
    method QueueReadResume() returns (uwRet: nat, buffer: int)
      requires Valid() && tasks.pstRunTask in tasks.tcb && tasks.tcb[tasks.pstRunTask].ready
      requires tasks.tcb[tasks.pstRunTask].wait.Waiting? && tasks.tcb[tasks.pstRunTask].wait.id.RdL?
      requires tasks.tcb[tasks.pstRunTask].wait.id.q < |cbs|
      modifies this, tasks`tcb, tasks`lists, tasks`flight, tasks`out, tasks.wheel
      ensures var k := old(tasks.tcb)[tasks.pstRunTask].wait.id.q;
              && Valid() && Kept(old(tasks.State()), tasks.State(), {RdL(k), WrL(k)})
                 && SamePriorities(old(tasks.State()), tasks.State())
              && |cbs| == |old(cbs)|
              && tasks.pstRunTask in old(tasks.out)
              && (uwRet == OS_OK <==> old(tasks.out)[tasks.pstRunTask] == [Given])
              && uwRet == (if old(tasks.tcb)[tasks.pstRunTask].timeout then ERRNO_QUEUE_TIMEOUT else OS_OK)
              && (uwRet == ERRNO_QUEUE_TIMEOUT <==> old(tasks.out)[tasks.pstRunTask] == [TimedOut])
              && (uwRet == OS_OK ==>
                   OldestRead(old(hist), hist, k, buffer) && FirstServed(old(tasks.State()), tasks.State(), WrL(k)))
              && (uwRet == OS_OK ==> buffer == HeadSlot(old(cbs)[k]))
              && (uwRet != OS_OK ==> cbs == old(cbs) && hist == old(hist))
              && Ended(old(tasks.State()), tasks.State(), tasks.pstRunTask,
                       if uwRet == OS_OK then Firsts(At(old(tasks.lists), WrL(k))) else [])
    {
      hide FirstServed, WF, Kept, QueuesOk, RestOk, Owed, FinishStep, At, Flying, SamePriorities, OldestRead, Calm,
        Ended, Firsts;
      buffer := 0;
      ghost var c, t := tasks.State(), tasks.pstRunTask;
      var k := tasks.tcb[tasks.pstRunTask].wait.id.q;
      assert TcbOk(c.tcb[t]) by { tasks.TcbFacts(t); }
      var timedOut := tasks.Finish();
      ghost var c1 := tasks.State();
      FinishFacts(c, c1, t, timedOut);
      FinishEnded(c, c1, t, timedOut);
      if timedOut {
        TimeoutKeeps(cbs, hist, c, c1, t);
        KeptWider(c, c1, {RdL(k)}, {RdL(k), WrL(k)});
        return ERRNO_QUEUE_TIMEOUT, 0;
      }
      ResumeOwes(cbs, hist, c, c1, t, k);
      buffer := ReadSlot(k);
      EndedThenCalm(c, c1, tasks.State(), t, Firsts(At(c1.lists, WrL(k))));
      ServedAfter(c, c1, tasks.State(), t, WrL(k));
      KeptTrans(c, c1, tasks.State(), {RdL(k), WrL(k)});
      PrioritiesTrans(c, c1, tasks.State());
      return OS_OK, buffer;
    }

    lemma FinishFacts(c: Core, c': Core, t: Task, timedOut: bool)
      requires FinishStep(c, c', t, timedOut)
      ensures Kept(c, c', {c.tcb[t].wait.id}) && SamePriorities(c, c') && c'.lists == c.lists
    {
    }

    lemma PrioritiesTrans(c0: Core, c1: Core, c2: Core)
      requires SamePriorities(c0, c1) && SamePriorities(c1, c2)
      ensures SamePriorities(c0, c2)
    {
    }

    /** `LOS_QueueWrite` of queue number `k + 1` up to `LOS_Schedule`: None when the caller is now waiting. */
    method QueueWrite(k: nat, data: int, uwBufferSize: nat, uwTimeOut: nat, isr: bool) returns (uwRet: Option<nat>)
      requires Valid() && (!isr ==> tasks.Running()) && uwTimeOut <= WAIT_FOREVER
      modifies this, tasks`tcb, tasks`lists, tasks`flight, tasks`out, tasks`stamp, tasks`clock, tasks.wheel
      ensures Valid() && Kept(old(tasks.State()), tasks.State(), {RdL(k), WrL(k)})
              && SamePriorities(old(tasks.State()), tasks.State())
      ensures |cbs| == |old(cbs)|
      ensures uwRet == if k >= |old(cbs)| then Some(ERRNO_QUEUE_WRITE_INVALID)
                       else if data == 0 then Some(ERRNO_QUEUE_WRITE_PTR_NULL)
                       else if uwBufferSize == 0 then Some(ERRNO_QUEUE_WRITESIZE_ISZERO)
                       else if uwTimeOut != 0 && isr then Some(ERRNO_QUEUE_WRITE_IN_INTERRUPT)
                       else if !old(cbs)[k].used then Some(ERRNO_QUEUE_WRITE_NOT_CREATE)
                       else if uwBufferSize > old(cbs)[k].usQueueSize then Some(ERRNO_QUEUE_WRITE_SIZE_TOO_BIG)
                       else if old(cbs)[k].usWritableCnt > 0 then Some(OS_OK)
                       else if uwTimeOut == 0 then Some(ERRNO_QUEUE_ISFULL)
                       else if tasks.usLosTaskLock != 0 then Some(ERRNO_QUEUE_PEND_IN_LOCK) else None
      ensures uwRet == Some(OS_OK) ==> hist == old(hist)[k := WroteOne(old(hist)[k], data)]
      ensures uwRet == Some(OS_OK) ==>
                && FirstServed(old(tasks.State()), tasks.State(), RdL(k))
                && Calm(old(tasks.State()), tasks.State(), Firsts(At(old(tasks.lists), RdL(k))), [])
      ensures uwRet != Some(OS_OK) ==> cbs == old(cbs) && hist == old(hist)
      ensures uwRet.Some? && uwRet != Some(OS_OK) ==> tasks.State() == old(tasks.State())
      ensures uwRet.None? ==>
                QueuedFor(old(tasks.State()), tasks.State(), tasks.pstRunTask, WrL(k), Message(data),
                Timeout(uwTimeOut))
    {
      hide FirstServed, WF, Kept, QueuesOk, RestOk, Owed, PendStep, At, Flying, SamePriorities, QueuedFor, Calm, Firsts;
      ghost var c := tasks.State();
      StayFacts(c, {RdL(k), WrL(k)});
      if k >= |cbs| {
        return Some(ERRNO_QUEUE_WRITE_INVALID);
      }
      if data == 0 {
        return Some(ERRNO_QUEUE_WRITE_PTR_NULL);
      }
      if uwBufferSize == 0 {
        return Some(ERRNO_QUEUE_WRITESIZE_ISZERO);
      }
      if uwTimeOut != 0 && isr {
        return Some(ERRNO_QUEUE_WRITE_IN_INTERRUPT);
      }
      if !cbs[k].used {
        return Some(ERRNO_QUEUE_WRITE_NOT_CREATE);
      }
      if uwBufferSize > cbs[k].usQueueSize {
        return Some(ERRNO_QUEUE_WRITE_SIZE_TOO_BIG);
      }
      if cbs[k].usWritableCnt == 0 {
        if uwTimeOut == 0 {
          return Some(ERRNO_QUEUE_ISFULL);
        }
        if tasks.usLosTaskLock != 0 {
          return Some(ERRNO_QUEUE_PEND_IN_LOCK);
        }
        var p := tasks.QueuePend(WrL(k), Message(data), uwTimeOut);
        WaitKeeps(cbs, hist, c, tasks.State(), tasks.pstRunTask, WrL(k), Message(data), p, Timeout(uwTimeOut), k);
        QueuedFacts(c, tasks.State(), tasks.pstRunTask, WrL(k), Message(data), p, Timeout(uwTimeOut));
        return None;
      }
      TakeWritable(cbs, hist, c, k);
      cbs := cbs[k := cbs[k].(usWritableCnt := cbs[k].usWritableCnt - 1)];
      WriteSlot(k, data);
      return Some(OS_OK);
    }

    /** The end of a `LOS_QueueWrite` that had to wait. */
    method QueueWriteResume() returns (uwRet: nat)
      requires Valid() && tasks.pstRunTask in tasks.tcb && tasks.tcb[tasks.pstRunTask].ready
      requires tasks.tcb[tasks.pstRunTask].wait.Waiting? && tasks.tcb[tasks.pstRunTask].wait.id.WrL?
      requires tasks.tcb[tasks.pstRunTask].wait.id.q < |cbs|
      modifies this, tasks`tcb, tasks`lists, tasks`flight, tasks`out, tasks.wheel
      ensures var w := old(tasks.tcb)[tasks.pstRunTask].wait; var k := w.id.q;
              && Valid() && Kept(old(tasks.State()), tasks.State(), {RdL(k), WrL(k)})
                 && SamePriorities(old(tasks.State()), tasks.State())
              && |cbs| == |old(cbs)|
              && tasks.pstRunTask in old(tasks.out)
              && (uwRet == OS_OK <==> old(tasks.out)[tasks.pstRunTask] == [Given])
              && uwRet == (if old(tasks.tcb)[tasks.pstRunTask].timeout then ERRNO_QUEUE_TIMEOUT else OS_OK)
              && (uwRet == ERRNO_QUEUE_TIMEOUT <==> old(tasks.out)[tasks.pstRunTask] == [TimedOut])
              && (uwRet == OS_OK ==> w.call.Message? && hist == old(hist)[k := WroteOne(old(hist)[k], w.call.data)])
              && (uwRet == OS_OK ==> FirstServed(old(tasks.State()), tasks.State(), RdL(k)))
              && (uwRet != OS_OK ==> cbs == old(cbs) && hist == old(hist))
              && Ended(old(tasks.State()), tasks.State(), tasks.pstRunTask,
                       if uwRet == OS_OK then Firsts(At(old(tasks.lists), RdL(k))) else [])
    {
      hide FirstServed, WF, Kept, QueuesOk, RestOk, Owed, FinishStep, At, Flying, SamePriorities, Calm, Ended, Firsts;
      ghost var c, t := tasks.State(), tasks.pstRunTask;
      var w := tasks.tcb[tasks.pstRunTask].wait;
      var k := w.id.q;
      assert TcbOk(c.tcb[t]) by { tasks.TcbFacts(t); }
      var timedOut := tasks.Finish();
      ghost var c1 := tasks.State();
      FinishFacts(c, c1, t, timedOut);
      FinishEnded(c, c1, t, timedOut);
      if timedOut {
        TimeoutKeeps(cbs, hist, c, c1, t);
        KeptWider(c, c1, {WrL(k)}, {RdL(k), WrL(k)});
        return ERRNO_QUEUE_TIMEOUT;
      }
      ResumeOwes(cbs, hist, c, c1, t, k);
      WriteSlot(k, w.call.data);
      EndedThenCalm(c, c1, tasks.State(), t, Firsts(At(c1.lists, RdL(k))));
      ServedAfter(c, c1, tasks.State(), t, RdL(k));
      KeptTrans(c, c1, tasks.State(), {RdL(k), WrL(k)});
      PrioritiesTrans(c, c1, tasks.State());
      return OS_OK;
    }
  }

  /** A successful read has returned the oldest unread message. */
  ghost predicate OldestRead(hist0: seq<History>, hist1: seq<History>, k: nat, buffer: int)
  {
    && k < |hist0| && hist0[k].nRead < |hist0[k].written| && buffer == hist0[k].written[hist0[k].nRead]
    && hist1 == hist0[k := ReadOne(hist0[k], buffer)]
  }

  /** The caller waits in front of the first waiter that is less urgent, with its timer started if the wait is timed. */
  ghost predicate QueuedFor(c: Core, c': Core, t: Task, id: ListId, call: Call, timeout: Option<nat>)
  {
    && Began(c, c', t, Waiting(id, call), timeout, [])
    && exists p :: FirstLessUrgent(c, At(c.lists, id), t, p) && At(c'.lists, id) == Inserted(At(c.lists, id), p, t)
  }
}
