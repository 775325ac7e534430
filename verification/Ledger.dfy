/** What every step of the kernel does, as the books tell it: posts and pends of semaphores, owners and ledgers of
    mutexes, messages of queues, bits of events, blocks of mail, priorities, and the passing of time. */
module Ledger {
  import opened Errno
  import opened Steps
  import opened Tasks
  import opened TaskSystem
  import Wheel
  import Semaphore
  import Mutex
  import Event
  import Queue
  import Mail
  import Membox

  datatype Step =
    | TaskCreate(t: Task, usTaskPrio: nat)
    | TaskDelay(uwTick: nat, isr: bool)
    | TaskYield
    | TaskSuspend(t: Task)
    | TaskResume(t: Task)
    | TaskPriSet(t: Task, usTaskPrio: nat)
    | TaskLock
    | TaskUnlock
    | Tick
    | Schedule
    | SemCreate(hasHandle: bool, usCount: nat, k: nat)
    | SemDelete(k: nat)
    | SemPend(k: nat, uwTimeout: nat, isr: bool)
    | SemPost(k: nat)
    | MuxCreate(hasHandle: bool, k: nat)
    | MuxDelete(k: nat)
    | MuxPend(k: nat, uwTimeout: nat, isr: bool)
    | MuxPost(k: nat, isr: bool)
    | EventRead(e: nat, mask: bv32, mode: bv32, uwTimeout: nat, isr: bool)
    | EventWrite(e: nat, uwEvents: bv32)
    | EventClear(e: nat, uwEvents: bv32)
    | QueueCreate(hasHandle: bool, usLen: nat, usMaxMsgSize: nat, hasMemory: bool)
    | QueueDelete(k: nat, uwFreed: nat)
    | QueueRead(k: nat, hasBuffer: bool, size: nat, uwTimeout: nat, isr: bool)
    | QueueWrite(k: nat, data: int, size: nat, uwTimeout: nat, isr: bool)
    | MailAlloc(uwTimeout: nat, isr: bool)
    | MailFree(pMailMem: nat)
    | ResumeCall

  /** The pool behind the mail of queue `q`, its free blocks, and what has been promised to whom. */
  datatype MailBox = MailBox(q: nat, pool: nat, size: nat, num: nat, free: seq<nat>, msg: map<Task, nat>)

  /** The kernel as seen from outside: the shared state, who runs, and the books. */
  datatype World = World(c: Core, run: Task, lock: nat, idle: Task, swtmr: Task, maxNum: nat, base: map<Task, nat>,
                         sems: seq<Semaphore.Sem>, semBooks: seq<Semaphore.History>,
                         muxes: seq<Mutex.Mux>, muxBooks: seq<map<Task, int>>, stack: map<Task, seq<nat>>,
                           orderly: bool, mild: bool,
                         events: seq<bv32>, queues: seq<Queue.QueueCb>, queueBooks: seq<Queue.History>, mail: MailBox)

  /** The running task is in the middle of its own code. */
  predicate Free(w: World) { w.run in w.c.tcb && w.c.tcb[w.run].ready && w.c.tcb[w.run].wait.NoWait? }

  /** The running task is back inside a call that has been resolved, by a waker or, if `timedOut`, by the tick. */
  predicate Back(w: World, timedOut: bool)
  {
    w.run in w.c.tcb && w.c.tcb[w.run].ready && w.c.tcb[w.run].wait.Waiting? && w.c.tcb[w.run].timeout == timedOut
  }

  /** A blocking call can be made: from an interrupt, or by a task in the middle of its own code. */
  predicate MayCall(w: World, uwTimeout: nat, isr: bool) { uwTimeout <= WAIT_FOREVER && (isr || Free(w)) }

  // ---------------------------------------------------------------- semaphores

  predicate SemThere(w: World, k: nat) { k < |w.sems| && k < |w.semBooks| && w.sems[k].used }

  function SemBooksAfter(s: Step, w: World): seq<Semaphore.History>
  {
    match s
    case SemCreate(hasHandle, usCount, k) =>
      if hasHandle && k < |w.sems| && k < |w.semBooks| && !w.sems[k].used && usCount <= Semaphore.COUNT_MAX
      then w.semBooks[k := Semaphore.History(usCount, 0, 0)] else w.semBooks
    case SemPend(k, uwTimeout, isr) =>
      if MayCall(w, uwTimeout, isr) && SemThere(w, k) && w.sems[k].uwSemCount > 0
      then w.semBooks[k := w.semBooks[k].(taken := w.semBooks[k].taken + 1)] else w.semBooks
    case SemPost(k) =>
      if SemThere(w, k) && w.sems[k].uwSemCount != Semaphore.COUNT_MAX
      then w.semBooks[k := w.semBooks[k].(posts := w.semBooks[k].posts + 1)] else w.semBooks
    case ResumeCall =>
      if Back(w, false) && w.c.tcb[w.run].wait.id.SemL? then
        var id := w.c.tcb[w.run].wait.id;
        if id.s < |w.sems| && id.s < |w.semBooks| && w.sems[id.s].life == id.life
        then w.semBooks[id.s := w.semBooks[id.s].(taken := w.semBooks[id.s].taken + 1)] else w.semBooks
      else w.semBooks
    case _ => w.semBooks
  }

  predicate SemWaits(s: Step, w: World)
  {
    && s.SemPend? && MayCall(w, s.uwTimeout, s.isr) && SemThere(w, s.k)
    && w.sems[s.k].uwSemCount == 0 && s.uwTimeout != 0 && !s.isr && w.lock == 0
  }

  // ---------------------------------------------------------------- mutexes

  predicate MuxThere(w: World, k: nat) { k < |w.muxes| && k < |w.muxBooks| && w.muxes[k].used }

  /** A pend by a task in the middle of its own code. */
  predicate PendsMux(s: Step, w: World)
  {
    s.MuxPend? && s.uwTimeout <= WAIT_FOREVER && !s.isr && Free(w) && MuxThere(w, s.k)
  }

  predicate Takes(s: Step, w: World) { PendsMux(s, w) && w.muxes[s.k].usMuxCount == 0 }

  predicate Nests(s: Step, w: World)
  {
    PendsMux(s, w) && 0 < w.muxes[s.k].usMuxCount < Mutex.COUNT_LIMIT - 1 && w.muxes[s.k].pstOwner == w.run
  }

  predicate MuxWaits(s: Step, w: World)
  {
    PendsMux(s, w) && w.muxes[s.k].usMuxCount > 0 && w.muxes[s.k].pstOwner != w.run && s.uwTimeout != 0 && w.lock == 0
  }

  /** A post by the owner. */
  predicate PostsMux(s: Step, w: World)
  {
    s.MuxPost? && !s.isr && Free(w) && MuxThere(w, s.k) && w.muxes[s.k].usMuxCount > 0 && w.muxes[s.k].pstOwner == w.run
  }

  predicate GivesUp(s: Step, w: World) { PostsMux(s, w) && w.muxes[s.k].usMuxCount == 1 }

  function MuxesAfter(s: Step, w: World): seq<Mutex.Mux>
  {
    match s
    case MuxCreate(hasHandle, k) => if hasHandle && k < |w.muxes| && !w.muxes[k].used
      then w.muxes[k := Mutex.Mux(true, 0, 0, 0)] else w.muxes
    case MuxDelete(k) =>
      if MuxThere(w, k) && At(w.c.lists, MuxL(k)) == [] && w.muxes[k].usMuxCount == 0
        then w.muxes[k := w.muxes[k].(used := false)] else w.muxes
    case MuxPend(k, _, _) =>
      if Takes(s, w) then w.muxes[k := Mutex.Mux(true, 1, w.run, PriorityOf(w.c, w.run))]
      else if Nests(s, w) then w.muxes[k := w.muxes[k].(usMuxCount := w.muxes[k].usMuxCount + 1)] else w.muxes
    case MuxPost(k, _) =>
      if GivesUp(s, w) then
        var l := At(w.c.lists, MuxL(k));
        if l == [] then w.muxes[k := w.muxes[k].(usMuxCount := 0)]
          else w.muxes[k := Mutex.Mux(true, 1, l[0], PriorityOf(w.c, l[0]))]
      else if PostsMux(s, w) then w.muxes[k := w.muxes[k].(usMuxCount := w.muxes[k].usMuxCount - 1)] else w.muxes
    case _ => w.muxes
  }

  /** One more for every pend that is granted, at once or by a hand-over; one less for every post. */
  function MuxBooksAfter(s: Step, w: World): seq<map<Task, int>>
  {
    if Takes(s, w) || Nests(s, w) then w.muxBooks[s.k := Mutex.Counted(w.muxBooks[s.k], w.run, 1)]
    else if PostsMux(s, w) then
      var d := Mutex.Counted(w.muxBooks[s.k], w.run, -1);
      var l := At(w.c.lists, MuxL(s.k));
      w.muxBooks[s.k := if GivesUp(s, w) && l != [] then Mutex.Counted(d, l[0], 1) else d]
    else w.muxBooks
  }

  function StackAfter(s: Step, w: World): map<Task, seq<nat>>
  {
    if Takes(s, w) then w.stack[w.run := Mutex.StackOf(w.stack, w.run) + [s.k]]
    else if GivesUp(s, w) then
      var st := w.stack[w.run := Without(Mutex.StackOf(w.stack, w.run), s.k)];
      var l := At(w.c.lists, MuxL(s.k));
      if l == [] then st else st[l[0] := Mutex.StackOf(st, l[0]) + [s.k]]
    else w.stack
  }

  /** Every mutex given up keeps the ladder, and no priority is set over a held mutex. */
  predicate OrderlyAfter(s: Step, w: World)
  {
    && w.orderly
    && (GivesUp(s, w) ==> Mutex.ReleasedInOrder(w.muxes, w.stack, w.run, s.k))
    && (Sets(s, w) ==> Mutex.StackOf(w.stack, s.t) == [])
  }

  predicate MildAfter(s: Step, w: World)
  {
    w.mild && (Sets(s, w) ==> Mutex.MildSet(w.muxes, s.t, s.usTaskPrio))
  }

  // ---------------------------------------------------------------- priorities

  predicate Creates(s: Step, w: World) { s.TaskCreate? && s.t !in w.c.tcb && s.usTaskPrio <= PRIORITY_LOWEST }

  predicate Sets(s: Step, w: World)
  {
    s.TaskPriSet? && s.usTaskPrio <= PRIORITY_LOWEST && s.t != w.idle && s.t < w.maxNum && s.t in w.c.tcb
  }

  function BaseAfter(s: Step, w: World): map<Task, nat>
  {
    if Creates(s, w) || Sets(s, w) then w.base[s.t := s.usTaskPrio] else w.base
  }

  function PriorityAfter(s: Step, w: World, t: Task): nat
  {
    if (Creates(s, w) || Sets(s, w)) && t == s.t then s.usTaskPrio
    else if MuxWaits(s, w) && t == w.muxes[s.k].pstOwner then Mutex.Lifted(w.c.tcb, t, w.run)
    else if GivesUp(s, w) && t == w.run then w.muxes[s.k].usPriority
    else PriorityOf(w.c, t)
  }

  ghost predicate Priorities(s: Step, w: World, c: Core)
  {
    && c.tcb.Keys == w.c.tcb.Keys + (if Creates(s, w) then {s.t} else {})
    && forall t | t in c.tcb :: c.tcb[t].usPriority == PriorityAfter(s, w, t)
  }

  /** A lock is not taken between a pend and its `LOS_Schedule`. */
  function LockAfter(s: Step, w: World): nat
  {
    if s.TaskLock? && (w.run in w.c.tcb ==> w.c.tcb[w.run].ready) then w.lock + 1
    else if s.TaskUnlock? && w.lock > 0 then w.lock - 1 else w.lock
  }

  // ---------------------------------------------------------------- queues

  predicate QueueThere(w: World, k: nat) { k < |w.queues| && k < |w.queueBooks| && w.queues[k].used }

  predicate AsksRead(s: Step, w: World)
  {
    && s.QueueRead? && MayCall(w, s.uwTimeout, s.isr) && QueueThere(w, s.k) && s.hasBuffer && s.size != 0
    && !(s.uwTimeout != 0 && s.isr)
  }

  predicate AsksWrite(s: Step, w: World)
  {
    && s.QueueWrite? && MayCall(w, s.uwTimeout, s.isr) && QueueThere(w, s.k) && s.data != 0
       && 0 < s.size <= w.queues[s.k].usQueueSize
    && !(s.uwTimeout != 0 && s.isr)
  }

  /** The step is a read of queue `k`, at once or after a hand-over. */
  predicate Reads(s: Step, w: World, k: nat)
  {
    || (AsksRead(s, w) && s.k == k && w.queues[k].usReadableCnt > 0)
    || (s.ResumeCall? && Back(w, false) && w.c.tcb[w.run].wait.id == RdL(k) && k < |w.queues| && k < |w.queueBooks|)
  }

  predicate Writes(s: Step, w: World, k: nat)
  {
    || (AsksWrite(s, w) && s.k == k && w.queues[k].usWritableCnt > 0)
    || (s.ResumeCall? && Back(w, false) && w.c.tcb[w.run].wait.id == WrL(k) && k < |w.queues| && k < |w.queueBooks|
        && w.c.tcb[w.run].wait.call.Message?)
  }

  /** The queue that a step is about. */
  function QueueOf(s: Step, w: World): nat
  {
    match s
    case QueueRead(k, _, _, _, _) => k
    case QueueWrite(k, _, _, _, _) => k
    case ResumeCall =>
      if w.run in w.c.tcb && w.c.tcb[w.run].wait.Waiting?
        && (w.c.tcb[w.run].wait.id.RdL? || w.c.tcb[w.run].wait.id.WrL?)
      then w.c.tcb[w.run].wait.id.q else 0
    case _ => 0
  }

  /** A reader gets what is in the slot at the head of the ring. */
  function QueueBooksAfter(s: Step, w: World): seq<Queue.History>
  {
    var k := QueueOf(s, w);
    if s.QueueCreate? then
      var n := Queue.FirstUnused(w.queues);
      if n < |w.queueBooks| && Queue.CreateCode(w.queues, s.hasHandle, s.usLen, s.usMaxMsgSize, s.hasMemory) == OS_OK
      then w.queueBooks[n := Queue.History([], 0, [])] else w.queueBooks
    else if Reads(s, w, k) then w.queueBooks[k := Queue.ReadOne(w.queueBooks[k], Queue.HeadSlot(w.queues[k]))]
    else if Writes(s, w, k) then
      w.queueBooks[k := Queue.WroteOne(w.queueBooks[k], if s.QueueWrite? then s.data
        else w.c.tcb[w.run].wait.call.data)]
    else w.queueBooks
  }

  // ---------------------------------------------------------------- events

  function EventsAfter(s: Step, w: World): seq<bv32>
  {
    match s
    case EventRead(e, mask, mode, uwTimeout, isr) =>
      if MayCall(w, uwTimeout, isr) && e < |w.events| && Event.GoodArgs(mask, mode) && !isr
      then w.events[e := Event.AfterPoll(w.events[e], mask, mode)] else w.events
    case EventWrite(e, uwEvents) =>
      if e < |w.events| && !Event.IsError(uwEvents) then w.events[e := Event.SetBits(w.events[e], uwEvents)]
        else w.events
    case EventClear(e, uwEvents) =>
      if e < |w.events| then w.events[e := Event.KeepBits(w.events[e], uwEvents)] else w.events
    case ResumeCall =>
      if Back(w, false) && w.c.tcb[w.run].wait.id.EvL? && w.c.tcb[w.run].wait.call.EventArgs? then
        var e, call := w.c.tcb[w.run].wait.id.e, w.c.tcb[w.run].wait.call;
        if e < |w.events| then w.events[e := Event.AfterPoll(w.events[e], call.uwEventMask, call.uwEventMode)]
          else w.events
      else w.events
    case _ => w.events
  }

  predicate EventWaits(s: Step, w: World)
  {
    && s.EventRead? && MayCall(w, s.uwTimeout, s.isr) && s.e < |w.events| && Event.GoodArgs(s.mask, s.mode) && !s.isr
    && Event.Polled(w.events[s.e], s.mask, s.mode) == 0 && s.uwTimeout != 0 && w.lock == 0
  }

  // ---------------------------------------------------------------- mail

  ghost predicate MailLive(m: MailBox, p: nat)
  {
    exists i: nat :: i < m.num && i !in m.free && p == Mail.UserAddr(m.pool, m.size, i)
  }

  predicate AsksMail(s: Step, w: World)
  {
    s.MailAlloc? && MayCall(w, s.uwTimeout, s.isr) && !(s.uwTimeout != 0 && s.isr)
  }

  predicate MailWaits(s: Step, w: World) { AsksMail(s, w) && w.mail.free == [] && s.uwTimeout != 0 && w.lock == 0 }

  /** A block comes back that has not been promised to anybody. */
  ghost predicate MailBack(s: Step, w: World)
  {
    && s.MailFree? && s.pMailMem < Membox.WORD32 && MailLive(w.mail, s.pMailMem)
    && !Mail.IsPromised(w.mail.msg, w.c.flight, w.mail.q, s.pMailMem)
  }

  ghost predicate MailFollows(s: Step, w: World, m: MailBox)
  {
    var waiting := At(w.c.lists, MemL(w.mail.q));
    if AsksMail(s, w) && w.mail.free != [] then m == w.mail.(free := w.mail.free[1..])
    else if MailBack(s, w) then
      if waiting == [] then
        m.free != [] && m == w.mail.(free := m.free) && m.free[1..] == w.mail.free
          && s.pMailMem == Mail.UserAddr(m.pool, m.size, m.free[0])
      else m == w.mail.(msg := w.mail.msg[waiting[0] := s.pMailMem])
    else if s.ResumeCall? && Back(w, false) && w.c.tcb[w.run].wait.id == MemL(w.mail.q)
      then m == w.mail.(msg := w.mail.msg - {w.run})
    else m == w.mail
  }

  // ---------------------------------------------------------------- time

  /** Who is handed something by the step, in this order. */
  ghost function WokenBy(s: Step, w: World): seq<Task>
  {
    match s
    case SemPost(k) =>
      if SemThere(w, k) && w.sems[k].uwSemCount != Semaphore.COUNT_MAX
        then Firsts(At(w.c.lists, Semaphore.ListOf(k, w.sems[k]))) else []
    case MuxPost(k, _) => if GivesUp(s, w) then Firsts(At(w.c.lists, MuxL(k))) else []
    case EventWrite(e, uwEvents) =>
      if e < |w.events| && !Event.IsError(uwEvents)
      then Event.MetBy(w.c, At(w.c.lists, EvL(e)), Event.SetBits(w.events[e], uwEvents)) else []
    case QueueRead(k, _, _, _, _) => if Reads(s, w, k) then Firsts(At(w.c.lists, WrL(k))) else []
    case QueueWrite(k, _, _, _, _) => if Writes(s, w, k) then Firsts(At(w.c.lists, RdL(k))) else []
    case MailFree(_) => if MailBack(s, w) then Firsts(At(w.c.lists, MemL(w.mail.q))) else []
    case ResumeCall =>
      var k := QueueOf(s, w);
      if Reads(s, w, k) then Firsts(At(w.c.lists, WrL(k)))
        else if Writes(s, w, k) then Firsts(At(w.c.lists, RdL(k))) else []
    case _ => []
  }

  /** Who leaves a ready list and, if it is ready then, goes to the end of one: a task that yields, is created, or gets
      another priority. */
  function Moves(s: Step, w: World): seq<Task>
  {
    match s
    case TaskCreate(t, _) => if Creates(s, w) then [t] else []
    case TaskPriSet(t, _) => if Sets(s, w) then [t] else []
    case TaskYield => if TaskAnswer(s, w) == Code(OS_OK) then [w.run] else []
    case TaskDelay(uwTick, _) => if uwTick == 0 && TaskAnswer(s, w) == Code(OS_OK) then [w.run] else []
    case MuxPend(k, _, _) => if MuxWaits(s, w) then Mutex.MovedUp(w.c, w.muxes[k].pstOwner, w.run) else []
    case MuxPost(k, _) => if GivesUp(s, w) then Mutex.MovedBack(w.c, w.run, w.muxes[k].usPriority) else []
    case _ => []
  }

  /** The running task begins to wait, for at most `uwTimeout` ticks. */
  predicate Waits(s: Step, w: World)
  {
    || SemWaits(s, w) || MuxWaits(s, w) || EventWaits(s, w) || MailWaits(s, w)
    || (AsksRead(s, w) && w.queues[s.k].usReadableCnt == 0 && s.uwTimeout != 0 && w.lock == 0)
    || (AsksWrite(s, w) && w.queues[s.k].usWritableCnt == 0 && s.uwTimeout != 0 && w.lock == 0)
  }

  /** The list on which the caller waits, and what it still has to do. */
  function WaitOf(s: Step, w: World): Wait
  {
    match s
    case SemPend(k, _, _) => if k < |w.sems| then Waiting(Semaphore.ListOf(k, w.sems[k]), Plain) else NoWait
    case MuxPend(k, _, _) => Waiting(MuxL(k), Plain)
    case EventRead(e, mask, mode, _, _) => Waiting(EvL(e), EventArgs(mask, mode))
    case QueueRead(k, _, _, _, _) => Waiting(RdL(k), Plain)
    case QueueWrite(k, data, _, _, _) => Waiting(WrL(k), Message(data))
    case MailAlloc(_, _) => Waiting(MemL(w.mail.q), Plain)
    case _ => NoWait
  }

  predicate Sleeps(s: Step, w: World)
  {
    s.TaskDelay? && 0 < s.uwTick <= WAIT_FOREVER && !s.isr && Free(w) && w.lock == 0
  }

  /** The running task comes to the end of a call that has been resolved. */
  predicate Returns(s: Step, w: World) { s.ResumeCall? && (Back(w, true) || Back(w, false)) }

  /** A task is suspended, or no longer is. */
  predicate Turns(s: Step, w: World) { (s.TaskSuspend? || s.TaskResume?) && TaskAnswer(s, w) == Code(OS_OK) }

  /** Those whose last tick it is join the ready lists in the order of `due`, unless they are suspended. */
  ghost predicate Rising(c: Core, c': Core, due: seq<Task>)
  {
    && (forall t :: t in due <==> t in Wheel.Due(c.rem)) && Lined(c, c', {}, due)
    && forall t | t in due :: t in c.tcb && t in c'.tcb && (c'.tcb[t].ready <==> !c.tcb[t].suspend)
  }

  /** A tick lowers every timer by one and expires exactly those whose last tick it is. */
  ghost predicate Elapsed(c: Core, c': Core)
  {
    && c'.rem == Wheel.Ticked(c.rem) && c'.tcb == ExpiredTcbs(c.tcb, Wheel.Due(c.rem)) && Suspension(c, c', map[])
    && exists due :: Rising(c, c', due)
  }

  /** Any step but a tick hands something to those that it wakes, and stops their timers; it begins or ends at most one
      call, of the running task; and every other call and timer stays as it is.  Only a suspension or its end changes
      who is suspended.  Those who become ready stand at the end of the ready lists, and nobody else leaves his place
      but those who stop being ready, yield, or get another priority. */
  ghost predicate Time(s: Step, w: World, c: Core)
  {
    if s.Tick? then Elapsed(w.c, c)
    else if s.Schedule? then c == w.c
    else if Waits(s, w) then Began(w.c, c, w.run, WaitOf(s, w), Timeout(s.uwTimeout), Moves(s, w))
    else if Sleeps(s, w) then Slept(w.c, c, w.run, s.uwTick)
    else if Returns(s, w) then Ended(w.c, c, w.run, WokenBy(s, w))
    else if Turns(s, w) then Turned(w.c, c, s.t, s.TaskSuspend?)
    else Calm(w.c, c, WokenBy(s, w), Moves(s, w))
  }

  /** `LOS_Schedule` runs the first of the most urgent ready tasks, unless scheduling is locked; nothing else changes
      who runs. */
  ghost predicate Elects(s: Step, w: World, run: Task)
  {
    if s.Schedule? && w.lock == 0
      && exists t :: t in w.c.tcb && w.c.tcb[t].ready then MostUrgent(w.c, run) else run == w.run
  }

  // ---------------------------------------------------------------- what the calls hand back

  /** What a call hands back in the step in which it returns: a code, the message that it has read, event bits, or the
      address of a mail block; nothing if it waits, or cannot be made here. */
  datatype Reply = Silence | Code(uwRet: nat) | Got(buffer: int) | Bits(uwEvents: bv32) | Block(pMem: nat)

  function CodeOf(uwRet: Option<nat>): Reply { if uwRet.Some? then Code(uwRet.value) else Silence }

  function YieldCode(w: World): nat
  {
    if w.run >= w.maxNum then ERRNO_TSK_ID_INVALID
    else if |At(w.c.lists, Ready(PriorityOf(w.c, w.run)))| > 1 then OS_OK else ERRNO_TSK_YIELD_NOT_ENOUGH_TASK
  }

  function TaskAnswer(s: Step, w: World): Reply
  {
    match s
    case TaskDelay(uwTick, isr) =>
      if !MayCall(w, uwTick, isr) then Silence
      else if isr then Code(ERRNO_TSK_DELAY_IN_INT)
      else if w.lock != 0 then Code(ERRNO_TSK_DELAY_IN_LOCK)
      else if uwTick == 0 then Code(YieldCode(w)) else Code(OS_OK)
    case TaskYield => if Free(w) then Code(YieldCode(w)) else Silence
    case TaskSuspend(t) =>
      Code(if t == w.idle then ERRNO_TSK_OPERATE_IDLE
           else if t == w.swtmr then ERRNO_TSK_SUSPEND_SWTMR_NOT_ALLOWED
           else if t >= w.maxNum then ERRNO_TSK_ID_INVALID
           else if t !in w.c.tcb then ERRNO_TSK_NOT_CREATED
           else if w.c.tcb[t].suspend then ERRNO_TSK_ALREADY_SUSPENDED
           else if t == w.run && w.lock != 0 then ERRNO_TSK_SUSPEND_LOCKED else OS_OK)
    case TaskResume(t) =>
      Code(if t > w.maxNum then ERRNO_TSK_ID_INVALID
           else if t !in w.c.tcb then ERRNO_TSK_NOT_CREATED
           else if !w.c.tcb[t].suspend then ERRNO_TSK_NOT_SUSPENDED else OS_OK)
    case _ => Silence
  }

  function SetAnswer(s: Step, w: World): Reply
  {
    match s
    case TaskCreate(t, usTaskPrio) =>
      if t in w.c.tcb then Silence else Code(if usTaskPrio > PRIORITY_LOWEST then ERRNO_TSK_PRIOR_ERROR else OS_OK)
    case TaskPriSet(t, usTaskPrio) =>
      Code(if usTaskPrio > PRIORITY_LOWEST then ERRNO_TSK_PRIOR_ERROR
           else if t == w.idle then ERRNO_TSK_OPERATE_IDLE
           else if t >= w.maxNum then ERRNO_TSK_ID_INVALID
           else if t !in w.c.tcb then ERRNO_TSK_NOT_CREATED else OS_OK)
    case _ => Silence
  }

  function SemAnswer(s: Step, w: World): Reply
  {
    match s
    case SemCreate(hasHandle, usCount, k) =>
      if !Semaphore.AllBusy(w.sems) && (k >= |w.sems| || w.sems[k].used) then Silence
      else Code(if !hasHandle then ERRNO_SEM_PTR_NULL
                else if usCount > Semaphore.COUNT_MAX then ERRNO_SEM_OVERFLOW
                else if Semaphore.AllBusy(w.sems) then ERRNO_SEM_ALL_BUSY else OS_OK)
    case SemDelete(k) =>
      Code(if k >= |w.sems| || !w.sems[k].used then ERRNO_SEM_INVALID
           else if At(w.c.lists, Semaphore.ListOf(k, w.sems[k])) != [] then ERRNO_SEM_PENDED else OS_OK)
    case SemPend(k, uwTimeout, isr) =>
      if !MayCall(w, uwTimeout, isr) then Silence
      else if k >= |w.sems| || !w.sems[k].used then Code(ERRNO_SEM_INVALID)
      else if w.sems[k].uwSemCount > 0 then Code(OS_OK)
      else if uwTimeout == 0 then Code(ERRNO_SEM_UNAVAILABLE)
      else if isr then Code(ERRNO_SEM_PEND_INTERR)
      else if w.lock != 0 then Code(ERRNO_SEM_PEND_IN_LOCK) else Silence
    case SemPost(k) =>
      Code(if k >= |w.sems| || !w.sems[k].used then ERRNO_SEM_INVALID
           else if w.sems[k].uwSemCount == Semaphore.COUNT_MAX then ERRNO_SEM_OVERFLOW else OS_OK)
    case _ => Silence
  }

  function MuxAnswer(s: Step, w: World): Reply
  {
    match s
    case MuxCreate(hasHandle, k) =>
      if !Mutex.AllBusy(w.muxes) && (k >= |w.muxes| || w.muxes[k].used) then Silence
      else Code(if !hasHandle then ERRNO_MUX_PTR_NULL else if Mutex.AllBusy(w.muxes) then ERRNO_MUX_ALL_BUSY else OS_OK)
    case MuxDelete(k) =>
      Code(if k >= |w.muxes| || !w.muxes[k].used then ERRNO_MUX_INVALID
           else if At(w.c.lists, MuxL(k)) != [] || w.muxes[k].usMuxCount != 0 then ERRNO_MUX_PENDED else OS_OK)
    case MuxPend(k, uwTimeout, isr) =>
      if !MayCall(w, uwTimeout, isr) || TooOften(w, k, isr) then Silence
      else if k >= |w.muxes| || !w.muxes[k].used then Code(ERRNO_MUX_INVALID)
      else if isr then Code(ERRNO_MUX_PEND_INTERR)
      else if w.muxes[k].usMuxCount == 0 || w.muxes[k].pstOwner == w.run then Code(OS_OK)
      else if uwTimeout == 0 then Code(ERRNO_MUX_UNAVAILABLE)
      else if w.lock != 0 then Code(ERRNO_MUX_PEND_IN_LOCK) else Silence
    case MuxPost(k, isr) =>
      if !isr && !Free(w) then Silence
      else if k >= |w.muxes| || !w.muxes[k].used then Code(ERRNO_MUX_INVALID)
      else if isr then Code(ERRNO_MUX_PEND_INTERR)
      else if !Mutex.Owns(w.muxes, w.run, k) then Code(ERRNO_MUX_INVALID) else Code(OS_OK)
    case _ => Silence
  }

  /** A pend that would be the 65536th of its owner; it is not a step of a run. */
  predicate TooOften(w: World, k: nat, isr: bool)
  {
    && !isr && k < |w.muxes| && Mutex.Held(w.muxes[k]) && w.muxes[k].pstOwner == w.run
    && w.muxes[k].usMuxCount >= Mutex.COUNT_LIMIT - 1
  }

  function EventAnswer(s: Step, w: World): Reply
  {
    match s
    case EventRead(e, mask, mode, uwTimeout, isr) =>
      if !MayCall(w, uwTimeout, isr) then Silence
      else if e >= |w.events| then Bits(ERRNO_EVENT_PTR_NULL)
      else if !Event.GoodArgs(mask, mode) || isr then Bits(Event.ArgError(mask, mode, isr))
      else
        var r := Event.Polled(w.events[e], mask, mode);
        if r != 0 || uwTimeout == 0 then Bits(r) else if w.lock != 0 then Bits(ERRNO_EVENT_READ_IN_LOCK) else Silence
    case EventWrite(e, uwEvents) =>
      Bits(if e >= |w.events| then ERRNO_EVENT_PTR_NULL
        else if Event.IsError(uwEvents) then ERRNO_EVENT_SETBIT_INVALID else 0)
    case EventClear(e, _) => Bits(if e >= |w.events| then ERRNO_EVENT_PTR_NULL else 0)
    case _ => Silence
  }

  function QueueAnswer(s: Step, w: World): Reply
  {
    match s
    case QueueCreate(hasHandle, usLen, usMaxMsgSize, hasMemory) =>
      Code(Queue.CreateCode(w.queues, hasHandle, usLen, usMaxMsgSize, hasMemory))
    case QueueDelete(k, uwFreed) =>
      Code(if k >= |w.queues| then ERRNO_QUEUE_NOT_FOUND
           else if !w.queues[k].used then ERRNO_QUEUE_NOT_CREATE
           else if At(w.c.lists, RdL(k)) != [] || At(w.c.lists, WrL(k)) != [] || At(w.c.lists, MemL(k)) != []
             then ERRNO_QUEUE_IN_TSKUSE
           else if Flying(w.c.flight, RdL(k)) != {} || Flying(w.c.flight, WrL(k)) != {} then ERRNO_QUEUE_IN_TSKWRITE
             else uwFreed)
    case QueueRead(k, hasBuffer, size, uwTimeout, isr) =>
      if !MayCall(w, uwTimeout, isr) then Silence
      else if k >= |w.queues| then Code(ERRNO_QUEUE_READ_INVALID)
      else if !hasBuffer then Code(ERRNO_QUEUE_READ_PTR_NULL)
      else if size == 0 then Code(ERRNO_QUEUE_READSIZE_ISZERO)
      else if uwTimeout != 0 && isr then Code(ERRNO_QUEUE_READ_IN_INTERRUPT)
      else if !w.queues[k].used then Code(ERRNO_QUEUE_READ_NOT_CREATE)
      else if w.queues[k].usReadableCnt > 0 then Got(Queue.HeadSlot(w.queues[k]))
      else if uwTimeout == 0 then Code(ERRNO_QUEUE_ISEMPTY)
      else if w.lock != 0 then Code(ERRNO_QUEUE_PEND_IN_LOCK) else Silence
    case QueueWrite(k, data, size, uwTimeout, isr) =>
      if !MayCall(w, uwTimeout, isr) then Silence
      else if k >= |w.queues| then Code(ERRNO_QUEUE_WRITE_INVALID)
      else if data == 0 then Code(ERRNO_QUEUE_WRITE_PTR_NULL)
      else if size == 0 then Code(ERRNO_QUEUE_WRITESIZE_ISZERO)
      else if uwTimeout != 0 && isr then Code(ERRNO_QUEUE_WRITE_IN_INTERRUPT)
      else if !w.queues[k].used then Code(ERRNO_QUEUE_WRITE_NOT_CREATE)
      else if size > w.queues[k].usQueueSize then Code(ERRNO_QUEUE_WRITE_SIZE_TOO_BIG)
      else if w.queues[k].usWritableCnt > 0 then Code(OS_OK)
      else if uwTimeout == 0 then Code(ERRNO_QUEUE_ISFULL)
      else if w.lock != 0 then Code(ERRNO_QUEUE_PEND_IN_LOCK) else Silence
    case _ => Silence
  }

  ghost function MailAnswer(s: Step, w: World): Reply
  {
    match s
    case MailAlloc(uwTimeout, isr) =>
      if !MayCall(w, uwTimeout, isr) || !Mail.MayWait(w.lock, w.mail.free, uwTimeout, isr) then Silence
      else if uwTimeout != 0 && isr then Block(0)
      else if w.mail.free != [] then Block(Mail.UserAddr(w.mail.pool, w.mail.size, w.mail.free[0]))
      else if uwTimeout == 0 then Block(0) else Silence
    case MailFree(pMailMem) =>
      if pMailMem >= Membox.WORD32 || Mail.IsPromised(w.mail.msg, w.c.flight, w.mail.q, pMailMem) then Silence
      else Code(if MailLive(w.mail, pMailMem) then OS_OK else ERRNO_QUEUE_MAIL_FREE_ERROR)
    case _ => Silence
  }

  /** The end of a call: what it hands back tells whether it was handed what it waited for, or timed out. */
  function EndAnswer(s: Step, w: World): Reply
  {
    if !Returns(s, w) then Silence
    else
      var timedOut, wait := w.c.tcb[w.run].timeout, w.c.tcb[w.run].wait;
      match wait.id
      case SemL(_, _) => Code(if timedOut then ERRNO_SEM_TIMEOUT else OS_OK)
      case MuxL(_) => Code(if timedOut then ERRNO_MUX_TIMEOUT else OS_OK)
      case EvL(e) =>
        if timedOut then Bits(ERRNO_EVENT_READ_TIMEOUT)
        else if e < |w.events| && wait.call.EventArgs?
          then Bits(Event.Polled(w.events[e], wait.call.uwEventMask, wait.call.uwEventMode))
        else Silence
      case RdL(q) =>
        if timedOut then Code(ERRNO_QUEUE_TIMEOUT)
          else if q < |w.queues| then Got(Queue.HeadSlot(w.queues[q])) else Silence
      case WrL(_) => Code(if timedOut then ERRNO_QUEUE_TIMEOUT else OS_OK)
      case MemL(_) => Block(if timedOut then 0 else Mail.MsgOf(w.mail.msg, w.run))
      case Ready(_) => Silence
  }

  ghost function Answer(s: Step, w: World): Reply
  {
    match KindOf(s)
    case TaskKind => TaskAnswer(s, w)
    case SetKind => SetAnswer(s, w)
    case SemKind => SemAnswer(s, w)
    case MuxKind => MuxAnswer(s, w)
    case EventKind => EventAnswer(s, w)
    case QueueKind => QueueAnswer(s, w)
    case MailKind => MailAnswer(s, w)
    case ResumeKind => EndAnswer(s, w)
  }

  // ---------------------------------------------------------------- one step, and a run of them

  /** The books after a step that leaves the shared state, the control blocks and the mail as in `n`. */
  function Booked(s: Step, w: World, n: World): World
  {
    World(n.c, n.run, LockAfter(s, w), w.idle, w.swtmr, w.maxNum, BaseAfter(s, w), n.sems, SemBooksAfter(s, w),
          MuxesAfter(s, w), MuxBooksAfter(s, w), StackAfter(s, w), OrderlyAfter(s, w), MildAfter(s, w),
          EventsAfter(s, w), n.queues, QueueBooksAfter(s, w), n.mail)
  }

  /** One step, as the books tell it. */
  ghost predicate Follows(s: Step, w: World, w': World)
  {
    && w' == Booked(s, w, w') && Elects(s, w, w'.run)
    && Priorities(s, w, w'.c) && Time(s, w, w'.c) && MailFollows(s, w, w'.mail)
  }

  ghost predicate Story(trace: seq<World>, steps: seq<Step>)
  {
    |trace| == |steps| + 1 && forall i | 0 <= i < |steps| :: Follows(steps[i], trace[i], trace[i + 1])
  }

  /** Every call of a run is answered as the state in which it returns says. */
  ghost predicate Answered(trace: seq<World>, steps: seq<Step>, replies: seq<Reply>)
    ensures Answered(trace, steps, replies) ==> |trace| == |steps| + 1 == |replies| + 1
  {
    |trace| == |steps| + 1 == |replies| + 1 && forall i | 0 <= i < |steps| :: replies[i] == Answer(steps[i], trace[i])
  }

  // ---------------------------------------------------------------- who keeps which book

  datatype Kind = TaskKind | SetKind | SemKind | MuxKind | EventKind | QueueKind | MailKind | ResumeKind

  function KindOf(s: Step): Kind
  {
    match s
    case TaskCreate(_, _) => SetKind
    case TaskPriSet(_, _) => SetKind
    case SemCreate(_, _, _) => SemKind
    case SemDelete(_) => SemKind
    case SemPend(_, _, _) => SemKind
    case SemPost(_) => SemKind
    case MuxCreate(_, _) => MuxKind
    case MuxDelete(_) => MuxKind
    case MuxPend(_, _, _) => MuxKind
    case MuxPost(_, _) => MuxKind
    case EventRead(_, _, _, _, _) => EventKind
    case EventWrite(_, _) => EventKind
    case EventClear(_, _) => EventKind
    case QueueCreate(_, _, _, _) => QueueKind
    case QueueDelete(_, _) => QueueKind
    case QueueRead(_, _, _, _, _) => QueueKind
    case QueueWrite(_, _, _, _, _) => QueueKind
    case MailAlloc(_, _) => MailKind
    case MailFree(_) => MailKind
    case ResumeCall => ResumeKind
    case _ => TaskKind
  }

  /** What a step of one module does not touch. */
  lemma OtherBooks(s: Step, w: World)
    ensures KindOf(s) != SetKind ==> BaseAfter(s, w) == w.base && MildAfter(s, w) == w.mild
    ensures KindOf(s) != TaskKind ==> LockAfter(s, w) == w.lock
    ensures KindOf(s) != SemKind && KindOf(s) != ResumeKind ==> SemBooksAfter(s, w) == w.semBooks
    ensures KindOf(s) != MuxKind ==>
              MuxesAfter(s, w) == w.muxes && MuxBooksAfter(s, w) == w.muxBooks && StackAfter(s, w) == w.stack
    ensures KindOf(s) != MuxKind && KindOf(s) != SetKind ==> OrderlyAfter(s, w) == w.orderly
    ensures KindOf(s) != EventKind && KindOf(s) != ResumeKind ==> EventsAfter(s, w) == w.events
    ensures KindOf(s) != QueueKind && KindOf(s) != ResumeKind ==> QueueBooksAfter(s, w) == w.queueBooks
  {
    hide *;
    OtherSettings(s, w);
    OtherSems(s, w);
    OtherMuxes(s, w);
    OtherEvents(s, w);
    OtherQueues(s, w);
  }

  lemma OtherSettings(s: Step, w: World)
    ensures KindOf(s) != SetKind ==> BaseAfter(s, w) == w.base && MildAfter(s, w) == w.mild
    ensures KindOf(s) != TaskKind ==> LockAfter(s, w) == w.lock
  {
  }

  lemma OtherSems(s: Step, w: World)
    ensures KindOf(s) != SemKind && KindOf(s) != ResumeKind ==> SemBooksAfter(s, w) == w.semBooks
  {
  }

  lemma OtherMuxes(s: Step, w: World)
    ensures KindOf(s) != MuxKind ==>
              MuxesAfter(s, w) == w.muxes && MuxBooksAfter(s, w) == w.muxBooks && StackAfter(s, w) == w.stack
    ensures KindOf(s) != MuxKind && KindOf(s) != SetKind ==> OrderlyAfter(s, w) == w.orderly
  {
    NotOfMuxes(s);
    hide KindOf;
  }

  lemma NotOfMuxes(s: Step)
    ensures KindOf(s) != MuxKind ==> !s.MuxCreate? && !s.MuxDelete? && !s.MuxPend? && !s.MuxPost?
    ensures KindOf(s) != SetKind ==> !s.TaskCreate? && !s.TaskPriSet?
  {
  }

  lemma OtherEvents(s: Step, w: World)
    ensures KindOf(s) != EventKind && KindOf(s) != ResumeKind ==> EventsAfter(s, w) == w.events
  {
  }

  lemma OtherQueues(s: Step, w: World)
    ensures KindOf(s) != QueueKind && KindOf(s) != ResumeKind ==> QueueBooksAfter(s, w) == w.queueBooks
  {
  }

  /** A step that leaves all priorities as they were. */
  lemma SameUrgency(s: Step, w: World, c: Core)
    requires SamePriorities(w.c, c) && KindOf(s) != SetKind && !MuxWaits(s, w) && !GivesUp(s, w)
    ensures Priorities(s, w, c)
  {
  }

  lemma OtherMail(s: Step, w: World)
    requires KindOf(s) != MailKind
             && !(s.ResumeCall? && w.run in w.c.tcb && w.c.tcb[w.run].wait.Waiting? && w.c.tcb[w.run].wait.id.MemL?)
    ensures MailFollows(s, w, w.mail)
  {
  }

  predicate MayStart(s: Step)
  {
    s.SemPend? || s.MuxPend? || s.EventRead? || s.QueueRead? || s.QueueWrite? || s.MailAlloc? || s.TaskDelay?
  }

  predicate MayWake(s: Step)
  {
    s.SemPost? || s.MuxPost? || s.EventWrite? || s.QueueRead? || s.QueueWrite? || s.MailFree? || s.ResumeCall?
  }

  predicate MayMove(s: Step)
  {
    s.TaskCreate? || s.TaskPriSet? || s.TaskYield? || s.TaskDelay? || s.MuxPend? || s.MuxPost?
  }

  /** Only calls that wait, and delays, start timers; only wakers stop them. */
  lemma NoTimers(s: Step, w: World)
    ensures !MayStart(s) ==> !Waits(s, w) && !Sleeps(s, w)
    ensures s.TaskDelay? ==> !Waits(s, w)
    ensures !s.TaskDelay? ==> !Sleeps(s, w)
    ensures !s.ResumeCall? ==> !Returns(s, w)
    ensures !MayWake(s) ==> WokenBy(s, w) == []
    ensures !MayMove(s) ==> Moves(s, w) == []
    ensures !s.TaskSuspend? && !s.TaskResume? ==> !Turns(s, w)
    ensures s.MuxPend? && !Waits(s, w) ==> Moves(s, w) == []
  {
    hide Reads, Writes, MailBack, GivesUp, TaskAnswer;
  }

  /** A step of the task module or of the semaphores, events, queues or mail: priorities, and the books of other
      modules, are as before. */
  lemma MakeFollows(s: Step, w: World, w': World)
    requires KindOf(s) != SetKind && KindOf(s) != MuxKind && Elects(s, w, w'.run)
    requires w' == w.(c := w'.c, run := w'.run, lock := LockAfter(s, w), sems := w'.sems,
             semBooks := SemBooksAfter(s, w),
                      events := EventsAfter(s, w), queues := w'.queues, queueBooks := QueueBooksAfter(s, w),
                        mail := w'.mail)
    requires SamePriorities(w.c, w'.c) && Time(s, w, w'.c) && MailFollows(s, w, w'.mail)
    ensures Follows(s, w, w')
  {
    hide *;
    OtherBooks(s, w);
    NotMuxes(s, w);
    SameUrgency(s, w, w'.c);
    BookedIs(s, w, w');
    MakeBooked(s, w, w');
  }

  lemma BookedIs(s: Step, w: World, n: World)
    ensures Booked(s, w, n) ==
              World(n.c, n.run, LockAfter(s, w), w.idle, w.swtmr, w.maxNum, BaseAfter(s, w), n.sems,
                SemBooksAfter(s, w),
                    MuxesAfter(s, w), MuxBooksAfter(s, w), StackAfter(s, w), OrderlyAfter(s, w), MildAfter(s, w),
                    EventsAfter(s, w), n.queues, QueueBooksAfter(s, w), n.mail)
  {
  }

  lemma NotMuxes(s: Step, w: World)
    requires KindOf(s) != MuxKind
    ensures !MuxWaits(s, w) && !GivesUp(s, w)
  {
  }

  lemma MakeBooked(s: Step, w: World, w': World)
    requires w' == Booked(s, w, w') && Elects(s, w, w'.run) && Priorities(s, w, w'.c) && Time(s, w, w'.c)
             && MailFollows(s, w, w'.mail)
    ensures Follows(s, w, w')
  {
    hide Priorities, Time, MailFollows, Booked;
  }

  /** A call that may wait and wakes nobody either waits or leaves the shared state alone. */
  lemma WaitTime(s: Step, w: World, c: Core)
    requires MayStart(s) && !MayWake(s) && !s.TaskDelay?
    requires if Waits(s, w) then Began(w.c, c, w.run, WaitOf(s, w), Timeout(s.uwTimeout), Moves(s, w)) else c == w.c
    ensures Time(s, w, c)
  {
    hide Began, Calm, Waits, WaitOf, Moves, Turns;
    NoTimers(s, w);
    CalmRefl(w.c);
  }

  /** A step that begins and ends no call. */
  lemma QuietTime(s: Step, w: World, c: Core)
    requires !MayStart(s) && !s.Tick? && !s.Schedule? && !Returns(s, w) && !Turns(s, w)
             && Calm(w.c, c, WokenBy(s, w), Moves(s, w))
    ensures Time(s, w, c)
  {
    hide Calm, WokenBy, Waits, WaitOf, Returns, Moves, Turns;
    NoTimers(s, w);
  }

  /** The end of a call. */
  lemma ReturnTime(s: Step, w: World, c: Core)
    requires Returns(s, w) && Ended(w.c, c, w.run, WokenBy(s, w))
    ensures Time(s, w, c)
  {
    hide Ended, WokenBy, Waits, WaitOf, Moves, Turns;
    NoTimers(s, w);
  }

  lemma StillTime(s: Step, w: World)
    requires !MayStart(s) && !s.Tick? && !Returns(s, w) && !Turns(s, w) && WokenBy(s, w) == [] && Moves(s, w) == []
    ensures Time(s, w, w.c)
  {
    CalmRefl(w.c);
    if !s.Schedule? { QuietTime(s, w, w.c); }
    hide Calm, WokenBy, Waits, WaitOf, Returns, Moves, Turns;
  }

  /** A new task, or a new priority. */
  ghost predicate NewPriority(w: World, c: Core, t: Task, p: nat)
  {
    c.tcb.Keys == w.c.tcb.Keys + {t} && c.tcb[t].usPriority == p
      && forall u | u in w.c.tcb && u != t :: c.tcb[u] == w.c.tcb[u]
  }

  lemma SetFollows(s: Step, w: World, w': World)
    requires KindOf(s) == SetKind
    requires w' == w.(c := w'.c, base := BaseAfter(s, w), orderly := OrderlyAfter(s, w), mild := MildAfter(s, w))
    requires if Creates(s, w) || Sets(s, w) then NewPriority(w, w'.c, s.t, s.usTaskPrio) else w'.c == w.c
    requires Calm(w.c, w'.c, [], Moves(s, w))
    ensures Follows(s, w, w')
  {
    OtherSettings(s, w);
    OtherBooks(s, w);
    BookedIs(s, w, w');
    SetPriorities(s, w, w'.c);
    OtherMail(s, w);
    NoTimers(s, w);
    hide Waits, WaitOf, BaseAfter, OrderlyAfter, MildAfter, LockAfter, SemBooksAfter, MuxesAfter, MuxBooksAfter,
      StackAfter, EventsAfter, QueueBooksAfter, MailFollows, Booked, Calm, WokenBy, Returns, Sleeps, NewPriority,
      Priorities, Moves, Turns;
  }

  lemma SetPriorities(s: Step, w: World, c: Core)
    requires KindOf(s) == SetKind
             && if Creates(s, w) || Sets(s, w) then NewPriority(w, c, s.t, s.usTaskPrio) else c == w.c
    ensures Priorities(s, w, c)
  {
  }

  lemma DelayTime(s: Step, w: World, c: Core)
    requires s.TaskDelay?
             && if Sleeps(s, w) then Slept(w.c, c, w.run, s.uwTick) else Calm(w.c, c, [], Moves(s, w))
    ensures Time(s, w, c)
  {
    NoTimers(s, w);
    hide Slept, Calm, WaitOf, Sleeps, Moves, Turns;
  }

  /** A task is suspended or resumed, or the call is refused. */
  lemma TurnTime(s: Step, w: World, c: Core)
    requires (s.TaskSuspend? || s.TaskResume?)
             && if Turns(s, w) then Turned(w.c, c, s.t, s.TaskSuspend?) else c == w.c
    ensures Time(s, w, c)
  {
    NoTimers(s, w);
    CalmRefl(w.c);
    hide Turned, Calm, WaitOf, Moves, Turns;
  }

  /** A step of the mutex module. */
  lemma MuxFollows(s: Step, w: World, w': World)
    requires KindOf(s) == MuxKind
    requires w' == w.(c := w'.c, muxes := MuxesAfter(s, w), muxBooks := MuxBooksAfter(s, w), stack := StackAfter(s, w),
             orderly := OrderlyAfter(s, w))
    requires Priorities(s, w, w'.c) && Time(s, w, w'.c)
    ensures Follows(s, w, w')
  {
    hide *;
    OtherBooks(s, w);
    BookedIs(s, w, w');
    SameRunner(s, w);
    MuxMail(s, w);
    MakeBooked(s, w, w');
  }

  lemma SameRunner(s: Step, w: World)
    ensures !s.Schedule? || KindOf(s) != TaskKind ==> Elects(s, w, w.run)
  {
  }

  lemma MuxMail(s: Step, w: World)
    requires KindOf(s) == MuxKind
    ensures MailFollows(s, w, w.mail)
  {
  }
}
