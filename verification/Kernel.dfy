/** The kernel as one system of interleaved steps: tasks, semaphores, mutexes, events, queues and mail over one set of
    control blocks, lists and timers.  A blocking call is two steps, up to and after `LOS_Schedule`; ticks, interrupts
    and steps of other tasks may come between them in any order and number. */
module Kernel {
  import opened Errno
  import opened Ledger
  import opened Soundness
  import opened Steps
  import opened Tasks
  import opened TaskSystem
  import Wheel
  import Semaphore
  import Mutex
  import Event
  import Queue
  import Mail
  import Membox

  class Kernel {
    const tasks: TaskSystem
    const sems: Semaphore.Semaphores
    const muxes: Mutex.Mutexes
    const events: Event.Events
    const queues: Queue.Queues
    const mails: Mail.Mails

    /** Everything that holds in every reachable state. */
    ghost predicate Valid()
      reads this, tasks, tasks.wheel, sems, muxes, events, queues, mails, mails.pool
    {
      && sems.tasks == tasks && muxes.tasks == tasks && events.tasks == tasks && queues.tasks == tasks
         && mails.tasks == tasks
      && tasks.Valid() && mails.pool.Valid() && Sound(Now())
    }

    /** The kernel as seen from outside. */
    ghost function Now(): World
      reads this, tasks, tasks.wheel, sems, muxes, events, queues, mails, mails.pool
    {
      World(tasks.State(), tasks.pstRunTask, tasks.usLosTaskLock, tasks.idle, tasks.swtmr, tasks.maxNum, tasks.base,
        sems.cbs, sems.hist,
            muxes.cbs, muxes.depth, muxes.stack, muxes.orderly, muxes.mild, events.cbs, queues.cbs, queues.hist, Box())
    }

    ghost function Box(): MailBox
      reads mails, mails.pool
    {
      MailBox(mails.q, mails.pool.pool, mails.pool.uwBlkSize, mails.pool.uwBlkNum, mails.pool.free, mails.puwMsg)
    }

    constructor (idle: Task, swtmr: Task, maxNum: nat, semLimit: nat, muxLimit: nat, eventLimit: nat, queueLimit: nat,
                 pool: Membox.Pool, q: nat)
      requires pool.Valid()
      ensures Valid() && Now().c.tcb == map[] && Now().orderly && Now().mild && Now().stack == map[]
      ensures forall k | 0 <= k < |Now().muxBooks| :: Now().muxBooks[k] == map[]
    {
      hide WF, Semaphore.SemsOk, Mutex.MuxesOk, Mutex.Stacks, Mutex.Discipline, Event.EventsOk, Queue.QueuesOk,
        CallsInRange, Mail.MailOk, Membox.Pool.Valid, Sound;
      var ts := new TaskSystem(idle, swtmr, maxNum);
      tasks := ts;
      sems := new Semaphore.Semaphores(ts, semLimit);
      muxes := new Mutex.Mutexes(ts, muxLimit);
      events := new Event.Events(ts, eventLimit);
      queues := new Queue.Queues(ts, queueLimit);
      mails := new Mail.Mails(ts, pool, q);
      new;
      Together();
    }

    lemma Together()
      requires sems.tasks == tasks && muxes.tasks == tasks && events.tasks == tasks && queues.tasks == tasks
               && mails.tasks == tasks
      requires sems.Valid() && muxes.Valid() && events.Valid() && queues.Valid() && mails.Valid() && tasks.tcb == map[]
      ensures Valid()
    {
      hide WF, Semaphore.SemsOk, Mutex.MuxesOk, Mutex.Stacks, Mutex.Discipline, Event.EventsOk, Queue.QueuesOk,
        Mail.MailOk, Membox.Pool.Valid;
    }

    /** The invariant as the modules state it. */
    lemma Facts()
      requires Valid()
      ensures tasks.Valid() && WF(tasks.State()) && Kept(tasks.State(), tasks.State(), {})
              && SamePriorities(tasks.State(), tasks.State())
      ensures sems.tasks == tasks && muxes.tasks == tasks && events.tasks == tasks && queues.tasks == tasks
              && mails.tasks == tasks
      ensures mails.pool.Valid() && Sound(Now())
    {
      KeptRefl(tasks.State(), {});
      hide WF, Kept, Sound;
    }

    lemma SemFacts()
      requires Valid()
      ensures sems.Valid() && |sems.hist| == |sems.cbs|
    {
      hide WF, Semaphore.OneOk, Mutex.MuxesOk, Mutex.Stacks, Mutex.Discipline, Event.EventsOk, Queue.OneOk,
        CallsInRange, Mail.MailOk;
    }

    lemma MuxFacts()
      requires Valid()
      ensures muxes.Valid() && |muxes.depth| == |muxes.cbs|
    {
      hide WF, Semaphore.OneOk, Mutex.OneOk, Mutex.Stacks, Mutex.Discipline, Event.EventsOk, Queue.OneOk, CallsInRange,
        Mail.MailOk;
    }

    lemma EventFacts()
      requires Valid()
      ensures events.Valid()
    {
      hide WF, Semaphore.OneOk, Mutex.MuxesOk, Mutex.Stacks, Mutex.Discipline, Event.EventsOk, Queue.OneOk,
        CallsInRange, Mail.MailOk;
    }

    lemma QueueFacts()
      requires Valid()
      ensures queues.Valid() && |queues.hist| == |queues.cbs|
    {
      hide WF, Semaphore.OneOk, Mutex.MuxesOk, Mutex.Stacks, Mutex.Discipline, Event.EventsOk, Queue.OneOk,
        CallsInRange, Mail.MailOk;
    }

    lemma MailFacts()
      requires Valid()
      ensures mails.Valid()
    {
      hide WF, Semaphore.OneOk, Mutex.MuxesOk, Mutex.Stacks, Mutex.Discipline, Event.EventsOk, Queue.OneOk,
        CallsInRange, Mail.MailOk;
    }

    lemma NowIs()
      ensures Now() == World(tasks.State(), tasks.pstRunTask, tasks.usLosTaskLock, tasks.idle, tasks.swtmr,
              tasks.maxNum, tasks.base, sems.cbs, sems.hist,
                             muxes.cbs, muxes.depth, muxes.stack, muxes.orderly, muxes.mild, events.cbs, queues.cbs,
                               queues.hist, Box())
      ensures tasks.State() == Core(tasks.tcb, tasks.lists, tasks.wheel.rem, tasks.flight, tasks.out, tasks.stamp,
              tasks.clock)
      ensures Box() == MailBox(mails.q, mails.pool.pool, mails.pool.uwBlkSize, mails.pool.uwBlkNum, mails.pool.free,
              mails.puwMsg)
    {
    }

    lemma Ordered()
      requires tasks.Valid()
      ensures WF(tasks.State())
    {
    }

    lemma Close()
      requires sems.tasks == tasks && muxes.tasks == tasks && events.tasks == tasks && queues.tasks == tasks
               && mails.tasks == tasks
      requires tasks.Valid() && mails.pool.Valid() && Sound(Now())
      ensures Valid()
    {
    }

    lemma Wider(c: Core, mine: set<ListId>)
      requires Kept(c, c, {})
      ensures Kept(c, c, mine)
    {
    }

    // -------------------------------------------------------------- tasks, priorities, and the tick

    /** `LOS_TaskCreate`, on a control block that is free. */
    method CreateTask(s: Step) returns (r: Reply)
      requires Valid() && s.TaskCreate?
      modifies tasks`tcb, tasks`lists, tasks`base
      ensures Valid() && Follows(s, old(Now()), Now()) && r == SetAnswer(s, old(Now()))
    {
      hide Valid, Sound, Follows, Now, Box, WF, Kept, Calm, SamePriorities, TaskSystem.Valid, TaskSystem.State,
        Membox.Pool.Valid;
      ghost var w := Now();
      Facts();
      NowIs();
      CalmRefl(w.c);
      r := Silence;
      if s.t !in tasks.tcb {
        var uwRet := tasks.TaskCreate(s.t, s.usTaskPrio);
        r := Code(uwRet);
      }
      NowIs();
      Ordered();
      TaskCreated(s, w, Now());
      Close();
    }

    lemma TaskCreated(s: Step, w: World, w': World)
      requires s.TaskCreate? && Sound(w) && WF(w'.c) && Kept(w.c, w'.c, {}) && Calm(w.c, w'.c, [], Moves(s, w))
      requires w' == w.(c := w'.c, base := w'.base)
      requires if s.t !in w.c.tcb && s.usTaskPrio <= PRIORITY_LOWEST then
                 && w'.c.tcb == w.c.tcb[s.t := Tcb(true, false, false, false, false, false, s.usTaskPrio, NoWait)]
                 && w'.base == w.base[s.t := s.usTaskPrio]
               else w'.c == w.c && w'.base == w.base
      ensures Sound(w') && Follows(s, w, w')
    {
      hide WF, Kept, Calm, Follows, Sound, Mutex.MildSet;
      if Creates(s, w) {
        Newcomer(w, s.t, s.usTaskPrio);
        AfterSet(w, w', s.t, s.usTaskPrio);
      }
      SetFollows(s, w, w');
    }

    /** `LOS_TaskPriSet`. */
    method SetPriority(s: Step) returns (r: Reply)
      requires Valid() && s.TaskPriSet?
      modifies tasks`tcb, tasks`lists, tasks`base, muxes`orderly, muxes`mild
      ensures Valid() && Follows(s, old(Now()), Now()) && r == SetAnswer(s, old(Now()))
    {
      hide Valid, Sound, Follows, Now, Box, WF, Kept, Calm, SamePriorities, TaskSystem.Valid, TaskSystem.State,
        Membox.Pool.Valid, Settled, Mutex.MildSet, SetAnswer;
      ghost var w := Now();
      Facts();
      NowIs();
      var uwRet := tasks.TaskPriSet(s.t, s.usTaskPrio);
      r := Code(uwRet);
      SetAnswered(s, w, uwRet);
      if uwRet != OS_OK {
        NowIs();
        PriorityRefused(s, w);
        Close();
      } else {
        SettledTask(w.c, tasks.State(), s.t, w.c.tcb[s.t].(usPriority := s.usTaskPrio));
        muxes.NotePriority(s.t, s.usTaskPrio);
        NowIs();
        Ordered();
        PrioritySet(s, w, Now());
        Close();
      }
    }

    lemma SetAnswered(s: Step, w: World, uwRet: nat)
      requires s.TaskPriSet?
      requires uwRet == if s.usTaskPrio > PRIORITY_LOWEST then ERRNO_TSK_PRIOR_ERROR
                        else if s.t == w.idle then ERRNO_TSK_OPERATE_IDLE
                        else if s.t >= w.maxNum then ERRNO_TSK_ID_INVALID
                        else if s.t !in w.c.tcb then ERRNO_TSK_NOT_CREATED else OS_OK
      ensures Code(uwRet) == SetAnswer(s, w)
    {
    }

    lemma PriorityRefused(s: Step, w: World)
      requires s.TaskPriSet? && !(s.usTaskPrio <= PRIORITY_LOWEST && s.t != w.idle && s.t < w.maxNum && s.t in w.c.tcb)
      ensures Follows(s, w, w)
    {
      hide Follows, Calm;
      CalmRefl(w.c);
      SetFollows(s, w, w);
    }

    lemma SettledTask(c: Core, c': Core, t: Task, x: Tcb)
      requires Settled(c, c', t, x)
      ensures t in c.tcb && c'.tcb == c.tcb[t := x]
    {
    }

    lemma PrioritySet(s: Step, w: World, w': World)
      requires s.TaskPriSet? && Sound(w) && WF(w'.c) && Kept(w.c, w'.c, {}) && Calm(w.c, w'.c, [], [s.t])
      requires w' == w.(c := w'.c, base := w'.base, orderly := w'.orderly, mild := w'.mild)
      requires s.usTaskPrio <= PRIORITY_LOWEST && s.t != w.idle && s.t < w.maxNum && s.t in w.c.tcb
      requires w'.c.tcb == w.c.tcb[s.t := w.c.tcb[s.t].(usPriority := s.usTaskPrio)]
               && w'.base == w.base[s.t := s.usTaskPrio]
      requires w'.orderly == (w.orderly && Mutex.StackOf(w.stack, s.t) == [])
               && w'.mild == (w.mild && Mutex.MildSet(w.muxes, s.t, s.usTaskPrio))
      ensures Sound(w') && Follows(s, w, w')
    {
      hide WF, Kept, Calm, Follows, Sound, Mutex.MildSet;
      AfterSet(w, w', s.t, s.usTaskPrio);
      SetFollows(s, w, w');
    }

    lemma TaskDone(s: Step, w: World, w': World)
      requires KindOf(s) == TaskKind && Sound(w) && WF(w'.c) && Kept(w.c, w'.c, {}) && SamePriorities(w.c, w'.c)
      requires w' == w.(c := w'.c, run := w'.run, lock := LockAfter(s, w)) && Elects(s, w, w'.run) && Time(s, w, w'.c)
      ensures Sound(w') && Follows(s, w, w')
    {
      hide *;
      AfterTasks(w, w');
      OtherBooks(s, w);
      PlainMail(s, w);
      MakeFollows(s, w, w');
    }

    /** The running task is back in a call on `id`. */
    predicate Inside(s: Step, w: World, id: ListId)
    {
      s.ResumeCall? && w.run in w.c.tcb && w.c.tcb[w.run].ready && w.c.tcb[w.run].wait.Waiting?
        && w.c.tcb[w.run].wait.id == id
    }

    /** What neither a step of one module touches, nor the end of one of its calls. */
    lemma Others(s: Step, w: World, id: ListId)
      requires KindOf(s) == ResumeKind ==> Inside(s, w, id)
      ensures Inside(s, w, id) ==> KindOf(s) == ResumeKind
      ensures (if KindOf(s) == ResumeKind then !id.SemL? else KindOf(s) != SemKind) ==>
                SemBooksAfter(s, w) == w.semBooks
      ensures (if KindOf(s) == ResumeKind then !id.EvL? else KindOf(s) != EventKind) ==> EventsAfter(s, w) == w.events
      ensures (if KindOf(s) == ResumeKind then !id.RdL? && !id.WrL? else KindOf(s) != QueueKind) ==>
                QueueBooksAfter(s, w) == w.queueBooks
      ensures (if KindOf(s) == ResumeKind then !id.MemL? else KindOf(s) != MailKind) ==> MailFollows(s, w, w.mail)
    {
      hide *;
      InsideResumes(s, w, id);
      if KindOf(s) == ResumeKind {
        OthersResumed(s, w, id);
      } else {
        OtherBooks(s, w);
        if KindOf(s) != MailKind { PlainMail(s, w); }
      }
    }

    lemma InsideResumes(s: Step, w: World, id: ListId)
      ensures Inside(s, w, id) ==> KindOf(s) == ResumeKind
    {
    }

    lemma OthersResumed(s: Step, w: World, id: ListId)
      requires Inside(s, w, id)
      ensures !id.SemL? ==> SemBooksAfter(s, w) == w.semBooks
      ensures !id.EvL? ==> EventsAfter(s, w) == w.events
      ensures !id.RdL? && !id.WrL? ==> QueueBooksAfter(s, w) == w.queueBooks
      ensures !id.MemL? ==> MailFollows(s, w, w.mail)
    {
      if !id.MemL? { OtherMail(s, w); }
      hide MailFollows;
    }

    lemma PlainMail(s: Step, w: World)
      requires KindOf(s) != MailKind && KindOf(s) != ResumeKind
      ensures MailFollows(s, w, w.mail)
    {
      OtherMail(s, w);
    }

    method TaskStep(s: Step) returns (r: Reply)
      requires Valid() && KindOf(s) == TaskKind
      modifies tasks`tcb, tasks`lists, tasks`out, tasks`pstRunTask, tasks`usLosTaskLock, tasks.wheel
      ensures Valid() && Follows(s, old(Now()), Now()) && r == TaskAnswer(s, old(Now()))
    {
      hide Valid, Follows, Now;
      r := Silence;
      if s.TaskDelay? {
        r := DelayStep(s);
      } else if s.TaskYield? {
        r := YieldStep(s);
      } else if s.TaskSuspend? {
        r := SuspendStep(s);
      } else if s.TaskResume? {
        r := ResumeStep(s);
      } else if s.Tick? {
        TickStep(s);
      } else if s.Schedule? {
        ScheduleStep(s);
      } else if s.TaskLock? {
        LockStep(s);
      } else {
        UnlockStep(s);
      }
    }

    method DelayStep(s: Step) returns (r: Reply)
      requires Valid() && s.TaskDelay?
      modifies tasks`tcb, tasks`lists, tasks.wheel
      ensures Valid() && Follows(s, old(Now()), Now()) && r == TaskAnswer(s, old(Now()))
    {
      hide Valid, Sound, Follows, Now, Box, WF, Kept, Calm, Slept, SamePriorities, TaskSystem.Valid, TaskSystem.State,
        Membox.Pool.Valid, Time, Elects, TaskAnswer;
      ghost var w := Now();
      Facts();
      NowIs();
      CalmRefl(w.c);
      SameRunner(s, w);
      r := Silence;
      NotAnswered(s, w);
      if s.uwTick <= WAIT_FOREVER && (s.isr || tasks.Running()) {
        var uwRet := tasks.TaskDelay(s.uwTick, s.isr);
        r := Code(uwRet);
        DelayAnswered(s, w, uwRet);
      }
      DelayTime(s, w, tasks.State());
      NowIs();
      Ordered();
      TaskDone(s, w, Now());
      Close();
    }

    lemma NotAnswered(s: Step, w: World)
      ensures s.TaskDelay? && !MayCall(w, s.uwTick, s.isr) ==> TaskAnswer(s, w) == Silence
      ensures s.TaskYield? && !Free(w) ==> TaskAnswer(s, w) == Silence
    {
    }

    lemma DelayAnswered(s: Step, w: World, uwRet: nat)
      requires s.TaskDelay? && MayCall(w, s.uwTick, s.isr)
      requires uwRet == if s.isr then ERRNO_TSK_DELAY_IN_INT
                        else if w.lock != 0 then ERRNO_TSK_DELAY_IN_LOCK
                          else if s.uwTick == 0 then YieldCode(w) else OS_OK
      ensures Code(uwRet) == TaskAnswer(s, w)
    {
    }

    lemma YieldAnswered(s: Step, w: World, uwRet: nat)
      requires s.TaskYield? && Free(w) && uwRet == YieldCode(w)
      ensures Code(uwRet) == TaskAnswer(s, w)
    {
    }

    lemma YieldMoves(s: Step, w: World)
      requires s.TaskYield?
      ensures Moves(s, w) == if TaskAnswer(s, w) == Code(OS_OK) then [w.run] else []
    {
      hide TaskAnswer;
    }

    method YieldStep(s: Step) returns (r: Reply)
      requires Valid() && s.TaskYield?
      modifies tasks`tcb, tasks`lists
      ensures Valid() && Follows(s, old(Now()), Now()) && r == TaskAnswer(s, old(Now()))
    {
      hide Valid, Sound, Follows, Now, Box, WF, Kept, Calm, SamePriorities, TaskSystem.Valid, TaskSystem.State,
        Membox.Pool.Valid, Time, WokenBy, Returns, Elects, TaskAnswer, Turns, Moves, At, Without;
      ghost var w := Now();
      Facts();
      NowIs();
      CalmRefl(w.c);
      NoTimers(s, w);
      SameRunner(s, w);
      r := Silence;
      NotAnswered(s, w);
      YieldMoves(s, w);
      if tasks.Running() {
        var uwRet := tasks.TaskYield();
        r := Code(uwRet);
        YieldAnswered(s, w, uwRet);
        NowIs();
        SameTcbs(w.c, tasks.State());
      }
      QuietTime(s, w, tasks.State());
      NowIs();
      Ordered();
      TaskDone(s, w, Now());
      Close();
    }

    lemma SameTcbs(c: Core, c': Core)
      requires c'.tcb == c.tcb
      ensures SamePriorities(c, c')
    {
    }

    method SuspendStep(s: Step) returns (r: Reply)
      requires Valid() && s.TaskSuspend?
      modifies tasks`tcb, tasks`lists
      ensures Valid() && Follows(s, old(Now()), Now()) && r == TaskAnswer(s, old(Now()))
    {
      hide Valid, Sound, Follows, Now, Box, WF, Kept, Turned, SamePriorities, TaskSystem.Valid, TaskSystem.State,
        Membox.Pool.Valid, Time, WokenBy, Returns, Elects;
      ghost var w := Now();
      Facts();
      NowIs();
      SameRunner(s, w);
      var uwRet := tasks.TaskSuspend(s.t);
      r := Code(uwRet);
      TurnTime(s, w, tasks.State());
      NowIs();
      Ordered();
      TaskDone(s, w, Now());
      Close();
    }

    method ResumeStep(s: Step) returns (r: Reply)
      requires Valid() && s.TaskResume?
      modifies tasks`tcb, tasks`lists
      ensures Valid() && Follows(s, old(Now()), Now()) && r == TaskAnswer(s, old(Now()))
    {
      hide Valid, Sound, Follows, Now, Box, WF, Kept, Turned, SamePriorities, TaskSystem.Valid, TaskSystem.State,
        Membox.Pool.Valid, Time, WokenBy, Returns, Elects;
      ghost var w := Now();
      Facts();
      NowIs();
      SameRunner(s, w);
      var uwRet := tasks.TaskResume(s.t);
      r := Code(uwRet);
      TurnTime(s, w, tasks.State());
      NowIs();
      Ordered();
      TaskDone(s, w, Now());
      Close();
    }

    method TickStep(s: Step)
      requires Valid() && s.Tick?
      modifies tasks`tcb, tasks`lists, tasks`out, tasks.wheel
      ensures Valid() && Follows(s, old(Now()), Now())
    {
      hide Valid, Sound, Follows, Now, Box, WF, Kept, Calm, SamePriorities, TaskSystem.Valid, TaskSystem.State,
        Membox.Pool.Valid, ExpiredTcbs, Wheel.Ticked, Wheel.Due, Elects, Suspension, Lined;
      ghost var w := Now();
      Facts();
      NowIs();
      SameRunner(s, w);
      ghost var expired := tasks.TaskScan();
      NowIs();
      assert Rising(w.c, tasks.State(), expired);
      Ordered();
      TaskDone(s, w, Now());
      Close();
    }

    /** The lock is not taken between a pend and its `LOS_Schedule`. */
    method LockStep(s: Step)
      requires Valid() && s.TaskLock?
      modifies tasks`usLosTaskLock
      ensures Valid() && Follows(s, old(Now()), Now())
    {
      hide Valid, Sound, Follows, Now, Box, WF, Kept, Calm, SamePriorities, TaskSystem.Valid, TaskSystem.State,
        Membox.Pool.Valid, Time, WokenBy, Returns, Elects, Wheel.TimerWheel.Valid;
      ghost var w := Now();
      Facts();
      NowIs();
      SameRunner(s, w);
      WheelFact();
      NoTimers(s, w);
      if tasks.pstRunTask in tasks.tcb ==> tasks.tcb[tasks.pstRunTask].ready {
        tasks.usLosTaskLock := tasks.usLosTaskLock + 1;
      }
      NowIs();
      Relocked(w.c);
      StillTime(s, w);
      TaskDone(s, w, Now());
      Close();
    }

    method UnlockStep(s: Step)
      requires Valid() && s.TaskUnlock?
      modifies tasks`usLosTaskLock
      ensures Valid() && Follows(s, old(Now()), Now())
    {
      hide Valid, Sound, Follows, Now, Box, WF, Kept, Calm, SamePriorities, TaskSystem.Valid, TaskSystem.State,
        Membox.Pool.Valid, Time, WokenBy, Returns, Elects, Wheel.TimerWheel.Valid;
      ghost var w := Now();
      Facts();
      NowIs();
      SameRunner(s, w);
      WheelFact();
      NoTimers(s, w);
      if tasks.usLosTaskLock > 0 {
        tasks.usLosTaskLock := tasks.usLosTaskLock - 1;
      }
      NowIs();
      Relocked(w.c);
      StillTime(s, w);
      TaskDone(s, w, Now());
      Close();
    }

    lemma WheelFact()
      requires tasks.Valid()
      ensures tasks.wheel.Valid()
    {
      hide WF;
    }

    lemma Relocked(c: Core)
      requires tasks.wheel.Valid() && WF(c) && tasks.State() == c
      ensures tasks.Valid()
    {
      hide WF;
    }

    method ScheduleStep(s: Step)
      requires Valid() && s.Schedule?
      modifies tasks`pstRunTask
      ensures Valid() && Follows(s, old(Now()), Now())
    {
      hide Valid, Sound, Follows, Now, Box, WF, Kept, Calm, SamePriorities, TaskSystem.Valid, TaskSystem.State,
        Membox.Pool.Valid, Time, WokenBy, Returns, MostUrgent;
      ghost var w := Now();
      Facts();
      NowIs();
      NoTimers(s, w);
      tasks.Schedule();
      NowIs();
      StillTime(s, w);
      TaskDone(s, w, Now());
      Close();
    }

    // -------------------------------------------------------------- semaphores

    lemma SemDone(s: Step, w: World, w': World, id: ListId)
      requires (KindOf(s) == SemKind || Inside(s, w, id)) && Sound(w) && WF(w'.c)
               && Semaphore.SemsOk(w'.sems, w'.semBooks, w'.c)
      requires id.SemL? && Kept(w.c, w'.c, {id}) && SamePriorities(w.c, w'.c)
      requires w' == w.(c := w'.c, sems := w'.sems, semBooks := SemBooksAfter(s, w)) && Time(s, w, w'.c)
      ensures Sound(w') && Follows(s, w, w')
    {
      hide *;
      AfterSem(w, w', id);
      OtherBooks(s, w);
      Others(s, w, id);
      SameRunner(s, w);
      MakeFollows(s, w, w');
    }

    lemma StillKept(w: World, id: ListId)
      requires Sound(w)
      ensures Kept(w.c, w.c, {id}) && SamePriorities(w.c, w.c)
    {
      OrderedWorld(w);
      hide WF, Sound;
      KeptRefl(w.c, {id});
    }

    lemma OrderedWorld(w: World)
      requires Sound(w)
      ensures WF(w.c)
    {
      hide WF;
    }

    /** The semaphores are in order, as their module says. */
    lemma SemsNow()
      requires sems.Valid() && sems.tasks == tasks
      ensures tasks.Valid() && WF(tasks.State()) && Semaphore.SemsOk(sems.cbs, sems.hist, tasks.State())
              && |sems.hist| == |sems.cbs|
    {
      hide WF, Semaphore.OneOk;
    }

    method SemStep(s: Step) returns (r: Reply)
      requires Valid() && KindOf(s) == SemKind
      modifies sems, tasks`tcb, tasks`lists, tasks`flight, tasks`out, tasks`stamp, tasks`clock, tasks.wheel
      ensures Valid() && Follows(s, old(Now()), Now()) && r == SemAnswer(s, old(Now()))
    {
      hide Valid, Follows, Now;
      if s.SemCreate? {
        r := SemCreateStep(s);
      } else if s.SemDelete? {
        r := SemDeleteStep(s);
      } else if s.SemPend? {
        if s.uwTimeout <= WAIT_FOREVER && (s.isr || tasks.Running()) {
          r := SemPendStep(s);
        } else {
          r := Silence;
          NoSemPend(s);
        }
      } else {
        r := SemPostStep(s);
      }
    }

    method SemCreateStep(s: Step) returns (r: Reply)
      requires Valid() && s.SemCreate?
      modifies sems
      ensures Valid() && Follows(s, old(Now()), Now()) && r == SemAnswer(s, old(Now()))
    {
      hide Valid, Sound, Follows, Now, Box, WF, Kept, Calm, SamePriorities, TaskSystem.Valid, TaskSystem.State,
        Membox.Pool.Valid, Time, WokenBy, Semaphore.SemsOk, Semaphore.Semaphores.Valid;
      ghost var w := Now();
      Facts();
      SemFacts();
      NowIs();
      NoTimers(s, w);
      StillTime(s, w);
      Wider(w.c, {SemL(0, 0)});
      r := Silence;
      if Semaphore.AllBusy(sems.cbs) || (s.k < |sems.cbs| && !sems.cbs[s.k].used) {
        var uwRet := sems.SemCreate(s.hasHandle, s.usCount, s.k);
        r := Code(uwRet);
      }
      NowIs();
      SemsNow();
      SemDone(s, w, Now(), SemL(0, 0));
      Close();
    }

    method SemDeleteStep(s: Step) returns (r: Reply)
      requires Valid() && s.SemDelete?
      modifies sems
      ensures Valid() && Follows(s, old(Now()), Now()) && r == SemAnswer(s, old(Now()))
    {
      hide Valid, Sound, Follows, Now, Box, WF, Kept, Calm, SamePriorities, TaskSystem.Valid, TaskSystem.State,
        Membox.Pool.Valid, Time, WokenBy, Semaphore.SemsOk, Semaphore.Semaphores.Valid;
      ghost var w := Now();
      Facts();
      SemFacts();
      NowIs();
      NoTimers(s, w);
      StillTime(s, w);
      Wider(w.c, {SemL(0, 0)});
      var uwRet := sems.SemDelete(s.k);
      r := Code(uwRet);
      NowIs();
      SemsNow();
      SemDone(s, w, Now(), SemL(0, 0));
      Close();
    }

    method SemPendStep(s: Step) returns (r: Reply)
      requires Valid() && s.SemPend? && s.uwTimeout <= WAIT_FOREVER && (s.isr || tasks.Running())
      modifies sems, tasks`tcb, tasks`lists, tasks`out, tasks`stamp, tasks`clock, tasks.wheel
      ensures Valid() && Follows(s, old(Now()), Now()) && r == SemAnswer(s, old(Now()))
    {
      hide Valid, Sound, Follows, Now, Box, WF, Kept, Calm, SamePriorities, TaskSystem.Valid, TaskSystem.State,
        Membox.Pool.Valid, Time, WokenBy, SemBooksAfter, Semaphore.SemsOk, Semaphore.Semaphores.Valid, Began, Timeout,
        SemAnswer;
      ghost var w := Now();
      Facts();
      SemFacts();
      NowIs();
      var uwRet := sems.SemPend(s.k, s.uwTimeout, s.isr);
      r := CodeOf(uwRet);
      NowIs();
      SemsNow();
      SemPended(s, w, uwRet, Now());
      Close();
    }

    /** A pend that cannot be made here. */
    lemma NoSemPend(s: Step)
      requires Valid() && s.SemPend? && !(s.uwTimeout <= WAIT_FOREVER && (s.isr || tasks.Running()))
      ensures Follows(s, Now(), Now()) && SemAnswer(s, Now()) == Silence
    {
      hide Time, Follows, SamePriorities, Sound, WF, TaskSystem.Valid, Membox.Pool.Valid;
      var w := Now();
      SameTcbs(w.c, w.c);
      WaitTime(s, w, w.c);
      OtherBooks(s, w);
      PlainMail(s, w);
      MakeFollows(s, w, w);
    }

    lemma SemPended(s: Step, w: World, r: Option<nat>, n: World)
      requires n == w.(c := n.c, sems := n.sems, semBooks := n.semBooks) && Sound(w) && WF(n.c)
               && Semaphore.SemsOk(n.sems, n.semBooks, n.c)
      requires s.SemPend? && MayCall(w, s.uwTimeout, s.isr) && |w.semBooks| == |w.sems|
      requires r == if s.k >= |w.sems| || !w.sems[s.k].used then Some(ERRNO_SEM_INVALID)
                    else if w.sems[s.k].uwSemCount > 0 then Some(OS_OK)
                    else if s.uwTimeout == 0 then Some(ERRNO_SEM_UNAVAILABLE)
                    else if s.isr then Some(ERRNO_SEM_PEND_INTERR)
                    else if w.lock != 0 then Some(ERRNO_SEM_PEND_IN_LOCK) else None
      requires r == Some(OS_OK) ==>
                 n.semBooks == w.semBooks[s.k := w.semBooks[s.k].(taken := w.semBooks[s.k].taken + 1)]
      requires r != Some(OS_OK) ==> n.semBooks == w.semBooks
      requires if r.Some? then n.c == w.c
               else var id := Semaphore.ListOf(s.k, w.sems[s.k]);
                    && Began(w.c, n.c, w.run, Waiting(id, Plain), Timeout(s.uwTimeout), []) && Kept(w.c, n.c, {id})
                       && SamePriorities(w.c, n.c)
      ensures Sound(n) && Follows(s, w, n) && CodeOf(r) == SemAnswer(s, w)
    {
      hide Time, Began, Sound, Follows, WF, Kept, SamePriorities, Semaphore.SemsOk;
      WaitTime(s, w, n.c);
      StillKept(w, SemL(0, 0));
      SemDone(s, w, n, if r.None? then Semaphore.ListOf(s.k, w.sems[s.k]) else SemL(0, 0));
    }

    method SemPostStep(s: Step) returns (r: Reply)
      requires Valid() && s.SemPost?
      modifies sems, tasks`tcb, tasks`lists, tasks`flight, tasks`out, tasks.wheel
      ensures Valid() && Follows(s, old(Now()), Now()) && r == SemAnswer(s, old(Now()))
    {
      hide Valid, Sound, Follows, Now, Box, WF, Kept, Calm, SamePriorities, TaskSystem.Valid, TaskSystem.State,
        Membox.Pool.Valid, Time, WokenBy, SemBooksAfter, Semaphore.SemsOk, Semaphore.Semaphores.Valid, Woken, Calm,
        Firsts, Only, SemAnswer;
      ghost var w := Now();
      Facts();
      SemFacts();
      NowIs();
      var uwRet, woken := sems.SemPost(s.k);
      r := Code(uwRet);
      NowIs();
      SemsNow();
      SemPosted(s, w, uwRet, woken, Now());
      Close();
    }

    lemma SemPosted(s: Step, w: World, r: nat, woken: Option<Task>, n: World)
      requires n == w.(c := n.c, sems := n.sems, semBooks := n.semBooks) && Sound(w) && WF(n.c)
               && Semaphore.SemsOk(n.sems, n.semBooks, n.c)
      requires s.SemPost? && |w.semBooks| == |w.sems| && Calm(w.c, n.c, Only(woken), [])
               && SamePriorities(w.c, n.c)
      requires r == if s.k >= |w.sems| || !w.sems[s.k].used then ERRNO_SEM_INVALID
                    else if w.sems[s.k].uwSemCount == Semaphore.COUNT_MAX then ERRNO_SEM_OVERFLOW else OS_OK
      requires r != OS_OK ==> n.semBooks == w.semBooks && woken.None? && n.c == w.c
      requires r == OS_OK ==>
                 var id := Semaphore.ListOf(s.k, w.sems[s.k]);
                 var l := At(w.c.lists, id);
                 && n.semBooks == w.semBooks[s.k := w.semBooks[s.k].(posts := w.semBooks[s.k].posts + 1)]
                 && (woken.None? <==> l == []) && (woken.Some? ==> l != [] && woken.value == l[0])
                    && Kept(w.c, n.c, {id})
      ensures Sound(n) && Follows(s, w, n) && Code(r) == SemAnswer(s, w)
    {
      hide Time, Calm, At, Sound, Follows, WF, Kept, SamePriorities, Semaphore.SemsOk;
      QuietTime(s, w, n.c);
      StillKept(w, SemL(0, 0));
      SemDone(s, w, n, if r == OS_OK then Semaphore.ListOf(s.k, w.sems[s.k]) else SemL(0, 0));
    }

    // -------------------------------------------------------------- mutexes

    lemma MuxDone(s: Step, w: World, w': World, k: nat)
      requires KindOf(s) == MuxKind && Sound(w) && WF(w'.c) && Mutex.MuxesOk(w'.muxes, w'.muxBooks, w'.c)
               && Mutex.Stacks(w'.muxes, w'.stack)
      requires Mutex.Discipline(w'.muxes, w'.stack, w'.c.tcb, w'.base, w'.orderly, w'.mild)
               && Kept(w.c, w'.c, {MuxL(k)})
      requires w' == w.(c := w'.c, muxes := MuxesAfter(s, w), muxBooks := MuxBooksAfter(s, w),
               stack := StackAfter(s, w), orderly := OrderlyAfter(s, w))
      requires Priorities(s, w, w'.c) && Time(s, w, w'.c)
      ensures Sound(w') && Follows(s, w, w')
    {
      hide *;
      AfterMux(w, w', k);
      MuxFollows(s, w, w');
    }

    lemma MuxesNow()
      requires muxes.Valid() && muxes.tasks == tasks
      ensures tasks.Valid() && WF(tasks.State()) && Mutex.MuxesOk(muxes.cbs, muxes.depth, tasks.State())
              && Mutex.Stacks(muxes.cbs, muxes.stack)
      ensures Mutex.Discipline(muxes.cbs, muxes.stack, tasks.tcb, tasks.base, muxes.orderly, muxes.mild)
    {
      hide WF, Mutex.MuxesOk, Mutex.Stacks, Mutex.Discipline;
    }

    method MuxStep(s: Step) returns (r: Reply)
      requires Valid() && KindOf(s) == MuxKind
      modifies muxes, tasks`tcb, tasks`lists, tasks`flight, tasks`out, tasks`stamp, tasks`clock, tasks.wheel
      ensures Valid() && Follows(s, old(Now()), Now()) && r == MuxAnswer(s, old(Now()))
    {
      hide Valid, Follows, Now;
      r := Silence;
      if s.MuxCreate? {
        r := MuxCreateStep(s);
      } else if s.MuxDelete? {
        r := MuxDeleteStep(s);
      } else if s.MuxPend? {
        if s.uwTimeout <= WAIT_FOREVER && (s.isr || tasks.Running()) && muxes.CountFits(s.k, s.isr) {
          r := MuxPendStep(s);
        } else {
          NoMuxPend(s);
        }
      } else {
        if s.isr || tasks.Running() { r := MuxPostStep(s); } else { NoMuxPost(s); }
      }
    }

    method MuxCreateStep(s: Step) returns (r: Reply)
      requires Valid() && s.MuxCreate?
      modifies muxes
      ensures Valid() && Follows(s, old(Now()), Now()) && r == MuxAnswer(s, old(Now()))
    {
      hide Valid, Sound, Follows, Now, Box, WF, Kept, Calm, SamePriorities, TaskSystem.Valid, TaskSystem.State,
        Membox.Pool.Valid, Mutex.MuxesOk, Mutex.Stacks, Mutex.Discipline, Mutex.Mutexes.Valid, Priorities, MuxesAfter,
        MuxBooksAfter, StackAfter, OrderlyAfter, Time, WokenBy;
      ghost var w := Now();
      Facts();
      MuxFacts();
      NowIs();
      Wider(w.c, {MuxL(s.k)});
      r := Silence;
      if Mutex.AllBusy(muxes.cbs) || (s.k < |muxes.cbs| && !muxes.cbs[s.k].used) {
        var uwRet := muxes.MuxCreate(s.hasHandle, s.k);
        r := Code(uwRet);
      }
      NowIs();
      MuxMade(s, w, muxes.cbs);
      MuxesNow();
      MuxDone(s, w, Now(), s.k);
      Close();
    }

    lemma MuxMade(s: Step, w: World, cbs: seq<Mutex.Mux>)
      requires s.MuxCreate?
      requires cbs == if s.hasHandle && s.k < |w.muxes| && !w.muxes[s.k].used
               then w.muxes[s.k := Mutex.Mux(true, 0, 0, 0)] else w.muxes
      ensures cbs == MuxesAfter(s, w) && w.muxBooks == MuxBooksAfter(s, w) && w.stack == StackAfter(s, w)
              && w.orderly == OrderlyAfter(s, w)
      ensures Priorities(s, w, w.c) && Time(s, w, w.c)
    {
      hide Time;
      NoTimers(s, w);
      StillTime(s, w);
    }

    method MuxDeleteStep(s: Step) returns (r: Reply)
      requires Valid() && s.MuxDelete?
      modifies muxes
      ensures Valid() && Follows(s, old(Now()), Now()) && r == MuxAnswer(s, old(Now()))
    {
      hide Valid, Sound, Follows, Now, Box, WF, Kept, Calm, SamePriorities, TaskSystem.Valid, TaskSystem.State,
        Membox.Pool.Valid, Mutex.MuxesOk, Mutex.Stacks, Mutex.Discipline, Mutex.Mutexes.Valid, Priorities, MuxesAfter,
        MuxBooksAfter, StackAfter, OrderlyAfter, Time, WokenBy;
      ghost var w := Now();
      Facts();
      MuxFacts();
      NowIs();
      Wider(w.c, {MuxL(s.k)});
      var uwRet := muxes.MuxDelete(s.k);
      r := Code(uwRet);
      NowIs();
      MuxGone(s, w, uwRet, muxes.cbs);
      MuxesNow();
      MuxDone(s, w, Now(), s.k);
      Close();
    }

    lemma MuxGone(s: Step, w: World, r: nat, cbs: seq<Mutex.Mux>)
      requires s.MuxDelete? && |w.muxBooks| == |w.muxes|
      requires r == if s.k >= |w.muxes| || !w.muxes[s.k].used then ERRNO_MUX_INVALID
                    else if At(w.c.lists, MuxL(s.k)) != [] || w.muxes[s.k].usMuxCount != 0 then ERRNO_MUX_PENDED
                      else OS_OK
      requires cbs == if r == OS_OK then w.muxes[s.k := w.muxes[s.k].(used := false)] else w.muxes
      ensures cbs == MuxesAfter(s, w) && w.muxBooks == MuxBooksAfter(s, w) && w.stack == StackAfter(s, w)
              && w.orderly == OrderlyAfter(s, w)
      ensures Priorities(s, w, w.c) && Time(s, w, w.c)
    {
      hide Time, At;
      NoTimers(s, w);
      StillTime(s, w);
    }

    method MuxPendStep(s: Step) returns (r: Reply)
      requires Valid() && s.MuxPend? && s.uwTimeout <= WAIT_FOREVER && (s.isr || tasks.Running())
               && muxes.CountFits(s.k, s.isr)
      modifies muxes, tasks`tcb, tasks`lists, tasks`out, tasks`stamp, tasks`clock, tasks.wheel
      ensures Valid() && Follows(s, old(Now()), Now()) && r == MuxAnswer(s, old(Now()))
    {
      hide Valid, Sound, Follows, Now, Box, WF, Kept, Calm, SamePriorities, TaskSystem.Valid, TaskSystem.State,
        Membox.Pool.Valid, Mutex.MuxesOk, Mutex.Stacks, Mutex.Discipline, Mutex.Mutexes.Valid, Priorities, MuxesAfter,
        MuxBooksAfter, StackAfter, OrderlyAfter, Time, WokenBy, OnePriority, Mutex.Counted, Mutex.StackOf, Mutex.Lifted,
        Began, Timeout, MuxAnswer, Mutex.Inherits, Mutex.MovedUp;
      ghost var w := Now();
      Facts();
      MuxFacts();
      NowIs();
      var uwRet := muxes.MuxPend(s.k, s.uwTimeout, s.isr);
      r := CodeOf(uwRet);
      NowIs();
      MuxesNow();
      MuxPended(s, w, uwRet, Now());
      Close();
    }

    /** The mutexes are in order after a step that has changed only them and the shared state. */
    ghost predicate MuxesChanged(w: World, n: World)
    {
      && n == w.(c := n.c, muxes := n.muxes, muxBooks := n.muxBooks, stack := n.stack, orderly := n.orderly)
      && WF(n.c) && Mutex.MuxesOk(n.muxes, n.muxBooks, n.c) && Mutex.Stacks(n.muxes, n.stack)
      && Mutex.Discipline(n.muxes, n.stack, n.c.tcb, n.base, n.orderly, n.mild)
    }

    lemma MuxPended(s: Step, w: World, r: Option<nat>, n: World)
      requires Sound(w) && MuxesChanged(w, n) && n.orderly == w.orderly
      requires s.MuxPend? && s.uwTimeout <= WAIT_FOREVER && (s.isr || Free(w)) && |w.muxBooks| == |w.muxes|
      requires !TooOften(w, s.k, s.isr)
      requires r == if s.k >= |w.muxes| || !w.muxes[s.k].used then Some(ERRNO_MUX_INVALID)
                    else if s.isr then Some(ERRNO_MUX_PEND_INTERR)
                    else if w.muxes[s.k].usMuxCount == 0 || w.muxes[s.k].pstOwner == w.run then Some(OS_OK)
                    else if s.uwTimeout == 0 then Some(ERRNO_MUX_UNAVAILABLE)
                    else if w.lock != 0 then Some(ERRNO_MUX_PEND_IN_LOCK) else None
      requires r == Some(OS_OK) ==>
                 && n.muxBooks == w.muxBooks[s.k := Mutex.Counted(w.muxBooks[s.k], w.run, 1)]
                 && n.muxes == (if w.muxes[s.k].usMuxCount == 0
                            then w.muxes[s.k := Mutex.Mux(true, 1, w.run, w.c.tcb[w.run].usPriority)]
                            else w.muxes[s.k := w.muxes[s.k].(usMuxCount :=
                              (w.muxes[s.k].usMuxCount + 1) % Mutex.COUNT_LIMIT)])
                 && n.stack == (if w.muxes[s.k].usMuxCount == 0
                    then w.stack[w.run := Mutex.StackOf(w.stack, w.run) + [s.k]] else w.stack)
      requires r != Some(OS_OK) ==> n.muxes == w.muxes && n.muxBooks == w.muxBooks && n.stack == w.stack
      requires if r.Some? then n.c == w.c
               else && OnePriority(w.c, n.c, w.muxes[s.k].pstOwner, Mutex.Lifted(w.c.tcb, w.muxes[s.k].pstOwner, w.run))
                    && Began(w.c, n.c, w.run, Waiting(MuxL(s.k), Plain), Timeout(s.uwTimeout),
                       Mutex.MovedUp(w.c, w.muxes[s.k].pstOwner, w.run))
                       && Kept(w.c, n.c, {MuxL(s.k)})
      ensures Sound(n) && Follows(s, w, n) && CodeOf(r) == MuxAnswer(s, w)
    {
      hide MuxAnswer, Time, Began, Mutex.Counted, Mutex.StackOf, Mutex.Lifted, Mutex.MovedUp, Sound, Follows, WF, Kept,
        Mutex.MuxesOk, Mutex.Stacks, Mutex.Discipline, MuxesAfter, MuxBooksAfter, StackAfter, OrderlyAfter, Priorities;
      MuxPendAnswered(s, w, r);
      MuxPendBooked(s, w, r, n);
      WaitTime(s, w, n.c);
      StillKept(w, MuxL(s.k));
      MuxDone(s, w, n, s.k);
    }

    lemma MuxPendBooked(s: Step, w: World, r: Option<nat>, n: World)
      requires s.MuxPend? && s.uwTimeout <= WAIT_FOREVER && (s.isr || Free(w)) && |w.muxBooks| == |w.muxes|
      requires !TooOften(w, s.k, s.isr)
      requires r == if s.k >= |w.muxes| || !w.muxes[s.k].used then Some(ERRNO_MUX_INVALID)
                    else if s.isr then Some(ERRNO_MUX_PEND_INTERR)
                    else if w.muxes[s.k].usMuxCount == 0 || w.muxes[s.k].pstOwner == w.run then Some(OS_OK)
                    else if s.uwTimeout == 0 then Some(ERRNO_MUX_UNAVAILABLE)
                    else if w.lock != 0 then Some(ERRNO_MUX_PEND_IN_LOCK) else None
      requires r == Some(OS_OK) ==>
                 && n.muxBooks == w.muxBooks[s.k := Mutex.Counted(w.muxBooks[s.k], w.run, 1)]
                 && n.muxes == (if w.muxes[s.k].usMuxCount == 0
                            then w.muxes[s.k := Mutex.Mux(true, 1, w.run, w.c.tcb[w.run].usPriority)]
                            else w.muxes[s.k := w.muxes[s.k].(usMuxCount :=
                              (w.muxes[s.k].usMuxCount + 1) % Mutex.COUNT_LIMIT)])
                 && n.stack == (if w.muxes[s.k].usMuxCount == 0
                    then w.stack[w.run := Mutex.StackOf(w.stack, w.run) + [s.k]] else w.stack)
      requires r != Some(OS_OK) ==> n.muxes == w.muxes && n.muxBooks == w.muxBooks && n.stack == w.stack
      requires if r.Some? then n.c == w.c
               else && OnePriority(w.c, n.c, w.muxes[s.k].pstOwner, Mutex.Lifted(w.c.tcb, w.muxes[s.k].pstOwner, w.run))
      ensures n.muxes == MuxesAfter(s, w) && n.muxBooks == MuxBooksAfter(s, w) && n.stack == StackAfter(s, w)
      ensures w.orderly == OrderlyAfter(s, w) && Priorities(s, w, n.c)
    {
      hide Mutex.Counted, Mutex.StackOf, Mutex.Lifted;
    }

    lemma MuxPendAnswered(s: Step, w: World, r: Option<nat>)
      requires s.MuxPend? && s.uwTimeout <= WAIT_FOREVER && (s.isr || Free(w)) && !TooOften(w, s.k, s.isr)
      requires r == if s.k >= |w.muxes| || !w.muxes[s.k].used then Some(ERRNO_MUX_INVALID)
                    else if s.isr then Some(ERRNO_MUX_PEND_INTERR)
                    else if w.muxes[s.k].usMuxCount == 0 || w.muxes[s.k].pstOwner == w.run then Some(OS_OK)
                    else if s.uwTimeout == 0 then Some(ERRNO_MUX_UNAVAILABLE)
                    else if w.lock != 0 then Some(ERRNO_MUX_PEND_IN_LOCK) else None
      ensures CodeOf(r) == MuxAnswer(s, w)
    {
    }

    /** A pend that cannot be made here, or that would be the 65536th of an owner. */
    lemma NoMuxPend(s: Step)
      requires Valid() && s.MuxPend?
               && !(s.uwTimeout <= WAIT_FOREVER && (s.isr || tasks.Running()) && muxes.CountFits(s.k, s.isr))
      ensures Follows(s, Now(), Now()) && MuxAnswer(s, Now()) == Silence
    {
      hide Time, Follows, Sound, WF, TaskSystem.Valid, Membox.Pool.Valid;
      var w := Now();
      WaitTime(s, w, w.c);
      MuxFollows(s, w, w);
    }

    method MuxPostStep(s: Step) returns (r: Reply)
      requires Valid() && s.MuxPost? && (s.isr || tasks.Running())
      modifies muxes, tasks`tcb, tasks`lists, tasks`flight, tasks`out, tasks.wheel
      ensures Valid() && Follows(s, old(Now()), Now()) && r == MuxAnswer(s, old(Now()))
    {
      hide Valid, Sound, Follows, Now, Box, WF, Kept, Calm, SamePriorities, TaskSystem.Valid, TaskSystem.State,
        Membox.Pool.Valid, Mutex.MuxesOk, Mutex.Stacks, Mutex.Discipline, Mutex.Mutexes.Valid, Priorities, MuxesAfter,
        MuxBooksAfter, StackAfter, OrderlyAfter, Time, WokenBy, Mutex.Passed, Mutex.Counted, Mutex.ReleasedInOrder,
        MuxAnswer;
      ghost var w := Now();
      Facts();
      MuxFacts();
      NowIs();
      var uwRet, woken := muxes.MuxPost(s.k, s.isr);
      r := Code(uwRet);
      NowIs();
      MuxesNow();
      MuxPosted(s, w, uwRet, woken, Now());
      Close();
    }

    lemma MuxPosted(s: Step, w: World, r: nat, woken: Option<Task>, n: World)
      requires Sound(w) && MuxesChanged(w, n) && s.MuxPost? && (s.isr || Free(w)) && |w.muxBooks| == |w.muxes|
      requires r == if s.k >= |w.muxes| || !w.muxes[s.k].used then ERRNO_MUX_INVALID
                    else if s.isr then ERRNO_MUX_PEND_INTERR
                    else if !Mutex.Owns(w.muxes, w.run, s.k) then ERRNO_MUX_INVALID else OS_OK
      requires r != OS_OK ==>
                 n.muxes == w.muxes && n.muxBooks == w.muxBooks && n.stack == w.stack && n.orderly == w.orderly
                 && n.c == w.c
      requires r == OS_OK && w.muxes[s.k].usMuxCount > 1 ==>
                 && n.muxes == w.muxes[s.k := w.muxes[s.k].(usMuxCount := w.muxes[s.k].usMuxCount - 1)]
                 && n.muxBooks == w.muxBooks[s.k := Mutex.Counted(w.muxBooks[s.k], w.run, -1)]
                 && n.stack == w.stack && n.orderly == w.orderly && n.c == w.c
      requires r == OS_OK && w.muxes[s.k].usMuxCount == 1 ==>
                 && (woken.None? <==> At(w.c.lists, MuxL(s.k)) == [])
                 && (n.orderly <==> w.orderly && Mutex.ReleasedInOrder(w.muxes, w.stack, w.run, s.k))
                 && Kept(w.c, n.c, {MuxL(s.k)})
                 && Mutex.Passed(w.muxes, w.muxBooks, w.stack, n.muxes, n.muxBooks, n.stack, w.c, n.c, w.run, s.k,
                    woken)
      requires woken.Some? ==> At(w.c.lists, MuxL(s.k)) != [] && woken.value == At(w.c.lists, MuxL(s.k))[0]
      ensures Sound(n) && Follows(s, w, n) && Code(r) == MuxAnswer(s, w)
    {
      hide Time, Sound, Mutex.Passed, Mutex.Counted, Mutex.ReleasedInOrder, Calm, WokenBy, Follows, WF, Kept,
        Mutex.MuxesOk, Mutex.Stacks, Mutex.Discipline;
      if GivesUp(s, w) {
        PostedLast(s, w, woken, n);
      } else {
        PostedNot(s, w);
        StillKept(w, MuxL(s.k));
      }
      MuxDone(s, w, n, s.k);
    }

    lemma PostedNot(s: Step, w: World)
      requires s.MuxPost? && !GivesUp(s, w)
      ensures Time(s, w, w.c) && Priorities(s, w, w.c)
    {
      hide Time;
      StillTime(s, w);
    }

    lemma PostedLast(s: Step, w: World, woken: Option<Task>, n: World)
      requires s.MuxPost? && Sound(w) && GivesUp(s, w) && |w.muxBooks| == |w.muxes|
      requires woken.None? <==> At(w.c.lists, MuxL(s.k)) == []
      requires woken.Some? ==> At(w.c.lists, MuxL(s.k)) != [] && woken.value == At(w.c.lists, MuxL(s.k))[0]
      requires Mutex.Passed(w.muxes, w.muxBooks, w.stack, n.muxes, n.muxBooks, n.stack, w.c, n.c, w.run, s.k, woken)
      ensures n.muxes == MuxesAfter(s, w) && n.muxBooks == MuxBooksAfter(s, w) && n.stack == StackAfter(s, w)
      ensures Priorities(s, w, n.c) && Time(s, w, n.c)
    {
      hide Time, Sound, Mutex.Counted, Calm, Mutex.MuxesOk, At, Mutex.MovedBack;
      MuxesOf(w);
      Mutex.OwnerThere(w.muxes, w.muxBooks, w.c, s.k);
      assert WokenBy(s, w) == Only(woken);
      QuietTime(s, w, n.c);
    }

    lemma MuxesOf(w: World)
      requires Sound(w)
      ensures Mutex.MuxesOk(w.muxes, w.muxBooks, w.c)
    {
      hide Mutex.MuxesOk;
    }

    lemma NoMuxPost(s: Step)
      requires Valid() && s.MuxPost? && !s.isr && !tasks.Running()
      ensures Follows(s, Now(), Now()) && MuxAnswer(s, Now()) == Silence
    {
      hide Time, Follows, Sound, WF, TaskSystem.Valid, Membox.Pool.Valid;
      var w := Now();
      PostedNot(s, w);
      MuxFollows(s, w, w);
    }

    // -------------------------------------------------------------- events

    lemma EventDone(s: Step, w: World, w': World, e: nat)
      requires (KindOf(s) == EventKind || Inside(s, w, EvL(e))) && Sound(w) && WF(w'.c)
               && Event.EventsOk(w'.events, w'.c)
      requires |w'.events| == |w.events| && e < |w.events| && Kept(w.c, w'.c, {EvL(e)}) && SamePriorities(w.c, w'.c)
      requires w' == w.(c := w'.c, events := EventsAfter(s, w)) && Time(s, w, w'.c)
      ensures Sound(w') && Follows(s, w, w')
    {
      hide *;
      AfterEvent(w, w', e);
      OtherBooks(s, w);
      Others(s, w, EvL(e));
      SameRunner(s, w);
      MakeFollows(s, w, w');
    }

    lemma EventsNow()
      requires events.Valid() && events.tasks == tasks
      ensures tasks.Valid() && WF(tasks.State()) && Event.EventsOk(events.cbs, tasks.State())
    {
      hide WF, Event.EventsOk;
    }

    method EventStep(s: Step) returns (r: Reply)
      requires Valid() && KindOf(s) == EventKind
      modifies events, tasks`tcb, tasks`lists, tasks`flight, tasks`out, tasks`stamp, tasks`clock, tasks.wheel
      ensures Valid() && Follows(s, old(Now()), Now()) && r == EventAnswer(s, old(Now()))
    {
      hide Valid, Follows, Now;
      if s.EventRead? {
        if s.uwTimeout <= WAIT_FOREVER && (s.isr || tasks.Running()) {
          r := EventReadStep(s);
        } else {
          r := Silence;
          NoEventRead(s);
        }
      } else if s.EventWrite? {
        r := EventWriteStep(s);
      } else {
        r := EventClearStep(s);
      }
    }

    /** A read that cannot be made here. */
    lemma NoEventRead(s: Step)
      requires Valid() && s.EventRead? && !(s.uwTimeout <= WAIT_FOREVER && (s.isr || tasks.Running()))
      ensures Follows(s, Now(), Now()) && EventAnswer(s, Now()) == Silence
    {
      hide Time, Follows, Sound, WF, TaskSystem.Valid, Membox.Pool.Valid;
      NoEvent(s, Now());
    }

    /** A step on an event that is not there, or a read that cannot be made here. */
    lemma NoEvent(s: Step, w: World)
      requires KindOf(s) == EventKind && (s.e >= |w.events| || (s.EventRead? && !MayCall(w, s.uwTimeout, s.isr)))
      ensures Follows(s, w, w)
    {
      hide Time, Follows, SamePriorities;
      SameTcbs(w.c, w.c);
      if s.EventRead? { WaitTime(s, w, w.c); } else { StillTime(s, w); }
      OtherBooks(s, w);
      PlainMail(s, w);
      SameRunner(s, w);
      MakeFollows(s, w, w);
    }

    method EventReadStep(s: Step) returns (r: Reply)
      requires Valid() && s.EventRead? && s.uwTimeout <= WAIT_FOREVER && (s.isr || tasks.Running())
      modifies events, tasks`tcb, tasks`lists, tasks`out, tasks`stamp, tasks`clock, tasks.wheel
      ensures Valid() && Follows(s, old(Now()), Now()) && r == EventAnswer(s, old(Now()))
    {
      hide Valid, Sound, Follows, Now, Box, WF, Kept, Calm, SamePriorities, TaskSystem.Valid, TaskSystem.State,
        Membox.Pool.Valid, Event.EventsOk, Event.Events.Valid, EventsAfter, Event.GoodArgs, Event.Polled,
        Event.AfterPoll, Event.SetBits, Event.KeepBits, Event.IsError, Event.Unambiguous, Event.ArgError, Time, WokenBy,
        Began, Timeout, EventAnswer, Event.Took, Event.Found;
      ghost var w := Now();
      Facts();
      EventFacts();
      NowIs();
      var uwRet := events.EventRead(s.e, s.mask, s.mode, s.uwTimeout, s.isr);
      r := if uwRet.Some? then Bits(uwRet.value) else Silence;
      NowIs();
      EventsNow();
      EventHeard(s, w, uwRet, Now());
      Close();
    }

    lemma EventHeard(s: Step, w: World, r: Option<bv32>, n: World)
      requires n == w.(c := n.c, events := n.events) && Sound(w) && WF(n.c) && Event.EventsOk(n.events, n.c)
      requires s.EventRead? && s.uwTimeout <= WAIT_FOREVER && (s.isr || Free(w))
      requires s.e >= |w.events| || !Event.GoodArgs(s.mask, s.mode) || s.isr ==>
                 && r == Some(if s.e >= |w.events| then ERRNO_EVENT_PTR_NULL else Event.ArgError(s.mask, s.mode, s.isr))
                 && n.events == w.events
      requires s.e < |w.events| && Event.GoodArgs(s.mask, s.mode) && !s.isr ==>
                 var p := Event.Polled(w.events[s.e], s.mask, s.mode);
                 && n.events == w.events[s.e := Event.AfterPoll(w.events[s.e], s.mask, s.mode)]
                 && r == (if p != 0 || s.uwTimeout == 0 then Some(p)
                    else if w.lock != 0 then Some(ERRNO_EVENT_READ_IN_LOCK) else None)
      requires if r.None? then
                 && Began(w.c, n.c, w.run, Waiting(EvL(s.e), EventArgs(s.mask, s.mode)), Timeout(s.uwTimeout), [])
                 && Kept(w.c, n.c, {EvL(s.e)}) && SamePriorities(w.c, n.c)
               else n.c == w.c
      ensures Sound(n) && Follows(s, w, n) && (if r.Some? then Bits(r.value) else Silence) == EventAnswer(s, w)
    {
      hide Time, Began, Event.GoodArgs, Event.AfterPoll, Event.Polled, Sound, Follows, WF, Kept, SamePriorities,
        Event.EventsOk;
      if s.e >= |w.events| {
        NoEvent(s, w);
      } else {
        WaitTime(s, w, n.c);
        StillKept(w, EvL(s.e));
        EventDone(s, w, n, s.e);
      }
    }

    method EventWriteStep(s: Step) returns (r: Reply)
      requires Valid() && s.EventWrite?
      modifies events, tasks`tcb, tasks`lists, tasks`flight, tasks`out, tasks.wheel
      ensures Valid() && Follows(s, old(Now()), Now()) && r == EventAnswer(s, old(Now()))
    {
      hide Valid, Sound, Follows, Now, Box, WF, Kept, Calm, SamePriorities, TaskSystem.Valid, TaskSystem.State,
        Membox.Pool.Valid, Event.EventsOk, Event.Events.Valid, EventsAfter, Event.GoodArgs, Event.Polled,
        Event.AfterPoll, Event.SetBits, Event.KeepBits, Event.IsError, Event.Unambiguous, Event.ArgError, Time, WokenBy,
        Event.Wrote, Event.MetBy, Calm, EventAnswer;
      ghost var w := Now();
      Facts();
      EventFacts();
      NowIs();
      var uwRet, woken := events.EventWrite(s.e, s.uwEvents);
      r := Bits(uwRet);
      NowIs();
      EventsNow();
      EventTold(s, w, uwRet, woken, Now());
      Close();
    }

    lemma EventTold(s: Step, w: World, r: bv32, woken: seq<Task>, n: World)
      requires n == w.(c := n.c, events := n.events) && Sound(w) && WF(n.c) && Event.EventsOk(n.events, n.c)
      requires s.EventWrite? && Calm(w.c, n.c, woken, []) && Kept(w.c, n.c, {EvL(s.e)}) && SamePriorities(w.c, n.c)
      requires r == if s.e >= |w.events| then ERRNO_EVENT_PTR_NULL
               else if Event.IsError(s.uwEvents) then ERRNO_EVENT_SETBIT_INVALID else 0
      requires r != 0 ==> n.events == w.events && n.c == w.c && woken == []
      requires r == 0 ==> s.e < |w.events| && n.events == w.events[s.e := Event.SetBits(w.events[s.e], s.uwEvents)]
      requires r == 0 ==> woken == Event.MetBy(w.c, At(w.c.lists, EvL(s.e)), n.events[s.e])
      ensures Sound(n) && Follows(s, w, n) && Bits(r) == EventAnswer(s, w)
    {
      hide Time, Calm, Event.IsError, Event.SetBits, Event.MetBy, At, Sound, Follows, WF, Kept,
        SamePriorities, Event.EventsOk;
      if s.e >= |w.events| {
        NoEvent(s, w);
      } else {
        assert WokenBy(s, w) == woken;
        QuietTime(s, w, n.c);
        EventDone(s, w, n, s.e);
      }
    }

    method EventClearStep(s: Step) returns (r: Reply)
      requires Valid() && s.EventClear?
      modifies events
      ensures Valid() && Follows(s, old(Now()), Now()) && r == EventAnswer(s, old(Now()))
    {
      hide Valid, Sound, Follows, Now, Box, WF, Kept, Calm, SamePriorities, TaskSystem.Valid, TaskSystem.State,
        Membox.Pool.Valid, Event.EventsOk, Event.Events.Valid, EventsAfter, Event.GoodArgs, Event.Polled,
        Event.AfterPoll, Event.SetBits, Event.KeepBits, Event.IsError, Event.Unambiguous, Event.ArgError, Time, WokenBy;
      ghost var w := Now();
      Facts();
      EventFacts();
      NowIs();
      Wider(w.c, {EvL(s.e)});
      var uwRet := events.EventClear(s.e, s.uwEvents);
      r := Bits(uwRet);
      NowIs();
      EventsNow();
      EventCleared(s, w, Now());
      Close();
    }

    lemma EventCleared(s: Step, w: World, n: World)
      requires s.EventClear? && n == w.(events := n.events) && Sound(w) && WF(n.c) && Event.EventsOk(n.events, n.c)
      requires n.events == if s.e < |w.events| then w.events[s.e := Event.KeepBits(w.events[s.e], s.uwEvents)]
               else w.events
      ensures Sound(n) && Follows(s, w, n)
    {
      hide Time, Event.KeepBits, Sound, Follows, WF, Kept, SamePriorities, Event.EventsOk;
      if s.e >= |w.events| {
        NoEvent(s, w);
      } else {
        StillTime(s, w);
        StillKept(w, EvL(s.e));
        EventDone(s, w, n, s.e);
      }
    }

    // -------------------------------------------------------------- queues

    lemma QueueDone(s: Step, w: World, w': World, k: nat, id: ListId)
      requires KindOf(s) == QueueKind || (Inside(s, w, id) && (id == RdL(k) || id == WrL(k)))
      requires Sound(w) && WF(w'.c) && Queue.QueuesOk(w'.queues, w'.queueBooks, w'.c)
      requires |w'.queues| == |w.queues| && k < |w.queues| && Kept(w.c, w'.c, {RdL(k), WrL(k)})
               && SamePriorities(w.c, w'.c)
      requires w' == w.(c := w'.c, queues := w'.queues, queueBooks := QueueBooksAfter(s, w)) && Time(s, w, w'.c)
      ensures Sound(w') && Follows(s, w, w')
    {
      hide *;
      AfterQueue(w, w', k);
      OtherBooks(s, w);
      Others(s, w, id);
      SameRunner(s, w);
      MakeFollows(s, w, w');
    }

    lemma QueuesNow()
      requires queues.Valid() && queues.tasks == tasks
      ensures tasks.Valid() && WF(tasks.State()) && Queue.QueuesOk(queues.cbs, queues.hist, tasks.State())
    {
      hide WF, Queue.QueuesOk;
    }

    method QueueStep(s: Step) returns (r: Reply)
      requires Valid() && KindOf(s) == QueueKind
      modifies queues, tasks`tcb, tasks`lists, tasks`flight, tasks`out, tasks`stamp, tasks`clock, tasks.wheel
      ensures Valid() && Follows(s, old(Now()), Now()) && r == QueueAnswer(s, old(Now()))
    {
      hide Valid, Follows, Now;
      r := Silence;
      if s.QueueCreate? {
        r := QueueCreateStep(s);
      } else if s.QueueDelete? {
        r := QueueDeleteStep(s);
      } else if s.uwTimeout <= WAIT_FOREVER && (s.isr || tasks.Running()) {
        if s.QueueRead? { r := QueueReadStep(s); } else { r := QueueWriteStep(s); }
      } else {
        NoQueueCall(s);
      }
    }

    /** A call that cannot be made here. */
    lemma NoQueueCall(s: Step)
      requires Valid() && (s.QueueRead? || s.QueueWrite?)
               && !(s.uwTimeout <= WAIT_FOREVER && (s.isr || tasks.Running()))
      ensures Follows(s, Now(), Now()) && QueueAnswer(s, Now()) == Silence
    {
      hide Time, Follows, Sound, WF, TaskSystem.Valid, Membox.Pool.Valid;
      NoQueue(s, Now());
    }

    /** A call that is refused. */
    lemma NoQueue(s: Step, w: World)
      requires KindOf(s) == QueueKind && !AsksRead(s, w) && !AsksWrite(s, w) && QueueBooksAfter(s, w) == w.queueBooks
      ensures Follows(s, w, w)
    {
      hide Time, Follows, SamePriorities, WokenBy, QueueBooksAfter;
      SameTcbs(w.c, w.c);
      NoQueueTime(s, w);
      OtherBooks(s, w);
      PlainMail(s, w);
      SameRunner(s, w);
      MakeFollows(s, w, w);
    }

    lemma NoQueueTime(s: Step, w: World)
      requires KindOf(s) == QueueKind && !AsksRead(s, w) && !AsksWrite(s, w)
      ensures Time(s, w, w.c)
    {
      hide Calm;
      CalmRefl(w.c);
    }

    method QueueCreateStep(s: Step) returns (r: Reply)
      requires Valid() && s.QueueCreate?
      modifies queues
      ensures Valid() && Follows(s, old(Now()), Now()) && r == QueueAnswer(s, old(Now()))
    {
      hide Valid, Sound, Follows, Now, Box, WF, Kept, Calm, SamePriorities, TaskSystem.Valid, TaskSystem.State,
        Membox.Pool.Valid, Queue.QueuesOk, Queue.Queues.Valid, QueueBooksAfter, Queue.QueuedFor, Queue.FirstServed,
        Queue.OldestRead, Queue.HeadSlot, Queue.WroteOne, Time, WokenBy, Queue.CreateCode, Queue.FirstUnused;
      ghost var w := Now();
      Facts();
      QueueFacts();
      NowIs();
      var uwRet := queues.QueueCreate(s.hasHandle, s.usLen, s.usMaxMsgSize, s.hasMemory);
      r := Code(uwRet);
      NowIs();
      QueuesNow();
      QueueMade(s, w, uwRet, Now());
      Close();
    }

    lemma QueueMade(s: Step, w: World, r: nat, n: World)
      requires s.QueueCreate? && |w.queueBooks| == |w.queues| && Sound(w)
      requires r == Queue.CreateCode(w.queues, s.hasHandle, s.usLen, s.usMaxMsgSize, s.hasMemory)
      requires n == w.(queues := n.queues, queueBooks := n.queueBooks) && Queue.QueuesOk(n.queues, n.queueBooks, n.c)
      requires r != OS_OK && r != ERRNO_QUEUE_CREATE_NO_MEMORY ==> n.queues == w.queues
      requires r != OS_OK ==> n.queueBooks == w.queueBooks
      requires var k := Queue.FirstUnused(w.queues);
               && (r == OS_OK || r == ERRNO_QUEUE_CREATE_NO_MEMORY ==> k < |w.queues| == |n.queues|)
               && (r == OS_OK ==> n.queueBooks == w.queueBooks[k := Queue.History([], 0, [])])
      ensures Sound(n) && Follows(s, w, n)
    {
      hide Time, Sound, Follows, WF, Kept, SamePriorities, Queue.QueuesOk, Queue.CreateCode, Queue.FirstUnused;
      if r != OS_OK && r != ERRNO_QUEUE_CREATE_NO_MEMORY {
        NoQueue(s, w);
      } else {
        var k := Queue.FirstUnused(w.queues);
        StillTime(s, w);
        OrderedWorld(w);
        WideKept(w, {RdL(k), WrL(k)});
        QueueDone(s, w, n, k, RdL(k));
      }
    }

    method QueueDeleteStep(s: Step) returns (r: Reply)
      requires Valid() && s.QueueDelete?
      modifies queues
      ensures Valid() && Follows(s, old(Now()), Now()) && r == QueueAnswer(s, old(Now()))
    {
      hide Valid, Sound, Follows, Now, Box, WF, Kept, Calm, SamePriorities, TaskSystem.Valid, TaskSystem.State,
        Membox.Pool.Valid, Queue.QueuesOk, Queue.Queues.Valid, QueueBooksAfter, Queue.QueuedFor, Queue.FirstServed,
        Queue.OldestRead, Queue.HeadSlot, Queue.WroteOne, Time, WokenBy, At, Flying;
      ghost var w := Now();
      Facts();
      QueueFacts();
      NowIs();
      var uwRet := queues.QueueDelete(s.k, s.uwFreed);
      r := Code(uwRet);
      NowIs();
      QueuesNow();
      QueueGone(s, w, uwRet == OS_OK, Now());
      Close();
    }

    lemma QueueGone(s: Step, w: World, gone: bool, n: World)
      requires s.QueueDelete? && n == w.(queues := n.queues) && Sound(w) && Queue.QueuesOk(n.queues, n.queueBooks, n.c)
      requires gone ==> s.k < |w.queues| == |n.queues|
      requires !gone ==> n.queues == w.queues
      ensures Sound(n) && Follows(s, w, n)
    {
      hide Time, Sound, Follows, WF, Kept, SamePriorities, Queue.QueuesOk;
      if !gone {
        NoQueue(s, w);
      } else {
        StillTime(s, w);
        OrderedWorld(w);
        WideKept(w, {RdL(s.k), WrL(s.k)});
        QueueDone(s, w, n, s.k, RdL(s.k));
      }
    }

    lemma WideKept(w: World, mine: set<ListId>)
      requires WF(w.c)
      ensures Kept(w.c, w.c, mine) && SamePriorities(w.c, w.c)
    {
      hide WF;
      KeptRefl(w.c, mine);
    }

    method QueueReadStep(s: Step) returns (r: Reply)
      requires Valid() && s.QueueRead? && s.uwTimeout <= WAIT_FOREVER && (s.isr || tasks.Running())
      modifies queues, tasks`tcb, tasks`lists, tasks`flight, tasks`out, tasks`stamp, tasks`clock, tasks.wheel
      ensures Valid() && Follows(s, old(Now()), Now()) && r == QueueAnswer(s, old(Now()))
    {
      hide Valid, Sound, Follows, Now, Box, WF, Kept, Calm, SamePriorities, TaskSystem.Valid, TaskSystem.State,
        Membox.Pool.Valid, Queue.QueuesOk, Queue.Queues.Valid, QueueBooksAfter, Queue.QueuedFor, Queue.FirstServed,
        Queue.OldestRead, Queue.HeadSlot, Queue.WroteOne, Time, WokenBy, Firsts, Timeout, QueueAnswer, At;
      ghost var w := Now();
      Facts();
      QueueFacts();
      NowIs();
      var uwRet, buffer := queues.QueueRead(s.k, s.hasBuffer, s.size, s.uwTimeout, s.isr);
      r := if uwRet == Some(OS_OK) then Got(buffer) else CodeOf(uwRet);
      NowIs();
      QueuesNow();
      QueueHeard(s, w, uwRet, buffer, Now());
      Close();
    }

    /** The queues are in order after a step that has changed only them and the shared state. */
    ghost predicate QueuesChanged(w: World, n: World, k: nat)
    {
      && n == w.(c := n.c, queues := n.queues, queueBooks := n.queueBooks) && |n.queues| == |w.queues|
      && WF(n.c) && Queue.QueuesOk(n.queues, n.queueBooks, n.c) && Kept(w.c, n.c, {RdL(k), WrL(k)})
         && SamePriorities(w.c, n.c)
    }

    lemma QueueHeard(s: Step, w: World, r: Option<nat>, buffer: int, n: World)
      requires s.QueueRead? && Sound(w) && QueuesChanged(w, n, s.k) && |w.queueBooks| == |w.queues|
      requires s.uwTimeout <= WAIT_FOREVER && (s.isr || Free(w))
      requires r == if s.k >= |w.queues| then Some(ERRNO_QUEUE_READ_INVALID)
                    else if !s.hasBuffer then Some(ERRNO_QUEUE_READ_PTR_NULL)
                    else if s.size == 0 then Some(ERRNO_QUEUE_READSIZE_ISZERO)
                    else if s.uwTimeout != 0 && s.isr then Some(ERRNO_QUEUE_READ_IN_INTERRUPT)
                    else if !w.queues[s.k].used then Some(ERRNO_QUEUE_READ_NOT_CREATE)
                    else if w.queues[s.k].usReadableCnt > 0 then Some(OS_OK)
                    else if s.uwTimeout == 0 then Some(ERRNO_QUEUE_ISEMPTY)
                    else if w.lock != 0 then Some(ERRNO_QUEUE_PEND_IN_LOCK) else None
      requires r == Some(OS_OK) ==>
                 && Queue.OldestRead(w.queueBooks, n.queueBooks, s.k, buffer) && buffer == Queue.HeadSlot(w.queues[s.k])
                 && Calm(w.c, n.c, Firsts(At(w.c.lists, WrL(s.k))), [])
      requires r != Some(OS_OK) ==> n.queueBooks == w.queueBooks && n.queues == w.queues
      requires r.Some? && r != Some(OS_OK) ==> n.c == w.c
      requires r.None? ==> Queue.QueuedFor(w.c, n.c, w.run, RdL(s.k), Plain, Timeout(s.uwTimeout))
      ensures Sound(n) && Follows(s, w, n) && (if r == Some(OS_OK) then Got(buffer) else CodeOf(r)) == QueueAnswer(s, w)
    {
      hide Calm, Began, Firsts, At, Queue.HeadSlot, Sound, Follows, WF, Kept, SamePriorities, Queue.QueuesOk;
      if s.k >= |w.queues| {
        NoQueue(s, w);
      } else {
        CalmRefl(w.c);
        QueueDone(s, w, n, s.k, RdL(s.k));
      }
    }

    method QueueWriteStep(s: Step) returns (r: Reply)
      requires Valid() && s.QueueWrite? && s.uwTimeout <= WAIT_FOREVER && (s.isr || tasks.Running())
      modifies queues, tasks`tcb, tasks`lists, tasks`flight, tasks`out, tasks`stamp, tasks`clock, tasks.wheel
      ensures Valid() && Follows(s, old(Now()), Now()) && r == QueueAnswer(s, old(Now()))
    {
      hide Valid, Sound, Follows, Now, Box, WF, Kept, Calm, SamePriorities, TaskSystem.Valid, TaskSystem.State,
        Membox.Pool.Valid, Queue.QueuesOk, Queue.Queues.Valid, QueueBooksAfter, Queue.QueuedFor, Queue.FirstServed,
        Queue.OldestRead, Queue.HeadSlot, Queue.WroteOne, Time, WokenBy, Firsts, Timeout, QueueAnswer;
      ghost var w := Now();
      Facts();
      QueueFacts();
      NowIs();
      var uwRet := queues.QueueWrite(s.k, s.data, s.size, s.uwTimeout, s.isr);
      r := CodeOf(uwRet);
      NowIs();
      QueuesNow();
      QueueTold(s, w, uwRet, Now());
      Close();
    }

    lemma QueueTold(s: Step, w: World, r: Option<nat>, n: World)
      requires s.QueueWrite? && Sound(w) && QueuesChanged(w, n, s.k) && |w.queueBooks| == |w.queues|
      requires s.uwTimeout <= WAIT_FOREVER && (s.isr || Free(w))
      requires r == if s.k >= |w.queues| then Some(ERRNO_QUEUE_WRITE_INVALID)
                    else if s.data == 0 then Some(ERRNO_QUEUE_WRITE_PTR_NULL)
                    else if s.size == 0 then Some(ERRNO_QUEUE_WRITESIZE_ISZERO)
                    else if s.uwTimeout != 0 && s.isr then Some(ERRNO_QUEUE_WRITE_IN_INTERRUPT)
                    else if !w.queues[s.k].used then Some(ERRNO_QUEUE_WRITE_NOT_CREATE)
                    else if s.size > w.queues[s.k].usQueueSize then Some(ERRNO_QUEUE_WRITE_SIZE_TOO_BIG)
                    else if w.queues[s.k].usWritableCnt > 0 then Some(OS_OK)
                    else if s.uwTimeout == 0 then Some(ERRNO_QUEUE_ISFULL)
                    else if w.lock != 0 then Some(ERRNO_QUEUE_PEND_IN_LOCK) else None
      requires r == Some(OS_OK) ==>
                 && n.queueBooks == w.queueBooks[s.k := Queue.WroteOne(w.queueBooks[s.k], s.data)]
                 && Calm(w.c, n.c, Firsts(At(w.c.lists, RdL(s.k))), [])
      requires r != Some(OS_OK) ==> n.queueBooks == w.queueBooks && n.queues == w.queues
      requires r.Some? && r != Some(OS_OK) ==> n.c == w.c
      requires r.None? ==> Queue.QueuedFor(w.c, n.c, w.run, WrL(s.k), Message(s.data), Timeout(s.uwTimeout))
      ensures Sound(n) && Follows(s, w, n) && CodeOf(r) == QueueAnswer(s, w)
    {
      hide Calm, Began, Firsts, At, Queue.WroteOne, Sound, Follows, WF, Kept, SamePriorities, Queue.QueuesOk;
      if s.k >= |w.queues| {
        NoQueue(s, w);
      } else {
        CalmRefl(w.c);
        QueueDone(s, w, n, s.k, RdL(s.k));
      }
    }

    // -------------------------------------------------------------- mail

    lemma MailDone(s: Step, w: World, w': World)
      requires (KindOf(s) == MailKind || Inside(s, w, MemL(w.mail.q))) && Sound(w) && WF(w'.c)
               && MailPart(w'.mail, w'.c)
      requires w'.mail.q == w.mail.q && Kept(w.c, w'.c, {MemL(w.mail.q)}) && SamePriorities(w.c, w'.c)
      requires w' == w.(c := w'.c, mail := w'.mail) && Time(s, w, w'.c) && MailFollows(s, w, w'.mail)
      ensures Sound(w') && Follows(s, w, w')
    {
      hide *;
      AfterMail(w, w');
      OtherBooks(s, w);
      Others(s, w, MemL(w.mail.q));
      SameRunner(s, w);
      MakeFollows(s, w, w');
    }

    lemma MailNow()
      requires mails.Valid() && mails.tasks == tasks
      ensures tasks.Valid() && WF(tasks.State()) && mails.pool.Valid() && MailPart(Box(), tasks.State())
    {
      hide WF, Mail.MailOk, Membox.Pool.Valid;
    }

    method MailStep(s: Step) returns (r: Reply)
      requires Valid() && KindOf(s) == MailKind
      modifies mails, mails.pool`mem, mails.pool`free, tasks`tcb, tasks`lists, tasks`flight, tasks`out, tasks`stamp,
               tasks`clock, tasks.wheel
      ensures Valid() && Follows(s, old(Now()), Now()) && r == MailAnswer(s, old(Now()))
    {
      hide Valid, Follows, Now, Membox.Pool.Valid, Sound;
      Facts();
      r := Silence;
      if s.MailAlloc? {
        if s.uwTimeout <= WAIT_FOREVER && (s.isr || tasks.Running())
           && (tasks.usLosTaskLock == 0 || s.uwTimeout == 0 || s.isr || !mails.pool.Empty()) {
          r := MailAllocStep(s);
        } else {
          NoMailAlloc(s);
        }
      } else if s.pMailMem < Membox.WORD32 && s.pMailMem !in mails.puwMsg.Values {
        r := MailFreeStep(s);
      } else {
        NoMailFree(s);
      }
    }

    /** A call that cannot be made here, or would be stranded. */
    lemma NoMailAlloc(s: Step)
      requires Valid() && s.MailAlloc?
      requires !(s.uwTimeout <= WAIT_FOREVER && (s.isr || tasks.Running())
               && Mail.MayWait(tasks.usLosTaskLock, mails.pool.free, s.uwTimeout, s.isr))
      ensures Follows(s, Now(), Now()) && MailAnswer(s, Now()) == Silence
    {
      hide Time, Follows, Sound, WF, TaskSystem.Valid, Membox.Pool.Valid, SamePriorities;
      var w := Now();
      SameTcbs(w.c, w.c);
      WaitTime(s, w, w.c);
      OtherBooks(s, w);
      MakeFollows(s, w, w);
    }

    method MailAllocStep(s: Step) returns (r: Reply)
      requires Valid() && s.MailAlloc? && s.uwTimeout <= WAIT_FOREVER && (s.isr || tasks.Running())
      requires Mail.MayWait(tasks.usLosTaskLock, mails.pool.free, s.uwTimeout, s.isr)
      modifies mails, mails.pool`mem, mails.pool`free, tasks`tcb, tasks`lists, tasks`flight, tasks`out, tasks`stamp,
               tasks`clock, tasks.wheel
      ensures Valid() && Follows(s, old(Now()), Now()) && r == MailAnswer(s, old(Now()))
    {
      hide Valid, Sound, Follows, Now, Box, WF, Kept, Calm, SamePriorities, TaskSystem.Valid, TaskSystem.State,
        Membox.Pool.Valid, Mail.MailOk, Mail.Mails.Valid, Mail.IsPromised, Mail.UserAddr, MailFollows, MailPart,
        Mail.MailCall, Membox.Pool.Live, MailLive, MailBack, Mail.Mails.PlacedBy, Time, WokenBy, Began, Timeout,
        MailAnswer;
      ghost var w := Now();
      Facts();
      MailFacts();
      NowIs();
      var pMem := mails.MailAlloc(true, true, s.uwTimeout, s.isr);
      r := if pMem.Some? then Block(pMem.value) else Silence;
      NowIs();
      MailNow();
      MailAsked(s, w, pMem, mails.pool.free, Now());
      Close();
    }

    lemma MailAsked(s: Step, w: World, pMem: Option<nat>, free: seq<nat>, n: World)
      requires s.MailAlloc? && s.uwTimeout <= WAIT_FOREVER && (s.isr || Free(w))
               && Mail.MayWait(w.lock, w.mail.free, s.uwTimeout, s.isr)
      requires pMem == if s.uwTimeout != 0 && s.isr then Some(0)
                       else if w.mail.free != [] then Some(Mail.UserAddr(w.mail.pool, w.mail.size, w.mail.free[0]))
                       else if s.uwTimeout == 0 then Some(0) else None
      requires if pMem.None? then
                 && Began(w.c, n.c, w.run, Waiting(MemL(w.mail.q), Plain), Timeout(s.uwTimeout), [])
                    && Kept(w.c, n.c, {MemL(w.mail.q)})
                 && SamePriorities(w.c, n.c)
               else n.c == w.c
      requires n == w.(c := n.c, mail := w.mail.(free := free)) && Sound(w) && WF(n.c) && MailPart(n.mail, n.c)
      requires free == if !(s.uwTimeout != 0 && s.isr) && w.mail.free != [] then w.mail.free[1..] else w.mail.free
      ensures Sound(n) && Follows(s, w, n) && (if pMem.Some? then Block(pMem.value) else Silence) == MailAnswer(s, w)
    {
      hide Time, Began, Kept, SamePriorities, Sound, WF, MailPart, Follows, Mail.UserAddr;
      if pMem.Some? {
        StillKept(w, MemL(w.mail.q));
      }
      WaitTime(s, w, n.c);
      MailDone(s, w, n);
    }

    method MailFreeStep(s: Step) returns (r: Reply)
      requires Valid() && s.MailFree? && s.pMailMem < Membox.WORD32 && s.pMailMem !in mails.puwMsg.Values
      modifies mails, mails.pool`mem, mails.pool`free, tasks`tcb, tasks`lists, tasks`flight, tasks`out, tasks.wheel
      ensures Valid() && Follows(s, old(Now()), Now()) && r == MailAnswer(s, old(Now()))
    {
      hide Valid, Sound, Follows, Now, Box, WF, Kept, Calm, SamePriorities, TaskSystem.Valid, TaskSystem.State,
        Membox.Pool.Valid, Mail.MailOk, Mail.Mails.Valid, Mail.IsPromised, Mail.UserAddr, MailFollows, MailPart,
        Mail.MailCall, Membox.Pool.Live, MailLive, MailBack, WakeStep, Time, WokenBy, At, MailAnswer;
      ghost var w := Now();
      Facts();
      MailFacts();
      NowIs();
      mails.PromisedMsg(s.pMailMem);
      LiveHere(s.pMailMem);
      var uwRet := mails.MailFree(true, true, s.pMailMem);
      r := Code(uwRet);
      NowIs();
      MailNow();
      MailReturned(s, w, uwRet, Now());
      Close();
    }

    lemma LiveHere(p: nat)
      ensures mails.pool.Live(p) <==> MailLive(Now().mail, p)
      ensures Mail.IsPromised(mails.puwMsg, tasks.flight, mails.q, p) <==>
                Mail.IsPromised(Now().mail.msg, Now().c.flight, Now().mail.q, p)
    {
      hide Membox.Addr;
    }

    lemma MailReturned(s: Step, w: World, r: nat, n: World)
      requires s.MailFree? && s.pMailMem < Membox.WORD32
               && !Mail.IsPromised(w.mail.msg, w.c.flight, w.mail.q, s.pMailMem)
      requires n == w.(c := n.c, mail := n.mail) && Sound(w) && WF(n.c) && MailPart(n.mail, n.c)
      requires r == if MailLive(w.mail, s.pMailMem) then OS_OK else ERRNO_QUEUE_MAIL_FREE_ERROR
      requires r != OS_OK ==> n.mail == w.mail && n.c == w.c
      requires r == OS_OK && At(w.c.lists, MemL(w.mail.q)) == [] ==>
                 && n.c == w.c && n.mail == w.mail.(free := n.mail.free) && |n.mail.free| == |w.mail.free| + 1
                    && n.mail.free[1..] == w.mail.free
                 && s.pMailMem == Mail.UserAddr(w.mail.pool, w.mail.size, n.mail.free[0])
      requires r == OS_OK && At(w.c.lists, MemL(w.mail.q)) != [] ==>
                 var l := At(w.c.lists, MemL(w.mail.q));
                 WakeStep(w.c, n.c, l[0], MemL(w.mail.q)) && n.mail == w.mail.(msg := w.mail.msg[l[0] := s.pMailMem])
      ensures Sound(n) && Follows(s, w, n) && Code(r) == MailAnswer(s, w)
    {
      hide Time, At, WakeStep, Mail.UserAddr, MailLive, Mail.IsPromised, Kept, SamePriorities, WF, Sound, MailPart,
        Follows;
      var l := At(w.c.lists, MemL(w.mail.q));
      if r == OS_OK && l != [] {
        WakeCalm(w.c, n.c, l[0], MemL(w.mail.q));
        WakeKept(w.c, n.c, l[0], MemL(w.mail.q));
      } else {
        CalmRefl(w.c);
        StillKept(w, MemL(w.mail.q));
      }
      QuietTime(s, w, n.c);
      MailDone(s, w, n);
    }

    lemma WakeKept(c: Core, c': Core, t: Task, id: ListId)
      requires WakeStep(c, c', t, id)
      ensures Kept(c, c', {id}) && SamePriorities(c, c')
    {
      hide Kept, SamePriorities;
    }

    lemma NoMailFree(s: Step)
      requires Valid() && s.MailFree? && !(s.pMailMem < Membox.WORD32 && s.pMailMem !in mails.puwMsg.Values)
      ensures Follows(s, Now(), Now()) && MailAnswer(s, Now()) == Silence
    {
      hide Time, Follows, Sound, WF, TaskSystem.Valid, Membox.Pool.Valid, SamePriorities, Mail.IsPromised,
        Mail.Mails.Valid;
      var w := Now();
      MailFacts();
      mails.PromisedMsg(s.pMailMem);
      SameTcbs(w.c, w.c);
      StillTime(s, w);
      OtherBooks(s, w);
      MakeFollows(s, w, w);
    }

    // -------------------------------------------------------------- the second half of a blocking call

    /** The rest of the blocking call that the running task is inside of. */
    method Resume(s: Step) returns (r: Reply)
      requires Valid() && s.ResumeCall?
      modifies sems, events, queues, mails, tasks`tcb, tasks`lists, tasks`flight, tasks`out, tasks.wheel
      ensures Valid() && Follows(s, old(Now()), Now()) && r == EndAnswer(s, old(Now()))
    {
      hide Valid, Follows, Now, Sound, Membox.Pool.Valid;
      Facts();
      if tasks.pstRunTask in tasks.tcb && tasks.tcb[tasks.pstRunTask].ready
        && tasks.tcb[tasks.pstRunTask].wait.Waiting? {
        var id := tasks.tcb[tasks.pstRunTask].wait.id;
        InRangeHere(id);
        if id.SemL? {
          r := ResumeSem(s, id);
        } else if id.MuxL? {
          r := ResumeMux(s, id.m);
        } else if id.EvL? {
          r := ResumeEvent(s, id.e);
        } else if id.RdL? {
          r := ResumeRead(s, id.q);
        } else if id.WrL? {
          r := ResumeWrite(s, id.q);
        } else {
          r := ResumeMail(s);
        }
      } else {
        r := Silence;
        NoResume(s);
      }
    }

    /** The running task is back in its call on `id`. */
    predicate BackIn(id: ListId)
      reads tasks
    {
      && tasks.pstRunTask in tasks.tcb && tasks.tcb[tasks.pstRunTask].ready && tasks.tcb[tasks.pstRunTask].wait.Waiting?
      && tasks.tcb[tasks.pstRunTask].wait.id == id
    }

    lemma InRangeHere(id: ListId)
      requires Valid() && BackIn(id)
      ensures (id.EvL? ==> id.e < |events.cbs|) && (id.RdL? || id.WrL? ==> id.q < |queues.cbs|)
              && (id.MemL? ==> id.q == mails.q) && !id.Ready?
    {
      var c := tasks.State();
      assert InRange(id, |events.cbs|, |queues.cbs|, mails.q);
      assert TcbOk(c.tcb[tasks.pstRunTask]) by { tasks.TcbFacts(tasks.pstRunTask); }
      hide WF, CallsInRange, Semaphore.SemsOk, Mutex.MuxesOk, Mutex.Stacks, Mutex.Discipline, Event.EventsOk,
        Queue.QueuesOk, Mail.MailOk, Membox.Pool.Valid;
    }

    lemma NoResume(s: Step)
      requires Valid() && s.ResumeCall?
      requires !(tasks.pstRunTask in tasks.tcb && tasks.tcb[tasks.pstRunTask].ready
               && tasks.tcb[tasks.pstRunTask].wait.Waiting?)
      ensures Follows(s, Now(), Now()) && EndAnswer(s, Now()) == Silence
    {
      hide Time, Follows, Sound, WF, TaskSystem.Valid, Membox.Pool.Valid, SamePriorities;
      var w := Now();
      SameTcbs(w.c, w.c);
      StillTime(s, w);
      OtherBooks(s, w);
      MakeFollows(s, w, w);
    }

    method ResumeSem(s: Step, id: ListId) returns (r: Reply)
      requires Valid() && s.ResumeCall? && BackIn(id) && id.SemL?
      modifies sems, tasks`tcb, tasks`flight
      ensures Valid() && Follows(s, old(Now()), Now()) && r == EndAnswer(s, old(Now()))
    {
      hide Valid, Sound, Follows, Now, Box, WF, Kept, Ended, SamePriorities, TaskSystem.Valid, TaskSystem.State,
        Membox.Pool.Valid, Semaphore.SemsOk, Semaphore.Semaphores.Valid, SemBooksAfter, Finished, Time, WokenBy,
        EndAnswer;
      ghost var w := Now();
      Facts();
      SemFacts();
      NowIs();
      var uwRet := sems.SemPendResume();
      r := Code(uwRet);
      NowIs();
      SemBack(s, w, id, uwRet, sems.hist, tasks.State());
      SemsNow();
      SemDone(s, w, Now(), id);
      Close();
    }

    lemma SemBack(s: Step, w: World, id: ListId, r: nat, hist: seq<Semaphore.History>, c: Core)
      requires Inside(s, w, id) && id.SemL? && |w.semBooks| == |w.sems| && Ended(w.c, c, w.run, [])
      requires hist == if !w.c.tcb[w.run].timeout && id.s < |w.sems| && w.sems[id.s].life == id.life
                       then w.semBooks[id.s := w.semBooks[id.s].(taken := w.semBooks[id.s].taken + 1)] else w.semBooks
      requires r == if w.c.tcb[w.run].timeout then ERRNO_SEM_TIMEOUT else OS_OK
      ensures hist == SemBooksAfter(s, w) && Time(s, w, c) && Code(r) == EndAnswer(s, w)
    {
      hide Time, Ended;
      ReturnTime(s, w, c);
    }

    method ResumeMux(s: Step, k: nat) returns (r: Reply)
      requires Valid() && s.ResumeCall? && BackIn(MuxL(k))
      modifies tasks`tcb, tasks`flight
      ensures Valid() && Follows(s, old(Now()), Now()) && r == EndAnswer(s, old(Now()))
    {
      hide Valid, Sound, Follows, Now, Box, WF, Kept, Ended, SamePriorities, TaskSystem.Valid, TaskSystem.State,
        Membox.Pool.Valid, Mutex.MuxesOk, Mutex.Stacks, Mutex.Discipline, Mutex.Mutexes.Valid, FinishStep, Time,
        WokenBy, EndAnswer;
      ghost var w := Now();
      Facts();
      MuxFacts();
      NowIs();
      var uwRet := muxes.MuxPendResume();
      r := Code(uwRet);
      NowIs();
      FinishParts(w.c, tasks.State(), w.run, uwRet != OS_OK);
      MuxesNow();
      MuxBack(s, w, k, uwRet, Now());
      Close();
    }

    lemma FinishParts(c: Core, c': Core, t: Task, timedOut: bool)
      requires FinishStep(c, c', t, timedOut) && c.tcb[t].ready
      ensures Kept(c, c', {c.tcb[t].wait.id}) && SamePriorities(c, c') && timedOut == c.tcb[t].timeout
              && Ended(c, c', t, [])
    {
      FinishEnded(c, c', t, timedOut);
      hide Kept, Ended, SamePriorities;
    }

    lemma MuxBack(s: Step, w: World, k: nat, r: nat, w': World)
      requires Inside(s, w, MuxL(k)) && Sound(w) && w' == w.(c := w'.c) && WF(w'.c) && Kept(w.c, w'.c, {MuxL(k)})
               && SamePriorities(w.c, w'.c)
      requires Mutex.MuxesOk(w.muxes, w.muxBooks, w'.c) && Mutex.Stacks(w.muxes, w.stack)
      requires Mutex.Discipline(w.muxes, w.stack, w'.c.tcb, w.base, w.orderly, w.mild) && Ended(w.c, w'.c, w.run, [])
      requires r == if w.c.tcb[w.run].timeout then ERRNO_MUX_TIMEOUT else OS_OK
      ensures Sound(w') && Follows(s, w, w') && Code(r) == EndAnswer(s, w)
    {
      hide Sound, Follows, WF, Kept, Ended, SamePriorities, Mutex.MuxesOk, Mutex.Stacks, Mutex.Discipline,
        Mutex.Mutexes.Valid, Time;
      BackQuiet(s, w, MuxL(k));
      ReturnTime(s, w, w'.c);
      AfterMux(w, w', k);
      OtherBooks(s, w);
      Others(s, w, MuxL(k));
      SameRunner(s, w);
      MakeFollows(s, w, w');
    }

    /** Only the end of a queue call wakes anybody. */
    lemma BackQuiet(s: Step, w: World, id: ListId)
      requires Inside(s, w, id) && !id.RdL? && !id.WrL?
      ensures WokenBy(s, w) == []
    {
    }

    method ResumeEvent(s: Step, e: nat) returns (r: Reply)
      requires Valid() && s.ResumeCall? && BackIn(EvL(e)) && e < |events.cbs|
      modifies events, tasks`tcb, tasks`flight
      ensures Valid() && Follows(s, old(Now()), Now()) && r == EndAnswer(s, old(Now()))
    {
      hide Valid, Sound, Follows, Now, Box, WF, Kept, Ended, SamePriorities, TaskSystem.Valid, TaskSystem.State,
        Membox.Pool.Valid, Event.EventsOk, Event.Events.Valid, EventsAfter, Event.Polled, Event.AfterPoll,
        Event.Unambiguous, FinishStep, Time, WokenBy, EndAnswer;
      ghost var w := Now();
      Facts();
      EventFacts();
      NowIs();
      var uwRet := events.EventReadResume();
      r := Bits(uwRet);
      NowIs();
      FinishParts(w.c, tasks.State(), w.run, tasks.out[w.run] == [TimedOut]);
      EventBack(s, w, e, uwRet, events.cbs, tasks.State());
      EventsNow();
      EventDone(s, w, Now(), e);
      Close();
    }

    lemma EventBack(s: Step, w: World, e: nat, r: bv32, cbs: seq<bv32>, c: Core)
      requires Inside(s, w, EvL(e)) && e < |w.events| && Ended(w.c, c, w.run, []) && w.c.tcb[w.run].wait.call.EventArgs?
      requires var x := w.c.tcb[w.run];
               cbs == if x.timeout then w.events
                      else w.events[e := Event.AfterPoll(w.events[e], x.wait.call.uwEventMask, x.wait.call.uwEventMode)]
      requires var x := w.c.tcb[w.run];
               r == if x.timeout then ERRNO_EVENT_READ_TIMEOUT
                 else Event.Polled(w.events[e], x.wait.call.uwEventMask, x.wait.call.uwEventMode)
      ensures cbs == EventsAfter(s, w) && Time(s, w, c) && Bits(r) == EndAnswer(s, w)
    {
      hide Time, Ended, Event.AfterPoll, Event.Polled, WokenBy;
      BackQuiet(s, w, EvL(e));
      ReturnTime(s, w, c);
    }

    method ResumeRead(s: Step, k: nat) returns (r: Reply)
      requires Valid() && s.ResumeCall? && BackIn(RdL(k)) && k < |queues.cbs|
      modifies queues, tasks`tcb, tasks`lists, tasks`flight, tasks`out, tasks.wheel
      ensures Valid() && Follows(s, old(Now()), Now()) && r == EndAnswer(s, old(Now()))
    {
      hide Valid, Sound, Follows, Now, Box, WF, Kept, Ended, SamePriorities, TaskSystem.Valid, TaskSystem.State,
        Membox.Pool.Valid, Queue.QueuesOk, Queue.Queues.Valid, QueueBooksAfter, Queue.FirstServed, Queue.OldestRead,
        Queue.HeadSlot, Queue.WroteOne, Time, WokenBy, EndAnswer, Firsts;
      ghost var w := Now();
      Facts();
      QueueFacts();
      NowIs();
      var uwRet, buffer := queues.QueueReadResume();
      r := if uwRet == OS_OK then Got(buffer) else Code(uwRet);
      NowIs();
      ReadBack(s, w, k, uwRet, buffer, queues.hist, tasks.State());
      QueuesNow();
      QueueDone(s, w, Now(), k, RdL(k));
      Close();
    }

    lemma ReadBack(s: Step, w: World, k: nat, r: nat, buffer: int, hist: seq<Queue.History>, c: Core)
      requires Inside(s, w, RdL(k)) && k < |w.queues| == |w.queueBooks|
      requires r == if w.c.tcb[w.run].timeout then ERRNO_QUEUE_TIMEOUT else OS_OK
      requires r == OS_OK ==> Queue.OldestRead(w.queueBooks, hist, k, buffer) && buffer == Queue.HeadSlot(w.queues[k])
      requires r != OS_OK ==> hist == w.queueBooks
      requires Ended(w.c, c, w.run, if r == OS_OK then Firsts(At(w.c.lists, WrL(k))) else [])
      ensures hist == QueueBooksAfter(s, w) && Time(s, w, c)
              && (if r == OS_OK then Got(buffer) else Code(r)) == EndAnswer(s, w)
    {
      hide Time, Ended, Firsts, At, Queue.HeadSlot;
      ReturnTime(s, w, c);
    }

    method ResumeWrite(s: Step, k: nat) returns (r: Reply)
      requires Valid() && s.ResumeCall? && BackIn(WrL(k)) && k < |queues.cbs|
      modifies queues, tasks`tcb, tasks`lists, tasks`flight, tasks`out, tasks.wheel
      ensures Valid() && Follows(s, old(Now()), Now()) && r == EndAnswer(s, old(Now()))
    {
      hide Valid, Sound, Follows, Now, Box, WF, Kept, Ended, SamePriorities, TaskSystem.Valid, TaskSystem.State,
        Membox.Pool.Valid, Queue.QueuesOk, Queue.Queues.Valid, QueueBooksAfter, Queue.FirstServed, Queue.OldestRead,
        Queue.HeadSlot, Queue.WroteOne, Time, WokenBy, EndAnswer, Firsts;
      ghost var w := Now();
      Facts();
      QueueFacts();
      NowIs();
      var uwRet := queues.QueueWriteResume();
      r := Code(uwRet);
      NowIs();
      WriteBack(s, w, k, uwRet, queues.hist, tasks.State());
      QueuesNow();
      QueueDone(s, w, Now(), k, WrL(k));
      Close();
    }

    lemma WriteBack(s: Step, w: World, k: nat, r: nat, hist: seq<Queue.History>, c: Core)
      requires Inside(s, w, WrL(k)) && k < |w.queues| == |w.queueBooks|
      requires r == if w.c.tcb[w.run].timeout then ERRNO_QUEUE_TIMEOUT else OS_OK
      requires r == OS_OK ==>
                 var call := w.c.tcb[w.run].wait.call;
                 call.Message? && hist == w.queueBooks[k := Queue.WroteOne(w.queueBooks[k], call.data)]
      requires r != OS_OK ==> hist == w.queueBooks
      requires Ended(w.c, c, w.run, if r == OS_OK then Firsts(At(w.c.lists, RdL(k))) else [])
      ensures hist == QueueBooksAfter(s, w) && Time(s, w, c) && Code(r) == EndAnswer(s, w)
    {
      hide Time, Ended, Firsts, At, Queue.WroteOne;
      ReturnTime(s, w, c);
    }

    method ResumeMail(s: Step) returns (r: Reply)
      requires Valid() && s.ResumeCall? && BackIn(MemL(mails.q))
      modifies mails, tasks`tcb, tasks`flight
      ensures Valid() && Follows(s, old(Now()), Now()) && r == EndAnswer(s, old(Now()))
    {
      hide Valid, Sound, Follows, Now, Box, WF, Kept, Ended, SamePriorities, TaskSystem.Valid, TaskSystem.State,
        Membox.Pool.Valid, Mail.MailOk, Mail.Mails.Valid, Mail.IsPromised, Mail.UserAddr, MailFollows, MailPart,
        Mail.MailCall, Membox.Pool.Live, MailLive, MailBack, FinishStep, Time, WokenBy, EndAnswer;
      ghost var w := Now();
      Facts();
      MailFacts();
      NowIs();
      var pMem := mails.MailAllocResume();
      r := Block(pMem);
      NowIs();
      FinishParts(w.c, tasks.State(), w.run, pMem == 0);
      MailGot(s, w, pMem, mails.puwMsg, tasks.State());
      MailNow();
      MailDone(s, w, Now());
      Close();
    }

    lemma MailGot(s: Step, w: World, pMem: nat, msg: map<Task, nat>, c: Core)
      requires Inside(s, w, MemL(w.mail.q)) && Ended(w.c, c, w.run, [])
      requires msg == if w.c.tcb[w.run].timeout then w.mail.msg else w.mail.msg - {w.run}
      requires pMem == if w.c.tcb[w.run].timeout then 0 else Mail.MsgOf(w.mail.msg, w.run)
      ensures MailFollows(s, w, w.mail.(msg := msg)) && Time(s, w, c) && Block(pMem) == EndAnswer(s, w)
    {
      hide Time, Ended, WokenBy;
      BackQuiet(s, w, MemL(w.mail.q));
      ReturnTime(s, w, c);
    }

    // -------------------------------------------------------------- runs

    /** Any one step.  A step that the state does not allow (a task that is not running its own code, a block already in
        use) does nothing and hands back nothing, and so does one of the three that would put it out of order: the
        65536th nested pend of an owner, waiting for mail under the scheduling lock, and freeing mail that has been
        promised. */
    method Perform(s: Step) returns (r: Reply)
      requires Valid()
      modifies tasks, tasks.wheel, sems, muxes, events, queues, mails, mails.pool`mem, mails.pool`free
      ensures Valid() && Follows(s, old(Now()), Now()) && Sound(Now()) && r == Answer(s, old(Now()))
    {
      hide Valid, Follows, Now, Sound;
      match KindOf(s) {
        case TaskKind => r := TaskStep(s);
        case SetKind => if s.TaskCreate? { r := CreateTask(s); } else { r := SetPriority(s); }
        case SemKind => r := SemStep(s);
        case MuxKind => r := MuxStep(s);
        case EventKind => r := EventStep(s);
        case QueueKind => r := QueueStep(s);
        case MailKind => r := MailStep(s);
        case ResumeKind => r := Resume(s);
      }
      SoundNow();
    }

    lemma SoundNow()
      requires Valid()
      ensures Sound(Now())
    {
      hide Sound;
    }

    /** Every state that any sequence of steps reaches satisfies the invariant, the books tell the story of the run, and
        every call is answered accordingly. */
    method Run(steps: seq<Step>) returns (ghost trace: seq<World>, replies: seq<Reply>)
      requires Valid()
      modifies tasks, tasks.wheel, sems, muxes, events, queues, mails, mails.pool`mem, mails.pool`free
      ensures Valid() && IsRun(trace, steps) && trace[0] == old(Now()) && trace[|steps|] == Now()
      ensures Answered(trace, steps, replies)
    {
      hide Valid, Follows, Now, Sound, Answer;
      SoundNow();
      trace, replies := [Now()], [];
      assert Story(trace, steps[..0]);
      for n := 0 to |steps|
        invariant Valid() && Story(trace, steps[..n]) && AllSound(trace) && |trace| == n + 1 && trace[0] == old(Now())
                  && trace[n] == Now()
        invariant Answered(trace, steps[..n], replies)
      {
        hide *;
        var r := Perform(steps[n]);
        OneMoreStep(trace, steps[..n], steps[n], Now());
        OneMoreAnswer(trace, steps[..n], replies, steps[n], r, Now());
        TakeOne(steps, n);
        trace, replies := trace + [Now()], replies + [r];
      }
      assert steps[..|steps|] == steps;
    }
  }
}
