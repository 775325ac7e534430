/** What holds in every state of the kernel that any run reaches, and which step puts which part of it at stake. */
module Soundness {
  import opened Ledger
  import opened Steps
  import opened Tasks
  import Semaphore
  import Mutex
  import Event
  import Queue
  import Mail

  /** The calls in progress name things that are there. */
  ghost predicate CallsInRange(c: Core, events: nat, queues: nat, mail: nat)
  {
    forall t | t in c.tcb && c.tcb[t].wait.Waiting? :: InRange(c.tcb[t].wait.id, events, queues, mail)
  }

  predicate InRange(id: ListId, events: nat, queues: nat, mail: nat)
  {
    match id
    case EvL(e) => e < events
    case RdL(q) => q < queues
    case WrL(q) => q < queues
    case MemL(q) => q == mail
    case _ => true
  }

  /** Everything that holds in every reachable state. */
  ghost predicate Sound(w: World)
  {
    && WF(w.c) && CallsInRange(w.c, |w.events|, |w.queues|, w.mail.q)
    && Semaphore.SemsOk(w.sems, w.semBooks, w.c)
    && Mutex.MuxesOk(w.muxes, w.muxBooks, w.c) && Mutex.Stacks(w.muxes, w.stack)
    && Mutex.Discipline(w.muxes, w.stack, w.c.tcb, w.base, w.orderly, w.mild)
    && Event.EventsOk(w.events, w.c) && Queue.QueuesOk(w.queues, w.queueBooks, w.c)
    && Mail.MailOk(w.mail.msg, w.mail.pool, w.mail.size, w.mail.num, w.mail.free,
                   At(w.c.lists, MemL(w.mail.q)), Flying(w.c.flight, MemL(w.mail.q)))
  }

  ghost predicate AllSound(trace: seq<World>)
  {
    forall i | 0 <= i < |trace| :: Sound(trace[i])
  }

  // ---------------------------------------------------------------- the parts that a step does not touch

  lemma RangeKept(c: Core, c': Core, mine: set<ListId>, events: nat, queues: nat, mail: nat)
    requires CallsInRange(c, events, queues, mail) && Kept(c, c', mine)
             && forall o | o in mine :: InRange(o, events, queues, mail)
    ensures CallsInRange(c', events, queues, mail)
  {
    forall t | t in c'.tcb && c'.tcb[t].wait.Waiting? ensures InRange(c'.tcb[t].wait.id, events, queues, mail) {
      if c'.tcb[t].wait.id !in mine { assert c'.tcb[t].wait == c.tcb[t].wait; }
    }
  }

  ghost predicate MailPart(m: MailBox, c: Core)
  {
    Mail.MailOk(m.msg, m.pool, m.size, m.num, m.free, At(c.lists, MemL(m.q)), Flying(c.flight, MemL(m.q)))
  }

  lemma MailKept(m: MailBox, c: Core, c': Core, mine: set<ListId>)
    requires MailPart(m, c) && Kept(c, c', mine) && MemL(m.q) !in mine
    ensures MailPart(m, c')
  {
    assert KeptAt(c, c', MemL(m.q));
    StillEmpty(At(c'.lists, MemL(m.q)), At(c.lists, MemL(m.q)));
  }

  /** A step that changes only the shared state, and touches only the lists in `mine`. */
  lemma RestKept(w: World, c: Core, mine: set<ListId>)
    requires Sound(w) && Kept(w.c, c, mine) && forall o | o in mine :: InRange(o, |w.events|, |w.queues|, w.mail.q)
    ensures CallsInRange(c, |w.events|, |w.queues|, w.mail.q)
    ensures (forall o | o in mine :: !o.SemL?) ==> Semaphore.SemsOk(w.sems, w.semBooks, c)
    ensures (forall o | o in mine :: !o.MuxL?) ==> Mutex.MuxesOk(w.muxes, w.muxBooks, c)
    ensures SamePriorities(w.c, c) ==> Mutex.Discipline(w.muxes, w.stack, c.tcb, w.base, w.orderly, w.mild)
    ensures (forall o | o in mine :: !o.EvL?) ==> Event.EventsOk(w.events, c)
    ensures (forall o | o in mine :: !o.RdL? && !o.WrL?) ==> Queue.QueuesOk(w.queues, w.queueBooks, c)
    ensures (forall o | o in mine :: !o.MemL?) ==> MailPart(w.mail, c)
  {
    hide WF, Kept, CallsInRange, Semaphore.SemsOk, Mutex.MuxesOk, Mutex.Stacks, Mutex.Discipline, Event.EventsOk,
      Queue.QueuesOk, Mail.MailOk;
    RangeKept(w.c, c, mine, |w.events|, |w.queues|, w.mail.q);
    if forall o | o in mine :: !o.SemL? { Semaphore.SemsKept(w.sems, w.semBooks, w.c, c, mine); }
    if forall o | o in mine :: !o.MuxL? { Mutex.MuxesKept(w.muxes, w.muxBooks, w.c, c, mine); }
    if SamePriorities(w.c, c) { Mutex.SameDiscipline(w.muxes, w.stack, w.c.tcb, c.tcb, w.base, w.orderly, w.mild); }
    if forall o | o in mine :: !o.EvL? { Event.EventsKept(w.events, w.c, c, mine); }
    if forall o | o in mine :: !o.RdL? && !o.WrL? { Queue.QueuesKept(w.queues, w.queueBooks, w.c, c, mine); }
    if forall o | o in mine :: !o.MemL? { MailKept(w.mail, w.c, c, mine); }
  }

  /** A step of the task module, or of the tick. */
  lemma AfterTasks(w: World, w': World)
    requires Sound(w) && w' == w.(c := w'.c, run := w'.run, lock := w'.lock)
    requires WF(w'.c) && Kept(w.c, w'.c, {}) && SamePriorities(w.c, w'.c)
    ensures Sound(w')
  {
    RestKept(w, w'.c, {});
    hide WF, Kept, CallsInRange, Semaphore.SemsOk, Mutex.MuxesOk, Mutex.Stacks, Mutex.Discipline, Event.EventsOk,
      Queue.QueuesOk, Mail.MailOk, SamePriorities;
  }

  /** A new task, or a priority set from outside. */
  lemma AfterSet(w: World, w': World, t: Task, p: nat)
    requires Sound(w) && w' == w.(c := w'.c, base := w.base[t := p], orderly := w'.orderly, mild := w'.mild)
    requires WF(w'.c) && Kept(w.c, w'.c, {}) && NewPriority(w, w'.c, t, p)
    requires w'.orderly == (w.orderly && Mutex.StackOf(w.stack, t) == [])
             && w'.mild == (w.mild && Mutex.MildSet(w.muxes, t, p))
    ensures Sound(w')
  {
    RestKept(w, w'.c, {});
    Mutex.SetDiscipline(w.muxes, w.stack, w.c.tcb, w'.c.tcb, w.base, t, p, w.orderly, w.mild);
    hide WF, Kept, CallsInRange, Semaphore.SemsOk, Mutex.MuxesOk, Mutex.Stacks, Mutex.Discipline, Event.EventsOk,
      Queue.QueuesOk, Mail.MailOk, NewPriority, Mutex.MildSet;
  }

  /** A task that does not exist yet holds nothing, so creating it disturbs no priority. */
  lemma Newcomer(w: World, t: Task, p: nat)
    requires Sound(w) && t !in w.c.tcb
    ensures Mutex.StackOf(w.stack, t) == [] && Mutex.MildSet(w.muxes, t, p)
  {
    hide WF, CallsInRange, Semaphore.SemsOk, Mutex.MuxesOk, Mutex.Stacks, Mutex.Discipline, Event.EventsOk,
      Queue.QueuesOk, Mail.MailOk;
    Mutex.NewcomerHoldsNothing(w.muxes, w.muxBooks, w.stack, w.c, t);
    Mutex.NewcomerIsMild(w.muxes, w.muxBooks, w.c, t, p);
  }

  lemma AfterSem(w: World, w': World, id: ListId)
    requires Sound(w) && w' == w.(c := w'.c, sems := w'.sems, semBooks := w'.semBooks)
    requires WF(w'.c) && Semaphore.SemsOk(w'.sems, w'.semBooks, w'.c) && id.SemL? && Kept(w.c, w'.c, {id})
             && SamePriorities(w.c, w'.c)
    ensures Sound(w')
  {
    RestKept(w, w'.c, {id});
    hide WF, Kept, CallsInRange, Semaphore.SemsOk, Mutex.MuxesOk, Mutex.Stacks, Mutex.Discipline, Event.EventsOk,
      Queue.QueuesOk, Mail.MailOk, SamePriorities;
  }

  lemma AfterMux(w: World, w': World, k: nat)
    requires Sound(w) && w' == w.(c := w'.c, muxes := w'.muxes, muxBooks := w'.muxBooks, stack := w'.stack,
             orderly := w'.orderly)
    requires WF(w'.c) && Mutex.MuxesOk(w'.muxes, w'.muxBooks, w'.c) && Mutex.Stacks(w'.muxes, w'.stack)
    requires Mutex.Discipline(w'.muxes, w'.stack, w'.c.tcb, w'.base, w'.orderly, w'.mild) && Kept(w.c, w'.c, {MuxL(k)})
    ensures Sound(w')
  {
    RestKept(w, w'.c, {MuxL(k)});
    hide WF, Kept, CallsInRange, Semaphore.SemsOk, Mutex.MuxesOk, Mutex.Stacks, Mutex.Discipline, Event.EventsOk,
      Queue.QueuesOk, Mail.MailOk, SamePriorities;
  }

  lemma AfterEvent(w: World, w': World, e: nat)
    requires Sound(w) && w' == w.(c := w'.c, events := w'.events) && |w'.events| == |w.events|
    requires WF(w'.c) && Event.EventsOk(w'.events, w'.c) && e < |w.events| && Kept(w.c, w'.c, {EvL(e)})
             && SamePriorities(w.c, w'.c)
    ensures Sound(w')
  {
    RestKept(w, w'.c, {EvL(e)});
    hide WF, Kept, CallsInRange, Semaphore.SemsOk, Mutex.MuxesOk, Mutex.Stacks, Mutex.Discipline, Event.EventsOk,
      Queue.QueuesOk, Mail.MailOk, SamePriorities;
  }

  lemma AfterQueue(w: World, w': World, k: nat)
    requires Sound(w) && w' == w.(c := w'.c, queues := w'.queues, queueBooks := w'.queueBooks)
             && |w'.queues| == |w.queues|
    requires WF(w'.c) && Queue.QueuesOk(w'.queues, w'.queueBooks, w'.c) && k < |w.queues|
    requires Kept(w.c, w'.c, {RdL(k), WrL(k)}) && SamePriorities(w.c, w'.c)
    ensures Sound(w')
  {
    RestKept(w, w'.c, {RdL(k), WrL(k)});
    hide WF, Kept, CallsInRange, Semaphore.SemsOk, Mutex.MuxesOk, Mutex.Stacks, Mutex.Discipline, Event.EventsOk,
      Queue.QueuesOk, Mail.MailOk, SamePriorities;
  }

  lemma AfterMail(w: World, w': World)
    requires Sound(w) && w' == w.(c := w'.c, mail := w'.mail) && w'.mail.q == w.mail.q
    requires WF(w'.c) && MailPart(w'.mail, w'.c) && Kept(w.c, w'.c, {MemL(w.mail.q)}) && SamePriorities(w.c, w'.c)
    ensures Sound(w')
  {
    RestKept(w, w'.c, {MemL(w.mail.q)});
    hide WF, Kept, CallsInRange, Semaphore.SemsOk, Mutex.MuxesOk, Mutex.Stacks, Mutex.Discipline, Event.EventsOk,
      Queue.QueuesOk, Mail.MailOk, SamePriorities;
  }

  // ---------------------------------------------------------------- runs

  /** `trace` holds the states of a run of `steps`, all of them in order. */
  ghost predicate IsRun(trace: seq<World>, steps: seq<Step>)
    ensures IsRun(trace, steps) ==> |trace| == |steps| + 1
  {
    Story(trace, steps) && AllSound(trace)
  }

  lemma OneMoreStep(trace: seq<World>, steps: seq<Step>, s: Step, w: World)
    requires Story(trace, steps) && AllSound(trace) && Follows(s, trace[|steps|], w) && Sound(w)
    ensures Story(trace + [w], steps + [s]) && AllSound(trace + [w])
  {
    hide Follows, Sound;
    var t, q := trace + [w], steps + [s];
    forall i | 0 <= i < |q| ensures Follows(q[i], t[i], t[i + 1]) {
      if i < |steps| {
        assert t[i] == trace[i] && t[i + 1] == trace[i + 1] && q[i] == steps[i];
      }
    }
  }

  lemma OneMoreAnswer(trace: seq<World>, steps: seq<Step>, replies: seq<Reply>, s: Step, r: Reply, w: World)
    requires Answered(trace, steps, replies) && r == Answer(s, trace[|steps|])
    ensures Answered(trace + [w], steps + [s], replies + [r])
  {
    hide Answer;
    var t, q, l := trace + [w], steps + [s], replies + [r];
    forall i | 0 <= i < |q| ensures l[i] == Answer(q[i], t[i]) {
      if i < |steps| {
        assert t[i] == trace[i] && q[i] == steps[i] && l[i] == replies[i];
      }
    }
  }

  lemma TakeOne(steps: seq<Step>, n: nat)
    requires n < |steps|
    ensures steps[..n] + [steps[n]] == steps[..n + 1]
  {
  }
}
