/** What the books mean for whole runs of the kernel: any number of tasks, interrupts and ticks, interleaved in any
    order. */
module Runs {
  import opened Errno
  import opened Ledger
  import opened Soundness
  import opened Steps
  import opened Tasks
  import opened TaskSystem
  import Wheel
  import Semaphore
  import Mutex
  import Event
  import Queue

  lemma RunStep(trace: seq<World>, steps: seq<Step>, n: nat)
    requires IsRun(trace, steps) && n < |steps|
    ensures Follows(steps[n], trace[n], trace[n + 1]) && Sound(trace[n]) && Sound(trace[n + 1])
  {
    hide Follows, Sound;
  }

  lemma AnsweredStep(trace: seq<World>, steps: seq<Step>, replies: seq<Reply>, n: nat)
    requires Answered(trace, steps, replies) && n < |steps|
    ensures replies[n] == Answer(steps[n], trace[n])
  {
    hide Answer;
  }

  /** What the answer is, module by module. */
  lemma AnswerIs(s: Step, w: World)
    ensures KindOf(s) == SemKind ==> Answer(s, w) == SemAnswer(s, w)
    ensures KindOf(s) == MuxKind ==> Answer(s, w) == MuxAnswer(s, w)
    ensures KindOf(s) == QueueKind ==> Answer(s, w) == QueueAnswer(s, w)
    ensures KindOf(s) == ResumeKind ==> Answer(s, w) == EndAnswer(s, w)
  {
    hide SemAnswer, MuxAnswer, QueueAnswer, EndAnswer, EventAnswer, MailAnswer, TaskAnswer, SetAnswer;
  }

  /** The running task is back in a call on `id`. */
  predicate ResumesOn(s: Step, w: World, id: ListId)
  {
    s.ResumeCall? && w.run in w.c.tcb && w.c.tcb[w.run].wait.Waiting? && w.c.tcb[w.run].wait.id == id
  }

  // ---------------------------------------------------------------- calls in progress

  lemma OrderedHere(w: World)
    requires Sound(w)
    ensures WF(w.c)
  {
    hide WF;
  }

  /** The list from which the step wakes. */
  function WakesFrom(s: Step, w: World): ListId
  {
    match s
    case SemPost(k) => if k < |w.sems| then Semaphore.ListOf(k, w.sems[k]) else SemL(k, 0)
    case MuxPost(k, _) => MuxL(k)
    case EventWrite(e, _) => EvL(e)
    case QueueRead(k, _, _, _, _) => WrL(k)
    case QueueWrite(k, _, _, _, _) => RdL(k)
    case MailFree(_) => MemL(w.mail.q)
    case _ => if Reads(s, w, QueueOf(s, w)) then WrL(QueueOf(s, w)) else RdL(QueueOf(s, w))
  }

  lemma WokenListed(s: Step, w: World, t: Task)
    requires t in WokenBy(s, w)
    ensures t in At(w.c.lists, WakesFrom(s, w)) && !WakesFrom(s, w).Ready?
  {
    if s.EventWrite? && s.e < |w.events| {
      Event.MetByElements(w.c, At(w.c.lists, EvL(s.e)), Event.SetBits(w.events[s.e], s.uwEvents));
    }
    hide Reads, Writes, GivesUp, MailBack, At, Event.Met, Event.MetBy, Event.SetBits;
  }

  /** Only a task that still waits is handed something. */
  lemma WokenWaits(s: Step, w: World, t: Task)
    requires Sound(w) && t in WokenBy(s, w)
    ensures t in w.c.tcb && !w.c.tcb[t].ready && StageOf(w.c.tcb[t]) == Pending
    ensures w.c.tcb[t].wait.Waiting? && w.c.tcb[t].wait.id == WakesFrom(s, w) && t in At(w.c.lists, WakesFrom(s, w))
  {
    WokenListed(s, w, t);
    OrderedHere(w);
    hide Sound, WF, WokenBy, WakesFrom;
    BlockedOnList(w.c, t, WakesFrom(s, w));
  }

  /** The tick ends the wait of `t`. */
  predicate Expires(s: Step, w: World, t: Task)
  {
    s.Tick? && t in w.c.tcb && StageOf(w.c.tcb[t]) == Pending && t in w.c.rem && w.c.rem[t] == 1
  }

  /** The running task `t` begins or ends a call. */
  predicate OwnDoing(s: Step, w: World, t: Task) { w.run == t && (Waits(s, w) || Returns(s, w)) }

  /** A caller is ready, and in the middle of its own code; it wakes nobody. */
  lemma WaitsFree(s: Step, w: World)
    requires Waits(s, w)
    ensures Free(w) && WokenBy(s, w) == [] && !s.Tick?
  {
    WaitersWakeNobody(s, w);
    hide WokenBy;
  }

  lemma WaitersWakeNobody(s: Step, w: World)
    requires Waits(s, w)
    ensures WokenBy(s, w) == []
  {
    hide Firsts, At, MailBack, GivesUp, MayCall, QueueThere, SemThere, MuxThere;
  }

  /** The tick changes the stage of those only whose last tick it is. */
  lemma TickStages(c: Core, t: Task)
    requires WF(c) && t in c.tcb
    ensures t in Wheel.Due(c.rem) <==> t in c.rem && c.rem[t] == 1
    ensures t in Wheel.Due(c.rem) ==> StageOf(c.tcb[t]) == Pending || StageOf(c.tcb[t]) == Idle
    ensures StageOf(ExpireTcb(c.tcb[t])) == if StageOf(c.tcb[t]) == Pending && t in c.rem then Late
            else if StageOf(c.tcb[t]) == Idle then Idle else StageOf(ExpireTcb(c.tcb[t]))
  {
    BitsAt(c.tcb, t);
    assert Timers(c.tcb, c.rem);
    hide WF;
  }

  /** A call gets further only when it is handed what it waits for, or when its time is up. */
  lemma CallStep(s: Step, w: World, w': World, t: Task)
    requires Sound(w) && Follows(s, w, w') && t in w.c.tcb && !OwnDoing(s, w, t)
    ensures t in w'.c.tcb && w'.c.tcb[t].wait == w.c.tcb[t].wait
    ensures StageOf(w'.c.tcb[t]) == if t in WokenBy(s, w) then Handed
            else if Expires(s, w, t) then Late else StageOf(w.c.tcb[t])
  {
    OrderedHere(w);
    TickStages(w.c, t);
    TimePasses(s, w, w');
    CallsAfter(s, w, w'.c);
    WakersDoNotTick(s, w);
    NotFree(s, w, t);
    hide Sound, WF, Follows, WokenBy, Waits, Returns, StageOf, Time, OwnDoing, Wheel.Due, ExpireTcb;
  }

  lemma NotFree(s: Step, w: World, t: Task)
    requires !OwnDoing(s, w, t)
    ensures t !in (if Waits(s, w) || Returns(s, w) then {w.run} else {})
  {
    hide Waits, Returns;
  }

  lemma TimePasses(s: Step, w: World, w': World)
    requires Follows(s, w, w')
    ensures Time(s, w, w'.c)
  {
    hide Time, Priorities, MailFollows, Booked;
  }

  /** What `Time` says about calls, in all cases but a tick. */
  lemma CallsAfter(s: Step, w: World, c: Core)
    requires Time(s, w, c)
    ensures if s.Tick? then c.tcb == ExpiredTcbs(w.c.tcb, Wheel.Due(w.c.rem))
            else CallsStay(w.c, c, if Waits(s, w) || Returns(s, w) then {w.run} else {}, WokenBy(s, w))
  {
    if Waits(s, w) { WaitsFree(s, w); }
    SleepersWakeNobody(s, w);
    hide WokenBy, Waits, Returns, Sleeps, CallsStay, WaitOf;
  }

  lemma SleepersWakeNobody(s: Step, w: World)
    ensures Sleeps(s, w) ==> WokenBy(s, w) == [] && !Returns(s, w)
  {
  }

  /** How often something was handed to `t` in the first `n` steps. */
  ghost function HandOvers(trace: seq<World>, steps: seq<Step>, t: Task, n: nat): nat
    requires n <= |steps| && n <= |trace|
  {
    if n == 0 then 0 else HandOvers(trace, steps, t, n - 1) + One(t in WokenBy(steps[n - 1], trace[n - 1]))
  }

  /** How often the tick ended a wait of `t` in the first `n` steps. */
  function Expiries(trace: seq<World>, steps: seq<Step>, t: Task, n: nat): nat
    requires n <= |steps| && n <= |trace|
  {
    if n == 0 then 0 else Expiries(trace, steps, t, n - 1) + One(Expires(steps[n - 1], trace[n - 1], t))
  }

  function One(b: bool): nat { if b then 1 else 0 }

  /** A call of `t` waits to be resolved. */
  predicate IsPending(c: Core, t: Task) { t in c.tcb && StageOf(c.tcb[t]) == Pending }

  /** The call that `t` was inside of is not over, and it has been resolved by `h` hand-overs and `e` ticks. */
  predicate ResolvedAs(c0: Core, c: Core, t: Task, h: nat, e: nat)
  {
    && t in c0.tcb && t in c.tcb && c.tcb[t].wait == c0.tcb[t].wait && StageOf(c.tcb[t]) != Idle
    && h == One(StageOf(c.tcb[t]) == Handed) && e == One(StageOf(c.tcb[t]) == Late)
  }

  lemma ResolvedStep(s: Step, w: World, w': World, c0: Core, t: Task, h: nat, e: nat)
    requires Sound(w) && Follows(s, w, w') && ResolvedAs(c0, w.c, t, h, e) && !OwnDoing(s, w, t)
    ensures ResolvedAs(c0, w'.c, t, h + One(t in WokenBy(s, w)), e + One(Expires(s, w, t)))
  {
    hide *;
    InsideHere(c0, w.c, t, h, e);
    CallStep(s, w, w', t);
    if t in WokenBy(s, w) { WokenWaits(s, w, t); }
    ExpiresPending(s, w, t);
    WakersDoNotTick(s, w);
    ExpiresAtTick(s, w, t);
    Accounted(c0, w.c, w'.c, t, h, e, t in WokenBy(s, w), Expires(s, w, t));
  }

  lemma InsideHere(c0: Core, c: Core, t: Task, h: nat, e: nat)
    requires ResolvedAs(c0, c, t, h, e)
    ensures t in c.tcb
  {
  }

  lemma ExpiresAtTick(s: Step, w: World, t: Task)
    ensures Expires(s, w, t) ==> s.Tick?
  {
  }

  lemma Accounted(c0: Core, c: Core, c': Core, t: Task, h: nat, e: nat, woken: bool, expires: bool)
    requires ResolvedAs(c0, c, t, h, e) && t in c'.tcb && c'.tcb[t].wait == c.tcb[t].wait && !(woken && expires)
    requires StageOf(c'.tcb[t]) == if woken then Handed else if expires then Late else StageOf(c.tcb[t])
    requires woken || expires ==> StageOf(c.tcb[t]) == Pending
    ensures ResolvedAs(c0, c', t, h + One(woken), e + One(expires))
  {
    hide StageOf;
  }

  /** Whatever wakers, ticks and other tasks do while `t` is inside of a call: the call is resolved at most once, by one
      hand-over or by one tick, and how it stands tells by which. */
  lemma {:induction false} ResolvedOnce(trace: seq<World>, steps: seq<Step>, t: Task, n: nat)
    requires IsRun(trace, steps) && n <= |steps| && IsPending(trace[0].c, t)
             && forall i | 0 <= i < n :: !OwnDoing(steps[i], trace[i], t)
    ensures ResolvedAs(trace[0].c, trace[n].c, t, HandOvers(trace, steps, t, n), Expiries(trace, steps, t, n))
  {
    hide IsRun, Follows, Sound, WokenBy, OwnDoing, StageOf, Expires, ResolvedAs, One, IsPending;
    if n == 0 {
      NotYetResolved(trace[0].c, t);
    } else {
      RunStep(trace, steps, n - 1);
      ResolvedOnce(trace, steps, t, n - 1);
      ResolvedStep(steps[n - 1], trace[n - 1], trace[n], trace[0].c, t, HandOvers(trace, steps, t, n - 1),
        Expiries(trace, steps, t, n - 1));
    }
  }

  lemma NotYetResolved(c: Core, t: Task)
    requires IsPending(c, t)
    ensures ResolvedAs(c, c, t, 0, 0)
  {
  }

  lemma WakersDoNotTick(s: Step, w: World)
    ensures s.Tick? ==> WokenBy(s, w) == []
  {
  }

  /** The task has been handed something on `id` and has not resumed. */
  predicate HandedAt(x: Tcb, id: ListId) { x.wait.Waiting? && StageOf(x) == Handed && x.wait.id == id }

  lemma FlightIs(c: Core, id: ListId, t: Task)
    requires WF(c)
    ensures t in Flying(c.flight, id) <==> t in c.tcb && HandedAt(c.tcb[t], id)
  {
    assert Flights(c.tcb, c.flight);
  }

  lemma FlightOther(x: Tcb, x': Tcb, woken: bool, expires: bool, from: ListId, id: ListId)
    requires x'.wait == x.wait && StageOf(x') == if woken then Handed else if expires then Late else StageOf(x)
    requires woken ==> StageOf(x) == Pending && x.wait.Waiting? && x.wait.id == from
    requires expires ==> StageOf(x) == Pending
    ensures HandedAt(x', id) <==> HandedAt(x, id) || (woken && from == id)
  {
  }

  lemma FlightOwn(x: Tcb, id: ListId)
    ensures StageOf(x) == Pending || StageOf(x) == Idle ==> !HandedAt(x, id)
  {
  }

  lemma ExpiresPending(s: Step, w: World, t: Task)
    ensures Expires(s, w, t) ==> t in w.c.tcb && StageOf(w.c.tcb[t]) == Pending
  {
  }

  /** What somebody is doing on its own is a call that begins or one that ends. */
  lemma OwnDoingIs(s: Step, w: World, t: Task)
    ensures OwnDoing(s, w, t) <==> w.run == t && (Waits(s, w) || Returns(s, w))
  {
    hide Waits, Returns;
  }

  /** Who has been handed something and has not resumed. */
  lemma FlightStep(s: Step, w: World, w': World, id: ListId, t: Task)
    requires Sound(w) && Sound(w') && Follows(s, w, w')
    ensures t in Flying(w'.c.flight, id) <==>
              && !(Returns(s, w) && w.run == t)
              && (t in Flying(w.c.flight, id) || (t in WokenBy(s, w) && WakesFrom(s, w) == id))
  {
    hide *;
    OrderedHere(w);
    OrderedHere(w');
    FlightIs(w.c, id, t);
    FlightIs(w'.c, id, t);
    OwnDoingIs(s, w, t);
    if t in WokenBy(s, w) { WokenWaits(s, w, t); }
    if OwnDoing(s, w, t) {
      OwnStep(s, w, w');
      FlightOwn(w'.c.tcb[t], id);
      if Waits(s, w) { FlightOwn(w.c.tcb[t], id); }
    } else if t in w.c.tcb {
      CallStep(s, w, w', t);
      ExpiresPending(s, w, t);
      FlightOther(w.c.tcb[t], w'.c.tcb[t], t in WokenBy(s, w), Expires(s, w, t), WakesFrom(s, w), id);
    } else {
      NewcomersIdle(s, w, w', t);
      if t in w'.c.tcb { FlightOwn(w'.c.tcb[t], id); }
    }
  }

  lemma OwnStep(s: Step, w: World, w': World)
    requires Follows(s, w, w') && (Waits(s, w) || Returns(s, w))
    ensures w.run in w'.c.tcb && (Returns(s, w) ==> !Waits(s, w) && StageOf(w'.c.tcb[w.run]) == Idle)
    ensures Waits(s, w) ==>
              && w.run !in WokenBy(s, w) && w.run in w.c.tcb && StageOf(w.c.tcb[w.run]) == Idle
                 && StageOf(w'.c.tcb[w.run]) == Pending
  {
    if Waits(s, w) { WaitsFree(s, w); NotBoth(s, w); }
    hide Priorities, MailFollows, MuxesAfter, WokenBy, Waits, WaitOf;
  }

  lemma NotBoth(s: Step, w: World)
    requires Waits(s, w)
    ensures !Returns(s, w)
  {
  }

  lemma NewcomersIdle(s: Step, w: World, w': World, t: Task)
    requires Follows(s, w, w') && t !in w.c.tcb
    ensures t in w'.c.tcb ==> StageOf(w'.c.tcb[t]) == Idle
  {
    CallsAfter(s, w, w'.c);
    hide WokenBy, Waits, Returns, Priorities, MailFollows, MuxesAfter, Time;
  }

  // ---------------------------------------------------------------- semaphores

  /** A post on semaphore `k` that returns OS_OK. */
  function PostsGained(s: Step, r: Reply, k: nat): nat { if s.SemPost? && s.k == k && r == Code(OS_OK) then 1 else 0 }

  function TotalPosts(steps: seq<Step>, replies: seq<Reply>, k: nat, n: nat): nat
    requires n <= |steps| && n <= |replies|
  {
    if n == 0 then 0 else TotalPosts(steps, replies, k, n - 1) + PostsGained(steps[n - 1], replies[n - 1], k)
  }

  /** A pend on semaphore `k` that returns OS_OK: at once, or after a hand-over. */
  function TakesGained(s: Step, w: World, r: Reply, k: nat): nat
  {
    if r == Code(OS_OK) && ((s.SemPend? && s.k == k)
      || (k < |w.sems| && ResumesOn(s, w, Semaphore.ListOf(k, w.sems[k])))) then 1 else 0
  }

  function TotalTakes(trace: seq<World>, steps: seq<Step>, replies: seq<Reply>, k: nat, n: nat): nat
    requires n <= |steps| && n <= |replies| && n <= |trace|
  {
    if n == 0 then 0 else TotalTakes(trace, steps, replies, k, n - 1) + TakesGained(steps[n - 1], trace[n - 1],
      replies[n - 1], k)
  }

  lemma SemStepBooks(s: Step, w: World, r: Reply, k: nat)
    requires k < |w.semBooks| && |w.sems| == |w.semBooks| && !(s.SemCreate? && s.k == k) && r == Answer(s, w)
    ensures var h := SemBooksAfter(s, w);
            && |h| == |w.semBooks| && h[k].initial == w.semBooks[k].initial
            && h[k].taken == w.semBooks[k].taken + TakesGained(s, w, r, k)
               && h[k].posts == w.semBooks[k].posts + PostsGained(s, r, k)
  {
    AnswerIs(s, w);
    hide Answer;
  }

  lemma SemsOf(w: World)
    requires Sound(w)
    ensures |w.semBooks| == |w.sems| && Semaphore.SemsOk(w.sems, w.semBooks, w.c)
  {
    hide Semaphore.OneOk, WF;
  }

  lemma SemStep(s: Step, w: World, w': World, r: Reply, k: nat)
    requires Follows(s, w, w') && Sound(w) && k < |w.semBooks| && !(s.SemCreate? && s.k == k) && r == Answer(s, w)
    ensures var h := w'.semBooks;
            && |h| == |w.semBooks| && h[k].initial == w.semBooks[k].initial
            && h[k].taken == w.semBooks[k].taken + TakesGained(s, w, r, k)
               && h[k].posts == w.semBooks[k].posts + PostsGained(s, r, k)
  {
    hide Sound, Priorities, Time, MailFollows, SemBooksAfter, TakesGained, PostsGained, Answer;
    SemsOf(w);
    SemStepBooks(s, w, r, k);
  }

  /** As long as semaphore `k` is not created anew, its books gain exactly the posts and the pends that return OS_OK. */
  lemma {:induction false} PostsAddUp(trace: seq<World>, steps: seq<Step>, replies: seq<Reply>, k: nat, n: nat)
    requires IsRun(trace, steps) && Answered(trace, steps, replies) && n <= |steps| && k < |trace[0].semBooks|
    requires forall i | 0 <= i < n :: !(steps[i].SemCreate? && steps[i].k == k)
    ensures var h0, h1 := trace[0].semBooks, trace[n].semBooks;
            && |h1| == |h0| && h1[k].initial == h0[k].initial
            && h1[k].taken == h0[k].taken + TotalTakes(trace, steps, replies, k, n)
               && h1[k].posts == h0[k].posts + TotalPosts(steps, replies, k, n)
  {
    hide IsRun, Answered, Follows, Sound, TakesGained, PostsGained, Answer;
    if n > 0 {
      RunStep(trace, steps, n - 1);
      AnsweredStep(trace, steps, replies, n - 1);
      PostsAddUp(trace, steps, replies, k, n - 1);
      SemStep(steps[n - 1], trace[n - 1], trace[n], replies[n - 1], k);
    }
  }

  /** What can be taken from semaphore `k`: its count, and what has been handed to tasks that have not resumed. */
  ghost function InStock(w: World, k: nat): nat
    requires k < |w.sems|
  {
    w.sems[k].uwSemCount + |Flying(w.c.flight, Semaphore.ListOf(k, w.sems[k]))|
  }

  /** No post is lost and none counts twice: as long as the semaphore is not created anew, what is in stock is what was
      there at first, more by the posts that have returned OS_OK and less by the pends that have. */
  lemma CountsConserved(trace: seq<World>, steps: seq<Step>, replies: seq<Reply>, k: nat, n: nat)
    requires IsRun(trace, steps) && Answered(trace, steps, replies) && n <= |steps| && k < |trace[0].sems|
             && k < |trace[n].sems|
    requires trace[0].sems[k].used && trace[n].sems[k].used
             && forall i | 0 <= i < n :: !(steps[i].SemCreate? && steps[i].k == k)
    ensures InStock(trace[n], k) + TotalTakes(trace, steps, replies, k, n)
            == InStock(trace[0], k) + TotalPosts(steps, replies, k, n)
  {
    var w0, w1 := trace[0], trace[n];
    SemsOf(w0);
    SemsOf(w1);
    assert Semaphore.OneOk(w0.sems, w0.semBooks, w0.c, k) && Semaphore.OneOk(w1.sems, w1.semBooks, w1.c, k);
    PostsAddUp(trace, steps, replies, k, n);
    hide Sound, Follows, Story, AllSound, IsRun, Semaphore.SemsOk, Semaphore.Unborn, TotalTakes, TotalPosts, Answered;
  }

  // ---------------------------------------------------------------- queues

  /** The message that a read of queue `k` hands back. */
  function ReadFrom(s: Step, w: World, r: Reply, k: nat): seq<int>
  {
    if r.Got? && ((s.QueueRead? && s.k == k) || ResumesOn(s, w, RdL(k))) then [r.buffer] else []
  }

  /** The message of a write to queue `k` that returns OS_OK. */
  function WrittenTo(s: Step, w: World, r: Reply, k: nat): seq<int>
  {
    if r != Code(OS_OK) then []
    else if s.QueueWrite? && s.k == k then [s.data]
    else if ResumesOn(s, w, WrL(k)) && w.c.tcb[w.run].wait.call.Message? then [w.c.tcb[w.run].wait.call.data] else []
  }

  function AllRead(trace: seq<World>, steps: seq<Step>, replies: seq<Reply>, k: nat, n: nat): seq<int>
    requires n <= |steps| && n <= |replies| && n <= |trace|
  {
    if n == 0 then [] else AllRead(trace, steps, replies, k, n - 1) + ReadFrom(steps[n - 1], trace[n - 1],
      replies[n - 1], k)
  }

  function AllWritten(trace: seq<World>, steps: seq<Step>, replies: seq<Reply>, k: nat, n: nat): seq<int>
    requires n <= |steps| && n <= |replies| && n <= |trace|
  {
    if n == 0 then [] else AllWritten(trace, steps, replies, k, n - 1) + WrittenTo(steps[n - 1], trace[n - 1],
      replies[n - 1], k)
  }

  /** The step creates queue `k` anew. */
  predicate Recreates(s: Step, w: World, k: nat) { s.QueueCreate? && Queue.FirstUnused(w.queues) == k }

  /** A read hands back what is in the slot at the head. */
  lemma ReadsAnswered(s: Step, w: World, r: Reply, k: nat)
    requires |w.queues| == |w.queueBooks| && k < |w.queues| && r == Answer(s, w)
    ensures ReadFrom(s, w, r, k) == if Reads(s, w, k) then [Queue.HeadSlot(w.queues[k])] else []
  {
    AnswerIs(s, w);
    hide Answer, Queue.HeadSlot, At, Flying;
  }

  lemma WritesAnswered(s: Step, w: World, r: Reply, k: nat)
    requires |w.queues| == |w.queueBooks| && k < |w.queues| && r == Answer(s, w)
    ensures WrittenTo(s, w, r, k) == if Writes(s, w, k)
            then [if s.QueueWrite? then s.data else w.c.tcb[w.run].wait.call.data] else []
  {
    AnswerIs(s, w);
    hide Answer, Queue.HeadSlot, At, Flying;
  }

  lemma QueueStepBooks(s: Step, w: World, r: Reply, k: nat)
    requires k < |w.queueBooks| && |w.queues| == |w.queueBooks| && !Recreates(s, w, k) && r == Answer(s, w)
    ensures var h := QueueBooksAfter(s, w);
            && |h| == |w.queueBooks| && h[k].written == w.queueBooks[k].written + WrittenTo(s, w, r, k)
            && h[k].got == w.queueBooks[k].got + ReadFrom(s, w, r, k)
               && h[k].nRead == w.queueBooks[k].nRead + |ReadFrom(s, w, r, k)|
  {
    ReadsAnswered(s, w, r, k);
    WritesAnswered(s, w, r, k);
    QueueNamed(s, w, k);
    QueueNamed(s, w, QueueOf(s, w));
    hide Answer, Queue.HeadSlot, Queue.CreateCode, Queue.FirstUnused, Reads, Writes, QueueOf, ReadFrom, WrittenTo;
  }

  /** A step reads or writes only the queue that it is about, and not both. */
  lemma QueueNamed(s: Step, w: World, k: nat)
    ensures Reads(s, w, k) || Writes(s, w, k) ==> k == QueueOf(s, w) && !s.QueueCreate?
    ensures !(Reads(s, w, k) && Writes(s, w, k))
    ensures k == QueueOf(s, w) && (Reads(s, w, k) || Writes(s, w, k)) ==> k < |w.queues| && k < |w.queueBooks|
  {
  }

  lemma QueueStep(s: Step, w: World, w': World, r: Reply, k: nat)
    requires Follows(s, w, w') && Sound(w) && k < |w.queueBooks| && !Recreates(s, w, k) && r == Answer(s, w)
    ensures var h := w'.queueBooks;
            && |h| == |w.queueBooks| && h[k].written == w.queueBooks[k].written + WrittenTo(s, w, r, k)
            && h[k].got == w.queueBooks[k].got + ReadFrom(s, w, r, k)
               && h[k].nRead == w.queueBooks[k].nRead + |ReadFrom(s, w, r, k)|
  {
    hide Sound, Priorities, Time, MailFollows, QueueBooksAfter, WrittenTo, ReadFrom, Answer, Recreates;
    QueuesOf(w);
    QueueStepBooks(s, w, r, k);
  }

  /** The books of a queue that is not created anew grow by what is written and read. */
  lemma {:induction false} QueueBooksGrow(trace: seq<World>, steps: seq<Step>, replies: seq<Reply>, k: nat, n: nat)
    requires IsRun(trace, steps) && Answered(trace, steps, replies) && n <= |steps| && k < |trace[0].queueBooks|
    requires forall i | 0 <= i < n :: !Recreates(steps[i], trace[i], k)
    ensures var h0, h1 := trace[0].queueBooks, trace[n].queueBooks;
            && |h1| == |h0| && h1[k].written == h0[k].written + AllWritten(trace, steps, replies, k, n)
            && h1[k].got == h0[k].got + AllRead(trace, steps, replies, k, n)
            && h1[k].nRead == h0[k].nRead + |AllRead(trace, steps, replies, k, n)|
  {
    hide IsRun, Answered, Follows, Sound, WrittenTo, ReadFrom, Recreates, Answer;
    if n > 0 {
      RunStep(trace, steps, n - 1);
      AnsweredStep(trace, steps, replies, n - 1);
      QueueBooksGrow(trace, steps, replies, k, n - 1);
      QueueStep(steps[n - 1], trace[n - 1], trace[n], replies[n - 1], k);
    }
  }

  lemma QueuesOf(w: World)
    requires Sound(w)
    ensures |w.queueBooks| == |w.queues| && Queue.QueuesOk(w.queues, w.queueBooks, w.c)
  {
    hide Queue.OneOk, Queue.CallsOk, WF;
  }

  /** What the books of a queue in use say. */
  lemma QueueInUse(w: World, k: nat)
    requires Sound(w) && k < |w.queues| && w.queues[k].used
    ensures |w.queueBooks| == |w.queues|
    ensures var h := w.queueBooks[k]; h.nRead <= |h.written| && h.got == h.written[..h.nRead]
  {
    QueuesOf(w);
    assert Queue.OneOk(w.queues, w.queueBooks, w.c, k);
    hide Sound, WF, Queue.WaitersOk, Queue.SlotOk;
  }

  /** Whatever else happens, the messages that reads hand back in a run are those that come next in the order of
      writing: none is lost, repeated, or overtaken. */
  lemma MessagesInOrder(trace: seq<World>, steps: seq<Step>, replies: seq<Reply>, k: nat, n: nat)
    requires IsRun(trace, steps) && Answered(trace, steps, replies) && n <= |steps| && k < |trace[0].queues|
             && k < |trace[n].queues|
    requires trace[0].queues[k].used && trace[n].queues[k].used
    requires forall i | 0 <= i < n :: !Recreates(steps[i], trace[i], k)
    ensures k < |trace[0].queueBooks| && k < |trace[n].queueBooks|
    ensures var h0, h1 := trace[0].queueBooks[k], trace[n].queueBooks[k];
            && h0.nRead <= h1.nRead <= |h1.written|
               && h1.written == h0.written + AllWritten(trace, steps, replies, k, n)
            && AllRead(trace, steps, replies, k, n) == h1.written[h0.nRead..h1.nRead]
  {
    QueueInUse(trace[0], k);
    QueueInUse(trace[n], k);
    QueueBooksGrow(trace, steps, replies, k, n);
    hide *;
  }

  // ---------------------------------------------------------------- mutexes

  /** A pend of `t` on mutex `k` returns OS_OK: at once, or after a hand-over. */
  predicate PendOk(s: Step, w: World, r: Reply, k: nat, t: Task)
  {
    r == Code(OS_OK) && w.run == t && ((s.MuxPend? && s.k == k) || ResumesOn(s, w, MuxL(k)))
  }

  predicate PostOk(s: Step, w: World, r: Reply, k: nat, t: Task)
  {
    r == Code(OS_OK) && w.run == t && s.MuxPost? && s.k == k
  }

  /** Pends on mutex `k` that returned OS_OK to `t` in the first `n` steps, less its posts that did. */
  function NetPends(trace: seq<World>, steps: seq<Step>, replies: seq<Reply>, k: nat, t: Task, n: nat): int
    requires n <= |steps| && n <= |replies| && n <= |trace|
  {
    if n == 0 then 0
    else
      var s, w, r := steps[n - 1], trace[n - 1], replies[n - 1];
      NetPends(trace, steps, replies, k, t, n - 1) + One(PendOk(s, w, r, k, t)) - One(PostOk(s, w, r, k, t))
  }

  /** What the ledger says `t` owes, but for a pend that has not returned yet. */
  ghost function Owed(w: World, k: nat, t: Task): int
    requires k < |w.muxBooks|
  {
    Mutex.DepthOf(w.muxBooks[k], t) - if t in Flying(w.c.flight, MuxL(k)) then 1 else 0
  }

  /** The step hands mutex `k` to `t`. */
  predicate PassesTo(s: Step, w: World, k: nat, t: Task)
  {
    GivesUp(s, w) && s.k == k && At(w.c.lists, MuxL(k)) != [] && At(w.c.lists, MuxL(k))[0] == t
  }

  predicate TakesFor(s: Step, w: World, k: nat, t: Task) { (Takes(s, w) || Nests(s, w)) && s.k == k && w.run == t }

  predicate PostsFor(s: Step, w: World, k: nat, t: Task) { PostsMux(s, w) && s.k == k && w.run == t }

  /** The call of `t` on mutex `k` comes to its end, not by a timeout. */
  predicate EndsFor(s: Step, w: World, k: nat, t: Task)
  {
    s.ResumeCall? && Back(w, false) && w.run == t && w.c.tcb[w.run].wait.id == MuxL(k)
  }

  lemma MuxAnswered(s: Step, w: World, r: Reply, k: nat, t: Task)
    requires r == Answer(s, w) && |w.muxBooks| == |w.muxes|
    ensures PendOk(s, w, r, k, t) <==> TakesFor(s, w, k, t) || EndsFor(s, w, k, t)
    ensures PostOk(s, w, r, k, t) <==> PostsFor(s, w, k, t)
  {
    AnswerIs(s, w);
    hide Answer, At;
  }

  lemma MuxStepBooks(s: Step, w: World, k: nat, t: Task)
    requires Sound(w) && k < |w.muxBooks|
    ensures var d := MuxBooksAfter(s, w);
            && |d| == |w.muxBooks|
            && Mutex.DepthOf(d[k], t) == Mutex.DepthOf(w.muxBooks[k], t) + (if TakesFor(s, w, k, t) then 1 else 0)
                                         + (if PassesTo(s, w, k, t) then 1 else 0) - (if PostsFor(s, w, k, t) then 1
                                           else 0)
  {
    if PostsMux(s, w) {
      MuxesOf(w);
      Mutex.OwnerThere(w.muxes, w.muxBooks, w.c, s.k);
      Mutex.CountedOthers(w.muxBooks[s.k], w.run, -1);
      var l := At(w.c.lists, MuxL(s.k));
      if l != [] { Mutex.CountedOthers(Mutex.Counted(w.muxBooks[s.k], w.run, -1), l[0], 1); }
    } else if Takes(s, w) || Nests(s, w) {
      Mutex.CountedOthers(w.muxBooks[s.k], w.run, 1);
    }
    PendOrPost(s, w);
    hide Sound, At, Mutex.MuxesOk, Mutex.Counted, Mutex.DepthOf, Takes, Nests, PostsMux;
  }

  /** A step is a pend or a post or neither, of a mutex that is there. */
  lemma PendOrPost(s: Step, w: World)
    ensures !((Takes(s, w) || Nests(s, w)) && PostsMux(s, w)) && !(Takes(s, w) && Nests(s, w))
    ensures (Takes(s, w) || Nests(s, w)) || PostsMux(s, w) ==>
              (s.MuxPend? || s.MuxPost?) && s.k < |w.muxBooks| && s.k < |w.muxes|
  {
  }

  lemma MuxesOf(w: World)
    requires Sound(w)
    ensures |w.muxBooks| == |w.muxes| && Mutex.MuxesOk(w.muxes, w.muxBooks, w.c)
  {
    hide Mutex.OneOk, WF;
  }

  /** Only a mutex that is given up wakes somebody who waits for one. */
  lemma WokenByPost(s: Step, w: World, k: nat, t: Task)
    ensures t in WokenBy(s, w) && WakesFrom(s, w) == MuxL(k) <==> PassesTo(s, w, k, t)
  {
    hide Reads, Writes, MailBack, At;
  }

  /** A task that has been handed the mutex and resumes is back without a timeout. */
  lemma ReturnsHanded(s: Step, w: World, k: nat, t: Task)
    requires Sound(w)
    ensures Returns(s, w) && w.run == t && t in Flying(w.c.flight, MuxL(k)) <==> EndsFor(s, w, k, t)
  {
    OrderedHere(w);
    FlightIs(w.c, MuxL(k), t);
    if t in w.c.tcb && w.c.tcb[t].ready { assert TcbOk(w.c.tcb[t]); }
    hide Sound, Flying;
  }

  lemma OwedStep(s: Step, w: World, w': World, r: Reply, k: nat, t: Task)
    requires Follows(s, w, w') && Sound(w) && Sound(w') && k < |w.muxBooks| && r == Answer(s, w)
    ensures |w'.muxBooks| == |w.muxBooks|
    ensures Owed(w', k, t) == Owed(w, k, t) + One(PendOk(s, w, r, k, t)) - One(PostOk(s, w, r, k, t))
  {
    MuxesOf(w);
    MuxAnswered(s, w, r, k, t);
    MuxStepBooks(s, w, k, t);
    FlightStep(s, w, w', MuxL(k), t);
    WokenByPost(s, w, k, t);
    ReturnsHanded(s, w, k, t);
    if PassesTo(s, w, k, t) { NotYetHanded(s, w, k, t); }
    TakersAreFree(s, w, k, t);
    hide Sound, Answer, MuxBooksAfter, PendOk, PostOk, TakesFor, PassesTo, PostsFor, EndsFor, Returns, Flying, WokenBy,
      WakesFrom, Priorities, Time, MailFollows, Mutex.DepthOf, Mutex.MuxesOk;
  }

  lemma NotYetHanded(s: Step, w: World, k: nat, t: Task)
    requires Sound(w) && PassesTo(s, w, k, t)
    ensures t !in Flying(w.c.flight, MuxL(k)) && !EndsFor(s, w, k, t)
  {
    WokenByPost(s, w, k, t);
    WokenWaits(s, w, t);
    OrderedHere(w);
    FlightIs(w.c, MuxL(k), t);
    hide Sound, WF, WokenBy, Flying, WakesFrom, StageOf, GivesUp;
  }

  lemma TakersAreFree(s: Step, w: World, k: nat, t: Task)
    ensures !(TakesFor(s, w, k, t) && EndsFor(s, w, k, t))
  {
  }

  lemma {:induction false} PendsCounted(trace: seq<World>, steps: seq<Step>, replies: seq<Reply>, k: nat, t: Task,
                                        n: nat)
    requires IsRun(trace, steps) && Answered(trace, steps, replies) && n <= |steps| && k < |trace[0].muxBooks|
    ensures |trace[n].muxBooks| == |trace[0].muxBooks|
    ensures Owed(trace[n], k, t) == Owed(trace[0], k, t) + NetPends(trace, steps, replies, k, t, n)
  {
    hide IsRun, Answered, Follows, Sound, PendOk, PostOk, Owed, Answer, One;
    if n > 0 {
      RunStep(trace, steps, n - 1);
      AnsweredStep(trace, steps, replies, n - 1);
      PendsCounted(trace, steps, replies, k, t, n - 1);
      OwedStep(steps[n - 1], trace[n - 1], trace[n], replies[n - 1], k, t);
    }
  }

  /** In a run from a state in which nobody has mutex `k`, its count is at every moment the number of pends that have
      returned OS_OK to its owner, less the owner's posts that have, and one more if it has been handed over and its
      owner has not run yet; everybody else has posted as often as its pends returned OS_OK. */
  lemma PendsAddUp(trace: seq<World>, steps: seq<Step>, replies: seq<Reply>, k: nat, t: Task, n: nat)
    requires IsRun(trace, steps) && Answered(trace, steps, replies) && n <= |steps|
    requires k < |trace[0].muxes| && !Mutex.Held(trace[0].muxes[k])
    ensures k < |trace[n].muxes|
    ensures var w := trace[n]; var m := w.muxes[k];
            NetPends(trace, steps, replies, k, t, n) + One(t in Flying(w.c.flight, MuxL(k)))
            == if Mutex.Held(m) && m.pstOwner == t then m.usMuxCount else 0
  {
    MuxesOf(trace[0]);
    MuxesOf(trace[n]);
    PendsCounted(trace, steps, replies, k, t, n);
    DepthIs(trace[0], k, t);
    DepthIs(trace[n], k, t);
    hide Sound, Story, AllSound, IsRun, Answered, NetPends, Mutex.DepthOf, Mutex.MuxesOk, Flying;
  }

  lemma DepthIs(w: World, k: nat, t: Task)
    requires Mutex.MuxesOk(w.muxes, w.muxBooks, w.c) && k < |w.muxes| == |w.muxBooks|
    ensures Mutex.DepthOf(w.muxBooks[k], t) == if Mutex.Held(w.muxes[k]) && w.muxes[k].pstOwner == t
            then w.muxes[k].usMuxCount else 0
    ensures !Mutex.Held(w.muxes[k]) ==> t !in Flying(w.c.flight, MuxL(k))
  {
    assert Mutex.OneOk(w.muxes, w.muxBooks, w.c, k);
  }

  /** A mutex that is given up goes to the task that began to wait for it first. */
  lemma FirstComeFirstOwner(s: Step, w: World, w': World)
    requires Sound(w) && Follows(s, w, w') && GivesUp(s, w)
    ensures s.k < |w'.muxes| && |w'.muxes| == |w.muxes|
    ensures var l, m := At(w.c.lists, MuxL(s.k)), w'.muxes[s.k];
            if l == [] then !Mutex.Held(m)
            else
              && Mutex.Held(m) && m.usMuxCount == 1 && m.pstOwner in l
              && forall u | u in l :: StampOf(w.c.stamp, m.pstOwner) <= StampOf(w.c.stamp, u)
  {
    hide Priorities, Time, MailFollows, Mutex.MuxesOk;
    var l := At(w.c.lists, MuxL(s.k));
    if l != [] {
      OrderedHere(w);
      HeadCameFirst(w.c, MuxL(s.k));
    }
    hide Sound, WF, At;
  }

  // ---------------------------------------------------------------- priorities, whatever the order of releases

  predicate HoldsNothing(w: World, t: Task)
  {
    forall k: nat | k < |w.muxes| :: !Mutex.Owns(w.muxes, t, k)
  }

  /** No priority is set that is more urgent than one saved by a mutex of the same task. */
  predicate Gentle(s: Step, w: World)
  {
    Sets(s, w) ==> Mutex.MildSet(w.muxes, s.t, s.usTaskPrio)
  }

  lemma {:induction false} StaysMild(trace: seq<World>, steps: seq<Step>, n: nat)
    requires IsRun(trace, steps) && n <= |steps| && trace[0].mild && forall i | 0 <= i < n :: Gentle(steps[i], trace[i])
    ensures trace[n].mild
  {
    hide IsRun, Sound, Priorities, Time, MailFollows, Mutex.MildSet, Sets;
    if n > 0 {
      RunStep(trace, steps, n - 1);
      StaysMild(trace, steps, n - 1);
      assert Gentle(steps[n - 1], trace[n - 1]);
    }
  }

  /** In every run without a priority set above a saved one, with mutexes released in whatever order, no task is ever
      less urgent than its own priority. */
  lemma NeverBelowOwn(trace: seq<World>, steps: seq<Step>, t: Task, n: nat)
    requires IsRun(trace, steps) && n <= |steps| && trace[0].mild && t in trace[n].c.tcb
    requires forall i | 0 <= i < n :: Gentle(steps[i], trace[i])
    ensures var w := trace[n]; t in w.base && w.c.tcb[t].usPriority <= w.base[t]
  {
    StaysMild(trace, steps, n);
    BoundHere(trace[n], t);
    hide Sound, Story;
  }

  /** A mild state bounds every priority. */
  lemma BoundHere(w: World, t: Task)
    requires Sound(w) && w.mild
    ensures t in w.c.tcb ==> t in w.base && w.c.tcb[t].usPriority <= w.base[t]
  {
    hide WF, Mutex.MuxesOk, Mutex.Stacks, Mutex.Ladders, Semaphore.SemsOk, Queue.QueuesOk;
  }

  // ---------------------------------------------------------------- ... released last in, first out

  /** A mutex given up is the one that its owner got last, and no priority is set over a held mutex. */
  predicate LastInFirstOut(s: Step, w: World)
  {
    && (GivesUp(s, w) ==> var st := Mutex.StackOf(w.stack, w.run); st != [] && st[|st| - 1] == s.k)
    && (Sets(s, w) ==> Mutex.StackOf(w.stack, s.t) == [])
  }

  lemma {:induction false} StaysOrderly(trace: seq<World>, steps: seq<Step>, n: nat)
    requires IsRun(trace, steps) && n <= |steps| && trace[0].orderly
             && forall i | 0 <= i < n :: LastInFirstOut(steps[i], trace[i])
    ensures trace[n].orderly
  {
    hide IsRun, Sound, Priorities, Time, MailFollows, Sets;
    if n > 0 {
      RunStep(trace, steps, n - 1);
      StaysOrderly(trace, steps, n - 1);
      assert LastInFirstOut(steps[n - 1], trace[n - 1]);
    }
  }

  /** In every run in which mutexes are released last in, first out, and no priority is set over a held mutex, no task
      is ever less urgent than its own priority, and a task that holds nothing is exactly at it. */
  lemma LifoDiscipline(trace: seq<World>, steps: seq<Step>, t: Task, n: nat)
    requires IsRun(trace, steps) && n <= |steps| && trace[0].orderly && t in trace[n].c.tcb
    requires forall i | 0 <= i < n :: LastInFirstOut(steps[i], trace[i])
    ensures var w := trace[n];
            && t in w.base && w.c.tcb[t].usPriority <= w.base[t]
            && (HoldsNothing(w, t) ==> w.c.tcb[t].usPriority == w.base[t])
  {
    StaysOrderly(trace, steps, n);
    var w := trace[n];
    assert Sound(w);
    LaddersOf(w);
    hide WF, Sound, Mutex.Stacks, Mutex.Ladders, Story, AllSound;
    Mutex.LadderHere(w.muxes, w.stack, w.c.tcb, w.base, t);
  }

  lemma LaddersOf(w: World)
    requires Sound(w) && w.orderly
    ensures Mutex.Stacks(w.muxes, w.stack) && Mutex.Ladders(w.muxes, w.stack, w.c.tcb, w.base)
  {
    hide WF, Mutex.Stacks, Mutex.Ladders, Mutex.MuxesOk;
  }

  // ---------------------------------------------------------------- ... and exactly when a task is back at its own

  /** The step makes `t` give up the only mutex that it holds. */
  predicate LetsGo(s: Step, w: World, t: Task)
  {
    GivesUp(s, w) && w.run == t && forall k: nat | k < |w.muxes| && k != s.k :: !Mutex.Owns(w.muxes, t, k)
  }

  /** A task that gives up its only mutex is at its own priority afterwards if and only if that is the priority saved in
      it. */
  lemma FreeTaskPriority(s: Step, w: World, w': World, t: Task)
    requires Sound(w) && Follows(s, w, w') && LetsGo(s, w, t) && t in w.base
    ensures HoldsNothing(w', t) && t in w'.c.tcb && t in w'.base
    ensures w'.c.tcb[t].usPriority == w'.base[t] <==> w.muxes[s.k].usPriority == w.base[t]
  {
    MuxesOf(w);
    Mutex.OwnerThere(w.muxes, w.muxBooks, w.c, s.k);
    NobodysOrAnothers(s, w, w'.muxes, t);
    hide Sound, Time, MailFollows, Mutex.MuxesOk, At, MuxesAfter, MuxBooksAfter, StackAfter, EventsAfter, SemBooksAfter,
      QueueBooksAfter;
  }

  lemma NobodysOrAnothers(s: Step, w: World, muxes: seq<Mutex.Mux>, t: Task)
    requires LetsGo(s, w, t) && t !in At(w.c.lists, MuxL(s.k)) && muxes == MuxesAfter(s, w)
    ensures forall k: nat | k < |muxes| :: !Mutex.Owns(muxes, t, k)
  {
    hide At;
    var l := At(w.c.lists, MuxL(s.k));
    assert l != [] ==> l[0] in l;
    forall k: nat | k < |muxes| ensures !Mutex.Owns(muxes, t, k) {
      if k != s.k {
        assert muxes[k] == w.muxes[k] && !Mutex.Owns(w.muxes, t, k);
      } else {
        assert muxes[k] == if l == [] then w.muxes[k].(usMuxCount := 0)
          else Mutex.Mux(true, 1, l[0], PriorityOf(w.c, l[0]));
      }
    }
  }

  /** A mutex changes hands only when its owner gives it up. */
  lemma StillOwns(s: Step, w: World, k: nat, t: Task)
    requires k < |w.muxes| && Mutex.Owns(w.muxes, t, k) && !(GivesUp(s, w) && s.k == k)
    ensures Mutex.Owns(MuxesAfter(s, w), t, k)
  {
    hide At;
  }

  predicate SetFor(s: Step, w: World, t: Task) { (Creates(s, w) || Sets(s, w)) && s.t == t }

  /** The last time in the first `n` steps that `t` gave up its only mutex, or was given a priority, left it at its
      own. */
  predicate LeftAtOwn(trace: seq<World>, steps: seq<Step>, t: Task, n: nat)
    requires n <= |steps| && n < |trace|
  {
    if n == 0 then t in trace[0].c.tcb && t in trace[0].base && trace[0].c.tcb[t].usPriority == trace[0].base[t]
    else
      var s, w := steps[n - 1], trace[n - 1];
      if SetFor(s, w, t) then true
      else if LetsGo(s, w, t) then t in w.base && w.muxes[s.k].usPriority == w.base[t]
      else LeftAtOwn(trace, steps, t, n - 1)
  }

  /** A step that neither sets the priority of a task nor frees it of its last mutex leaves it as it is, if it holds
      nothing afterwards. */
  lemma IdleTask(s: Step, w: World, w': World, t: Task)
    requires Follows(s, w, w') && HoldsNothing(w', t) && t in w'.c.tcb && !SetFor(s, w, t) && !LetsGo(s, w, t)
    ensures HoldsNothing(w, t) && t in w.c.tcb && w'.c.tcb[t].usPriority == w.c.tcb[t].usPriority
    ensures (t in w'.base <==> t in w.base) && (t in w.base ==> w'.base[t] == w.base[t])
  {
    forall k: nat | k < |w.muxes| ensures !Mutex.Owns(w.muxes, t, k) {
      if Mutex.Owns(w.muxes, t, k) {
        NotTheLast(s, w, w', k, t);
      }
    }
    NotItsDoing(s, w, t);
    hide MuxesAfter, Time, MailFollows, MuxBooksAfter, StackAfter, PriorityAfter, EventsAfter, SemBooksAfter,
      QueueBooksAfter;
  }

  /** Only an owner's priority follows a mutex. */
  lemma NotItsDoing(s: Step, w: World, t: Task)
    requires HoldsNothing(w, t) && !SetFor(s, w, t)
    ensures PriorityAfter(s, w, t) == PriorityOf(w.c, t)
  {
    if (MuxWaits(s, w) && t == w.muxes[s.k].pstOwner) || (GivesUp(s, w) && t == w.run) {
      assert Mutex.Owns(w.muxes, t, s.k);
    }
  }

  lemma NotTheLast(s: Step, w: World, w': World, k: nat, t: Task)
    requires w'.muxes == MuxesAfter(s, w) && k < |w.muxes| && Mutex.Owns(w.muxes, t, k) && !LetsGo(s, w, t)
    ensures !HoldsNothing(w', t)
  {
    if GivesUp(s, w) && s.k == k {
      var j: nat :| j < |w.muxes| && j != s.k && Mutex.Owns(w.muxes, t, j);
      StillOwns(s, w, j, t);
    } else {
      StillOwns(s, w, k, t);
    }
    hide MuxesAfter;
  }

  /** In every run, however mutexes are released and priorities are set: a task that holds nothing is at its own
      priority if and only if the last time that it gave up its only mutex, or was given a priority, left it there. */
  lemma {:induction false} FreeTasksAtOwn(trace: seq<World>, steps: seq<Step>, t: Task, n: nat)
    requires IsRun(trace, steps) && n <= |steps| && trace[0].c.tcb.Keys <= trace[0].base.Keys
    requires t in trace[n].c.tcb && HoldsNothing(trace[n], t)
    ensures t in trace[n].base && (trace[n].c.tcb[t].usPriority == trace[n].base[t] <==> LeftAtOwn(trace, steps, t, n))
  {
    hide IsRun, Follows, Sound, SetFor, GivesUp, HoldsNothing;
    if n > 0 {
      var s, w, w' := steps[n - 1], trace[n - 1], trace[n];
      RunStep(trace, steps, n - 1);
      if SetFor(s, w, t) {
        SetAtOwn(s, w, w', t);
      } else if LetsGo(s, w, t) {
        OwnKnown(trace, steps, t, n - 1);
        RunnerThere(s, w, t);
        FreeTaskPriority(s, w, w', t);
      } else {
        IdleTask(s, w, w', t);
        FreeTasksAtOwn(trace, steps, t, n - 1);
      }
    }
  }

  lemma RunnerThere(s: Step, w: World, t: Task)
    requires LetsGo(s, w, t)
    ensures t in w.c.tcb && GivesUp(s, w)
  {
  }

  lemma SetAtOwn(s: Step, w: World, w': World, t: Task)
    requires Follows(s, w, w') && SetFor(s, w, t) && t in w'.c.tcb
    ensures t in w'.base && w'.c.tcb[t].usPriority == w'.base[t]
  {
    hide MuxesAfter, Time, MailFollows, MuxBooksAfter, StackAfter;
  }

  /** Every task has an own priority. */
  lemma {:induction false} OwnKnown(trace: seq<World>, steps: seq<Step>, t: Task, n: nat)
    requires IsRun(trace, steps) && n <= |steps| && trace[0].c.tcb.Keys <= trace[0].base.Keys
    ensures t in trace[n].c.tcb ==> t in trace[n].base
  {
    hide IsRun, Sound, MuxesAfter, Time, MailFollows, MuxBooksAfter, StackAfter;
    if n > 0 {
      RunStep(trace, steps, n - 1);
      OwnKnown(trace, steps, t, n - 1);
    }
  }

  // ---------------------------------------------------------------- who runs

  /** A `LOS_Schedule` that is not locked runs the first of the most urgent ready tasks, if anybody is ready. */
  lemma ElectedRuns(s: Step, w: World, w': World, t: Task)
    requires Follows(s, w, w') && Sound(w') && t in w.c.tcb && w.c.tcb[t].ready
    ensures !(s.Schedule? && w.lock == 0) ==> w'.run == w.run
    ensures s.Schedule? && w.lock == 0 ==>
              && MostUrgent(w'.c, w'.run) && t in w'.c.tcb && w'.c.tcb[t] == w.c.tcb[t]
                 && w'.c.tcb[w'.run].usPriority <= w'.c.tcb[t].usPriority
              && (w'.mild ==> t in w'.base && w'.c.tcb[w'.run].usPriority <= w'.base[t])
  {
    if s.Schedule? && w.lock == 0 && w'.mild { BoundHere(w', t); }
    hide Sound, Priorities, MailFollows, At;
  }

  /** In every run without a priority set above a saved one, every `LOS_Schedule` that is not locked leaves running the
      first of the most urgent ready tasks, which is at least as urgent as any ready task is by its own priority,
      however many mutexes they hold; and nothing else changes who runs. */
  lemma MostUrgentRuns(trace: seq<World>, steps: seq<Step>, t: Task, n: nat)
    requires IsRun(trace, steps) && n < |steps| && t in trace[n].c.tcb && trace[n].c.tcb[t].ready
    requires trace[0].mild && forall i | 0 <= i <= n :: Gentle(steps[i], trace[i])
    ensures !(steps[n].Schedule? && trace[n].lock == 0) ==> trace[n + 1].run == trace[n].run
    ensures steps[n].Schedule? && trace[n].lock == 0 ==>
              var w := trace[n + 1];
              && MostUrgent(w.c, w.run) && t in w.c.tcb && w.c.tcb[w.run].usPriority <= w.c.tcb[t].usPriority
              && t in w.base && w.c.tcb[w.run].usPriority <= w.base[t]
  {
    StaysMild(trace, steps, n + 1);
    RunStep(trace, steps, n);
    ElectedRuns(steps[n], trace[n], trace[n + 1], t);
    hide *;
  }

  // ---------------------------------------------------------------- time

  function Ticks(steps: seq<Step>, n: nat): nat
    requires n <= |steps|
  {
    if n == 0 then 0 else Ticks(steps, n - 1) + One(steps[n - 1].Tick?)
  }

  /** A call of `t` is waiting with `n` ticks to go. */
  predicate WaitsStill(c: Core, t: Task, wait: Wait, n: int)
  {
    t in c.tcb && wait.Waiting? && c.tcb[t].wait == wait && StageOf(c.tcb[t]) == Pending && t in c.rem && c.rem[t] == n
  }

  /** The tick ended the call of `t`. */
  predicate HasTimedOut(c: Core, t: Task, wait: Wait)
  {
    t in c.tcb && c.tcb[t].wait == wait && StageOf(c.tcb[t]) == Late && t !in c.rem && t in c.out
      && c.out[t] == [TimedOut]
  }

  /** The timeout argument of a call that may wait. */
  function TimeoutOf(s: Step): nat
  {
    match s
    case SemPend(_, uwTimeout, _) => uwTimeout
    case MuxPend(_, uwTimeout, _) => uwTimeout
    case EventRead(_, _, _, uwTimeout, _) => uwTimeout
    case QueueRead(_, _, _, uwTimeout, _) => uwTimeout
    case QueueWrite(_, _, _, uwTimeout, _) => uwTimeout
    case MailAlloc(uwTimeout, _) => uwTimeout
    case _ => 0
  }

  /** A call that has to wait waits with just as many ticks to go as it said, or without a timer if it said forever. */
  lemma WaitBegins(s: Step, w: World, w': World)
    requires Sound(w) && Follows(s, w, w') && Waits(s, w)
    ensures if TimeoutOf(s) == WAIT_FOREVER then WaitsForever(w'.c, w.run, WaitOf(s, w))
            else WaitsStill(w'.c, w.run, WaitOf(s, w), TimeoutOf(s))
  {
    WaitsOnSomething(s, w);
    WaitsFree(s, w);
    OrderedHere(w);
    NoTimerReady(w.c, w.run);
    TimePasses(s, w, w');
    hide Sound, WF, Follows, WokenBy, WaitOf, Waits, Moves, Lined, Suspension;
  }

  lemma NoTimerReady(c: Core, t: Task)
    requires WF(c) && t in c.tcb && c.tcb[t].ready
    ensures t !in c.rem
  {
    BitsAt(c.tcb, t);
    assert Timers(c.tcb, c.rem);
  }

  lemma WaitsOnSomething(s: Step, w: World)
    requires Waits(s, w)
    ensures WaitOf(s, w).Waiting? && !s.Tick? && MayStart(s) && !s.TaskDelay? && TimeoutOf(s) == s.uwTimeout
  {
  }

  lemma TickPasses(w: World, w': World, t: Task, wait: Wait, n: nat)
    requires Sound(w) && Sound(w') && Follows(Step.Tick, w, w') && WaitsStill(w.c, t, wait, n) && n > 0
    ensures if n > 1 then WaitsStill(w'.c, t, wait, n - 1) else HasTimedOut(w'.c, t, wait)
  {
    OrderedHere(w');
    WaitsOutside(Step.Tick, w, t);
    WakersDoNotTick(Step.Tick, w);
    CallStep(Step.Tick, w, w', t);
    if n == 1 { LateIs(w'.c, t); }
    hide Sound, WF, Priorities, MailFollows, MuxesAfter, WokenBy, OwnDoing, StageOf;
  }

  /** A timeout is on record, and its timer gone. */
  lemma LateIs(c: Core, t: Task)
    requires WF(c) && t in c.tcb && StageOf(c.tcb[t]) == Late
    ensures t !in c.rem && t in c.out && c.out[t] == [TimedOut]
  {
    BitsAt(c.tcb, t);
    assert Timers(c.tcb, c.rem) && Resolved(c.tcb, c.out);
  }

  lemma WaitsOutside(s: Step, w: World, t: Task)
    requires Sound(w) && t in w.c.tcb && StageOf(w.c.tcb[t]) == Pending
    ensures !OwnDoing(s, w, t) && !(w.run == t && Sleeps(s, w))
  {
    OrderedHere(w);
    PendingNotReady(w.c, t);
    DoersAreReady(s, w, t);
    hide *;
  }

  lemma PendingNotReady(c: Core, t: Task)
    requires WF(c) && t in c.tcb && StageOf(c.tcb[t]) == Pending
    ensures !c.tcb[t].ready
  {
    BitsAt(c.tcb, t);
    hide WF;
  }

  lemma DoersAreReady(s: Step, w: World, t: Task)
    ensures OwnDoing(s, w, t) || (w.run == t && Sleeps(s, w)) ==> t in w.c.tcb && w.c.tcb[t].ready
  {
    if Waits(s, w) { WaitsFree(s, w); }
    hide Waits, WokenBy;
  }

  lemma StepPasses(s: Step, w: World, w': World, t: Task, wait: Wait, n: int)
    requires Sound(w) && Follows(s, w, w') && !s.Tick? && WaitsStill(w.c, t, wait, n) && t !in WokenBy(s, w)
    ensures WaitsStill(w'.c, t, wait, n)
  {
    WaitsOutside(s, w, t);
    CallStep(s, w, w', t);
    TimerStep(s, w, w', t);
    hide Sound, Follows, WokenBy, StageOf, OwnDoing, Sleeps;
  }

  /** A timer runs on, but for the running task's own and those that are stopped. */
  lemma TimerStep(s: Step, w: World, w': World, t: Task)
    requires Follows(s, w, w') && !s.Tick? && t !in WokenBy(s, w) && !OwnDoing(s, w, t) && !(w.run == t && Sleeps(s, w))
    ensures t in w.c.rem ==> t in w'.c.rem && w'.c.rem[t] == w.c.rem[t]
  {
    hide Priorities, MailFollows, MuxesAfter, WokenBy, CallsStay, WaitOf, Waits, Returns, Sleeps, StageOf;
  }

  /** In every run in which nobody grants it, a wait with `ticks` to go goes on until its last tick, and times out at
      exactly that tick, whatever other tasks and interrupts do meanwhile. */
  lemma {:induction false} TimesOutOnTime(trace: seq<World>, steps: seq<Step>, t: Task, wait: Wait, ticks: nat, n: nat)
    requires IsRun(trace, steps) && n <= |steps| && WaitsStill(trace[0].c, t, wait, ticks) && ticks > 0
    requires forall i | 0 <= i < n :: t !in WokenBy(steps[i], trace[i])
    ensures Ticks(steps, n) < ticks ==> WaitsStill(trace[n].c, t, wait, ticks - Ticks(steps, n))
    ensures Ticks(steps, n) == ticks && steps[n - 1].Tick? ==> HasTimedOut(trace[n].c, t, wait)
  {
    hide IsRun, Follows, Sound, WokenBy, WaitsStill, HasTimedOut;
    if n > 0 {
      RunStep(trace, steps, n - 1);
      TimesOutOnTime(trace, steps, t, wait, ticks, n - 1);
      var left := ticks - Ticks(steps, n - 1);
      if left > 0 {
        if steps[n - 1].Tick? {
          TickPasses(trace[n - 1], trace[n], t, wait, left);
        } else {
          StepPasses(steps[n - 1], trace[n - 1], trace[n], t, wait, left);
        }
      }
    }
  }

  /** A call of `t` waits forever. */
  predicate WaitsForever(c: Core, t: Task, wait: Wait)
  {
    t in c.tcb && wait.Waiting? && c.tcb[t].wait == wait && StageOf(c.tcb[t]) == Pending && t !in c.rem
  }

  lemma ForeverStep(s: Step, w: World, w': World, t: Task, wait: Wait)
    requires Sound(w) && Follows(s, w, w') && WaitsForever(w.c, t, wait) && t !in WokenBy(s, w)
    ensures WaitsForever(w'.c, t, wait)
  {
    WaitsOutside(s, w, t);
    CallStep(s, w, w', t);
    NoTimerYet(s, w, w', t);
    hide Sound, Follows, WokenBy, StageOf, OwnDoing, Sleeps;
  }

  lemma NoTimerYet(s: Step, w: World, w': World, t: Task)
    requires Follows(s, w, w') && !OwnDoing(s, w, t) && !(w.run == t && Sleeps(s, w))
    ensures t !in w.c.rem ==> t !in w'.c.rem
  {
    hide Priorities, MailFollows, MuxesAfter, WokenBy, CallsStay, WaitOf, Waits, Returns, Sleeps, StageOf;
  }

  /** In every run in which nobody grants it, a call that waits forever goes on waiting: no tick ends it. */
  lemma {:induction false} WaitsOn(trace: seq<World>, steps: seq<Step>, t: Task, wait: Wait, n: nat)
    requires IsRun(trace, steps) && n <= |steps| && WaitsForever(trace[0].c, t, wait)
    requires forall i | 0 <= i < n :: t !in WokenBy(steps[i], trace[i])
    ensures WaitsForever(trace[n].c, t, wait)
  {
    hide IsRun, Follows, Sound, WokenBy, WaitsForever;
    if n > 0 {
      RunStep(trace, steps, n - 1);
      WaitsOn(trace, steps, t, wait, n - 1);
      ForeverStep(steps[n - 1], trace[n - 1], trace[n], t, wait);
    }
  }
}
