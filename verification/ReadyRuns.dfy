/** Whole runs of the kernel, seen from the ready lists: who is ready when, who runs first, and whom a lifted owner
    holds up (kernel/base/core/los_priqueue.c, los_task.c). */
module ReadyRuns {
  import opened DeltaList
  import opened Ledger
  import opened Runs
  import opened Soundness
  import opened Steps
  import opened Tasks
  import opened TaskSystem
  import Event
  import Mutex
  import Wheel

  // ---------------------------------------------------------------- suspended tasks

  /** The step suspends `t`. */
  predicate Suspends(s: Step, w: World, t: Task) { s.TaskSuspend? && s.t == t && Turns(s, w) }

  predicate Frees(s: Step, w: World, t: Task) { s.TaskResume? && s.t == t && Turns(s, w) }

  /** Nothing but a suspension and its end changes whether a task is suspended. */
  lemma SuspensionStep(s: Step, w: World, w': World, t: Task)
    requires Follows(s, w, w') && t in w.c.tcb
    ensures t in w'.c.tcb
            && w'.c.tcb[t].suspend == if Suspends(s, w, t) then true else if Frees(s, w, t) then false
            else w.c.tcb[t].suspend
  {
    hide *;
    TimePasses(s, w, w');
    SuspensionAfter(s, w, w'.c);
    SuspendedNow(s, w, w'.c, t);
  }

  lemma SuspendedNow(s: Step, w: World, c: Core, t: Task)
    requires (c == w.c && !Turns(s, w)) || Suspension(w.c, c, Turning(s, w))
    requires t in w.c.tcb
    ensures t in c.tcb && c.tcb[t].suspend == if Suspends(s, w, t) then true else if Frees(s, w, t) then false
            else w.c.tcb[t].suspend
  {
    NotTurned(s, w);
    hide Turns;
  }

  /** Whose suspension the step sets, and how. */
  function Turning(s: Step, w: World): map<Task, bool>
  {
    if s.TaskSuspend? && Turns(s, w) then map[s.t := true]
    else if s.TaskResume? && Turns(s, w) then map[s.t := false] else map[]
  }

  lemma SuspensionAfter(s: Step, w: World, c: Core)
    requires Time(s, w, c)
    ensures (c == w.c && !Turns(s, w)) || Suspension(w.c, c, Turning(s, w))
  {
    NotTurned(s, w);
    hide Suspension, Waits, Sleeps, Returns, Turns, WokenBy, Moves, Lined, WaitOf, CallsStay;
  }

  lemma NotTurned(s: Step, w: World)
    ensures Turns(s, w) ==>
              (s.TaskSuspend? || s.TaskResume?) && !Waits(s, w) && !Sleeps(s, w) && !Returns(s, w) && !s.Tick?
              && !s.Schedule?
  {
    hide TaskAnswer;
  }

  // ---------------------------------------------------------------- whoever is handed something is ready

  /** Whoever has been handed something, and does not sleep on in a suspension, is ready. */
  lemma HandedReady(c: Core, t: Task)
    requires WF(c) && t in c.tcb && StageOf(c.tcb[t]) == Handed
    ensures c.tcb[t].ready <==> !c.tcb[t].suspend
    ensures c.tcb[t].ready ==> t in At(c.lists, Ready(c.tcb[t].usPriority))
  {
    BitsAt(c.tcb, t);
    ReadyListed(c, t, c.tcb[t].usPriority);
    hide WF, At;
  }

  /** A hand-over makes its receiver ready, at the end of the ready list of its priority, unless it is suspended; and it
      leaves alone whether it is. */
  lemma HandOverReadies(s: Step, w: World, w': World, t: Task)
    requires Sound(w) && Sound(w') && Follows(s, w, w') && t in WokenBy(s, w)
    ensures t in w.c.tcb && t in w'.c.tcb && !w.c.tcb[t].ready && StageOf(w'.c.tcb[t]) == Handed
    ensures w'.c.tcb[t].suspend == w.c.tcb[t].suspend && (w'.c.tcb[t].ready <==> !w.c.tcb[t].suspend)
  {
    WokenWaits(s, w, t);
    WaitsOutside(s, w, t);
    CallStep(s, w, w', t);
    SuspensionStep(s, w, w', t);
    WakersTurnNobody(s, w, t);
    OrderedHere(w');
    HandedReady(w'.c, t);
    hide *;
  }

  lemma WakersTurnNobody(s: Step, w: World, t: Task)
    ensures t in WokenBy(s, w) ==> !Suspends(s, w, t) && !Frees(s, w, t)
  {
    hide Reads, Writes, GivesUp, MailBack, At, Event.MetBy, TaskAnswer;
  }

  /** `t` has been handed something, has not come back to its call, and is not suspended. */
  ghost predicate HandedFree(c: Core, t: Task)
  {
    t in c.tcb && StageOf(c.tcb[t]) == Handed && !c.tcb[t].suspend
  }

  lemma StillHanded(s: Step, w: World, w': World, t: Task)
    requires Sound(w) && Follows(s, w, w') && HandedFree(w.c, t) && !OwnDoing(s, w, t) && !Suspends(s, w, t)
    ensures HandedFree(w'.c, t)
  {
    CallStep(s, w, w', t);
    SuspensionStep(s, w, w', t);
    if t in WokenBy(s, w) { WokenWaits(s, w, t); }
    ExpiresPending(s, w, t);
    hide Sound, Follows, WokenBy, OwnDoing, StageOf, Expires, Suspends, Frees;
  }

  /** From the step that hands something to a task until the task comes back to its call, it is ready all the time and
      stands on the ready list of its priority, unless somebody suspends it: no hand-over is lost on its receiver. */
  lemma {:induction false} HandedStaysReady(trace: seq<World>, steps: seq<Step>, t: Task, n: nat)
    requires IsRun(trace, steps) && 0 < n <= |steps| && t in WokenBy(steps[0], trace[0])
    requires t in trace[0].c.tcb ==> !trace[0].c.tcb[t].suspend
    requires forall i | 0 <= i < n :: !Suspends(steps[i], trace[i], t) && (i > 0 ==> !OwnDoing(steps[i], trace[i], t))
    ensures HandedFree(trace[n].c, t)
    ensures t in trace[n].c.tcb && trace[n].c.tcb[t].ready
            && t in At(trace[n].c.lists, Ready(trace[n].c.tcb[t].usPriority))
  {
    hide IsRun, Follows, Sound, WokenBy, OwnDoing, StageOf, Suspends, At;
    RunStep(trace, steps, n - 1);
    if n == 1 {
      HandOverReadies(steps[0], trace[0], trace[1], t);
    } else {
      HandedStaysReady(trace, steps, t, n - 1);
      StillHanded(steps[n - 1], trace[n - 1], trace[n], t);
    }
    OrderedHere(trace[n]);
    HandedReady(trace[n].c, t);
  }

  // ---------------------------------------------------------------- sleepers

  /** `t`, which is not suspended, sleeps with `n` ticks to go. */
  predicate SleepsStill(c: Core, t: Task, n: int)
  {
    t in c.tcb && c.tcb[t].wait.NoWait? && !c.tcb[t].suspend && t in c.rem && c.rem[t] == n
  }

  predicate Awake(c: Core, t: Task)
  {
    t in c.tcb && c.tcb[t].wait.NoWait? && c.tcb[t].ready && t in At(c.lists, Ready(c.tcb[t].usPriority))
  }

  /** A sleeper is not ready; without its timer it is. */
  lemma SleepersRest(c: Core, t: Task)
    requires WF(c) && t in c.tcb && c.tcb[t].wait.NoWait? && !c.tcb[t].suspend
    ensures if t in c.rem then !c.tcb[t].ready && StageOf(c.tcb[t]) == Idle else Awake(c, t)
  {
    BitsAt(c.tcb, t);
    ReadyListed(c, t, c.tcb[t].usPriority);
    assert Timers(c.tcb, c.rem);
    hide WF, At;
  }

  lemma SleeperOutside(s: Step, w: World, t: Task, n: int)
    requires Sound(w) && SleepsStill(w.c, t, n)
    ensures !OwnDoing(s, w, t) && !(w.run == t && Sleeps(s, w)) && t !in WokenBy(s, w) && !Expires(s, w, t)
  {
    OrderedHere(w);
    SleepersRest(w.c, t);
    DoersAreReady(s, w, t);
    if t in WokenBy(s, w) { WokenWaits(s, w, t); }
    ExpiresPending(s, w, t);
    hide *;
    SleepIs(w.c, t, n);
  }

  lemma SleepIs(c: Core, t: Task, n: int)
    ensures SleepsStill(c, t, n) <==>
              t in c.tcb && c.tcb[t].wait.NoWait? && !c.tcb[t].suspend && t in c.rem && c.rem[t] == n
  {
  }

  /** A delay of a positive number of ticks puts its caller to sleep for just as many. */
  lemma SleepBegins(s: Step, w: World, w': World)
    requires Sound(w) && Follows(s, w, w') && Sleeps(s, w)
    ensures SleepsStill(w'.c, w.run, s.uwTick)
  {
    OrderedHere(w);
    BitsAt(w.c.tcb, w.run);
    TimePasses(s, w, w');
    NoTimers(s, w);
    hide Sound, WF, Follows, Lined, Moves, Turns;
  }

  lemma SleepsOn(s: Step, w: World, w': World, t: Task, n: int)
    requires Sound(w) && Follows(s, w, w') && !s.Tick? && SleepsStill(w.c, t, n) && !Suspends(s, w, t)
    ensures SleepsStill(w'.c, t, n)
  {
    SleeperOutside(s, w, t, n);
    CallStep(s, w, w', t);
    SuspensionStep(s, w, w', t);
    TimerStep(s, w, w', t);
    hide Sound, Follows, WokenBy, StageOf, OwnDoing, Sleeps, Suspends, Frees;
  }

  lemma SleepTicks(w: World, w': World, t: Task, n: nat)
    requires Sound(w) && Sound(w') && Follows(Step.Tick, w, w') && SleepsStill(w.c, t, n) && n > 0
    ensures if n > 1 then SleepsStill(w'.c, t, n - 1) else Awake(w'.c, t)
  {
    SleeperOutside(Step.Tick, w, t, n);
    CallStep(Step.Tick, w, w', t);
    SuspensionStep(Step.Tick, w, w', t);
    OrderedHere(w');
    SleepersRest(w'.c, t);
    TickTimers(w, w');
    hide Sound, WF, Follows, WokenBy, OwnDoing, StageOf, Awake, Expires;
  }

  lemma TickTimers(w: World, w': World)
    requires Follows(Step.Tick, w, w')
    ensures w'.c.rem == Wheel.Ticked(w.c.rem)
  {
    TimePasses(Step.Tick, w, w');
    hide Follows, Suspension, Rising;
  }

  /** In every run in which nobody suspends it, a task that sleeps with `ticks` to go sleeps on until its last tick, and
      is ready after exactly that tick. */
  lemma {:induction false} AwakeOnTime(trace: seq<World>, steps: seq<Step>, t: Task, ticks: nat, n: nat)
    requires IsRun(trace, steps) && n <= |steps| && SleepsStill(trace[0].c, t, ticks) && ticks > 0
    requires forall i | 0 <= i < n :: !Suspends(steps[i], trace[i], t)
    ensures Ticks(steps, n) < ticks ==>
              SleepsStill(trace[n].c, t, ticks - Ticks(steps, n)) && !trace[n].c.tcb[t].ready
    ensures Ticks(steps, n) == ticks && steps[n - 1].Tick? ==> Awake(trace[n].c, t)
  {
    hide IsRun, Follows, Sound, SleepsStill, Awake, Suspends;
    if n == 0 {
      SleepersHere(trace, steps, t, ticks, 0);
    } else {
      RunStep(trace, steps, n - 1);
      AwakeOnTime(trace, steps, t, ticks, n - 1);
      var left := ticks - Ticks(steps, n - 1);
      if left > 0 {
        if steps[n - 1].Tick? {
          SleepTicks(trace[n - 1], trace[n], t, left);
        } else {
          SleepsOn(steps[n - 1], trace[n - 1], trace[n], t, left);
        }
        if Ticks(steps, n) < ticks { SleepersHere(trace, steps, t, ticks - Ticks(steps, n), n); }
      }
    }
  }

  lemma SleepersHere(trace: seq<World>, steps: seq<Step>, t: Task, left: int, n: nat)
    requires IsRun(trace, steps) && n <= |steps| && SleepsStill(trace[n].c, t, left)
    ensures t in trace[n].c.tcb && !trace[n].c.tcb[t].ready
  {
    SoundAt(trace, steps, n);
    OrderedHere(trace[n]);
    SleepersRest(trace[n].c, t);
    hide IsRun, Sound, WF;
  }

  lemma SoundAt(trace: seq<World>, steps: seq<Step>, n: nat)
    requires IsRun(trace, steps) && n <= |steps|
    ensures Sound(trace[n])
  {
    hide Sound, Follows;
  }

  // ---------------------------------------------------------------- who runs first

  /** Who stands in front of `t`. */
  function Ahead(l: seq<Task>, t: Task): set<Task>
  {
    if t in l then Members(l[..IndexOf(l, t)]) else {}
  }

  lemma {:induction false} IndexPrefix(a: seq<Task>, b: seq<Task>, t: Task)
    requires t in a
    ensures IndexOf(a + b, t) == IndexOf(a, t) && Ahead(a + b, t) == Ahead(a, t)
  {
    if a[0] != t {
      assert (a + b)[1..] == a[1..] + b;
      IndexPrefix(a[1..], b, t);
    }
    assert (a + b)[..IndexOf(a, t)] == a[..IndexOf(a, t)];
  }

  lemma {:induction false} LessElements(l: seq<Task>, gone: set<Task>)
    ensures forall t :: t in Less(l, gone) <==> t in l && t !in gone
  {
    if l != [] {
      var m, u := l[..|l| - 1], l[|l| - 1];
      assert l == m + [u];
      LessElements(m, gone);
      LessLast(m, u, gone);
      hide Less;
    }
  }

  /** Leaving does not let anybody in front. */
  lemma {:induction false} LessAhead(l: seq<Task>, gone: set<Task>, t: Task)
    requires Different(l) && t in l && t !in gone
    ensures t in Less(l, gone) && Ahead(Less(l, gone), t) <= Ahead(l, t)
  {
    var m, u := l[..|l| - 1], l[|l| - 1];
    assert l == m + [u];
    WithoutLast(m, u, u);
    LessLast(m, u, gone);
    LessElements(m, gone);
    if t in m {
      LessAhead(m, gone, t);
      IndexPrefix(m, [u], t);
      IndexPrefix(Less(m, gone), [u], t);
    } else {
      LastAhead(m, t);
      LastAhead(Less(m, gone), t);
    }
    hide Less, Different, Ahead;
  }

  lemma LastAhead(m: seq<Task>, t: Task)
    requires t !in m
    ensures Ahead(m + [t], t) == Members(m)
  {
    assert (m + [t])[IndexOf(m + [t], t)] == t;
    assert (m + [t])[..|m|] == m;
  }

  /** The step may have changed the place of `t`. */
  ghost predicate Shifted(s: Step, w: World, t: Task)
  {
    || (s.Tick? && t in Wheel.Due(w.c.rem)) || ((Waits(s, w) || Sleeps(s, w)) && t == w.run)
    || (Turns(s, w) && t == s.t) || t in Moves(s, w) || t in WokenBy(s, w)
  }

  /** How the ready lists have changed. */
  lemma LineOf(s: Step, w: World, c: Core) returns (gone: set<Task>, come: seq<Task>)
    requires Time(s, w, c)
    ensures Lined(w.c, c, gone, come) && forall t | t in gone || t in come :: Shifted(s, w, t)
  {
    NotTurned(s, w);
    hide WokenBy, Moves, Waits, Sleeps, Returns, Turns, Suspension, CallsStay, WaitOf, Lined, Wheel.Due;
    if s.Tick? {
      var due :| Rising(w.c, c, due);
      gone, come := {}, due;
    } else if s.Schedule? {
      LinedRefl(w.c);
      gone, come := {}, [];
    } else if Waits(s, w) {
      gone, come := Members(Moves(s, w)) + {w.run}, Moves(s, w);
    } else if Sleeps(s, w) {
      gone, come := {w.run}, [];
    } else if Returns(s, w) {
      gone, come := {}, WokenBy(s, w);
    } else if Turns(s, w) {
      gone, come := {s.t}, [s.t];
    } else {
      gone, come := Members(Moves(s, w)), Moves(s, w) + WokenBy(s, w);
    }
  }

  /** A task that is ready before and after the step, and is not moved by it, has kept its place. */
  lemma NotShifted(s: Step, w: World, w': World, t: Task)
    requires Sound(w) && Sound(w') && Follows(s, w, w') && t !in Moves(s, w)
    requires t in w.c.tcb && w.c.tcb[t].ready && t in w'.c.tcb && w'.c.tcb[t].ready
    ensures !Shifted(s, w, t)
  {
    hide *;
    OrderedHere(w);
    OrderedHere(w');
    ReadyIsFree(w.c, t);
    ReadyIsFree(w'.c, t);
    if t in WokenBy(s, w) { WokenWaits(s, w, t); }
    NoTimerReady(w.c, t);
    NoTimerReady(w'.c, t);
    DueTimed(w.c.rem, t);
    TimePasses(s, w, w');
    OwnRests(s, w, w'.c);
    if Turns(s, w) { TurnedRests(s, w, w', t); }
    ShiftedIs(s, w, t);
  }

  lemma ShiftedIs(s: Step, w: World, t: Task)
    requires t !in Moves(s, w) && t !in WokenBy(s, w) && ((Waits(s, w) || Sleeps(s, w)) ==> t != w.run)
    requires (Turns(s, w) ==> !About(s, t)) && t !in Wheel.Due(w.c.rem)
    ensures !Shifted(s, w, t)
  {
    NotTurned(s, w);
    hide Moves, WokenBy, Waits, Sleeps, Turns, Wheel.Due;
  }

  /** The step is a suspension of `t`, or the end of one. */
  predicate About(s: Step, t: Task) { (s.TaskSuspend? || s.TaskResume?) && s.t == t }

  /** A caller that waits, or goes to sleep, is no longer ready. */
  lemma OwnRests(s: Step, w: World, c: Core)
    requires Time(s, w, c)
    ensures Waits(s, w) ==> w.run in c.tcb && StageOf(c.tcb[w.run]) == Pending
    ensures Sleeps(s, w) && !Waits(s, w) ==> w.run in c.rem
  {
    NoTimers(s, w);
    if Waits(s, w) { WaitsFree(s, w); }
    hide WokenBy, Moves, Waits, Turns, Suspension, CallsStay, WaitOf, Lined, Rising;
  }

  lemma ReadyIsFree(c: Core, t: Task)
    requires WF(c) && t in c.tcb && c.tcb[t].ready
    ensures StageOf(c.tcb[t]) != Pending && !c.tcb[t].suspend
  {
    BitsAt(c.tcb, t);
    hide WF;
  }

  lemma DueTimed(rem: map<Task, int>, t: Task)
    ensures t in Wheel.Due(rem) ==> t in rem
  {
  }

  lemma TurnedRests(s: Step, w: World, w': World, t: Task)
    requires Turns(s, w) && Time(s, w, w'.c) && t in w.c.tcb && t in w'.c.tcb
    requires !w.c.tcb[t].suspend && !w'.c.tcb[t].suspend
    ensures !About(s, t)
  {
    NotTurned(s, w);
    hide Lined, CallsStay, Waits, Sleeps, Returns;
  }

  /** No step lets anybody in front of a ready task that keeps its place. */
  lemma LineStep(s: Step, w: World, w': World, t: Task, p: nat)
    requires Sound(w) && Sound(w') && Follows(s, w, w') && t !in Moves(s, w)
    requires ReadyAt(w.c.tcb, t, p) && ReadyAt(w'.c.tcb, t, p)
    ensures Ahead(At(w'.c.lists, Ready(p)), t) <= Ahead(At(w.c.lists, Ready(p)), t)
  {
    TimePasses(s, w, w');
    var gone, come := LineOf(s, w, w'.c);
    NotShifted(s, w, w', t);
    OrderedHere(w);
    ReadyListed(w.c, t, p);
    ReadyListed(w'.c, t, p);
    var l, joining := At(w.c.lists, Ready(p)), Joining(w'.c.tcb, come, p);
    assert At(w'.c.lists, Ready(p)) == Less(l, gone) + joining;
    LessAhead(l, gone, t);
    IndexPrefix(Less(l, gone), joining, t);
    hide *;
  }

  /** `t` is ready with priority `p` in the first `n` steps, and neither yields nor is moved. */
  ghost predicate KeepsPlace(trace: seq<World>, steps: seq<Step>, t: Task, p: nat, n: nat)
    requires n <= |steps| && n < |trace|
  {
    (forall i | 0 <= i <= n :: ReadyAt(trace[i].c.tcb, t, p))
      && forall i | 0 <= i < n :: t !in Moves(steps[i], trace[i])
  }

  lemma {:induction false} NobodyGetsAhead(trace: seq<World>, steps: seq<Step>, t: Task, p: nat, n: nat)
    requires IsRun(trace, steps) && n <= |steps| && KeepsPlace(trace, steps, t, p, n)
    ensures Ahead(At(trace[n].c.lists, Ready(p)), t) <= Ahead(At(trace[0].c.lists, Ready(p)), t)
  {
    hide IsRun, Follows, Sound, Moves, ReadyAt, At, Ahead;
    if n > 0 {
      RunStep(trace, steps, n - 1);
      NobodyGetsAhead(trace, steps, t, p, n - 1);
      assert ReadyAt(trace[n - 1].c.tcb, t, p) && ReadyAt(trace[n].c.tcb, t, p);
      LineStep(steps[n - 1], trace[n - 1], trace[n], t, p);
    }
  }

  /** Over any run: while a task is ready, does not yield and keeps its priority, it is passed over only for more urgent
      tasks, or for tasks that stood in front of it from the beginning.  Among equals, whoever was ready first runs
      first. */
  lemma FirstReadyFirstRun(trace: seq<World>, steps: seq<Step>, t: Task, p: nat, n: nat)
    requires IsRun(trace, steps) && n < |steps| && KeepsPlace(trace, steps, t, p, n)
    requires steps[n].Schedule? && trace[n].lock == 0
    ensures var w := trace[n + 1];
            && w.run in w.c.tcb && w.c.tcb[w.run].usPriority <= p
            && (w.c.tcb[w.run].usPriority == p && w.run != t ==>
                 w.run in Ahead(At(trace[0].c.lists, Ready(p)), t))
  {
    RunStep(trace, steps, n);
    NobodyGetsAhead(trace, steps, t, p, n);
    assert ReadyAt(trace[n].c.tcb, t, p);
    ElectedFirst(steps[n], trace[n], trace[n + 1], t, p);
    hide *;
  }

  lemma ElectedFirst(s: Step, w: World, w': World, t: Task, p: nat)
    requires Sound(w) && Sound(w') && Follows(s, w, w') && s.Schedule? && w.lock == 0 && ReadyAt(w.c.tcb, t, p)
    ensures w'.run in w'.c.tcb && w'.c.tcb[w'.run].usPriority <= p
    ensures w'.c.tcb[w'.run].usPriority == p && w'.run != t ==> w'.run in Ahead(At(w.c.lists, Ready(p)), t)
  {
    ElectedRuns(s, w, w', t);
    TimePasses(s, w, w');
    OrderedHere(w);
    ReadyListed(w.c, t, p);
    var l := At(w.c.lists, Ready(p));
    if w'.run != t && w'.c.tcb[w'.run].usPriority == p {
      assert l[0] == w'.run && IndexOf(l, t) > 0;
      assert l[..IndexOf(l, t)][0] == l[0];
    }
    hide Sound, Follows, WF, At;
  }

  // ---------------------------------------------------------------- a lifted owner

  /** Right after a task has begun to wait for a mutex, the owner is at least as urgent as that task, and as it was
      before; and it has the one priority or the other. */
  lemma OwnerInherits(s: Step, w: World, w': World)
    requires Sound(w) && Follows(s, w, w') && MuxWaits(s, w)
    ensures var o := w.muxes[s.k].pstOwner;
            && w'.muxes == w.muxes && o in w.c.tcb && o in w'.c.tcb && w.run in w.c.tcb && w.run in w'.c.tcb
            && w'.c.tcb[o].usPriority <= w'.c.tcb[w.run].usPriority == w.c.tcb[w.run].usPriority
            && w'.c.tcb[o].usPriority <= w.c.tcb[o].usPriority
            && (w'.c.tcb[o].usPriority == w.c.tcb[w.run].usPriority
                || w'.c.tcb[o].usPriority == w.c.tcb[o].usPriority)
  {
    MuxesOf(w);
    Mutex.OwnerThere(w.muxes, w.muxBooks, w.c, s.k);
    hide Sound, Time, MailFollows, Mutex.MuxesOk, Elects;
  }

  /** ... in every run: after every step in which a task begins to wait for a mutex that another one holds. */
  lemma OwnersInherit(trace: seq<World>, steps: seq<Step>, n: nat)
    requires IsRun(trace, steps) && n < |steps| && MuxWaits(steps[n], trace[n])
    ensures var o, t, c := trace[n].muxes[steps[n].k].pstOwner, trace[n].run, trace[n + 1].c;
            && Mutex.Owns(trace[n + 1].muxes, o, steps[n].k) && t in At(c.lists, MuxL(steps[n].k))
            && o in c.tcb && t in c.tcb && c.tcb[o].usPriority <= c.tcb[t].usPriority
  {
    RunStep(trace, steps, n);
    OwnerInherits(steps[n], trace[n], trace[n + 1]);
    NowAWaiter(steps[n], trace[n], trace[n + 1]);
    hide IsRun, Sound, Follows;
  }

  lemma NowAWaiter(s: Step, w: World, w': World)
    requires Sound(w') && Follows(s, w, w') && MuxWaits(s, w)
    ensures w.run in At(w'.c.lists, MuxL(s.k))
  {
    TimePasses(s, w, w');
    OrderedHere(w');
    PendingListed(w'.c, w.run);
    hide Sound, Follows, WF, MuxWaits, Lined, At;
  }

  lemma PendingListed(c: Core, t: Task)
    requires WF(c)
    ensures t in c.tcb && c.tcb[t].wait.Waiting? && StageOf(c.tcb[t]) == Pending ==>
              t in At(c.lists, c.tcb[t].wait.id)
  {
    assert Placed(c.tcb, c.lists) && Tasks.Bits(c.tcb);
    if t in c.tcb { BitsAt(c.tcb, t); }
  }

  // ---------------------------------------------------------------- the scheduling lock

  /** A lock is taken: by a task that may go on running. */
  predicate Locks(s: Step, w: World) { s.TaskLock? && (w.run in w.c.tcb ==> w.c.tcb[w.run].ready) }

  /** Locks taken in the first `n` steps, less unlocks. */
  function LocksLess(trace: seq<World>, steps: seq<Step>, n: nat): int
    requires n <= |steps| && n <= |trace|
  {
    if n == 0 then 0
    else LocksLess(trace, steps, n - 1) + One(Locks(steps[n - 1], trace[n - 1])) - One(steps[n - 1].TaskUnlock?)
  }

  lemma LockStep(s: Step, w: World, w': World)
    requires Follows(s, w, w')
    ensures w'.lock == if Locks(s, w) then w.lock + 1 else if s.TaskUnlock? && w.lock > 0 then w.lock - 1 else w.lock
  {
    hide Time, Priorities, MailFollows, Elects, MuxesAfter, EventsAfter;
  }

  /** Over any run in which nobody unlocks more often than has been locked, locks nest: scheduling is locked as often as
      it was, more by the locks and less by the unlocks. */
  lemma {:induction false} LocksNest(trace: seq<World>, steps: seq<Step>, n: nat)
    requires IsRun(trace, steps) && n <= |steps|
    requires forall i | 0 <= i <= n :: trace[0].lock + LocksLess(trace, steps, i) >= 0
    ensures trace[n].lock == trace[0].lock + LocksLess(trace, steps, n)
  {
    hide IsRun, Follows, Sound, Locks;
    if n > 0 {
      RunStep(trace, steps, n - 1);
      LocksNest(trace, steps, n - 1);
      LockStep(steps[n - 1], trace[n - 1], trace[n]);
      NotBothWays(steps[n - 1], trace[n - 1]);
      assert trace[0].lock + LocksLess(trace, steps, n) >= 0;
    }
  }

  lemma NotBothWays(s: Step, w: World)
    ensures !(Locks(s, w) && s.TaskUnlock?)
  {
  }
}
