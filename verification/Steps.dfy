/** What a step may do to the tasks that it is not about: where they stand in the ready lists, how far their calls have
    got, and their timers, priorities and suspension (kernel/base/core/los_priqueue.c, los_task.c). */
module Steps {
  import opened DeltaList
  import opened Tasks

  // ---------------------------------------------------------------- the ready lists

  function Members(l: seq<Task>): set<Task> { set t | t in l }

  /** Those of `l` that are not in `gone`, in the same order. */
  function Less(l: seq<Task>, gone: set<Task>): seq<Task>
  {
    if l == [] then []
    else
      var m, t := l[..|l| - 1], l[|l| - 1];
      if t in gone then Less(m, gone) else Less(m, gone) + [t]
  }

  predicate ReadyAt(tcb: map<Task, Tcb>, t: Task, p: nat) { t in tcb && tcb[t].ready && tcb[t].usPriority == p }

  /** Those of `come` that are ready with priority `p`, in the same order. */
  function Joining(tcb: map<Task, Tcb>, come: seq<Task>, p: nat): seq<Task>
  {
    if come == [] then []
    else
      var m, t := come[..|come| - 1], come[|come| - 1];
      if ReadyAt(tcb, t, p) then Joining(tcb, m, p) + [t] else Joining(tcb, m, p)
  }

  /** The ready list of each priority is the old one without the tasks in `gone`, and at its end those of `come` that
      are ready with that priority, in this order. */
  ghost predicate Lined(c: Core, c': Core, gone: set<Task>, come: seq<Task>)
  {
    forall p: nat :: At(c'.lists, Ready(p)) == Less(At(c.lists, Ready(p)), gone) + Joining(c'.tcb, come, p)
  }

  lemma {:induction false} LessAbsent(l: seq<Task>, gone: set<Task>)
    requires forall t | t in gone :: t !in l
    ensures Less(l, gone) == l
  {
    if l != [] {
      assert l == l[..|l| - 1] + [l[|l| - 1]];
      LessAbsent(l[..|l| - 1], gone);
    }
  }

  lemma {:induction false} LessOne(l: seq<Task>, t: Task)
    requires Different(l)
    ensures Less(l, {t}) == Without(l, t)
  {
    if l != [] {
      var m, u := l[..|l| - 1], l[|l| - 1];
      assert l == m + [u];
      WithoutLast(m, u, t);
      LessLast(m, u, {t});
      hide Less, Without, Different;
      if u == t { LessAbsent(m, {t}); } else { LessOne(m, t); }
    }
  }

  lemma WithoutLast(m: seq<Task>, u: Task, t: Task)
    requires Different(m + [u])
    ensures Different(m) && u !in m && Without(m + [u], t) == if u == t then m else Without(m, t) + [u]
  {
    var l := m + [u];
    assert forall i | 0 <= i < |m| :: l[i] == m[i] && l[i] != l[|m|];
    if u == t { DifferentIndex(l, |m|); } else if t in m { DifferentIndex(l, IndexOf(m, t)); }
  }

  lemma DifferentIndex(l: seq<Task>, i: nat)
    requires Different(l) && i < |l|
    ensures IndexOf(l, l[i]) == i
  {
    if IndexOf(l, l[i]) != i { DifferentAt(l, IndexOf(l, l[i]), i); }
  }

  lemma {:induction false} LessConcat(a: seq<Task>, b: seq<Task>, gone: set<Task>)
    ensures Less(a + b, gone) == Less(a, gone) + Less(b, gone)
  {
    if b == [] {
      assert a + b == a;
    } else {
      assert (a + b)[..|a + b| - 1] == a + b[..|b| - 1];
      LessConcat(a, b[..|b| - 1], gone);
    }
  }

  lemma LessLast(l: seq<Task>, t: Task, gone: set<Task>)
    ensures Less(l + [t], gone) == if t in gone then Less(l, gone) else Less(l, gone) + [t]
  {
    assert (l + [t])[..|l|] == l;
  }

  lemma JoiningLast(tcb: map<Task, Tcb>, l: seq<Task>, t: Task, p: nat)
    ensures Joining(tcb, l + [t], p) == if ReadyAt(tcb, t, p) then Joining(tcb, l, p) + [t] else Joining(tcb, l, p)
  {
    assert (l + [t])[..|l|] == l;
    hide ReadyAt;
  }

  lemma {:induction false} LessTwice(l: seq<Task>, g: set<Task>, h: set<Task>)
    ensures Less(Less(l, g), h) == Less(l, g + h)
  {
    if l != [] {
      var m, u := l[..|l| - 1], l[|l| - 1];
      LessTwice(m, g, h);
      if u !in g { LessLast(Less(m, g), u, h); }
    }
  }

  lemma {:induction false} JoiningConcat(tcb: map<Task, Tcb>, a: seq<Task>, b: seq<Task>, p: nat)
    ensures Joining(tcb, a + b, p) == Joining(tcb, a, p) + Joining(tcb, b, p)
  {
    hide ReadyAt;
    if b == [] {
      assert a + b == a;
    } else {
      assert (a + b)[..|a + b| - 1] == a + b[..|b| - 1];
      JoiningConcat(tcb, a, b[..|b| - 1], p);
    }
  }

  /** Those who have joined, and whose bits have not changed since, but for those who have left again. */
  lemma {:induction false} JoiningLess(tcb: map<Task, Tcb>, tcb': map<Task, Tcb>, come: seq<Task>, gone: set<Task>,
                                       p: nat)
    requires forall u | u in come && u !in gone :: ReadyAt(tcb', u, p) == ReadyAt(tcb, u, p)
    ensures Less(Joining(tcb, come, p), gone) == Joining(tcb', Less(come, gone), p)
  {
    hide ReadyAt;
    if come != [] {
      var m, u := come[..|come| - 1], come[|come| - 1];
      assert come == m + [u];
      JoiningLess(tcb, tcb', m, gone, p);
      LessLast(m, u, gone);
      JoiningLast(tcb, m, u, p);
      if ReadyAt(tcb, u, p) { LessLast(Joining(tcb, m, p), u, gone); }
      if u !in gone { JoiningLast(tcb', Less(m, gone), u, p); }
      hide Less, Joining;
    }
  }

  predicate AsReady(c: Core, c': Core, u: Task)
  {
    u in c.tcb && u in c'.tcb && c'.tcb[u].ready == c.tcb[u].ready && c'.tcb[u].usPriority == c.tcb[u].usPriority
  }

  lemma LinedRefl(c: Core)
    ensures Lined(c, c, {}, [])
  {
    forall p: nat ensures Less(At(c.lists, Ready(p)), {}) == At(c.lists, Ready(p)) {
      LessAbsent(At(c.lists, Ready(p)), {});
    }
  }

  /** The ready lists are the same. */
  lemma LinedSame(c: Core, c': Core)
    requires c'.lists == c.lists
    ensures Lined(c, c', {}, [])
  {
    LinedRefl(c);
  }

  lemma LinedThen(c0: Core, c1: Core, c2: Core, g: set<Task>, e: seq<Task>, h: set<Task>, f: seq<Task>)
    requires Lined(c0, c1, g, e) && Lined(c1, c2, h, f) && forall u | u in e && u !in h :: AsReady(c1, c2, u)
    ensures Lined(c0, c2, g + h, Less(e, h) + f)
  {
    hide At, Less, Joining;
    forall p: nat
      ensures At(c2.lists, Ready(p)) == Less(At(c0.lists, Ready(p)), g + h) + Joining(c2.tcb, Less(e, h) + f, p)
    {
      LinedAgain(At(c0.lists, Ready(p)), c1.tcb, c2.tcb, g, e, h, f, p);
    }
  }

  lemma LinedAgain(l: seq<Task>, tcb: map<Task, Tcb>, tcb': map<Task, Tcb>, g: set<Task>, e: seq<Task>, h: set<Task>,
                   f: seq<Task>, p: nat)
    requires forall u | u in e && u !in h :: ReadyAt(tcb', u, p) == ReadyAt(tcb, u, p)
    ensures Less(Less(l, g) + Joining(tcb, e, p), h) + Joining(tcb', f, p)
            == Less(l, g + h) + Joining(tcb', Less(e, h) + f, p)
  {
    LessConcat(Less(l, g), Joining(tcb, e, p), h);
    LessTwice(l, g, h);
    JoiningLess(tcb, tcb', e, h, p);
    JoiningConcat(tcb', Less(e, h), f, p);
    hide *;
  }

  /** A task is on the ready list of its priority exactly if it is ready. */
  lemma ReadyListed(c: Core, t: Task, p: nat)
    requires WF(c)
    ensures t in At(c.lists, Ready(p)) <==> ReadyAt(c.tcb, t, p)
    ensures Different(At(c.lists, Ready(p)))
  {
    assert Placed(c.tcb, c.lists) && Bits(c.tcb);
    if t in c.tcb { BitsAt(c.tcb, t); }
    hide WF, Different, At;
  }

  /** Those who were not ready have not left. */
  lemma LinedAbsent(c: Core, c': Core, gone: set<Task>, come: seq<Task>)
    requires WF(c) && Lined(c, c', gone, come) && forall t | t in gone :: t in c.tcb ==> !c.tcb[t].ready
    ensures Lined(c, c', {}, come)
  {
    hide WF, At;
    forall p: nat ensures Less(At(c.lists, Ready(p)), gone) == Less(At(c.lists, Ready(p)), {}) {
      forall t | t in gone ensures t !in At(c.lists, Ready(p)) { ReadyListed(c, t, p); }
      LessAbsent(At(c.lists, Ready(p)), gone);
      LessAbsent(At(c.lists, Ready(p)), {});
    }
  }

  /** A task that is not ready has not joined. */
  lemma LinedOff(c: Core, c': Core, gone: set<Task>, t: Task)
    requires Lined(c, c', gone, [t]) && (t in c'.tcb ==> !c'.tcb[t].ready)
    ensures Lined(c, c', gone, [])
  {
    hide At, Less;
  }

  /** Unlinking a task and linking it again at the end of a ready list. */
  lemma RelocatedLined(c: Core, c': Core, t: Task, x: Tcb, p: nat)
    requires WF(c) && c'.tcb == c.tcb[t := x] && (x.ready ==> Where(x) == Some(Ready(x.usPriority)))
    requires !x.ready && Where(x).Some? ==> !Where(x).value.Ready?
    requires Where(x).Some? ==> p <= |Without(At(c.lists, Where(x).value), t)|
    requires x.ready ==> p == |Without(At(c.lists, Where(x).value), t)|
    requires c'.lists == Relocated(c.lists, if t in c.tcb then Where(c.tcb[t]) else None, Where(x), p, t)
    ensures Lined(c, c', {t}, [t])
  {
    var from := if t in c.tcb then Where(c.tcb[t]) else None;
    assert Placed(c.tcb, c.lists);
    hide WF, Placed, Relocated, Where, Without, Different, At;
    forall q: nat
      ensures At(c'.lists, Ready(q)) == Less(At(c.lists, Ready(q)), {t}) + Joining(c'.tcb, [t], q)
    {
      var l := At(c.lists, Ready(q));
      RelocatedAt(c.tcb, c.lists, t, x, p, from, Ready(q));
      LessOne(l, t);
      assert Joining(c'.tcb, [t], q) == if x.ready && x.usPriority == q then [t] else [] by {
        hide Less;
        assert [t][..0] == [];
      }
      if Where(x) == Some(Ready(q)) { AtTheEnd(Without(l, t), t); }
    }
  }

  lemma AtTheEnd(l: seq<Task>, t: Task)
    ensures Inserted(l, |l|, t) == l + [t]
  {
  }

  // ---------------------------------------------------------------- the steps of a protocol, as its module sees them

  /** `t` now waits at place `p` of the list `id`. */
  ghost predicate PendStep(c: Core, c': Core, t: Task, id: ListId, call: Call, p: nat, timeout: Option<nat>)
  {
    && Kept(c, c', {id}) && SamePriorities(c, c') && OnlyTask(c, c', t)
    && t in c.tcb && t in c'.tcb && c'.tcb[t] == PendTcb(c.tcb[t], id, call, timeout.Some?)
    && t !in At(c.lists, id) && p <= |At(c.lists, id)| && At(c'.lists, id) == Inserted(At(c.lists, id), p, t)
    && Flying(c'.flight, id) == Flying(c.flight, id)
    && c'.rem == (if timeout.Some? then c.rem[t := timeout.value] else c.rem) && Lined(c, c', {t}, [])
  }

  lemma PendedStep(c: Core, t: Task, id: ListId, call: Call, p: nat, timeout: Option<nat>)
    requires WF(c) && t in c.tcb && c.tcb[t].ready && c.tcb[t].wait.NoWait? && !id.Ready? && p <= |At(c.lists, id)|
    ensures PendStep(c, Pended(c, t, id, call, p, timeout), t, id, call, p, timeout)
  {
    PendedEffect(c, t, id, call, p, timeout);
    PendedKept(c, t, id, call, p, timeout);
    PendedLined(c, t, id, call, p, timeout);
    hide WF, Kept, Relocated, Inserted, Where, At, Flying, Lined;
  }

  lemma PendedLined(c: Core, t: Task, id: ListId, call: Call, p: nat, timeout: Option<nat>)
    requires WF(c) && t in c.tcb && c.tcb[t].ready && !id.Ready? && p <= |At(c.lists, id)|
    ensures Lined(c, Pended(c, t, id, call, p, timeout), {t}, [])
  {
    var c', x := Pended(c, t, id, call, p, timeout), PendTcb(c.tcb[t], id, call, timeout.Some?);
    BitsAt(c.tcb, t);
    NotReadyHere(c, t, id);
    hide WF, Relocated, Lined;
    assert Without(At(c.lists, id), t) == At(c.lists, id);
    RelocatedLined(c, c', t, x, p);
    LinedOff(c, c', {t}, t);
  }

  lemma AtTail(c: Core, c': Core, t: Task, id: ListId, call: Call, timeout: Option<nat>)
    requires PendStep(c, c', t, id, call, |At(c.lists, id)|, timeout)
    ensures At(c'.lists, id) == At(c.lists, id) + [t] && t in c'.tcb && c'.tcb[t].wait == Waiting(id, call)
  {
  }

  /** `t`, a waiter on `id`, has been handed what it waited for. */
  ghost predicate WakeStep(c: Core, c': Core, t: Task, id: ListId)
  {
    && Kept(c, c', {id}) && SamePriorities(c, c') && OnlyTask(c, c', t)
    && t in c.tcb && t in c'.tcb && c.tcb[t].wait.Waiting? && c.tcb[t].wait.id == id && c'.tcb[t] == WakeTcb(c.tcb[t])
    && t in At(c.lists, id) && At(c'.lists, id) == Without(At(c.lists, id), t) && Different(At(c.lists, id))
    && t !in Flying(c.flight, id) && Flying(c'.flight, id) == Flying(c.flight, id) + {t}
    && c'.rem == c.rem - {t}
    && t in c'.out && c'.out[t] == [Given]
    && (forall u | u in c.out && u != t :: u in c'.out && c'.out[u] == c.out[u])
    && Lined(c, c', {}, [t])
  }

  lemma WokenStep(c: Core, t: Task, id: ListId)
    requires WF(c) && t in At(c.lists, id) && !id.Ready?
    ensures t in c.tcb && c.tcb[t].wait.Waiting? && WakeStep(c, Woken(c, t), t, id)
  {
    BlockedOnList(c, t, id);
    WokenEffect(c, t, id);
    WokenKept(c, t, id);
    ListDifferent(c, id);
    WokenLined(c, t, id);
    hide WF, Kept, Relocated, Without, Where, Different, Tail, Lined;
    assert c.out[t] + [Given] == [Given];
  }

  lemma WokenLined(c: Core, t: Task, id: ListId)
    requires WF(c) && t in At(c.lists, id) && !id.Ready? && t in c.tcb && c.tcb[t].wait.Waiting?
    ensures Lined(c, Woken(c, t), {}, [t])
  {
    var c', x := Woken(c, t), WakeTcb(c.tcb[t]);
    BlockedOnList(c, t, id);
    TailPlace(c, t, x);
    hide WF, Relocated, Without, At, Tail, Lined;
    RelocatedLined(c, c', t, x, Tail(c.lists, x));
    LinedAbsent(c, c', {t}, [t]);
  }

  /** The call of `t` is over. */
  ghost predicate FinishStep(c: Core, c': Core, t: Task, timedOut: bool)
  {
    && SamePriorities(c, c') && OnlyTask(c, c', t)
    && t in c.tcb && t in c'.tcb && c.tcb[t].wait.Waiting? && c'.tcb[t] == FinishTcb(c.tcb[t])
       && timedOut == c.tcb[t].timeout
    && (var id := c.tcb[t].wait.id;
        && Kept(c, c', {id}) && At(c'.lists, id) == At(c.lists, id)
           && Flying(c'.flight, id) == Flying(c.flight, id) - {t}
        && (t in Flying(c.flight, id) <==> !timedOut) && t !in At(c.lists, id))
    && c'.lists == c.lists && c'.rem == c.rem
  }

  lemma FinishedStep(c: Core, t: Task)
    requires WF(c) && t in c.tcb && c.tcb[t].wait.Waiting? && !Blocked(c.tcb[t])
    ensures FinishStep(c, Finished(c, t), t, c.tcb[t].timeout)
  {
    FinishedKept(c, t);
    FinishedEffect(c, t);
    assert Flights(c.tcb, c.flight) && Bits(c.tcb);
    BitsAt(c.tcb, t);
    NotReadyHere(c, t, c.tcb[t].wait.id);
    hide WF, Kept, At;
  }

  // ---------------------------------------------------------------- replaced, delayed

  lemma ReplacedLined(c: Core, t: Task, x: Tcb)
    requires WF(c) && TcbOk(x) && !Blocked(x)
    ensures Lined(c, Replaced(c, t, x), {t}, [t])
  {
    hide WF, Relocated, Without, At, Lined;
    RelocatedLined(c, Replaced(c, t, x), t, x, if Where(x).Some? then |Without(At(c.lists, Where(x).value), t)| else 0);
  }

  lemma AmendedLined(c: Core, t: Task, x: Tcb)
    requires WF(c) && t in c.tcb && !c.tcb[t].ready && !x.ready
    ensures Lined(c, Amended(c, t, x), {t}, [t])
  {
    var c' := Amended(c, t, x);
    hide WF, At;
    forall p: nat
      ensures At(c'.lists, Ready(p)) == Less(At(c.lists, Ready(p)), {t}) + Joining(c'.tcb, [t], p)
    {
      ReadyListed(c, t, p);
      LessAbsent(At(c.lists, Ready(p)), {t});
      JoiningLast(c'.tcb, [], t, p);
      assert [] + [t] == [t];
    }
  }

  lemma DelayedLined(c: Core, t: Task, uwTick: nat)
    requires WF(c) && t in c.tcb && c.tcb[t].ready
    ensures Lined(c, Delayed(c, t, uwTick), {t}, [])
  {
    var c', x := Delayed(c, t, uwTick), DelayTcb(c.tcb[t]);
    BitsAt(c.tcb, t);
    hide WF, Relocated, Without, At, Lined;
    RelocatedLined(c, c', t, x, 0);
    LinedOff(c, c', {t}, t);
  }

  // ---------------------------------------------------------------- calls, timers and priorities in one step

  /** How far the call of a task has got. */
  datatype Stage = Idle | Pending | Handed | Late

  function StageOf(x: Tcb): Stage
  {
    if x.wait.NoWait? then Idle else if Blocked(x) then Pending else if x.timeout then Late else Handed
  }

  /** Every task but those in `free` keeps its call; those in `woken` have now been handed what they waited for, and are
      ready unless they were suspended; and no other call gets any further.  New tasks have none. */
  ghost predicate CallsStay(c: Core, c': Core, free: set<Task>, woken: seq<Task>)
  {
    && (forall t | t in c.tcb && t !in free ::
          && t in c'.tcb && c'.tcb[t].wait == c.tcb[t].wait
          && StageOf(c'.tcb[t]) == if t in woken then Handed else StageOf(c.tcb[t]))
    && (forall t | t in c.tcb && t in woken && t !in free :: t in c'.tcb && (c'.tcb[t].ready <==> !c.tcb[t].suspend))
    && forall t | t in c'.tcb && t !in c.tcb :: c'.tcb[t].wait.NoWait?
  }

  /** Who is suspended: everybody as before, but for those in `turned`; new tasks are not. */
  ghost predicate Suspension(c: Core, c': Core, turned: map<Task, bool>)
  {
    c.tcb.Keys <= c'.tcb.Keys && forall t | t in c'.tcb ::
        c'.tcb[t].suspend == if t in turned then turned[t] else t in c.tcb && c.tcb[t].suspend
  }

  /** The step hands something to the tasks in `woken`, in this order, and stops their timers; no call begins or ends.
      Those who become ready by it stand at the end of their ready lists, behind the tasks in `moved`, who have left
      their places. */
  ghost predicate Calm(c: Core, c': Core, woken: seq<Task>, moved: seq<Task>)
  {
    && c'.rem == c.rem - Members(woken) && CallsStay(c, c', {}, woken) && Suspension(c, c', map[])
    && Lined(c, c', Members(moved), moved + woken)
  }

  /** `t` begins to wait, for so many ticks or forever, and has left its ready list. */
  ghost predicate Began(c: Core, c': Core, t: Task, wait: Wait, timeout: Option<nat>, moved: seq<Task>)
  {
    && c'.rem == (if timeout.Some? then c.rem[t := timeout.value] else c.rem) && CallsStay(c, c', {t}, [])
    && t in c'.tcb && c'.tcb[t].wait == wait && StageOf(c'.tcb[t]) == Pending && Suspension(c, c', map[])
    && Lined(c, c', Members(moved) + {t}, moved)
  }

  /** The call of `t` is over, and the step hands something to the tasks in `woken`. */
  ghost predicate Ended(c: Core, c': Core, t: Task, woken: seq<Task>)
  {
    && c'.rem == c.rem - Members(woken) && CallsStay(c, c', {t}, woken) && t in c'.tcb && c'.tcb[t].wait.NoWait?
    && Suspension(c, c', map[]) && Lined(c, c', {}, woken)
  }

  /** `t` goes to sleep for `n` ticks. */
  ghost predicate Slept(c: Core, c': Core, t: Task, n: nat)
  {
    c'.rem == c.rem[t := n] && CallsStay(c, c', {}, []) && Suspension(c, c', map[]) && Lined(c, c', {t}, [])
  }

  /** `t` is suspended, or no longer is; no call and no timer is touched by it. */
  ghost predicate Turned(c: Core, c': Core, t: Task, suspend: bool)
  {
    && c'.rem == c.rem && CallsStay(c, c', {}, []) && Suspension(c, c', map[t := suspend])
    && Lined(c, c', {t}, [t])
  }

  /** One task has the priority `p`, all others are as urgent as before. */
  ghost predicate OnePriority(c: Core, c': Core, t: Task, p: nat)
  {
    c'.tcb.Keys == c.tcb.Keys
      && forall u | u in c.tcb :: c'.tcb[u].usPriority == if u == t then p else c.tcb[u].usPriority
  }

  lemma PendBegan(c: Core, c': Core, t: Task, id: ListId, call: Call, p: nat, timeout: Option<nat>)
    requires PendStep(c, c', t, id, call, p, timeout)
    ensures Began(c, c', t, Waiting(id, call), timeout, [])
  {
    hide Kept, At, Inserted, Flying, Lined;
    assert Members([]) + {t} == {t};
  }

  lemma FinishEnded(c: Core, c': Core, t: Task, timedOut: bool)
    requires FinishStep(c, c', t, timedOut)
    ensures Ended(c, c', t, [])
  {
    LinedSame(c, c');
    hide Kept, At, Flying, Lined;
    assert c.rem - {} == c.rem && Members([]) == {};
  }

  /** A pend after a step that wakes nobody. */
  lemma CalmThenBegan(c0: Core, c1: Core, c2: Core, t: Task, wait: Wait, timeout: Option<nat>, moved: seq<Task>)
    requires Calm(c0, c1, [], moved) && Began(c1, c2, t, wait, timeout, []) && t in c0.tcb && t !in moved
    requires forall u | u in moved :: AsReady(c1, c2, u)
    ensures Began(c0, c2, t, wait, timeout, moved)
  {
    NoMembers();
    assert c0.rem - {} == c0.rem && moved + [] == moved && {} + {t} == {t};
    LinedThenGone(c0, c1, c2, moved, t);
    hide Lined, StageOf, AsReady, Members;
  }

  lemma NoMembers()
    ensures Members([]) == {}
  {
  }

  lemma LinedThenGone(c0: Core, c1: Core, c2: Core, moved: seq<Task>, t: Task)
    requires Lined(c0, c1, Members(moved), moved) && Lined(c1, c2, {t}, []) && t !in moved
             && forall u | u in moved :: AsReady(c1, c2, u)
    ensures Lined(c0, c2, Members(moved) + {t}, moved)
  {
    hide Lined, AsReady, Members;
    LinedThen(c0, c1, c2, Members(moved), moved, {t}, []);
    LessAbsent(moved, {t});
    assert moved + [] == moved;
  }

  lemma LinedThenMore(c0: Core, c1: Core, c2: Core, g: set<Task>, come: seq<Task>, more: seq<Task>)
    requires Lined(c0, c1, g, come) && Lined(c1, c2, {}, more) && forall u | u in come :: AsReady(c1, c2, u)
    ensures Lined(c0, c2, g, come + more)
  {
    hide Lined, AsReady;
    LinedThen(c0, c1, c2, g, come, {}, more);
    LessAbsent(come, {});
    assert g + {} == g;
  }

  /** The end of a call, which then hands something on. */
  lemma EndedThenCalm(c0: Core, c1: Core, c2: Core, t: Task, woken: seq<Task>)
    requires Ended(c0, c1, t, []) && Calm(c1, c2, woken, [])
    ensures Ended(c0, c2, t, woken)
  {
    NoMembers();
    assert c0.rem - {} == c0.rem && [] + woken == woken;
    LinedThenMore(c0, c1, c2, {}, [], woken);
    hide Lined, StageOf, Members;
  }

  /** The first waiter, if there is one. */
  function Firsts(l: seq<Task>): seq<Task>
  {
    if l == [] then [] else [l[0]]
  }

  function Only(t: Option<Task>): seq<Task>
  {
    if t.Some? then [t.value] else []
  }

  lemma CalmRefl(c: Core)
    ensures Calm(c, c, [], [])
  {
    LinedRefl(c);
    NoMembers();
    var none: seq<Task> := [];
    assert c.rem - {} == c.rem && none + none == none;
    hide Lined, Members;
  }

  /** A step that hands something on after another one. */
  lemma CalmThen(c0: Core, c1: Core, c2: Core, woken: seq<Task>, moved: seq<Task>, more: seq<Task>)
    requires Calm(c0, c1, woken, moved) && Calm(c1, c2, more, [])
    requires forall u | u in moved + woken :: AsReady(c1, c2, u)
    requires forall u | u in woken :: u !in more && (u in c0.tcb <==> u in c1.tcb)
    ensures Calm(c0, c2, woken + more, moved)
  {
    assert (c0.rem - Members(woken)) - Members(more) == c0.rem - Members(woken + more);
    NoMembers();
    assert [] + more == more && (moved + woken) + more == moved + (woken + more);
    LinedThenMore(c0, c1, c2, Members(moved), moved + woken, more);
    hide Lined, StageOf, Members;
    forall t | t in c0.tcb && t in woken ensures t in c2.tcb && (c2.tcb[t].ready <==> !c0.tcb[t].suspend) {
      assert t in moved + woken && AsReady(c1, c2, t);
    }
  }

  lemma WakeCalm(c: Core, c': Core, w: Task, id: ListId)
    requires WakeStep(c, c', w, id)
    ensures Calm(c, c', [w], [])
  {
    hide Kept, At, Without, Flying, Different, Lined;
    assert Members([w]) == {w} && [] + [w] == [w] && Members([]) == {};
  }
}
