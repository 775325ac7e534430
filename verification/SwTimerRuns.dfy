/** Whole runs of the software timers through their interface: every call is a short run of the plain map of remaining
    times. */
module SwTimerRuns {
  import opened SwTimer

  datatype Call =
    | CreateCall(uwInterval: nat, ucMode: nat, handler: bool, result: bool)
    | StartCall(usSwTmrID: nat)
    | StopCall(usSwTmrID: nat)
    | DeleteCall(usSwTmrID: nat)
    | ScanCall
    | AdjustCall(uwsleep_time: nat)

  /** The identifier leads to block `i` and is current. */
  predicate Leads(a: Abs, id: nat, i: nat)
  {
    0 < |a.cb| && id < MaxId(|a.cb|) && i == id % |a.cb| && a.cb[i].usTimerID == id
  }

  predicate AllTicks(es: seq<Event>) { forall e | e in es :: e.Tick? }

  /** As many ticks as asked for, but none past the first expiry; none at all if no timer is ticking. */
  predicate Adjusts(n: nat, a: Abs, es: seq<Event>)
  {
    && AllTicks(es) && |es| <= n && (forall t | t in a.rem :: |es| <= a.rem[t])
    && if a.rem == map[] then es == [] else |es| < n ==> exists t :: t in a.rem && a.rem[t] == |es|
  }

  /** A creation is refused for its arguments, or because every block is in use. */
  predicate Refused(c: Call, a: Abs)
    requires c.CreateCall?
  {
    c.uwInterval == 0 || c.ucMode > 1 || !c.handler || !c.result || forall t | t in a.cb :: t.ucState != Unused
  }

  /** The events that a call amounts to: none if it is refused. */
  predicate Amounts(c: Call, a: Abs, es: seq<Event>)
  {
    0 < |a.cb| &&
    match c
    case CreateCall(n, m, _, _) =>
      if Refused(c, a) then es == []
      else |es| == 1 && es[0].Create? && es[0].interval == n && (es[0].mode == Once <==> m == 0)
    case StartCall(id) => var i := id % |a.cb|;
      es == if Leads(a, id, i) && a.cb[i].ucState != Unused then [Start(i)] else []
    case StopCall(id) => var i := id % |a.cb|;
      es == if Leads(a, id, i) && a.cb[i].ucState == Ticking then [Stop(i)] else []
    case DeleteCall(id) => var i := id % |a.cb|;
      es == if Leads(a, id, i) && a.cb[i].ucState != Unused then [Delete(i)] else []
    case ScanCall => es == [Event.Tick]
    case AdjustCall(n) => Adjusts(n, a, es)
  }

  /** Identifiers lead to their blocks, and only ticking timers have time left. */
  ghost predicate InOrder(a: Abs)
  {
    Blocks(a.cb) && forall t | t in a.rem :: t < |a.cb| && a.cb[t].ucState == Ticking
  }

  lemma StateInOrder(h: SwTimers)
    requires h.Valid()
    ensures InOrder(h.State())
  {
    hide Blocks;
    forall t | t in h.rem ensures t < |h.cb| && h.cb[t].ucState == Ticking { assert t in h.sortList; }
  }

  /** One call as a run of the plain map. */
  ghost predicate Answers(c: Call, a: Abs, es: seq<Event>, b: Abs)
  {
    Amounts(c, a, es) && LegalRun(a, es) && b == ApplyAll(a, es)
  }

  ghost predicate Told(trace: seq<Abs>, calls: seq<Call>, log: seq<seq<Event>>)
  {
    |trace| == |calls| + 1 == |log| + 1
      && forall i | 0 <= i < |calls| :: Answers(calls[i], trace[i], log[i], trace[i + 1])
  }

  function Ticks(n: nat): seq<Event> { seq(n, (i: nat) => Event.Tick) }

  /** Several ticks in a row are the scans that they stand for. */
  lemma {:induction false} ScansAreTicks(a: Abs, n: nat)
    ensures LegalRun(a, Ticks(n)) && ApplyAll(a, Ticks(n)) == Scans(a, n)
    decreases n
  {
    hide TickAbs;
    if n > 0 {
      ScansAreTicks(a, n - 1);
      assert Ticks(n) == Ticks(n - 1) + [Event.Tick];
      OneMoreEvent(a, Ticks(n - 1), Event.Tick);
    }
  }

  lemma {:induction false} OneMoreEvent(a: Abs, es: seq<Event>, e: Event)
    requires LegalRun(a, es) && Legal(ApplyAll(a, es), e)
    ensures LegalRun(a, es + [e]) && ApplyAll(a, es + [e]) == Apply(ApplyAll(a, es), e)
    decreases |es|
  {
    var q := es + [e];
    hide Legal, Apply;
    if es == [] {
      assert q[1..] == [];
    } else {
      assert q[0] == es[0] && q[1..] == es[1..] + [e];
      OneMoreEvent(Apply(a, es[0]), es[1..], e);
    }
  }

  lemma OneEvent(a: Abs, e: Event)
    requires Legal(a, e)
    ensures LegalRun(a, [e]) && ApplyAll(a, [e]) == Apply(a, e)
  {
    hide Legal, Apply;
    assert [e][1..] == [];
  }

  /** A call that has created a timer hands back the identifier of its block. */
  predicate Named(es: seq<Event>, b: Abs, usSwTmrID: nat)
  {
    es != [] && es[0].Create? ==> es[0].i < |b.cb| && b.cb[es[0].i].usTimerID == usSwTmrID
  }

  /** Any one call, and the identifier that it hands back if it creates a timer; a scan and an adjustment on an empty
      list do nothing but pass the time. */
  method Perform(h: SwTimers, c: Call) returns (ghost es: seq<Event>, usSwTmrID: nat)
    requires h.Valid() && (c.CreateCall? ==> c.uwInterval < TICKS)
    modifies h
    ensures h.Valid() && Answers(c, old(h.State()), es, h.State()) && Named(es, h.State(), usSwTmrID)
  {
    hide SwTimers.Holding, Apply, TickAbs, Blocks;
    ghost var a := h.State();
    SomeBlocks(h);
    usSwTmrID := 0;
    match c {
      case CreateCall(n, m, handler, result) =>
        es, usSwTmrID := Create(h, c);
      case StartCall(id) =>
        var r := h.SwtmrStart(id);
        if r == OS_OK { OneEvent(a, Start(id % |a.cb|)); }
        es := if r == OS_OK then [Start(id % |a.cb|)] else [];
      case StopCall(id) =>
        var r := h.SwtmrStop(id);
        if r == OS_OK { OneEvent(a, Stop(id % |a.cb|)); }
        es := if r == OS_OK then [Stop(id % |a.cb|)] else [];
      case DeleteCall(id) =>
        var r := h.SwtmrDelete(id);
        if r == OS_OK { OneEvent(a, Delete(id % |a.cb|)); }
        es := if r == OS_OK then [Delete(id % |a.cb|)] else [];
      case ScanCall =>
        h.Scan();
        OneEvent(a, Event.Tick);
        TickIs(a);
        es := [Event.Tick];
      case AdjustCall(n) =>
        es := Sleep(h, c);
        NoCreation(es, h.State(), usSwTmrID);
    }
  }

  lemma NoCreation(es: seq<Event>, b: Abs, usSwTmrID: nat)
    requires AllTicks(es)
    ensures Named(es, b, usSwTmrID)
  {
    assert es != [] ==> es[0] in es;
  }

  lemma TickIs(a: Abs)
    ensures Apply(a, Event.Tick) == TickAbs(a, 1)
  {
    hide TickAbs;
  }

  lemma SomeBlocks(h: SwTimers)
    requires h.Valid()
    ensures 0 < |h.cb| <= 65535
  {
  }

  method Create(h: SwTimers, c: Call) returns (ghost es: seq<Event>, usSwTmrID: nat)
    requires h.Valid() && c.CreateCall? && c.uwInterval < TICKS
    modifies h
    ensures h.Valid() && Answers(c, old(h.State()), es, h.State()) && Named(es, h.State(), usSwTmrID)
  {
    hide SwTimers.Holding, Apply, Blocks;
    ghost var a, free := h.State(), h.freeList;
    SomeBlocks(h);
    var r, id := h.SwtmrCreate(c.uwInterval, c.ucMode, c.handler, c.result);
    es, usSwTmrID := [], id;
    if r == OS_OK {
      assert a.cb[free[0]] in a.cb;
      ghost var e := Event.Create(free[0], c.uwInterval, if c.ucMode == 0 then Once else Period);
      OneEvent(a, e);
      es := [e];
    }
  }

  method Sleep(h: SwTimers, c: Call) returns (ghost es: seq<Event>)
    requires h.Valid() && c.AdjustCall?
    modifies h
    ensures h.Valid() && Answers(c, old(h.State()), es, h.State()) && AllTicks(es)
  {
    hide SwTimers.Holding, Apply, TickAbs, Scans, Blocks;
    ghost var a := h.State();
    SomeBlocks(h);
    es := [];
    Nobody(h);
    if h.sortList != [] {
      ghost var first, head := h.sortList[0], HeadOf(h);
      h.Adjust(c.uwsleep_time);
      ghost var n := if c.uwsleep_time > head then head else c.uwsleep_time;
      ScansAreTicks(a, n);
      es := Ticks(n);
      assert first in a.rem && a.rem[first] == head;
    }
  }

  lemma Nobody(h: SwTimers)
    requires h.Valid()
    ensures h.sortList == [] <==> h.rem == map[]
  {
    if h.sortList != [] { assert h.sortList[0] in h.rem; }
  }

  ghost function HeadOf(h: SwTimers): (n: nat)
    requires h.Valid() && h.sortList != []
    reads h
    ensures h.sortList[0] in h.rem && n == h.rem[h.sortList[0]]
  {
    HeadIsLeast(h.sortList, h.uwCount, h.rem);
    h.rem[h.sortList[0]]
  }

  ghost predicate AllNamed(trace: seq<Abs>, log: seq<seq<Event>>, ids: seq<nat>)
  {
    |trace| == |log| + 1 == |ids| + 1 && forall k | 0 <= k < |log| :: Named(log[k], trace[k + 1], ids[k])
  }

  /** Any sequence of calls, and the identifiers that those hand back that create a timer. */
  method Run(h: SwTimers, calls: seq<Call>)
    returns (ghost trace: seq<Abs>, ghost log: seq<seq<Event>>, ids: seq<nat>)
    requires h.Valid() && forall c | c in calls && c.CreateCall? :: c.uwInterval < TICKS
    modifies h
    ensures h.Valid() && Told(trace, calls, log) && trace[0] == old(h.State()) && trace[|calls|] == h.State()
    ensures AllNamed(trace, log, ids) && InOrder(trace[0])
  {
    StateInOrder(h);
    trace, log, ids := [h.State()], [], [];
    assert Told(trace, calls[..0], log);
    for n := 0 to |calls|
      invariant h.Valid() && Told(trace, calls[..n], log) && trace[0] == old(h.State()) && trace[n] == h.State()
      invariant AllNamed(trace, log, ids) && InOrder(trace[0])
    {
      hide *;
      Length(trace, calls[..n], log);
      assert calls[n] in calls;
      ghost var es: seq<Event>;
      var id: nat;
      es, id := Perform(h, calls[n]);
      OneMoreCall(trace, calls[..n], log, calls[n], es, h.State());
      TakeOne(calls, n);
      OneMoreName(trace, log, ids, es, h.State(), id);
      trace, log, ids := trace + [h.State()], log + [es], ids + [id];
    }
    assert calls[..|calls|] == calls;
  }

  lemma Length(trace: seq<Abs>, calls: seq<Call>, log: seq<seq<Event>>)
    requires Told(trace, calls, log)
    ensures |trace| == |calls| + 1 == |log| + 1
  {
  }

  lemma TakeOne(calls: seq<Call>, n: nat)
    requires n < |calls|
    ensures calls[..n] + [calls[n]] == calls[..n + 1]
  {
  }

  lemma OneMoreCall(trace: seq<Abs>, calls: seq<Call>, log: seq<seq<Event>>, c: Call, es: seq<Event>, b: Abs)
    requires Told(trace, calls, log) && Answers(c, trace[|calls|], es, b)
    ensures Told(trace + [b], calls + [c], log + [es])
  {
    hide Answers;
    var t, q, l := trace + [b], calls + [c], log + [es];
    forall i | 0 <= i < |q| ensures Answers(q[i], t[i], l[i], t[i + 1]) {
      if i < |calls| { assert t[i] == trace[i] && t[i + 1] == trace[i + 1] && q[i] == calls[i] && l[i] == log[i]; }
    }
  }

  lemma OneMoreName(trace: seq<Abs>, log: seq<seq<Event>>, ids: seq<nat>, es: seq<Event>, b: Abs, id: nat)
    requires AllNamed(trace, log, ids) && Named(es, b, id)
    ensures AllNamed(trace + [b], log + [es], ids + [id])
  {
    hide Named;
    var t, l, q := trace + [b], log + [es], ids + [id];
    forall k | 0 <= k < |l| ensures Named(l[k], t[k + 1], q[k]) {
      if k < |log| { assert t[k + 1] == trace[k + 1] && l[k] == log[k] && q[k] == ids[k]; }
    }
  }

  // ---------------------------------------------------------------- what a run means for one timer

  /** The call is not about block `t`. */
  predicate LeavesAlone(c: Call, limit: nat, t: nat)
  {
    0 < limit && (c.StartCall? || c.StopCall? || c.DeleteCall? ==> c.usSwTmrID % limit != t)
  }

  function TicksOf(log: seq<seq<Event>>): nat
  {
    if log == [] then 0 else TicksOf(log[..|log| - 1]) + CountTicks(log[|log| - 1])
  }

  /** Events that a call on other blocks amounts to do not name a timer that is in use. */
  lemma NotNamed(c: Call, a: Abs, es: seq<Event>, t: nat)
    requires Amounts(c, a, es) && LegalRun(a, es) && t < |a.cb| && a.cb[t].ucState != Unused
             && LeavesAlone(c, |a.cb|, t)
    ensures forall e | e in es :: !Names(e, t)
  {
  }

  /** Whatever calls are made on other timers, a ticking timer with `n` ticks to go has lost exactly the ticks that
      passed, and is untouched, as long as fewer than `n` have passed; at its n-th tick it fires. */
  lemma {:induction false} OnTime(trace: seq<Abs>, calls: seq<Call>, log: seq<seq<Event>>, t: nat)
    requires Told(trace, calls, log) && t in trace[0].rem && t < |trace[0].cb| && trace[0].cb[t].ucState == Ticking
    requires TicksOf(log) < trace[0].rem[t] && forall c | c in calls :: LeavesAlone(c, |trace[0].cb|, t)
    ensures var a, b := trace[0], trace[|calls|];
            && |b.cb| == |a.cb| && b.cb[t] == a.cb[t] && t in b.rem && b.rem[t] == a.rem[t] - TicksOf(log)
            && (b.rem[t] == 1 ==> TickAbs(b, 1).cb[t] == Fired(a.cb[t], |a.cb|))
            && (b.rem[t] == 1 && a.cb[t].ucMode == Once ==> t !in TickAbs(b, 1).rem)
    decreases |calls|
  {
    if calls != [] {
      var n := |calls| - 1;
      Front(trace, calls, log);
      assert forall c | c in calls[..n] :: c in calls;
      assert calls[n] in calls;
      OnTime(trace[..n + 1], calls[..n], log[..n], t);
      NotNamed(calls[n], trace[n], log[n], t);
      FiresOnTime(trace[n], log[n], t);
      hide Answers, Fired, FiredRem, FiredBlocks;
    } else {
      hide *;
      FiresNow(trace[0], t);
    }
  }

  /** How often timer `t` fires in a run of calls; the events of every call are legal. */
  function FiringsOf(trace: seq<Abs>, log: seq<seq<Event>>, t: nat): nat
    requires |trace| == |log| + 1
    decreases |log|
  {
    if log == [] then 0
    else
      var n := |log| - 1;
      FiringsOf(trace[..n + 1], log[..n], t) + if LegalRun(trace[n], log[n]) then Firings(trace[n], log[n], t) else 0
  }

  /** Timer `t` is periodic and ticking. */
  predicate Periodic(a: Abs, t: nat)
  {
    && t in a.rem && t < |a.cb| && a.cb[t].ucState == Ticking && a.cb[t].ucMode == Period
    && 1 <= a.rem[t] <= a.cb[t].uwInterval
  }

  lemma CallKeepsTime(c: Call, a: Abs, es: seq<Event>, b: Abs, t: nat)
    requires Answers(c, a, es, b) && Periodic(a, t) && LeavesAlone(c, |a.cb|, t)
    ensures LegalRun(a, es) && Periodic(b, t) && SameTimer(a, b, t)
    ensures CountTicks(es) + b.rem[t] == a.rem[t] + Firings(a, es, t) * a.cb[t].uwInterval
  {
    NotNamed(c, a, es, t);
    NoDrift(a, es, t);
    hide Amounts, LegalRun, ApplyAll, Firings;
  }

  /** A periodic timer does not drift, whatever calls are made on other timers and however the time is passed, by scans
      or by adjustments: ticks elapsed plus ticks to go are its first expiry plus a whole interval for each firing. */
  lemma {:induction false} KeepsTime(trace: seq<Abs>, calls: seq<Call>, log: seq<seq<Event>>, t: nat)
    requires Told(trace, calls, log) && Periodic(trace[0], t)
             && forall c | c in calls :: LeavesAlone(c, |trace[0].cb|, t)
    ensures |trace| == |log| + 1
    ensures var a, b := trace[0], trace[|calls|];
            && Periodic(b, t) && SameTimer(a, b, t)
            && TicksOf(log) + b.rem[t] == a.rem[t] + FiringsOf(trace, log, t) * a.cb[t].uwInterval
    decreases |calls|
  {
    hide *;
    Length(trace, calls, log);
    StillThere(trace[0], t);
    if calls == [] {
      assert trace == [trace[0]] && 0 * trace[0].cb[t].uwInterval == 0;
      NoneYet(trace[0], log, t);
    } else {
      var n := |calls| - 1;
      Front(trace, calls, log);
      assert forall c | c in calls[..n] :: c in calls;
      assert calls[n] in calls;
      KeepsTime(trace[..n + 1], calls[..n], log[..n], t);
      SameLimit(trace[0], trace[n], t);
      CallKeepsTime(calls[n], trace[n], log[n], trace[n + 1], t);
      FiringsLast(trace, log, t);
      MoreFirings(FiringsOf(trace[..n + 1], log[..n], t), Firings(trace[n], log[n], t), trace[0].cb[t].uwInterval);
      SameAgain(trace[0], trace[n], trace[n + 1], t);
    }
  }

  lemma NoneYet(a: Abs, log: seq<seq<Event>>, t: nat)
    requires |log| == 0 && t < |a.cb|
    ensures TicksOf(log) == 0 && FiringsOf([a], log, t) == 0 && SameTimer(a, a, t)
  {
  }

  lemma FiringsLast(trace: seq<Abs>, log: seq<seq<Event>>, t: nat)
    requires |trace| == |log| + 1 && log != []
    ensures var n := |log| - 1;
            LegalRun(trace[n], log[n]) ==>
                FiringsOf(trace, log, t) == FiringsOf(trace[..n + 1], log[..n], t) + Firings(trace[n], log[n], t)
  {
    hide Firings, LegalRun;
  }

  lemma StillThere(a: Abs, t: nat)
    requires Periodic(a, t)
    ensures t in a.rem && t < |a.cb|
  {
  }

  lemma SameLimit(a: Abs, b: Abs, t: nat)
    requires SameTimer(a, b, t)
    ensures |b.cb| == |a.cb| && t < |a.cb| && b.cb[t].uwInterval == a.cb[t].uwInterval
  {
  }

  lemma SameAgain(a: Abs, b: Abs, c: Abs, t: nat)
    requires SameTimer(a, b, t) && SameTimer(b, c, t)
    ensures SameTimer(a, c, t)
  {
  }

  lemma MoreFirings(f: nat, g: nat, n: int)
    ensures (f + g) * n == f * n + g * n
  {
  }

  lemma FiresNow(a: Abs, t: nat)
    requires t in a.rem && t < |a.cb|
    ensures a.rem[t] == 1 ==> TickAbs(a, 1).cb[t] == Fired(a.cb[t], |a.cb|)
    ensures a.rem[t] == 1 && a.cb[t].ucMode == Once ==> t !in TickAbs(a, 1).rem
  {
  }

  lemma Front(trace: seq<Abs>, calls: seq<Call>, log: seq<seq<Event>>)
    requires Told(trace, calls, log) && calls != []
    ensures var n := |calls| - 1;
            && Told(trace[..n + 1], calls[..n], log[..n]) && Answers(calls[n], trace[n], log[n], trace[n + 1])
            && trace[..n + 1][n] == trace[n] && trace[..n + 1][0] == trace[0]
               && TicksOf(log) == TicksOf(log[..n]) + CountTicks(log[n])
  {
    hide Answers;
    var n := |calls| - 1;
    forall i | 0 <= i < n ensures Answers(calls[..n][i], trace[..n + 1][i], log[..n][i], trace[..n + 1][i + 1]) {
      assert Answers(calls[i], trace[i], log[i], trace[i + 1]);
    }
  }

  // ---------------------------------------------------------------- from the creation of a timer to its last firing

  predicate Starts(e: Event, t: nat) { e.Start? && e.i == t }

  /** A timer that is not ticking does not fire until it is started. */
  lemma {:induction false} IdleEvents(a: Abs, es: seq<Event>, t: nat)
    requires t !in a.rem && t < |a.cb| && LegalRun(a, es) && forall e | e in es :: !Starts(e, t)
    ensures var b := ApplyAll(a, es); |b.cb| == |a.cb| && t !in b.rem && Firings(a, es, t) == 0
    decreases |es|
  {
    if |es| > 0 {
      assert es[0] in es && forall e | e in es[1..] :: e in es;
      IdleEvents(Apply(a, es[0]), es[1..], t);
    }
  }

  /** A created timer that nobody touches stays as it is. */
  lemma {:induction false} CreatedEvents(a: Abs, es: seq<Event>, t: nat)
    requires t !in a.rem && t < |a.cb| && LegalRun(a, es) && forall e | e in es :: !Names(e, t)
    ensures var b := ApplyAll(a, es); |b.cb| == |a.cb| && t !in b.rem && b.cb[t] == a.cb[t]
    decreases |es|
  {
    if |es| > 0 {
      assert es[0] in es && forall e | e in es[1..] :: e in es;
      CreatedEvents(Apply(a, es[0]), es[1..], t);
    }
  }

  /** A one-shot timer with `n` ticks to go fires once, at the n-th tick, and is gone then. */
  lemma {:induction false} OnceEvents(a: Abs, es: seq<Event>, t: nat)
    requires t in a.rem && t < |a.cb| && a.cb[t].ucMode == Once && a.rem[t] > 0 && LegalRun(a, es)
             && forall e | e in es :: !Names(e, t)
    ensures var b := ApplyAll(a, es);
            && |b.cb| == |a.cb| && Firings(a, es, t) == (if CountTicks(es) < a.rem[t] then 0 else 1)
            && if CountTicks(es) < a.rem[t]
               then t in b.rem && b.rem[t] == a.rem[t] - CountTicks(es) && b.cb[t] == a.cb[t] else t !in b.rem
    decreases |es|
  {
    if |es| > 0 {
      var a1 := Apply(a, es[0]);
      assert es[0] in es && forall e | e in es[1..] :: e in es;
      OnceStep(a, es[0], t);
      hide Apply, Legal;
      if t in a1.rem { OnceEvents(a1, es[1..], t); } else { IdleEvents(a1, es[1..], t); }
    }
  }

  lemma OnceStep(a: Abs, e: Event, t: nat)
    requires t in a.rem && t < |a.cb| && a.cb[t].ucMode == Once && a.rem[t] > 0 && Legal(a, e) && !Names(e, t)
    ensures var b := Apply(a, e);
            && |b.cb| == |a.cb| && (t in b.rem <==> !(e.Tick? && a.rem[t] == 1))
            && (t in b.rem ==> b.cb[t] == a.cb[t] && b.rem[t] == if e.Tick? then a.rem[t] - 1 else a.rem[t])
  {
  }

  /** Calls that leave a block alone do not start it. */
  lemma NotStarted(c: Call, a: Abs, es: seq<Event>, t: nat)
    requires Amounts(c, a, es) && LeavesAlone(c, |a.cb|, t)
    ensures forall e | e in es :: !Starts(e, t)
  {
  }

  /** ... whatever calls are made: a timer that is not ticking stays silent until it is started. */
  lemma {:induction false} StaysSilent(trace: seq<Abs>, calls: seq<Call>, log: seq<seq<Event>>, t: nat)
    requires Told(trace, calls, log) && t < |trace[0].cb| && t !in trace[0].rem
    requires forall c | c in calls :: c.StartCall? ==> LeavesAlone(c, |trace[0].cb|, t)
    ensures |trace| == |log| + 1 && FiringsOf(trace, log, t) == 0
    ensures var b := trace[|calls|]; |b.cb| == |trace[0].cb| && t !in b.rem
    decreases |calls|
  {
    if calls != [] {
      var n := |calls| - 1;
      Front(trace, calls, log);
      assert calls[n] in calls && forall c | c in calls[..n] :: c in calls;
      StaysSilent(trace[..n + 1], calls[..n], log[..n], t);
      OnlyStarts(calls[n], trace[n], log[n], t);
      IdleEvents(trace[n], log[n], t);
      FiringsLast(trace, log, t);
      hide Amounts, LegalRun, ApplyAll, Firings, LeavesAlone;
    }
  }

  lemma OnlyStarts(c: Call, a: Abs, es: seq<Event>, t: nat)
    requires Amounts(c, a, es) && (c.StartCall? ==> LeavesAlone(c, |a.cb|, t))
    ensures forall e | e in es :: !Starts(e, t)
  {
  }

  lemma {:induction false} StaysCreated(trace: seq<Abs>, calls: seq<Call>, log: seq<seq<Event>>, t: nat)
    requires Told(trace, calls, log) && t < |trace[0].cb| && t !in trace[0].rem && trace[0].cb[t].ucState != Unused
    requires forall c | c in calls :: LeavesAlone(c, |trace[0].cb|, t)
    ensures var b := trace[|calls|]; |b.cb| == |trace[0].cb| && b.cb[t] == trace[0].cb[t] && t !in b.rem
    decreases |calls|
  {
    if calls != [] {
      var n := |calls| - 1;
      Front(trace, calls, log);
      assert calls[n] in calls && forall c | c in calls[..n] :: c in calls;
      StaysCreated(trace[..n + 1], calls[..n], log[..n], t);
      NotNamed(calls[n], trace[n], log[n], t);
      CreatedEvents(trace[n], log[n], t);
      hide Amounts, LegalRun, ApplyAll, LeavesAlone;
    }
  }

  /** A one-shot timer that has just been started fires exactly once, at its n-th tick. */
  lemma {:induction false} FiresOnce(trace: seq<Abs>, calls: seq<Call>, log: seq<seq<Event>>, t: nat)
    requires Told(trace, calls, log) && t in trace[0].rem && t < |trace[0].cb| && trace[0].rem[t] > 0
    requires trace[0].cb[t].ucMode == Once && trace[0].cb[t].ucState == Ticking
    requires forall c | c in calls :: LeavesAlone(c, |trace[0].cb|, t)
    ensures |trace| == |log| + 1
    ensures FiringsOf(trace, log, t) == if TicksOf(log) < trace[0].rem[t] then 0 else 1
    ensures var a, b := trace[0], trace[|calls|];
            && |b.cb| == |a.cb|
            && if TicksOf(log) < a.rem[t] then t in b.rem && b.rem[t] == a.rem[t] - TicksOf(log) && b.cb[t] == a.cb[t]
               else t !in b.rem
    decreases |calls|
  {
    if calls != [] {
      var n := |calls| - 1;
      Front(trace, calls, log);
      assert calls[n] in calls && forall c | c in calls[..n] :: c in calls;
      FiresOnce(trace[..n + 1], calls[..n], log[..n], t);
      FiringsLast(trace, log, t);
      if t in trace[n].rem {
        NotNamed(calls[n], trace[n], log[n], t);
        OnceEvents(trace[n], log[n], t);
      } else {
        NotStarted(calls[n], trace[n], log[n], t);
        IdleEvents(trace[n], log[n], t);
      }
      hide Amounts, LegalRun, ApplyAll, Firings, LeavesAlone;
    }
  }

  /** The block that a creation has taken. */
  function BlockOf(es: seq<Event>): nat { if es != [] && es[0].Create? then es[0].i else 0 }

  /** A block as the creation of a timer with this interval and mode leaves it. */
  predicate AsCreated(t: Timer, n: nat, m: nat, s: State)
  {
    t.ucState == s && t.ucOverrun == 0 && (t.ucMode == Once <==> m == 0) && t.uwInterval == n && t.uwExpiry == n
  }

  lemma CreationDone(c: Call, a: Abs, es: seq<Event>, b: Abs)
    requires Answers(c, a, es, b) && InOrder(a) && c.CreateCall? && !Refused(c, a)
    ensures var t := BlockOf(es);
            && t < |a.cb| == |b.cb| && t !in b.rem && AsCreated(b.cb[t], c.uwInterval, c.ucMode, Created)
            && b.cb[t].usTimerID % |b.cb| == t && b.cb[t].usTimerID < MaxId(|b.cb|)
  {
    OneEvent(a, es[0]);
    assert es == [es[0]];
    assert BlockAt(a.cb, es[0].i);
    hide MaxId;
  }

  lemma StartDone(c: Call, a: Abs, es: seq<Event>, b: Abs, t: nat, n: nat, m: nat)
    requires Answers(c, a, es, b) && t < |a.cb| && t !in a.rem && AsCreated(a.cb[t], n, m, Created)
    requires c == StartCall(a.cb[t].usTimerID) && a.cb[t].usTimerID % |a.cb| == t
             && a.cb[t].usTimerID < MaxId(|a.cb|)
    ensures |b.cb| == |a.cb| && t in b.rem && b.rem[t] == n && AsCreated(b.cb[t], n, m, Ticking)
  {
    OneEvent(a, Start(t));
    hide MaxId;
  }

  /** A part of a run is a run. */
  lemma ToldPart(trace: seq<Abs>, calls: seq<Call>, log: seq<seq<Event>>, lo: nat, hi: nat)
    requires Told(trace, calls, log) && lo <= hi <= |calls|
    ensures Told(trace[lo..hi + 1], calls[lo..hi], log[lo..hi])
    ensures trace[lo..hi + 1][0] == trace[lo] && trace[lo..hi + 1][hi - lo] == trace[hi]
  {
    hide Answers;
    forall i | 0 <= i < hi - lo
      ensures Answers(calls[lo..hi][i], trace[lo..hi + 1][i], log[lo..hi][i], trace[lo..hi + 1][i + 1])
    {
      assert Answers(calls[lo + i], trace[lo + i], log[lo + i], trace[lo + i + 1]);
    }
  }

  lemma {:induction false} FiringsSplit(trace: seq<Abs>, log: seq<seq<Event>>, t: nat, j: nat)
    requires |trace| == |log| + 1 && j <= |log|
    ensures FiringsOf(trace, log, t) == FiringsOf(trace[..j + 1], log[..j], t) + FiringsOf(trace[j..], log[j..], t)
    decreases |log|
  {
    hide Firings, LegalRun;
    if j < |log| {
      var n := |log| - 1;
      FiringsSplit(trace[..n + 1], log[..n], t, j);
      assert trace[..n + 1][..j + 1] == trace[..j + 1] && log[..n][..j] == log[..j];
      assert trace[j..][..n - j + 1] == trace[..n + 1][j..] && log[j..][..n - j] == log[..n][j..];
    } else {
      assert trace[..j + 1] == trace && log[..j] == log;
    }
  }

  lemma Quotient(x: nat, n: nat, f: nat, r: int)
    requires 1 <= r <= n && x + r == n + f * n
    ensures f == x / n
  {
    var q, d := x / n, x % n;
    assert x == q * n + d;
    assert (f - q) * n == f * n - q * n == d + r - n;
    MulBound(f - q, n);
  }

  /** A timer that has just been started and is left alone fires once, at its n-th tick, or at every n-th tick. */
  lemma TicksFromStart(trace: seq<Abs>, calls: seq<Call>, log: seq<seq<Event>>, t: nat)
    requires Told(trace, calls, log) && t < |trace[0].cb| && t in trace[0].rem && trace[0].cb[t].ucState == Ticking
    requires trace[0].rem[t] == trace[0].cb[t].uwInterval > 0
    requires forall c | c in calls :: LeavesAlone(c, |trace[0].cb|, t)
    ensures |trace| == |log| + 1
    ensures var n := trace[0].cb[t].uwInterval;
            FiringsOf(trace, log, t)
            == if trace[0].cb[t].ucMode == Period then TicksOf(log) / n else if TicksOf(log) < n then 0 else 1
  {
    Length(trace, calls, log);
    if trace[0].cb[t].ucMode == Once {
      FiresOnce(trace, calls, log, t);
    } else {
      KeepsTime(trace, calls, log, t);
      var b := trace[|calls|];
      StillThere(b, t);
      Quotient(TicksOf(log), trace[0].cb[t].uwInterval, FiringsOf(trace, log, t), b.rem[t]);
    }
    hide Answers, Told, FiringsOf, TicksOf;
  }

  /** From the arguments of the calls: a timer that has been created with interval `n` and then started, and that nobody
      else touches, does not fire before the n-th tick after its start; in mode 0 it fires at that tick and never again,
      in mode 1 at every n-th tick. */
  lemma FiresAsAsked(trace: seq<Abs>, calls: seq<Call>, log: seq<seq<Event>>, j: nat)
    requires Told(trace, calls, log) && 0 < j < |calls| && InOrder(trace[0])
    requires calls[0].CreateCall? && !Refused(calls[0], trace[0]) && BlockOf(log[0]) < |trace[1].cb|
    requires calls[j] == StartCall(trace[1].cb[BlockOf(log[0])].usTimerID)
    requires forall k | 0 < k < |calls| && k != j :: LeavesAlone(calls[k], |trace[0].cb|, BlockOf(log[0]))
    ensures var n, t, ticks := calls[0].uwInterval, BlockOf(log[0]), TicksOf(log[j + 1..]);
            && n > 0 && FiringsOf(trace[1..], log[1..], t)
            == if calls[0].ucMode == 1 then ticks / n else if ticks < n then 0 else 1
  {
    hide *;
    Length(trace, calls, log);
    var n, m, t := calls[0].uwInterval, calls[0].ucMode, BlockOf(log[0]);
    AnswerAt(trace, calls, log, 0);
    CreationDone(calls[0], trace[0], log[0], trace[1]);
    NotRefused(calls[0], trace[0]);
    ToldPart(trace, calls, log, 1, j);
    assert forall c | c in calls[1..j] ::
        LeavesAlone(c, |trace[0].cb|, t) by { PartAlone(calls, 1, j, |trace[0].cb|, t); }
    CreatedIs(trace[1].cb[t], n, m, Created);
    StaysCreated(trace[1..j + 1], calls[1..j], log[1..j], t);
    AnswerAt(trace, calls, log, j);
    StartDone(calls[j], trace[j], log[j], trace[j + 1], t, n, m);
    ToldPart(trace, calls, log, j + 1, |calls|);
    assert forall c | c in calls[j + 1..|calls|] :: LeavesAlone(c, |trace[0].cb|, t) by {
      PartAlone(calls, j + 1, |calls|, |trace[0].cb|, t);
    }
    CreatedIs(trace[j + 1].cb[t], n, m, Ticking);
    TicksFromStart(trace[j + 1..|calls| + 1], calls[j + 1..|calls|], log[j + 1..|calls|], t);
    assert trace[j + 1..|calls| + 1] == trace[j + 1..] && log[j + 1..|calls|] == log[j + 1..];
    ToldPart(trace, calls, log, 1, j + 1);
    SilentUntilStart(trace, calls, log, t, j);
    FiringsSplit(trace[1..], log[1..], t, j);
    assert trace[1..][..j + 1] == trace[1..j + 2] && log[1..][..j] == log[1..j + 1];
    assert trace[1..][j..] == trace[j + 1..] && log[1..][j..] == log[j + 1..];
  }

  lemma CreatedIs(t: Timer, n: nat, m: nat, s: State)
    requires AsCreated(t, n, m, s)
    ensures t.ucState == s && t.uwInterval == n && (t.ucMode == Once <==> m == 0)
  {
  }

  lemma NotRefused(c: Call, a: Abs)
    requires c.CreateCall? && !Refused(c, a)
    ensures c.uwInterval > 0 && c.ucMode <= 1
  {
  }

  lemma AnswerAt(trace: seq<Abs>, calls: seq<Call>, log: seq<seq<Event>>, k: nat)
    requires Told(trace, calls, log) && k < |calls|
    ensures Answers(calls[k], trace[k], log[k], trace[k + 1])
  {
    hide Answers;
  }

  lemma PartAlone(calls: seq<Call>, lo: nat, hi: nat, limit: nat, t: nat)
    requires lo <= hi <= |calls| && forall k | lo <= k < hi :: LeavesAlone(calls[k], limit, t)
    ensures forall c | c in calls[lo..hi] :: LeavesAlone(c, limit, t)
  {
    hide LeavesAlone;
  }

  /** Up to its start, and in the starting call itself, a created timer does not fire. */
  lemma SilentUntilStart(trace: seq<Abs>, calls: seq<Call>, log: seq<seq<Event>>, t: nat, j: nat)
    requires Told(trace, calls, log) && 0 < j < |calls| && calls[j].StartCall?
    requires t < |trace[1].cb| && t !in trace[1].rem && |trace[j].cb| == |trace[1].cb|
    requires forall k | 0 < k < j :: LeavesAlone(calls[k], |trace[1].cb|, t)
    ensures |trace| == |log| + 1 && FiringsOf(trace[1..j + 2], log[1..j + 1], t) == 0
  {
    Length(trace, calls, log);
    ToldPart(trace, calls, log, 1, j);
    PartAlone(calls, 1, j, |trace[1].cb|, t);
    StaysSilent(trace[1..j + 1], calls[1..j], log[1..j], t);
    AnswerAt(trace, calls, log, j);
    StartsOnly(calls[j], trace[j], log[j], t);
    assert trace[1..j + 2][..j] == trace[1..j + 1] && log[1..j + 1][..j - 1] == log[1..j];
    FiringsLast(trace[1..j + 2], log[1..j + 1], t);
    hide LeavesAlone, Answers, Told;
  }

  lemma StartsOnly(c: Call, a: Abs, es: seq<Event>, t: nat)
    requires c.StartCall? && Amounts(c, a, es) && LegalRun(a, es)
    ensures Firings(a, es, t) == 0
  {
    if es != [] { assert es[1..] == []; }
    hide Apply;
  }

  /** A timer that has been stopped or deleted does not fire, unless it is started again. */
  lemma StoppedIsSilent(trace: seq<Abs>, calls: seq<Call>, log: seq<seq<Event>>, t: nat)
    requires Told(trace, calls, log) && calls != [] && (calls[0].StopCall? || calls[0].DeleteCall?) && log[0] != []
    requires 0 < |trace[0].cb| && t == calls[0].usSwTmrID % |trace[0].cb|
    requires forall k | 0 < k < |calls| :: calls[k].StartCall? ==> LeavesAlone(calls[k], |trace[0].cb|, t)
    ensures |trace| == |log| + 1 && FiringsOf(trace[1..], log[1..], t) == 0 && t !in trace[|calls|].rem
  {
    Length(trace, calls, log);
    AnswerAt(trace, calls, log, 0);
    OneEvent(trace[0], log[0][0]);
    assert log[0] == [log[0][0]];
    assert t !in trace[1].rem && |trace[1].cb| == |trace[0].cb|;
    ToldPart(trace, calls, log, 1, |calls|);
    assert forall c | c in calls[1..|calls|] :: c.StartCall? ==> LeavesAlone(c, |trace[1].cb|, t);
    StaysSilent(trace[1..|calls| + 1], calls[1..|calls|], log[1..|calls|], t);
    assert trace[1..|calls| + 1] == trace[1..] && log[1..|calls|] == log[1..];
    hide *;
  }

  // ---------------------------------------------------------------- what a timer is set to

  /** Identifier, mode and interval are the same. */
  predicate SameSettings(t: Timer, u: Timer)
  {
    u.usTimerID == t.usTimerID && u.ucMode == t.ucMode && u.uwInterval == t.uwInterval && u.uwExpiry == t.uwExpiry
  }

  lemma SettingsEvent(a: Abs, e: Event, t: nat)
    requires Legal(a, e) && t < |a.cb|
    ensures var b := Apply(a, e);
            && |b.cb| == |a.cb|
            && (a.cb[t].ucState != Unused && b.cb[t].ucState != Unused ==> SameSettings(a.cb[t], b.cb[t]))
            && (e.Tick? && a.cb[t].ucState == Unused ==> b.cb[t].ucState == Unused)
  {
    hide FiredRem, Lowered;
  }

  lemma {:induction false} SettingsTicks(a: Abs, es: seq<Event>, t: nat)
    requires LegalRun(a, es) && AllTicks(es) && t < |a.cb|
    ensures var b := ApplyAll(a, es);
            && |b.cb| == |a.cb| && (a.cb[t].ucState == Unused ==> b.cb[t].ucState == Unused)
            && (b.cb[t].ucState != Unused ==> SameSettings(a.cb[t], b.cb[t]))
    decreases |es|
  {
    if |es| > 0 {
      assert es[0] in es && forall e | e in es[1..] :: e in es;
      SettingsEvent(a, es[0], t);
      SettingsTicks(Apply(a, es[0]), es[1..], t);
      hide Apply, Legal;
    }
  }

  lemma SettingsCall(c: Call, a: Abs, es: seq<Event>, b: Abs, t: nat)
    requires Answers(c, a, es, b) && t < |a.cb|
    ensures |b.cb| == |a.cb|
    ensures a.cb[t].ucState != Unused && b.cb[t].ucState != Unused ==> SameSettings(a.cb[t], b.cb[t])
  {
    if c.AdjustCall? {
      SettingsTicks(a, es, t);
    } else if es != [] {
      assert es == [es[0]];
      OneEvent(a, es[0]);
      SettingsEvent(a, es[0], t);
    }
    hide Apply, Legal, Refused, AllTicks, Leads;
  }

  /** Whatever is called, and however it is stopped and started: while a timer is in use, its identifier, its mode and
      its interval are those that it was created with. */
  lemma {:induction false} SettingsStay(trace: seq<Abs>, calls: seq<Call>, log: seq<seq<Event>>, t: nat)
    requires Told(trace, calls, log) && t < |trace[0].cb|
    requires forall k | 0 <= k < |trace| :: t < |trace[k].cb| && trace[k].cb[t].ucState != Unused
    ensures var b := trace[|calls|]; |b.cb| == |trace[0].cb| && SameSettings(trace[0].cb[t], b.cb[t])
    decreases |calls|
  {
    if calls != [] {
      var n := |calls| - 1;
      Front(trace, calls, log);
      SettingsStay(trace[..n + 1], calls[..n], log[..n], t);
      SettingsCall(calls[n], trace[n], log[n], trace[n + 1], t);
      hide Answers;
    }
  }

  lemma RestartDone(c: Call, a: Abs, es: seq<Event>, b: Abs, t: nat)
    requires Answers(c, a, es, b) && InOrder(a) && c.StartCall? && es == [Start(t)]
    ensures t < |a.cb| == |b.cb| && t in b.rem && b.rem[t] == a.cb[t].uwInterval > 0
    ensures b.cb[t].ucState == Ticking && SameSettings(a.cb[t], b.cb[t]) && b.cb[t].uwExpiry == b.cb[t].uwInterval
  {
    OneEvent(a, Start(t));
    assert t < |a.cb| && BlockAt(a.cb, t);
    hide MaxId;
  }

  /** Starting a timer that is created, stopped or ticking makes it count its whole interval afresh: it fires next at
      the n-th tick after that, once if it is one-shot, and at every n-th tick if it is periodic. */
  lemma StartCountsAfresh(trace: seq<Abs>, calls: seq<Call>, log: seq<seq<Event>>, t: nat)
    requires Told(trace, calls, log) && calls != [] && InOrder(trace[0]) && calls[0].StartCall? && log[0] == [Start(t)]
    requires forall k | 0 < k < |calls| :: LeavesAlone(calls[k], |trace[0].cb|, t)
    ensures |trace| == |log| + 1 && t < |trace[0].cb|
    ensures var n, ticks := trace[0].cb[t].uwInterval, TicksOf(log[1..]);
            && n > 0 && FiringsOf(trace[1..], log[1..], t)
            == if trace[0].cb[t].ucMode == Period then ticks / n else if ticks < n then 0 else 1
  {
    hide *;
    Length(trace, calls, log);
    AnswerAt(trace, calls, log, 0);
    RestartDone(calls[0], trace[0], log[0], trace[1], t);
    ToldPart(trace, calls, log, 1, |calls|);
    PartAlone(calls, 1, |calls|, |trace[0].cb|, t);
    var b := trace[1];
    SettingsAre(trace[0].cb[t], b.cb[t]);
    TicksFromStart(trace[1..|calls| + 1], calls[1..|calls|], log[1..|calls|], t);
    assert trace[1..|calls| + 1] == trace[1..] && log[1..|calls|] == log[1..];
  }

  lemma SettingsAre(t: Timer, u: Timer)
    requires SameSettings(t, u)
    ensures u.ucMode == t.ucMode && u.uwInterval == t.uwInterval
  {
  }
}
