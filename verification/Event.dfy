/** Event flags (kernel/base/ipc/los_event.c). */
module Event {
  import opened DeltaList
  import opened Errno
  import opened Steps
  import opened Tasks
  import opened TaskSystem

  const WAITMODE_CLR: bv32 := 1
  const WAITMODE_OR: bv32 := 2
  const WAITMODE_AND: bv32 := 4
  const ERRTYPE: bv32 := 0x0200_0000

  predicate ModeOr(mode: bv32) { mode & WAITMODE_OR != 0 }

  predicate ModeAnd(mode: bv32) { mode & WAITMODE_AND != 0 }

  predicate ModeClear(mode: bv32) { mode & WAITMODE_CLR != 0 }

  function Common(a: bv32, b: bv32): bv32 { a & b }

  predicate Hits(a: bv32, b: bv32) { Common(a, b) != 0 }

  predicate Covers(a: bv32, mask: bv32) { a & mask == mask }

  /** Does the event word meet the condition?  (The mode is either OR or AND, as `LOS_EventRead` insists.) */
  predicate Satisfied(uwEventID: bv32, mask: bv32, mode: bv32)
  {
    if ModeOr(mode) then Hits(uwEventID, mask) else Covers(uwEventID, mask)
  }

  /** Bit 25 marks an error code. */
  predicate IsError(r: bv32) { r & ERRTYPE != 0 }

  function SetBits(uwEventID: bv32, uwEvents: bv32): bv32 { uwEventID | uwEvents }

  function KeepBits(uwEventID: bv32, uwEvents: bv32): bv32 { uwEventID & uwEvents }

  predicate GoodArgs(mask: bv32, mode: bv32)
  {
    && mask != 0 && !IsError(mask)
    && (ModeOr(mode) <==> !ModeAnd(mode))
    && mode & !(WAITMODE_OR | WAITMODE_AND | WAITMODE_CLR) == 0
  }

  /** What `LOS_EventRead` has to say about its arguments, and about being called from an interrupt. */
  function ArgError(mask: bv32, mode: bv32, isr: bool): bv32
  {
    if mask == 0 then ERRNO_EVENT_EVENTMASK_INVALID
    else if IsError(mask) then ERRNO_EVENT_SETBIT_INVALID
    else if !GoodArgs(mask, mode) then ERRNO_EVENT_FLAGS_INVALID
    else if isr then ERRNO_EVENT_READ_IN_INTERRUPT else 0
  }

  /** What `LOS_EventPoll` returns. */
  function Polled(uwEventID: bv32, mask: bv32, mode: bv32): bv32
  {
    if mode & WAITMODE_OR != 0 then
      if uwEventID & mask != 0 then uwEventID & mask else 0
    else
      if mask != 0 && mask == uwEventID & mask then uwEventID & mask else 0
  }

  function AfterPoll(uwEventID: bv32, mask: bv32, mode: bv32): bv32
  {
    var uwRet := Polled(uwEventID, mask, mode);
    if uwRet != 0 && WAITMODE_CLR & mode != 0 then uwEventID & !uwRet else uwEventID
  }

  /** Exactly one bit. */
  predicate Single(b: bv32) { b != 0 && b & (b - 1) == 0 }

  /** A read that hands back `r` and was asked to clear takes exactly the bits of `r`; any other one leaves the word. */
  predicate Took(id0: bv32, id1: bv32, r: bv32, mode: bv32)
  {
    if r != 0 && ModeClear(mode) then id1 & r == 0 && id1 | r == id0 else id1 == id0
  }

  /** In AND mode the whole mask is found, or nothing; in OR mode exactly the bits that are both in the mask and in the
      word. */
  ghost predicate Found(id: bv32, mask: bv32, mode: bv32, r: bv32)
  {
    if ModeOr(mode) then forall b | Single(b) :: Hits(r, b) <==> Hits(id, b) && Hits(mask, b)
    else r == if Covers(id, mask) then mask else 0
  }

  // ---------------------------------------------------------------- facts about bits

  lemma BothBits(x: bv32, y: bv32, b: bv32)
    requires Single(b)
    ensures Hits(x & y, b) <==> Hits(x, b) && Hits(y, b)
  {
    assert (x & y) & b != 0 <==> x & b != 0 && y & b != 0;
  }

  /** Bit by bit, what keeping the bits of `keep` leaves. */
  lemma KeptBits(id: bv32, keep: bv32)
    ensures forall b | Single(b) :: Hits(KeepBits(id, keep), b) <==> Hits(id, b) && Hits(keep, b)
  {
    hide Hits, Single;
    forall b | Single(b) ensures Hits(KeepBits(id, keep), b) <==> Hits(id, b) && Hits(keep, b) {
      BothBits(id, keep, b);
    }
  }

  /** Bit by bit, what setting the bits of `more` gives. */
  lemma SetBitsAll(id: bv32, more: bv32)
    ensures forall b | Single(b) :: Hits(SetBits(id, more), b) <==> Hits(id, b) || Hits(more, b)
  {
    hide Hits, Single, SetBits;
    forall b | Single(b) ensures Hits(SetBits(id, more), b) <==> Hits(id, b) || Hits(more, b) {
      HitsEither(id, more, b);
      HitsBack(more, b);
    }
  }

  lemma HitsBack(a: bv32, b: bv32)
    ensures Hits(a, b) == Hits(b, a)
  {
    assert a & b == b & a;
  }

  lemma PollFinds(id: bv32, mask: bv32, mode: bv32)
    requires GoodArgs(mask, mode)
    ensures Found(id, mask, mode, Polled(id, mask, mode))
  {
    PollIs(id, mask, mode);
    KeptBits(id, mask);
    hide Polled, Hits, Single, Covers, GoodArgs;
  }

  lemma PollIs(id: bv32, mask: bv32, mode: bv32)
    requires GoodArgs(mask, mode)
    ensures Polled(id, mask, mode) == if ModeOr(mode) then KeepBits(id, mask) else if Covers(id, mask) then mask else 0
  {
  }

  lemma PollTakes(id: bv32, mask: bv32, mode: bv32)
    ensures Took(id, AfterPoll(id, mask, mode), Polled(id, mask, mode), mode)
  {
    PollPart(id, mask, mode);
    TakenBits(id, mask);
    ClearAsked(mode);
    hide Polled;
  }

  lemma ClearAsked(mode: bv32)
    ensures WAITMODE_CLR & mode == mode & WAITMODE_CLR
  {
  }

  lemma PollPart(id: bv32, mask: bv32, mode: bv32)
    ensures Polled(id, mask, mode) == id & mask || Polled(id, mask, mode) == 0
  {
  }

  lemma TakenBits(id: bv32, mask: bv32)
    ensures var r := id & mask; (id & !r) & r == 0 && (id & !r) | r == id
  {
  }

  /** A poll finds something exactly if the condition is met; what it finds lies in the mask, so it is no error code. */
  lemma PollMeaning(uwEventID: bv32, mask: bv32, mode: bv32)
    requires GoodArgs(mask, mode)
    ensures Polled(uwEventID, mask, mode) != 0 <==> Satisfied(uwEventID, mask, mode)
    ensures InMask(Polled(uwEventID, mask, mode), mask) && !IsError(Polled(uwEventID, mask, mode))
  {
    hide InMask, IsError;
    var r := uwEventID & mask;
    SubMask(r, mask, uwEventID);
    ZeroInMask(mask);
  }

  lemma SubMask(r: bv32, mask: bv32, id: bv32)
    requires r == id & mask
    ensures InMask(r, mask)
    ensures !IsError(mask) ==> !IsError(r)
  {
  }

  lemma ZeroInMask(mask: bv32)
    ensures InMask(0, mask) && !IsError(0)
  {
  }

  /** Taking bits away satisfies nobody. */
  lemma FewerBits(id: bv32, keep: bv32, mask: bv32, mode: bv32)
    ensures Satisfied(KeepBits(id, keep), mask, mode) ==> Satisfied(id, mask, mode)
  {
    Masked(id, keep, mask);
  }

  lemma Masked(id: bv32, keep: bv32, mask: bv32)
    ensures (id & keep) & mask != 0 ==> id & mask != 0
    ensures (id & keep) & mask == mask ==> id & mask == mask
  {
  }

  /** The test that `LOS_EventWrite` makes for a waiter: OR looks at the new bits only, AND at the whole word. */
  predicate WakeTest(uwEvents: bv32, uwEventID: bv32, mask: bv32, mode: bv32)
  {
    (ModeOr(mode) && Hits(mask, uwEvents)) || (ModeAnd(mode) && Covers(uwEventID, mask))
  }

  /** For a waiter whose condition was not met before, looking at the new bits is enough. */
  lemma NewBitsSuffice(id: bv32, uwEvents: bv32, mask: bv32, mode: bv32)
    requires GoodArgs(mask, mode) && !Satisfied(id, mask, mode)
    ensures WakeTest(uwEvents, SetBits(id, uwEvents), mask, mode) <==> Satisfied(SetBits(id, uwEvents), mask, mode)
  {
    hide ModeOr, ModeAnd, Hits, Covers, SetBits, GoodArgs;
    OneMode(mask, mode);
    HitsEither(id, uwEvents, mask);
  }

  lemma OneMode(mask: bv32, mode: bv32)
    requires GoodArgs(mask, mode)
    ensures ModeOr(mode) <==> !ModeAnd(mode)
  {
  }

  lemma CommonSpreads(a: bv32, b: bv32, mask: bv32)
    ensures Common(SetBits(a, b), mask) == SetBits(Common(a, mask), Common(mask, b))
  {
    assert (a | b) & mask == (a & mask) | (mask & b);
  }

  lemma NoBits(a: bv32, b: bv32)
    ensures SetBits(a, b) == 0 <==> a == 0 && b == 0
  {
  }

  lemma HitsEither(a: bv32, b: bv32, mask: bv32)
    ensures Hits(SetBits(a, b), mask) <==> Hits(a, mask) || Hits(mask, b)
  {
    hide Common, SetBits;
    CommonSpreads(a, b, mask);
    NoBits(Common(a, mask), Common(mask, b));
  }

  // ---------------------------------------------------------------- the invariant

  /** Nobody waits for a condition that the event word meets: no wake-up is lost. */
  ghost predicate WaiterOk(c: Core, uwEventID: bv32, t: Task)
  {
    && t in c.tcb && c.tcb[t].wait.Waiting? && c.tcb[t].wait.call.EventArgs?
    && GoodArgs(c.tcb[t].wait.call.uwEventMask, c.tcb[t].wait.call.uwEventMode)
    && !Satisfied(uwEventID, c.tcb[t].wait.call.uwEventMask, c.tcb[t].wait.call.uwEventMode)
  }

  ghost predicate OneOk(cbs: seq<bv32>, c: Core, e: nat)
    requires e < |cbs|
  {
    forall t | t in At(c.lists, EvL(e)) :: WaiterOk(c, cbs[e], t)
  }

  /** A call that has been woken and has not resumed still knows its arguments. */
  ghost predicate CallsOk(c: Core)
  {
    forall t | t in c.tcb && c.tcb[t].wait.Waiting? && c.tcb[t].wait.id.EvL? :: CallOk(c.tcb[t].wait.call)
  }

  predicate CallOk(call: Call)
  {
    call.EventArgs? && GoodArgs(call.uwEventMask, call.uwEventMode)
  }

  ghost predicate EventsOk(cbs: seq<bv32>, c: Core)
  {
    CallsOk(c) && forall e | 0 <= e < |cbs| :: OneOk(cbs, c, e)
  }

  lemma EventsKept(cbs: seq<bv32>, c: Core, c': Core, mine: set<ListId>)
    requires EventsOk(cbs, c) && Kept(c, c', mine) && forall o | o in mine :: !o.EvL?
    ensures EventsOk(cbs, c')
  {
    forall e | 0 <= e < |cbs| ensures OneOk(cbs, c', e) {
      assert KeptAt(c, c', EvL(e)) && OneOk(cbs, c, e);
      forall t | t in At(c'.lists, EvL(e)) ensures WaiterOk(c', cbs[e], t) {
        assert WaiterOk(c, cbs[e], t);
      }
    }
  }

  lemma OthersKept(cbs: seq<bv32>, cbs': seq<bv32>, c: Core, c': Core, e: nat)
    requires EventsOk(cbs, c) && e < |cbs| == |cbs'| && Kept(c, c', {EvL(e)}) && CallsOk(c')
    requires (forall j | 0 <= j < |cbs| && j != e :: cbs'[j] == cbs[j]) && OneOk(cbs', c', e)
    ensures EventsOk(cbs', c')
  {
    forall j | 0 <= j < |cbs'| ensures OneOk(cbs', c', j) {
      if j != e {
        assert KeptAt(c, c', EvL(j)) && OneOk(cbs, c, j);
        forall t | t in At(c'.lists, EvL(j)) ensures WaiterOk(c', cbs'[j], t) {
          assert WaiterOk(c, cbs[j], t);
        }
      }
    }
  }

  lemma FewerOk(cbs: seq<bv32>, c: Core, e: nat, keep: bv32)
    requires EventsOk(cbs, c) && e < |cbs|
    ensures EventsOk(cbs[e := KeepBits(cbs[e], keep)], c)
  {
    var cbs' := cbs[e := KeepBits(cbs[e], keep)];
    forall j | 0 <= j < |cbs'| ensures OneOk(cbs', c, j) {
      assert OneOk(cbs, c, j);
      forall t | t in At(c.lists, EvL(j)) ensures WaiterOk(c, cbs'[j], t) {
        assert WaiterOk(c, cbs[j], t);
        if j == e {
          hide Satisfied, GoodArgs, KeepBits;
          FewerBits(cbs[e], keep, c.tcb[t].wait.call.uwEventMask, c.tcb[t].wait.call.uwEventMode);
        }
      }
    }
  }

  class Events {
    const tasks: TaskSystem
    var cbs: seq<bv32>              // uwEventID of each control block

    ghost predicate Valid()
      reads this, tasks, tasks.wheel
    {
      tasks.Valid() && EventsOk(cbs, tasks.State())
    }

    /** `LOS_EventInit` of every control block. */
    constructor (tasks: TaskSystem, limit: nat)
      requires tasks.Valid() && tasks.State().lists == map[] && tasks.tcb == map[]
      ensures Valid() && this.tasks == tasks && |cbs| == limit && forall e | 0 <= e < limit :: cbs[e] == 0
    {
      this.tasks := tasks;
      cbs := seq(limit, (e: nat) => 0);
    }

    /** `LOS_EventPoll`. */
    method EventPoll(e: nat, uwEventMask: bv32, uwMode: bv32) returns (uwRet: bv32)
      requires Valid() && e < |cbs|
      modifies this
      ensures Valid() && uwRet == Polled(old(cbs)[e], uwEventMask, uwMode)
      ensures cbs == old(cbs)[e := AfterPoll(old(cbs)[e], uwEventMask, uwMode)]
      ensures Took(old(cbs)[e], cbs[e], uwRet, uwMode)
      ensures GoodArgs(uwEventMask, uwMode) ==> Found(old(cbs)[e], uwEventMask, uwMode, uwRet)
    {
      hide EventsOk, WF, Polled, AfterPoll, KeepBits, Took, Found, GoodArgs;
      PollTakes(cbs[e], uwEventMask, uwMode);
      if GoodArgs(uwEventMask, uwMode) { PollFinds(cbs[e], uwEventMask, uwMode); }
      uwRet := Polled(cbs[e], uwEventMask, uwMode);
      ghost var keep := PollKeeps(cbs[e], uwEventMask, uwMode);
      FewerOk(cbs, tasks.State(), e, keep);
      cbs := cbs[e := AfterPoll(cbs[e], uwEventMask, uwMode)];
    }

    lemma PollKeeps(id: bv32, mask: bv32, mode: bv32) returns (keep: bv32)
      ensures AfterPoll(id, mask, mode) == KeepBits(id, keep)
    {
      var r := Polled(id, mask, mode);
      keep := if r != 0 && WAITMODE_CLR & mode != 0 then !r else 0xFFFF_FFFF;
      hide Polled;
      AllOnes(id);
    }

    lemma AllOnes(id: bv32)
      ensures id & 0xFFFF_FFFF == id
    {
    }

    /** `LOS_EventClear`: keep only the given bits. */
    method EventClear(e: nat, uwEvents: bv32) returns (uwRet: bv32)
      requires Valid()
      modifies this
      ensures Valid() && uwRet == if e >= |old(cbs)| then ERRNO_EVENT_PTR_NULL else 0
      ensures cbs == if e < |old(cbs)| then old(cbs)[e := KeepBits(old(cbs)[e], uwEvents)] else old(cbs)
      ensures e < |old(cbs)| ==>
                forall b | Single(b) :: Hits(cbs[e], b) <==> Hits(old(cbs)[e], b) && Hits(uwEvents, b)
    {
      if e >= |cbs| {
        return ERRNO_EVENT_PTR_NULL;
      }
      hide EventsOk, WF, KeepBits, Hits, Single;
      KeptBits(cbs[e], uwEvents);
      FewerOk(cbs, tasks.State(), e, uwEvents);
      cbs := cbs[e := KeepBits(cbs[e], uwEvents)];
      uwRet := 0;
    }

    /** The argument checks of `LOS_EventRead`: 0 if there is nothing to complain about. */
    method CheckArgs(uwEventMask: bv32, uwMode: bv32, isr: bool) returns (uwErr: bv32)
      ensures uwErr == ArgError(uwEventMask, uwMode, isr)
    {
      if uwEventMask == 0 {
        return ERRNO_EVENT_EVENTMASK_INVALID;
      }
      if uwEventMask & ERRTYPE != 0 {
        return ERRNO_EVENT_SETBIT_INVALID;
      }
      if (uwMode & WAITMODE_OR != 0 && uwMode & WAITMODE_AND != 0)
         || uwMode & !(WAITMODE_OR | WAITMODE_AND | WAITMODE_CLR) != 0
         || uwMode & (WAITMODE_OR | WAITMODE_AND) == 0 {
        EitherMode(uwMode);
        return ERRNO_EVENT_FLAGS_INVALID;
      }
      EitherMode(uwMode);
      if isr {
        return ERRNO_EVENT_READ_IN_INTERRUPT;
      }
      return 0;
    }

    /** No complaint means good arguments; any complaint is an error code. */
    lemma ArgErrors(mask: bv32, mode: bv32, isr: bool)
      ensures ArgError(mask, mode, isr) == 0 <==> GoodArgs(mask, mode) && !isr
      ensures ArgError(mask, mode, isr) != 0 ==> IsError(ArgError(mask, mode, isr))
    {
    }

    lemma EitherMode(m: bv32)
      ensures m & (WAITMODE_OR | WAITMODE_AND) == 0 <==> m & WAITMODE_OR == 0 && m & WAITMODE_AND == 0
    {
    }

    /** `LOS_EventRead` up to `LOS_Schedule`: None when the caller is now waiting.  A number that is out of range stands
        for NULL. */
    method EventRead(e: nat, uwEventMask: bv32, uwMode: bv32, uwTimeOut: nat, isr: bool) returns (uwRet: Option<bv32>)
      requires Valid() && (!isr ==> tasks.Running()) && uwTimeOut <= WAIT_FOREVER
      modifies this, tasks`tcb, tasks`lists, tasks`out, tasks`stamp, tasks`clock, tasks.wheel
      ensures Valid()
      ensures e >= |old(cbs)| || !GoodArgs(uwEventMask, uwMode) || isr ==>
                && uwRet == Some(if e >= |old(cbs)| then ERRNO_EVENT_PTR_NULL else ArgError(uwEventMask, uwMode, isr))
                   && IsError(uwRet.value)
                && cbs == old(cbs) && tasks.State() == old(tasks.State())
      ensures e < |old(cbs)| && GoodArgs(uwEventMask, uwMode) && !isr ==>
                var r := Polled(old(cbs)[e], uwEventMask, uwMode);
                && cbs == old(cbs)[e := AfterPoll(old(cbs)[e], uwEventMask, uwMode)]
                && Took(old(cbs)[e], cbs[e], r, uwMode) && Found(old(cbs)[e], uwEventMask, uwMode, r)
                && uwRet == (if r != 0 || uwTimeOut == 0 then Some(r)
                             else if tasks.usLosTaskLock != 0 then Some(ERRNO_EVENT_READ_IN_LOCK) else None)
      ensures uwRet.Some? ==> tasks.State() == old(tasks.State())
      ensures uwRet.Some? ==> Unambiguous(uwRet.value, uwEventMask)
      ensures uwRet.None? ==>
                && Kept(old(tasks.State()), tasks.State(), {EvL(e)})
                   && SamePriorities(old(tasks.State()), tasks.State())
                && At(tasks.lists, EvL(e)) == At(old(tasks.lists), EvL(e)) + [tasks.pstRunTask]
                && Began(old(tasks.State()), tasks.State(), tasks.pstRunTask,
                   Waiting(EvL(e), EventArgs(uwEventMask, uwMode)), Timeout(uwTimeOut), [])
    {
      hide *;
      EventParts();
      ghost var c := tasks.State();
      NullIsError();
      if e >= |cbs| {
        ErrorUnambiguous(ERRNO_EVENT_PTR_NULL, uwEventMask);
        return Some(ERRNO_EVENT_PTR_NULL);
      }
      var uwErr := CheckArgs(uwEventMask, uwMode, isr);
      ArgErrors(uwEventMask, uwMode, isr);
      ErrUnambiguous(uwEventMask);
      if uwErr != 0 {
        ErrorUnambiguous(uwErr, uwEventMask);
        return Some(uwErr);
      }
      PollMeaning(cbs[e], uwEventMask, uwMode);
      var r := EventPoll(e, uwEventMask, uwMode);
      FoundUnambiguous(r, uwEventMask);
      if r != 0 || uwTimeOut == 0 {
        return Some(r);
      }
      if tasks.usLosTaskLock != 0 {
        return Some(ERRNO_EVENT_READ_IN_LOCK);
      }
      NothingTaken(old(cbs)[e], uwEventMask, uwMode);
      Wait(e, uwEventMask, uwMode, uwTimeOut);
      return None;
    }

    lemma NullIsError()
      ensures IsError(ERRNO_EVENT_PTR_NULL)
    {
    }

    lemma EventParts()
      requires Valid()
      ensures tasks.Valid() && EventsOk(cbs, tasks.State())
    {
    }

    lemma EventWhole()
      requires tasks.Valid() && EventsOk(cbs, tasks.State())
      ensures Valid()
    {
    }

    lemma NothingTaken(id: bv32, mask: bv32, mode: bv32)
      requires Polled(id, mask, mode) == 0
      ensures AfterPoll(id, mask, mode) == id
    {
      hide Polled;
    }

    /** The blocking part of `LOS_EventRead`. */
    method Wait(e: nat, uwEventMask: bv32, uwMode: bv32, uwTimeOut: nat)
      requires Valid() && e < |cbs| && tasks.Running() && 0 < uwTimeOut <= WAIT_FOREVER
      requires GoodArgs(uwEventMask, uwMode) && !Satisfied(cbs[e], uwEventMask, uwMode)
      modifies tasks`tcb, tasks`lists, tasks`out, tasks`stamp, tasks`clock, tasks.wheel
      ensures Valid()
      ensures Kept(old(tasks.State()), tasks.State(), {EvL(e)}) && SamePriorities(old(tasks.State()), tasks.State())
      ensures At(tasks.lists, EvL(e)) == At(old(tasks.lists), EvL(e)) + [tasks.pstRunTask]
      ensures Began(old(tasks.State()), tasks.State(), tasks.pstRunTask,
              Waiting(EvL(e), EventArgs(uwEventMask, uwMode)), Timeout(uwTimeOut), [])
    {
      hide EventsOk, WF, Kept, GoodArgs, Satisfied, PendStep, SamePriorities, OnlyTask, Began;
      ghost var c, t := tasks.State(), tasks.pstRunTask;
      tasks.PendTail(EvL(e), EventArgs(uwEventMask, uwMode), uwTimeOut);
      PendParts(c, tasks.State(), t, EvL(e), EventArgs(uwEventMask, uwMode), Timeout(uwTimeOut));
      PendBegan(c, tasks.State(), t, EvL(e), EventArgs(uwEventMask, uwMode), |At(c.lists, EvL(e))|, Timeout(uwTimeOut));
      WaitOk(cbs, c, tasks.State(), e, t);
    }

    lemma PendParts(c: Core, c': Core, t: Task, id: ListId, call: Call, timeout: Option<nat>)
      requires PendStep(c, c', t, id, call, |At(c.lists, id)|, timeout)
      ensures Kept(c, c', {id}) && SamePriorities(c, c') && OnlyTask(c, c', t)
      ensures t in c.tcb && t in c'.tcb && c'.tcb[t].wait == Waiting(id, call)
              && At(c'.lists, id) == At(c.lists, id) + [t] && t !in At(c.lists, id)
    {
      AtTail(c, c', t, id, call, timeout);
    }

    /** The end of `LOS_EventRead` after `LOS_Schedule`: look again; somebody else may have taken the bits meanwhile. */
    method EventReadResume() returns (uwRet: bv32)
      requires Valid() && tasks.pstRunTask in tasks.tcb && tasks.tcb[tasks.pstRunTask].ready
      requires tasks.tcb[tasks.pstRunTask].wait.Waiting? && tasks.tcb[tasks.pstRunTask].wait.id.EvL?
      requires tasks.tcb[tasks.pstRunTask].wait.id.e < |cbs|
      modifies this, tasks`tcb, tasks`flight
      ensures Valid() && tasks.out == old(tasks.out) && tasks.pstRunTask in tasks.out
      ensures FinishStep(old(tasks.State()), tasks.State(), tasks.pstRunTask, tasks.out[tasks.pstRunTask] == [TimedOut])
      ensures var w := old(tasks.tcb)[tasks.pstRunTask].wait;
              && w.call.EventArgs? && Unambiguous(uwRet, w.call.uwEventMask)
              && (tasks.out[tasks.pstRunTask] == [TimedOut] ==> uwRet == ERRNO_EVENT_READ_TIMEOUT && cbs == old(cbs))
              && (tasks.out[tasks.pstRunTask] != [TimedOut] ==>
                    && tasks.out[tasks.pstRunTask] == [Given]
                    && uwRet == Polled(old(cbs)[w.id.e], w.call.uwEventMask, w.call.uwEventMode)
                    && cbs == old(cbs)[w.id.e := AfterPoll(old(cbs)[w.id.e], w.call.uwEventMask, w.call.uwEventMode)]
                    && Took(old(cbs)[w.id.e], cbs[w.id.e], uwRet, w.call.uwEventMode)
                    && Found(old(cbs)[w.id.e], w.call.uwEventMask, w.call.uwEventMode, uwRet))
    {
      hide EventsOk, WF, Kept, GoodArgs, Satisfied, FinishStep, Unambiguous, Polled, AfterPoll, Took, Found;
      ghost var c, t := tasks.State(), tasks.pstRunTask;
      var w := tasks.tcb[tasks.pstRunTask].wait;
      assert TcbOk(c.tcb[t]) by { tasks.TcbFacts(t); }
      CallThere(cbs, c, t);
      var timedOut := tasks.Finish();
      FinishOk(cbs, c, tasks.State(), t, timedOut);
      ErrUnambiguous(w.call.uwEventMask);
      if timedOut {
        return ERRNO_EVENT_READ_TIMEOUT;
      }
      PollMeaning(cbs[w.id.e], w.call.uwEventMask, w.call.uwEventMode);
      uwRet := EventPoll(w.id.e, w.call.uwEventMask, w.call.uwEventMode);
      FoundUnambiguous(uwRet, w.call.uwEventMask);
    }

    lemma CallThere(cbs: seq<bv32>, c: Core, t: Task)
      requires EventsOk(cbs, c) && t in c.tcb && c.tcb[t].wait.Waiting? && c.tcb[t].wait.id.EvL?
      ensures c.tcb[t].wait.call.EventArgs? && GoodArgs(c.tcb[t].wait.call.uwEventMask, c.tcb[t].wait.call.uwEventMode)
    {
      assert CallOk(c.tcb[t].wait.call);
    }

    /** `LOS_EventWrite`: set bits and wake exactly the waiters whose condition is now met. */
    method EventWrite(e: nat, uwEvents: bv32) returns (uwRet: bv32, ghost woken: seq<Task>)
      requires Valid()
      modifies this, tasks`tcb, tasks`lists, tasks`flight, tasks`out, tasks.wheel
      ensures Valid() && Kept(old(tasks.State()), tasks.State(), {EvL(e)})
              && SamePriorities(old(tasks.State()), tasks.State())
      ensures uwRet == if e >= |old(cbs)| then ERRNO_EVENT_PTR_NULL
              else if IsError(uwEvents) then ERRNO_EVENT_SETBIT_INVALID else 0
      ensures Calm(old(tasks.State()), tasks.State(), woken, [])
      ensures uwRet != 0 ==> cbs == old(cbs) && tasks.State() == old(tasks.State()) && woken == []
      ensures uwRet == 0 ==> e < |old(cbs)| && cbs == old(cbs)[e := SetBits(old(cbs)[e], uwEvents)]
      ensures uwRet == 0 ==>
                forall b | Single(b) :: Hits(cbs[e], b) <==> Hits(old(cbs)[e], b) || Hits(uwEvents, b)
      ensures uwRet == 0 ==> Wrote(old(tasks.State()), tasks.State(), e, old(cbs)[e], cbs[e], woken)
      ensures uwRet == 0 ==> woken == MetBy(old(tasks.State()), At(old(tasks.lists), EvL(e)), cbs[e])
    {
      hide *;
      EventParts();
      ghost var c := tasks.State();
      CoreFacts(c, {EvL(e)});
      CalmRefl(c);
      NullIsError();
      woken := [];
      if e >= |cbs| {
        SetBitErrors();
        return ERRNO_EVENT_PTR_NULL, [];
      }
      OneFacts(cbs, c, e);
      if IsError(uwEvents) {
        SetBitErrors();
        return ERRNO_EVENT_SETBIT_INVALID, [];
      }
      ghost var id0 := cbs[e];
      SetBitsAll(id0, uwEvents);
      cbs := cbs[e := SetBits(cbs[e], uwEvents)];
      woken := Sweep(e, uwEvents, id0);
      SweepDone(old(cbs), cbs, c, tasks.State(), e, id0, uwEvents, woken);
      EventWhole();
      uwRet := 0;
    }

    lemma OneFacts(cbs: seq<bv32>, c: Core, e: nat)
      requires EventsOk(cbs, c) && e < |cbs|
      ensures CallsOk(c) && AllUnmet(c, e, cbs[e])
    {
      assert OneOk(cbs, c, e);
    }

    lemma CoreFacts(c: Core, mine: set<ListId>)
      requires tasks.Valid() && c == tasks.State()
      ensures WF(c) && Kept(c, c, mine) && SamePriorities(c, c)
    {
      KeptRefl(c, mine);
    }

    /** The loop of `LOS_EventWrite` over the waiters. */
    method Sweep(e: nat, uwEvents: bv32, ghost id0: bv32) returns (ghost woken: seq<Task>)
      requires tasks.Valid() && e < |cbs| && cbs[e] == SetBits(id0, uwEvents) && CallsOk(tasks.State())
      requires AllUnmet(tasks.State(), e, id0)
      modifies tasks`tcb, tasks`lists, tasks`flight, tasks`out, tasks.wheel
      ensures tasks.Valid() && Swept(old(tasks.State()), tasks.State(), e, id0, cbs[e],
              |At(tasks.State().lists, EvL(e))|, woken)
      ensures Calm(old(tasks.State()), tasks.State(), woken, [])
      ensures woken == MetBy(old(tasks.State()), At(old(tasks.lists), EvL(e)), cbs[e])
    {
      hide WF, Kept, WaiterOk, Swept, WakeStep, CallsOk, Calm, InTurn;
      ghost var c := tasks.State();
      woken := [];
      var i := 0;
      SweptStart(c, e, id0, cbs[e]);
      CalmRefl(c);
      while i < |At(tasks.lists, EvL(e))|
        invariant tasks.Valid() && i <= |At(tasks.lists, EvL(e))| && Swept(c, tasks.State(), e, id0, cbs[e], i, woken)
        invariant Calm(c, tasks.State(), woken, []) && InTurn(c, tasks.State(), e, cbs[e], i, woken)
        decreases |At(tasks.lists, EvL(e))| - i
      {
        var pstResumedTask := At(tasks.lists, EvL(e))[i];
        ghost var c1 := tasks.State();
        SweptNext(c, c1, e, id0, cbs[e], i, woken, uwEvents);
        var call := tasks.tcb[pstResumedTask].wait.call;
        if WakeTest(uwEvents, cbs[e], call.uwEventMask, call.uwEventMode) {
          tasks.WakeWaiter(pstResumedTask, EvL(e));
          SweptWake(c, c1, tasks.State(), e, id0, cbs[e], i, woken);
          WakeCalm(c1, tasks.State(), pstResumedTask, EvL(e));
          SweptOthers(c, c1, tasks.State(), e, id0, cbs[e], i, woken);
          CalmThen(c, c1, tasks.State(), woken, [], [pstResumedTask]);
          TurnWoken(c, c1, tasks.State(), e, id0, cbs[e], i, woken);
          woken := woken + [pstResumedTask];
        } else {
          TurnPassed(c, c1, e, id0, cbs[e], i, woken);
          i := i + 1;
        }
      }
      TurnOver(c, tasks.State(), e, cbs[e], i, woken);
    }
  }

  /** A result is 0, or an error code, or a non-empty part of the mask; and one can tell which. */
  predicate Unambiguous(r: bv32, mask: bv32)
  {
    IsError(r) || InMask(r, mask)
  }

  predicate InMask(r: bv32, mask: bv32) { r & !mask == 0 }

  /** For a mask that `LOS_EventRead` accepts, no result is both. */
  lemma NeverBoth(r: bv32, mask: bv32)
    requires !IsError(mask) && InMask(r, mask)
    ensures !IsError(r)
  {
  }

  /** Every error code of a read has the error bit. */
  lemma ReadErrors(mask: bv32, mode: bv32, isr: bool)
    ensures IsError(ERRNO_EVENT_PTR_NULL) && IsError(ERRNO_EVENT_READ_IN_LOCK) && IsError(ERRNO_EVENT_READ_TIMEOUT)
    ensures !GoodArgs(mask, mode) || isr ==> IsError(ArgError(mask, mode, isr))
  {
  }

  /** No error code of a write is 0. */
  lemma SetBitErrors()
    ensures ERRNO_EVENT_SETBIT_INVALID != 0 && ERRNO_EVENT_PTR_NULL != 0
  {
  }

  lemma ErrorUnambiguous(r: bv32, mask: bv32)
    requires IsError(r)
    ensures Unambiguous(r, mask)
  {
  }

  lemma FoundUnambiguous(r: bv32, mask: bv32)
    requires InMask(r, mask)
    ensures Unambiguous(r, mask)
  {
  }

  lemma ErrUnambiguous(mask: bv32)
    ensures Unambiguous(ERRNO_EVENT_READ_IN_LOCK, mask) && Unambiguous(ERRNO_EVENT_READ_TIMEOUT, mask)
  {
  }

  /** Exactly the waiters whose condition is now met have been woken, and given what they waited for. */
  ghost predicate Wrote(c0: Core, c: Core, e: nat, id0: bv32, id1: bv32, woken: seq<Task>)
  {
    && (forall t | t in At(c0.lists, EvL(e)) ::
          WaiterOk(c0, id0, t) && (t in woken <==> Met(c0, id1, t)) && (t in At(c.lists, EvL(e)) <==> t !in woken))
    && (forall t | t in woken :: t in At(c0.lists, EvL(e)) && t in c.out && c.out[t] == [Given])
  }

  /** The condition of a waiter is met. */
  ghost predicate Met(c: Core, uwEventID: bv32, t: Task)
  {
    t in c.tcb && c.tcb[t].wait.Waiting? && c.tcb[t].wait.call.EventArgs?
    && Satisfied(uwEventID, c.tcb[t].wait.call.uwEventMask, c.tcb[t].wait.call.uwEventMode)
  }

  /** The sweep has come to place `i` of the list: before it nobody's condition is met, from it on nobody's was met by
      the old bits, and whoever has left was met. */
  ghost predicate Swept(c0: Core, c: Core, e: nat, id0: bv32, id1: bv32, i: nat, woken: seq<Task>)
  {
    && Kept(c0, c, {EvL(e)}) && SamePriorities(c0, c) && CallsOk(c)
    && Front(c, At(c.lists, EvL(e)), id0, id1, i) && Gone(c0, c, At(c0.lists, EvL(e)), At(c.lists, EvL(e)), id1, woken)
  }

  ghost predicate Front(c: Core, l: seq<Task>, id0: bv32, id1: bv32, i: nat)
  {
    && i <= |l| && Different(l)
    && (forall j | 0 <= j < i :: WaiterOk(c, id1, l[j]))
    && (forall j | i <= j < |l| :: WaiterOk(c, id0, l[j]))
  }

  ghost predicate Gone(c0: Core, c: Core, l0: seq<Task>, l: seq<Task>, id1: bv32, woken: seq<Task>)
  {
    && (forall t | t in l0 :: (t in l <==> t !in woken) && t in c0.tcb && t in c.tcb && c.tcb[t].wait == c0.tcb[t].wait)
    && (forall t | t in l :: t in l0)
    && (forall t | t in woken :: t in l0 && Met(c0, id1, t) && t in c.out && c.out[t] == [Given])
  }

  /** Those of `l` whose condition is met, in the same order. */
  ghost function MetBy(c: Core, l: seq<Task>, uwEventID: bv32): seq<Task>
  {
    if l == [] then []
    else
      var m, t := l[..|l| - 1], l[|l| - 1];
      if Met(c, uwEventID, t) then MetBy(c, m, uwEventID) + [t] else MetBy(c, m, uwEventID)
  }

  lemma {:induction false} MetByElements(c: Core, l: seq<Task>, uwEventID: bv32)
    ensures forall t :: t in MetBy(c, l, uwEventID) <==> t in l && Met(c, uwEventID, t)
  {
    hide Met;
    if l != [] {
      var m := l[..|l| - 1];
      assert l == m + [l[|l| - 1]];
      MetByElements(c, m, uwEventID);
    }
  }

  lemma MetByNext(c: Core, l: seq<Task>, n: nat, uwEventID: bv32)
    requires n < |l|
    ensures MetBy(c, l[..n + 1], uwEventID)
            == if Met(c, uwEventID, l[n]) then MetBy(c, l[..n], uwEventID) + [l[n]] else MetBy(c, l[..n], uwEventID)
  {
    assert l[..n + 1][..n] == l[..n];
    hide Met;
  }

  /** The sweep has come to place `i` of what is left of the list, and those whom it has woken are, in turn, the ones
      that were met among those whom it has seen. */
  ghost predicate InTurn(c0: Core, c: Core, e: nat, id1: bv32, i: nat, woken: seq<Task>)
  {
    var l0, l := At(c0.lists, EvL(e)), At(c.lists, EvL(e));
    && i <= |l| && |l| - i <= |l0| && l0[|l0| - (|l| - i)..] == l[i..]
    && woken == MetBy(c0, l0[..|l0| - (|l| - i)], id1)
  }

  /** The rest of the list, when its first element has been looked at. */
  lemma RestOfList(l0: seq<Task>, l: seq<Task>, i: nat, n: nat)
    requires i < |l| && n + (|l| - i) == |l0| && l0[n..] == l[i..]
    ensures l0[n] == l[i] && l0[n + 1..] == l[i + 1..] && Removed(l, i)[i..] == l[i + 1..]
  {
    assert l0[n..][0] == l[i..][0];
    assert l0[n + 1..] == l0[n..][1..] && l[i + 1..] == l[i..][1..];
  }

  /** The next waiter has been left where it is. */
  lemma TurnPassed(c0: Core, c: Core, e: nat, id0: bv32, id1: bv32, i: nat, woken: seq<Task>)
    requires InTurn(c0, c, e, id1, i, woken) && i < |At(c.lists, EvL(e))| && !Met(c, id1, At(c.lists, EvL(e))[i])
    requires Swept(c0, c, e, id0, id1, i, woken)
    ensures InTurn(c0, c, e, id1, i + 1, woken)
  {
    hide Swept, Met, At, MetBy, Removed;
    var l0, l := At(c0.lists, EvL(e)), At(c.lists, EvL(e));
    var n := |l0| - (|l| - i);
    RestOfList(l0, l, i, n);
    SameMet(c0, c, e, id0, id1, i, woken);
    MetByNext(c0, l0, n, id1);
  }

  /** The next waiter has been woken. */
  lemma TurnWoken(c0: Core, c: Core, c': Core, e: nat, id0: bv32, id1: bv32, i: nat, woken: seq<Task>)
    requires InTurn(c0, c, e, id1, i, woken) && i < |At(c.lists, EvL(e))| && Swept(c0, c, e, id0, id1, i, woken)
    requires var t := At(c.lists, EvL(e))[i]; WakeStep(c, c', t, EvL(e)) && Met(c, id1, t)
    ensures InTurn(c0, c', e, id1, i, woken + [At(c.lists, EvL(e))[i]])
  {
    hide Swept, Met, At, MetBy, Removed, WakeStep;
    var l0, l := At(c0.lists, EvL(e)), At(c.lists, EvL(e));
    var n := |l0| - (|l| - i);
    RestOfList(l0, l, i, n);
    SameMet(c0, c, e, id0, id1, i, woken);
    LeftBy(c, c', e, i);
    MetByNext(c0, l0, n, id1);
  }

  lemma LeftBy(c: Core, c': Core, e: nat, i: nat)
    requires i < |At(c.lists, EvL(e))| && WakeStep(c, c', At(c.lists, EvL(e))[i], EvL(e))
    ensures At(c'.lists, EvL(e)) == Removed(At(c.lists, EvL(e)), i)
            && |At(c'.lists, EvL(e))| == |At(c.lists, EvL(e))| - 1
  {
    WithoutAt(At(c.lists, EvL(e)), i);
    RemovedElements(At(c.lists, EvL(e)), i);
    hide Kept, At, Different, Lined, Without, Removed, WakeTcb, Flying;
  }

  lemma SameMet(c0: Core, c: Core, e: nat, id0: bv32, id1: bv32, i: nat, woken: seq<Task>)
    requires Swept(c0, c, e, id0, id1, i, woken)
    ensures forall t | t in At(c.lists, EvL(e)) :: Met(c0, id1, t) <==> Met(c, id1, t)
  {
    hide Satisfied, Kept, SamePriorities, CallsOk, Front, At;
  }

  lemma TurnOver(c0: Core, c: Core, e: nat, id1: bv32, i: nat, woken: seq<Task>)
    requires InTurn(c0, c, e, id1, i, woken) && i == |At(c.lists, EvL(e))|
    ensures woken == MetBy(c0, At(c0.lists, EvL(e)), id1)
  {
    hide MetBy, At;
    var l0 := At(c0.lists, EvL(e));
    assert l0[..|l0|] == l0;
  }

  /** Waking the next waiter does not touch those woken before. */
  lemma SweptOthers(c0: Core, c: Core, c': Core, e: nat, id0: bv32, id1: bv32, i: nat, woken: seq<Task>)
    requires Swept(c0, c, e, id0, id1, i, woken) && i < |At(c.lists, EvL(e))|
             && WakeStep(c, c', At(c.lists, EvL(e))[i], EvL(e))
    ensures var t := At(c.lists, EvL(e))[i];
            && (forall u | u in [] + woken :: AsReady(c, c', u))
            && forall u | u in woken :: u !in [t] && (u in c0.tcb <==> u in c.tcb)
  {
    var l := At(c.lists, EvL(e));
    assert l[i] in l && [] + woken == woken;
    hide Satisfied, Kept, SamePriorities, CallsOk, Front, At, Without, Lined, Different, Met;
  }

  ghost predicate AllUnmet(c: Core, e: nat, id0: bv32)
  {
    forall t | t in At(c.lists, EvL(e)) :: WaiterOk(c, id0, t)
  }

  lemma SweptStart(c: Core, e: nat, id0: bv32, id1: bv32)
    requires WF(c) && CallsOk(c) && AllUnmet(c, e, id0)
    ensures Swept(c, c, e, id0, id1, 0, []) && InTurn(c, c, e, id1, 0, [])
  {
    KeptRefl(c, {EvL(e)});
    ListDifferent(c, EvL(e));
    WaitersThere(c, EvL(e));
    hide WF, Kept, WaiterOk, Different, CallsOk;
    var l := At(c.lists, EvL(e));
    forall j | 0 <= j < |l| ensures WaiterOk(c, id0, l[j]) { assert l[j] in l; }
  }

  lemma SweptNext(c0: Core, c: Core, e: nat, id0: bv32, id1: bv32, i: nat, woken: seq<Task>, uwEvents: bv32)
    requires Swept(c0, c, e, id0, id1, i, woken) && i < |At(c.lists, EvL(e))| && id1 == SetBits(id0, uwEvents)
    ensures var t := At(c.lists, EvL(e))[i];
            && t in At(c.lists, EvL(e)) && t in c.tcb && c.tcb[t].wait.Waiting? && c.tcb[t].wait.call.EventArgs?
            && (WakeTest(uwEvents, id1, c.tcb[t].wait.call.uwEventMask, c.tcb[t].wait.call.uwEventMode) <==>
                 Met(c, id1, t))
            && (!Met(c, id1, t) ==> Swept(c0, c, e, id0, id1, i + 1, woken))
  {
    hide WaiterOk, Met, Kept, SamePriorities, CallsOk, Gone, WakeTest, SetBits;
    var l := At(c.lists, EvL(e));
    assert WaiterOk(c, id0, l[i]);
    TestMeans(c, id0, uwEvents, l[i]);
    if !Met(c, id1, l[i]) { FrontNext(c, l, id0, id1, i); }
  }

  lemma TestMeans(c: Core, id0: bv32, uwEvents: bv32, t: Task)
    requires WaiterOk(c, id0, t)
    ensures t in c.tcb && c.tcb[t].wait.Waiting? && c.tcb[t].wait.call.EventArgs?
    ensures var id1 := SetBits(id0, uwEvents);
            WakeTest(uwEvents, id1, c.tcb[t].wait.call.uwEventMask, c.tcb[t].wait.call.uwEventMode) <==> Met(c, id1, t)
  {
    hide Satisfied, WakeTest, SetBits, GoodArgs;
    NewBitsSuffice(id0, uwEvents, c.tcb[t].wait.call.uwEventMask, c.tcb[t].wait.call.uwEventMode);
  }

  lemma FrontNext(c: Core, l: seq<Task>, id0: bv32, id1: bv32, i: nat)
    requires Front(c, l, id0, id1, i) && i < |l| && !Met(c, id1, l[i])
    ensures Front(c, l, id0, id1, i + 1)
  {
    hide Satisfied, GoodArgs;
    assert WaiterOk(c, id0, l[i]);
    assert WaiterOk(c, id1, l[i]);
  }

  lemma SweptWake(c0: Core, c: Core, c': Core, e: nat, id0: bv32, id1: bv32, i: nat, woken: seq<Task>)
    requires Swept(c0, c, e, id0, id1, i, woken) && i < |At(c.lists, EvL(e))|
    requires var t := At(c.lists, EvL(e))[i]; WakeStep(c, c', t, EvL(e)) && Met(c, id1, t)
    ensures |At(c'.lists, EvL(e))| == |At(c.lists, EvL(e))| - 1
    ensures Swept(c0, c', e, id0, id1, i, woken + [At(c.lists, EvL(e))[i]])
  {
    var l, l' := At(c.lists, EvL(e)), At(c'.lists, EvL(e));
    var t := l[i];
    WithoutAt(l, i);
    WithoutElements(l, t);
    KeptTrans(c0, c, c', {EvL(e)});
    SweptCalls(c, c', t);
    hide Satisfied, Kept, Without, GoodArgs, CallsOk, Met, WaiterOk, Removed, Different, At;
    FrontWake(c, c', l, id0, id1, i, t);
    GoneWake(c0, c, c', At(c0.lists, EvL(e)), l, l', id1, woken, t);
  }

  lemma WithoutAt(l: seq<Task>, i: nat)
    requires Different(l) && i < |l|
    ensures Without(l, l[i]) == Removed(l, i)
  {
    assert IndexOf(l, l[i]) == i;
  }

  lemma FrontWake(c: Core, c': Core, l: seq<Task>, id0: bv32, id1: bv32, i: nat, t: Task)
    requires Front(c, l, id0, id1, i) && i < |l| && l[i] == t && OnlyTask(c, c', t)
    ensures |Removed(l, i)| == |l| - 1 && Front(c', Removed(l, i), id0, id1, i)
  {
    var l' := Removed(l, i);
    RemovedElements(l, i);
    hide Removed, Satisfied, GoodArgs;
    forall j | 0 <= j < |l'| ensures WaiterOk(c', if j < i then id1 else id0, l'[j]) {
      var u := if j < i then l[j] else l[j + 1];
      assert WaiterOk(c, if j < i then id1 else id0, u);
      assert u != t;
    }
  }

  lemma GoneWake(c0: Core, c: Core, c': Core, l0: seq<Task>, l: seq<Task>, l': seq<Task>, id1: bv32, woken: seq<Task>,
                 t: Task)
    requires Gone(c0, c, l0, l, id1, woken) && t in l && Met(c, id1, t)
    requires forall u :: u in l' <==> u in l && u != t
    requires forall u | u in c.tcb :: u in c'.tcb && c'.tcb[u].wait == c.tcb[u].wait
    requires t in c'.out && c'.out[t] == [Given]
             && forall u | u in c.out && u != t :: u in c'.out && c'.out[u] == c.out[u]
    ensures Gone(c0, c', l0, l', id1, woken + [t])
  {
    hide Satisfied;
    assert t in l0 && Met(c0, id1, t);
  }

  lemma SweptCalls(c: Core, c': Core, t: Task)
    requires CallsOk(c) && OnlyTask(c, c', t) && SamePriorities(c, c') && t in c.tcb && t in c'.tcb
             && c'.tcb[t] == WakeTcb(c.tcb[t])
    ensures CallsOk(c') && forall u | u in c.tcb :: u in c'.tcb && c'.tcb[u].wait == c.tcb[u].wait
  {
  }

  lemma SweptWaiters(c0: Core, c: Core, e: nat, id0: bv32, id1: bv32, woken: seq<Task>)
    requires Swept(c0, c, e, id0, id1, |At(c.lists, EvL(e))|, woken)
    ensures AllUnmet(c, e, id1)
  {
    hide WaiterOk, Kept, Gone, CallsOk;
    var l := At(c.lists, EvL(e));
    forall t | t in l ensures WaiterOk(c, id1, t) {
      var j :| 0 <= j < |l| && l[j] == t;
    }
  }

  lemma SweptGone(c0: Core, c: Core, e: nat, id0: bv32, id1: bv32, woken: seq<Task>)
    requires Gone(c0, c, At(c0.lists, EvL(e)), At(c.lists, EvL(e)), id1, woken) && AllUnmet(c0, e, id0)
             && AllUnmet(c, e, id1)
    ensures Wrote(c0, c, e, id0, id1, woken)
  {
    hide Satisfied, GoodArgs, At;
    forall t | t in At(c0.lists, EvL(e)) ensures t in woken <==> Met(c0, id1, t) {
      if t !in woken { assert WaiterOk(c, id1, t); }
    }
  }

  lemma SweepDone(cbs0: seq<bv32>, cbs1: seq<bv32>, c0: Core, c: Core, e: nat, id0: bv32, uwEvents: bv32,
                  woken: seq<Task>)
    requires EventsOk(cbs0, c0) && e < |cbs0| && cbs0[e] == id0 && cbs1 == cbs0[e := SetBits(id0, uwEvents)]
    requires Swept(c0, c, e, id0, SetBits(id0, uwEvents), |At(c.lists, EvL(e))|, woken)
    ensures EventsOk(cbs1, c) && Kept(c0, c, {EvL(e)}) && SamePriorities(c0, c)
    ensures Wrote(c0, c, e, id0, cbs1[e], woken)
  {
    hide Satisfied, Kept, GoodArgs, CallsOk, WaiterOk, Gone, Front, SetBits, At, Wrote, SamePriorities;
    assert OneOk(cbs0, c0, e);
    SweptWaiters(c0, c, e, id0, cbs1[e], woken);
    SweptGone(c0, c, e, id0, cbs1[e], woken);
    OthersKept(cbs0, cbs1, c0, c, e);
  }

  lemma FinishOk(cbs: seq<bv32>, c: Core, c': Core, t: Task, timedOut: bool)
    requires EventsOk(cbs, c) && FinishStep(c, c', t, timedOut) && c.tcb[t].wait.id.EvL? && c.tcb[t].wait.id.e < |cbs|
    ensures EventsOk(cbs, c')
  {
    var e := c.tcb[t].wait.id.e;
    assert OneOk(cbs, c, e);
    hide Satisfied, Kept, GoodArgs;
    forall u | u in At(c'.lists, EvL(e)) ensures WaiterOk(c', cbs[e], u) {
      assert WaiterOk(c, cbs[e], u);
    }
    CallsOther(c, c', t);
    OthersKept(cbs, cbs, c, c', e);
  }

  lemma WaitOk(cbs: seq<bv32>, c: Core, c': Core, e: nat, t: Task)
    requires EventsOk(cbs, c) && e < |cbs| && Kept(c, c', {EvL(e)}) && SamePriorities(c, c') && OnlyTask(c, c', t)
    requires At(c'.lists, EvL(e)) == At(c.lists, EvL(e)) + [t] && t !in At(c.lists, EvL(e)) && WaiterOk(c', cbs[e], t)
    requires t in c'.tcb && c'.tcb[t].wait.Waiting? && CallOk(c'.tcb[t].wait.call)
    ensures EventsOk(cbs, c')
  {
    hide Satisfied, GoodArgs, Kept, CallOk;
    assert OneOk(cbs, c, e);
    forall u | u in At(c'.lists, EvL(e)) ensures WaiterOk(c', cbs[e], u) {
      if u != t { assert WaiterOk(c, cbs[e], u); }
    }
    CallsOther(c, c', t);
    OthersKept(cbs, cbs, c, c', e);
  }

  lemma CallsOther(c: Core, c': Core, t: Task)
    requires CallsOk(c) && OnlyTask(c, c', t) && c'.tcb.Keys == c.tcb.Keys
    requires t in c'.tcb && c'.tcb[t].wait.Waiting? && c'.tcb[t].wait.id.EvL? ==> CallOk(c'.tcb[t].wait.call)
    ensures CallsOk(c')
  {
  }
}
