/** Software timers (kernel/base/core/los_swtmr.c): one list of ticking timers, sorted by remaining time and stored as
    differences, a list of unused control blocks, and periodic timers that are re-armed inside the expiry loop. */
module SwTimer {
  import opened DeltaList

  const OS_OK: nat := 0
  const ERRNO_PTR_NULL: nat := 0x0200_0300
  const ERRNO_INTERVAL_NOT_SUITED: nat := 0x0200_0301
  const ERRNO_MODE_INVALID: nat := 0x0200_0302
  const ERRNO_RET_PTR_NULL: nat := 0x0200_0303
  const ERRNO_MAXSIZE: nat := 0x0200_0304
  const ERRNO_ID_INVALID: nat := 0x0200_0305
  const ERRNO_NOT_CREATED: nat := 0x0200_0306
  const ERRNO_NOT_STARTED: nat := 0x0200_030d
  const TICKS: int := 0x1_0000_0000

  datatype State = Unused | Created | Ticking
  datatype Mode = Once | Period

  /** A control block without its place in a list and without `uwCount`. */
  datatype Timer = Timer(usTimerID: nat, ucState: State, ucMode: Mode, ucOverrun: nat, uwInterval: int, uwExpiry: int)

  /** `OS_SWTMR_MAX_TIMERID` for a number of control blocks. */
  function MaxId(limit: nat): nat
    requires limit > 0
  {
    (65535 / limit) * limit
  }

  /** The identifier of a block after its one-shot timer has fired. */
  function NextId(id: nat, limit: nat): nat
    requires limit > 0
  {
    if id < MaxId(limit) - limit then id + limit else id % limit
  }

  lemma NextIdFits(id: nat, limit: nat)
    requires 0 < limit <= 65535 && id < MaxId(limit)
    ensures NextId(id, limit) < MaxId(limit) && NextId(id, limit) % limit == id % limit
  {
    var q := 65535 / limit;
    assert q >= 1;
    assert limit <= q * limit by { assert (q - 1) * limit >= 0; }
    ModAgain(id, limit);
  }

  lemma ModAgain(id: nat, limit: nat)
    requires limit > 0
    ensures id % limit < limit && (id % limit) % limit == id % limit && (id + limit) % limit == id % limit
  {
    var q, r := id / limit, id % limit;
    assert id == q * limit + r;
    assert id + limit == (q + 1) * limit + r;
    ModUnique(id + limit, limit, q + 1, r);
  }

  lemma ModUnique(x: nat, n: nat, q: int, r: int)
    requires n > 0 && x == q * n + r && 0 <= r < n
    ensures x % n == r
  {
    var q', r' := x / n, x % n;
    assert x == q' * n + r' && 0 <= r' < n;
    assert q * n - q' * n == (q - q') * n;
    MulBound(q - q', n);
  }

  lemma MulBound(d: int, n: int)
    requires n > 0
    ensures d >= 1 ==> d * n >= n
    ensures d <= -1 ==> d * n <= -n
  {
  }

  // ---------------------------------------------------------------- the plain picture

  /** Remaining ticks of the ticking timers, and the control blocks. */
  datatype Abs = Abs(rem: map<nat, int>, cb: seq<Timer>)

  datatype Event = Start(i: nat) | Stop(i: nat) | Delete(i: nat) | Create(i: nat, interval: int, mode: Mode) | Tick

  /** The count that `osSwTmrStart` loads. */
  function Initial(t: Timer): int
  {
    if t.ucOverrun == 0 && t.ucMode == Once then t.uwExpiry else t.uwInterval
  }

  function Stopped(t: Timer): Timer { t.(ucState := Created, ucOverrun := 0) }

  /** A block whose timer has just fired. */
  function Fired(t: Timer, limit: nat): Timer
    requires limit > 0
  {
    if t.ucMode == Once then t.(ucState := Unused, usTimerID := NextId(t.usTimerID, limit))
    else t.(ucOverrun := (t.ucOverrun + 1) % 256)
  }

  function Lowered(rem: map<nat, int>, s: int): map<nat, int>
  {
    map t | t in rem :: rem[t] - s
  }

  /** Timers with no time left fire: one-shot timers leave, periodic ones start again with their interval. */
  function FiredRem(rem: map<nat, int>, cb: seq<Timer>): map<nat, int>
  {
    map t | t in rem && (rem[t] != 0 || (t < |cb| && cb[t].ucMode == Period)) ::
        if rem[t] != 0 then rem[t] else cb[t].uwInterval
  }

  function ZeroLeft(rem: map<nat, int>): set<nat>
  {
    set t | t in rem && rem[t] == 0
  }

  function FiredPrefix(cb: seq<Timer>, fired: set<nat>, n: nat): (r: seq<Timer>)
    requires n <= |cb|
    ensures |r| == n && forall i | 0 <= i < n :: r[i] == if i in fired then Fired(cb[i], |cb|) else cb[i]
  {
    if n == 0 then [] else FiredPrefix(cb, fired, n - 1) + [if n - 1 in fired then Fired(cb[n - 1], |cb|)
      else cb[n - 1]]
  }

  /** The blocks when the timers in `fired` have fired. */
  function SomeFiredBlocks(cb: seq<Timer>, fired: set<nat>): (r: seq<Timer>)
    ensures |r| == |cb| && forall i | 0 <= i < |cb| :: r[i] == if i in fired then Fired(cb[i], |cb|) else cb[i]
  {
    FiredPrefix(cb, fired, |cb|)
  }

  function FiredBlocks(rem: map<nat, int>, cb: seq<Timer>): seq<Timer>
  {
    SomeFiredBlocks(cb, ZeroLeft(rem))
  }

  lemma LoweredKeys(rem: map<nat, int>, s: int)
    ensures Lowered(rem, s).Keys == rem.Keys && forall t | t in rem :: Lowered(rem, s)[t] == rem[t] - s
  {
  }

  lemma NothingFires(rem: map<nat, int>, cb: seq<Timer>)
    requires forall t | t in rem :: rem[t] != 0
    ensures FiredRem(rem, cb) == rem && FiredBlocks(rem, cb) == cb
  {
  }

  function TickAbs(a: Abs, s: int): Abs
  {
    Abs(FiredRem(Lowered(a.rem, s), a.cb), FiredBlocks(Lowered(a.rem, s), a.cb))
  }

  predicate Legal(a: Abs, e: Event)
  {
    match e
    case Start(i) => i < |a.cb| && a.cb[i].ucState != Unused
    case Stop(i) => i < |a.cb| && a.cb[i].ucState == Ticking
    case Delete(i) => i < |a.cb| && a.cb[i].ucState != Unused
    case Create(i, n, m) => i < |a.cb| && a.cb[i].ucState == Unused && 0 < n < TICKS
    case Tick => true
  }

  function Apply(a: Abs, e: Event): Abs
    requires Legal(a, e)
  {
    match e
    case Start(i) =>
      var t := if a.cb[i].ucState == Ticking then Stopped(a.cb[i]) else a.cb[i];
      Abs(a.rem[i := Initial(t)], a.cb[i := t.(ucState := Ticking)])
    case Stop(i) => Abs(a.rem - {i}, a.cb[i := Stopped(a.cb[i])])
    case Delete(i) =>
      var t := if a.cb[i].ucState == Ticking then Stopped(a.cb[i]) else a.cb[i];
      Abs(a.rem - {i}, a.cb[i := t.(ucState := Unused)])
    case Create(i, n, m) => Abs(a.rem, a.cb[i := Timer(a.cb[i].usTimerID, Created, m, 0, n, n)])
    case Tick => TickAbs(a, 1)
  }

  predicate LegalRun(a: Abs, es: seq<Event>)
    decreases |es|
  {
    |es| == 0 || (Legal(a, es[0]) && LegalRun(Apply(a, es[0]), es[1..]))
  }

  function ApplyAll(a: Abs, es: seq<Event>): Abs
    requires LegalRun(a, es)
    decreases |es|
  {
    if |es| == 0 then a else ApplyAll(Apply(a, es[0]), es[1..])
  }

  function CountTicks(es: seq<Event>): nat
  {
    if |es| == 0 then 0 else (if es[0].Tick? then 1 else 0) + CountTicks(es[1..])
  }

  /** How often timer `t` fires in a run. */
  function Firings(a: Abs, es: seq<Event>, t: nat): nat
    requires LegalRun(a, es)
    decreases |es|
  {
    if |es| == 0 then 0
    else (if es[0].Tick? && t in a.rem && a.rem[t] == 1 then 1 else 0) + Firings(Apply(a, es[0]), es[1..], t)
  }

  predicate Names(e: Event, t: nat)
  {
    !e.Tick? && e.i == t
  }

  /** A ticking timer with `n` ticks to go, while nobody starts, stops or deletes it, fires at exactly its `n`-th tick,
      whatever happens to the other timers; and if it is one-shot its block is then unused under another identifier. */
  lemma {:induction false} FiresOnTime(a: Abs, es: seq<Event>, t: nat)
    requires t in a.rem && t < |a.cb| && a.rem[t] > CountTicks(es) && LegalRun(a, es)
    requires forall e | e in es :: !Names(e, t)
    ensures var b := ApplyAll(a, es);
            && |b.cb| == |a.cb| && b.cb[t] == a.cb[t]
            && t in b.rem && b.rem[t] == a.rem[t] - CountTicks(es) && Firings(a, es, t) == 0
            && (b.rem[t] == 1 ==> TickAbs(b, 1).cb[t] == Fired(a.cb[t], |a.cb|))
            && (b.rem[t] == 1 && a.cb[t].ucMode == Once ==> t !in TickAbs(b, 1).rem)
    decreases |es|
  {
    if |es| > 0 {
      assert es[0] in es && forall e | e in es[1..] :: e in es;
      FiresOnTime(Apply(a, es[0]), es[1..], t);
    }
  }

  /** Timer `t` is as it was but for its count of firings. */
  predicate SameTimer(a: Abs, b: Abs, t: nat)
  {
    |b.cb| == |a.cb| && t < |a.cb| && b.cb[t] == a.cb[t].(ucOverrun := b.cb[t].ucOverrun)
  }

  /** A periodic timer does not drift: over any run that leaves it alone, ticks elapsed plus ticks to go are its first
      expiry plus a whole number of intervals, one for each firing. */
  lemma {:induction false} NoDrift(a: Abs, es: seq<Event>, t: nat)
    requires t in a.rem && t < |a.cb| && a.cb[t].ucMode == Period && 1 <= a.rem[t] <= a.cb[t].uwInterval
             && LegalRun(a, es)
    requires forall e | e in es :: !Names(e, t)
    ensures var b := ApplyAll(a, es);
            && SameTimer(a, b, t) && t in b.rem && 1 <= b.rem[t] <= a.cb[t].uwInterval
            && CountTicks(es) + b.rem[t] == a.rem[t] + Firings(a, es, t) * a.cb[t].uwInterval
    decreases |es|
  {
    if |es| > 0 {
      assert es[0] in es && forall e | e in es[1..] :: e in es;
      var a1 := Apply(a, es[0]);
      PeriodicStep(a, es[0], t);
      hide Apply, Legal, TickAbs;
      NoDrift(a1, es[1..], t);
      OneMore(Firings(a1, es[1..], t), a.cb[t].uwInterval);
    }
  }

  lemma OneMore(f: int, n: int)
    ensures (f + 1) * n == f * n + n
  {
  }

  lemma PeriodicStep(a: Abs, e: Event, t: nat)
    requires t in a.rem && t < |a.cb| && a.cb[t].ucMode == Period && 1 <= a.rem[t] <= a.cb[t].uwInterval && Legal(a, e)
             && !Names(e, t)
    ensures var a1 := Apply(a, e);
            && SameTimer(a, a1, t) && t in a1.rem
            && a1.rem[t] == if !e.Tick? then a.rem[t] else if a.rem[t] == 1 then a.cb[t].uwInterval else a.rem[t] - 1
  {
  }

  function Scans(a: Abs, n: nat): Abs
  {
    if n == 0 then a else TickAbs(Scans(a, n - 1), 1)
  }

  /** Lowering by several ticks at once, when nobody is due before, is that many single ticks. */
  lemma {:induction false} ScansTogether(a: Abs, n: nat)
    requires forall t | t in a.rem :: n <= a.rem[t]
    ensures n > 0 ==> Scans(a, n) == TickAbs(a, n)
    ensures (forall t | t in a.rem :: n < a.rem[t]) ==> Scans(a, n) == Abs(Lowered(a.rem, n), a.cb)
    decreases n
  {
    if n > 0 {
      ScansTogether(a, n - 1);
      LoweredTwice(a.rem, n - 1);
      if forall t | t in a.rem :: n < a.rem[t] { NothingDue(a, n); }
      hide FiredRem, FiredBlocks, Lowered;
    } else {
      assert Lowered(a.rem, 0) == a.rem;
    }
  }

  lemma LoweredTwice(rem: map<nat, int>, n: nat)
    ensures Lowered(Lowered(rem, n), 1) == Lowered(rem, n + 1)
  {
  }

  lemma NothingDue(a: Abs, n: nat)
    requires forall t | t in a.rem :: n < a.rem[t]
    ensures TickAbs(a, n) == Abs(Lowered(a.rem, n), a.cb)
  {
    assert FiredRem(Lowered(a.rem, n), a.cb) == Lowered(a.rem, n);
    assert FiredBlocks(Lowered(a.rem, n), a.cb) == a.cb;
  }

  // ---------------------------------------------------------------- the representation

  ghost predicate Blocks(cb: seq<Timer>)
  {
    && 0 < |cb| <= 65535
    && forall i | 0 <= i < |cb| :: BlockAt(cb, i)
  }

  /** An identifier leads back to its block; a created timer has an interval. */
  ghost predicate BlockAt(cb: seq<Timer>, i: nat)
    requires i < |cb|
  {
    && cb[i].usTimerID % |cb| == i && cb[i].usTimerID < MaxId(|cb|) && cb[i].ucOverrun < 256
    && (cb[i].ucState != Unused ==> 1 <= cb[i].uwInterval < TICKS && cb[i].uwExpiry == cb[i].uwInterval)
  }

  ghost predicate Different(l: seq<nat>)
  {
    forall i, j | 0 <= i < j < |l| :: l[i] != l[j]
  }

  /** Each block is on the list that its state says, and on no other; blocks in `out` are on none. */
  ghost predicate Partition(cb: seq<Timer>, sortList: seq<nat>, freeList: seq<nat>, out: set<nat>)
  {
    && Different(freeList)
    && (forall i | i in sortList || i in freeList :: i < |cb| && i !in out)
    && (forall i: nat | i < |cb| && i !in out ::
         (cb[i].ucState == Ticking <==> i in sortList) && (cb[i].ucState == Unused <==> i in freeList))
  }

  /** The delta list stands for the map `rem`. */
  ghost predicate Refines(sortList: seq<nat>, uwCount: map<nat, int>, rem: map<nat, int>)
  {
    && List(sortList, uwCount) && ListCounts(sortList, uwCount, 1, 0, rem)
    && forall t :: t in rem <==> t in sortList
  }

  ghost predicate Bounded(rem: map<nat, int>, cb: seq<Timer>)
  {
    forall t | t in rem :: t < |cb| && rem[t] <= cb[t].uwInterval
  }

  ghost predicate HaveIntervals(rem: map<nat, int>, cb: seq<Timer>)
  {
    forall t | t in rem :: t < |cb| && cb[t].uwInterval >= 1
  }

  ghost predicate Settled(rem: map<nat, int>)
  {
    forall t | t in rem :: rem[t] >= 1
  }

  lemma HeadIsLeast(sortList: seq<nat>, uwCount: map<nat, int>, rem: map<nat, int>)
    requires Refines(sortList, uwCount, rem) && |sortList| > 0
    ensures sortList[0] in rem && rem[sortList[0]] == CountOf(uwCount, sortList[0])
    ensures forall t | t in rem :: rem[t] >= rem[sortList[0]] >= 0
  {
    assert CountAt(sortList, uwCount, 1, 0, rem, 0);
    assert Sum(sortList, uwCount, 1) == Sum(sortList, uwCount, 0) + CountOf(uwCount, sortList[0]);
    forall t | t in rem ensures rem[t] >= rem[sortList[0]] {
      var i :| 0 <= i < |sortList| && sortList[i] == t;
      assert CountAt(sortList, uwCount, 1, 0, rem, i);
      SumMonotone(sortList, uwCount, 1, i + 1);
    }
  }

  lemma {:induction false} HeadLoweredSum(l: seq<nat>, r0: map<nat, int>, r1: map<nat, int>, s: int, n: nat)
    requires List(l, r0) && 0 < n <= |l|
    requires CountOf(r1, l[0]) == CountOf(r0, l[0]) - s && forall x | x != l[0] :: CountOf(r1, x) == CountOf(r0, x)
    ensures Sum(l, r1, n) == Sum(l, r0, n) - s
    decreases n
  {
    if n > 1 { HeadLoweredSum(l, r0, r1, s, n - 1); } else { assert Sum(l, r0, 0) == Sum(l, r1, 0) == 0; }
  }

  /** Lowering the head lowers everybody. */
  lemma HeadLowered(l: seq<nat>, r0: map<nat, int>, s: nat, rem: map<nat, int>)
    requires Refines(l, r0, rem) && |l| > 0 && s <= CountOf(r0, l[0])
    ensures Refines(l, r0[l[0] := CountOf(r0, l[0]) - s], Lowered(rem, s))
  {
    var r1 := r0[l[0] := CountOf(r0, l[0]) - s];
    forall i | 0 <= i < |l| ensures CountAt(l, r1, 1, 0, Lowered(rem, s), i) {
      assert CountAt(l, r0, 1, 0, rem, i);
      HeadLoweredSum(l, r0, r1, s, i + 1);
    }
  }

  /** The state when the timers in `fired` have fired. */
  ghost function SomeFiredRem(rem: map<nat, int>, cb: seq<Timer>, fired: set<nat>): map<nat, int>
  {
    map t | t in rem && (t !in fired || (t < |cb| && cb[t].ucMode == Period)) ::
        if t !in fired then rem[t] else cb[t].uwInterval
  }

  lemma SomeFiredNone(rem: map<nat, int>, cb: seq<Timer>)
    ensures SomeFiredRem(rem, cb, {}) == rem && SomeFiredBlocks(cb, {}) == cb
  {
  }

  lemma SomeFiredStep(rem: map<nat, int>, cb: seq<Timer>, fired: set<nat>, h: nat)
    requires h in rem && h !in fired && h < |cb|
    ensures var r, c := SomeFiredRem(rem, cb, fired), SomeFiredBlocks(cb, fired);
            && |c| == |cb| && c[h] == cb[h]
            && SomeFiredRem(rem, cb, fired + {h}) == (if c[h].ucMode == Once then r - {h} else r[h := c[h].uwInterval])
            && SomeFiredBlocks(cb, fired + {h}) == c[h := Fired(c[h], |c|)]
  {
    var r, c := SomeFiredRem(rem, cb, fired), SomeFiredBlocks(cb, fired);
    assert SomeFiredRem(rem, cb, fired + {h}) == (if c[h].ucMode == Once then r - {h} else r[h := c[h].uwInterval]);
    assert SomeFiredBlocks(cb, fired + {h}) == c[h := Fired(c[h], |c|)];
  }

  /** The fields of a block that has fired still fit, before and after its identifier or its overrun count moves on. */
  lemma FiredFits(cb: seq<Timer>, h: nat)
    requires Blocks(cb) && h < |cb| && cb[h].ucState == Ticking
    ensures 0 < |cb| && NextId(cb[h].usTimerID, |cb|) < MaxId(|cb|)
    ensures var d := cb[h := cb[h].(ucState := Unused)];
            BlockAt(d[h := d[h].(usTimerID := NextId(d[h].usTimerID, |d|))], h)
    ensures BlockAt(cb[h := cb[h].(ucOverrun := (cb[h].ucOverrun + 1) % 256)], h)
    ensures Initial(cb[h].(ucOverrun := (cb[h].ucOverrun + 1) % 256)) == cb[h].uwInterval
    ensures Fired(cb[h], |cb|) == if cb[h].ucMode == Once
            then cb[h].(ucState := Unused, usTimerID := NextId(cb[h].usTimerID, |cb|))
                                  else cb[h].(ucOverrun := (cb[h].ucOverrun + 1) % 256)
  {
    assert BlockAt(cb, h);
    NextIdFits(cb[h].usTimerID, |cb|);
  }

  function FreshBlocks(limit: nat): seq<Timer>
  {
    seq(limit, (i: nat) => Timer(i, Unused, Once, 0, 0, 0))
  }

  lemma FreshState(limit: nat)
    requires 0 < limit <= 65535
    ensures Blocks(FreshBlocks(limit)) && Partition(FreshBlocks(limit), [], seq(limit, (i: nat) => i), {})
  {
    var cb, free := FreshBlocks(limit), seq(limit, (i: nat) => i);
    var q := 65535 / limit;
    assert limit <= MaxId(limit) by {
      assert q >= 1;
      MulBound(q - 1, limit);
      OneMore(q - 1, limit);
    }
    hide MaxId;
    forall i: nat | i < limit ensures BlockAt(cb, i) {
      ModUnique(i, limit, 0, i);
    }
    forall i: nat | i < limit ensures i in free { assert free[i] == i; }
  }

  class SwTimers {
    var cb: seq<Timer>              // m_pstSwtmrCBArray
    var uwCount: map<nat, int>      // the field uwCount of each block
    var sortList: seq<nat>          // m_pstSwtmrSortList, from its head
    var freeList: seq<nat>          // m_pstSwtmrFreeList, from its head
    ghost var rem: map<nat, int>

    /** The invariant inside an operation, while the blocks in `out` are held. */
    ghost predicate Holding(out: set<nat>)
      reads this
    {
      && Blocks(cb) && Partition(cb, sortList, freeList, out) && Refines(sortList, uwCount, rem) && Bounded(rem, cb)
    }

    ghost predicate Valid()
      reads this
    {
      Holding({}) && Settled(rem)
    }

    ghost function State(): Abs
      reads this
    {
      Abs(rem, cb)
    }

    /** The lists of `osSwTmrInit`. */
    constructor (limit: nat)
      requires 0 < limit <= 65535
      ensures Valid() && rem == map[] && |cb| == limit
              && forall i | 0 <= i < limit :: cb[i].usTimerID == i && cb[i].ucState == Unused
    {
      cb := FreshBlocks(limit);
      freeList := seq(limit, (i: nat) => i);
      sortList := [];
      uwCount, rem := map[], map[];
      FreshState(limit);
    }

    /** `osSwTmrStart`. */
    method StartTimer(i: nat)
      requires i < |cb| && Holding({i}) && cb[i].ucState != Unused
      modifies this`cb, this`uwCount, this`sortList, this`rem
      ensures Holding({}) && rem == old(rem)[i := Initial(old(cb)[i])]
              && cb == old(cb)[i := old(cb)[i].(ucState := Ticking)]
    {
      ghost var c0, l0 := uwCount, sortList;
      assert BlockAt(cb, i);
      var n := Initial(cb[i]);
      assert n == cb[i].uwInterval;
      var p := FindPlace(i, n);
      sortList := Inserted(sortList, p, i);
      cb := cb[i := cb[i].(ucState := Ticking)];
      rem := rem[i := n];
      hide Opened, List, ListCounts, Inserted, Blocks;
      InsertedList(l0, c0, uwCount, p, i, 1, 0, old(rem), n);
      KeepBlocks(old(cb), cb, i);
    }

    /** The walk of `osSwTmrStart`: find the place and turn the count into a difference. */
    method FindPlace(i: nat, n: int) returns (p: nat)
      requires List(sortList, uwCount) && i !in sortList && n >= 0
      modifies this`uwCount
      ensures p <= |sortList| && Opened(sortList, old(uwCount), uwCount, p, i)
      ensures CountOf(uwCount, i) == n - Sum(sortList, old(uwCount), p)
    {
      ghost var c0 := uwCount;
      uwCount := uwCount[i := n];
      p := 0;
      while p < |sortList|
        invariant p <= |sortList| && i in uwCount
        invariant uwCount[i] == n - Sum(sortList, c0, p) && uwCount[i] >= 0
        invariant forall x | x != i :: CountOf(uwCount, x) == CountOf(c0, x)
      {
        if CountOf(uwCount, sortList[p]) > uwCount[i] {
          break;
        }
        uwCount := uwCount[i := uwCount[i] - CountOf(uwCount, sortList[p])];
        p := p + 1;
      }
      if p < |sortList| {
        uwCount := uwCount[sortList[p] := CountOf(uwCount, sortList[p]) - uwCount[i]];
      }
    }

    lemma KeepBlocks(cb0: seq<Timer>, cb1: seq<Timer>, i: nat)
      requires Blocks(cb0) && i < |cb0| && |cb1| == |cb0| && (forall j: nat | j < |cb0| && j != i :: cb1[j] == cb0[j])
               && BlockAt(cb1, i)
      ensures Blocks(cb1)
    {
      forall j: nat | j < |cb1| ensures BlockAt(cb1, j) {
        if j != i { assert BlockAt(cb0, j); }
      }
    }

    /** `osSwtmrDelete`. */
    method DeleteTimer(i: nat)
      requires i < |cb| && Holding({i})
      modifies this`cb, this`freeList
      ensures Holding({}) && cb == old(cb)[i := old(cb)[i].(ucState := Unused)]
      ensures freeList == [i] + old(freeList)
    {
      assert BlockAt(cb, i);
      freeList := [i] + freeList;
      cb := cb[i := cb[i].(ucState := Unused)];
      KeepBlocks(old(cb), cb, i);
    }

    /** `osSwtmrStop`. */
    method StopTimer(i: nat)
      requires Holding({}) && i < |cb| && cb[i].ucState == Ticking
      modifies this`cb, this`uwCount, this`sortList, this`rem
      ensures Holding({}) && rem == old(rem) - {i} && cb == old(cb)[i := Stopped(old(cb)[i])]
      ensures i !in sortList && i !in freeList
    {
      ghost var c0, l0 := uwCount, sortList;
      assert BlockAt(cb, i) && i in sortList && List(l0, c0);
      var p := 0;
      while sortList[p] != i
        invariant p < |sortList| && sortList == l0 && forall q | 0 <= q < p :: l0[q] != i
        decreases |sortList| - p
      {
        p := p + 1;
      }
      if p + 1 < |sortList| {
        uwCount := uwCount[sortList[p + 1] := CountOf(uwCount, sortList[p + 1]) + CountOf(uwCount, i)];
      }
      sortList := Removed(sortList, p);
      cb := cb[i := Stopped(cb[i])];
      rem := rem - {i};
      assert Closed(l0, c0, uwCount, p);
      RemovedList(l0, c0, uwCount, p, 1, 0, old(rem));
      KeepBlocks(old(cb), cb, i);
    }

    /** Take the head, whose count is 0, off the list. */
    method PopHead() returns (h: nat)
      requires Holding({}) && |sortList| > 0 && CountOf(uwCount, sortList[0]) == 0
      modifies this`sortList, this`rem
      ensures h == old(sortList)[0] && h < |cb| && Holding({h}) && rem == old(rem) - {h}
      ensures h in old(rem) && old(rem)[h] == 0 && cb[h].ucState == Ticking
    {
      h := sortList[0];
      HeadIsLeast(sortList, uwCount, rem);
      ghost var l0 := sortList;
      assert sortList[1..] == Removed(l0, 0);
      assert Closed(l0, uwCount, uwCount, 0);
      RemovedList(l0, uwCount, uwCount, 0, 1, 0, rem);
      sortList := sortList[1..];
      rem := rem - {h};
    }

    /** One round of the expiry loop. */
    method FireHead() returns (h: nat)
      requires Holding({}) && |sortList| > 0 && CountOf(uwCount, sortList[0]) == 0
      modifies this
      ensures h == old(sortList)[0] && h < |old(cb)| == |cb| && h in old(rem) && old(rem)[h] == 0
      ensures Holding({}) && cb == old(cb)[h := Fired(old(cb)[h], |old(cb)|)]
      ensures rem == if old(cb)[h].ucMode == Once then old(rem) - {h} else old(rem)[h := old(cb)[h].uwInterval]
      ensures freeList == if old(cb)[h].ucMode == Once then [h] + old(freeList) else old(freeList)
    {
      hide *;
      h := PopHead();
      ghost var t := cb[h];
      FiredFits(cb, h);
      if cb[h].ucMode == Once {
        DeleteTimer(h);
        SetFields(h, cb[h].(usTimerID := NextId(cb[h].usTimerID, |cb|)), {});
      } else {
        SetFields(h, cb[h].(ucOverrun := (cb[h].ucOverrun + 1) % 256), {h});
        StartTimer(h);
        assert (old(rem) - {h})[h := t.uwInterval] == old(rem)[h := t.uwInterval];
      }
    }

    /** `osSwTmrTimeoutHandle`: fire the head as long as it has no time left.  The loop ends although periodic timers
        come back, because they come back with an interval of at least one tick. */
    method TimeoutHandle()
      requires Holding({})
      modifies this
      ensures Valid() && State() == Abs(FiredRem(old(rem), old(cb)), FiredBlocks(old(rem), old(cb)))
    {
      ghost var rem0, cb0 := rem, cb;
      ghost var fired: set<nat> := {};
      SomeFiredNone(rem0, cb0);
      HoldingFacts();
      while sortList != [] && CountOf(uwCount, sortList[0]) == 0
        invariant Holding({}) && fired <= ZeroLeft(rem0)
        invariant rem == SomeFiredRem(rem0, cb0, fired) && cb == SomeFiredBlocks(cb0, fired)
        decreases ZeroLeft(rem0) - fired
      {
        hide *;
        HoldingFacts();
        HeadDue(rem0, cb0, fired);
        var h := FireHead();
        SomeFiredStep(rem0, cb0, fired, h);
        fired := fired + {h};
      }
      hide Holding, SomeFiredRem, SomeFiredBlocks, FiredRem, FiredBlocks;
      AllFired(rem0, cb0, fired);
    }

    lemma HoldingFacts()
      requires Holding({})
      ensures Refines(sortList, uwCount, rem) && HaveIntervals(rem, cb)
    {
      forall t | t in rem ensures t < |cb| && cb[t].uwInterval >= 1 {
        assert t in sortList;
        assert BlockAt(cb, t);
      }
    }

    /** The head of the list, when its count is 0, is due and has not fired yet. */
    lemma HeadDue(rem0: map<nat, int>, cb0: seq<Timer>, fired: set<nat>)
      requires Holding({}) && sortList != [] && CountOf(uwCount, sortList[0]) == 0
      requires HaveIntervals(rem0, cb0)
      requires rem == SomeFiredRem(rem0, cb0, fired) && cb == SomeFiredBlocks(cb0, fired)
      ensures sortList[0] in ZeroLeft(rem0) && sortList[0] !in fired && sortList[0] < |cb0|
              && cb[sortList[0]] == cb0[sortList[0]]
    {
      HeadIsLeast(sortList, uwCount, rem);
    }

    lemma NotYetFired(rem0: map<nat, int>, cb0: seq<Timer>, fired: set<nat>, t: nat)
      requires t in ZeroLeft(rem0) && rem == SomeFiredRem(rem0, cb0, fired)
      ensures t !in fired ==> t in rem && rem[t] == 0
    {
    }

    /** When the head has time left, everybody has, so everybody that was due has fired. */
    lemma AllFired(rem0: map<nat, int>, cb0: seq<Timer>, fired: set<nat>)
      requires Holding({}) && (sortList != [] ==> CountOf(uwCount, sortList[0]) != 0) && fired <= ZeroLeft(rem0)
      requires rem == SomeFiredRem(rem0, cb0, fired) && cb == SomeFiredBlocks(cb0, fired)
      requires HaveIntervals(rem0, cb0)
      ensures Valid() && rem == FiredRem(rem0, cb0) && cb == FiredBlocks(rem0, cb0)
    {
      if sortList != [] { HeadIsLeast(sortList, uwCount, rem); }
      assert Settled(rem);
      assert fired == ZeroLeft(rem0) by {
        forall t | t in ZeroLeft(rem0) ensures t in fired {
          NotYetFired(rem0, cb0, fired, t);
        }
      }
    }

    /** Overwrite fields of a block that play no part in the lists. */
    method SetFields(i: nat, t: Timer, ghost out: set<nat>)
      requires Holding(out) && i < |cb| && t.ucState == cb[i].ucState && t.uwInterval == cb[i].uwInterval
               && BlockAt(cb[i := t], i)
      modifies this`cb
      ensures Holding(out) && cb == old(cb)[i := t]
    {
      cb := cb[i := t];
      KeepBlocks(old(cb), cb, i);
    }

    /** No stored count wraps, and between ticks the head has at least one tick left. */
    lemma CountsFit(p: nat)
      requires Valid() && p < |sortList|
      ensures sortList[p] < |cb|
      ensures 0 <= CountOf(uwCount, sortList[p]) <= Sum(sortList, uwCount, p + 1) <= cb[sortList[p]].uwInterval < TICKS
      ensures p == 0 ==> CountOf(uwCount, sortList[p]) >= 1
    {
      var t := sortList[p];
      assert t in sortList;
      assert CountAt(sortList, uwCount, 1, 0, rem, p) && BlockAt(cb, t);
      SumMonotone(sortList, uwCount, p, p + 1);
      HeadIsLeast(sortList, uwCount, rem);
    }

    /** `osSwtmrScan`: one tick. */
    method Scan()
      requires Valid()
      modifies this
      ensures Valid() && State() == TickAbs(old(State()), 1)
    {
      if sortList == [] {
        NobodyLeft();
        return;
      }
      HeadIsLeast(sortList, uwCount, rem);
      hide Holding, FiredRem, FiredBlocks, Lowered;
      LowerHead(1);
      if CountOf(uwCount, sortList[0]) == 0 {
        TimeoutHandle();
      } else {
        NobodyDue();
      }
    }

    lemma NobodyLeft()
      requires Valid() && sortList == []
      ensures State() == TickAbs(State(), 1)
    {
      hide Lowered, FiredRem, SomeFiredBlocks;
      LoweredKeys(rem, 1);
      NothingFires(Lowered(rem, 1), cb);
      assert Lowered(rem, 1) == rem;
    }

    lemma NobodyDue()
      requires Holding({}) && sortList != [] && CountOf(uwCount, sortList[0]) != 0
      ensures Valid() && Abs(FiredRem(rem, cb), FiredBlocks(rem, cb)) == State()
    {
      HeadIsLeast(sortList, uwCount, rem);
      NothingFires(rem, cb);
    }

    /** Take ticks off the head of the list. */
    method LowerHead(s: int)
      requires Valid() && sortList != [] && 0 <= s <= CountOf(uwCount, sortList[0])
      modifies this`uwCount, this`rem
      ensures Holding({}) && rem == Lowered(old(rem), s)
    {
      HeadLowered(sortList, uwCount, s, rem);
      uwCount := uwCount[sortList[0] := CountOf(uwCount, sortList[0]) - s];
      rem := Lowered(rem, s);
    }

    /** `osSwTmrAdjust` on a list that is not empty: as many ticks at once as asked for, but none past the first
        expiry. */
    method Adjust(uwsleep_time: nat)
      requires Valid() && sortList != []
      modifies this
      ensures Valid()
      ensures var head := old(rem)[old(sortList)[0]];
              && head >= 1 && (forall t | t in old(rem) :: head <= old(rem)[t])
              && State() == Scans(old(State()), if uwsleep_time > head then head else uwsleep_time)
    {
      hide *;
      ghost var a := State();
      AdjustFacts(a);
      var sleep: nat := uwsleep_time;
      if sleep > CountOf(uwCount, sortList[0]) {
        sleep := CountOf(uwCount, sortList[0]);
      }
      ScansTogether(a, sleep);
      LowerHead(sleep);
      HoldingFacts();
      HeadIsLeast(sortList, uwCount, rem);
      if CountOf(uwCount, sortList[0]) == 0 {
        TimeoutHandle();
        AdjustEnd(a, sleep);
      } else {
        NobodyDue();
        AdjustEnd(a, sleep);
      }
    }

    lemma AdjustFacts(a: Abs)
      requires Valid() && sortList != [] && a == State()
      ensures sortList[0] in rem && rem[sortList[0]] == CountOf(uwCount, sortList[0]) >= 1
      ensures forall t | t in a.rem :: rem[sortList[0]] <= a.rem[t]
      ensures a.rem == rem && a.cb == cb && forall t | t in a.rem :: 0 < a.rem[t]
    {
      HeadIsLeast(sortList, uwCount, rem);
    }

    lemma AdjustEnd(a: Abs, s: nat)
      requires State() == Abs(FiredRem(Lowered(a.rem, s), a.cb), FiredBlocks(Lowered(a.rem, s), a.cb))
      requires (s > 0 ==> Scans(a, s) == TickAbs(a, s)) && forall t | t in a.rem :: 0 < a.rem[t]
      ensures State() == Scans(a, s)
    {
      if s == 0 {
        NothingDue(a, 0);
        assert Lowered(a.rem, 0) == a.rem;
      }
      hide FiredRem, FiredBlocks, Lowered;
    }

    // -------------------------------------------------------------- the interface

    /** The block of an identifier, if the identifier is current. */
    predicate Current(usSwTmrID: nat)
      reads this
      requires |cb| > 0
    {
      usSwTmrID < MaxId(|cb|) && cb[usSwTmrID % |cb|].usTimerID == usSwTmrID
    }

    /** `LOS_SwtmrCreate`. */
    method SwtmrCreate(uwInterval: nat, ucMode: nat, handler: bool, result: bool) returns (uwRet: nat, usSwTmrID: nat)
      requires Valid() && uwInterval < TICKS
      modifies this`cb, this`freeList, this`uwCount
      ensures Valid() && rem == old(rem)
      ensures uwRet == if uwInterval == 0 then ERRNO_INTERVAL_NOT_SUITED
                       else if ucMode != 0 && ucMode != 1 then ERRNO_MODE_INVALID
                       else if !handler then ERRNO_PTR_NULL
                       else if !result then ERRNO_RET_PTR_NULL
                       else if old(freeList) == [] then ERRNO_MAXSIZE else OS_OK
      ensures uwRet != OS_OK ==> cb == old(cb)
      ensures uwRet == OS_OK ==>
                var i := old(freeList)[0];
                var e := Create(i, uwInterval, if ucMode == 0 then Once else Period);
                Legal(old(State()), e) && State() == Apply(old(State()), e) && Current(usSwTmrID)
                  && usSwTmrID % |cb| == i
      ensures uwRet == OS_OK ==>
                var i, n := old(freeList)[0], |old(cb)|;
                && i < n == |cb| && usSwTmrID == cb[i].usTimerID == old(cb)[i].usTimerID
                && old(cb)[i].ucState == Unused && cb[i].ucState == Created && cb[i].ucOverrun == 0
                && (cb[i].ucMode == Once <==> ucMode == 0) && (cb[i].ucMode == Period <==> ucMode == 1)
                && cb[i].uwInterval == uwInterval && cb[i].uwExpiry == uwInterval
                && forall j | 0 <= j < n && j != i :: cb[j] == old(cb)[j]
      ensures uwRet == ERRNO_MAXSIZE ==> forall i: nat | i < |cb| :: cb[i].ucState != Unused
    {
      usSwTmrID := 0;
      if uwInterval == 0 {
        return ERRNO_INTERVAL_NOT_SUITED, 0;
      }
      if ucMode != 0 && ucMode != 1 {
        return ERRNO_MODE_INVALID, 0;
      }
      if !handler {
        return ERRNO_PTR_NULL, 0;
      }
      if !result {
        return ERRNO_RET_PTR_NULL, 0;
      }
      if freeList == [] {
        return ERRNO_MAXSIZE, 0;
      }
      var i := freeList[0];
      assert i in freeList;
      assert BlockAt(cb, i) && i !in freeList[1..] && forall x | x in freeList :: x == i || x in freeList[1..];
      freeList := freeList[1..];
      uwCount := uwCount[i := 0];
      cb := cb[i := Timer(cb[i].usTimerID, Created, if ucMode == 0 then Once else Period, 0, uwInterval, uwInterval)];
      usSwTmrID := cb[i].usTimerID;
      uwRet := OS_OK;
      KeepBlocks(old(cb), cb, i);
      OtherCounts(sortList, old(uwCount), uwCount, rem, i);
    }

    lemma OtherCounts(l: seq<nat>, c0: map<nat, int>, c1: map<nat, int>, r: map<nat, int>, i: nat)
      requires Refines(l, c0, r) && i !in l && c1 == c0[i := 0]
      ensures Refines(l, c1, r)
    {
      ListKept(l, c0, c1, 1, 0, r, r);
    }

    /** `LOS_SwtmrStart`: starting again is stopping and starting. */
    method SwtmrStart(usSwTmrID: nat) returns (uwRet: nat)
      requires Valid()
      modifies this
      ensures Valid()
      ensures uwRet == if !old(Current(usSwTmrID)) then ERRNO_ID_INVALID
                       else if old(cb)[usSwTmrID % |old(cb)|].ucState == Unused then ERRNO_NOT_CREATED else OS_OK
      ensures uwRet != OS_OK ==> State() == old(State())
      ensures uwRet == OS_OK ==>
                var e := Start(usSwTmrID % |old(cb)|); Legal(old(State()), e) && State() == Apply(old(State()), e)
    {
      if usSwTmrID >= MaxId(|cb|) {
        return ERRNO_ID_INVALID;
      }
      var i := usSwTmrID % |cb|;
      if cb[i].usTimerID != usSwTmrID {
        return ERRNO_ID_INVALID;
      }
      hide Holding, Blocks;
      match cb[i].ucState {
        case Unused => uwRet := ERRNO_NOT_CREATED;
        case Ticking =>
          StopTimer(i);
          Hold(i);
          StartTimer(i);
          Restarted(old(rem), rem, i);
          uwRet := OS_OK;
          StillSettled(old(rem), i);
        case Created =>
          Hold(i);
          StartTimer(i);
          uwRet := OS_OK;
          StillSettled(old(rem), i);
      }
    }

    lemma Restarted(r0: map<nat, int>, r1: map<nat, int>, i: nat)
      requires i in r1 && r1 == (r0 - {i})[i := r1[i]]
      ensures r1 == r0[i := r1[i]]
    {
    }

    lemma Hold(i: nat)
      requires Holding({}) && i < |cb| && cb[i].ucState == Created
      ensures Holding({i}) && Initial(cb[i]) == cb[i].uwInterval
    {
      assert BlockAt(cb, i);
    }

    lemma StillSettled(r0: map<nat, int>, i: nat)
      requires Holding({}) && Settled(r0) && i < |cb| && cb[i].ucState == Ticking && i in rem
               && rem[i] == cb[i].uwInterval
      requires forall t | t in rem && t != i :: t in r0 && rem[t] == r0[t]
      ensures Valid()
    {
      assert BlockAt(cb, i);
    }

    /** `LOS_SwtmrStop`. */
    method SwtmrStop(usSwTmrID: nat) returns (uwRet: nat)
      requires Valid()
      modifies this
      ensures Valid()
      ensures uwRet == if !old(Current(usSwTmrID)) then ERRNO_ID_INVALID
                       else match old(cb)[usSwTmrID % |old(cb)|].ucState
                            case Unused => ERRNO_NOT_CREATED
                            case Created => ERRNO_NOT_STARTED
                            case Ticking => OS_OK
      ensures uwRet != OS_OK ==> State() == old(State())
      ensures uwRet == OS_OK ==>
                var e := Stop(usSwTmrID % |old(cb)|); Legal(old(State()), e) && State() == Apply(old(State()), e)
    {
      if usSwTmrID >= MaxId(|cb|) {
        return ERRNO_ID_INVALID;
      }
      var i := usSwTmrID % |cb|;
      if cb[i].usTimerID != usSwTmrID {
        return ERRNO_ID_INVALID;
      }
      match cb[i].ucState {
        case Unused => uwRet := ERRNO_NOT_CREATED;
        case Created => uwRet := ERRNO_NOT_STARTED;
        case Ticking =>
          hide Holding;
          StopTimer(i);
          uwRet := OS_OK;
      }
    }

    /** `LOS_SwtmrDelete`. */
    method SwtmrDelete(usSwTmrID: nat) returns (uwRet: nat)
      requires Valid()
      modifies this
      ensures Valid()
      ensures uwRet == if !old(Current(usSwTmrID)) then ERRNO_ID_INVALID
                       else if old(cb)[usSwTmrID % |old(cb)|].ucState == Unused then ERRNO_NOT_CREATED else OS_OK
      ensures uwRet != OS_OK ==> State() == old(State())
      ensures uwRet == OS_OK ==>
                var e := Delete(usSwTmrID % |old(cb)|); Legal(old(State()), e) && State() == Apply(old(State()), e)
    {
      if usSwTmrID >= MaxId(|cb|) {
        return ERRNO_ID_INVALID;
      }
      var i := usSwTmrID % |cb|;
      if cb[i].usTimerID != usSwTmrID {
        return ERRNO_ID_INVALID;
      }
      match cb[i].ucState {
        case Unused => uwRet := ERRNO_NOT_CREATED;
        case Ticking =>
          hide Holding;
          StopTimer(i);
          Hold(i);
          DeleteTimer(i);
          uwRet := OS_OK;
        case Created =>
          assert rem - {i} == rem;
          hide Holding;
          Hold(i);
          DeleteTimer(i);
          uwRet := OS_OK;
      }
    }
  }

  /** The identifier of a one-shot timer that has fired is refused from then on: the block moves on to another one,
      if and only if there are not more than 32767 blocks. */
  lemma FiredIdIsStale(id: nat, limit: nat)
    requires 0 < limit <= 65535 && id < MaxId(limit)
    ensures NextId(id, limit) != id <==> limit <= 32767
  {
    var q := 65535 / limit;
    if limit <= 32767 {
      assert q >= 2;
      MulBound(q - 2, limit);
      assert q * limit == (q - 2) * limit + 2 * limit;
      if id >= MaxId(limit) - limit { assert id >= limit; }
      ModAgain(id, limit);
    } else {
      assert q == 1;
      ModUnique(id, limit, 0, id);
    }
  }
}
