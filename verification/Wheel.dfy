/** The timing wheel of the task module (kernel/base/core/los_task.c, los_task.inc): 32 slots, a cursor, and in each
    slot a list of tasks whose roll counts are stored as differences.  It is a fast form of a map from tasks to
    remaining ticks; `rem` is that map. */
module Wheel {
  import opened DeltaList

  const SORTLINK_LEN: nat := 32
  const TICKS: nat := 0x1_0000_0000
  const ROLLS: nat := 0x800_0000      // 2^27

  type Task = nat

  // ---------------------------------------------------------------- the packed word uwIdxRollNum

  function EvaluateL(uwNum: bv32, value: bv32): bv32 { (uwNum & 0xf800_0000) | value }

  function EvaluateH(uwNum: bv32, value: bv32): bv32 { (uwNum & 0x07ff_ffff) | (value << 27) }

  function RollNum(uwNum: bv32): bv32 { uwNum & 0x07ff_ffff }

  function SortIndex(uwNum: bv32): bv32 { uwNum >> 27 }

  function RollNumSub(a: bv32, b: bv32): bv32 { (a & 0xf800_0000) | (RollNum(a) - RollNum(b)) }

  function RollNumAdd(a: bv32, b: bv32): bv32 { (a & 0xf800_0000) | (RollNum(a) + RollNum(b)) }

  function RollNumDec(a: bv32): bv32 { a - 1 }

  /** The roll count and the slot index are independent fields of one word, as long as a roll count fits in 27 bits and
      a subtraction does not go below zero.  The wheel below keeps both conditions (`RollsFit`). */
  lemma StoredFields(a: bv32, roll: bv32, idx: bv32)
    requires roll <= 0x07ff_ffff && idx <= 31
    ensures RollNum(EvaluateL(a, roll)) == roll && SortIndex(EvaluateL(a, roll)) == SortIndex(a)
    ensures SortIndex(EvaluateH(a, idx)) == idx && RollNum(EvaluateH(a, idx)) == RollNum(a)
  {
  }

  lemma SubtractedField(a: bv32, b: bv32)
    requires RollNum(b) <= RollNum(a)
    ensures RollNum(RollNumSub(a, b)) == RollNum(a) - RollNum(b) && SortIndex(RollNumSub(a, b)) == SortIndex(a)
  {
  }

  lemma AddedField(a: bv32, b: bv32)
    requires RollNum(a) + RollNum(b) <= 0x07ff_ffff
    ensures RollNum(RollNumAdd(a, b)) == RollNum(a) + RollNum(b) && SortIndex(RollNumAdd(a, b)) == SortIndex(a)
  {
  }

  lemma DecrementedField(a: bv32)
    requires RollNum(a) > 0
    ensures RollNum(RollNumDec(a)) == RollNum(a) - 1 && SortIndex(RollNumDec(a)) == SortIndex(a)
  {
  }

  // ---------------------------------------------------------------- the plain map

  /** One tick of the plain map: every count goes down by one, and those that were at one leave. */
  function Ticked(rem: map<Task, int>): map<Task, int>
  {
    map t | t in rem && rem[t] != 1 :: rem[t] - 1
  }

  function Due(rem: map<Task, int>): set<Task>
  {
    set t | t in rem && rem[t] == 1
  }

  datatype Event = Add(task: Task, timeout: nat) | Delete(task: Task) | Tick

  predicate Legal(rem: map<Task, int>, e: Event)
  {
    match e
    case Add(t, n) => t !in rem && 1 <= n < TICKS
    case Delete(t) => t in rem
    case Tick => true
  }

  function Apply(rem: map<Task, int>, e: Event): map<Task, int>
  {
    match e
    case Add(t, n) => rem[t := n]
    case Delete(t) => rem - {t}
    case Tick => Ticked(rem)
  }

  predicate LegalRun(rem: map<Task, int>, es: seq<Event>)
    decreases |es|
  {
    |es| == 0 || (Legal(rem, es[0]) && LegalRun(Apply(rem, es[0]), es[1..]))
  }

  function ApplyAll(rem: map<Task, int>, es: seq<Event>): map<Task, int>
    decreases |es|
  {
    if es == [] then rem else ApplyAll(Apply(rem, es[0]), es[1..])
  }

  function CountTicks(es: seq<Event>): nat
  {
    if es == [] then 0 else (if es[0].Tick? then 1 else 0) + CountTicks(es[1..])
  }

  /** In every run that does not delete it, a task with `n` ticks to go still has `n` minus the ticks seen, and it is
      due at exactly its `n`-th tick. */
  lemma {:induction false} DueOnTime(rem: map<Task, int>, es: seq<Event>, t: Task, n: nat)
    requires t in rem && rem[t] == n && CountTicks(es) < n
    requires LegalRun(rem, es) && Event.Delete(t) !in es
    ensures t in ApplyAll(rem, es) && ApplyAll(rem, es)[t] == n - CountTicks(es)
    ensures t in Due(ApplyAll(rem, es)) <==> CountTicks(es) == n - 1
    ensures CountTicks(es) == n - 1 ==> t !in Ticked(ApplyAll(rem, es))
    decreases |es|
  {
    if es != [] {
      assert es[0] in es && forall e | e in es[1..] :: e in es;
      DueOnTime(Apply(rem, es[0]), es[1..], t, if es[0].Tick? then n - 1 else n);
    }
  }

  // ---------------------------------------------------------------- the wheel

  /** Ticks until the cursor next reaches slot `k`, 1 to 32. */
  function Distance(cursor: nat, k: nat): int
  {
    if k > cursor then k - cursor else k + SORTLINK_LEN - cursor
  }

  /** Every task is entered at most once, under the index it carries. */
  ghost predicate Lists(slots: seq<seq<Task>>, roll: map<Task, int>, index: map<Task, int>)
  {
    && |slots| == SORTLINK_LEN
    && (forall k | 0 <= k < SORTLINK_LEN :: List(slots[k], roll))
    && (forall k, t | 0 <= k < SORTLINK_LEN && t in slots[k] :: t in index && index[t] == k)
  }

  /** The tasks that have ticks to go are exactly those entered in a slot, and none has more than a 32-bit timeout. */
  ghost predicate Entries(slots: seq<seq<Task>>, rem: map<Task, int>)
  {
    && (forall t | t in rem :: rem[t] < TICKS && exists k :: 0 <= k < |slots| && t in slots[k])
    && (forall k, t | 0 <= k < |slots| && t in slots[k] :: t in rem)
  }

  ghost predicate Refines(slots: seq<seq<Task>>, roll: map<Task, int>, index: map<Task, int>, cursor: nat,
                          rem: map<Task, int>)
  {
    && cursor < SORTLINK_LEN && Lists(slots, roll, index) && Entries(slots, rem)
    && forall k | 0 <= k < SORTLINK_LEN :: ListCounts(slots[k], roll, SORTLINK_LEN, Distance(cursor, k), rem)
  }

  // ---------------------------------------------------------------- adding

  lemma OtherSlot(slots: seq<seq<Task>>, roll: map<Task, int>, index: map<Task, int>, j: nat, k: nat, q: nat)
    requires Lists(slots, roll, index) && j < SORTLINK_LEN && k < SORTLINK_LEN && j != k && q < |slots[k]|
    ensures slots[k][q] !in slots[j]
  {
    assert slots[k][q] in slots[k];
    assert index[slots[k][q]] == k;
  }

  lemma AddRefines(slots: seq<seq<Task>>, r0: map<Task, int>, r1: map<Task, int>, index: map<Task, int>, cursor: nat,
                   rem: map<Task, int>,
                   k: nat, p: nat, t: Task, n: int)
    requires Refines(slots, r0, index, cursor, rem) && t !in rem && k < SORTLINK_LEN && p <= |slots[k]|
    requires Opened(slots[k], r0, r1, p, t)
             && n == (Sum(slots[k], r0, p) + CountOf(r1, t)) * SORTLINK_LEN + Distance(cursor, k) < TICKS
    ensures Refines(slots[k := Inserted(slots[k], p, t)], r1, index[t := k], cursor, rem[t := n])
  {
    var slots1 := slots[k := Inserted(slots[k], p, t)];
    var rem1 := rem[t := n];
    InsertedList(slots[k], r0, r1, p, t, SORTLINK_LEN, Distance(cursor, k), rem, n);
    hide Inserted, Sum, Distance, CountOf, List, ListCounts;
    forall j | 0 <= j < SORTLINK_LEN
      ensures List(slots1[j], r1) && ListCounts(slots1[j], r1, SORTLINK_LEN, Distance(cursor, j), rem1)
    {
      if j != k {
        if p < |slots[k]| { OtherSlot(slots, r0, index, j, k, p); }
        assert forall x | x in slots[j] :: x in rem && CountOf(r1, x) == CountOf(r0, x);
        ListKept(slots[j], r0, r1, SORTLINK_LEN, Distance(cursor, j), rem, rem1);
      }
    }
    EntriesWith(slots, rem, k, Inserted(slots[k], p, t), t, n);
    hide Entries;
  }

  lemma EntriesWith(slots: seq<seq<Task>>, rem: map<Task, int>, k: nat, l: seq<Task>, t: Task, n: int)
    requires k < |slots| && Entries(slots, rem) && n < TICKS && forall x :: x in l <==> x in slots[k] || x == t
    ensures Entries(slots[k := l], rem[t := n])
  {
    var slots1, rem1 := slots[k := l], rem[t := n];
    forall x | x in rem1 ensures exists j :: 0 <= j < |slots1| && x in slots1[j] {
      if x == t {
        assert x in slots1[k];
      } else {
        var j :| 0 <= j < |slots| && x in slots[j];
        assert x in slots1[j];
      }
    }
  }

  // ---------------------------------------------------------------- deleting

  lemma DeleteRefines(slots: seq<seq<Task>>, r0: map<Task, int>, r1: map<Task, int>, index: map<Task, int>, cursor: nat,
                      rem: map<Task, int>,
                      k: nat, p: nat)
    requires Refines(slots, r0, index, cursor, rem) && k < SORTLINK_LEN && p < |slots[k]| && Closed(slots[k], r0, r1, p)
    ensures Refines(slots[k := Removed(slots[k], p)], r1, index, cursor, rem - {slots[k][p]})
  {
    var t := slots[k][p];
    var slots1 := slots[k := Removed(slots[k], p)];
    var rem1 := rem - {t};
    assert t in slots[k];
    RemovedList(slots[k], r0, r1, p, SORTLINK_LEN, Distance(cursor, k), rem);
    hide Removed, Sum, Distance, CountOf, List, ListCounts;
    forall j | 0 <= j < SORTLINK_LEN && j != k
      ensures List(slots[j], r1) && ListCounts(slots[j], r1, SORTLINK_LEN, Distance(cursor, j), rem1) && t !in slots[j]
    {
      OtherSlot(slots, r0, index, j, k, p);
      if p + 1 < |slots[k]| { OtherSlot(slots, r0, index, j, k, p + 1); }
      assert forall x | x in slots[j] :: x in rem && x != t && CountOf(r1, x) == CountOf(r0, x);
      ListKept(slots[j], r0, r1, SORTLINK_LEN, Distance(cursor, j), rem, rem1);
    }
    EntriesWithout(slots, rem, rem1, k, Removed(slots[k], p), {t});
  }

  /** The tasks in `out` have left one slot and the map. */
  lemma EntriesWithout(slots: seq<seq<Task>>, rem0: map<Task, int>, rem1: map<Task, int>, k: nat, l: seq<Task>,
                       out: set<Task>)
    requires k < |slots| && Entries(slots, rem0) && rem1.Keys == rem0.Keys - out
             && forall t | t in rem1 :: rem1[t] <= rem0[t]
    requires forall t :: t in l <==> t in slots[k] && t !in out
    requires forall j, t | 0 <= j < |slots| && j != k && t in slots[j] :: t !in out
    ensures Entries(slots[k := l], rem1)
  {
    var slots1 := slots[k := l];
    forall x | x in rem1 ensures exists j :: 0 <= j < |slots1| && x in slots1[j] {
      var j :| 0 <= j < |slots| && x in slots[j];
      assert x in slots1[j];
    }
  }

  // ---------------------------------------------------------------- the tick

  /** What the scan leaves of the slot under the cursor: the leading zeros leave, and the next difference goes down by
      one. */
  ghost predicate Scanned(l: seq<Task>, r0: map<Task, int>, r1: map<Task, int>, n: nat)
  {
    && n <= |l| && (forall i | 0 <= i < n :: CountOf(r0, l[i]) == 0)
    && (n < |l| ==> CountOf(r0, l[n]) > 0 && CountOf(r1, l[n]) == CountOf(r0, l[n]) - 1)
    && forall x | n < |l| ==> x != l[n] :: CountOf(r1, x) == CountOf(r0, x)
  }

  /** Leading zeros have the absolute count zero, and all others a count of at least one, which goes down by one. */
  lemma {:induction false} ScannedSum(l: seq<Task>, r0: map<Task, int>, r1: map<Task, int>, n: nat, j: nat)
    requires List(l, r0) && Scanned(l, r0, r1, n) && j <= |l|
    ensures j <= n ==> Sum(l, r0, j) == 0
    ensures j > n ==> Sum(l, r0, j) >= 1 && Sum(l[n..], r1, j - n) == Sum(l, r0, j) - 1
    decreases j
  {
    if j > 0 {
      ScannedSum(l, r0, r1, n, j - 1);
      if j > n { assert l[n..][j - n - 1] == l[j - 1]; }
    }
  }

  /** One entry of the slot under the cursor. */
  lemma ScannedAt(l: seq<Task>, r0: map<Task, int>, r1: map<Task, int>, n: nat, rem: map<Task, int>, i: nat)
    requires List(l, r0) && Scanned(l, r0, r1, n) && ListCounts(l, r0, SORTLINK_LEN, 1, rem) && i < |l|
    ensures l[i] in rem && (rem[l[i]] == 1 <==> i < n)
    ensures i >= n ==> CountAt(l[n..], r1, SORTLINK_LEN, SORTLINK_LEN, Ticked(rem), i - n) && CountOf(r1, l[i]) >= 0
  {
    EntryCount(l, r0, SORTLINK_LEN, 1, rem, i);
    ScannedSum(l, r0, r1, n, i + 1);
    hide CountOf, Sum, ListCounts;
  }

  lemma ScannedSlot(l: seq<Task>, r0: map<Task, int>, r1: map<Task, int>, n: nat, rem: map<Task, int>)
    requires List(l, r0) && Scanned(l, r0, r1, n) && ListCounts(l, r0, SORTLINK_LEN, 1, rem)
    ensures List(l[n..], r1) && ListCounts(l[n..], r1, SORTLINK_LEN, SORTLINK_LEN, Ticked(rem))
    ensures forall x | x in l :: x in rem && (rem[x] == 1 <==> x in l[..n]) && (rem[x] == 1 <==> x !in l[n..])
  {
    hide Ticked, CountOf, Sum, CountAt;
    var m := l[n..];
    forall i | 0 <= i < |l| ensures l[i] in rem && (rem[l[i]] == 1 <==> i < n) {
      ScannedAt(l, r0, r1, n, rem, i);
    }
    forall i | 0 <= i < |m| ensures CountAt(m, r1, SORTLINK_LEN, SORTLINK_LEN, Ticked(rem), i)
      && CountOf(r1, m[i]) >= 0 {
      ScannedAt(l, r0, r1, n, rem, n + i);
    }
    forall x | x in l ensures x in rem && (rem[x] == 1 <==> x in l[..n]) && (rem[x] == 1 <==> x !in l[n..]) {
      var i :| 0 <= i < |l| && l[i] == x;
      if i < n { assert l[..n][i] == x; } else { assert m[i - n] == x; }
    }
  }

  /** Any other slot just comes one tick nearer. */
  lemma NearerSlot(l: seq<Task>, r0: map<Task, int>, r1: map<Task, int>, d: int, rem: map<Task, int>)
    requires List(l, r0) && ListCounts(l, r0, SORTLINK_LEN, d, rem) && d > 1
    requires forall t | t in l :: CountOf(r1, t) == CountOf(r0, t)
    ensures List(l, r1) && ListCounts(l, r1, SORTLINK_LEN, d - 1, Ticked(rem))
    ensures forall t | t in l :: t in rem && rem[t] > 1
  {
    forall i | 0 <= i < |l| ensures CountAt(l, r1, SORTLINK_LEN, d - 1, Ticked(rem), i) && rem[l[i]] > 1 {
      assert CountAt(l, r0, SORTLINK_LEN, d, rem, i);
      SumSame(l, r0, r1, i + 1);
      SumMonotone(l, r0, 0, i + 1);
    }
  }

  lemma OtherNearer(slots: seq<seq<Task>>, r0: map<Task, int>, r1: map<Task, int>, index: map<Task, int>, cursor: nat,
                    rem: map<Task, int>,
                    c: nat, n: nat, j: nat)
    requires Refines(slots, r0, index, cursor, rem) && c == (cursor + 1) % SORTLINK_LEN && Scanned(slots[c], r0, r1, n)
    requires j < SORTLINK_LEN && j != c
    ensures List(slots[j], r1) && ListCounts(slots[j], r1, SORTLINK_LEN, Distance(c, j), Ticked(rem))
    ensures forall t | t in slots[j] :: t in rem && rem[t] > 1
  {
    assert Distance(c, j) == Distance(cursor, j) - 1 && Distance(cursor, j) > 1;
    if n < |slots[c]| { OtherSlot(slots, r0, index, j, c, n); }
    assert forall t | t in slots[j] :: CountOf(r1, t) == CountOf(r0, t);
    NearerSlot(slots[j], r0, r1, Distance(cursor, j), rem);
  }

  lemma TickedKeys(rem: map<Task, int>)
    ensures Ticked(rem).Keys == rem.Keys - Due(rem) && forall t | t in Ticked(rem) :: Ticked(rem)[t] <= rem[t]
  {
  }

  lemma ScanRefines(slots: seq<seq<Task>>, r0: map<Task, int>, r1: map<Task, int>, index: map<Task, int>, cursor: nat,
                    rem: map<Task, int>,
                    c: nat, n: nat)
    requires Refines(slots, r0, index, cursor, rem) && c == (cursor + 1) % SORTLINK_LEN && Scanned(slots[c], r0, r1, n)
    ensures Refines(slots[c := slots[c][n..]], r1, index, c, Ticked(rem))
    ensures forall t :: t in slots[c][..n] <==> t in Due(rem)
  {
    var l := slots[c][n..];
    assert Distance(cursor, c) == 1 && Distance(c, c) == SORTLINK_LEN;
    ScannedSlot(slots[c], r0, r1, n, rem);
    TickedKeys(rem);
    hide Distance, CountOf, List, ListCounts, Scanned, Entries, Due, Ticked;
    forall j | 0 <= j < SORTLINK_LEN && j != c
      ensures List(slots[j], r1) && ListCounts(slots[j], r1, SORTLINK_LEN, Distance(c, j), Ticked(rem))
              && forall t | t in slots[j] :: t in rem && rem[t] > 1
    {
      hide *;
      OtherNearer(slots, r0, r1, index, cursor, rem, c, n, j);
    }
    DueThere(slots, rem, c, n);
    EntriesWithout(slots, rem, Ticked(rem), c, l, Due(rem));
    MakeRefines(slots, r1, index, c, Ticked(rem), l);
  }

  lemma DueThere(slots: seq<seq<Task>>, rem: map<Task, int>, c: nat, n: nat)
    requires Entries(slots, rem) && c < |slots| && n <= |slots[c]|
    requires forall x | x in slots[c] ::
               x in rem && (rem[x] == 1 <==> x in slots[c][..n]) && (rem[x] == 1 <==> x !in slots[c][n..])
    requires forall j, t | 0 <= j < |slots| && j != c && t in slots[j] :: t in rem && rem[t] > 1
    ensures forall t :: t in slots[c][..n] <==> t in Due(rem)
    ensures forall t :: t in slots[c][n..] <==> t in slots[c] && t !in Due(rem)
  {
    forall t | t in Due(rem) ensures t in slots[c][..n] {
      var j :| 0 <= j < |slots| && t in slots[j];
    }
  }

  lemma MakeRefines(slots: seq<seq<Task>>, r1: map<Task, int>, index: map<Task, int>, c: nat, rem1: map<Task, int>,
                    l: seq<Task>)
    requires |slots| == SORTLINK_LEN && c < SORTLINK_LEN && Entries(slots[c := l], rem1)
    requires forall k, t | 0 <= k < SORTLINK_LEN && t in slots[k] :: t in index && index[t] == k
    requires forall j | 0 <= j < SORTLINK_LEN && j != c ::
               List(slots[j], r1) && ListCounts(slots[j], r1, SORTLINK_LEN, Distance(c, j), rem1)
    requires List(l, r1) && ListCounts(l, r1, SORTLINK_LEN, Distance(c, c), rem1) && forall t | t in l :: t in slots[c]
    ensures Refines(slots[c := l], r1, index, c, rem1)
  {
  }

  // ---------------------------------------------------------------- the order within a slot

  /** Tasks with equally many ticks to go stand in the order in which they were entered. */
  ghost predicate Row(l: seq<Task>, rem: map<Task, int>, born: map<Task, nat>)
  {
    && (forall t | t in l :: t in rem && t in born)
    && forall i, j | 0 <= i < j < |l| :: rem[l[i]] == rem[l[j]] ==> born[l[i]] < born[l[j]]
  }

  ghost predicate Rows(slots: seq<seq<Task>>, rem: map<Task, int>, born: map<Task, nat>, entered: nat)
  {
    (forall t | t in rem :: t in born && born[t] <= entered) && forall k | 0 <= k < |slots| :: Row(slots[k], rem, born)
  }

  /** Whoever stands behind the newcomer has more ticks to go. */
  lemma BehindLater(l: seq<Task>, r1: map<Task, int>, p: nat, t: Task, d: int, rem1: map<Task, int>, i: nat)
    requires p < i <= |l| == |Inserted(l, p, t)| - 1 && List(Inserted(l, p, t), r1) && CountOf(r1, l[p]) > 0
    requires ListCounts(Inserted(l, p, t), r1, SORTLINK_LEN, d, rem1)
    ensures var m := Inserted(l, p, t); m[i] in rem1 && t in rem1 && rem1[m[i]] > rem1[t]
  {
    var m := Inserted(l, p, t);
    InsertedElements(l, p, t);
    EntryCount(m, r1, SORTLINK_LEN, d, rem1, p);
    EntryCount(m, r1, SORTLINK_LEN, d, rem1, i);
    SumMonotone(m, r1, p + 2, i + 1);
    hide Inserted, ListCounts, List;
  }

  lemma RowWith(l: seq<Task>, rem: map<Task, int>, born: map<Task, nat>, entered: nat, p: nat, t: Task, n: int)
    requires Row(l, rem, born) && p <= |l| && t !in l && forall x | x in l :: born[x] <= entered
    requires forall i | p < i <= |l| ::
               |Inserted(l, p, t)| == |l| + 1 && Inserted(l, p, t)[i] in l && rem[Inserted(l, p, t)[i]] > n
    ensures Row(Inserted(l, p, t), rem[t := n], born[t := entered + 1])
  {
    InsertedElements(l, p, t);
    InsertedMembers(l, p, t);
    hide Inserted;
  }

  lemma AddRows(slots: seq<seq<Task>>, rem: map<Task, int>, born: map<Task, nat>, entered: nat, r1: map<Task, int>,
                d: int,
                k: nat, p: nat, t: Task, n: int)
    requires Rows(slots, rem, born, entered) && k < |slots| && p <= |slots[k]|
             && forall j | 0 <= j < |slots| :: t !in slots[j]
    requires var m := Inserted(slots[k], p, t); List(m, r1) && ListCounts(m, r1, SORTLINK_LEN, d, rem[t := n])
    requires p < |slots[k]| ==> CountOf(r1, slots[k][p]) > 0
    ensures Rows(slots[k := Inserted(slots[k], p, t)], rem[t := n], born[t := entered + 1], entered + 1)
  {
    var l, m := slots[k], Inserted(slots[k], p, t);
    assert Row(l, rem, born);
    InsertedElements(l, p, t);
    hide List, ListCounts, Inserted;
    forall i | p < i <= |l| ensures m[i] in l && rem[m[i]] > n {
      BehindLater(l, r1, p, t, d, rem[t := n], i);
      assert l[i - 1] in l;
    }
    RowWith(l, rem, born, entered, p, t, n);
    forall j | 0 <= j < |slots| && j != k ensures Row(slots[j], rem[t := n], born[t := entered + 1]) {
      assert Row(slots[j], rem, born);
    }
  }

  lemma DeleteRows(slots: seq<seq<Task>>, rem: map<Task, int>, born: map<Task, nat>, entered: nat, k: nat, p: nat)
    requires Rows(slots, rem, born, entered) && k < |slots| && p < |slots[k]|
    requires forall i, j | 0 <= i < j < |slots[k]| :: slots[k][i] != slots[k][j]
    requires forall j | 0 <= j < |slots| && j != k :: slots[k][p] !in slots[j]
    ensures Rows(slots[k := Removed(slots[k], p)], rem - {slots[k][p]}, born, entered)
  {
    var l, m := slots[k], Removed(slots[k], p);
    assert Row(l, rem, born);
    RemovedElements(l, p);
    RemovedMembers(l, p);
    hide Removed;
    assert Row(m, rem - {l[p]}, born);
    forall j | 0 <= j < |slots| && j != k ensures Row(slots[j], rem - {l[p]}, born) {
      assert Row(slots[j], rem, born);
    }
  }

  lemma ScanRows(slots: seq<seq<Task>>, slots1: seq<seq<Task>>, rem: map<Task, int>, born: map<Task, nat>, entered: nat,
                 c: nat, n: nat)
    requires Rows(slots, rem, born, entered) && c < |slots| && n <= |slots[c]| && slots1 == slots[c := slots[c][n..]]
    requires forall j, t | 0 <= j < |slots1| && t in slots1[j] :: t in Ticked(rem)
    ensures Rows(slots1, Ticked(rem), born, entered)
  {
    forall j | 0 <= j < |slots| ensures Row(slots1[j], Ticked(rem), born) {
      assert Row(slots[j], rem, born);
    }
  }

  /** These tasks were entered one after the other. */
  ghost predicate EnteredInOrder(ts: seq<Task>, born: map<Task, nat>)
  {
    forall i, j | 0 <= i < j < |ts| :: ts[i] in born && ts[j] in born && born[ts[i]] < born[ts[j]]
  }

  /** The tasks that leave together leave in the order in which they were entered. */
  lemma DueInOrder(l: seq<Task>, rem: map<Task, int>, born: map<Task, nat>, n: nat)
    requires Row(l, rem, born) && n <= |l| && forall t | t in l[..n] :: t in rem && rem[t] == 1
    ensures EnteredInOrder(l[..n], born)
  {
    forall i | 0 <= i < n ensures l[i] in rem && rem[l[i]] == 1 { assert l[..n][i] == l[i]; }
  }

  class TimerWheel {
    var slots: seq<seq<Task>>       // g_stTskSortLink.pstSortLink, each list from its head onwards
    var usCursor: nat
    var roll: map<Task, int>        // low 27 bits of uwIdxRollNum
    var index: map<Task, int>       // high 5 bits of uwIdxRollNum
    ghost var rem: map<Task, int>
    ghost var born: map<Task, nat>  // when each task was entered, by a count of the entries
    ghost var entered: nat

    ghost predicate Valid()
      reads this
    {
      Refines(slots, roll, index, usCursor, rem) && Rows(slots, rem, born, entered)
    }

    constructor ()
      ensures Valid() && rem == map[] && born == map[] && entered == 0
    {
      slots := seq(SORTLINK_LEN, _ => []);
      usCursor := 0;
      roll, index, rem, born, entered := map[], map[], map[], map[], 0;
    }

    /** `osTaskAdd2TimerList`. */
    method Add(t: Task, uwTimeout: nat)
      requires Valid() && t !in rem && 1 <= uwTimeout < TICKS
      modifies this
      ensures Valid() && rem == old(rem)[t := uwTimeout] && entered == old(entered) + 1
              && born == old(born)[t := entered]
    {
      hide *;
      SlotFacts();
      var uwSortIndex := uwTimeout % SORTLINK_LEN;
      var uwRollNum: int := uwTimeout / SORTLINK_LEN;
      if uwSortIndex == 0 {
        uwRollNum := uwRollNum - 1;
      }
      uwSortIndex := (uwSortIndex + usCursor) % SORTLINK_LEN;
      AddSlot(usCursor, uwTimeout, uwRollNum, uwSortIndex);
      ghost var r0 := roll;
      NotThere(slots, rem, t);
      var p := FindPlace(t, uwSortIndex, uwRollNum);
      AddRefines(slots, r0, roll, index, usCursor, rem, uwSortIndex, p, t, uwTimeout);
      EnterRows(slots, r0, roll, index, usCursor, rem, born, entered, uwSortIndex, p, t, uwTimeout);
      index := index[t := uwSortIndex];
      slots := slots[uwSortIndex := Inserted(slots[uwSortIndex], p, t)];
      rem, entered := rem[t := uwTimeout], entered + 1;
      born := born[t := entered];
      Whole();
    }

    lemma SlotFacts()
      requires Valid()
      ensures SORTLINK_LEN == 32 == |slots| && usCursor < 32 && ROLLS == TICKS / 32 && Entries(slots, rem)
              && Lists(slots, roll, index)
      ensures Refines(slots, roll, index, usCursor, rem) && Rows(slots, rem, born, entered)
      ensures forall k | 0 <= k < 32 :: List(slots[k], roll)
      ensures forall t | t in rem :: t in index && 0 <= index[t] < 32 && t in slots[index[t]]
    {
      hide List, ListCounts, Rows;
    }

    lemma Whole()
      requires Refines(slots, roll, index, usCursor, rem) && Rows(slots, rem, born, entered)
      ensures Valid()
    {
      hide Refines, Rows;
    }

    lemma EnterRows(slots: seq<seq<Task>>, r0: map<Task, int>, r1: map<Task, int>, index: map<Task, int>, cursor: nat,
                    rem: map<Task, int>,
                    born: map<Task, nat>, entered: nat, k: nat, p: nat, t: Task, n: int)
      requires Refines(slots, r0, index, cursor, rem) && Rows(slots, rem, born, entered) && k < |slots| == SORTLINK_LEN
               && p <= |slots[k]|
      requires t !in rem && (p < |slots[k]| ==> CountOf(r1, slots[k][p]) > 0)
      requires Refines(slots[k := Inserted(slots[k], p, t)], r1, index[t := k], cursor, rem[t := n])
      ensures Rows(slots[k := Inserted(slots[k], p, t)], rem[t := n], born[t := entered + 1], entered + 1)
    {
      NotThere(slots, rem, t);
      SlotOf(slots[k := Inserted(slots[k], p, t)], r1, index[t := k], cursor, rem[t := n], k);
      hide Refines, Rows, List, ListCounts, Inserted, CountOf;
      AddRows(slots, rem, born, entered, r1, Distance(cursor, k), k, p, t, n);
    }

    lemma NotThere(slots: seq<seq<Task>>, rem: map<Task, int>, t: Task)
      requires Entries(slots, rem) && t !in rem
      ensures forall j | 0 <= j < |slots| :: t !in slots[j]
    {
    }

    lemma SlotOf(slots: seq<seq<Task>>, roll: map<Task, int>, index: map<Task, int>, cursor: nat, rem: map<Task, int>,
                 k: nat)
      requires Refines(slots, roll, index, cursor, rem) && k < SORTLINK_LEN
      ensures |slots| == SORTLINK_LEN && List(slots[k], roll)
              && ListCounts(slots[k], roll, SORTLINK_LEN, Distance(cursor, k), rem)
    {
    }

    /** The walk of `osTaskAdd2TimerList`: find the place and turn the count into a difference. */
    method FindPlace(t: Task, k: nat, uwRollNum: int) returns (p: nat)
      requires k < |slots| && uwRollNum >= 0 && t !in slots[k] && List(slots[k], roll)
      modifies this`roll
      ensures p <= |slots[k]| && Opened(slots[k], old(roll), roll, p, t)
              && (p < |slots[k]| ==> CountOf(roll, slots[k][p]) > 0)
      ensures CountOf(roll, t) == uwRollNum - Sum(slots[k], old(roll), p)
    {
      ghost var r0 := roll;
      roll := roll[t := uwRollNum];
      p := 0;
      var l := slots[k];
      while p < |l|
        invariant p <= |l| && t in roll
        invariant roll[t] == uwRollNum - Sum(l, r0, p) && roll[t] >= 0
        invariant forall x | x != t :: CountOf(roll, x) == CountOf(r0, x)
      {
        if CountOf(roll, l[p]) <= roll[t] {
          roll := roll[t := roll[t] - CountOf(roll, l[p])];
        } else {
          roll := roll[l[p] := CountOf(roll, l[p]) - roll[t]];
          break;
        }
        p := p + 1;
      }
    }

    /** `osTimerListDelete`. */
    method Delete(t: Task)
      requires Valid() && t in rem
      modifies this
      ensures Valid() && rem == old(rem) - {t} && born == old(born) && entered == old(entered)
    {
      hide *;
      SlotFacts();
      var uwSortIndex := index[t];
      var l := slots[uwSortIndex];
      var p := IndexOf(l, t);
      ghost var r0 := roll;
      if p + 1 < |l| {
        roll := roll[l[p + 1] := CountOf(roll, l[p + 1]) + CountOf(roll, t)];
      }
      MakeClosed(l, r0, roll, p);
      LeaveRows(slots, r0, index, usCursor, rem, born, entered, uwSortIndex, p);
      DeleteRefines(slots, r0, roll, index, usCursor, rem, uwSortIndex, p);
      slots := slots[uwSortIndex := Removed(l, p)];
      rem := rem - {t};
      Whole();
    }

    lemma MakeClosed(l: seq<Task>, r0: map<Task, int>, r1: map<Task, int>, p: nat)
      requires p < |l| && List(l, r0)
      requires r1 == if p + 1 < |l| then r0[l[p + 1] := CountOf(r0, l[p + 1]) + CountOf(r0, l[p])] else r0
      ensures Closed(l, r0, r1, p)
    {
    }

    lemma LeaveRows(slots: seq<seq<Task>>, roll: map<Task, int>, index: map<Task, int>, cursor: nat,
                    rem: map<Task, int>,
                    born: map<Task, nat>, entered: nat, k: nat, p: nat)
      requires Refines(slots, roll, index, cursor, rem) && Rows(slots, rem, born, entered) && k < |slots|
               && p < |slots[k]|
      ensures Rows(slots[k := Removed(slots[k], p)], rem - {slots[k][p]}, born, entered)
    {
      assert Lists(slots, roll, index) && List(slots[k], roll);
      forall j | 0 <= j < SORTLINK_LEN && j != k ensures slots[k][p] !in slots[j] {
        OtherSlot(slots, roll, index, j, k, p);
      }
      hide Refines, Rows, Lists;
      DeleteRows(slots, rem, born, entered, k, p);
    }

    /** The timer part of `osTaskScan`: advance the cursor and take the expired tasks off the slot, in list order. */
    method Scan() returns (expired: seq<Task>)
      requires Valid()
      modifies this
      ensures Valid() && rem == Ticked(old(rem))
      ensures forall t :: t in expired <==> t in Due(old(rem))
      ensures forall i, j | 0 <= i < j < |expired| :: expired[i] != expired[j]
      ensures born == old(born) && entered == old(entered) && EnteredInOrder(expired, born)
    {
      hide *;
      SlotFacts();
      ghost var s0, r0, c0 := slots, roll, usCursor;
      usCursor := (usCursor + 1) % SORTLINK_LEN;
      ghost var l := slots[usCursor];
      expired := TakeExpired();
      MakeScanned(l, r0, roll, |expired|);
      ScanRefines(s0, r0, roll, index, c0, rem, usCursor, |expired|);
      ScanKeepsRows(s0, r0, roll, index, c0, rem, born, entered, usCursor, |expired|);
      rem := Ticked(rem);
      Whole();
      SlotIs(l, r0);
    }

    /** The loop of the scan over the slot under the cursor. */
    method TakeExpired() returns (expired: seq<Task>)
      requires usCursor < |slots| && List(slots[usCursor], roll)
      modifies this`slots, this`roll
      ensures var l, n := old(slots[usCursor]), |expired|;
              && n <= |l| && expired == l[..n] && slots == old(slots)[usCursor := l[n..]]
              && (forall i | 0 <= i < n :: CountOf(old(roll), l[i]) == 0)
              && (n < |l| ==> CountOf(old(roll), l[n]) > 0)
              && roll == if n < |l| then old(roll)[l[n] := CountOf(old(roll), l[n]) - 1] else old(roll)
    {
      hide *;
      ghost var l, n := slots[usCursor], 0;
      SlotIs(l, roll);
      expired := [];
      while slots[usCursor] != []
        invariant n <= |l| && n == |expired| && expired == l[..n] && |slots| == |old(slots)|
                  && slots == old(slots)[usCursor := l[n..]]
        invariant roll == old(roll) && forall i | 0 <= i < n :: CountOf(roll, l[i]) == 0
        decreases |l| - n
      {
        var t := slots[usCursor][0];
        if CountOf(roll, t) > 0 {
          roll := roll[t := CountOf(roll, t) - 1];
          return;
        }
        NextOne(l, n);
        expired := expired + [t];
        slots := slots[usCursor := slots[usCursor][1..]];
        n := n + 1;
      }
    }

    lemma NextOne(l: seq<Task>, n: nat)
      requires n < |l|
      ensures l[..n] + [l[n]] == l[..n + 1] && l[n..][1..] == l[n + 1..] && l[n..][0] == l[n]
    {
    }

    lemma MakeScanned(l: seq<Task>, r0: map<Task, int>, r1: map<Task, int>, n: nat)
      requires n <= |l| && forall i | 0 <= i < n :: CountOf(r0, l[i]) == 0
      requires n < |l| ==> CountOf(r0, l[n]) > 0
      requires r1 == if n < |l| then r0[l[n] := CountOf(r0, l[n]) - 1] else r0
      ensures Scanned(l, r0, r1, n)
    {
    }

    lemma SlotIs(l: seq<Task>, roll: map<Task, int>)
      requires List(l, roll)
      ensures forall i, j | 0 <= i < j < |l| :: l[i] != l[j]
      ensures forall i | 0 <= i < |l| :: CountOf(roll, l[i]) >= 0
    {
    }

    lemma ScanKeepsRows(slots: seq<seq<Task>>, r0: map<Task, int>, r1: map<Task, int>, index: map<Task, int>,
                        cursor: nat, rem: map<Task, int>,
                        born: map<Task, nat>, entered: nat, c: nat, n: nat)
      requires Refines(slots, r0, index, cursor, rem) && Rows(slots, rem, born, entered) && c < |slots|
               && n <= |slots[c]|
      requires Refines(slots[c := slots[c][n..]], r1, index, c, Ticked(rem))
               && forall t :: t in slots[c][..n] <==> t in Due(rem)
      ensures Rows(slots[c := slots[c][n..]], Ticked(rem), born, entered) && EnteredInOrder(slots[c][..n], born)
    {
      StillEntered(slots[c := slots[c][n..]], r1, index, c, Ticked(rem));
      DueAre(rem);
      assert Row(slots[c], rem, born);
      hide Refines, Row, Ticked, Due, EnteredInOrder;
      ScanRows(slots, slots[c := slots[c][n..]], rem, born, entered, c, n);
      DueInOrder(slots[c], rem, born, n);
    }

    lemma DueAre(rem: map<Task, int>)
      ensures forall t | t in Due(rem) :: t in rem && rem[t] == 1
    {
    }

    lemma StillEntered(slots: seq<seq<Task>>, roll: map<Task, int>, index: map<Task, int>, cursor: nat,
                       rem: map<Task, int>)
      requires Refines(slots, roll, index, cursor, rem)
      ensures forall j, t | 0 <= j < |slots| && t in slots[j] :: t in rem
    {
    }

    /** Any run of the wheel is the run of the plain map. */
    method Run(es: seq<Event>)
      requires Valid() && LegalRun(rem, es)
      modifies this
      ensures Valid() && rem == ApplyAll(old(rem), es)
    {
      var i := 0;
      while i < |es|
        invariant i <= |es| && Valid() && LegalRun(rem, es[i..]) && ApplyAll(rem, es[i..]) == ApplyAll(old(rem), es)
      {
        hide Refines;
        assert es[i..][0] == es[i] && es[i..][1..] == es[i + 1..];
        match es[i] {
          case Add(t, n) => Add(t, n);
          case Delete(t) => Delete(t);
          case Tick => var _ := Scan();
        }
        i := i + 1;
      }
    }

    /** No stored roll count and no sum of roll counts leaves its 27 bits. */
    lemma RollsFit(k: nat, i: nat)
      requires Valid() && k < SORTLINK_LEN && i < |slots[k]|
      ensures 0 <= CountOf(roll, slots[k][i]) <= Sum(slots[k], roll, i + 1) < ROLLS
    {
      SumMonotone(slots[k], roll, i, i + 1);
      assert CountAt(slots[k], roll, SORTLINK_LEN, Distance(usCursor, k), rem, i);
      assert rem[slots[k][i]] < TICKS;
    }
  }

  /** The slot and the roll count that `osTaskAdd2TimerList` computes add up to the timeout. */
  lemma AddSlot(cursor: nat, uwTimeout: nat, uwRollNum: int, uwSortIndex: nat)
    requires cursor < SORTLINK_LEN && 1 <= uwTimeout < TICKS
    requires uwRollNum == uwTimeout / SORTLINK_LEN - (if uwTimeout % SORTLINK_LEN == 0 then 1 else 0)
    requires uwSortIndex == (uwTimeout % SORTLINK_LEN + cursor) % SORTLINK_LEN
    ensures 0 <= uwRollNum < ROLLS && uwSortIndex < SORTLINK_LEN
    ensures uwRollNum * SORTLINK_LEN + Distance(cursor, uwSortIndex) == uwTimeout
  {
  }
}
